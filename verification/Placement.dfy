/** `moveActorTo`: where a token ends up, by destination, formation, grid and scene bounds. Lengths are in pixels, as
    reals. */
module Placement {
  import opened Wrappers
  import opened Formation
  import Text

  datatype Bounds = Bounds(grid: real, feetPerGrid: real, width: real, height: real)

  /** Something on the scene: its top-left corner and its size in grid cells. */
  datatype Box = Box(x: real, y: real, width: real, height: real)

  /** Where to: a point; a cardinal direction as a unit vector; or a target found on the scene. */
  datatype Aim =
    | Point(x: real, y: real)
    | Heading(ux: int, uy: int, paces: real)
    | Target(box: Box, feet: Option<real>, away: bool)

  // ---- What a command asks for ----------------------------------------------------------------------

  datatype Order = Order(x: Option<real>, y: Option<real>, target: Option<string>, targetId: Option<string>,
                         feet: Option<real>, direction: Option<string>)

  datatype Refusal = UnknownDirection | TargetNotFound

  predicate Given(text: Option<string>) {
    text.Some? && text.value != ""
  }

  /** `_cardinalUnit`; y grows downward. */
  function Unit(direction: string): (int, int) {
    match Text.Lower(Text.Trim(direction))
    case "north" => (0, -1)
    case "n" => (0, -1)
    case "up" => (0, -1)
    case "south" => (0, 1)
    case "s" => (0, 1)
    case "down" => (0, 1)
    case "east" => (1, 0)
    case "e" => (1, 0)
    case "right" => (1, 0)
    case "west" => (-1, 0)
    case "w" => (-1, 0)
    case "left" => (-1, 0)
    case "northeast" => (1, -1)
    case "ne" => (1, -1)
    case "northwest" => (-1, -1)
    case "nw" => (-1, -1)
    case "southeast" => (1, 1)
    case "se" => (1, 1)
    case "southwest" => (-1, 1)
    case "sw" => (-1, 1)
    case _ => (0, 0)
  }

  predicate IsAway(direction: Option<string>) {
    direction.Some? && ("away" <= Text.Lower(direction.value) || "back" <= Text.Lower(direction.value))
  }

  /** The order has a direction and a distance and no target. */
  predicate Headed(o: Order) {
    !Given(o.target) && !Given(o.targetId) && o.feet.Some? && o.feet.value > 0.0 && Given(o.direction)
  }

  /** Which of the three ways of moving applies; `byId` and `byName` are what stands on the scene under the order's
      target id and target name. */
  function AimOf(o: Order, byId: Option<Box>, byName: Option<Box>): Result<Aim, Refusal> {
    if o.x.Some? && o.y.Some? then Ok(Point(o.x.value, o.y.value))
    else if Headed(o) then
      var (ux, uy) := Unit(o.direction.value);
      if ux == 0 && uy == 0 then Err(UnknownDirection) else Ok(Heading(ux, uy, o.feet.value))
    else if Given(o.targetId) && byId.Some? then Ok(Target(byId.value, o.feet, IsAway(o.direction)))
    else if Given(o.target) && byName.Some? then Ok(Target(byName.value, o.feet, IsAway(o.direction)))
    else Err(TargetNotFound)
  }

  /** A member's slot; absent outside a party move. */
  datatype Slot = Slot(index: Option<real>, count: Option<real>)

  function Max(a: real, b: real): real {
    if a >= b then a else b
  }

  function Min(a: real, b: real): real {
    if a <= b then a else b
  }

  function AbsReal(a: real): real {
    if a < 0.0 then -a else a
  }

  /** `(cells || 1) * gridSize`. */
  function Span(cells: real, grid: real): real {
    (if cells == 0.0 then 1.0 else cells) * grid
  }

  /** `Math.round`. */
  function Round(v: real): int {
    (v + 0.5).Floor
  }

  /** From a centre to the top-left coordinate on the grid. */
  function SnapTo(center: real, span: real, grid: real): real
    requires grid > 0.0
  {
    Round((center - span / 2.0) / grid) as real * grid
  }

  function Clamp(d: real, extent: real, span: real): real {
    Max(0.0, Min(d, Max(0.0, extent - span)))
  }

  function InFormation(slot: Slot): bool {
    slot.count.Some? && slot.count.value > 1.0
  }

  function Shift(slot: Slot): Cell {
    if InFormation(slot) && slot.index.Some? && slot.index.value > 0.0 then Offset(slot.index.value.Floor) else (0, 0)
  }

  function Center(at: real, cells: real, grid: real): real {
    at + Span(cells, grid) / 2.0
  }

  function StepPx(b: Bounds, feet: real): real {
    feet * (b.grid / Max(1.0, b.feetPerGrid))
  }

  /** The share of the line to the target that a partial move covers; `seg` is the line's length. */
  function Share(step: real, seg: real, away: bool): real {
    if away && step > 0.0 then -(step / Max(seg, 1.0))
    else if seg > 0.0 then Min(1.0, step / seg)
    else 0.0
  }

  /** The point that is the share `t` of the way from `a` to `b`. */
  function Between(a: real, b: real, t: real): real {
    a + (b - a) * t
  }

  /** One coordinate of the side of the target that faces the token. */
  function Beside(at: real, cells: real, mine: real, ahead: bool, grid: real): real {
    at + if ahead then Span(cells, grid) + Span(mine, grid) / 2.0 else -(Span(mine, grid) / 2.0)
  }

  /** The centre that a move towards a target aims for, before the formation shift. */
  function BaseCenter(b: Bounds, me: Box, box: Box, feet: Option<real>, away: bool, slot: Slot, seg: real)
    : (real, real)
  {
    var tx, ty := Center(box.x, box.width, b.grid), Center(box.y, box.height, b.grid);
    var mx, my := Center(me.x, me.width, b.grid), Center(me.y, me.height, b.grid);
    if feet.Some? && feet.value > 0.0 then
      var t := Share(StepPx(b, feet.value), seg, away);
      (Between(mx, tx, t), Between(my, ty, t))
    else if InFormation(slot) then (tx, ty)
    else if AbsReal(mx - tx) >= AbsReal(my - ty) then (Beside(box.x, box.width, me.width, mx - tx >= 0.0, b.grid), ty)
    else (tx, Beside(box.y, box.height, me.height, my - ty >= 0.0, b.grid))
  }

  /** One coordinate of a destination: so many cells from `at`. */
  function Cells(at: real, k: int, grid: real): real {
    at + k as real * grid
  }

  /** One coordinate of the centre so many feet along a unit vector. */
  function Ahead(at: real, cells: real, unit: int, px: real, grid: real): real {
    Center(at, cells, grid) + unit as real * px
  }

  /** The destination before it is clamped to the scene, for a formation shift in cells. */
  function Aimed(b: Bounds, me: Box, aim: Aim, slot: Slot, shift: Cell, seg: real): (real, real)
    requires b.grid > 0.0
  {
    match aim
    case Point(x, y) => (Cells(x, shift.0, b.grid), Cells(y, shift.1, b.grid))
    case Heading(ux, uy, feet) =>
      var cx, cy := Ahead(me.x, me.width, ux, StepPx(b, feet), b.grid),
        Ahead(me.y, me.height, uy, StepPx(b, feet), b.grid);
      (SnapTo(cx, Span(me.width, b.grid), b.grid), SnapTo(cy, Span(me.height, b.grid), b.grid))
    case Target(box, feet, away) =>
      var (cx, cy) := BaseCenter(b, me, box, feet, away, slot, seg);
      (SnapTo(Cells(cx, shift.0, b.grid), Span(me.width, b.grid), b.grid),
       SnapTo(Cells(cy, shift.1, b.grid), Span(me.height, b.grid), b.grid))
  }

  function Clamped(b: Bounds, me: Box, at: (real, real)): (real, real) {
    (Clamp(at.0, b.width, Span(me.width, b.grid)), Clamp(at.1, b.height, Span(me.height, b.grid)))
  }

  function Landing(b: Bounds, me: Box, aim: Aim, slot: Slot, seg: real): (real, real)
    requires b.grid > 0.0
  {
    Clamped(b, me, Aimed(b, me, aim, slot, Shift(slot), seg))
  }

  method PartyShift(slot: Slot) returns (shift: Cell)
    ensures shift == Shift(slot)
  {
    shift := (0, 0);
    if slot.count.Some? && slot.count.value > 1.0 && slot.index.Some? && slot.index.value > 0.0 {
      shift := FormationOffset(slot.index.value);
    }
  }

  class TokenDoc {
    var x: real
    var y: real
    const width: real
    const height: real

    constructor (box: Box)
      ensures Boxed() == box
    {
      x, y, width, height := box.x, box.y, box.width, box.height;
    }

    function Boxed(): Box
      reads this
    {
      Box(x, y, width, height)
    }

    /** `seg` stands for `Math.hypot` of the line from the token's centre to the target's. */
    method MoveActorTo(b: Bounds, o: Order, byId: Option<Box>, byName: Option<Box>, slot: Slot, seg: real)
      returns (refusal: Option<Refusal>)
      requires b.grid > 0.0
      modifies this
      ensures match AimOf(o, byId, byName)
        case Err(error) => refusal == Some(error) && (x, y) == old((x, y))
        case Ok(aim) => refusal == None && (x, y) == Landing(b, old(Boxed()), aim, slot, seg)
    {
      var aim: Aim;
      if o.x.Some? && o.y.Some? {
        aim := Point(o.x.value, o.y.value);
      } else if Headed(o) {
        var (ux, uy) := Unit(o.direction.value);
        if ux == 0 && uy == 0 {
          return Some(UnknownDirection);
        }
        aim := Heading(ux, uy, o.feet.value);
      } else {
        var found := if Given(o.targetId) then byId else None;
        if found.None? && Given(o.target) {
          found := byName;
        }
        if found.None? {
          return Some(TargetNotFound);
        }
        aim := Target(found.value, o.feet, IsAway(o.direction));
      }
      var shift := PartyShift(slot);
      var destX, destY := Destination(b, aim, slot, shift, seg);
      var tokW, tokH := Span(width, b.grid), Span(height, b.grid);
      x := Max(0.0, Min(destX, Max(0.0, b.width - tokW)));
      y := Max(0.0, Min(destY, Max(0.0, b.height - tokH)));
      refusal := None;
    }

    method Destination(b: Bounds, aim: Aim, slot: Slot, shift: Cell, seg: real) returns (destX: real, destY: real)
      requires b.grid > 0.0
      ensures (destX, destY) == Aimed(b, Boxed(), aim, slot, shift, seg)
    {
      var tokW, tokH := Span(width, b.grid), Span(height, b.grid);
      match aim {
        case Point(px, py) =>
          destX, destY := px, py;
          destX := Cells(destX, shift.0, b.grid);
          destY := Cells(destY, shift.1, b.grid);
        case Heading(ux, uy, feet) =>
          var cx, cy := Ahead(x, width, ux, StepPx(b, feet), b.grid), Ahead(y, height, uy, StepPx(b, feet), b.grid);
          destX := SnapTo(cx, tokW, b.grid);
          destY := SnapTo(cy, tokH, b.grid);
        case Target(box, feet, away) =>
          var (baseCenterX, baseCenterY) := BaseCenter(b, Boxed(), box, feet, away, slot, seg);
          baseCenterX := Cells(baseCenterX, shift.0, b.grid);
          baseCenterY := Cells(baseCenterY, shift.1, b.grid);
          destX := SnapTo(baseCenterX, tokW, b.grid);
          destY := SnapTo(baseCenterY, tokH, b.grid);
      }
    }
  }

  // ---- Where a party lands ------------------------------------------------------------------------

  lemma DivideShifted(a: real, k: int, g: real)
    requires g > 0.0
    ensures Cells(a, k, g) / g == a / g + k as real
  {
    var q := a / g;
    assert q * g == a;
    assert (q + k as real) * g == a + k as real * g;
  }

  lemma RoundShifted(v: real, k: int)
    ensures Round(v + k as real) == Round(v) + k
  {
  }

  lemma Distribute(r: int, k: int, g: real)
    ensures (r + k) as real * g == Cells(r as real * g, k, g)
  {
  }

  /** Shifting the centre by whole cells shifts the snapped coordinate by as many cells. */
  lemma SnapShifted(center: real, span: real, grid: real, k: int)
    requires grid > 0.0
    ensures SnapTo(Cells(center, k, grid), span, grid) == Cells(SnapTo(center, span, grid), k, grid)
  {
    var a := center - span / 2.0;
    assert Cells(center, k, grid) - span / 2.0 == Cells(a, k, grid);
    DivideShifted(a, k, grid);
    RoundShifted(a / grid, k);
    Distribute(Round(a / grid), k, grid);
  }

  // ---- Where a lone token goes --------------------------------------------------------------------

  /** Not further apart than half a cell. */
  predicate Near(at: real, wanted: real, grid: real) {
    -(grid / 2.0) <= at - wanted <= grid / 2.0
  }

  lemma Nearest(q: real, grid: real, at: real)
    requires grid > 0.0 && q * grid == at
    ensures Near(Round(q) as real * grid, at, grid)
  {
    var off := Round(q) as real - q;
    assert -0.5 < off <= 0.5;
    assert -0.5 * grid <= off * grid <= 0.5 * grid;
    assert Round(q) as real * grid - q * grid == off * grid;
  }

  /** Snapping moves the top-left corner by at most half a cell, onto a multiple of the cell. */
  lemma {:induction false} SnapNear(center: real, span: real, grid: real)
    requires grid > 0.0
    ensures Near(SnapTo(center, span, grid), center - span / 2.0, grid)
    ensures exists k: int :: SnapTo(center, span, grid) == Cells(0.0, k, grid)
  {
    hide Round;
    var at := center - span / 2.0;
    var q := at / grid;
    Nearest(q, grid, at);
    assert SnapTo(center, span, grid) == Cells(0.0, Round(q), grid);
  }

  const NORTHWARD: set<string> := {"north", "n", "up", "northeast", "ne", "northwest", "nw"}
  const SOUTHWARD: set<string> := {"south", "s", "down", "southeast", "se", "southwest", "sw"}
  const EASTWARD: set<string> := {"east", "e", "right", "northeast", "ne", "southeast", "se"}
  const WESTWARD: set<string> := {"west", "w", "left", "northwest", "nw", "southwest", "sw"}

  /** One coordinate after so many pixels down or right, up or left, or neither. */
  function Gone(at: real, px: real, more: bool, less: bool): real {
    if more then at + px else if less then at - px else at
  }

  /** An order with a direction and a distance is refused exactly when its word, without blanks around it and whatever
      its case, is no direction. Otherwise the token lands as many feet to the north, south, east or west as it says, up
      to half a cell; north is where y is smaller. */
  lemma {:induction false} HeadingLands(b: Bounds, me: Box, o: Order, byId: Option<Box>, byName: Option<Box>,
      slot: Slot, shift: Cell, seg: real)
    requires b.grid > 0.0 && Headed(o) && (o.x.None? || o.y.None?)
    ensures var word := Text.Lower(Text.Trim(o.direction.value));
      match AimOf(o, byId, byName)
      case Err(refusal) => refusal == UnknownDirection && word !in NORTHWARD + SOUTHWARD + EASTWARD + WESTWARD
      case Ok(aim) =>
        && word in NORTHWARD + SOUTHWARD + EASTWARD + WESTWARD
        && var px := StepPx(b, o.feet.value);
           var at := Aimed(b, me, aim, slot, shift, seg);
           && px * Max(1.0, b.feetPerGrid) == o.feet.value * b.grid
           && Near(at.0, Gone(me.x, px, word in EASTWARD, word in WESTWARD), b.grid)
           && Near(at.1, Gone(me.y, px, word in SOUTHWARD, word in NORTHWARD), b.grid)
  {
    hide Unit, Aimed, Near, StepPx, Text.Lower, Text.Trim, NORTHWARD, SOUTHWARD, EASTWARD, WESTWARD;
    var (ux, uy) := Unit(o.direction.value);
    Words(o.direction.value);
    if ux != 0 || uy != 0 {
      HeadedAt(b, me, ux, uy, o.feet.value, slot, shift, seg);
      FeetInCells(b, o.feet.value);
    }
  }

  lemma FeetInCells(b: Bounds, feet: real)
    ensures StepPx(b, feet) * Max(1.0, b.feetPerGrid) == feet * b.grid
  {
    var (per, ratio) := (Max(1.0, b.feetPerGrid), b.grid / Max(1.0, b.feetPerGrid));
    assert ratio * per == b.grid;
    assert feet * ratio * per == feet * (ratio * per);
  }

  lemma {:induction false} HeadedAt(b: Bounds, me: Box, ux: int, uy: int, feet: real, slot: Slot, shift: Cell,
      seg: real)
    requires b.grid > 0.0 && -1 <= ux <= 1 && -1 <= uy <= 1
    ensures var px := StepPx(b, feet);
      var at := Aimed(b, me, Heading(ux, uy, feet), slot, shift, seg);
      && Near(at.0, Gone(me.x, px, ux == 1, ux == -1), b.grid) && Near(at.1, Gone(me.y, px, uy == 1, uy == -1), b.grid)
  {
    hide SnapTo, Near, Span, Ahead, Gone, StepPx;
    var px := StepPx(b, feet);
    var at := Aimed(b, me, Heading(ux, uy, feet), slot, shift, seg);
    assert at.0 == SnapTo(Ahead(me.x, me.width, ux, px, b.grid), Span(me.width, b.grid), b.grid);
    assert at.1 == SnapTo(Ahead(me.y, me.height, uy, px, b.grid), Span(me.height, b.grid), b.grid);
    SnapNear(Ahead(me.x, me.width, ux, px, b.grid), Span(me.width, b.grid), b.grid);
    SnapNear(Ahead(me.y, me.height, uy, px, b.grid), Span(me.height, b.grid), b.grid);
    AheadIs(me.x, me.width, ux, px, b.grid);
    AheadIs(me.y, me.height, uy, px, b.grid);
  }

  lemma Words(direction: string)
    ensures var ((ux, uy), word) := (Unit(direction), Text.Lower(Text.Trim(direction)));
      && ux == (if word in EASTWARD then 1 else if word in WESTWARD then -1 else 0)
      && uy == (if word in SOUTHWARD then 1 else if word in NORTHWARD then -1 else 0)
  {
    hide Text.Lower, Text.Trim;
  }

  lemma AheadIs(at: real, cells: real, unit: int, px: real, grid: real)
    requires -1 <= unit <= 1
    ensures Ahead(at, cells, unit, px, grid) - Span(cells, grid) / 2.0 == Gone(at, px, unit == 1, unit == -1)
  {
    assert unit == -1 || unit == 0 || unit == 1;
  }

  /** Where one side of a box of this width, that stands at `mine`, goes so that it touches the other, from the side it
      is on. */
  function Touching(at: real, cells: real, mine: real, myCells: real, grid: real): real {
    if Center(mine, myCells, grid) >= Center(at, cells, grid) then at + Span(cells, grid) else at - Span(myCells, grid)
  }

  /** A coordinate at which two boxes have the same centre. */
  function Aligned(at: real, cells: real, myCells: real, grid: real): real {
    Center(at, cells, grid) - Span(myCells, grid) / 2.0
  }

  /** A lone token that is sent to a target without a distance ends beside it: on the axis on which they are further
      apart it touches the target from its own side, on the other it is level with it, up to half a cell. A lone token
      that is sent to a point ends there exactly. */
  lemma {:induction false} LoneLands(b: Bounds, me: Box, aim: Aim, slot: Slot, seg: real)
    requires b.grid > 0.0 && !InFormation(slot)
    ensures Shift(slot) == (0, 0)
    ensures var at := Aimed(b, me, aim, slot, Shift(slot), seg);
      match aim
      case Point(x, y) => at == (x, y)
      case Target(box, feet, _) =>
        if feet.Some? && feet.value > 0.0 then true
        else
          var dx := AbsReal(Center(me.x, me.width, b.grid) - Center(box.x, box.width, b.grid));
          var dy := AbsReal(Center(me.y, me.height, b.grid) - Center(box.y, box.height, b.grid));
          && Near(at.0, if dx >= dy then Touching(box.x, box.width, me.x, me.width, b.grid)
               else Aligned(box.x, box.width, me.width, b.grid), b.grid)
          && Near(at.1, if dx >= dy then Aligned(box.y, box.height, me.height, b.grid)
               else Touching(box.y, box.height, me.y, me.height, b.grid), b.grid)
      case Heading(_, _, _) => true
  {
    if aim.Target? {
      var (cx, cy) := BaseCenter(b, me, aim.box, aim.feet, aim.away, slot, seg);
      SnapNear(Cells(cx, 0, b.grid), Span(me.width, b.grid), b.grid);
      SnapNear(Cells(cy, 0, b.grid), Span(me.height, b.grid), b.grid);
      assert Cells(cx, 0, b.grid) == cx && Cells(cy, 0, b.grid) == cy;
    }
    hide SnapTo, Near;
  }

  /** A party move: everybody has the same destination and no distance is given. */
  predicate Shared(aim: Aim) {
    aim.Point? || (aim.Target? && (aim.feet.None? || aim.feet.value <= 0.0))
  }

  /** Where the token of a party member is sent when it is not shifted; where it stands does not matter. */
  function Anchor(b: Bounds, width: real, height: real, aim: Aim): (real, real)
    requires b.grid > 0.0 && Shared(aim)
  {
    match aim
    case Point(x, y) => (x, y)
    case Target(box, _, _) =>
      (SnapTo(Center(box.x, box.width, b.grid), Span(width, b.grid), b.grid),
       SnapTo(Center(box.y, box.height, b.grid), Span(height, b.grid), b.grid))
  }

  lemma MemberShift(b: Bounds, me: Box, aim: Aim, slot: Slot, shift: Cell, seg: real)
    requires b.grid > 0.0 && Shared(aim) && InFormation(slot)
    ensures var anchor := Anchor(b, me.width, me.height, aim);
      Aimed(b, me, aim, slot, shift, seg) == (Cells(anchor.0, shift.0, b.grid), Cells(anchor.1, shift.1, b.grid))
  {
    if aim.Target? {
      SnapShifted(Center(aim.box.x, aim.box.width, b.grid), Span(me.width, b.grid), b.grid, shift.0);
      SnapShifted(Center(aim.box.y, aim.box.height, b.grid), Span(me.height, b.grid), b.grid, shift.1);
    }
  }

  lemma CellsApart(at: real, k: int, l: int, grid: real)
    requires k != l && grid > 0.0
    ensures Cells(at, k, grid) != Cells(at, l, grid)
  {
    assert (k - l) as real * grid == k as real * grid - l as real * grid;
  }

  /** Members of one party with equal tokens and different offsets aim at different places. */
  lemma {:induction false} MembersApart(b: Bounds, me: Box, you: Box, aim: Aim, mine: Slot, yours: Slot, c: Cell,
      d: Cell, seg: real, seg': real)
    requires b.grid > 0.0 && Shared(aim) && me.width == you.width && me.height == you.height
    requires InFormation(mine) && InFormation(yours) && c != d
    ensures Aimed(b, me, aim, mine, c, seg) != Aimed(b, you, aim, yours, d, seg')
  {
    MemberShift(b, me, aim, mine, c, seg);
    MemberShift(b, you, aim, yours, d, seg');
    var anchor := Anchor(b, me.width, me.height, aim);
    if c.0 != d.0 {
      CellsApart(anchor.0, c.0, d.0, b.grid);
    } else {
      CellsApart(anchor.1, c.1, d.1, b.grid);
    }
  }

  /** The slots that the party move hands out: 0, 1, 2, ... of so many. */
  function SlotOf(i: nat, count: nat): Slot {
    Slot(Some(i as real), Some(count as real))
  }

  lemma SlotOffset(i: nat, count: nat)
    requires count > 1
    ensures InFormation(SlotOf(i, count)) && Shift(SlotOf(i, count)) == Offset(i)
  {
    assert (i as real).Floor == i;
    if i == 0 {
      assert Offset(0) == (0, 0);
    }
  }

  lemma {:induction false} SlotsApart(i: nat, j: nat, count: nat)
    requires count > 1 && i != j
    ensures Shift(SlotOf(i, count)) != Shift(SlotOf(j, count))
  {
    SlotOffset(i, count);
    SlotOffset(j, count);
    OffsetInjective(i, j);
  }

  /** The position lies where the token fits into the scene. */
  predicate Fits(b: Bounds, me: Box, at: (real, real)) {
    0.0 <= at.0 <= b.width - Span(me.width, b.grid) && 0.0 <= at.1 <= b.height - Span(me.height, b.grid)
  }

  function AimedIn(b: Bounds, members: seq<Box>, aim: Aim, i: nat, seg: real): (real, real)
    requires b.grid > 0.0 && i < |members|
  {
    Aimed(b, members[i], aim, SlotOf(i, |members|), Shift(SlotOf(i, |members|)), seg)
  }

  /** A whole party of equal tokens: no two members are sent to the same place, and as long as clamping
      does not bind for two of them, these do not land on the same place. */
  lemma {:induction false} PartyLandsApart(b: Bounds, members: seq<Box>, aim: Aim, i: nat, j: nat, segs: seq<real>)
    requires b.grid > 0.0 && Shared(aim) && i < |members| && j < |members| && i != j && |segs| == |members|
    requires members[i].width == members[j].width && members[i].height == members[j].height
    ensures AimedIn(b, members, aim, i, segs[i]) != AimedIn(b, members, aim, j, segs[j])
    ensures
      (Fits(b, members[i], AimedIn(b, members, aim, i, segs[i])) &&
       Fits(b, members[j], AimedIn(b, members, aim, j, segs[j]))) ==>
        Landing(b, members[i], aim, SlotOf(i, |members|), segs[i]) !=
        Landing(b, members[j], aim, SlotOf(j, |members|), segs[j])
  {
    SlotsApart(i, j, |members|);
    SlotOffset(i, |members|);
    SlotOffset(j, |members|);
    MembersApart(b, members[i], members[j], aim, SlotOf(i, |members|), SlotOf(j, |members|),
      Shift(SlotOf(i, |members|)), Shift(SlotOf(j, |members|)), segs[i], segs[j]);
  }

  /** Along one axis, clamping to `room` sends both coordinates to one. */
  predicate OneSpot(p: real, q: real, room: real) {
    p == q || (p <= 0.0 && q <= 0.0) || (p >= room && q >= room) || room <= 0.0
  }

  lemma ClampedTogetherIff(p: real, q: real, extent: real, span: real)
    ensures Clamp(p, extent, span) == Clamp(q, extent, span) <==> OneSpot(p, q, extent - span)
  {
  }

  lemma CellsEqualIff(at: real, k: int, l: int, grid: real)
    requires grid > 0.0
    ensures Cells(at, k, grid) == Cells(at, l, grid) <==> k == l
  {
    if k != l {
      CellsApart(at, k, l, grid);
    }
  }

  /** Along one axis, the offsets `k` and `l` from an anchor are one, or both lead off the scene on one side, or the
      scene has no room. */
  predicate Stacks(at: real, k: int, l: int, grid: real, room: real) {
    k == l || (Cells(at, k, grid) <= 0.0 && Cells(at, l, grid) <= 0.0)
    || (Cells(at, k, grid) >= room && Cells(at, l, grid) >= room) || room <= 0.0
  }

  /** Two members of a party with equal tokens land on one place exactly when their offsets stack on both axes. */
  lemma {:induction false} PartyStacksIff(b: Bounds, members: seq<Box>, aim: Aim, i: nat, j: nat, segs: seq<real>)
    requires b.grid > 0.0 && Shared(aim) && i < |members| && j < |members| && i != j && |segs| == |members|
    requires members[i].width == members[j].width && members[i].height == members[j].height
    ensures var me, anchor := members[i], Anchor(b, members[i].width, members[i].height, aim);
      Landing(b, members[i], aim, SlotOf(i, |members|), segs[i]) ==
        Landing(b, members[j], aim, SlotOf(j, |members|), segs[j])
      <==>
      && Stacks(anchor.0, Offset(i).0, Offset(j).0, b.grid, b.width - Span(me.width, b.grid))
      && Stacks(anchor.1, Offset(i).1, Offset(j).1, b.grid, b.height - Span(me.height, b.grid))
  {
    hide Offset;
    var me, you, n := members[i], members[j], |members|;
    var anchor := Anchor(b, me.width, me.height, aim);
    SlotOffset(i, n);
    SlotOffset(j, n);
    MemberShift(b, me, aim, SlotOf(i, n), Offset(i), segs[i]);
    MemberShift(b, you, aim, SlotOf(j, n), Offset(j), segs[j]);
    var p, q := AimedIn(b, members, aim, i, segs[i]), AimedIn(b, members, aim, j, segs[j]);
    ClampedTogetherIff(p.0, q.0, b.width, Span(me.width, b.grid));
    ClampedTogetherIff(p.1, q.1, b.height, Span(me.height, b.grid));
    CellsEqualIff(anchor.0, Offset(i).0, Offset(j).0, b.grid);
    CellsEqualIff(anchor.1, Offset(i).1, Offset(j).1, b.grid);
  }

  /** Clamping is what can stack a party: two members sent to one corner share it. */
  lemma ClampingCanStack()
    ensures var b, me, aim := Bounds(100.0, 5.0, 1000.0, 1000.0), Box(500.0, 500.0, 1.0, 1.0), Point(900.0, 900.0);
      Landing(b, me, aim, SlotOf(0, 2), 0.0) == Landing(b, me, aim, SlotOf(1, 2), 0.0) == (900.0, 900.0)
  {
    SlotOffset(0, 2);
    SlotOffset(1, 2);
    assert Offset(0) == (0, 0) && Offset(1) == (1, 0);
  }

  /** Clamping leaves a token no larger than the scene wholly inside it, wherever it was sent,
      and moves it exactly when it would not have fitted there. */
  lemma ClampedFits(b: Bounds, me: Box, at: (real, real))
    requires Span(me.width, b.grid) <= b.width && Span(me.height, b.grid) <= b.height
    ensures Fits(b, me, Clamped(b, me, at))
    ensures Clamped(b, me, at) == at <==> Fits(b, me, at)
  {
  }

  // ---- Partial moves --------------------------------------------------------------------------------

  /** How far a partial move of `step` goes when the target is `seg` away. */
  function Covered(step: real, seg: real, away: bool): real {
    if !away then Min(step, seg) else if seg >= 1.0 then step else step * seg
  }

  /** A partial move towards a target covers the ordered distance or the way to the target, whichever is less; one away
      covers the ordered distance, less only when the target is not a whole pixel away. */
  lemma PartialDistance(dx: real, dy: real, seg: real, step: real, away: bool)
    requires seg >= 0.0 && seg * seg == dx * dx + dy * dy && step > 0.0
    ensures var t, moved := Share(step, seg, away), Covered(step, seg, away);
      (dx * t) * (dx * t) + (dy * t) * (dy * t) == moved * moved && (t < 0.0 <==> away)
  {
    hide Share, Covered;
    ShareLength(step, seg, away);
    SquaresScale(dx, dy, seg, Share(step, seg, away), Covered(step, seg, away));
  }

  lemma ShareLength(step: real, seg: real, away: bool)
    requires seg >= 0.0 && step > 0.0
    ensures AbsReal(Share(step, seg, away)) * seg == Covered(step, seg, away)
    ensures Share(step, seg, away) < 0.0 <==> away
  {
    if away {
      if seg >= 1.0 {
        Quotient(step, seg);
        assert Share(step, seg, away) == -(step / seg);
      } else {
        assert step / 1.0 == step;
        assert Share(step, seg, away) == -step;
      }
    } else if seg > 0.0 {
      Quotient(step, seg);
      assert Share(step, seg, away) == Min(1.0, step / seg);
    }
  }

  lemma Quotient(a: real, b: real)
    requires a > 0.0 && b > 0.0
    ensures a / b > 0.0 && a / b * b == a && (a / b <= 1.0 <==> a <= b)
  {
    var q := a / b;
    assert q * b == a;
    if q <= 1.0 {
      assert q * b <= 1.0 * b;
    } else {
      assert q * b > 1.0 * b;
    }
  }

  lemma SquaresScale(dx: real, dy: real, seg: real, t: real, moved: real)
    requires seg * seg == dx * dx + dy * dy && AbsReal(t) * seg == moved
    ensures (dx * t) * (dx * t) + (dy * t) * (dy * t) == moved * moved
  {
    calc {
      (dx * t) * (dx * t) + (dy * t) * (dy * t);
      (dx * dx + dy * dy) * (t * t);
      (seg * seg) * (t * t);
      (t * seg) * (t * seg);
    }
  }

  /** So a token sent part of the way from (mx, my) to or from (tx, ty) is, before snapping, that far from its place. */
  lemma PartialMove(mx: real, my: real, tx: real, ty: real, seg: real, step: real, away: bool)
    requires seg >= 0.0 && seg * seg == (tx - mx) * (tx - mx) + (ty - my) * (ty - my) && step > 0.0
    ensures var t, moved := Share(step, seg, away), Covered(step, seg, away);
      var (ex, ey) := (Between(mx, tx, t) - mx, Between(my, ty, t) - my);
      ex * ex + ey * ey == moved * moved
  {
    hide Share, Covered, Between;
    BetweenBy(mx, tx, Share(step, seg, away));
    BetweenBy(my, ty, Share(step, seg, away));
    PartialDistance(tx - mx, ty - my, seg, step, away);
  }

  lemma BetweenBy(a: real, b: real, t: real)
    ensures Between(a, b, t) - a == (b - a) * t
  {
  }
}
