/** `_formationOffset`: the outward spiral of cells that a party fans out into. */
module Formation {

  type Cell = (int, int)

  /** `_FORMATION_RING`: the centre and the first two rings. */
  const RING: seq<Cell> := [
    (0, 0),
    (1, 0), (-1, 0), (0, 1), (0, -1),
    (1, 1), (-1, 1), (1, -1), (-1, -1),
    (2, 0), (-2, 0), (0, 2), (0, -2),
    (2, 1), (-2, 1), (2, -1), (-2, -1),
    (1, 2), (-1, 2), (1, -2), (-1, -2),
    (2, 2), (-2, 2), (2, -2), (-2, -2)]

  function Abs(n: int): nat {
    if n < 0 then -n else n
  }

  /** The radius of the square ring that the cell lies on. */
  function Radius(c: Cell): nat {
    if Abs(c.0) > Abs(c.1) then Abs(c.0) else Abs(c.1)
  }

  /** The number of cells inside ring `r`: each ring has 8r of them. */
  function Inside(r: nat): nat {
    if r <= 1 then 1 else Inside(r - 1) + 8 * (r - 1)
  }

  lemma {:induction false} InsideIsSquare(r: nat)
    requires r >= 1
    ensures Inside(r) == (2 * r - 1) * (2 * r - 1)
  {
    if r > 1 {
      InsideIsSquare(r - 1);
      assert (2 * r - 1) * (2 * r - 1) == (2 * r - 3) * (2 * r - 3) + 8 * (r - 1);
    }
  }

  /** The `k`-th cell of ring `r` in the order of the nested loops: by column, and within a column upwards. */
  function Perimeter(r: nat, k: nat): Cell
    requires r >= 1 && k < 8 * r
  {
    if k < 2 * r + 1 then (0 - r, k - r)
    else if k < 6 * r - 1 then
      var j := k - (2 * r + 1);
      (1 - r + j / 2, if j % 2 == 0 then 0 - r else r)
    else (r, k - (6 * r - 1) - r)
  }

  /** The place of a cell on its ring. */
  function PlaceOnRing(c: Cell): (k: nat)
    requires c != (0, 0)
    ensures k < 8 * Radius(c)
  {
    var r := Radius(c);
    if c.0 == 0 - r then c.1 + r
    else if c.0 < r then 2 * r + 1 + 2 * (c.0 + r - 1) + (if c.1 == 0 - r then 0 else 1)
    else 6 * r - 1 + c.1 + r
  }

  lemma PerimeterOnRing(r: nat, k: nat)
    requires r >= 1 && k < 8 * r
    ensures Radius(Perimeter(r, k)) == r && PlaceOnRing(Perimeter(r, k)) == k
  {
  }

  lemma PerimeterOfPlace(c: Cell)
    requires c != (0, 0)
    ensures Perimeter(Radius(c), PlaceOnRing(c)) == c
  {
  }

  /** The ring, from `r` on, that holds index `i`. */
  function RingOf(i: nat, r: nat): (q: nat)
    requires r >= 1 && Inside(r) <= i
    ensures q >= r && Inside(q) <= i < Inside(q + 1)
    decreases i - Inside(r)
  {
    if i < Inside(r + 1) then r else RingOf(i, r + 1)
  }

  /** The cell for an index, by its ring. */
  function Offset(i: nat): Cell {
    if i < |RING| then RING[i]
    else
      var r := RingOf(i, 3);
      Perimeter(r, i - Inside(r))
  }

  /** The nested loops that list the cells of ring `r`. */
  method ListRing(r: nat) returns (ring: seq<Cell>)
    requires r >= 1
    ensures |ring| == 8 * r && forall k | 0 <= k < |ring| :: ring[k] == Perimeter(r, k)
  {
    ring := [];
    var dx: int := 0 - r;
    while dx <= r
      invariant 0 - r <= dx <= r + 1
      invariant |ring| == (if dx == 0 - r then 0 else if dx <= r then 2 * r + 1 + 2 * (dx + r - 1) else 8 * r)
      invariant forall k | 0 <= k < |ring| :: ring[k] == Perimeter(r, k)
    {
      var dy: int := 0 - r;
      ghost var before := |ring|;
      while dy <= r
        invariant 0 - r <= dy <= r + 1
        invariant |ring| == before +
          (if Abs(dx) == r then dy + r else if dy == 0 - r then 0 else if dy <= r then 1 else 2) <= 8 * r
        invariant forall k | 0 <= k < |ring| :: ring[k] == Perimeter(r, k)
      {
        if Abs(dx) == r || Abs(dy) == r {
          ring := ring + [(dx, dy)];
        }
        dy := dy + 1;
      }
      dx := dx + 1;
    }
  }

  /** `_formationOffset`; a party index is any finite number. */
  method FormationOffset(index: real) returns (cell: Cell)
    ensures cell == Offset(if index.Floor < 0 then 0 else index.Floor)
  {
    var i: nat := if index.Floor < 0 then 0 else index.Floor;
    if i < |RING| {
      return RING[i];
    }
    var consumed, r := |RING|, 3;
    while true
      invariant r >= 3 && consumed == Inside(r) <= i && RingOf(i, r) == RingOf(i, 3)
      decreases i - consumed
    {
      var ring := ListRing(r);
      if i < consumed + |ring| {
        return ring[i - consumed];
      }
      consumed := consumed + |ring|;
      r := r + 1;
    }
  }

  // ---- A bijection with the grid, ring by ring ----------------------------------------------------

  /** The index of a cell: the inverse of `Offset`. */
  function IndexOf(c: Cell): nat {
    if Radius(c) <= 2 then TableIndex(c)
    else
      Inside(Radius(c)) + PlaceOnRing(c)
  }

  function TableIndex(c: Cell): (i: nat)
    requires Radius(c) <= 2
    ensures i < |RING| && RING[i] == c
  {
    var (x, y) := (c.0, c.1);
    var sx, sy := if x > 0 then 0 else 1, if y > 0 then 0 else 1;
    if x == 0 && y == 0 then 0
    else if Abs(x) + Abs(y) == 1 then (if y == 0 then 1 + sx else 3 + sy)
    else if Radius(c) == 1 then 5 + sx + 2 * sy
    else if y == 0 then 9 + sx
    else if x == 0 then 11 + sy
    else if Abs(y) == 1 then 13 + sx + 2 * sy
    else if Abs(x) == 1 then 17 + sx + 2 * sy
    else 21 + sx + 2 * sy
  }

  lemma TableDistinct(i: nat, j: nat)
    requires i < |RING| && j < |RING| && RING[i] == RING[j]
    ensures i == j
  {
  }

  lemma TableOnRings(i: nat)
    requires i < |RING|
    ensures Radius(RING[i]) == if i == 0 then 0 else if i < 9 then 1 else 2
  {
  }

  lemma {:induction false} InsideMonotone(r: nat, q: nat)
    requires 1 <= r <= q
    ensures Inside(r) <= Inside(q)
    decreases q
  {
    if r < q {
      InsideMonotone(r, q - 1);
    }
  }

  /** Index `i` lies on the square ring of radius `r` exactly when it is one of the 8r after the (2r-1)^2 inside. */
  lemma {:induction false} OffsetOnRing(i: nat, r: nat)
    requires r >= 1
    ensures Radius(Offset(i)) == r <==> (2 * r - 1) * (2 * r - 1) <= i < (2 * r + 1) * (2 * r + 1)
  {
    var q := OffsetRing(i);
    InsideIsSquare(r);
    InsideIsSquare(r + 1);
    if i != 0 {
      if q < r {
        InsideMonotone(q + 1, r);
      } else if r < q {
        InsideMonotone(r + 1, q);
      }
    }
  }

  lemma OffsetRing(i: nat) returns (q: nat)
    ensures q == Radius(Offset(i)) && (i == 0 <==> q == 0) && (q >= 1 ==> Inside(q) <= i < Inside(q + 1))
  {
    if i < |RING| {
      TableOnRings(i);
      q := Radius(RING[i]);
    } else {
      q := RingOf(i, 3);
      PerimeterOnRing(q, i - Inside(q));
    }
  }

  lemma IndexOfTable(i: nat)
    requires i < |RING|
    ensures IndexOf(RING[i]) == i
  {
    TableOnRings(i);
    TableDistinct(TableIndex(RING[i]), i);
  }

  lemma {:induction false} IndexOfPerimeter(r: nat, k: nat)
    requires r >= 3 && k < 8 * r
    ensures IndexOf(Perimeter(r, k)) == Inside(r) + k
  {
    PerimeterOnRing(r, k);
  }

  /** Every index has a cell of its own ... */
  lemma {:induction false} IndexOfOffset(i: nat)
    ensures IndexOf(Offset(i)) == i
  {
    hide IndexOf, Perimeter;
    if i < |RING| {
      IndexOfTable(i);
    } else {
      var r := RingOf(i, 3);
      IndexOfPerimeter(r, i - Inside(r));
    }
  }

  /** ... and every cell of the grid has an index. */
  lemma {:induction false} OffsetOfIndex(c: Cell)
    ensures Offset(IndexOf(c)) == c
  {
    var r := Radius(c);
    if r > 2 {
      InsideMonotone(3, r);
      var i := IndexOf(c);
      var q := RingOf(i, 3);
      if q < r {
        InsideMonotone(q + 1, r);
      } else if r < q {
        InsideMonotone(r + 1, q);
      }
      PerimeterOfPlace(c);
    }
  }

  lemma {:induction false} OffsetInjective(i: nat, j: nat)
    requires i != j
    ensures Offset(i) != Offset(j)
  {
    IndexOfOffset(i);
    IndexOfOffset(j);
  }
}
