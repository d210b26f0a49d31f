/** The alias registry of Foundry scene, actor and token ids (`registry.py`). */
module Registry {
  import opened Wrappers
  import Text

  datatype Kind = SceneKind | ActorKind | TokenKind

  datatype Entry = Entry(name: string, aliases: set<string>, scene: Option<string>)

  /** A key of one of the three alias dictionaries; only tokens are scoped by scene. */
  datatype Slot = Slot(kind: Kind, scope: Option<string>, norm: string)

  type Id = (Kind, string)

  datatype Reg = Reg(entries: map<Id, Entry>, index: map<Slot, string>)

  datatype Outcome = Done | BadArgument | UnknownEntity | AliasClash

  const EMPTY := Reg(map[], map[])

  function Normalise(key: string): string {
    Text.Lower(Text.Strip(key))
  }

  function SlotOf(kind: Kind, scene: Option<string>, alias: string): Slot {
    Slot(kind, if kind.TokenKind? then scene else None, Normalise(alias))
  }

  /** The sequence lists the set, each member once: Python's iteration over a set, in whatever order. */
  ghost predicate Lists(order: seq<string>, all: set<string>) {
    && (forall i, j | 0 <= i < j < |order| :: order[i] != order[j])
    && (forall a :: a in order <==> a in all)
  }

  // ---- The mutators, as functions on registry values --------------------------------

  /** `_add_alias_locked`: refused when a live other id holds the slot; blank aliases are not indexed. */
  function AddSlot(index: map<Slot, string>, slot: Slot, fid: string): Option<map<Slot, string>> {
    if slot.norm == "" then Some(index)
    else if slot in index && index[slot] != "" && index[slot] != fid then None
    else Some(index[slot := fid])
  }

  function Aliased(reg: Reg, id: Id, alias: string): (Reg, Outcome) {
    if id !in reg.entries then (reg, UnknownEntity)
    else
      var e := reg.entries[id];
      match AddSlot(reg.index, SlotOf(id.0, e.scene, alias), id.1)
      case None => (reg, AliasClash)
      case Some(index) => (Reg(reg.entries[id := e.(aliases := e.aliases + {alias})], index), Done)
  }

  /** The alias loop of `register`; it stops where an alias clashes and keeps what went before. */
  function AddAll(reg: Reg, id: Id, order: seq<string>): (Reg, Outcome)
    decreases |order|
  {
    if order == [] then (reg, Done)
    else
      var (next, out) := Aliased(reg, id, order[0]);
      if out.Done? then AddAll(next, id, order[1..]) else (next, out)
  }

  lemma AddAllFirst(reg: Reg, id: Id, order: seq<string>)
    requires order != []
    ensures AddAll(reg, id, order) ==
      var (next, out) := Aliased(reg, id, order[0]);
      if out.Done? then AddAll(next, id, order[1..]) else (next, out)
  {
  }

  predicate GoodArguments(id: Id, name: string, scene: Option<string>) {
    id.1 != "" && name != "" && (id.0.TokenKind? ==> scene.Some? && scene.value != "")
  }

  /** The entry as `register` leaves it before the aliases are added. */
  function Enter(reg: Reg, id: Id, name: string, scene: Option<string>): Reg {
    var e := if id !in reg.entries then Entry(name, {}, scene)
      else Entry(name, reg.entries[id].aliases, if scene.Some? then scene else reg.entries[id].scene);
    reg.(entries := reg.entries[id := e])
  }

  function Registered(reg: Reg, id: Id, name: string, scene: Option<string>, order: seq<string>): (Reg, Outcome) {
    if !GoodArguments(id, name, scene) then (reg, BadArgument)
    else AddAll(Enter(reg, id, name, scene), id, order)
  }

  function SlotsOf(id: Id, e: Entry): set<Slot> {
    set a | a in e.aliases :: SlotOf(id.0, e.scene, a)
  }

  function Unregistered(reg: Reg, id: Id): Reg {
    if id !in reg.entries then reg
    else Reg(reg.entries - {id}, reg.index - SlotsOf(id, reg.entries[id]))
  }

  // ---- Lookup ------------------------------------------------------------------------

  function Matches(index: map<Slot, string>, norm: string): set<Slot> {
    set s | s in index && s.kind.TokenKind? && s.norm == norm
  }

  function Resolve(reg: Reg, kind: Kind, key: string, scene: Option<string>): Option<string> {
    if key == "" then None
    else if (kind, key) in reg.entries then Some(key)
    else
      var slot := SlotOf(kind, scene, key);
      if !kind.TokenKind? then (if slot in reg.index then Some(reg.index[slot]) else None)
      else if scene.Some? && slot in reg.index then Some(reg.index[slot])
      else
        var matches := Matches(reg.index, slot.norm);
        if |matches| == 1 then OnlyMatch(reg.index, matches) else None
  }

  function OnlyMatch(index: map<Slot, string>, matches: set<Slot>): Option<string>
    requires |matches| == 1 && matches <= index.Keys
  {
    TheOnly(matches);
    var s :| s in matches;
    Some(index[s])
  }

  lemma TheOnly(s: set<Slot>)
    requires |s| == 1
    ensures forall x, y | x in s && y in s :: x == y
  {
    forall x, y | x in s && y in s
      ensures x == y
    {
      assert |s - {x}| == 0;
      assert y in s - {x} || y == x;
    }
  }

  // ---- The registry object ------------------------------------------------------------

  class FoundryRegistry {
    var entries: map<Id, Entry>
    var index: map<Slot, string>

    function State(): Reg
      reads this
    {
      Reg(entries, index)
    }

    constructor ()
      ensures State() == EMPTY
    {
      entries, index := map[], map[];
    }

    /** `order` is the order in which Python happens to walk the set of the name, the id and the aliases. */
    method Register(id: Id, name: string, aliases: set<string>, scene: Option<string>, order: seq<string>)
      returns (out: Outcome)
      requires Lists(order, {name, id.1} + aliases)
      modifies this
      ensures (State(), out) == Registered(old(State()), id, name, scene, order)
    {
      if id.1 == "" || name == "" {
        return BadArgument;
      }
      if id.0.TokenKind? && (scene.None? || scene.value == "") {
        return BadArgument;
      }
      EnterEntry(id, name, scene);
      ghost var entered := State();
      for i := 0 to |order|
        invariant AddAll(State(), id, order[i..]) == AddAll(entered, id, order)
        invariant id in entries
      {
        AddAllFirst(State(), id, order[i..]);
        assert order[i..][0] == order[i] && order[i..][1..] == order[i + 1..];
        out := AddAlias(id, order[i]);
        if !out.Done? {
          return;
        }
      }
      assert order[|order|..] == [];
      out := Done;
    }

    method EnterEntry(id: Id, name: string, scene: Option<string>)
      modifies this
      ensures State() == Enter(old(State()), id, name, scene)
    {
      if id !in entries {
        entries := entries[id := Entry(name, {}, scene)];
      } else {
        var e := entries[id].(name := name);
        if scene.Some? {
          e := e.(scene := scene);
        }
        entries := entries[id := e];
      }
    }

    method AddAlias(id: Id, alias: string) returns (out: Outcome)
      modifies this
      ensures (State(), out) == Aliased(old(State()), id, alias)
      ensures old(id in entries) ==> id in entries
    {
      if id !in entries {
        return UnknownEntity;
      }
      var e := entries[id];
      var slot := SlotOf(id.0, e.scene, alias);
      if slot.norm != "" {
        if slot in index && index[slot] != "" && index[slot] != id.1 {
          return AliasClash;
        }
        index := index[slot := id.1];
      }
      entries := entries[id := e.(aliases := e.aliases + {alias})];
      out := Done;
    }

    method Unregister(id: Id)
      modifies this
      ensures State() == Unregistered(old(State()), id)
    {
      if id !in entries {
        return;
      }
      var e := entries[id];
      entries := entries - {id};
      var todo := e.aliases;
      while todo != {}
        invariant todo <= e.aliases
        invariant entries == old(entries) - {id}
        invariant index == old(index) - SlotsOf(id, e.(aliases := e.aliases - todo))
      {
        var alias :| alias in todo;
        index := index - {SlotOf(id.0, e.scene, alias)};
        assert SlotsOf(id, e.(aliases := e.aliases - (todo - {alias}))) ==
               SlotsOf(id, e.(aliases := e.aliases - todo)) + {SlotOf(id.0, e.scene, alias)};
        todo := todo - {alias};
      }
      assert e.(aliases := e.aliases - todo) == e;
    }
  }

  // ---- Agreement of the indexes with the entries ---------------------------------------

  ghost predicate Claims(id: Id, e: Entry, slot: Slot) {
    exists a :: a in e.aliases && SlotOf(id.0, e.scene, a) == slot
  }

  /** For one kind: each index hit is a live entry that claims it, and each non-blank claim is in the index. */
  ghost predicate Agrees(reg: Reg, kind: Kind) {
    && (forall id | id in reg.entries && id.0 == kind :: id.1 != "")
    && (forall slot | slot in reg.index && slot.kind == kind ::
          slot.norm != "" && (kind, reg.index[slot]) in reg.entries
          && Claims((kind, reg.index[slot]), reg.entries[(kind, reg.index[slot])], slot))
    && (forall id, a | id in reg.entries && id.0 == kind && a in reg.entries[id].aliases && Normalise(a) != "" ::
          var slot := SlotOf(kind, reg.entries[id].scene, a);
          slot in reg.index && reg.index[slot] == id.1)
  }

  /** A token known under one scene is registered under another. */
  predicate Moved(reg: Reg, id: Id, scene: Option<string>) {
    id.0.TokenKind? && id in reg.entries && scene.Some? && reg.entries[id].scene != scene
  }

  lemma {:induction false} AddAliasHits(reg: Reg, id: Id, alias: string, kind: Kind, s: Slot)
    requires Agrees(reg, kind) && Aliased(reg, id, alias).1.Done? && s.kind == kind
    requires s in Aliased(reg, id, alias).0.index
    ensures var next := Aliased(reg, id, alias).0;
      s.norm != "" && (kind, next.index[s]) in next.entries
      && Claims((kind, next.index[s]), next.entries[(kind, next.index[s])], s)
  {
    var next := Aliased(reg, id, alias).0;
    var e, e' := reg.entries[id], next.entries[id];
    if s.norm != "" && s == SlotOf(id.0, e.scene, alias) {
      assert alias in e'.aliases;
    } else {
      var id' := (kind, reg.index[s]);
      var a :| a in reg.entries[id'].aliases && SlotOf(kind, reg.entries[id'].scene, a) == s;
      assert a in next.entries[id'].aliases;
    }
  }

  lemma {:induction false} AddAliasClaims(reg: Reg, id: Id, alias: string, id': Id, a: string)
    requires Agrees(reg, id'.0) && Aliased(reg, id, alias).1.Done?
    requires id' in reg.entries && a in Aliased(reg, id, alias).0.entries[id'].aliases && Normalise(a) != ""
    ensures var next := Aliased(reg, id, alias).0;
      var s := SlotOf(id'.0, next.entries[id'].scene, a);
      s in next.index && next.index[s] == id'.1
  {
    if id' != id || a != alias {
      assert a in reg.entries[id'].aliases;
      var slot := SlotOf(id'.0, reg.entries[id'].scene, a);
      assert slot in reg.index && reg.index[slot] == id'.1;
    }
  }

  lemma {:induction false} AddAliasAgrees(reg: Reg, id: Id, alias: string, kind: Kind)
    requires Agrees(reg, kind)
    ensures Agrees(Aliased(reg, id, alias).0, kind)
  {
    var (next, out) := Aliased(reg, id, alias);
    if out.Done? {
      hide Claims;
      forall s | s in next.index && s.kind == kind
        ensures s.norm != "" && (kind, next.index[s]) in next.entries
        ensures Claims((kind, next.index[s]), next.entries[(kind, next.index[s])], s)
      {
        AddAliasHits(reg, id, alias, kind, s);
      }
      forall id', a | id' in next.entries && id'.0 == kind && a in next.entries[id'].aliases && Normalise(a) != ""
        ensures var s := SlotOf(kind, next.entries[id'].scene, a); s in next.index && next.index[s] == id'.1
      {
        AddAliasClaims(reg, id, alias, id', a);
      }
    }
  }

  lemma {:induction false} AddAllAgrees(reg: Reg, id: Id, order: seq<string>, kind: Kind)
    requires Agrees(reg, kind)
    ensures Agrees(AddAll(reg, id, order).0, kind)
    decreases |order|
  {
    if order != [] {
      AddAliasAgrees(reg, id, order[0], kind);
      AddAllAgrees(Aliased(reg, id, order[0]).0, id, order[1..], kind);
    }
  }

  lemma EnterAgrees(reg: Reg, id: Id, name: string, scene: Option<string>, kind: Kind)
    requires Agrees(reg, kind) && GoodArguments(id, name, scene)
    requires id.0 == kind ==> !Moved(reg, id, scene)
    ensures Agrees(Enter(reg, id, name, scene), kind)
  {
    var next := Enter(reg, id, name, scene);
    forall slot | slot in next.index && slot.kind == kind
      ensures Claims((kind, next.index[slot]), next.entries[(kind, next.index[slot])], slot)
    {
      var id' := (kind, reg.index[slot]);
      var a :| a in reg.entries[id'].aliases && SlotOf(kind, reg.entries[id'].scene, a) == slot;
      assert a in next.entries[id'].aliases && SlotOf(kind, next.entries[id'].scene, a) == slot;
    }
  }

  lemma {:induction false} AddAllGrows(reg: Reg, id: Id, order: seq<string>)
    requires id in reg.entries
    ensures var r := AddAll(reg, id, order).0;
      && r.entries.Keys == reg.entries.Keys
      && r.entries[id].scene == reg.entries[id].scene
      && r.entries[id].name == reg.entries[id].name
      && reg.entries[id].aliases <= r.entries[id].aliases
      && (forall other | other in reg.entries && other != id :: r.entries[other] == reg.entries[other])
      && (forall slot | slot in reg.index && reg.index[slot] != "" ::
            slot in r.index && r.index[slot] == reg.index[slot])
    decreases |order|
  {
    if order != [] {
      AddAllGrows(Aliased(reg, id, order[0]).0, id, order[1..]);
    }
  }

  /** `register`, whether it returns or raises at some alias, keeps a kind's index in step,
      except exactly when it moves a token that holds a non-blank alias to another scene. */
  lemma RegisterAgreesIff(reg: Reg, id: Id, name: string, scene: Option<string>, order: seq<string>, kind: Kind)
    requires Agrees(reg, kind) && GoodArguments(id, name, scene)
    ensures Agrees(Registered(reg, id, name, scene, order).0, kind) <==>
      !(id.0 == kind && Moved(reg, id, scene) && exists a :: a in reg.entries[id].aliases && Normalise(a) != "")
  {
    var entered := Enter(reg, id, name, scene);
    var r := AddAll(entered, id, order).0;
    if id.0 != kind || !Moved(reg, id, scene) {
      EnterAgrees(reg, id, name, scene, kind);
      AddAllAgrees(entered, id, order, kind);
    } else {
      AddAllGrows(entered, id, order);
      if a :| a in reg.entries[id].aliases && Normalise(a) != "" {
        var slot := SlotOf(kind, reg.entries[id].scene, a);
        assert slot in reg.index && reg.index[slot] == id.1;
        assert slot in r.index && r.index[slot] == id.1;
        assert !Claims(id, r.entries[id], slot);
      } else {
        BlankEntryMoves(reg, id, name, scene);
        AddAllAgrees(entered, id, order, kind);
      }
    }
  }

  lemma BlankEntryMoves(reg: Reg, id: Id, name: string, scene: Option<string>)
    requires Agrees(reg, id.0) && GoodArguments(id, name, scene) && id in reg.entries
    requires forall a | a in reg.entries[id].aliases :: Normalise(a) == ""
    ensures Agrees(Enter(reg, id, name, scene), id.0)
  {
    var kind, next := id.0, Enter(reg, id, name, scene);
    forall slot | slot in next.index && slot.kind == kind
      ensures Claims((kind, next.index[slot]), next.entries[(kind, next.index[slot])], slot)
    {
      var id' := (kind, reg.index[slot]);
      var a :| a in reg.entries[id'].aliases && SlotOf(kind, reg.entries[id'].scene, a) == slot;
      assert id' != id;
      assert a in next.entries[id'].aliases && SlotOf(kind, next.entries[id'].scene, a) == slot;
    }
  }

  lemma UnregisterAgrees(reg: Reg, id: Id, kind: Kind)
    requires Agrees(reg, kind)
    ensures Agrees(Unregistered(reg, id), kind)
  {
    var next := Unregistered(reg, id);
    if id in reg.entries {
      var e := reg.entries[id];
      forall slot | slot in next.index && slot.kind == kind
        ensures (kind, next.index[slot]) in next.entries
        ensures Claims((kind, next.index[slot]), next.entries[(kind, next.index[slot])], slot)
      {
        var id' := (kind, reg.index[slot]);
        var a :| a in reg.entries[id'].aliases && SlotOf(kind, reg.entries[id'].scene, a) == slot;
        assert id' == id ==> slot in SlotsOf(id, e);
        assert a in next.entries[id'].aliases;
      }
      forall id', a | id' in next.entries && id'.0 == kind && a in next.entries[id'].aliases && Normalise(a) != ""
        ensures SlotOf(kind, next.entries[id'].scene, a) in next.index
      {
        var slot := SlotOf(kind, reg.entries[id'].scene, a);
        assert slot in reg.index && reg.index[slot] == id'.1;
        assert slot in SlotsOf(id, e) ==> exists b :: b in e.aliases && SlotOf(id.0, e.scene, b) == slot;
      }
    }
  }

  // ---- Every run -----------------------------------------------------------------------

  datatype Op =
    | Registering(id: Id, name: string, scene: Option<string>, order: seq<string>)
    | Aliasing(id: Id, alias: string)
    | Unregistering(id: Id)

  function Apply(reg: Reg, op: Op): Reg {
    match op
    case Registering(id, name, scene, order) => Registered(reg, id, name, scene, order).0
    case Aliasing(id, alias) => Aliased(reg, id, alias).0
    case Unregistering(id) => Unregistered(reg, id)
  }

  function Run(reg: Reg, ops: seq<Op>): Reg
    decreases |ops|
  {
    if ops == [] then reg else Run(Apply(reg, ops[0]), ops[1..])
  }

  /** No operation of the run registers a known token under another scene. */
  predicate NoMoves(reg: Reg, ops: seq<Op>)
    decreases |ops|
  {
    ops == [] || (!(ops[0].Registering? && Moved(reg, ops[0].id, ops[0].scene))
      && NoMoves(Apply(reg, ops[0]), ops[1..]))
  }

  /** In every reachable registry, also after registrations that raised partway with the aliases taken in
      any order, scenes and actors agree with their index; tokens do if none was moved between scenes. */
  lemma RunAgrees(ops: seq<Op>)
    ensures Agrees(Run(EMPTY, ops), SceneKind) && Agrees(Run(EMPTY, ops), ActorKind)
    ensures NoMoves(EMPTY, ops) ==> Agrees(Run(EMPTY, ops), TokenKind)
  {
    RunKeepsAgreement(EMPTY, ops, SceneKind);
    RunKeepsAgreement(EMPTY, ops, ActorKind);
    if NoMoves(EMPTY, ops) {
      RunKeepsAgreement(EMPTY, ops, TokenKind);
    }
  }

  lemma {:induction false} RunKeepsAgreement(reg: Reg, ops: seq<Op>, kind: Kind)
    requires Agrees(reg, kind) && (kind.TokenKind? ==> NoMoves(reg, ops))
    ensures Agrees(Run(reg, ops), kind)
    decreases |ops|
  {
    if ops != [] {
      match ops[0] {
        case Registering(id, name, scene, order) =>
          if GoodArguments(id, name, scene) {
            RegisterAgreesIff(reg, id, name, scene, order, kind);
          }
        case Aliasing(id, alias) => AddAliasAgrees(reg, id, alias, kind);
        case Unregistering(id) => UnregisterAgrees(reg, id, kind);
      }
      RunKeepsAgreement(Apply(reg, ops[0]), ops[1..], kind);
    }
  }

  // ---- Undoing a registration ------------------------------------------------------------

  /** `r` is `reg` with one more entry and, in the index, just slots that this entry claims. */
  ghost predicate Extends(reg: Reg, r: Reg, id: Id) {
    && id in r.entries && r.entries - {id} == reg.entries
    && (forall slot | slot in reg.index :: slot in r.index && r.index[slot] == reg.index[slot])
    && (forall slot | slot in r.index :: slot in reg.index || Claims(id, r.entries[id], slot))
    && (forall slot | Claims(id, r.entries[id], slot) && slot.norm != "" :: slot in r.index && r.index[slot] == id.1)
  }

  lemma AliasExtends(reg: Reg, r: Reg, id: Id, alias: string)
    requires Extends(reg, r, id) && Aliased(r, id, alias).1.Done?
    requires forall slot | slot in reg.index :: reg.index[slot] != ""
    requires id.1 != ""
    ensures Extends(reg, Aliased(r, id, alias).0, id)
  {
    var next := Aliased(r, id, alias).0;
    var e, e' := r.entries[id], next.entries[id];
    var s := SlotOf(id.0, e.scene, alias);
    assert alias in e'.aliases && Claims(id, e', s);
    forall slot | Claims(id, e, slot)
      ensures Claims(id, e', slot)
    {
      var a :| a in e.aliases && SlotOf(id.0, e.scene, a) == slot;
      assert a in e'.aliases;
    }
    forall slot | Claims(id, e', slot) && slot != s
      ensures Claims(id, e, slot)
    {
      var a :| a in e'.aliases && SlotOf(id.0, e'.scene, a) == slot;
    }
  }

  /** A registration that raises no clash enters exactly the listed aliases, in whatever order they come. */
  lemma {:induction false} AddAllEnters(reg: Reg, r: Reg, id: Id, order: seq<string>)
    requires Extends(reg, r, id) && AddAll(r, id, order).1.Done?
    requires forall slot | slot in reg.index :: reg.index[slot] != ""
    requires id.1 != ""
    ensures Extends(reg, AddAll(r, id, order).0, id)
    ensures forall a :: a in AddAll(r, id, order).0.entries[id].aliases <==> a in r.entries[id].aliases || a in order
    decreases |order|
  {
    if order != [] {
      AliasExtends(reg, r, id, order[0]);
      AddAllEnters(reg, Aliased(r, id, order[0]).0, id, order[1..]);
    }
  }

  /** Unregistering takes back the registration of an id that was unknown, entries and indexes alike. */
  lemma UnregisterUndoesRegister(reg: Reg, id: Id, name: string, scene: Option<string>, order: seq<string>)
    requires forall kind :: Agrees(reg, kind)
    requires id !in reg.entries && Registered(reg, id, name, scene, order).1.Done?
    ensures Unregistered(Registered(reg, id, name, scene, order).0, id) == reg
  {
    var entered := Enter(reg, id, name, scene);
    IndexNamesEntries(reg, id);
    AddAllEnters(reg, entered, id, order);
    ExtensionUndone(reg, AddAll(entered, id, order).0, id);
  }

  lemma ExtensionUndone(reg: Reg, r: Reg, id: Id)
    requires Extends(reg, r, id)
    requires forall slot | slot in reg.index :: slot.norm != "" && (slot.kind == id.0 ==> reg.index[slot] != id.1)
    ensures Unregistered(r, id) == reg
  {
    var e := r.entries[id];
    assert forall slot :: slot in SlotsOf(id, e) <==> Claims(id, e, slot);
    assert (r.index - SlotsOf(id, e)) == reg.index;
  }

  lemma IndexNamesEntries(reg: Reg, id: Id)
    requires forall kind :: Agrees(reg, kind)
    requires id !in reg.entries
    ensures forall slot | slot in reg.index ::
      slot.norm != "" && reg.index[slot] != "" && (slot.kind == id.0 ==> reg.index[slot] != id.1)
  {
    forall slot | slot in reg.index
      ensures slot.norm != "" && (slot.kind, reg.index[slot]) in reg.entries && reg.index[slot] != ""
    {
      assert Agrees(reg, slot.kind);
    }
  }

  // ---- Resolving --------------------------------------------------------------------------

  /** What resolves is a live entry, and resolving it again, in any scene, gives it back. */
  lemma ResolveIsLive(reg: Reg, kind: Kind, key: string, scene: Option<string>)
    requires Agrees(reg, kind) && Resolve(reg, kind, key, scene).Some?
    ensures var id := Resolve(reg, kind, key, scene).value;
      && (kind, id) in reg.entries
      && forall scene' :: Resolve(reg, kind, id, scene') == Some(id)
  {
    if (kind, key) !in reg.entries && kind.TokenKind? {
      var slot := SlotOf(kind, scene, key);
      var matches := Matches(reg.index, slot.norm);
      if !(scene.Some? && slot in reg.index) {
        assert |matches| == 1;
        assert OnlyMatch(reg.index, matches) == Resolve(reg, kind, key, scene);
        TheOnly(matches);
        var s :| s in matches;
        assert Resolve(reg, kind, key, scene).value == reg.index[s];
      }
    }
  }

  /** An entry is found under any of its non-blank aliases, unless that alias is itself an id. */
  lemma ResolveFindsAlias(reg: Reg, id: Id, alias: string)
    requires Agrees(reg, id.0) && id in reg.entries && alias in reg.entries[id].aliases
    requires Normalise(alias) != "" && (id.0, alias) !in reg.entries
    requires id.0.TokenKind? ==> reg.entries[id].scene.Some?
    ensures Resolve(reg, id.0, alias, reg.entries[id].scene) == Some(id.1)
  {
    assert alias != "" by {
      assert Normalise("") == "";
    }
  }

  /** Each alias of a registration that raised nothing is in the index, under the entry's scene. */
  lemma {:induction false} AddAllListed(reg: Reg, id: Id, order: seq<string>)
    requires id in reg.entries && id.1 != "" && AddAll(reg, id, order).1.Done?
    ensures var r := AddAll(reg, id, order).0;
      && id in r.entries && r.entries[id].scene == reg.entries[id].scene && r.entries[id].name == reg.entries[id].name
      && forall a | a in order && Normalise(a) != "" ::
           var slot := SlotOf(id.0, reg.entries[id].scene, a);
           slot in r.index && r.index[slot] == id.1
    decreases |order|
  {
    if order != [] {
      var next := Aliased(reg, id, order[0]).0;
      AddAllListed(next, id, order[1..]);
      AddAllGrows(next, id, order[1..]);
    }
  }

  /** After a registration that raised nothing, the entry has its name and scene, and each listed alias finds it. */
  lemma {:induction false} RegisteredIsFound(reg: Reg, id: Id, name: string, scene: Option<string>,
                                             order: seq<string>, alias: string)
    requires Registered(reg, id, name, scene, order).1.Done?
    requires alias in order && Normalise(alias) != ""
      && (id.0, alias) !in Registered(reg, id, name, scene, order).0.entries
    ensures var r := Registered(reg, id, name, scene, order).0;
      && id in r.entries && r.entries[id].name == name && (scene.Some? ==> r.entries[id].scene == scene)
      && (id.0.TokenKind? ==> r.entries[id].scene.Some?)
      && Resolve(r, id.0, alias, r.entries[id].scene) == Some(id.1)
  {
    AddAllListed(Enter(reg, id, name, scene), id, order);
    assert alias != "" by {
      assert Normalise("") == "";
    }
  }

  lemma {:induction false} RegisteredEntry(reg: Reg, id: Id, name: string, scene: Option<string>, order: seq<string>)
    requires Registered(reg, id, name, scene, order).1.Done?
    ensures var r := Registered(reg, id, name, scene, order).0;
      id in r.entries && r.entries[id].name == name && (scene.Some? ==> r.entries[id].scene == scene)
  {
    AddAllGrows(Enter(reg, id, name, scene), id, order);
  }

  /** Scenes and actors are looked up without regard to a scene. */
  lemma ResolveUnscoped(reg: Reg, kind: Kind, key: string, scene: Option<string>)
    ensures !kind.TokenKind? ==> Resolve(reg, kind, key, scene) == Resolve(reg, kind, key, None)
  {
  }

  /** Two names are the same to the registry exactly when they are so without the blanks around them, whatever their
      case. */
  lemma {:induction false} NormalisedEqualIff(a: string, b: string)
    ensures Normalise(a) == Normalise(b) <==> Text.EqualFold(Text.Strip(a), Text.Strip(b))
  {
    Text.LowerEqualIff(Text.Strip(a), Text.Strip(b));
  }

  /** The entry has an alias that is the key but for case and surrounding blanks, and not blank. */
  ghost predicate GoesBy(reg: Reg, id: Id, key: string) {
    id in reg.entries && Normalise(key) != ""
    && exists a :: a in reg.entries[id].aliases && Normalise(a) == Normalise(key)
  }

  lemma {:induction false} SlotHolds(reg: Reg, kind: Kind, scope: Option<string>, key: string, fid: string)
    requires Agrees(reg, kind) && (kind.TokenKind? || scope.None?)
    ensures var (slot, id) := (Slot(kind, scope, Normalise(key)), (kind, fid));
      slot in reg.index && reg.index[slot] == fid <==>
        GoesBy(reg, id, key) && (kind.TokenKind? ==> reg.entries[id].scene == scope)
  {
    hide Normalise;
    var (slot, id) := (Slot(kind, scope, Normalise(key)), (kind, fid));
    if slot in reg.index && reg.index[slot] == fid {
      var a :| a in reg.entries[id].aliases && SlotOf(kind, reg.entries[id].scene, a) == slot;
      assert Normalise(a) == Normalise(key);
    }
    if GoesBy(reg, id, key) && (kind.TokenKind? ==> reg.entries[id].scene == scope) {
      var a :| a in reg.entries[id].aliases && Normalise(a) == Normalise(key);
      assert SlotOf(kind, reg.entries[id].scene, a) == slot;
    }
  }

  /** A key means the entry of that id; or else, for scenes and actors, the entry that goes by it; for tokens the one of
      the given scene that does, and where that scene has none, the only one anywhere. */
  ghost predicate Meant(reg: Reg, kind: Kind, key: string, scene: Option<string>, fid: string) {
    if (kind, key) in reg.entries then fid == key
    else if !kind.TokenKind? then GoesBy(reg, (kind, fid), key)
    else if scene.Some? && exists f :: GoesBy(reg, (kind, f), key) && reg.entries[(kind, f)].scene == scene then
      GoesBy(reg, (kind, fid), key) && reg.entries[(kind, fid)].scene == scene
    else GoesBy(reg, (kind, fid), key) && forall f :: GoesBy(reg, (kind, f), key) ==> f == fid
  }

  /** In a registry whose index agrees with its entries, a key resolves to an id exactly when it means that entry. */
  lemma {:induction false} ResolvesIff(reg: Reg, kind: Kind, key: string, scene: Option<string>, fid: string)
    requires Agrees(reg, kind)
    ensures Resolve(reg, kind, key, scene) == Some(fid) <==> key != "" && Meant(reg, kind, key, scene, fid)
  {
    hide Normalise, Agrees, Matches;
    if kind.TokenKind? {
      var slot := SlotOf(kind, scene, key);
      SlotHolds(reg, kind, scene, key, fid);
      if slot in reg.index {
        SlotHolds(reg, kind, scene, key, reg.index[slot]);
      }
      if f :| GoesBy(reg, (kind, f), key) && reg.entries[(kind, f)].scene == scene {
        SlotHolds(reg, kind, scene, key, f);
      }
      OnlyOneAnywhere(reg, key, fid);
    } else {
      SlotHolds(reg, kind, None, key, fid);
    }
  }

  lemma {:induction false} OnlyOneAnywhere(reg: Reg, key: string, fid: string)
    requires Agrees(reg, TokenKind)
    ensures var matches := Matches(reg.index, Normalise(key));
      |matches| == 1 && OnlyMatch(reg.index, matches) == Some(fid) <==>
        GoesBy(reg, (TokenKind, fid), key) && forall f :: GoesBy(reg, (TokenKind, f), key) ==> f == fid
  {
    hide Normalise, Agrees;
    var matches := Matches(reg.index, Normalise(key));
    forall s | s in matches
      ensures GoesBy(reg, (TokenKind, reg.index[s]), key) && reg.entries[(TokenKind, reg.index[s])].scene == s.scope
    {
      SlotHolds(reg, TokenKind, s.scope, key, reg.index[s]);
    }
    forall f | GoesBy(reg, (TokenKind, f), key)
      ensures var slot := Slot(TokenKind, reg.entries[(TokenKind, f)].scene, Normalise(key));
        slot in matches && reg.index[slot] == f
    {
      SlotHolds(reg, TokenKind, reg.entries[(TokenKind, f)].scene, key, f);
    }
    if |matches| == 1 {
      TheOnly(matches);
      var s :| s in matches;
      assert OnlyMatch(reg.index, matches) == Some(reg.index[s]);
    }
    if GoesBy(reg, (TokenKind, fid), key) && forall f :: GoesBy(reg, (TokenKind, f), key) ==> f == fid {
      var slot := Slot(TokenKind, reg.entries[(TokenKind, fid)].scene, Normalise(key));
      assert forall s | s in matches :: s == slot;
      assert matches == {slot};
    }
  }

  // ---- When a registration raises --------------------------------------------------------------

  /** The slot of the alias belongs to another id. */
  predicate Taken(reg: Reg, id: Id, scene: Option<string>, alias: string) {
    var slot := SlotOf(id.0, scene, alias);
    slot.norm != "" && slot in reg.index && reg.index[slot] != "" && reg.index[slot] != id.1
  }

  /** The aliases are all added exactly when none is taken beforehand, in whatever order they come. */
  lemma {:induction false} AddAllDoneIff(reg: Reg, id: Id, order: seq<string>)
    requires id in reg.entries
    ensures AddAll(reg, id, order).1.Done? <==> forall a | a in order :: !Taken(reg, id, reg.entries[id].scene, a)
    decreases |order|
  {
    if order != [] {
      assert order == [order[0]] + order[1..];
      if !Taken(reg, id, reg.entries[id].scene, order[0]) {
        var next := Aliased(reg, id, order[0]).0;
        AddAllDoneIff(next, id, order[1..]);
        assert forall a | a in order[1..] ::
          Taken(next, id, next.entries[id].scene, a) <==> Taken(reg, id, reg.entries[id].scene, a);
      }
    }
  }

  /** The scene that an entry has once it is registered. */
  function SceneAfter(reg: Reg, id: Id, scene: Option<string>): Option<string> {
    if id !in reg.entries || scene.Some? then scene else reg.entries[id].scene
  }

  /** `register` returns exactly when its arguments are good and no alias is taken; otherwise it raises. */
  lemma {:induction false} RegisteredDoneIff(reg: Reg, id: Id, name: string, scene: Option<string>, order: seq<string>)
    ensures Registered(reg, id, name, scene, order).1.Done? <==>
      GoodArguments(id, name, scene) && forall a | a in order :: !Taken(reg, id, SceneAfter(reg, id, scene), a)
  {
    if GoodArguments(id, name, scene) {
      var entered := Enter(reg, id, name, scene);
      AddAllDoneIff(entered, id, order);
      assert forall a :: Taken(entered, id, entered.entries[id].scene, a) <==>
        Taken(reg, id, SceneAfter(reg, id, scene), a);
    }
  }

  /** A lower-case letter stands for itself in the index. */
  lemma {:induction false} LetterNormal(s: string)
    requires |s| == 1 && 'a' <= s[0] <= 'z'
    ensures Normalise(s) == s
  {
    assert s[1..] == "";
    assert Text.StripLeft(s) == s && Text.StripRight(s) == s;
    assert Text.Lower(s) == [s[0]] + Text.Lower("");
  }
}
