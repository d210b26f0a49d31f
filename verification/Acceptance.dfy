/** What the validator's word is worth further down: accepted updates at the rollback, accepted moves in Foundry. */
module Acceptance {
  import opened Wrappers
  import opened Trees
  import opened Paths
  import opened Dotted
  import opened Commands
  import opened Registry
  import opened Validator
  import World
  import Inverter
  import Placement
  import Text

  // ---- Updates -----------------------------------------------------------------------------------------

  /** The key names a field that `read_actor` sends back, or leads into it. */
  predicate ReadBack(key: string) {
    Covers("name", key) || Covers("img", key) || PathOf(key)[0] == "system"
  }

  lemma PlainPath(name: string)
    requires '.' !in name
    ensures PathOf(name) == [name]
  {
  }

  lemma CoversFirst(name: string, key: string)
    requires '.' !in name
    ensures Covers(name, key) <==> PathOf(key)[0] == name
  {
    PlainPath(name);
    CoversIsPathPrefix(name, key);
  }

  /** Of the keys that are accepted, the rollback reads back all but those that begin with `name` or `img` and go on
      without a dot. */
  lemma {:induction false} AcceptedReadIff(key: string)
    requires Allowed(key)
    ensures PathOf(key)[0] in World.READ_KEYS <==> ReadBack(key)
    ensures !ReadBack(key) ==> key != "id"
  {
    AllowedIffRooted(key);
    CoversFirst("name", key);
    CoversFirst("img", key);
    PlainPath("id");
    assert "name"[0] == 'n' && "img"[0] == 'i' && "img"[1] == 'm' && "type"[0] == 't' && "id"[1] == 'd';
  }

  /** The entry is restored: a read key led to a value and brought no new key below it; another led to null. */
  predicate Restored(doc: World.Actor, entry: (string, Tree)) {
    if ReadBack(entry.0) then Restorable(doc, entry) else GetAt(doc, PathOf(entry.0)) == Some(Null)
  }

  /** An accepted `update_actor` of a standing actor, none of whose keys is inside another, is taken back exactly when
      each of its entries is restored. */
  lemma {:induction false} AcceptedUpdateUndoneIff(reg: Reg, cmd: Command, w: World.World, luck: World.Luck)
    requires Agrees(reg, ActorKind) && cmd.UpdateActor? && Validated(reg, cmd).Ok?
    requires var v := Validated(reg, cmd).value; World.Has(w.actors, v.actor) && PrefixFree(v.patch)
    ensures var v := Validated(reg, cmd).value;
      var (w', r) := World.Exec(w, v, luck);
      && Inverter.Addressed(w, v)
      && (Inverter.TakenBack(w', v, Inverter.TakeSnapshot(w, reg, v, true), r.body, luck) == w <==>
            forall i | 0 <= i < |v.patch| :: Restored(World.Get(w.actors, v.actor), v.patch[i]))
  {
    var v := Validated(reg, cmd).value;
    ResolveIsLive(reg, ActorKind, cmd.actor, None);
    AcceptedIff(reg, cmd);
    Inverter.UpdateStepUndone(w, reg, v, luck);
    forall i | 0 <= i < |v.patch|
      ensures Inverter.ActorRestorable(v.actor, World.Get(w.actors, v.actor), v.patch[i]) <==>
        Restored(World.Get(w.actors, v.actor), v.patch[i])
    {
      AcceptedReadIff(v.patch[i].0);
    }
  }

  // ---- Moves -------------------------------------------------------------------------------------------

  function Amount(n: Option<int>): Option<real> {
    if n.Some? then Some(n.value as real) else None
  }

  /** The order that a `move_actor_to` gives to Foundry. */
  function OrderOf(cmd: Command): Placement.Order
    requires cmd.MoveActorTo?
  {
    Placement.Order(Amount(if cmd.at.Some? then Some(cmd.at.value.0) else None),
      Amount(if cmd.at.Some? then Some(cmd.at.value.1) else None),
      cmd.target, cmd.targetId, Amount(cmd.distanceFt), cmd.direction)
  }

  /** An accepted `move_actor_to` is refused by Foundry exactly when it names a target and none is found, or names a
      direction only, and that is unknown or the distance is negative: the validator asks for a distance, not for a
      positive one, and not for a known direction. */
  lemma {:induction false} AcceptedMoveRefusedIff(reg: Reg, cmd: Command, byId: Option<Placement.Box>,
      byName: Option<Placement.Box>)
    requires cmd.MoveActorTo? && Validated(reg, cmd).Ok?
    ensures var v := Validated(reg, cmd).value;
      Placement.AimOf(OrderOf(v), byId, byName).Err? <==>
        && v.at.None?
        && if Given(v.target) || Given(v.targetId) then
             !(Given(v.targetId) && byId.Some?) && !(Given(v.target) && byName.Some?)
           else v.distanceFt.value < 0 || Placement.Unit(v.direction.value) == (0, 0)
  {
    AcceptedIff(reg, cmd);
  }
}
