/** `BatchExecutor`: commands one by one, and on a failure the inverses of the successes, last first. */
module Batch {
  import opened Wrappers
  import opened Dotted
  import opened Commands
  import opened World
  import opened Registry
  import opened Inverter
  import opened Trees
  import Text

  /** What becomes of a submitted command: answered; lost unrun; run but not answered in time; run after all is over. */
  datatype Fate = Answered | NeverRuns | RunsUnanswered | RunsLater

  /** Everything the environment decides about one step. `order` is how Python walks a set of aliases. */
  datatype Turn = Turn(snapshotAnswered: bool, run: Fate, luck: Luck, order: set<string> -> seq<string>,
      undoAnswered: bool, undoRuns: bool)

  datatype Sys = Sys(world: World, reg: Reg)

  /** A step that succeeded, as kept for the rollback. */
  datatype Step = Step(cmd: Command, snap: Snap, body: Body, turn: Turn)

  datatype Undoing = Undoing(sys: Sys, rolledBack: seq<Command>, errors: nat)

  /** `escaped` is an exception that left `execute`: the alias clash that the registry raises. */
  datatype Report = Report(sys: Sys, ok: bool, escaped: bool, steps: nat, rolledBack: seq<Command>, errors: nat)

  // ---- The registry updates ----------------------------------------------------------------------

  datatype Registration = Registration(id: Id, name: string, aliases: set<string>, scene: Option<string>)

  function RegistrationOf(cmd: Command, body: Body): Option<Registration> {
    if !body.Created? || body.id == "" then None
    else
      match cmd
      case CreateScene(name, _, _, _) =>
        Some(Registration((SceneKind, body.id), if body.docName != "" then body.docName else name, {name}, None))
      case CreateActor(name, _, _, _, aliases) =>
        Some(Registration((ActorKind, body.id), if body.docName != "" then body.docName else name,
          {name} + (set a | a in aliases && a != ""), None))
      case SpawnToken(sceneId, _, _, _, tokenName) =>
        if tokenName.Some? && tokenName.value != "" then
          Some(Registration((TokenKind, body.id), tokenName.value, {tokenName.value}, Some(sceneId)))
        else Some(Registration((TokenKind, body.id), body.id, {}, Some(sceneId)))
      case _ => None
  }

  function NamesOf(r: Registration): set<string> {
    {r.name, r.id.1} + r.aliases
  }

  function RegisterSuccess(reg: Reg, cmd: Command, body: Body, order: set<string> -> seq<string>): (Reg, Outcome) {
    match RegistrationOf(cmd, body)
    case None => (reg, Outcome.Done)
    case Some(r) => Registered(reg, r.id, r.name, r.scene, order(NamesOf(r)))
  }

  function UnregisterInverse(reg: Reg, inverse: Command): Reg {
    match inverse
    case DeleteScene(id) => Unregistered(reg, (SceneKind, id))
    case DeleteActor(id) => Unregistered(reg, (ActorKind, id))
    case DeleteToken(_, id) => Unregistered(reg, (TokenKind, id))
    case _ => reg
  }

  // ---- The run, as a function ----------------------------------------------------------------------

  /** One inverse. Its reply is not unwrapped, so an answered failure counts as rolled back. */
  function UndoOne(sys: Sys, inverse: Command, turn: Turn): Sys {
    var world := if turn.undoAnswered || turn.undoRuns then Exec(sys.world, inverse, turn.luck).0 else sys.world;
    Sys(world, if turn.undoAnswered then UnregisterInverse(sys.reg, inverse) else sys.reg)
  }

  /** `_rollback`: the successes in reverse, those without an inverse skipped. */
  function Rollback(sys: Sys, done: seq<Step>): Undoing
    decreases |done|
  {
    if |done| == 0 then Undoing(sys, [], 0)
    else
      var (last, earlier) := (done[|done| - 1], done[..|done| - 1]);
      match Inverse(last.cmd, last.snap, last.body)
      case None => Rollback(sys, earlier)
      case Some(inverse) =>
        var rest := Rollback(UndoOne(sys, inverse, last.turn), earlier);
        if last.turn.undoAnswered then rest.(rolledBack := [inverse] + rest.rolledBack)
          else rest.(errors := rest.errors + 1)
  }

  /** The end of a run whose step `cmd` failed or was not answered. */
  function Fail(sys: Sys, done: seq<Step>, cmd: Command, turn: Turn, atomic: bool): Report {
    var after := Exec(sys.world, cmd, turn.luck).0;
    var start := if turn.run.Answered? || turn.run.RunsUnanswered? then Sys(after, sys.reg) else sys;
    var undoing := if atomic then Rollback(start, done) else Undoing(start, [], 0);
    var world := if turn.run.RunsLater? then Exec(undoing.sys.world, cmd, turn.luck).0 else undoing.sys.world;
    Report(Sys(world, undoing.sys.reg), false, false, |done|, undoing.rolledBack, undoing.errors)
  }

  function Execute(sys: Sys, done: seq<Step>, cmds: seq<Command>, turns: seq<Turn>, atomic: bool): Report
    requires |turns| == |cmds|
    decreases |cmds|
  {
    if cmds == [] then Report(sys, true, false, |done|, [], 0)
    else
      var (cmd, turn) := (cmds[0], turns[0]);
      var (world, response) := Exec(sys.world, cmd, turn.luck);
      if !turn.run.Answered? || response.Failure? then Fail(sys, done, cmd, turn, atomic)
      else
        var snap := TakeSnapshot(sys.world, sys.reg, cmd, turn.snapshotAnswered);
        var (reg, out) := RegisterSuccess(sys.reg, cmd, response.body, turn.order);
        if !out.Done? then Report(Sys(world, reg), false, true, |done| + 1, [], 0)
        else Execute(Sys(world, reg), done + [Step(cmd, snap, response.body, turn)], cmds[1..], turns[1..], atomic)
  }

  lemma RollbackLast(sys: Sys, earlier: seq<Step>, last: Step)
    ensures Rollback(sys, earlier + [last]) ==
      match Inverse(last.cmd, last.snap, last.body)
      case None => Rollback(sys, earlier)
      case Some(inverse) =>
        var rest := Rollback(UndoOne(sys, inverse, last.turn), earlier);
        if last.turn.undoAnswered then rest.(rolledBack := [inverse] + rest.rolledBack)
          else rest.(errors := rest.errors + 1)
  {
    assert (earlier + [last])[..|earlier|] == earlier;
  }

  // ---- The objects -----------------------------------------------------------------------------------

  class Foundry {
    var world: World

    constructor (world: World)
      ensures this.world == world
    {
      this.world := world;
    }

    method Submit(cmd: Command, luck: Luck) returns (response: Response)
      modifies this
      ensures (world, response) == Exec(old(world), cmd, luck)
    {
      var (after, r) := Exec(world, cmd, luck);
      world, response := after, r;
    }
  }

  class BatchExecutor {
    const foundry: Foundry
    const registry: FoundryRegistry

    constructor (foundry: Foundry, registry: FoundryRegistry)
      ensures this.foundry == foundry && this.registry == registry
    {
      this.foundry, this.registry := foundry, registry;
    }

    function Now(): Sys
      reads this, foundry, registry
    {
      Sys(foundry.world, registry.State())
    }

    method UpdateRegistryAfterSuccess(cmd: Command, body: Body, order: set<string> -> seq<string>)
      returns (out: Outcome)
      requires forall s :: Lists(order(s), s)
      modifies registry
      ensures (registry.State(), out) == RegisterSuccess(old(registry.State()), cmd, body, order)
    {
      match RegistrationOf(cmd, body) {
        case None =>
          out := Outcome.Done;
        case Some(r) =>
          out := registry.Register(r.id, r.name, r.aliases, r.scene, order(NamesOf(r)));
      }
    }

    method UpdateRegistryAfterRollback(inverse: Command)
      modifies registry
      ensures registry.State() == UnregisterInverse(old(registry.State()), inverse)
    {
      match inverse {
        case DeleteScene(id) => registry.Unregister((SceneKind, id));
        case DeleteActor(id) => registry.Unregister((ActorKind, id));
        case DeleteToken(_, id) => registry.Unregister((TokenKind, id));
        case _ =>
      }
    }

    /** Whether the inverse was answered; only then is the registry updated. */
    method Undo(inverse: Command, turn: Turn) returns (answered: bool)
      requires foundry as object != registry
      modifies foundry, registry
      ensures Now() == UndoOne(old(Now()), inverse, turn) && answered == turn.undoAnswered
    {
      if turn.undoAnswered || turn.undoRuns {
        var _ := foundry.Submit(inverse, turn.luck);
      }
      if !turn.undoAnswered {
        return false;
      }
      UpdateRegistryAfterRollback(inverse);
      answered := true;
    }

    method DoRollback(done: seq<Step>) returns (rolledBack: seq<Command>, errors: nat)
      requires foundry as object != registry
      modifies foundry, registry
      ensures Undoing(Now(), rolledBack, errors) == Rollback(old(Now()), done)
    {
      rolledBack, errors := [], 0;
      var i := |done|;
      ghost var whole := Rollback(Now(), done);
      assert done[..i] == done;
      while i > 0
        invariant 0 <= i <= |done|
        invariant var rest := Rollback(Now(), done[..i]);
          whole == Undoing(rest.sys, rolledBack + rest.rolledBack, errors + rest.errors)
      {
        i := i - 1;
        var step := done[i];
        assert done[..i + 1] == done[..i] + [step];
        RollbackLast(Now(), done[..i], step);
        var inverse := Inverse(step.cmd, step.snap, step.body);
        if inverse.Some? {
          var answered := Undo(inverse.value, step.turn);
          if answered {
            rolledBack := rolledBack + [inverse.value];
          } else {
            errors := errors + 1;
          }
        }
      }
      assert done[..0] == [];
    }

    method DoExecute(cmds: seq<Command>, turns: seq<Turn>, atomic: bool)
      returns (ok: bool, escaped: bool, steps: nat, rolledBack: seq<Command>, errors: nat)
      requires foundry as object != registry
      requires |turns| == |cmds| && forall t | t in turns :: forall s :: Lists(t.order(s), s)
      modifies foundry, registry
      ensures Report(Now(), ok, escaped, steps, rolledBack, errors) == Execute(old(Now()), [], cmds, turns, atomic)
    {
      ok, escaped, steps, rolledBack, errors := true, false, 0, [], 0;
      var done: seq<Step> := [];
      assert cmds[0..] == cmds && turns[0..] == turns;
      for i := 0 to |cmds|
        invariant ok && !escaped && rolledBack == [] && errors == 0 && steps == |done|
        invariant Execute(Now(), done, cmds[i..], turns[i..], atomic) == Execute(old(Now()), [], cmds, turns, atomic)
      {
        var cmd, turn := cmds[i], turns[i];
        assert cmds[i..][1..] == cmds[i + 1..] && turns[i..][1..] == turns[i + 1..];
        assert cmds[i..][0] == cmd && turns[i..][0] == turn;
        var snap := TakeSnapshot(foundry.world, registry.State(), cmd, turn.snapshotAnswered);
        var response := Failure;
        if turn.run.Answered? || turn.run.RunsUnanswered? {
          response := foundry.Submit(cmd, turn.luck);
        }
        if !turn.run.Answered? || response.Failure? {
          ok := false;
          if atomic {
            rolledBack, errors := DoRollback(done);
          }
          if turn.run.RunsLater? {
            var _ := foundry.Submit(cmd, turn.luck);
          }
          return;
        }
        steps := steps + 1;
        var out := UpdateRegistryAfterSuccess(cmd, response.body, turn.order);
        if !out.Done? {
          ok, escaped := false, true;
          return;
        }
        done := done + [Step(cmd, snap, response.body, turn)];
      }
    }
  }

  // ---- How a batch ends ------------------------------------------------------------------------------

  /** Python walks each set in some order, every member once. */
  ghost predicate Fair(turn: Turn) {
    forall s :: Lists(turn.order(s), s)
  }

  /** What the success of the command registers has good arguments and none of its aliases is taken. */
  predicate Registers(reg: Reg, cmd: Command, body: Body) {
    match RegistrationOf(cmd, body)
    case None => true
    case Some(r) =>
      && GoodArguments(r.id, r.name, r.scene)
      && forall a | a in NamesOf(r) :: !Taken(reg, r.id, SceneAfter(reg, r.id, r.scene), a)
  }

  lemma {:induction false} RegistersIff(reg: Reg, cmd: Command, body: Body, turn: Turn)
    requires Fair(turn)
    ensures RegisterSuccess(reg, cmd, body, turn.order).1.Done? <==> Registers(reg, cmd, body)
  {
    match RegistrationOf(cmd, body) {
      case None =>
      case Some(r) =>
        assert Lists(turn.order(NamesOf(r)), NamesOf(r));
        RegisteredDoneIff(reg, r.id, r.name, r.scene, turn.order(NamesOf(r)));
    }
  }

  /** The step is answered with success. */
  predicate Works(sys: Sys, cmd: Command, turn: Turn) {
    turn.run.Answered? && Exec(sys.world, cmd, turn.luck).1.Success?
  }

  predicate Succeeds(sys: Sys, cmd: Command, turn: Turn) {
    Works(sys, cmd, turn) && Registers(sys.reg, cmd, Exec(sys.world, cmd, turn.luck).1.body)
  }

  /** The step is answered with success, but the registry refuses what it created. */
  predicate Clashes(sys: Sys, cmd: Command, turn: Turn) {
    Works(sys, cmd, turn) && !Registers(sys.reg, cmd, Exec(sys.world, cmd, turn.luck).1.body)
  }

  /** The system after a step that is answered with success. */
  function Next(sys: Sys, cmd: Command, turn: Turn): Sys {
    var (world, response) := Exec(sys.world, cmd, turn.luck);
    if response.Failure? then sys else Sys(world, RegisterSuccess(sys.reg, cmd, response.body, turn.order).0)
  }

  /** The system after the first `k` steps, all of them answered with success. */
  function After(sys: Sys, cmds: seq<Command>, turns: seq<Turn>, k: nat): Sys
    requires k <= |cmds| == |turns|
    decreases k
  {
    if k == 0 then sys else After(Next(sys, cmds[0], turns[0]), cmds[1..], turns[1..], k - 1)
  }

  /** The first `k` steps succeed. */
  predicate AllSucceed(sys: Sys, cmds: seq<Command>, turns: seq<Turn>, k: nat)
    requires k <= |cmds| == |turns|
    decreases k
  {
    k == 0 || (Succeeds(sys, cmds[0], turns[0])
      && AllSucceed(Next(sys, cmds[0], turns[0]), cmds[1..], turns[1..], k - 1))
  }

  /** The first `k` steps succeed and the registry refuses what the next one created. */
  predicate EscapesAt(sys: Sys, cmds: seq<Command>, turns: seq<Turn>, k: nat)
    requires k < |cmds| == |turns|
  {
    AllSucceed(sys, cmds, turns, k) && Clashes(After(sys, cmds, turns, k), cmds[k], turns[k])
  }

  function StepOf(sys: Sys, cmd: Command, turn: Turn): Step
    requires Exec(sys.world, cmd, turn.luck).1.Success?
  {
    Step(cmd, TakeSnapshot(sys.world, sys.reg, cmd, turn.snapshotAnswered), Exec(sys.world, cmd, turn.luck).1.body,
      turn)
  }

  lemma {:induction false} FirstStep(sys: Sys, done: seq<Step>, cmds: seq<Command>, turns: seq<Turn>, atomic: bool)
    requires 0 < |cmds| == |turns| && Fair(turns[0]) && Succeeds(sys, cmds[0], turns[0])
    ensures Execute(sys, done, cmds, turns, atomic) ==
      Execute(Next(sys, cmds[0], turns[0]), done + [StepOf(sys, cmds[0], turns[0])], cmds[1..], turns[1..], atomic)
  {
    RegistersIff(sys.reg, cmds[0], Exec(sys.world, cmds[0], turns[0].luck).1.body, turns[0]);
  }

  lemma {:induction false} FirstClashes(sys: Sys, done: seq<Step>, cmds: seq<Command>, turns: seq<Turn>, atomic: bool)
    requires 0 < |cmds| == |turns| && Fair(turns[0]) && Clashes(sys, cmds[0], turns[0])
    ensures Execute(sys, done, cmds, turns, atomic) ==
      Report(Next(sys, cmds[0], turns[0]), false, true, |done| + 1, [], 0)
  {
    RegistersIff(sys.reg, cmds[0], Exec(sys.world, cmds[0], turns[0].luck).1.body, turns[0]);
  }

  lemma {:induction false} FirstFails(sys: Sys, done: seq<Step>, cmds: seq<Command>, turns: seq<Turn>, atomic: bool)
    requires 0 < |cmds| == |turns| && !Works(sys, cmds[0], turns[0])
    ensures Execute(sys, done, cmds, turns, atomic) == Fail(sys, done, cmds[0], turns[0], atomic)
  {
  }

  lemma {:induction false} EscapesLater(sys: Sys, cmds: seq<Command>, turns: seq<Turn>, k: nat)
    requires k < |cmds| == |turns|
    ensures EscapesAt(sys, cmds, turns, k) <==>
      if k == 0 then Clashes(sys, cmds[0], turns[0])
      else Succeeds(sys, cmds[0], turns[0]) && EscapesAt(Next(sys, cmds[0], turns[0]), cmds[1..], turns[1..], k - 1)
  {
  }

  /** A batch completes exactly when every step succeeds, and the exception escapes it exactly when, after steps that
      succeed, a step is answered with success whose registration has bad arguments or an alias that is taken. */
  lemma {:induction false} OutcomeIff(sys: Sys, done: seq<Step>, cmds: seq<Command>, turns: seq<Turn>, atomic: bool)
    requires |cmds| == |turns| && forall t | t in turns :: Fair(t)
    ensures Execute(sys, done, cmds, turns, atomic).ok <==> AllSucceed(sys, cmds, turns, |cmds|)
    ensures Execute(sys, done, cmds, turns, atomic).escaped <==>
      exists k | 0 <= k < |cmds| :: EscapesAt(sys, cmds, turns, k)
    decreases |cmds|
  {
    hide Exec, RegisterSuccess, Registers;
    if cmds != [] {
      var next, rest, later := Next(sys, cmds[0], turns[0]), cmds[1..], turns[1..];
      if Succeeds(sys, cmds[0], turns[0]) {
        FirstStep(sys, done, cmds, turns, atomic);
        OutcomeIff(next, done + [StepOf(sys, cmds[0], turns[0])], rest, later, atomic);
        if k :| 0 <= k < |rest| && EscapesAt(next, rest, later, k) {
          EscapesLater(sys, cmds, turns, k + 1);
        }
        if k :| 0 <= k < |cmds| && EscapesAt(sys, cmds, turns, k) {
          EscapesLater(sys, cmds, turns, k);
          assert k > 0 && EscapesAt(next, rest, later, k - 1);
        }
      } else {
        forall k | 0 <= k < |cmds|
          ensures EscapesAt(sys, cmds, turns, k) <==> k == 0 && Clashes(sys, cmds[0], turns[0])
        {
          EscapesLater(sys, cmds, turns, k);
        }
        if Clashes(sys, cmds[0], turns[0]) {
          FirstClashes(sys, done, cmds, turns, atomic);
          assert EscapesAt(sys, cmds, turns, 0);
        } else {
          FirstFails(sys, done, cmds, turns, atomic);
        }
      }
    }
  }

  /** Where it escapes, everything that was done stays in place, also in an atomic batch. */
  lemma {:induction false} EscapeKeepsEffects(sys: Sys, done: seq<Step>, cmds: seq<Command>, turns: seq<Turn>,
                                              atomic: bool, k: nat)
    requires k < |cmds| == |turns| && (forall t | t in turns :: Fair(t)) && EscapesAt(sys, cmds, turns, k)
    ensures Execute(sys, done, cmds, turns, atomic) ==
      Report(After(sys, cmds, turns, k + 1), false, true, |done| + k + 1, [], 0)
    decreases k
  {
    hide Exec, RegisterSuccess, Registers;
    var next := Next(sys, cmds[0], turns[0]);
    EscapesLater(sys, cmds, turns, k);
    AfterFirst(sys, cmds, turns, k + 1);
    if k == 0 {
      FirstClashes(sys, done, cmds, turns, atomic);
    } else {
      var s := StepOf(sys, cmds[0], turns[0]);
      assert Execute(sys, done, cmds, turns, atomic) == Execute(next, done + [s], cmds[1..], turns[1..], atomic) by {
        FirstStep(sys, done, cmds, turns, atomic);
      }
      EscapeKeepsEffects(next, done + [s], cmds[1..], turns[1..], atomic, k - 1);
    }
  }

  lemma {:induction false} AfterFirst(sys: Sys, cmds: seq<Command>, turns: seq<Turn>, k: nat)
    requires 0 < k <= |cmds| == |turns|
    ensures After(sys, cmds, turns, k) == After(Next(sys, cmds[0], turns[0]), cmds[1..], turns[1..], k - 1)
  {
  }

  /** Where every step succeeds, the batch ends with all their effects. */
  lemma {:induction false} CompleteKeepsEffects(sys: Sys, done: seq<Step>, cmds: seq<Command>, turns: seq<Turn>,
                                                atomic: bool)
    requires |cmds| == |turns| && (forall t | t in turns :: Fair(t)) && AllSucceed(sys, cmds, turns, |cmds|)
    ensures Execute(sys, done, cmds, turns, atomic) ==
      Report(After(sys, cmds, turns, |cmds|), true, false, |done| + |cmds|, [], 0)
    decreases |cmds|
  {
    hide Exec, RegisterSuccess, Registers;
    if cmds != [] {
      var next, s := Next(sys, cmds[0], turns[0]), StepOf(sys, cmds[0], turns[0]);
      FirstStep(sys, done, cmds, turns, atomic);
      CompleteKeepsEffects(next, done + [s], cmds[1..], turns[1..], atomic);
    }
  }

  /** The first `k` steps, as kept for the rollback. */
  function StepsOf(sys: Sys, cmds: seq<Command>, turns: seq<Turn>, k: nat): seq<Step>
    requires k <= |cmds| == |turns| && AllSucceed(sys, cmds, turns, k)
    decreases k
  {
    if k == 0 then []
    else
      [StepOf(sys, cmds[0], turns[0])] + StepsOf(Next(sys, cmds[0], turns[0]), cmds[1..], turns[1..], k - 1)
  }

  /** A batch whose step `k` is the first not to work ends as that step ends it. */
  lemma {:induction false} FailsAt(sys: Sys, done: seq<Step>, cmds: seq<Command>, turns: seq<Turn>, atomic: bool,
                                   k: nat)
    requires k < |cmds| == |turns| && (forall t | t in turns :: Fair(t)) && AllSucceed(sys, cmds, turns, k)
    requires !Works(After(sys, cmds, turns, k), cmds[k], turns[k])
    ensures Execute(sys, done, cmds, turns, atomic) ==
      Fail(After(sys, cmds, turns, k), done + StepsOf(sys, cmds, turns, k), cmds[k], turns[k], atomic)
    decreases k
  {
    hide Exec, RegisterSuccess, Registers, Fail;
    if k == 0 {
      assert done + [] == done;
      FirstFails(sys, done, cmds, turns, atomic);
    } else {
      var next, s := Next(sys, cmds[0], turns[0]), StepOf(sys, cmds[0], turns[0]);
      assert Execute(sys, done, cmds, turns, atomic) == Execute(next, done + [s], cmds[1..], turns[1..], atomic) by {
        FirstStep(sys, done, cmds, turns, atomic);
      }
      FailsAt(next, done + [s], cmds[1..], turns[1..], atomic, k - 1);
      var rest := StepsOf(next, cmds[1..], turns[1..], k - 1);
      assert done + StepsOf(sys, cmds, turns, k) == done + [s] + rest;
    }
  }

  /** The world with the effect of a step that was not answered with success, if it ever has one. */
  function MaybeRun(w: World, cmd: Command, turn: Turn): World {
    if turn.run.NeverRuns? then w else Exec(w, cmd, turn.luck).0
  }

  /** A batch that is not atomic is not rolled back: what its steps did before the first that does not work stays, in
      the world and in the registry, and of that step at most its effect. */
  lemma {:induction false} NonAtomicKeepsEffects(sys: Sys, done: seq<Step>, cmds: seq<Command>, turns: seq<Turn>,
                                                 k: nat)
    requires k < |cmds| == |turns| && (forall t | t in turns :: Fair(t)) && AllSucceed(sys, cmds, turns, k)
    requires !Works(After(sys, cmds, turns, k), cmds[k], turns[k])
    ensures var r, at := Execute(sys, done, cmds, turns, false), After(sys, cmds, turns, k);
      && !r.ok && !r.escaped && r.steps == |done| + k
      && r.rolledBack == [] && r.errors == 0
      && r.sys == Sys(MaybeRun(at.world, cmds[k], turns[k]), at.reg)
  {
    StepsCount(sys, cmds, turns, k);
    FailsAt(sys, done, cmds, turns, false, k);
    hide Exec;
  }

  lemma {:induction false} StepsCount(sys: Sys, cmds: seq<Command>, turns: seq<Turn>, k: nat)
    requires k <= |cmds| == |turns| && AllSucceed(sys, cmds, turns, k)
    ensures |StepsOf(sys, cmds, turns, k)| == k
    decreases k
  {
    hide Exec, RegisterSuccess, Registers;
    if k > 0 {
      StepsCount(Next(sys, cmds[0], turns[0]), cmds[1..], turns[1..], k - 1);
    }
  }

  // ---- What a rollback does, step by step ---------------------------------------------------------------

  /** An inverse to submit, with what the environment does about it. */
  datatype Undo = Undo(inverse: Command, turn: Turn)

  /** The inverses of the steps that have one, in the order of the steps. */
  function Undos(steps: seq<Step>): seq<Undo> {
    if steps == [] then []
    else
      (match Inverse(steps[0].cmd, steps[0].snap, steps[0].body)
       case None => []
       case Some(inverse) => [Undo(inverse, steps[0].turn)]) + Undos(steps[1..])
  }

  function Reversed<T>(s: seq<T>): seq<T> {
    if s == [] then [] else Reversed(s[1..]) + [s[0]]
  }

  function Answered(undos: seq<Undo>): seq<Command> {
    if undos == [] then []
    else (if undos[0].turn.undoAnswered then [undos[0].inverse] else []) + Answered(undos[1..])
  }

  function Submitted(sys: Sys, undos: seq<Undo>): Sys
    decreases |undos|
  {
    if undos == [] then sys else Submitted(UndoOne(sys, undos[0].inverse, undos[0].turn), undos[1..])
  }

  /** Inverses that were not answered leave the registry as it is, and those that did not run either leave the world. */
  lemma {:induction false} UnansweredUndoNothing(sys: Sys, undos: seq<Undo>)
    requires forall u | u in undos :: !u.turn.undoAnswered
    ensures Answered(undos) == [] && Submitted(sys, undos).reg == sys.reg
    ensures (forall u | u in undos :: !u.turn.undoRuns) ==> Submitted(sys, undos) == sys
    decreases |undos|
  {
    hide Exec;
    if undos != [] {
      assert undos[0] in undos;
      UnansweredUndoNothing(UndoOne(sys, undos[0].inverse, undos[0].turn), undos[1..]);
    }
  }

  lemma {:induction false} UndosSnoc(earlier: seq<Step>, last: Step)
    ensures Undos(earlier + [last]) == Undos(earlier) + Undos([last])
  {
    if earlier == [] {
      assert earlier + [last] == [last];
    } else {
      assert (earlier + [last])[1..] == earlier[1..] + [last];
      UndosSnoc(earlier[1..], last);
    }
  }

  lemma {:induction false} ReversedSnoc<T>(s: seq<T>, x: T)
    ensures Reversed(s + [x]) == [x] + Reversed(s)
  {
    if s != [] {
      assert (s + [x])[1..] == s[1..] + [x];
      ReversedSnoc(s[1..], x);
    }
  }

  lemma {:induction false} AnsweredAtMost(undos: seq<Undo>)
    ensures |Answered(undos)| <= |undos|
  {
    if undos != [] {
      AnsweredAtMost(undos[1..]);
    }
  }

  /** A rollback submits the inverses of the steps that have one, the last step's first; it reports those that were
      answered, in that order, and counts the others as errors. */
  lemma {:induction false} RollbackSubmits(sys: Sys, done: seq<Step>)
    ensures var undos, r := Reversed(Undos(done)), Rollback(sys, done);
      && r.sys == Submitted(sys, undos)
      && r.rolledBack == Answered(undos)
      && r.errors == |undos| - |Answered(undos)|
    decreases |done|
  {
    hide Exec, Inverse;
    if |done| > 0 {
      var earlier, last := done[..|done| - 1], done[|done| - 1];
      assert done == earlier + [last];
      RollbackLast(sys, earlier, last);
      UndosSnoc(earlier, last);
      UndosOne(last);
      match Inverse(last.cmd, last.snap, last.body) {
        case None =>
          assert Undos(done) == Undos(earlier);
          RollbackSubmits(sys, earlier);
        case Some(inverse) =>
          var undo, rest := Undo(inverse, last.turn), Reversed(Undos(earlier));
          ReversedSnoc(Undos(earlier), undo);
          FirstSubmitted(sys, undo, rest);
          RollbackSubmits(UndoOne(sys, inverse, last.turn), earlier);
      }
    }
  }

  lemma UndosOne(s: Step)
    ensures Undos([s]) ==
      match Inverse(s.cmd, s.snap, s.body)
      case None => []
      case Some(inverse) => [Undo(inverse, s.turn)]
  {
    hide Inverse;
    assert [s][1..] == [];
  }

  lemma FirstSubmitted(sys: Sys, undo: Undo, rest: seq<Undo>)
    ensures Submitted(sys, [undo] + rest) == Submitted(UndoOne(sys, undo.inverse, undo.turn), rest)
    ensures Answered([undo] + rest) == (if undo.turn.undoAnswered then [undo.inverse] else []) + Answered(rest)
  {
    hide UndoOne;
    assert ([undo] + rest)[1..] == rest;
  }

  /** An atomic batch whose step `k` is the first not to work: the inverses of the steps before it are submitted, last
      first, on top of what there is by then, and reported as answered or as errors. */
  lemma {:induction false} AtomicSubmitsInverses(sys: Sys, cmds: seq<Command>, turns: seq<Turn>, k: nat)
    requires k < |cmds| == |turns| && (forall t | t in turns :: Fair(t)) && AllSucceed(sys, cmds, turns, k)
    requires !Works(After(sys, cmds, turns, k), cmds[k], turns[k])
    ensures var r, at, turn := Execute(sys, [], cmds, turns, true), After(sys, cmds, turns, k), turns[k];
      var undos := Reversed(Undos(StepsOf(sys, cmds, turns, k)));
      var start := if turn.run.RunsLater? then at.world else MaybeRun(at.world, cmds[k], turn);
      && !r.ok && !r.escaped && r.steps == k
      && r.rolledBack == Answered(undos) && r.errors == |undos| - |Answered(undos)|
      && r.sys == Late(Submitted(Sys(start, at.reg), undos), cmds[k], turn)
  {
    var steps := StepsOf(sys, cmds, turns, k);
    assert [] + steps == steps;
    StepsCount(sys, cmds, turns, k);
    FailsAt(sys, [], cmds, turns, true, k);
    var at, turn := After(sys, cmds, turns, k), turns[k];
    var start := if turn.run.RunsLater? then at.world else MaybeRun(at.world, cmds[k], turn);
    hide Exec;
    RollbackSubmits(Sys(start, at.reg), steps);
  }

  // ---- The names under which a success is registered ----------------------------------------------------

  /** The command gives what it creates this name. */
  predicate Gives(cmd: Command, name: string) {
    match cmd
    case CreateScene(given, _, _, _) => name == given
    case CreateActor(given, _, _, _, aliases) => name == given || name in aliases
    case SpawnToken(_, _, _, _, given) => given == Some(name)
    case _ => false
  }

  function KindOf(cmd: Command): Kind
    requires cmd.CreateScene? || cmd.CreateActor? || cmd.SpawnToken?
  {
    if cmd.CreateScene? then SceneKind else if cmd.CreateActor? then ActorKind else TokenKind
  }

  function Nonempty(a: string, b: string): string {
    if a != "" then a else b
  }

  /** The name of the entry: that of the document, or else the command's; a token without a name goes by its id. */
  function EntryName(cmd: Command, id: string, docName: string): string
    requires cmd.CreateScene? || cmd.CreateActor? || cmd.SpawnToken?
  {
    if cmd.SpawnToken? then (if cmd.tokenName.Some? then Nonempty(cmd.tokenName.value, id) else id)
    else Nonempty(docName, cmd.name)
  }

  /** After a creation that succeeds the returned id is an entry under its kind, with the name of the document, a token
      under the scene of the command; and each name that the command gives resolves to it, a token's under that scene.
      */
  lemma {:induction false} CreatedIsFound(sys: Sys, cmd: Command, turn: Turn, id: string, docName: string, name: string)
    requires Fair(turn) && Succeeds(sys, cmd, turn) && Exec(sys.world, cmd, turn.luck).1.body == Created(id, docName)
    requires (cmd.CreateScene? || cmd.CreateActor? || cmd.SpawnToken?) && id != ""
    ensures var reg, kind := Next(sys, cmd, turn).reg, KindOf(cmd);
      var scene := if cmd.SpawnToken? then Some(cmd.sceneId) else None;
      && (kind, id) in reg.entries && reg.entries[(kind, id)].name == EntryName(cmd, id, docName)
      && (cmd.SpawnToken? ==> reg.entries[(kind, id)].scene == scene)
      && (Gives(cmd, name) && Normalise(name) != "" && (kind, name) !in reg.entries ==>
            Resolve(reg, kind, name, scene) == Some(id))
  {
    var kind, body := KindOf(cmd), Created(id, docName);
    var r := RegistrationOf(cmd, body).value;
    var order := turn.order(NamesOf(r));
    RegistersIff(sys.reg, cmd, body, turn);
    assert Lists(order, NamesOf(r));
    hide Exec;
    var reg := Next(sys, cmd, turn).reg;
    assert Registered(sys.reg, r.id, r.name, r.scene, order) == (reg, Outcome.Done);
    RegisteredEntry(sys.reg, r.id, r.name, r.scene, order);
    if Gives(cmd, name) && Normalise(name) != "" && (kind, name) !in reg.entries {
      assert name != "" by {
        assert Normalise("") == "";
      }
      assert name in NamesOf(r);
      RegisteredIsFound(sys.reg, r.id, r.name, r.scene, order, name);
      ResolveUnscoped(reg, kind, name, reg.entries[r.id].scene);
    }
  }

  /** The actor that is created under a name when there is none. */
  function NewActor(name: string): Actor {
    Dict(map["name" := Atom(name), "type" := Atom("npc")])
  }

  function Creation(name: string, aliases: seq<string>): Command {
    CreateActor(name, "npc", [], None, aliases)
  }

  lemma {:induction false} CreationAdds(w: World, name: string, aliases: seq<string>, luck: Luck)
    requires Find(w.actors, SameActor(name, "npc")).None?
    ensures Exec(w, Creation(name, aliases), luck) ==
      (w.(actors := w.actors + [(luck.newId, NewActor(name))]), Success(Created(luck.newId, name)))
  {
    assert Expand([]) == map[];
    assert map["name" := Atom(name), "type" := Atom("npc")] + map[] + map[] == NewActor(name).props;
  }

  /** An atomic batch of two creations: the second actor asks for the name of the first as an alias, which is taken.
      Both actors stay. */
  lemma {:induction false} ClashLeavesBoth(turns: seq<Turn>)
    requires |turns| == 2 && (forall t | t in turns :: Fair(t) && t.run.Answered?)
    requires turns[0].luck.newId == "x" && turns[1].luck.newId == "y"
    ensures var empty := Sys(World([], [], None, None), EMPTY);
      var r := Execute(empty, [], [Creation("g", []), Creation("h", ["g"])], turns, true);
      && !r.ok && r.escaped && r.rolledBack == []
      && r.sys.world.actors == [("x", NewActor("g")), ("y", NewActor("h"))]
  {
    var cmds, empty := [Creation("g", []), Creation("h", ["g"])], Sys(World([], [], None, None), EMPTY);
    assert turns[0] in turns && turns[1] in turns;
    FirstCreated(turns[0]);
    var one := Next(empty, cmds[0], turns[0]);
    SecondClashes(one, turns[1]);
    hide Exec, Next, Registers;
    EscapesLater(empty, cmds, turns, 1);
    EscapesLater(one, cmds[1..], turns[1..], 0);
    EscapeKeepsEffects(empty, [], cmds, turns, true, 1);
    AfterFirst(empty, cmds, turns, 2);
    AfterFirst(one, cmds[1..], turns[1..], 1);
  }

  lemma {:induction false} FirstCreated(turn: Turn)
    requires Fair(turn) && turn.run.Answered? && turn.luck.newId == "x"
    ensures var empty := Sys(World([], [], None, None), EMPTY);
      var one := Next(empty, Creation("g", []), turn);
      && Succeeds(empty, Creation("g", []), turn)
      && one.world == World([], [("x", NewActor("g"))], None, None)
      && SlotOf(ActorKind, None, "g") in one.reg.index && one.reg.index[SlotOf(ActorKind, None, "g")] == "x"
      && (ActorKind, "y") !in one.reg.entries
  {
    var empty := Sys(World([], [], None, None), EMPTY);
    CreationAdds(empty.world, "g", [], turn.luck);
    hide Exec, NewActor;
    var r := RegistrationOf(Creation("g", []), Created("x", "g")).value;
    var order := turn.order(NamesOf(r));
    assert Lists(order, NamesOf(r));
    LetterNormal("g");
    assert Succeeds(empty, Creation("g", []), turn);
    RegistersIff(EMPTY, Creation("g", []), Created("x", "g"), turn);
    AddAllListed(Enter(EMPTY, r.id, "g", None), r.id, order);
    assert "g" in order;
    AddAllGrows(Enter(EMPTY, r.id, "g", None), r.id, order);
    assert [] + [("x", NewActor("g"))] == [("x", NewActor("g"))];
  }

  lemma {:induction false} SecondClashes(one: Sys, turn: Turn)
    requires turn.run.Answered? && turn.luck.newId == "y"
    requires one.world == World([], [("x", NewActor("g"))], None, None)
    requires SlotOf(ActorKind, None, "g") in one.reg.index && one.reg.index[SlotOf(ActorKind, None, "g")] == "x"
    requires (ActorKind, "y") !in one.reg.entries
    ensures Clashes(one, Creation("h", ["g"]), turn)
    ensures Next(one, Creation("h", ["g"]), turn).world.actors == [("x", NewActor("g")), ("y", NewActor("h"))]
  {
    NoneNamed("g", "h", "x");
    CreationAdds(one.world, "h", ["g"], turn.luck);
    LetterNormal("g");
    assert "g" in NamesOf(RegistrationOf(Creation("h", ["g"]), Created("y", "h")).value);
    assert Taken(one.reg, (ActorKind, "y"), None, "g");
  }

  lemma {:induction false} NoneNamed(name: string, other: string, id: string)
    requires |name| == 1 && |other| == 1 && 'a' <= name[0] <= 'z' && 'a' <= other[0] <= 'z' && name != other
    ensures Find([(id, NewActor(name))], SameActor(other, "npc")).None?
  {
    var doc: Actor := NewActor(name);
    assert TextAt(doc, "name") == name;
    assert Text.Lower(name) == [name[0]] + Text.Lower(name[1..])
      && Text.Lower(other) == [other[0]] + Text.Lower(other[1..]);
    assert name[0] != other[0] by {
      assert name == [name[0]] && other == [other[0]];
    }
    assert Text.Lower(name)[0] != Text.Lower(other)[0];
    assert !SameActor(other, "npc")(doc);
    var docs: Docs<Actor> := [(id, doc)];
    assert docs[1..] == [] && docs[0].1 == doc;
  }

  // ---- When a rolled-back batch leaves nothing behind ----------------------------------------------

  /** A step that succeeds and that a rollback can take back: the snapshot is read, the step is undoable,
      what it creates is new to the registry and clashes with no alias, and the inverse will be answered. */
  ghost predicate Reversible(sys: Sys, cmd: Command, turn: Turn) {
    && Fair(turn) && Succeeds(sys, cmd, turn)
    && turn.snapshotAnswered && turn.undoAnswered
    && Fresh(sys.world, turn.luck.newId) && Addressed(sys.world, cmd) && Undoable(sys.world, sys.reg, cmd, turn.luck)
    && var registration := RegistrationOf(cmd, Exec(sys.world, cmd, turn.luck).1.body);
       (registration.Some? ==> registration.value.id !in sys.reg.entries)
  }

  ghost predicate Sound(sys: Sys) {
    Proper(sys.world) && forall kind :: Agrees(sys.reg, kind)
  }

  /** The first `k` steps of a batch all succeed reversibly. */
  ghost predicate AllReversible(sys: Sys, cmds: seq<Command>, turns: seq<Turn>, k: nat)
    requires k <= |cmds| == |turns|
    decreases k
  {
    k == 0 ||
    (Reversible(sys, cmds[0], turns[0]) && AllReversible(Next(sys, cmds[0], turns[0]), cmds[1..], turns[1..], k - 1))
  }

  /** The inverse unregisters exactly what the success registered. */
  lemma InverseUnregisters(reg: Reg, cmd: Command, snap: Snap, body: Body)
    ensures match RegistrationOf(cmd, body)
      case None => Inverse(cmd, snap, body).Some? ==> UnregisterInverse(reg, Inverse(cmd, snap, body).value) == reg
      case Some(r) =>
        && Inverse(cmd, snap, body).Some?
        && UnregisterInverse(reg, Inverse(cmd, snap, body).value) == Unregistered(reg, r.id)
  {
  }

  /** A new creation is registered and unregistered without trace; every other step leaves the registry alone. */
  lemma RegistryTakenBack(reg: Reg, cmd: Command, snap: Snap, body: Body, order: set<string> -> seq<string>)
    requires forall kind :: Agrees(reg, kind)
    requires RegisterSuccess(reg, cmd, body, order).1.Done?
    requires RegistrationOf(cmd, body).Some? ==> RegistrationOf(cmd, body).value.id !in reg.entries
    ensures var inverse := Inverse(cmd, snap, body);
      var after := RegisterSuccess(reg, cmd, body, order).0;
      (if inverse.Some? then UnregisterInverse(after, inverse.value) else after) == reg
  {
    InverseUnregisters(RegisterSuccess(reg, cmd, body, order).0, cmd, snap, body);
    var registration := RegistrationOf(cmd, body);
    if registration.Some? {
      var r := registration.value;
      UnregisterUndoesRegister(reg, r.id, r.name, r.scene, order(NamesOf(r)));
    }
  }

  lemma {:induction false} UndoOfNext(sys: Sys, cmd: Command, turn: Turn)
    requires Sound(sys) && Reversible(sys, cmd, turn)
    ensures var s := StepOf(sys, cmd, turn);
      match Inverse(cmd, s.snap, s.body)
      case None => Next(sys, cmd, turn) == sys
      case Some(inverse) => UndoOne(Next(sys, cmd, turn), inverse, turn) == sys
  {
    var s := StepOf(sys, cmd, turn);
    StepUndoneIff(sys.world, sys.reg, cmd, turn.luck);
    RegistersIff(sys.reg, cmd, s.body, turn);
    RegistryTakenBack(sys.reg, cmd, s.snap, s.body, turn.order);
  }

  lemma NextSound(sys: Sys, cmd: Command, turn: Turn)
    requires Sound(sys) && Reversible(sys, cmd, turn)
    ensures Sound(Next(sys, cmd, turn))
  {
    var (world, response) := Exec(sys.world, cmd, turn.luck);
    NextProper(sys, cmd, turn);
    var registration := RegistrationOf(cmd, response.body);
    if registration.Some? {
      var r := registration.value;
      forall kind {
        RegisterAgreesIff(sys.reg, r.id, r.name, r.scene, turn.order(NamesOf(r)), kind);
      }
    }
  }

  lemma NextProper(sys: Sys, cmd: Command, turn: Turn)
    requires Proper(sys.world) && Reversible(sys, cmd, turn)
    ensures Proper(Exec(sys.world, cmd, turn.luck).0)
  {
    if LeftToEnvironment(cmd) || cmd.DeleteToken? || cmd.DeleteActor? || cmd.DeleteScene? {
      OtherStepUndone(sys.world, sys.reg, cmd, turn.luck);
    } else {
      ProperKept(sys.world, cmd, turn.luck);
    }
  }

  /** Step `k` goes wrong and has no effect before the rollback: it fails without effect, or is not answered and does
      not run by then. */
  predicate GoesWrong(sys: Sys, cmds: seq<Command>, turns: seq<Turn>, k: nat)
    requires k < |cmds| == |turns|
  {
    var world := After(sys, cmds, turns, k).world;
    || turns[k].run.NeverRuns?
    || turns[k].run.RunsLater?
    || (turns[k].run.Answered? && Exec(world, cmds[k], turns[k].luck) == (world, Failure))
  }

  lemma {:induction false} GoesWrongLater(sys: Sys, cmds: seq<Command>, turns: seq<Turn>, k: nat)
    requires 0 < k < |cmds| == |turns| && GoesWrong(sys, cmds, turns, k)
    ensures GoesWrong(Next(sys, cmds[0], turns[0]), cmds[1..], turns[1..], k - 1)
    ensures cmds[1..][k - 1] == cmds[k] && turns[1..][k - 1] == turns[k]
  {
  }

  /** A step that is late runs after all. */
  function Late(sys: Sys, cmd: Command, turn: Turn): Sys {
    if turn.run.RunsLater? then Sys(Exec(sys.world, cmd, turn.luck).0, sys.reg) else sys
  }

  /** Running reversible steps before the one that goes wrong comes to the same as rolling back at once. */
  lemma {:induction false} ReversiblePrefix(sys: Sys, done: seq<Step>, cmds: seq<Command>, turns: seq<Turn>, k: nat)
    requires k < |cmds| == |turns| && Sound(sys) && AllReversible(sys, cmds, turns, k) && GoesWrong(sys, cmds, turns, k)
    ensures var r, undoing := Execute(sys, done, cmds, turns, true), Rollback(sys, done);
      r.sys == Late(undoing.sys, cmds[k], turns[k]) && r.errors == undoing.errors && !r.ok && !r.escaped
    decreases k
  {
    hide Exec, RegisterSuccess, Registers, Agrees, Proper, Undoable, Addressed;
    if k == 0 {
      FirstFails(sys, done, cmds, turns, true);
    } else {
      var s, next := StepOf(sys, cmds[0], turns[0]), Next(sys, cmds[0], turns[0]);
      assert Execute(sys, done, cmds, turns, true) == Execute(next, done + [s], cmds[1..], turns[1..], true) by {
        FirstStep(sys, done, cmds, turns, true);
      }
      NextSound(sys, cmds[0], turns[0]);
      GoesWrongLater(sys, cmds, turns, k);
      ReversiblePrefix(next, done + [s], cmds[1..], turns[1..], k - 1);
      UndoOfNext(sys, cmds[0], turns[0]);
      LastUndone(sys, next, done, s);
    }
  }

  lemma LastUndone(sys: Sys, next: Sys, done: seq<Step>, s: Step)
    requires s.turn.undoAnswered
    requires match Inverse(s.cmd, s.snap, s.body)
      case None => next == sys
      case Some(inverse) => UndoOne(next, inverse, s.turn) == sys
    ensures Rollback(next, done + [s]).sys == Rollback(sys, done).sys
    ensures Rollback(next, done + [s]).errors == Rollback(sys, done).errors
  {
    RollbackLast(next, done, s);
  }

  /** A batch that goes wrong after reversible steps leaves the world and the registry, entries and indexes,
      as they were before it; a step that runs only after the rollback is then all that remains of it. */
  lemma {:induction false} RollbackRestores(sys: Sys, cmds: seq<Command>, turns: seq<Turn>, k: nat)
    requires k < |cmds| == |turns| && Sound(sys) && AllReversible(sys, cmds, turns, k) && GoesWrong(sys, cmds, turns, k)
    ensures var r := Execute(sys, [], cmds, turns, true);
      !r.ok && !r.escaped && r.errors == 0 && r.sys == Late(sys, cmds[k], turns[k])
  {
    ReversiblePrefix(sys, [], cmds, turns, k);
  }

  /** If all steps but the first are reversible, the rollback restores the world exactly when the first one was
      undoable. */
  lemma {:induction false} RollbackRestoresIff(sys: Sys, first: Command, turn: Turn, cmds: seq<Command>,
      turns: seq<Turn>,
                                               k: nat)
    requires Proper(sys.world) && Fair(turn) && Succeeds(sys, first, turn) && turn.snapshotAnswered && turn.undoAnswered
    requires Fresh(sys.world, turn.luck.newId) && Addressed(sys.world, first)
    requires k < |cmds| == |turns|
    requires var next := Next(sys, first, turn);
      Sound(next) && AllReversible(next, cmds, turns, k) && GoesWrong(next, cmds, turns, k) && !turns[k].run.RunsLater?
    ensures Execute(sys, [], [first] + cmds, [turn] + turns, true).sys.world == sys.world <==>
      Undoable(sys.world, sys.reg, first, turn.luck)
  {
    var s, next := StepOf(sys, first, turn), Next(sys, first, turn);
    assert Execute(sys, [], [first] + cmds, [turn] + turns, true) == Execute(next, [s], cmds, turns, true) by {
      assert ([first] + cmds)[1..] == cmds && ([turn] + turns)[1..] == turns && [] + [s] == [s];
      FirstStep(sys, [], [first] + cmds, [turn] + turns, true);
    }
    OnlyFirstLeft(next, s, cmds, turns, k);
    StepUndoneIff(sys.world, sys.reg, first, turn.luck);
  }

  /** After reversible steps, what a rollback does is what it does with the step before them. */
  lemma {:induction false} OnlyFirstLeft(sys: Sys, s: Step, cmds: seq<Command>, turns: seq<Turn>, k: nat)
    requires k < |cmds| == |turns| && Sound(sys) && AllReversible(sys, cmds, turns, k) && GoesWrong(sys, cmds, turns, k)
    requires !turns[k].run.RunsLater? && s.turn.undoAnswered
    ensures Execute(sys, [s], cmds, turns, true).sys.world == TakenBack(sys.world, s.cmd, s.snap, s.body, s.turn.luck)
  {
    ReversiblePrefix(sys, [s], cmds, turns, k);
    RollbackOne(sys, s);
  }

  lemma RollbackOne(sys: Sys, s: Step)
    requires s.turn.undoAnswered
    ensures Rollback(sys, [s]).sys.world == TakenBack(sys.world, s.cmd, s.snap, s.body, s.turn.luck)
  {
    assert [s] == [] + [s];
    RollbackLast(sys, [], s);
  }
}
