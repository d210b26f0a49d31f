/** `FoundryClient`: callers waiting for results by request id, under replays, timeouts and loss of the connection. */
module Client {
  import opened Wrappers
  import opened Sequences

  datatype Response = Result(id: string, body: string) | ConnectionLost

  const COMPLETED_LIMIT: nat := 512

  // ---- What `_state_lock` guards -------------------------------------------------------------------

  /** The pending table by its ids, the ids of the completed requests oldest first, and the counters. */
  datatype Table = Table(pending: set<string>, completed: seq<string>, received: nat, duplicates: nat, orphans: nat,
      timeouts: nat)

  /** The locked part of `_handle_incoming` for a result. */
  function Matched(t: Table, id: string): Table {
    if id in t.pending then
      var completed := if id in t.completed then t.completed else t.completed + [id];
      t.(pending := t.pending - {id}, received := t.received + 1,
         completed := if |completed| > COMPLETED_LIMIT then completed[1..] else completed)
    else if id in t.completed then t.(received := t.received + 1, duplicates := t.duplicates + 1)
    else t.(received := t.received + 1, orphans := t.orphans + 1)
  }

  class PendingRequest {
    var response: Option<Response>
    var answered: bool

    constructor ()
      ensures response == None && !answered
    {
      response, answered := None, false;
    }

    method Answer(r: Response)
      modifies this
      ensures response == Some(r) && answered
    {
      response := Some(r);
      answered := true;
    }
  }

  class FoundryClient {
    var pending: map<string, PendingRequest>
    var completed: seq<string>
    var received: nat
    var duplicates: nat
    var orphans: nat
    var timeouts: nat

    constructor ()
      ensures pending == map[] && State() == Table({}, [], 0, 0, 0, 0)
    {
      pending, completed := map[], [];
      received, duplicates, orphans, timeouts := 0, 0, 0, 0;
    }

    function State(): Table
      reads this
    {
      Table(pending.Keys, completed, received, duplicates, orphans, timeouts)
    }

    method Issue(id: string) returns (request: PendingRequest)
      modifies this
      ensures fresh(request) && request.response == None && !request.answered
      ensures pending == old(pending)[id := request]
      ensures State() == old(State()).(pending := old(pending.Keys) + {id})
    {
      request := new PendingRequest();
      pending := pending[id := request];
    }

    /** After a send that raised, or, counted, after a wait that timed out. */
    method Withdraw(id: string, timedOut: bool)
      modifies this
      ensures pending == old(pending) - {id}
      ensures State() == old(State()).(pending := old(pending.Keys) - {id},
        timeouts := old(timeouts) + if timedOut then 1 else 0)
    {
      pending := pending - {id};
      if timedOut {
        timeouts := timeouts + 1;
      }
    }

    /** The request to answer, outside the lock; none when the id is not pending. */
    method Match(id: string) returns (request: Option<PendingRequest>)
      modifies this
      ensures State() == Matched(old(State()), id)
      ensures request == if id in old(pending) then Some(old(pending)[id]) else None
      ensures pending == old(pending) - {id}
    {
      received := received + 1;
      if id !in pending {
        if id in completed {
          duplicates := duplicates + 1;
        } else {
          orphans := orphans + 1;
        }
        return None;
      }
      request := Some(pending[id]);
      pending := pending - {id};
      if id !in completed {
        completed := completed + [id];
      }
      if |completed| > COMPLETED_LIMIT {
        completed := completed[1..];
      }
    }

    method LoseConnection()
      modifies this, pending.Values
      ensures State() == old(State()).(pending := {})
      ensures forall id | id in old(pending) ::
        old(pending)[id].answered && old(pending)[id].response == Some(ConnectionLost)
    {
      var todo := pending.Keys;
      while todo != {}
        invariant todo <= pending.Keys && pending == old(pending) && State() == old(State())
        invariant forall id | id in pending && id !in todo ::
          pending[id].answered && pending[id].response == Some(ConnectionLost)
        modifies pending.Values
      {
        var id :| id in todo;
        pending[id].Answer(ConnectionLost);
        todo := todo - {id};
      }
      pending := map[];
    }
  }

  // ---- Every interleaving ------------------------------------------------------------------------------

  datatype Outcome = Returned(response: Response) | TimedOut | SendFailed

  /** Where the caller of a request stands; `GivingUp` is after its wait timed out and before it takes the lock. */
  datatype Phase = Sending | Waiting | GivingUp | Ended(outcome: Outcome)

  datatype Call = Call(phase: Phase, response: Option<Response>)

  /** `handing` are results matched under the lock and not yet handed to their callers; `delivered` lists the matched
      ids in order; `left` counts how often an id left the pending table. */
  datatype System = System(table: Table, calls: map<string, Call>, handing: map<string, Response>,
                           delivered: seq<string>, left: multiset<string>)

  const START := System(Table({}, [], 0, 0, 0, 0), map[], map[], [], multiset{})

  datatype Step =
    | Issues(id: string)
    | Sends(id: string)
    | SendRaises(id: string)
    | Arrives(id: string, body: string)
    | Hands(id: string)
    | Returns(id: string)
    | Expires(id: string)
    | GivesUp(id: string)
    | Loses

  function WithCall(s: System, id: string, call: Call): System {
    s.(calls := s.calls[id := call])
  }

  /** `_pending.pop(id, None)`. */
  function Popped(s: System, id: string): System {
    s.(table := s.table.(pending := s.table.pending - {id}),
       left := if id in s.table.pending then s.left + multiset{id} else s.left)
  }

  predicate InPhase(s: System, id: string, phase: Phase) {
    id in s.calls && s.calls[id].phase == phase
  }

  function Next(s: System, step: Step): System {
    match step
    case Issues(id) =>
      if id == "" || id in s.calls then s
      else WithCall(s, id, Call(Sending, None)).(table := s.table.(pending := s.table.pending + {id}))
    case Sends(id) => if InPhase(s, id, Sending) then WithCall(s, id, s.calls[id].(phase := Waiting)) else s
    case SendRaises(id) =>
      if InPhase(s, id, Sending) then WithCall(Popped(s, id), id, s.calls[id].(phase := Ended(SendFailed))) else s
    case Arrives(id, body) =>
      if id == "" then s
      else if id in s.table.pending then
        s.(table := Matched(s.table, id), handing := s.handing[id := Result(id, body)],
          delivered := s.delivered + [id], left := s.left + multiset{id})
      else s.(table := Matched(s.table, id))
    case Hands(id) =>
      if id in s.handing && id in s.calls then
        WithCall(s, id, s.calls[id].(response := Some(s.handing[id]))).(handing := s.handing - {id})
      else s
    case Returns(id) =>
      if InPhase(s, id, Waiting) && s.calls[id].response.Some? then
        WithCall(s, id, s.calls[id].(phase := Ended(Returned(s.calls[id].response.value))))
      else s
    case Expires(id) =>
      if InPhase(s, id, Waiting) && s.calls[id].response.None? then WithCall(s, id, s.calls[id].(phase := GivingUp))
        else s
    case GivesUp(id) =>
      if InPhase(s, id, GivingUp) then
        var popped := Popped(s, id);
        WithCall(popped.(table := popped.table.(timeouts := s.table.timeouts + 1)), id,
          s.calls[id].(phase := Ended(TimedOut)))
      else s
    case Loses =>
      s.(table := s.table.(pending := {}),
         calls := map id | id in s.calls ::
           if id in s.table.pending then s.calls[id].(response := Some(ConnectionLost)) else s.calls[id],
         left := s.left + multiset(s.table.pending))
  }

  function Run(steps: seq<Step>): System
    decreases |steps|
  {
    if |steps| == 0 then START else Next(Run(steps[..|steps| - 1]), steps[|steps| - 1])
  }

  // ---- What every step keeps ----------------------------------------------------------------------------

  predicate Own(id: string, r: Response) {
    r.Result? ==> r.id == id
  }

  /** An issued id is pending until it leaves, and it leaves once. */
  predicate OnceLeft(s: System, id: string) {
    s.left[id] + (if id in s.table.pending then 1 else 0) == if id in s.calls then 1 else 0
  }

  /** A response is the result that was matched under the id, or the connection's loss when none was. */
  predicate Sourced(s: System, id: string) {
    && (id in s.table.pending ==> id in s.calls && s.calls[id].response.None? && id !in s.delivered)
    && (id in s.handing ==>
          && id in s.delivered && id in s.calls && s.calls[id].response.None?
          && s.handing[id].Result? && Own(id, s.handing[id]))
    && (id in s.delivered ==>
          id in s.calls && id !in s.table.pending && (id in s.handing || s.calls[id].response.Some?))
    && (id in s.calls && s.calls[id].response.Some? ==>
          var r := s.calls[id].response.value;
          Own(id, r) && (r.Result? <==> id in s.delivered))
    && (id in s.calls && s.calls[id].phase.Ended? && s.calls[id].phase.outcome.Returned? ==>
          s.calls[id].response == Some(s.calls[id].phase.outcome.response))
  }

  predicate MatchedOnce(s: System, id: string) {
    multiset(s.delivered)[id] <= 1
  }

  /** A caller that has not ended and whose request is no longer pending has its response, or a receiver is about to
      hand it over. */
  predicate Wakes(s: System, id: string) {
    id in s.calls && id !in s.table.pending && !s.calls[id].phase.Ended? ==>
      s.calls[id].response.Some? || id in s.handing
  }

  predicate InvAt(s: System, id: string) {
    OnceLeft(s, id) && Sourced(s, id) && MatchedOnce(s, id) && Wakes(s, id)
  }

  ghost predicate Counted(s: System) {
    && s.table.completed == Newest(s.delivered, COMPLETED_LIMIT)
    && s.table.received == |s.delivered| + s.table.duplicates + s.table.orphans
  }

  lemma {:induction false} StepKeepsInv(s: System, step: Step, id: string)
    requires InvAt(s, id)
    ensures InvAt(Next(s, step), id)
  {
    StepKeepsSourced(s, step, id);
    StepKeepsMatchedOnce(s, step, id);
    StepKeepsWakes(s, step, id);
  }

  lemma {:induction false} StepKeepsSourced(s: System, step: Step, id: string)
    requires OnceLeft(s, id) && Sourced(s, id)
    ensures Sourced(Next(s, step), id)
  {
    match step {
      case Arrives(_, _) => ArrivalKeepsSourced(s, step, id);
      case Hands(_) => HandingKeepsSourced(s, step, id);
      case Loses => LossKeepsSourced(s, id);
      case _ => CallerKeepsSourced(s, step, id);
    }
  }

  lemma {:induction false} ArrivalKeepsSourced(s: System, step: Step, id: string)
    requires Sourced(s, id) && step.Arrives?
    ensures Sourced(Next(s, step), id)
  {
    hide Matched;
    assert Matched(s.table, step.id).pending == s.table.pending - {step.id} by {
      MatchedPops(s.table, step.id);
    }
    assert id in s.delivered + [step.id] <==> id in s.delivered || id == step.id;
  }

  lemma MatchedPops(t: Table, id: string)
    ensures Matched(t, id).pending == t.pending - {id}
  {
  }

  lemma {:induction false} HandingKeepsSourced(s: System, step: Step, id: string)
    requires Sourced(s, id) && step.Hands?
    ensures Sourced(Next(s, step), id)
  {
  }

  lemma {:induction false} LossKeepsSourced(s: System, id: string)
    requires Sourced(s, id)
    ensures Sourced(Next(s, Loses), id)
  {
  }

  lemma {:induction false} CallerKeepsSourced(s: System, step: Step, id: string)
    requires OnceLeft(s, id) && Sourced(s, id) && !step.Arrives? && !step.Hands? && !step.Loses?
    ensures Sourced(Next(s, step), id)
  {
  }

  lemma {:induction false} StepKeepsMatchedOnce(s: System, step: Step, id: string)
    requires Sourced(s, id) && MatchedOnce(s, id)
    ensures MatchedOnce(Next(s, step), id)
  {
    if step.Arrives? && step.id in s.table.pending {
      assert multiset(s.delivered + [step.id]) == multiset(s.delivered) + multiset{step.id};
    }
  }

  lemma {:induction false} StepKeepsWakes(s: System, step: Step, id: string)
    requires OnceLeft(s, id) && Wakes(s, id)
    ensures OnceLeft(Next(s, step), id) && Wakes(Next(s, step), id)
  {
  }

  lemma StepKeepsCounted(s: System, step: Step)
    requires Counted(s) && forall id :: InvAt(s, id)
    ensures Counted(Next(s, step))
  {
    if step.Arrives? && step.id in s.table.pending {
      assert InvAt(s, step.id);
      assert step.id !in s.table.completed;
    }
  }

  lemma {:induction false} RunKeeps(steps: seq<Step>)
    ensures Counted(Run(steps)) && forall id :: InvAt(Run(steps), id)
    decreases |steps|
  {
    if |steps| > 0 {
      var n := |steps| - 1;
      RunKeeps(steps[..n]);
      StepKeepsCounted(Run(steps[..n]), steps[n]);
      forall id
        ensures InvAt(Run(steps), id)
      {
        StepKeepsInv(Run(steps[..n]), steps[n], id);
      }
    }
  }

  // ---- What every interleaving gives ------------------------------------------------------------------------

  /** A request id leaves the pending table at most once, and at most one result is matched with it. */
  lemma {:induction false} LeavesOnce(steps: seq<Step>, id: string)
    ensures Run(steps).left[id] <= 1 && multiset(Run(steps).delivered)[id] <= 1
    ensures id in Run(steps).delivered ==> Run(steps).left[id] == 1
  {
    RunKeeps(steps);
    assert InvAt(Run(steps), id);
  }

  /** A response that a caller is given is the result with its own id, or the error of a lost connection; the
      error only when no result was matched. */
  lemma {:induction false} ReturnedIsOwn(steps: seq<Step>, id: string, r: Response)
    requires InPhase(Run(steps), id, Ended(Returned(r)))
    ensures r == ConnectionLost || (r.Result? && r.id == id)
    ensures r.Result? <==> id in Run(steps).delivered
  {
    RunKeeps(steps);
    assert InvAt(Run(steps), id);
  }

  function TimedOutIds(s: System): set<string> {
    set id | id in s.calls && s.calls[id].phase == Ended(TimedOut)
  }

  lemma {:induction false} StepTimesOut(s: System, step: Step)
    ensures TimedOutIds(Next(s, step)) ==
      TimedOutIds(s) + if step.GivesUp? && InPhase(s, step.id, GivingUp) then {step.id} else {}
    ensures Next(s, step).table.timeouts ==
      s.table.timeouts + if step.GivesUp? && InPhase(s, step.id, GivingUp) then 1 else 0
  {
    assert Matched(s.table, if step.Arrives? then step.id else "").timeouts == s.table.timeouts;
    hide Matched;
  }

  /** The timeouts counted are the requests that ended in one. */
  lemma {:induction false} TimeoutsTell(steps: seq<Step>)
    ensures Run(steps).table.timeouts == |TimedOutIds(Run(steps))|
    decreases |steps|
  {
    if |steps| > 0 {
      var n := |steps| - 1;
      TimeoutsTell(steps[..n]);
      StepTimesOut(Run(steps[..n]), steps[n]);
      hide Next;
    }
  }

  /** What brings a caller its response. */
  function Bringing(id: string, r: Response): Step {
    match r
    case Result(_, body) => Arrives(id, body)
    case ConnectionLost => Loses
  }

  /** A result under the id arrived with the body of the response, or the connection was lost, while the request was
      pending. */
  ghost predicate Brought(steps: seq<Step>, id: string, r: Response) {
    exists i | 0 <= i < |steps| ::
      id in Run(steps[..i]).table.pending && steps[i] == Bringing(id, r)
  }

  ghost predicate AllBrought(s: System, steps: seq<Step>, id: string) {
    && (id in s.handing ==> Brought(steps, id, s.handing[id]))
    && (id in s.calls && s.calls[id].response.Some? ==> Brought(steps, id, s.calls[id].response.value))
  }

  lemma BroughtOn(steps: seq<Step>, step: Step, id: string, r: Response)
    ensures Brought(steps, id, r) ==> Brought(steps + [step], id, r)
    ensures id in Run(steps).table.pending && step == Bringing(id, r) ==> Brought(steps + [step], id, r)
  {
    var more := steps + [step];
    assert more[..|steps|] == steps && more[|steps|] == step;
    forall i | 0 <= i < |steps|
      ensures more[..i] == steps[..i] && more[i] == steps[i]
    {
    }
  }

  lemma {:induction false} RunBrings(steps: seq<Step>, id: string)
    ensures AllBrought(Run(steps), steps, id)
    decreases |steps|
  {
    if |steps| > 0 {
      var n := |steps| - 1;
      var s, step := Run(steps[..n]), steps[n];
      assert steps == steps[..n] + [step];
      RunBrings(steps[..n], id);
      forall r {
        BroughtOn(steps[..n], step, id, r);
      }
      StepBrings(s, step, id);
      RunSnoc(steps[..n], step);
      hide Brought, Run, Next;
    }
  }

  lemma {:induction false} StepBrings(s: System, step: Step, id: string)
    ensures var next := Next(s, step);
      && (id in next.handing ==>
            || (id in s.handing && next.handing[id] == s.handing[id])
            || (id in s.table.pending && next.handing[id].Result? && step == Arrives(id, next.handing[id].body)))
      && (id in next.calls && next.calls[id].response.Some? ==>
            || (id in s.calls && next.calls[id].response == s.calls[id].response)
            || (id in s.handing && next.calls[id].response == Some(s.handing[id]))
            || (id in s.table.pending && next.calls[id].response == Some(ConnectionLost) && step == Loses))
  {
    hide Matched;
  }

  /** What a caller is given came while its request was pending: the body of a result that arrived under its id, or the
      loss of the connection. */
  lemma {:induction false} ReturnedArrived(steps: seq<Step>, id: string, r: Response)
    requires InPhase(Run(steps), id, Ended(Returned(r)))
    ensures Brought(steps, id, r)
  {
    RunKeeps(steps);
    assert InvAt(Run(steps), id);
    RunBrings(steps, id);
  }

  /** Every counted result was matched with a waiting request, or is a duplicate, or an orphan. */
  lemma ReceivedAddsUp(steps: seq<Step>)
    ensures var t := Run(steps).table; t.received == |Run(steps).delivered| + t.duplicates + t.orphans
  {
    RunKeeps(steps);
  }

  /** A result for an id that is not pending is a duplicate exactly when the id is one of the last 512 that were
      matched. */
  lemma {:induction false} DuplicateIff(steps: seq<Step>, id: string, body: string)
    requires id != "" && id !in Run(steps).table.pending
    ensures var (s, next) := (Run(steps), Next(Run(steps), Arrives(id, body)));
      && next.delivered == s.delivered
      && (next.table.duplicates == s.table.duplicates + 1 <==> id in Newest(s.delivered, COMPLETED_LIMIT))
      && (next.table.orphans == s.table.orphans + 1 <==> id !in Newest(s.delivered, COMPLETED_LIMIT))
  {
    RunKeeps(steps);
  }

  /** No caller is left behind: one that waits while its id is not pending can be handed its response and return it. */
  lemma {:induction false} WaitingIsServed(steps: seq<Step>, id: string)
    requires InPhase(Run(steps), id, Waiting) && id !in Run(steps).table.pending
    ensures exists r :: InPhase(Run(steps + [Hands(id), Returns(id)]), id, Ended(Returned(r))) && Own(id, r)
  {
    var more := steps + [Hands(id), Returns(id)];
    RunKeeps(steps);
    assert InvAt(Run(steps), id);
    assert more[..|more| - 1] == steps + [Hands(id)];
    assert (steps + [Hands(id)])[..|steps|] == steps;
    var s := Next(Run(steps), Hands(id));
    assert Run(more) == Next(s, Returns(id));
    StepKeepsInv(Run(steps), Hands(id), id);
    var r := s.calls[id].response.value;
    assert InPhase(Run(more), id, Ended(Returned(r)));
  }

  /** How a request ended is never changed by what comes later. */
  lemma {:induction false} EndedStays(steps: seq<Step>, more: seq<Step>, id: string, outcome: Outcome)
    requires InPhase(Run(steps), id, Ended(outcome))
    ensures InPhase(Run(steps + more), id, Ended(outcome))
    decreases |more|
  {
    hide Next;
    if |more| == 0 {
      assert steps + more == steps;
    } else {
      var n := |more| - 1;
      assert (steps + more)[..|steps| + n] == steps + more[..n];
      EndedStays(steps, more[..n], id, outcome);
      StepKeepsEnded(Run(steps + more[..n]), more[n], id, outcome);
    }
  }

  lemma StepKeepsEnded(s: System, step: Step, id: string, outcome: Outcome)
    requires InPhase(s, id, Ended(outcome))
    ensures InPhase(Next(s, step), id, Ended(outcome))
  {
  }

  /** A caller whose wait ended without its response has, when its id is no longer pending, a result matched or the
      error of a lost connection, and only then: what comes next is the timeout all the same. */
  lemma {:induction false} GivingUpIff(steps: seq<Step>, id: string)
    requires InPhase(Run(steps), id, GivingUp)
    ensures var s := Run(steps);
      && (id !in s.table.pending <==> id in s.delivered || s.calls[id].response == Some(ConnectionLost))
      && InPhase(Run(steps + [GivesUp(id)]), id, Ended(TimedOut))
  {
    hide Next, Run;
    RunKeeps(steps);
    assert InvAt(Run(steps), id);
    RunSnoc(steps, GivesUp(id));
    GivesUpEnds(Run(steps), id);
  }

  lemma GivesUpEnds(s: System, id: string)
    requires InPhase(s, id, GivingUp)
    ensures InPhase(Next(s, GivesUp(id)), id, Ended(TimedOut))
  {
  }

  lemma RunSnoc(steps: seq<Step>, step: Step)
    ensures Run(steps + [step]) == Next(Run(steps), step)
  {
    assert (steps + [step])[..|steps|] == steps;
  }

  predicate HasReturned(s: System, id: string) {
    id in s.calls && s.calls[id].phase.Ended? && s.calls[id].phase.outcome.Returned?
  }

  /** The request's caller no longer looks at a response. */
  predicate TurnedAway(s: System, id: string) {
    id in s.calls && (s.calls[id].phase.GivingUp? ||
      (s.calls[id].phase.Ended? && (s.calls[id].phase.outcome.TimedOut? || s.calls[id].phase.outcome.SendFailed?)))
  }

  /** In some continuation of the run the request returns. */
  ghost predicate CanReturn(steps: seq<Step>, id: string) {
    exists more: seq<Step> :: HasReturned(Run(steps + more), id)
  }

  lemma {:induction false} StaysTurnedAway(steps: seq<Step>, more: seq<Step>, id: string)
    requires TurnedAway(Run(steps), id)
    ensures TurnedAway(Run(steps + more), id)
    decreases |more|
  {
    if |more| == 0 {
      assert steps + more == steps;
    } else {
      var n := |more| - 1;
      assert steps + more == (steps + more[..n]) + [more[n]];
      StaysTurnedAway(steps, more[..n], id);
      RunSnoc(steps + more[..n], more[n]);
      TurnedAwayStep(Run(steps + more[..n]), more[n], id);
    }
  }

  lemma TurnedAwayStep(s: System, step: Step, id: string)
    requires TurnedAway(s, id)
    ensures TurnedAway(Next(s, step), id)
  {
  }

  lemma {:induction false} WaitingReturns(steps: seq<Step>, id: string)
    requires InPhase(Run(steps), id, Waiting) && id in Run(steps).delivered
    ensures HasReturned(Run(steps + [Hands(id), Returns(id)]), id)
  {
    RunKeeps(steps);
    assert InvAt(Run(steps), id);
    assert steps + [Hands(id), Returns(id)] == (steps + [Hands(id)]) + [Returns(id)];
    RunSnoc(steps, Hands(id));
    RunSnoc(steps + [Hands(id)], Returns(id));
  }

  /** A matched result can still reach its caller, or has, exactly when the caller has not turned away: its wait did not
      time out and its send did not raise. Whether the result was matched before or after that makes no difference. */
  lemma {:induction false} MatchedReachesIff(steps: seq<Step>, id: string)
    requires id in Run(steps).delivered
    ensures CanReturn(steps, id) <==> !TurnedAway(Run(steps), id)
  {
    RunKeeps(steps);
    assert InvAt(Run(steps), id);
    if TurnedAway(Run(steps), id) {
      forall more: seq<Step>
        ensures !HasReturned(Run(steps + more), id)
      {
        StaysTurnedAway(steps, more, id);
      }
    } else if HasReturned(Run(steps), id) {
      assert steps + [] == steps;
    } else if InPhase(Run(steps), id, Waiting) {
      WaitingReturns(steps, id);
    } else {
      RunSnoc(steps, Sends(id));
      WaitingReturns(steps + [Sends(id)], id);
      assert steps + [Sends(id), Hands(id), Returns(id)] == (steps + [Sends(id)]) + [Hands(id), Returns(id)];
      assert HasReturned(Run(steps + [Sends(id), Hands(id), Returns(id)]), id);
    }
  }

  /** A result that was matched while its caller still waited, and was handed over too late. */
  lemma {:induction false} HandedTooLate(body: string) returns (steps: seq<Step>)
    ensures InPhase(Run(steps), "a", Ended(TimedOut)) && Run(steps).delivered == ["a"]
    ensures steps == [Issues("a"), Sends("a"), Arrives("a", body), Expires("a"), Hands("a"), GivesUp("a")]
  {
    var issued := [Issues("a"), Sends("a")];
    RunSnoc([], Issues("a"));
    RunSnoc([] + [Issues("a")], Sends("a"));
    assert ([] + [Issues("a")]) + [Sends("a")] == issued;
    RunSnoc(issued, Arrives("a", body));
    RunSnoc(issued + [Arrives("a", body)], Expires("a"));
    RunSnoc(issued + [Arrives("a", body)] + [Expires("a")], Hands("a"));
    RunSnoc(issued + [Arrives("a", body)] + [Expires("a")] + [Hands("a")], GivesUp("a"));
    steps := issued + [Arrives("a", body)] + [Expires("a")] + [Hands("a")] + [GivesUp("a")];
    FirstIssued("a");
    LateFrom(Run(issued), "a", body);
  }

  lemma FirstIssued(id: string)
    requires id != ""
    ensures var s := Next(Next(START, Issues(id)), Sends(id));
      InPhase(s, id, Waiting) && id in s.table.pending && s.calls[id].response == None && s.delivered == []
  {
  }

  lemma LateFrom(s: System, id: string, body: string)
    requires InPhase(s, id, Waiting) && id in s.table.pending && s.calls[id].response == None && id != ""
    ensures var late := Next(Next(Next(Next(s, Arrives(id, body)), Expires(id)), Hands(id)), GivesUp(id));
      InPhase(late, id, Ended(TimedOut)) && late.delivered == s.delivered + [id]
  {
    var matched := Next(s, Arrives(id, body));
    assert InPhase(matched, id, Waiting) && matched.calls[id].response == None && id in matched.handing;
    var expired := Next(matched, Expires(id));
    assert InPhase(expired, id, GivingUp) && id in expired.handing && expired.delivered == matched.delivered;
    var handed := Next(expired, Hands(id));
    assert InPhase(handed, id, GivingUp) && handed.delivered == matched.delivered;
  }

  /** A result that arrives between the end of a caller's wait and its taking the lock is counted as matched and its
      id as completed, yet the caller times out. */
  lemma {:induction false} MatchedButTimedOut(steps: seq<Step>, id: string, body: string)
    requires InPhase(Run(steps), id, GivingUp) && id in Run(steps).table.pending && id != ""
    ensures var (s, next) := (Run(steps), Next(Next(Run(steps), Arrives(id, body)), GivesUp(id)));
      && InPhase(next, id, Ended(TimedOut))
      && id in next.delivered && |next.delivered| == |s.delivered| + 1
      && next.table.timeouts == s.table.timeouts + 1 && next.left[id] == 1
  {
    RunKeeps(steps);
    assert InvAt(Run(steps), id);
  }
}
