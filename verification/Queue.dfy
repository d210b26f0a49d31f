/** `SerialCommandQueue`: one bounded queue and one worker for each scope. */
module Queue {
  import opened Wrappers

  /** `ticket` names the future of the request. */
  datatype Item = Item(ticket: nat, deadline: Option<real>)

  /** Where the loop of a worker stands: before the test of the shutdown flag, in `get`, in a request, or returned. */
  datatype Worker = AtTop | Polling | Running(item: Item) | Stopped

  datatype Lane = Lane(waiting: seq<Item>, worker: Worker)

  datatype Ending = Completed | Failed | Expired

  datatype Stats = Stats(submitted: nat, completed: nat, failed: nat, expired: nat, rejected: nat)

  /** `futures` maps the ticket of each accepted request to how it ended, if it did. */
  datatype State = State(lanes: map<string, Lane>, futures: map<nat, Option<Ending>>, shut: bool, stats: Stats)

  datatype Refusal = ShutDown | QueueFull

  const EMPTY := State(map[], map[], false, Stats(0, 0, 0, 0, 0))

  predicate Late(item: Item, now: real) {
    item.deadline.Some? && now > item.deadline.value
  }

  function DeadlineOf(timeout: real, now: real): Option<real> {
    if timeout > 0.0 then Some(now + timeout) else None
  }

  /** A queue of size 0 or less is unbounded. */
  predicate Full(waiting: seq<Item>, max: int) {
    0 < max <= |waiting|
  }

  // ---- The steps, as functions ------------------------------------------------------------------------

  function LaneOf(s: State, scope: string): Lane {
    if scope in s.lanes then s.lanes[scope] else Lane([], AtTop)
  }

  function Enqueued(s: State, max: int, scope: string, timeout: real, now: real): (State, Result<Item, Refusal>) {
    if s.shut then (s, Err(ShutDown))
    else
      var lane := LaneOf(s, scope);
      if Full(lane.waiting, max) then
        (s.(lanes := s.lanes[scope := lane], stats := s.stats.(rejected := s.stats.rejected + 1)), Err(QueueFull))
      else
        var item := Item(s.stats.submitted, DeadlineOf(timeout, now));
        (s.(lanes := s.lanes[scope := lane.(waiting := lane.waiting + [item])],
          futures := s.futures[item.ticket := None],
            stats := s.stats.(submitted := s.stats.submitted + 1)), Ok(item))
  }

  /** The top of the worker's loop. */
  function Checked(s: State, scope: string): State {
    if scope in s.lanes && s.lanes[scope].worker.AtTop? then
      s.(lanes := s.lanes[scope := s.lanes[scope].(worker := if s.shut then Stopped else Polling)])
    else s
  }

  /** `get`, which gives up on an empty queue, and the deadline check. */
  function Polled(s: State, scope: string, now: real): State {
    if scope !in s.lanes || !s.lanes[scope].worker.Polling? then s
    else
      var lane := s.lanes[scope];
      if lane.waiting == [] then s.(lanes := s.lanes[scope := lane.(worker := AtTop)])
      else
        var item := lane.waiting[0];
        if Late(item, now) then
          s.(lanes := s.lanes[scope := Lane(lane.waiting[1..], AtTop)],
            futures := s.futures[item.ticket := Some(Expired)],
             stats := s.stats.(expired := s.stats.expired + 1))
        else s.(lanes := s.lanes[scope := Lane(lane.waiting[1..], Running(item))])
  }

  function Finished(s: State, scope: string, ok: bool): State {
    if scope !in s.lanes || !s.lanes[scope].worker.Running? then s
    else
      var lane := s.lanes[scope];
      s.(lanes := s.lanes[scope := lane.(worker := AtTop)],
         futures := s.futures[lane.worker.item.ticket := Some(if ok then Completed else Failed)],
         stats := if ok then s.stats.(completed := s.stats.completed + 1) else s.stats.(failed := s.stats.failed + 1))
  }

  /** Who is refused, and how late an accepted request may be handed over. */
  lemma {:induction false} EnqueuedIff(s: State, max: int, scope: string, timeout: real, now: real)
    ensures var accepted := Enqueued(s, max, scope, timeout, now).1;
      && (accepted == Err(ShutDown) <==> s.shut)
      && (accepted == Err(QueueFull) <==> !s.shut && max > 0 && |LaneOf(s, scope).waiting| >= max)
      && (accepted.Ok? ==> forall later: real :: Late(accepted.value, later) <==>
        timeout > 0.0 && later - now > timeout)
  {
  }

  // ---- The object ---------------------------------------------------------------------------------------

  /** The queue and the worker of a scope come into being together and are one entry of `lanes` here. */
  class SerialCommandQueue {
    const maxPending: int
    var lanes: map<string, Lane>
    var futures: map<nat, Option<Ending>>
    var shut: bool
    var stats: Stats

    constructor (maxPending: int)
      ensures this.maxPending == maxPending && Value() == EMPTY
    {
      this.maxPending := maxPending;
      lanes, futures := map[], map[];
      shut, stats := false, Stats(0, 0, 0, 0, 0);
    }

    function Value(): State
      reads this
    {
      State(lanes, futures, shut, stats)
    }

    method Enqueue(scope: string, timeout: real, now: real) returns (accepted: Result<Item, Refusal>)
      modifies this
      ensures (Value(), accepted) == Enqueued(old(Value()), maxPending, scope, timeout, now)
    {
      if shut {
        return Err(ShutDown);
      }
      if scope !in lanes {
        lanes := lanes[scope := Lane([], AtTop)];
      }
      var lane := lanes[scope];
      assert lanes == old(lanes)[scope := lane];
      if Full(lane.waiting, maxPending) {
        stats := stats.(rejected := stats.rejected + 1);
        return Err(QueueFull);
      }
      var item := Item(stats.submitted, DeadlineOf(timeout, now));
      futures := futures[item.ticket := None];
      lanes := lanes[scope := lane.(waiting := lane.waiting + [item])];
      stats := stats.(submitted := stats.submitted + 1);
      accepted := Ok(item);
      assert lanes == old(lanes)[scope := lanes[scope]];
    }

    method Check(scope: string)
      modifies this
      ensures Value() == Checked(old(Value()), scope)
    {
      if scope in lanes && lanes[scope].worker.AtTop? {
        lanes := lanes[scope := lanes[scope].(worker := if shut then Stopped else Polling)];
      }
    }

    method Poll(scope: string, now: real)
      modifies this
      ensures Value() == Polled(old(Value()), scope, now)
    {
      if scope !in lanes || !lanes[scope].worker.Polling? {
        return;
      }
      var waiting := lanes[scope].waiting;
      if waiting == [] {
        lanes := lanes[scope := Lane(waiting, AtTop)];
        return;
      }
      var item := waiting[0];
      if Late(item, now) {
        stats := stats.(expired := stats.expired + 1);
        futures := futures[item.ticket := Some(Expired)];
        lanes := lanes[scope := Lane(waiting[1..], AtTop)];
        return;
      }
      lanes := lanes[scope := Lane(waiting[1..], Running(item))];
    }

    method Finish(scope: string, ok: bool)
      modifies this
      ensures Value() == Finished(old(Value()), scope, ok)
    {
      if scope !in lanes || !lanes[scope].worker.Running? {
        return;
      }
      var lane := lanes[scope];
      futures := futures[lane.worker.item.ticket := Some(if ok then Completed else Failed)];
      stats := if ok then stats.(completed := stats.completed + 1) else stats.(failed := stats.failed + 1);
      lanes := lanes[scope := lane.(worker := AtTop)];
    }

    method Shutdown()
      modifies this
      ensures Value() == old(Value()).(shut := true)
    {
      shut := true;
    }
  }

  // ---- Every run -------------------------------------------------------------------------------------------

  datatype Step =
    | Enqueues(scope: string, timeout: real, now: real)
    | Checks(scope: string)
    | Polls(scope: string, now: real)
    | Finishes(scope: string, ok: bool)
    | ShutsDown

  datatype Kind = Acceptance | Handover | Ends(ending: Ending)

  datatype Event = Event(kind: Kind, scope: string, item: Item, now: real)

  function Next(s: State, max: int, step: Step): State {
    match step
    case Enqueues(scope, timeout, now) => Enqueued(s, max, scope, timeout, now).0
    case Checks(scope) => Checked(s, scope)
    case Polls(scope, now) => Polled(s, scope, now)
    case Finishes(scope, ok) => Finished(s, scope, ok)
    case ShutsDown => s.(shut := true)
  }

  /** What of a step its surroundings see. */
  function Seen(s: State, max: int, step: Step): seq<Event> {
    match step
    case Enqueues(scope, timeout, now) =>
      var (_, accepted) := Enqueued(s, max, scope, timeout, now);
      if accepted.Ok? then [Event(Acceptance, scope, accepted.value, now)] else []
    case Polls(scope, now) =>
      var lane := LaneOf(s, scope);
      if !lane.worker.Polling? || lane.waiting == [] then []
      else [Event(if Late(lane.waiting[0], now) then Ends(Expired) else Handover, scope, lane.waiting[0], now)]
    case Finishes(scope, ok) =>
      var lane := LaneOf(s, scope);
      if lane.worker.Running? then [Event(Ends(if ok then Completed else Failed), scope, lane.worker.item, 0.0)] else []
    case _ => []
  }

  function After(max: int, steps: seq<Step>): State
    decreases |steps|
  {
    if |steps| == 0 then EMPTY else Next(After(max, steps[..|steps| - 1]), max, steps[|steps| - 1])
  }

  function Log(max: int, steps: seq<Step>): seq<Event>
    decreases |steps|
  {
    if |steps| == 0 then []
    else Log(max, steps[..|steps| - 1]) + Seen(After(max, steps[..|steps| - 1]), max, steps[|steps| - 1])
  }

  /** Four views of a log: what was accepted, taken from the queue, handed over, and what ended after it was handed
      over. */
  datatype View = Accepted | Taken | HandedOver | Run

  predicate Shows(view: View, kind: Kind) {
    match view
    case Accepted => kind.Acceptance?
    case Taken => kind.Handover? || kind == Ends(Expired)
    case HandedOver => kind.Handover?
    case Run => kind.Ends? && !kind.ending.Expired?
  }

  /** The items of a scope's events, in order. */
  function Items(log: seq<Event>, scope: string, view: View): seq<Item> {
    if |log| == 0 then []
    else
      var e := log[|log| - 1];
      Items(log[..|log| - 1], scope, view) + if e.scope == scope && Shows(view, e.kind) then [e.item] else []
  }

  function InHand(worker: Worker): seq<Item> {
    if worker.Running? then [worker.item] else []
  }

  lemma ItemsOf(log: seq<Event>, seen: seq<Event>, scope: string, view: View)
    requires |seen| <= 1
    ensures Items(log + seen, scope, view) ==
      Items(log, scope, view) +
        if seen != [] && seen[0].scope == scope && Shows(view, seen[0].kind) then [seen[0].item] else []
  {
    if seen == [] {
      assert log + seen == log;
    } else {
      assert (log + seen)[..|log|] == log;
    }
  }

  /** Taken in the order of acceptance, the rest waiting; run in the order taken, one at a time. */
  ghost predicate InOrder(lane: Lane, accepted: seq<Item>, taken: seq<Item>, handed: seq<Item>, run: seq<Item>) {
    accepted == taken + lane.waiting && handed == run + InHand(lane.worker)
  }

  ghost predicate Ordered(s: State, log: seq<Event>, scope: string) {
    InOrder(LaneOf(s, scope), Items(log, scope, Accepted), Items(log, scope, Taken), Items(log, scope, HandedOver),
      Items(log, scope, Run))
  }

  /** Handed over in time, or expired too late. */
  predicate Timely(e: Event) {
    (e.kind.Handover? ==> !Late(e.item, e.now)) && (e.kind == Ends(Expired) ==> Late(e.item, e.now))
  }

  /** The scope of a step, whose lane alone it changes. */
  function ScopeOf(step: Step): string {
    if step.ShutsDown? then "" else step.scope
  }

  lemma StepChangesLane(s: State, max: int, step: Step)
    ensures var (next, scope) := (Next(s, max, step), ScopeOf(step));
      next.lanes == s.lanes || next.lanes == s.lanes[scope := LaneOf(next, scope)]
  {
  }

  /** What a step does to the lane of its scope, as told by what it shows of it. */
  predicate Moves(lane: Lane, next: Lane, seen: seq<Event>, max: int, scope: string) {
    if seen == [] then next.waiting == lane.waiting && InHand(next.worker) == InHand(lane.worker)
    else
      var (kind, item) := (seen[0].kind, seen[0].item);
      && |seen| == 1 && seen[0].scope == scope && Timely(seen[0])
      && match kind
         case Acceptance => next == lane.(waiting := lane.waiting + [item]) && !Full(lane.waiting, max)
         case Handover => lane.waiting == [item] + next.waiting && InHand(lane.worker) == []
           && InHand(next.worker) == [item]
         case Ends(Expired) => lane.waiting == [item] + next.waiting && InHand(lane.worker) == [] == InHand(next.worker)
         case Ends(_) => next == lane.(worker := AtTop) && InHand(lane.worker) == [item]
  }

  lemma StepMoves(s: State, max: int, step: Step)
    ensures Moves(LaneOf(s, ScopeOf(step)), LaneOf(Next(s, max, step), ScopeOf(step)), Seen(s, max, step), max,
      ScopeOf(step))
  {
    match step {
      case Polls(_, _) =>
        var waiting := LaneOf(s, step.scope).waiting;
        assert waiting != [] ==> waiting == [waiting[0]] + waiting[1..];
      case _ =>
    }
  }

  lemma {:induction false} MoveKeepsOrder(lane: Lane, next: Lane, log: seq<Event>, seen: seq<Event>, max: int,
      scope: string)
    requires Moves(lane, next, seen, max, scope)
    requires InOrder(lane, Items(log, scope, Accepted), Items(log, scope, Taken), Items(log, scope, HandedOver),
      Items(log, scope, Run))
    ensures var log' := log + seen;
      InOrder(next, Items(log', scope, Accepted), Items(log', scope, Taken), Items(log', scope, HandedOver),
        Items(log', scope, Run))
  {
    ItemsOf(log, seen, scope, Accepted);
    ItemsOf(log, seen, scope, Taken);
    ItemsOf(log, seen, scope, HandedOver);
    ItemsOf(log, seen, scope, Run);
  }

  lemma StepKeepsOrder(s: State, log: seq<Event>, max: int, scope: string, step: Step)
    requires Ordered(s, log, scope)
    ensures Ordered(Next(s, max, step), log + Seen(s, max, step), scope)
  {
    var seen, next := Seen(s, max, step), Next(s, max, step);
    StepMoves(s, max, step);
    if ScopeOf(step) == scope {
      MoveKeepsOrder(LaneOf(s, scope), LaneOf(next, scope), log, seen, max, scope);
    } else {
      StepChangesLane(s, max, step);
      assert LaneOf(next, scope) == LaneOf(s, scope);
      forall view: View
        ensures Items(log + seen, scope, view) == Items(log, scope, view)
      {
        ItemsOf(log, seen, scope, view);
      }
    }
  }

  ghost predicate Bounded(s: State, max: int) {
    max > 0 ==> forall scope | scope in s.lanes :: |s.lanes[scope].waiting| <= max
  }

  lemma StepKeepsBound(s: State, max: int, step: Step)
    requires Bounded(s, max)
    ensures Bounded(Next(s, max, step), max)
  {
    StepMoves(s, max, step);
    StepChangesLane(s, max, step);
  }

  lemma StepTimely(s: State, max: int, step: Step)
    ensures forall e | e in Seen(s, max, step) :: Timely(e)
  {
    StepMoves(s, max, step);
  }

  /** In every run and scope: the requests taken from the queue are the first that were accepted, in that order, and the
      rest wait; and those handed over are those that ran to their end, in that order, and at most one in hand. */
  lemma {:induction false} ServedInOrder(max: int, steps: seq<Step>, scope: string)
    ensures Ordered(After(max, steps), Log(max, steps), scope)
    decreases |steps|
  {
    if |steps| > 0 {
      var n := |steps| - 1;
      ServedInOrder(max, steps[..n], scope);
      StepKeepsOrder(After(max, steps[..n]), Log(max, steps[..n]), max, scope, steps[n]);
    }
  }

  /** Of the requests taken, those are skipped, and only those, whose deadline has passed. */
  lemma {:induction false} OnlyLateSkipped(max: int, steps: seq<Step>)
    ensures forall e | e in Log(max, steps) && Shows(Taken, e.kind) :: e.kind == Ends(Expired) <==> Late(e.item, e.now)
    decreases |steps|
  {
    if |steps| > 0 {
      var n := |steps| - 1;
      OnlyLateSkipped(max, steps[..n]);
      StepTimely(After(max, steps[..n]), max, steps[n]);
    }
  }

  lemma {:induction false} NeverOverfull(max: int, steps: seq<Step>)
    ensures Bounded(After(max, steps), max)
    decreases |steps|
  {
    if |steps| > 0 {
      var n := |steps| - 1;
      NeverOverfull(max, steps[..n]);
      StepKeepsBound(After(max, steps[..n]), max, steps[n]);
    }
  }

  // ---- Futures and counters ------------------------------------------------------------------------------------

  /** How the future of the ticket was resolved, each time it was. */
  function Resolutions(log: seq<Event>, ticket: nat): seq<Ending> {
    if |log| == 0 then []
    else
      var e := log[|log| - 1];
      Resolutions(log[..|log| - 1], ticket) + if e.kind.Ends? && e.item.ticket == ticket then [e.kind.ending] else []
  }

  function Count(items: seq<Item>, ticket: nat): nat {
    if items == [] then 0 else (if items[0].ticket == ticket then 1 else 0) + Count(items[1..], ticket)
  }

  function Times(lane: Lane, ticket: nat): nat {
    Count(InHand(lane.worker), ticket) + Count(lane.waiting, ticket)
  }

  function TimesOf(ticket: nat): Lane -> nat {
    (lane: Lane) => Times(lane, ticket)
  }

  function Load(lane: Lane): nat {
    |InHand(lane.worker)| + |lane.waiting|
  }

  ghost function Sum(lanes: map<string, Lane>, weight: Lane -> nat): nat
    decreases |lanes|
  {
    if lanes == map[] then 0
    else
      var scope :| scope in lanes;
      weight(lanes[scope]) + Sum(lanes - {scope}, weight)
  }

  lemma {:induction false} SumSplit(lanes: map<string, Lane>, scope: string, weight: Lane -> nat)
    requires scope in lanes
    ensures Sum(lanes, weight) == weight(lanes[scope]) + Sum(lanes - {scope}, weight)
    decreases |lanes|
  {
    var first :| first in lanes && Sum(lanes, weight) == weight(lanes[first]) + Sum(lanes - {first}, weight);
    if first != scope {
      SumSplit(lanes - {first}, scope, weight);
      SumSplit(lanes - {scope}, first, weight);
      assert lanes - {first} - {scope} == lanes - {scope} - {first};
    }
  }

  lemma SumPut(lanes: map<string, Lane>, scope: string, lane: Lane, weight: Lane -> nat)
    ensures Sum(lanes[scope := lane], weight) + (if scope in lanes then weight(lanes[scope]) else 0) ==
      Sum(lanes, weight) + weight(lane)
  {
    SumSplit(lanes[scope := lane], scope, weight);
    assert lanes[scope := lane] - {scope} == lanes - {scope};
    if scope in lanes {
      SumSplit(lanes, scope, weight);
    } else {
      assert lanes - {scope} == lanes;
    }
  }

  lemma {:induction false} CountAppend(items: seq<Item>, item: Item, ticket: nat)
    ensures Count(items + [item], ticket) == Count(items, ticket) + if item.ticket == ticket then 1 else 0
  {
    if items != [] {
      assert (items + [item])[1..] == items[1..] + [item];
      CountAppend(items[1..], item, ticket);
    }
  }

  /** Of the tickets in the lanes and the resolutions together, an accepted ticket is one. */
  ghost predicate HeldOnce(s: State, log: seq<Event>, ticket: nat) {
    Sum(s.lanes, TimesOf(ticket)) + |Resolutions(log, ticket)| == (if ticket < s.stats.submitted then 1 else 0)
  }

  /** The future says what the first resolution was. */
  predicate FutureSays(s: State, ticket: nat, resolutions: seq<Ending>) {
    && (ticket in s.futures <==> ticket < s.stats.submitted)
    && (ticket in s.futures ==> s.futures[ticket] == if resolutions == [] then None else Some(resolutions[0]))
  }

  /** The ticket of an accepted request is held once, its future open, or its future was resolved once. */
  ghost predicate ResolvedOnce(s: State, log: seq<Event>, ticket: nat) {
    && HeldOnce(s, log, ticket)
    && FutureSays(s, ticket, Resolutions(log, ticket))
  }

  ghost predicate AddsUp(s: State) {
    s.stats.submitted == s.stats.completed + s.stats.failed + s.stats.expired + Sum(s.lanes, Load)
  }

  lemma ResolutionsOf(log: seq<Event>, seen: seq<Event>, ticket: nat)
    requires |seen| <= 1
    ensures Resolutions(log + seen, ticket) == Resolutions(log, ticket) +
      if seen != [] && seen[0].kind.Ends? && seen[0].item.ticket == ticket then [seen[0].kind.ending] else []
  {
    if seen == [] {
      assert log + seen == log;
    } else {
      assert (log + seen)[..|log|] == log;
    }
  }

  lemma StepSum(s: State, max: int, step: Step, weight: Lane -> nat)
    requires weight(Lane([], AtTop)) == 0
    ensures var (next, scope) := (Next(s, max, step), ScopeOf(step));
      Sum(next.lanes, weight) + weight(LaneOf(s, scope)) == Sum(s.lanes, weight) + weight(LaneOf(next, scope))
  {
    var next, scope := Next(s, max, step), ScopeOf(step);
    StepChangesLane(s, max, step);
    if next.lanes != s.lanes {
      SumPut(s.lanes, scope, LaneOf(next, scope), weight);
    }
  }

  /** Steps move a ticket between the lane and the resolutions. */
  lemma StepMovesTicket(s: State, max: int, step: Step, ticket: nat)
    ensures var (lane, next, seen) :=
        (LaneOf(s, ScopeOf(step)), LaneOf(Next(s, max, step), ScopeOf(step)), Seen(s, max, step));
      && |seen| <= 1
      && Times(next, ticket) == Times(lane, ticket) +
           (if seen == [] || seen[0].item.ticket != ticket || seen[0].kind.Handover? then 0
            else if seen[0].kind.Acceptance? then 1 else -1)
  {
    StepMoves(s, max, step);
    var seen, waiting := Seen(s, max, step), LaneOf(s, ScopeOf(step)).waiting;
    if seen != [] {
      if seen[0].kind.Acceptance? {
        CountAppend(waiting, seen[0].item, ticket);
      } else if Shows(Taken, seen[0].kind) {
        assert waiting[1..] == LaneOf(Next(s, max, step), ScopeOf(step)).waiting;
        assert Count([seen[0].item], ticket) == (if seen[0].item.ticket == ticket then 1 else 0) + Count([], ticket);
      }
    }
  }

  lemma StepOnFutures(s: State, max: int, step: Step)
    ensures var (next, seen) := (Next(s, max, step), Seen(s, max, step));
      && next.stats.submitted == s.stats.submitted + (if seen != [] && seen[0].kind.Acceptance? then 1 else 0)
      && (seen == [] || seen[0].kind.Handover? ==> next.futures == s.futures)
      && (seen != [] && seen[0].kind.Acceptance? ==>
            seen[0].item.ticket == s.stats.submitted && next.futures == s.futures[s.stats.submitted := None])
      && (seen != [] && seen[0].kind.Ends? ==>
        next.futures == s.futures[seen[0].item.ticket := Some(seen[0].kind.ending)])
  {
  }

  lemma {:induction false} StepKeepsHeld(s: State, log: seq<Event>, max: int, step: Step, ticket: nat)
    requires HeldOnce(s, log, ticket)
    ensures HeldOnce(Next(s, max, step), log + Seen(s, max, step), ticket)
  {
    assert TimesOf(ticket)(Lane([], AtTop)) == 0;
    hide Next, Seen, Sum, Times, Resolutions, LaneOf;
    StepMovesTicket(s, max, step, ticket);
    StepSum(s, max, step, TimesOf(ticket));
    StepOnFutures(s, max, step);
    ResolutionsOf(log, Seen(s, max, step), ticket);
  }

  lemma {:induction false} FutureFollows(s: State, next: State, seen: seq<Event>, ticket: nat, before: seq<Ending>,
      after: seq<Ending>)
    requires FutureSays(s, ticket, before) && |after| <= 1
    requires after == before +
      if seen != [] && seen[0].kind.Ends? && seen[0].item.ticket == ticket then [seen[0].kind.ending] else []
    requires (before != [] ==> ticket < s.stats.submitted) && (after != [] ==> ticket < next.stats.submitted)
    requires next.stats.submitted == s.stats.submitted + (if seen != [] && seen[0].kind.Acceptance? then 1 else 0)
    requires seen == [] || seen[0].kind.Handover? ==> next.futures == s.futures
    requires seen != [] && seen[0].kind.Acceptance? ==> next.futures == s.futures[s.stats.submitted := None]
    requires seen != [] && seen[0].kind.Ends? ==>
      next.futures == s.futures[seen[0].item.ticket := Some(seen[0].kind.ending)]
    ensures FutureSays(next, ticket, after)
  {
  }

  lemma {:induction false} StepKeepsResolved(s: State, log: seq<Event>, max: int, step: Step, ticket: nat)
    requires ResolvedOnce(s, log, ticket)
    ensures ResolvedOnce(Next(s, max, step), log + Seen(s, max, step), ticket)
  {
    var next, seen := Next(s, max, step), Seen(s, max, step);
    StepKeepsHeld(s, log, max, step, ticket);
    StepOnFutures(s, max, step);
    ResolutionsOf(log, seen, ticket);
    hide Next, Seen, Resolutions, Sum, FutureSays;
    FutureFollows(s, next, seen, ticket, Resolutions(log, ticket), Resolutions(log + seen, ticket));
  }

  lemma StepKeepsSum(s: State, max: int, step: Step)
    requires AddsUp(s)
    ensures AddsUp(Next(s, max, step))
  {
    StepSum(s, max, step, Load);
  }

  /** In every run the future of each accepted request is resolved at most once, namely when the request leaves the
      queue and its worker, and the accepted requests are the completed, failed, expired, waiting and running ones. */
  lemma {:induction false} EndsOnce(max: int, steps: seq<Step>, ticket: nat)
    ensures ResolvedOnce(After(max, steps), Log(max, steps), ticket) && AddsUp(After(max, steps))
    decreases |steps|
  {
    if |steps| > 0 {
      var n := |steps| - 1;
      EndsOnce(max, steps[..n], ticket);
      StepKeepsResolved(After(max, steps[..n]), Log(max, steps[..n]), max, steps[n], ticket);
      StepKeepsSum(After(max, steps[..n]), max, steps[n]);
    }
  }

  /** How often the test passed when a step was about to be taken. */
  function Tally(max: int, steps: seq<Step>, test: (State, Step) -> bool): nat
    decreases |steps|
  {
    if |steps| == 0 then 0
    else
      var n := |steps| - 1;
      Tally(max, steps[..n], test) + if test(After(max, steps[..n]), steps[n]) then 1 else 0
  }

  /** The step ends the request in hand of its scope, well or not. */
  predicate EndsRun(s: State, step: Step, ok: bool) {
    step.Finishes? && step.scope in s.lanes && s.lanes[step.scope].worker.Running? && step.ok == ok
  }

  /** The step takes a request out of its queue whose deadline has passed. */
  predicate EndsLate(s: State, step: Step) {
    step.Polls? && step.scope in s.lanes && s.lanes[step.scope].worker.Polling? && s.lanes[step.scope].waiting != []
    && Late(s.lanes[step.scope].waiting[0], step.now)
  }

  /** The step asks for room in the queue of its scope before the shutdown, and there is some, or none. */
  predicate FindsRoom(s: State, max: int, step: Step, room: bool) {
    step.Enqueues? && !s.shut
    && room == (max <= 0 || step.scope !in s.lanes || |s.lanes[step.scope].waiting| < max)
  }

  /** In every run the counters are what they say: how often a request ran well, failed, was skipped as late, was
      accepted, and was turned away for want of room. */
  lemma {:induction false} CountersTell(max: int, steps: seq<Step>)
    ensures After(max, steps).stats == Stats(
      Tally(max, steps, (s, step) => FindsRoom(s, max, step, true)),
      Tally(max, steps, (s, step) => EndsRun(s, step, true)),
      Tally(max, steps, (s, step) => EndsRun(s, step, false)),
      Tally(max, steps, (s, step) => EndsLate(s, step)),
      Tally(max, steps, (s, step) => FindsRoom(s, max, step, false)))
    decreases |steps|
  {
    if |steps| > 0 {
      var n := |steps| - 1;
      CountersTell(max, steps[..n]);
      StepCounts(After(max, steps[..n]), max, steps[n]);
      hide Next, EndsRun, EndsLate, FindsRoom;
    }
  }

  lemma {:induction false} StepCounts(s: State, max: int, step: Step)
    ensures Next(s, max, step).stats == Stats(
      s.stats.submitted + if FindsRoom(s, max, step, true) then 1 else 0,
      s.stats.completed + if EndsRun(s, step, true) then 1 else 0,
      s.stats.failed + if EndsRun(s, step, false) then 1 else 0,
      s.stats.expired + if EndsLate(s, step) then 1 else 0,
      s.stats.rejected + if FindsRoom(s, max, step, false) then 1 else 0)
  {
  }

  /** The future of the request in hand becomes what the step that ends it says, and that of a late one expired; no
      other future changes but that of a request accepted. */
  lemma {:induction false} FuturesTell(s: State, max: int, step: Step, ticket: nat)
    requires ticket in s.futures && ticket < s.stats.submitted
    ensures var next := Next(s, max, step);
      && ticket in next.futures
      && next.futures[ticket] ==
        if (EndsRun(s, step, true) || EndsRun(s, step, false)) && s.lanes[step.scope].worker.item.ticket == ticket
        then Some(if step.ok then Completed else Failed)
        else if EndsLate(s, step) && s.lanes[step.scope].waiting[0].ticket == ticket then Some(Expired)
        else s.futures[ticket]
  {
  }

  /** In every run a worker has stopped only after the shutdown, and one that comes back to the top of its loop then
      stops, whatever still waits. */
  lemma {:induction false} StopsIffShut(max: int, steps: seq<Step>, scope: string)
    requires scope in After(max, steps).lanes
    ensures var (s, next) := (After(max, steps), After(max, steps + [Checks(scope)]));
      && (s.lanes[scope].worker.Stopped? ==> s.shut)
      && scope in next.lanes && next.lanes[scope].waiting == s.lanes[scope].waiting
      && (s.lanes[scope].worker.AtTop? ==> (next.lanes[scope].worker.Stopped? <==> s.shut))
  {
    StoppedShut(max, steps, scope);
    assert (steps + [Checks(scope)])[..|steps|] == steps;
  }

  lemma {:induction false} StoppedShut(max: int, steps: seq<Step>, scope: string)
    ensures LaneOf(After(max, steps), scope).worker.Stopped? ==> After(max, steps).shut
    decreases |steps|
  {
    if |steps| > 0 {
      StoppedShut(max, steps[..|steps| - 1], scope);
    }
  }
}
