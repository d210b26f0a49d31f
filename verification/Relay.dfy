/** Clients, relay and browser tabs: a request id is executed once by each tab and answered once to each client. */
module Relay {
  import opened Sequences
  import opened SeenFilter

  type Peer = string

  datatype Client = Python | Foundry

  /** A `command` or `batch` message, or a `result`, with its request id; or an `event`, where `made` is the id that the
      relay makes up for one that has none. */
  datatype Message = Request(id: string) | Answer(id: string) | Push(id: string, made: string)

  datatype Reply = Forwarded(to: set<Peer>) | Duplicate | MissingId | Unsupported

  // ---- The relay ----------------------------------------------------------------------------------

  datatype RelayState = RelayState(python: set<Peer>, foundry: set<Peer>, requests: seq<string>, results: seq<string>,
                                   events: seq<string>)

  function Handled(s: RelayState, size: nat, from: Client, msg: Message): (RelayState, Reply) {
    match (from, msg)
    case (Python, Request(id)) =>
      if id == "" then (s, MissingId)
      else
        var (ids, seen) := Mark(s.requests, id, size);
        (s.(requests := ids), if seen then Duplicate else Forwarded(s.foundry))
    case (Foundry, Answer(id)) =>
      if id == "" then (s, MissingId)
      else
        var (ids, seen) := Mark(s.results, id, size);
        (s.(results := ids), if seen then Duplicate else Forwarded(s.python))
    case (_, Push(id, made)) =>
      var (ids, seen) := Mark(s.events, if id != "" then id else made, size);
      (s.(events := ids), if seen then Duplicate else Forwarded(if from.Foundry? then s.python else s.foundry))
    case _ => (s, Unsupported)
  }

  class RelayServer {
    var python: set<Peer>
    var foundry: set<Peer>
    /** The clients of Foundry whose `hello` said that their user is the game master. */
    var gms: set<Peer>
    const size: nat
    const requests: RelayFilter
    const results: RelayFilter
    const events: RelayFilter

    constructor (size: nat)
      ensures this.size == size && Valid() && State() == RelayState({}, {}, [], [], []) && gms == {}
      ensures fresh(requests) && fresh(results) && fresh(events)
    {
      python, foundry, gms := {}, {}, {};
      this.size := size;
      requests := new RelayFilter(size);
      results := new RelayFilter(size);
      events := new RelayFilter(size);
    }

    ghost predicate Valid()
      reads this, requests, results, events
    {
      && requests != results && requests != events && results != events
      && requests.size == results.size == events.size == size
      && |requests.ids| <= size && |results.ids| <= size && |events.ids| <= size
      && gms <= foundry
    }

    ghost function State(): RelayState
      reads this, requests, results, events
    {
      RelayState(python, foundry, requests.ids, results.ids, events.ids)
    }

    method HandleMessage(from: Client, msg: Message) returns (reply: Reply)
      requires Valid()
      modifies requests, results, events
      ensures Valid() && (State(), reply) == Handled(old(State()), size, from, msg)
    {
      if from.Python? && msg.Request? {
        if msg.id == "" {
          return MissingId;
        }
        var seen := requests.MarkSeen(msg.id);
        return if seen then Duplicate else Forwarded(foundry);
      }
      if from.Foundry? && msg.Answer? {
        if msg.id == "" {
          return MissingId;
        }
        var seen := results.MarkSeen(msg.id);
        return if seen then Duplicate else Forwarded(python);
      }
      if msg.Push? {
        var seen := events.MarkSeen(if msg.id != "" then msg.id else msg.made);
        if seen {
          return Duplicate;
        }
        return if from.Foundry? then Forwarded(python) else Forwarded(foundry);
      }
      reply := Unsupported;
    }

    /** The `hello` of a connection. */
    method Register(peer: Peer, client: Client, gm: bool)
      requires Valid()
      modifies this
      ensures Valid()
      ensures python == if client.Python? then old(python) + {peer} else old(python)
      ensures foundry == if client.Foundry? then old(foundry) + {peer} else old(foundry)
      ensures gms == if client.Foundry? && gm then old(gms) + {peer} else old(gms)
    {
      if client.Python? {
        python := python + {peer};
      } else {
        foundry := foundry + {peer};
        if gm {
          gms := gms + {peer};
        }
      }
    }

    /** The connection ends, or a send to it hangs or fails. */
    method Drop(peer: Peer)
      requires Valid()
      modifies this
      ensures Valid()
      ensures python == old(python) - {peer} && foundry == old(foundry) - {peer} && gms == old(gms) - {peer}
    {
      python := python - {peer};
      foundry := foundry - {peer};
      gms := gms - {peer};
    }
  }

  // ---- A browser tab --------------------------------------------------------------------------------

  const PROCESSED_LIMIT: nat := 512

  datatype Reaction<T> = Ignored | Resent(result: T) | Executes

  function Reacts(gm: bool, cache: seq<string>, id: string): Reaction<()> {
    if id == "" || !gm then Ignored else if id in cache then Resent(()) else Executes
  }

  /** The message handler of `socket_bridge.js`, cut at the `await` of the execution. */
  class Bridge<T> {
    const gm: bool
    const processed: ProcessedResults<T>

    constructor (gm: bool)
      ensures this.gm == gm && fresh(processed) && processed.Valid()
      ensures processed.limit == PROCESSED_LIMIT && processed.ids == []
    {
      this.gm := gm;
      processed := new ProcessedResults(PROCESSED_LIMIT);
    }

    method OnRequest(id: string) returns (reaction: Reaction<T>)
      requires processed.Valid()
      ensures reaction.Ignored? <==> Reacts(gm, processed.ids, id).Ignored?
      ensures reaction.Executes? <==> Reacts(gm, processed.ids, id).Executes?
      ensures reaction.Resent? ==> id in processed.results && reaction.result == processed.results[id]
    {
      assert id in processed.ids <==> id in Ids(processed.ids);
      if id == "" {
        return Ignored;
      }
      if !gm {
        return Ignored;
      }
      if id in processed.results {
        return Resent(processed.results[id]);
      }
      reaction := Executes;
    }

    method OnExecuted(id: string, result: T)
      requires processed.Valid()
      modifies processed
      ensures processed.Valid() && processed.ids == Mark(old(processed.ids), id, processed.limit).0
    {
      processed.Remember(id, result);
    }
  }

  /** `started` counts the executions a tab ever began; `finished` lists those it ended since its page was loaded. */
  datatype Tab = Tab(gm: bool, inbox: multiset<string>, running: multiset<string>, outbox: multiset<string>,
                     cache: seq<string>, started: multiset<string>, finished: seq<string>)

  // ---- All together ------------------------------------------------------------------------------------

  /** `asked`, `answered` and `pushed` list the valid ids in the order they reached the relay, copies included; `got`
      counts the results that each client was sent, `heard` the events that each client and each tab was. */
  datatype Net = Net(relay: RelayState, tabs: map<Peer, Tab>, got: map<Peer, multiset<string>>,
                     heard: map<Peer, multiset<string>>, asked: seq<string>, answered: seq<string>, pushed: seq<string>)

  const START := Net(RelayState({}, {}, [], [], []), map[], map[], map[], [], [], [])

  /** What a tab does by itself; `Loses` drops a result it sent. */
  datatype Deed = Receives(id: string) | Finishes(id: string) | Loses(id: string) | Reloads

  /** `Asks` is any client sending any id, new or a copy; `again` leaves a copy of the result under way. */
  datatype Step =
    | ClientJoins(peer: Peer)
    | TabJoins(peer: Peer, gm: bool)
    | Leaves(peer: Peer)
    | Asks(peer: Peer, id: string)
    | Acts(peer: Peer, deed: Deed)
    | Answers(peer: Peer, id: string, again: bool)
    | Pushes(peer: Peer, from: Client, id: string, made: string)

  function Received(tab: Tab, id: string): Tab {
    var rest := tab.(inbox := tab.inbox - multiset{id});
    match Reacts(tab.gm, tab.cache, id)
    case Ignored => rest
    case Resent(_) => rest.(outbox := tab.outbox + multiset{id})
    case Executes => rest.(running := tab.running + multiset{id}, started := tab.started + multiset{id})
  }

  function Did(tab: Tab, deed: Deed): Tab {
    match deed
    case Receives(id) => if id in tab.inbox then Received(tab, id) else tab
    case Finishes(id) =>
      if id in tab.running then
        tab.(running := tab.running - multiset{id}, outbox := tab.outbox + multiset{id},
             cache := Mark(tab.cache, id, PROCESSED_LIMIT).0, finished := tab.finished + [id])
      else tab
    case Loses(id) => tab.(outbox := tab.outbox - multiset{id})
    case Reloads => tab.(inbox := multiset{}, running := multiset{}, outbox := multiset{}, cache := [], finished := [])
  }

  /** A tab connects, for the first time or after its connection or its page was lost. */
  function Joined(tabs: map<Peer, Tab>, peer: Peer, gm: bool): map<Peer, Tab> {
    tabs[peer := if peer in tabs then tabs[peer].(gm := gm, inbox := multiset{})
                 else Tab(gm, multiset{}, multiset{}, multiset{}, [], multiset{}, [])]
  }

  function Delivered(tabs: map<Peer, Tab>, to: set<Peer>, id: string): map<Peer, Tab> {
    map t | t in tabs :: if t in to then tabs[t].(inbox := tabs[t].inbox + multiset{id}) else tabs[t]
  }

  function Sent(got: map<Peer, multiset<string>>, to: set<Peer>, id: string): map<Peer, multiset<string>> {
    map c | c in got :: if c in to then got[c] + multiset{id} else got[c]
  }

  function Targets(reply: Reply): set<Peer> {
    if reply.Forwarded? then reply.to else {}
  }

  function Logged(history: seq<string>, id: string): seq<string> {
    if id == "" then history else history + [id]
  }

  function Asked(net: Net, size: nat, id: string): Net {
    var (relay, reply) := Handled(net.relay, size, Python, Request(id));
    net.(relay := relay, tabs := Delivered(net.tabs, Targets(reply), id), asked := Logged(net.asked, id))
  }

  function Answered(net: Net, size: nat, id: string): Net {
    var (relay, reply) := Handled(net.relay, size, Foundry, Answer(id));
    net.(relay := relay, got := Sent(net.got, Targets(reply), id), answered := Logged(net.answered, id))
  }

  function Key(id: string, made: string): string {
    if id != "" then id else made
  }

  function Pushed(net: Net, size: nat, from: Client, id: string, made: string): Net {
    var (relay, reply) := Handled(net.relay, size, from, Push(id, made));
    var key := Key(id, made);
    net.(relay := relay, heard := Sent(net.heard, Targets(reply), key), pushed := net.pushed + [key])
  }

  function Enrolled(all: map<Peer, multiset<string>>, peer: Peer): map<Peer, multiset<string>> {
    if peer in all then all else all[peer := multiset{}]
  }

  function WithTab(net: Net, peer: Peer, tab: Tab): Net {
    net.(tabs := net.tabs[peer := tab])
  }

  function Next(net: Net, size: nat, step: Step): Net {
    match step
    case ClientJoins(peer) =>
      net.(relay := net.relay.(python := net.relay.python + {peer}),
           got := Enrolled(net.got, peer), heard := Enrolled(net.heard, peer))
    case TabJoins(peer, gm) =>
      net.(relay := net.relay.(foundry := net.relay.foundry + {peer}), tabs := Joined(net.tabs, peer, gm),
           heard := Enrolled(net.heard, peer))
    case Leaves(peer) =>
      var left := net.(relay := net.relay.(python := net.relay.python - {peer}, foundry := net.relay.foundry - {peer}));
      if peer in net.tabs then WithTab(left, peer, net.tabs[peer].(inbox := multiset{})) else left
    case Asks(peer, id) => if peer in net.relay.python then Asked(net, size, id) else net
    case Acts(peer, deed) =>
      if peer !in net.tabs || (deed.Reloads? && peer in net.relay.foundry) then net
      else WithTab(net, peer, Did(net.tabs[peer], deed))
    case Answers(peer, id, again) =>
      if peer !in net.tabs || peer !in net.relay.foundry || id !in net.tabs[peer].outbox then net
      else Answered(if again then net else WithTab(net, peer, Did(net.tabs[peer], Loses(id))), size, id)
    case Pushes(peer, from, id, made) =>
      if peer in (if from.Python? then net.relay.python else net.relay.foundry) then Pushed(net, size, from, id, made)
      else net
  }

  function Run(size: nat, steps: seq<Step>): Net
    decreases |steps|
  {
    if |steps| == 0 then START else Next(Run(size, steps[..|steps| - 1]), size, steps[|steps| - 1])
  }

  // ---- When a filter stops every copy ----------------------------------------------------------------------

  predicate Successive(history: seq<string>, i: int, j: int) {
    0 <= i < j < |history| && history[i] == history[j] && history[i] !in history[i + 1..j]
  }

  /** Between two successive copies of an id, fewer than `n` other ids. */
  ghost predicate Spaced(history: seq<string>, n: nat) {
    forall i, j | Successive(history, i, j) :: |Ids(history[i + 1..j])| < n
  }

  /** Where an id was marked last. */
  function LastOf(history: seq<string>, id: string): (i: nat)
    requires id in history
    ensures i < |history| && history[i] == id && id !in history[i + 1..]
    decreases |history|
  {
    var n := |history| - 1;
    if history[n] == id then n
    else
      assert history == history[..n] + [history[n]];
      var i := LastOf(history[..n], id);
      assert history[i + 1..] == history[..n][i + 1..] + [history[n]];
      i
  }

  lemma LastIsSuccessive(history: seq<string>, j: nat)
    requires j < |history| && history[j] in history[..j]
    ensures Successive(history, LastOf(history[..j], history[j]), j)
    ensures forall i | Successive(history, i, j) :: i == LastOf(history[..j], history[j])
  {
    var h, id := history[..j], history[j];
    var k := LastOf(h, id);
    assert h[k + 1..] == history[k + 1..j];
    forall i | Successive(history, i, j)
      ensures i == k
    {
      NoneBetween(history, i, j);
      NoneBetween(history, k, j);
      assert history[i] == id;
    }
  }

  lemma NoneBetween(history: seq<string>, i: int, j: int)
    requires Successive(history, i, j)
    ensures forall x | i < x < j :: history[x] != history[j]
  {
    assert forall x | i < x < j :: history[x] == history[i + 1..j][x - i - 1];
  }

  lemma SeenAt(history: seq<string>, i: nat, j: nat, size: nat)
    requires Successive(history, i, j)
    ensures history[j] in FilterAfter(history[..j], size) <==> |Ids(history[i + 1..j])| < size
  {
    assert history[..j] == history[..i] + [history[i]] + history[i + 1..j];
    SeenIff(history[..i], history[i], history[i + 1..j], size);
  }

  /** The filter lets no id through twice exactly when fewer than `size` other ids come between successive copies. */
  lemma FiltersCopiesIff(history: seq<string>, size: nat)
    ensures (forall j | 0 <= j < |history| && history[j] in history[..j] ::
        history[j] in FilterAfter(history[..j], size))
      <==> Spaced(history, size)
  {
    if Spaced(history, size) {
      forall j | 0 <= j < |history| && history[j] in history[..j]
        ensures history[j] in FilterAfter(history[..j], size)
      {
        LastIsSuccessive(history, j);
        SeenAt(history, LastOf(history[..j], history[j]), j, size);
      }
    } else {
      var i, j :| Successive(history, i, j) && |Ids(history[i + 1..j])| >= size;
      assert history[..j][i] == history[j];
      SeenAt(history, i, j, size);
    }
  }

  lemma SpacedBefore(history: seq<string>, id: string, n: nat)
    requires Spaced(history + [id], n)
    ensures Spaced(history, n)
  {
    var longer := history + [id];
    forall i, j | Successive(history, i, j)
      ensures |Ids(history[i + 1..j])| < n
    {
      assert longer[i + 1..j] == history[i + 1..j];
      assert Successive(longer, i, j);
    }
  }

  lemma UnseenIsNew(history: seq<string>, id: string, n: nat)
    requires Spaced(history + [id], n) && id !in FilterAfter(history, n)
    ensures id !in history
  {
    FiltersCopiesIff(history + [id], n);
    assert (history + [id])[..|history|] == history;
    assert (history + [id])[|history|] == id;
  }

  // ---- Every run ----------------------------------------------------------------------------------------------

  function Bound(history: seq<string>, id: string): nat {
    if id in history then 1 else 0
  }

  /** At most one copy of each asked id is with the tab or was executed by it. */
  ghost predicate TabOnce(tab: Tab, asked: seq<string>) {
    forall id :: tab.inbox[id] + tab.started[id] <= Bound(asked, id)
  }

  ghost predicate ClientOnce(got: multiset<string>, answered: seq<string>) {
    forall id :: got[id] <= Bound(answered, id)
  }

  ghost predicate AskedOnce(net: Net) {
    forall t | t in net.tabs :: TabOnce(net.tabs[t], net.asked)
  }

  ghost predicate AnsweredOnce(net: Net) {
    forall c | c in net.got :: ClientOnce(net.got[c], net.answered)
  }

  ghost predicate Caches(tab: Tab) {
    tab.cache == FilterAfter(tab.finished, PROCESSED_LIMIT)
  }

  ghost predicate InStep(net: Net, size: nat) {
    && net.relay.requests == FilterAfter(net.asked, size)
    && net.relay.results == FilterAfter(net.answered, size)
    && net.relay.events == FilterAfter(net.pushed, size)
    && forall t | t in net.tabs :: Caches(net.tabs[t])
  }

  lemma FilterStep(history: seq<string>, id: string, n: nat)
    ensures FilterAfter(history + [id], n) == Mark(FilterAfter(history, n), id, n).0
  {
    assert (history + [id])[..|history|] == history;
  }

  lemma DeedKeeps(tab: Tab, deed: Deed, asked: seq<string>)
    ensures Caches(tab) ==> Caches(Did(tab, deed))
    ensures TabOnce(tab, asked) ==> TabOnce(Did(tab, deed), asked)
  {
    if deed.Finishes? {
      FilterStep(tab.finished, deed.id, PROCESSED_LIMIT);
    }
  }

  lemma DeliveryKeeps(tab: Tab, asked: seq<string>, id: string)
    requires TabOnce(tab, asked)
    ensures TabOnce(tab, asked + [id])
    ensures id !in asked ==> TabOnce(tab.(inbox := tab.inbox + multiset{id}), asked + [id])
  {
    assert id !in asked ==> tab.inbox[id] + tab.started[id] <= Bound(asked, id);
    assert forall x | x in asked :: x in asked + [id];
  }

  lemma AskInStep(net: Net, size: nat, id: string)
    requires InStep(net, size)
    ensures InStep(Asked(net, size, id), size)
  {
    FilterStep(net.asked, id, size);
  }

  lemma {:induction false} AskKeeps(net: Net, size: nat, id: string)
    requires net.relay.requests == FilterAfter(net.asked, size) && AskedOnce(net)
      && Spaced(Asked(net, size, id).asked, size)
    ensures AskedOnce(Asked(net, size, id))
  {
    var next := Asked(net, size, id);
    if id != "" {
      var unseen := id !in net.relay.requests;
      if unseen {
        UnseenIsNew(net.asked, id, size);
      }
      forall t | t in next.tabs
        ensures TabOnce(next.tabs[t], next.asked)
      {
        DeliveryKeeps(net.tabs[t], net.asked, id);
        assert next.tabs[t] == net.tabs[t] ||
          (unseen && next.tabs[t] == net.tabs[t].(inbox := net.tabs[t].inbox + multiset{id}));
      }
    }
  }

  lemma AnswerInStep(net: Net, size: nat, id: string)
    requires InStep(net, size)
    ensures InStep(Answered(net, size, id), size)
  {
    FilterStep(net.answered, id, size);
  }

  lemma SendKeeps(got: multiset<string>, answered: seq<string>, id: string)
    requires ClientOnce(got, answered)
    ensures ClientOnce(got, answered + [id])
    ensures id !in answered ==> ClientOnce(got + multiset{id}, answered + [id])
  {
    assert id !in answered ==> got[id] <= Bound(answered, id);
    assert forall x | x in answered :: x in answered + [id];
  }

  lemma {:induction false} AnswerKeeps(net: Net, size: nat, id: string)
    requires net.relay.results == FilterAfter(net.answered, size) && AnsweredOnce(net)
      && Spaced(Answered(net, size, id).answered, size)
    ensures AnsweredOnce(Answered(net, size, id))
  {
    var next := Answered(net, size, id);
    if id != "" {
      var unseen := id !in net.relay.results;
      if unseen {
        UnseenIsNew(net.answered, id, size);
      }
      forall c | c in next.got
        ensures ClientOnce(next.got[c], next.answered)
      {
        SendKeeps(net.got[c], net.answered, id);
        assert next.got[c] == net.got[c] || (unseen && next.got[c] == net.got[c] + multiset{id});
      }
    }
  }

  lemma {:induction false} ActKeeps(net: Net, size: nat, peer: Peer, deed: Deed)
    requires InStep(net, size) && peer in net.tabs
    ensures InStep(WithTab(net, peer, Did(net.tabs[peer], deed)), size)
    ensures AskedOnce(net) ==> AskedOnce(WithTab(net, peer, Did(net.tabs[peer], deed)))
  {
    DeedKeeps(net.tabs[peer], deed, net.asked);
  }

  lemma PushInStep(net: Net, size: nat, from: Client, id: string, made: string)
    requires InStep(net, size)
    ensures InStep(Pushed(net, size, from, id, made), size)
  {
    FilterStep(net.pushed, Key(id, made), size);
  }

  lemma ComeAndGoInStep(net: Net, size: nat, step: Step)
    requires InStep(net, size) && (step.ClientJoins? || step.TabJoins? || step.Leaves?)
    ensures InStep(Next(net, size, step), size)
  {
    assert FilterAfter([], PROCESSED_LIMIT) == [];
    hide FilterAfter;
  }

  lemma {:induction false} StepInStep(net: Net, size: nat, step: Step)
    requires InStep(net, size)
    ensures InStep(Next(net, size, step), size)
  {
    hide InStep, Asked, Answered, Pushed;
    match step {
      case Asks(_, id) => AskInStep(net, size, id);
      case Acts(peer, deed) =>
        if peer in net.tabs {
          ActKeeps(net, size, peer, deed);
        }
      case Answers(peer, id, _) =>
        AnswerInStep(net, size, id);
        if peer in net.tabs {
          ActKeeps(net, size, peer, Loses(id));
          AnswerInStep(WithTab(net, peer, Did(net.tabs[peer], Loses(id))), size, id);
        }
      case Pushes(_, from, id, made) => PushInStep(net, size, from, id, made);
      case _ => ComeAndGoInStep(net, size, step);
    }
  }

  lemma {:induction false} StepKeepsAskedOnce(net: Net, size: nat, step: Step)
    requires InStep(net, size) && AskedOnce(net) && Spaced(Next(net, size, step).asked, size)
    ensures AskedOnce(Next(net, size, step))
  {
    match step {
      case Asks(peer, id) =>
        if peer in net.relay.python {
          AskKeeps(net, size, id);
        }
      case Acts(peer, deed) =>
        if peer in net.tabs {
          ActKeeps(net, size, peer, deed);
        }
      case Answers(peer, id, _) =>
        if peer in net.tabs {
          ActKeeps(net, size, peer, Loses(id));
        }
      case TabJoins(peer, _) =>
        if peer in net.tabs {
          assert TabOnce(net.tabs[peer], net.asked);
        }
      case Leaves(peer) =>
        if peer in net.tabs {
          assert TabOnce(net.tabs[peer], net.asked);
        }
      case ClientJoins(_) =>
      case Pushes(_, _, _, _) =>
    }
  }

  lemma StepKeepsAnsweredOnce(net: Net, size: nat, step: Step)
    requires InStep(net, size) && AnsweredOnce(net) && Spaced(Next(net, size, step).answered, size)
    ensures AnsweredOnce(Next(net, size, step))
  {
    if step.Answers? && Next(net, size, step) != net {
      AnswerKeeps(if step.again then net else WithTab(net, step.peer, Did(net.tabs[step.peer], Loses(step.id))), size,
        step.id);
    }
  }

  lemma StepGrows(net: Net, size: nat, step: Step)
    ensures var next := Next(net, size, step);
      && (Spaced(next.asked, size) ==> Spaced(net.asked, size))
      && (Spaced(next.answered, size) ==> Spaced(net.answered, size))
  {
    var next := Next(net, size, step);
    if next.asked != net.asked && Spaced(next.asked, size) {
      SpacedBefore(net.asked, step.id, size);
    }
    if next.answered != net.answered && Spaced(next.answered, size) {
      SpacedBefore(net.answered, step.id, size);
    }
  }

  lemma {:induction false} RunKeeps(size: nat, steps: seq<Step>)
    ensures var net := Run(size, steps);
      && InStep(net, size)
      && (Spaced(net.asked, size) ==> AskedOnce(net))
      && (Spaced(net.answered, size) ==> AnsweredOnce(net))
    decreases |steps|
  {
    if |steps| > 0 {
      var n := |steps| - 1;
      RunKeeps(size, steps[..n]);
      var net := Run(size, steps[..n]);
      StepInStep(net, size, steps[n]);
      StepGrows(net, size, steps[n]);
      var next := Next(net, size, steps[n]);
      if Spaced(next.asked, size) {
        StepKeepsAskedOnce(net, size, steps[n]);
      }
      if Spaced(next.answered, size) {
        StepKeepsAnsweredOnce(net, size, steps[n]);
      }
    }
  }

  lemma OnceIsOnce(net: Net)
    ensures AskedOnce(net) ==> forall t, id | t in net.tabs :: net.tabs[t].started[id] <= 1
    ensures AnsweredOnce(net) ==> forall c, id | c in net.got :: net.got[c][id] <= 1
  {
    if AskedOnce(net) {
      forall t, id | t in net.tabs
        ensures net.tabs[t].started[id] <= 1
      {
        assert TabOnce(net.tabs[t], net.asked);
        assert net.tabs[t].inbox[id] + net.tabs[t].started[id] <= Bound(net.asked, id);
      }
    }
    if AnsweredOnce(net) {
      forall c, id | c in net.got
        ensures net.got[c][id] <= 1
      {
        assert ClientOnce(net.got[c], net.answered);
      }
    }
  }

  /** In every run, with any number of clients and tabs joining, leaving and reloading: if fewer than `size` other ids
      reach the relay between two copies of a request, each tab executes each request at most once; if the same holds
      of results, each client is sent at most one result for each request. */
  lemma {:induction false} AtMostOnce(size: nat, steps: seq<Step>)
    ensures var net := Run(size, steps);
      && (Spaced(net.asked, size) ==> forall t, id | t in net.tabs :: net.tabs[t].started[id] <= 1)
      && (Spaced(net.answered, size) ==> forall c, id | c in net.got :: net.got[c][id] <= 1)
  {
    RunKeeps(size, steps);
    OnceIsOnce(Run(size, steps));
  }

  // ---- What the tab's own cache gives ---------------------------------------------------------------------------

  /** In every run, a GM tab that receives a copy of a request it finished executes it again exactly when it has since
      finished at least 512 other requests. */
  lemma {:induction false} CopyAfterFinishIff(size: nat, steps: seq<Step>, t: Peer, id: string)
    requires var net := Run(size, steps); t in net.tabs && net.tabs[t].gm && id != "" && id in net.tabs[t].finished
    ensures var tab := Run(size, steps).tabs[t];
      Received(tab, id).started[id] > tab.started[id] <==>
      |Ids(tab.finished[LastOf(tab.finished, id) + 1..])| >= PROCESSED_LIMIT
  {
    RunKeeps(size, steps);
    var tab := Run(size, steps).tabs[t];
    assert Caches(tab);
    KeptIff(tab.finished, id, PROCESSED_LIMIT);
  }

  lemma KeptIff(history: seq<string>, id: string, n: nat)
    requires id in history
    ensures id in FilterAfter(history, n) <==> |Ids(history[LastOf(history, id) + 1..])| < n
  {
    var i := LastOf(history, id);
    assert history == history[..i] + [id] + history[i + 1..];
    SeenIff(history[..i], id, history[i + 1..], n);
  }

  function AskedAll(net: Net, size: nat, ids: seq<string>): Net
    decreases |ids|
  {
    if |ids| == 0 then net else Asked(AskedAll(net, size, ids[..|ids| - 1]), size, ids[|ids| - 1])
  }

  /** Of a tab, what other requests leave as it is while they wait in its inbox. */
  predicate SameFor(tab: Tab, later: Tab, id: string) {
    later.(inbox := tab.inbox) == tab && later.inbox[id] == tab.inbox[id]
  }

  lemma {:induction false} AskedAllKeeps(net: Net, size: nat, t: Peer, ids: seq<string>, id: string)
    requires InStep(net, size) && t in net.tabs && "" !in ids && id !in ids
    ensures var next := AskedAll(net, size, ids);
      && InStep(next, size) && next.asked == net.asked + ids && next.relay.foundry == net.relay.foundry
      && t in next.tabs && SameFor(net.tabs[t], next.tabs[t], id)
    decreases |ids|
  {
    hide FilterAfter, Ids;
    if |ids| > 0 {
      var n := |ids| - 1;
      assert ids == ids[..n] + [ids[n]];
      AskedAllKeeps(net, size, t, ids[..n], id);
      var net' := AskedAll(net, size, ids[..n]);
      AskInStep(net', size, ids[n]);
      assert Asked(net', size, ids[n]).asked == net.asked + ids;
    }
  }

  /** Every other id that came after the last copy of an id. */
  function Since(history: seq<string>, id: string): set<string>
    requires id in history
  {
    Ids(history[LastOf(history, id) + 1..])
  }

  /** In every run: when an id is asked again, whoever asks it, each connected tab gets the copy exactly when the relay
      forgot the id, that is, when at least `size` other ids were asked since. And a GM tab that takes a copy begins an
      execution exactly when it did not finish the request, or finished at least 512 others since; that it may be
      executing the request at the time makes no difference. */
  lemma {:induction false} CopyWhileRunningIff(size: nat, steps: seq<Step>, c: Peer, t: Peer, id: string)
    requires var net := Run(size, steps);
      c in net.relay.python && t in net.tabs && t in net.relay.foundry && net.tabs[t].gm && id in net.asked && id != ""
    ensures t in Run(size, steps + [Asks(c, id)]).tabs
    ensures var net := Run(size, steps);
      var tab, later := net.tabs[t], Run(size, steps + [Asks(c, id)]).tabs[t];
      && (later.inbox[id] > tab.inbox[id] <==> |Since(net.asked, id)| >= size)
      && (Received(later, id).started[id] > later.started[id] <==>
            (id in tab.finished ==> |Since(tab.finished, id)| >= PROCESSED_LIMIT))
  {
    RunKeeps(size, steps);
    RunSnoc(size, steps, Asks(c, id));
    var net := Run(size, steps);
    CopyDelivered(net, size, t, id);
    assert Caches(net.tabs[t]);
    CopyExecutes(Asked(net, size, id).tabs[t], id);
  }

  lemma {:induction false} CopyDelivered(net: Net, size: nat, t: Peer, id: string)
    requires InStep(net, size) && t in net.tabs && t in net.relay.foundry && id in net.asked && id != ""
    ensures t in Asked(net, size, id).tabs
    ensures var tab, later := net.tabs[t], Asked(net, size, id).tabs[t];
      && later.(inbox := tab.inbox) == tab
      && later.inbox[id] == tab.inbox[id] + if |Since(net.asked, id)| >= size then 1 else 0
  {
    hide FilterAfter, Since, Ids, LastOf;
    assert id in net.relay.requests <==> !(|Since(net.asked, id)| >= size) by {
      RelayKeepsIff(net, size, id);
    }
  }

  lemma RelayKeepsIff(net: Net, size: nat, id: string)
    requires net.relay.requests == FilterAfter(net.asked, size) && id in net.asked
    ensures id in net.relay.requests <==> |Since(net.asked, id)| < size
  {
    KeptIff(net.asked, id, size);
  }

  lemma {:induction false} CopyExecutes(tab: Tab, id: string)
    requires Caches(tab) && tab.gm && id != ""
    ensures Received(tab, id) == tab.(inbox := tab.inbox - multiset{id}, outbox := Received(tab, id).outbox,
        running := Received(tab, id).running, started := Received(tab, id).started)
    ensures var again := id in tab.finished ==> |Since(tab.finished, id)| >= PROCESSED_LIMIT;
      && Received(tab, id).started == (if again then tab.started + multiset{id} else tab.started)
      && Received(tab, id).running == (if again then tab.running + multiset{id} else tab.running)
  {
    if id in tab.finished {
      KeptIff(tab.finished, id, PROCESSED_LIMIT);
    } else {
      NotSeenIfNew(tab.finished, id, PROCESSED_LIMIT);
    }
  }

  lemma RunSnoc(size: nat, steps: seq<Step>, s: Step)
    ensures Run(size, steps + [s]) == Next(Run(size, steps), size, s)
  {
    assert (steps + [s])[..|steps|] == steps;
  }

  // ---- Who gets what -------------------------------------------------------------------------------------------

  ghost predicate Wired(net: Net) {
    && net.relay.python <= net.got.Keys && net.relay.python <= net.heard.Keys
    && net.relay.foundry <= net.tabs.Keys && net.relay.foundry <= net.heard.Keys
  }

  lemma {:induction false} StepWired(net: Net, size: nat, step: Step)
    requires Wired(net)
    ensures Wired(Next(net, size, step))
  {
    hide Mark, Reacts, Did;
    match step {
      case Asks(_, id) => assert Wired(Asked(net, size, id));
      case Answers(peer, id, again) =>
        if peer in net.tabs {
          var left := if again then net else WithTab(net, peer, Did(net.tabs[peer], Loses(id)));
          assert Wired(left);
          assert Wired(Answered(left, size, id));
        }
      case Pushes(_, from, id, made) => assert Wired(Pushed(net, size, from, id, made));
      case _ =>
    }
  }

  lemma {:induction false} StaysWired(size: nat, steps: seq<Step>)
    ensures Wired(Run(size, steps))
    decreases |steps|
  {
    hide Next;
    if |steps| > 0 {
      var n := |steps| - 1;
      StaysWired(size, steps[..n]);
      StepWired(Run(size, steps[..n]), size, steps[n]);
    }
  }

  /** The peer said hello in one of these ways and did not leave afterwards. */
  ghost predicate Stays(steps: seq<Step>, hello: Step -> bool, p: Peer) {
    exists i | 0 <= i < |steps| :: hello(steps[i]) && Leaves(p) !in steps[i + 1..]
  }

  lemma StaysSnoc(steps: seq<Step>, s: Step, hello: Step -> bool, p: Peer)
    ensures Stays(steps + [s], hello, p) <==> hello(s) || (Stays(steps, hello, p) && s != Leaves(p))
  {
    var all := steps + [s];
    assert forall i | 0 <= i < |steps| :: all[i] == steps[i] && all[i + 1..] == steps[i + 1..] + [s];
    assert all[|steps|] == s && all[|steps| + 1..] == [];
    if i :| 0 <= i < |steps| && hello(steps[i]) && Leaves(p) !in steps[i + 1..] {
      assert s != Leaves(p) ==> Leaves(p) !in all[i + 1..];
    }
  }

  lemma NoneStays(hello: Step -> bool, p: Peer)
    ensures !Stays([], hello, p)
  {
  }

  lemma {:induction false} NextSides(net: Net, size: nat, step: Step, p: Peer)
    ensures var next := Next(net, size, step);
      && (p in next.relay.python <==> step == ClientJoins(p) || (p in net.relay.python && step != Leaves(p)))
      && (p in next.relay.foundry <==>
            (step.TabJoins? && step.peer == p) || (p in net.relay.foundry && step != Leaves(p)))
  {
    hide Mark, Did, Delivered, Sent;
  }

  /** In every run, connected are those who said hello and did not leave since. */
  lemma {:induction false} ConnectedIff(size: nat, steps: seq<Step>, p: Peer)
    ensures p in Run(size, steps).relay.python <==> Stays(steps, (s: Step) => s == ClientJoins(p), p)
    ensures p in Run(size, steps).relay.foundry <==> Stays(steps, (s: Step) => s.TabJoins? && s.peer == p, p)
    decreases |steps|
  {
    hide Next, Stays;
    if |steps| > 0 {
      var n := |steps| - 1;
      assert steps == steps[..n] + [steps[n]];
      ConnectedIff(size, steps[..n], p);
      NextSides(Run(size, steps[..n]), size, steps[n], p);
      StaysSnoc(steps[..n], steps[n], (s: Step) => s == ClientJoins(p), p);
      StaysSnoc(steps[..n], steps[n], (s: Step) => s.TabJoins? && s.peer == p, p);
    } else {
      NoneStays((s: Step) => s == ClientJoins(p), p);
      NoneStays((s: Step) => s.TabJoins? && s.peer == p, p);
    }
  }

  /** The id never came, or at least `size` other ids came since it did. */
  ghost predicate Unknown(history: seq<string>, id: string, size: nat) {
    id in history ==> |Since(history, id)| >= size
  }

  lemma {:induction false} UnknownIff(history: seq<string>, id: string, size: nat)
    ensures Unknown(history, id, size) <==> id !in FilterAfter(history, size)
  {
    if id in history {
      KeptIff(history, id, size);
    } else {
      NotSeenIfNew(history, id, size);
    }
  }

  function Plus(had: multiset<string>, more: bool, id: string): multiset<string> {
    if more then had + multiset{id} else had
  }

  /** In every run: when a client asks a request, every connected tab is handed it exactly when it has an id that the
      relay does not know, and nobody else is handed or sent anything. */
  lemma {:induction false} AskReaches(size: nat, steps: seq<Step>, c: Peer, id: string)
    requires c in Run(size, steps).relay.python
    ensures var net, later := Run(size, steps), Run(size, steps + [Asks(c, id)]);
      && later.got == net.got && later.heard == net.heard
      && net.relay.foundry <= net.tabs.Keys == later.tabs.Keys
      && forall t | t in net.tabs :: later.tabs[t] == net.tabs[t].(inbox :=
           Plus(net.tabs[t].inbox, t in net.relay.foundry && id != "" && Unknown(net.asked, id, size), id))
  {
    RunKeeps(size, steps);
    StaysWired(size, steps);
    RunSnoc(size, steps, Asks(c, id));
    UnknownIff(Run(size, steps).asked, id, size);
    hide FilterAfter, Run, Unknown, Caches;
  }

  /** In every run: when a connected tab answers a request, every connected client is sent the result exactly when it
      has an id that the relay does not know from an earlier result, and nobody else is sent anything. */
  lemma {:induction false} AnswerReaches(size: nat, steps: seq<Step>, t: Peer, id: string, again: bool)
    requires var net := Run(size, steps);
      t in net.relay.foundry && t in net.tabs && id in net.tabs[t].outbox
    ensures var net, later := Run(size, steps), Run(size, steps + [Answers(t, id, again)]);
      && net.relay.python <= net.got.Keys == later.got.Keys
      && (forall c | c in net.got ::
           later.got[c] == Plus(net.got[c], c in net.relay.python && id != "" && Unknown(net.answered, id, size), id))
      && later.heard == net.heard && later.tabs.Keys == net.tabs.Keys
      && forall p | p in net.tabs :: later.tabs[p] == net.tabs[p].(outbox :=
           if p == t && !again then net.tabs[p].outbox - multiset{id} else net.tabs[p].outbox)
  {
    RunKeeps(size, steps);
    StaysWired(size, steps);
    RunSnoc(size, steps, Answers(t, id, again));
    hide Run, Unknown, Answered, InStep;
    var net := Run(size, steps);
    var left := WithTab(net, t, net.tabs[t].(outbox := net.tabs[t].outbox - multiset{id}));
    if again {
      AnsweredReaches(net, size, id);
    } else {
      ActKeeps(net, size, t, Loses(id));
      AnsweredReaches(left, size, id);
    }
  }

  lemma {:induction false} AnsweredReaches(net: Net, size: nat, id: string)
    requires InStep(net, size)
    ensures var later := Answered(net, size, id);
      && later == net.(relay := later.relay, got := later.got, answered := later.answered)
      && later.got.Keys == net.got.Keys
      && forall c | c in net.got ::
           later.got[c] == Plus(net.got[c], c in net.relay.python && id != "" && Unknown(net.answered, id, size), id)
  {
    UnknownIff(net.answered, id, size);
    hide FilterAfter, Unknown, Caches;
  }

  /** In every run: an event of a client reaches every connected tab, and an event of a tab every connected client,
      exactly when the relay does not know its id; nobody else gets anything. An event without an id goes by the id that
      the relay makes up. */
  lemma {:induction false} PushReaches(size: nat, steps: seq<Step>, peer: Peer, from: Client, id: string, made: string)
    requires var net := Run(size, steps); peer in (if from.Python? then net.relay.python else net.relay.foundry)
    ensures var net, later := Run(size, steps), Run(size, steps + [Pushes(peer, from, id, made)]);
      var across, key := if from.Python? then net.relay.foundry else net.relay.python, if id == "" then made else id;
      && across <= net.heard.Keys == later.heard.Keys
      && (forall p | p in net.heard ::
           later.heard[p] == Plus(net.heard[p], p in across && Unknown(net.pushed, key, size), key))
      && later.got == net.got && later.tabs == net.tabs
  {
    RunKeeps(size, steps);
    StaysWired(size, steps);
    RunSnoc(size, steps, Pushes(peer, from, id, made));
    PushedReaches(Run(size, steps), size, from, id, made);
    hide Run, Unknown, Pushed;
  }

  lemma {:induction false} PushedReaches(net: Net, size: nat, from: Client, id: string, made: string)
    requires InStep(net, size)
    ensures var key, later := Key(id, made), Pushed(net, size, from, id, made);
      && later.heard.Keys == net.heard.Keys && later.got == net.got && later.tabs == net.tabs
      && forall p | p in net.heard :: later.heard[p] == Plus(net.heard[p],
           p in (if from.Python? then net.relay.foundry else net.relay.python) && Unknown(net.pushed, key, size), key)
  {
    UnknownIff(net.pushed, Key(id, made), size);
    hide FilterAfter, Unknown, Caches;
  }

  /** In every run: a GM tab that takes a request out of its inbox puts the result under way again if it finished the
      request and has since finished fewer than 512 others, and begins an execution otherwise. A tab that is not the
      game master's drops it. */
  lemma {:induction false} TakenUp(size: nat, steps: seq<Step>, t: Peer, id: string)
    requires var net := Run(size, steps); t in net.tabs && id in net.tabs[t].inbox && id != ""
    ensures var net, later := Run(size, steps), Run(size, steps + [Acts(t, Receives(id))]);
      var tab := net.tabs[t];
      var begins := Unknown(tab.finished, id, PROCESSED_LIMIT);
      && later == WithTab(net, t, tab.(inbox := tab.inbox - multiset{id},
           outbox := Plus(tab.outbox, tab.gm && !begins, id),
           running := Plus(tab.running, tab.gm && begins, id), started := Plus(tab.started, tab.gm && begins, id)))
  {
    RunKeeps(size, steps);
    RunSnoc(size, steps, Acts(t, Receives(id)));
    assert Caches(Run(size, steps).tabs[t]);
    UnknownIff(Run(size, steps).tabs[t].finished, id, PROCESSED_LIMIT);
    hide FilterAfter, Run, Unknown;
  }

  /** In every run: a tab that ends an execution puts its result under way. */
  lemma {:induction false} FinishedGoesOut(size: nat, steps: seq<Step>, t: Peer, id: string)
    requires var net := Run(size, steps); t in net.tabs && id in net.tabs[t].running
    ensures var net, later := Run(size, steps), Run(size, steps + [Acts(t, Finishes(id))]);
      && t in later.tabs && later == net.(tabs := later.tabs) && later.tabs == net.tabs[t := later.tabs[t]]
      && var tab, tab' := net.tabs[t], later.tabs[t];
         && tab'.outbox == tab.outbox + multiset{id} && tab'.running == tab.running - multiset{id}
         && tab'.finished == tab.finished + [id] && tab'.started == tab.started && tab'.inbox == tab.inbox
  {
    RunSnoc(size, steps, Acts(t, Finishes(id)));
    hide Run, Mark;
  }

  /** From the request to the result, in every run: a client asks what the relay does not know, a connected GM tab takes
      it, executes it unless it still has the result, and answers. Then every connected client has been sent the result
      exactly when the relay did not know it from an earlier one. */
  lemma {:induction false} RequestIsServed(size: nat, steps: seq<Step>, c: Peer, t: Peer, id: string)
    requires var net := Run(size, steps);
      c in net.relay.python && t in net.relay.foundry && t in net.tabs && net.tabs[t].gm && id != ""
        && Unknown(net.asked, id, size)
    ensures var net := Run(size, steps);
      var later := Run(size, steps + [Asks(c, id)] + [Acts(t, Receives(id))] + [Acts(t, Finishes(id))]
        + [Answers(t, id, false)]);
      && net.relay.python <= net.got.Keys == later.got.Keys
      && forall p | p in net.got ::
           later.got[p] == Plus(net.got[p], p in net.relay.python && Unknown(net.answered, id, size), id)
  {
    var asked := steps + [Asks(c, id)];
    var taken := asked + [Acts(t, Receives(id))];
    var ended := taken + [Acts(t, Finishes(id))];
    AskReaches(size, steps, c, id);
    SameSides(size, steps, Asks(c, id));
    SameSides(size, asked, Acts(t, Receives(id)));
    SameSides(size, taken, Acts(t, Finishes(id)));
    hide Run, Unknown;
    TakenUp(size, asked, t, id);
    if id in Run(size, taken).tabs[t].running {
      FinishedGoesOut(size, taken, t, id);
    } else {
      NothingFinished(size, taken, t, id);
    }
    AnswerReaches(size, ended, t, id, false);
  }

  lemma NothingFinished(size: nat, steps: seq<Step>, t: Peer, id: string)
    requires var net := Run(size, steps); t in net.tabs && id !in net.tabs[t].running
    ensures Run(size, steps + [Acts(t, Finishes(id))]) == Run(size, steps)
  {
    RunSnoc(size, steps, Acts(t, Finishes(id)));
    hide Run, Mark;
  }

  lemma SameSides(size: nat, steps: seq<Step>, step: Step)
    requires step.Asks? || step.Acts?
    ensures var net, next := Run(size, steps), Run(size, steps + [step]);
      && next.relay.python == net.relay.python && next.relay.foundry == net.relay.foundry
      && next.answered == net.answered && next.got == net.got
  {
    RunSnoc(size, steps, step);
    hide Run, Mark, Did, Delivered;
  }

  function AskSteps(ids: seq<string>): seq<Step> {
    seq(|ids|, i requires 0 <= i < |ids| => Asks("py", ids[i]))
  }

  lemma {:induction false} RunAsks(size: nat, steps: seq<Step>, ids: seq<string>)
    requires "py" in Run(size, steps).relay.python
    ensures Run(size, steps + AskSteps(ids)) == AskedAll(Run(size, steps), size, ids)
    ensures Run(size, steps + AskSteps(ids)).relay.python == Run(size, steps).relay.python
    decreases |ids|
  {
    hide Next, Asked;
    if |ids| == 0 {
      assert steps + AskSteps(ids) == steps;
    } else {
      var n := |ids| - 1;
      NextAsks(Run(size, steps + AskSteps(ids[..n])), size, ids[n]);
      RunAsks(size, steps, ids[..n]);
      assert steps + AskSteps(ids) == (steps + AskSteps(ids[..n])) + [Asks("py", ids[n])];
      RunSnoc(size, steps + AskSteps(ids[..n]), Asks("py", ids[n]));
    }
  }

  lemma NextAsks(net: Net, size: nat, id: string)
    ensures "py" in net.relay.python ==> Next(net, size, Asks("py", id)) == Asked(net, size, id)
    ensures Asked(net, size, id).relay.python == net.relay.python
  {
  }

  /** Distinct ids, as many as wanted. */
  function Name(k: nat): (s: string)
    ensures |s| == k + 1 && s[0] == 'b'
  {
    if k == 0 then "b" else "b" + Name(k - 1)
  }

  function Names(n: nat): seq<string> {
    seq(n, i requires 0 <= i < n => Name(i))
  }

  lemma NamesDistinct(n: nat)
    ensures |Ids(Names(n))| == n && "" !in Names(n) && "a" !in Names(n)
  {
    DistinctSize(Names(n));
  }

  /** A client and a GM tab that has begun to execute the request `a`. */
  const BEGUN: seq<Step> := [ClientJoins("py"), TabJoins("tab", true), Asks("py", "a"), Acts("tab", Receives("a"))]

  predicate Begun(net: Net) {
    && net.relay.python == {"py"} && net.relay.foundry == {"tab"} && net.asked == ["a"]
    && "tab" in net.tabs
    && var tab := net.tabs["tab"];
       tab.gm && tab.finished == [] && tab.inbox == multiset{} && tab.started == tab.running == multiset{"a"}
  }

  lemma {:induction false} BegunRuns(size: nat)
    ensures Begun(Run(size, BEGUN))
  {
    var net := Next(Next(START, size, BEGUN[0]), size, BEGUN[1]);
    RunSnoc(size, [], BEGUN[0]);
    assert [] + [BEGUN[0]] == [BEGUN[0]];
    RunSnoc(size, [BEGUN[0]], BEGUN[1]);
    assert net.tabs == map["tab" := Tab(true, multiset{}, multiset{}, multiset{}, [], multiset{}, [])];
    var joined := [BEGUN[0]] + [BEGUN[1]];
    RunSnoc(size, joined, BEGUN[2]);
    var asked := Next(net, size, BEGUN[2]);
    assert Delivered(net.tabs, {"tab"}, "a")["tab"].inbox == multiset{"a"};
    assert asked.tabs["tab"] == net.tabs["tab"].(inbox := multiset{"a"});
    RunSnoc(size, joined + [BEGUN[2]], BEGUN[3]);
    assert joined + [BEGUN[2]] + [BEGUN[3]] == BEGUN;
  }

  /** For every size of the filter there is a run in which a tab executes a request twice: while it is executing the
      request, as many others are asked as the filter holds, and then the request again. */
  lemma {:induction false} TwiceWhileRunning(size: nat) returns (steps: seq<Step>)
    ensures var net := Run(size, steps);
      "tab" in net.tabs && net.tabs["tab"].started["a"] == 2 && net.tabs["tab"].running["a"] == 2
  {
    BegunRuns(size);
    NamesDistinct(size);
    RunAsks(size, BEGUN, Names(size));
    RunKeeps(size, BEGUN);
    AskedAllKeeps(Run(size, BEGUN), size, "tab", Names(size), "a");
    var busy := BEGUN + AskSteps(Names(size));
    LastBefore("a", Names(size));
    RunSnoc(size, busy, Asks("py", "a"));
    RunSnoc(size, busy + [Asks("py", "a")], Acts("tab", Receives("a")));
    steps := busy + [Asks("py", "a")] + [Acts("tab", Receives("a"))];
    AgainWhileRunning(Run(size, busy), size);
  }

  lemma {:induction false} AgainWhileRunning(net: Net, size: nat)
    requires InStep(net, size) && "py" in net.relay.python && "tab" in net.relay.foundry && "tab" in net.tabs
    requires "a" in net.asked && |Since(net.asked, "a")| >= size
    requires var tab := net.tabs["tab"];
      tab.gm && tab.finished == [] && tab.started == tab.running == multiset{"a"} && Caches(tab)
    ensures var later := Next(Next(net, size, Asks("py", "a")), size, Acts("tab", Receives("a")));
      "tab" in later.tabs && later.tabs["tab"].started["a"] == later.tabs["tab"].running["a"] == 2
  {
    CopyDelivered(net, size, "tab", "a");
    CopyExecutes(Asked(net, size, "a").tabs["tab"], "a");
  }

  lemma LastBefore(id: string, others: seq<string>)
    requires id !in others
    ensures Since([id] + others, id) == Ids(others)
  {
    var all := [id] + others;
    assert forall i | 0 < i < |all| :: all[i] == others[i - 1];
    assert all[1..] == others;
  }
}
