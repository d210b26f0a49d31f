/** `InboundArbiter`: inbound Foundry changes against Python's state, and the loop it closes with its own writes. */
module Authority {
  import opened Wrappers
  import opened Echoes

  datatype Policy = Absorb | Revert | Ignore

  /** `hooked`: the command router primes the suppressor for every command it dispatches. */
  datatype Config = Config(moved: Policy, updated: Policy, activated: Policy, hasRouter: bool, hooked: bool, ttl: real,
      max: nat)

  /** An inbound event. `keys` is Python's text of the sorted keys of the change. */
  datatype Event =
    | TokenMoved(token: Option<string>, x: Option<int>, y: Option<int>, scene: Option<string>)
    | ActorUpdated(actor: Option<string>, hp: Option<int>, keys: string, newName: Option<string>)
    | SceneActivated(sceneId: Option<string>, sceneName: Option<string>)

  /** An outbound command as the suppressor sees it; `PatchWrite` is an actor update without hit points. */
  datatype Write =
    | MoveWrite(tokenId: string, toX: int, toY: int, inScene: Option<string>)
    | HpWrite(actorId: string, newHp: int)
    | PatchWrite(actorId: string, patchKeys: string)
    | SceneWrite(toScene: string)
    | OtherWrite

  // ---- Fingerprints ---------------------------------------------------------------------------

  function Digits(n: nat): string {
    (if n < 10 then "" else Digits(n / 10)) + [(48 + n % 10) as char]
  }

  function Show(n: int): string {
    if n < 0 then "-" + Digits(-n) else Digits(n)
  }

  function Part(n: Option<int>): string {
    if n.Some? then Show(n.value) else ""
  }

  function TextPart(s: Option<string>): string {
    if s.Some? then s.value else ""
  }

  function FingerprintCommand(w: Write): string {
    match w
    case MoveWrite(token, x, y, _) => "token_moved|" + token + "|" + Show(x) + "|" + Show(y)
    case HpWrite(actor, hp) => "actor_hp|" + actor + "|" + Show(hp)
    case PatchWrite(actor, keys) => "actor_updated|" + actor + "|" + keys
    case SceneWrite(scene) => "scene_activated|" + scene
    case OtherWrite => ""
  }

  function FingerprintInbound(e: Event): (fp: string)
    ensures fp != ""
  {
    match e
    case TokenMoved(token, x, y, _) => "token_moved|" + TextPart(token) + "|" + Part(x) + "|" + Part(y)
    case ActorUpdated(actor, hp, keys, _) =>
      if hp.Some? then "actor_hp|" + TextPart(actor) + "|" + Show(hp.value)
      else "actor_updated|" + TextPart(actor) + "|" + keys
    case SceneActivated(scene, _) => "scene_activated|" + TextPart(scene)
  }

  /** The event that Foundry sends back for a write, if it sends one. */
  function EchoOf(w: Write): Option<Event> {
    match w
    case MoveWrite(token, x, y, scene) => Some(TokenMoved(Some(token), Some(x), Some(y), scene))
    case HpWrite(actor, hp) => Some(ActorUpdated(Some(actor), Some(hp), "", None))
    case PatchWrite(actor, keys) => Some(ActorUpdated(Some(actor), None, keys, None))
    case SceneWrite(scene) => Some(SceneActivated(Some(scene), None))
    case OtherWrite => None
  }

  /** A write's echo carries the fingerprint under which the write was primed. */
  lemma EchoCarriesFingerprint(w: Write)
    ensures match EchoOf(w)
      case Some(e) => FingerprintInbound(e) == FingerprintCommand(w)
      case None => FingerprintCommand(w) == ""
  {
  }

  lemma {:induction false} DigitsOnly(n: nat)
    ensures Digits(n) != "" && forall c | c in Digits(n) :: '0' <= c <= '9'
  {
    if n >= 10 {
      DigitsOnly(n / 10);
    }
  }

  lemma {:induction false} DigitsInjective(m: nat, n: nat)
    requires Digits(m) == Digits(n)
    ensures m == n
  {
    var (a, b) := (if m < 10 then "" else Digits(m / 10), if n < 10 then "" else Digits(n / 10));
    assert Digits(m) == a + [(48 + m % 10) as char] && Digits(n) == b + [(48 + n % 10) as char];
    assert a == Digits(m)[..|Digits(m)| - 1] && b == Digits(n)[..|Digits(n)| - 1];
    assert Digits(m)[|Digits(m)| - 1] == Digits(n)[|Digits(n)| - 1];
    DigitsOnly(m / 10);
    DigitsOnly(n / 10);
    if m >= 10 && n >= 10 {
      DigitsInjective(m / 10, n / 10);
    }
  }

  lemma {:induction false} PartInjective(m: Option<int>, n: Option<int>)
    ensures Part(m) == Part(n) <==> m == n
    ensures '|' !in Part(m)
  {
    forall k: nat {
      DigitsOnly(k);
    }
    if m.Some? && n.Some? && Part(m) == Part(n) {
      if m.value < 0 && n.value < 0 {
        assert Part(m)[1..] == Digits(-m.value) && Part(n)[1..] == Digits(-n.value);
        DigitsInjective(-m.value, -n.value);
      } else if m.value < 0 || n.value < 0 {
        assert Part(m)[0] == Part(n)[0];
        var k := if m.value < 0 then n.value else m.value;
        assert Digits(k)[0] in Digits(k);
      } else {
        DigitsInjective(m.value, n.value);
      }
    }
  }

  lemma LastBar(a: string, b: string, a': string, b': string)
    requires '|' !in b && '|' !in b'
    ensures a + "|" + b == a' + "|" + b' <==> a == a' && b == b'
  {
    var s, s' := a + "|" + b, a' + "|" + b';
    if s == s' {
      assert s[|a|] == '|' && s'[|a'|] == '|';
      assert |a| == |a'|;
      assert s[..|a|] == a && s'[..|a'|] == a' && s[|a| + 1..] == b && s'[|a'| + 1..] == b';
    }
  }

  lemma FirstBar(a: string, b: string, a': string, b': string)
    requires '|' !in a && '|' !in a'
    ensures a + "|" + b == a' + "|" + b' <==> a == a' && b == b'
  {
    var s, s' := a + "|" + b, a' + "|" + b';
    if s == s' {
      assert s[|a|] == '|' && s'[|a'|] == '|';
      assert |a| == |a'|;
      assert s[..|a|] == a && s'[..|a'|] == a' && s[|a| + 1..] == b && s'[|a'| + 1..] == b';
    }
  }

  /** Both events set the same token to the same place, the same actor to the same hit points, the same keys of the
      same actor, or the same scene; no id counts as the empty one, and the names are not looked at. */
  predicate SameChange(e: Event, e': Event) {
    match (e, e')
    case (TokenMoved(token, x, y, _), TokenMoved(token', x', y', _)) =>
      TextPart(token) == TextPart(token') && x == x' && y == y'
    case (ActorUpdated(actor, hp, keys, _), ActorUpdated(actor', hp', keys', _)) =>
      TextPart(actor) == TextPart(actor') && hp == hp' && (hp.None? ==> keys == keys')
    case (SceneActivated(scene, _), SceneActivated(scene', _)) => TextPart(scene) == TextPart(scene')
    case _ => false
  }

  predicate BarFree(e: Event) {
    e.ActorUpdated? && e.hp.None? ==> '|' !in TextPart(e.actor)
  }

  /** Two events share their fingerprint exactly when they are the same change; only where an update without hit points
      names an actor with a bar in its id could others. */
  lemma {:induction false} FingerprintTellsChanges(e: Event, e': Event)
    requires BarFree(e) && BarFree(e')
    ensures FingerprintInbound(e) == FingerprintInbound(e') <==> SameChange(e, e')
  {
    var ((kind, rest), (kind', rest')) := (Cut(e), Cut(e'));
    FirstBar(kind, rest, kind', rest');
    CutIs(e);
    CutIs(e');
    match (e, e') {
      case (TokenMoved(token, x, y, _), TokenMoved(token', x', y', _)) =>
        PartInjective(x, x');
        PartInjective(x', x);
        PartInjective(y, y');
        PartInjective(y', y);
        LastBar(TextPart(token) + "|" + Part(x), Part(y), TextPart(token') + "|" + Part(x'), Part(y'));
        LastBar(TextPart(token), Part(x), TextPart(token'), Part(x'));
      case (ActorUpdated(actor, hp, keys, _), ActorUpdated(actor', hp', keys', _)) =>
        if hp.Some? && hp'.Some? {
          PartInjective(hp, hp');
          PartInjective(hp', hp);
          LastBar(TextPart(actor), Part(hp), TextPart(actor'), Part(hp'));
        } else if hp.None? && hp'.None? {
          FirstBar(TextPart(actor), keys, TextPart(actor'), keys');
        }
      case _ =>
    }
  }

  /** A fingerprint without its first bar. */
  function Cut(e: Event): (string, string) {
    match e
    case TokenMoved(token, x, y, _) => ("token_moved", TextPart(token) + "|" + Part(x) + "|" + Part(y))
    case ActorUpdated(actor, hp, keys, _) =>
      if hp.Some? then ("actor_hp", TextPart(actor) + "|" + Part(hp))
      else ("actor_updated", TextPart(actor) + "|" + keys)
    case SceneActivated(scene, _) => ("scene_activated", TextPart(scene))
  }

  lemma CutIs(e: Event)
    ensures FingerprintInbound(e) == Cut(e).0 + "|" + Cut(e).1
  {
    hide Show, TextPart;
    match e {
      case TokenMoved(token, x, y, _) =>
        Glued("token_moved|", TextPart(token), Part(x));
        Glued("token_moved|", TextPart(token) + "|" + Part(x), Part(y));
        assert "token_moved" + "|" == "token_moved|";
      case ActorUpdated(actor, hp, keys, _) =>
        if hp.Some? {
          Glued("actor_hp|", TextPart(actor), Part(hp));
          assert "actor_hp" + "|" == "actor_hp|";
        } else {
          Glued("actor_updated|", TextPart(actor), keys);
          assert "actor_updated" + "|" == "actor_updated|";
        }
      case SceneActivated(scene, _) =>
        assert "scene_activated" + "|" == "scene_activated|";
    }
  }

  lemma Glued(a: string, b: string, c: string)
    ensures a + b + "|" + c == a + (b + "|" + c)
  {
  }

  // ---- Python's state ----------------------------------------------------------------------------

  datatype Place = Place(x: Option<int>, y: Option<int>, scene: Option<string>)

  datatype Known = Known(hp: Option<int>, name: Option<string>)

  datatype Mind = Mind(tokens: map<string, Place>, actors: map<string, Known>, scene: Option<string>,
      sceneName: Option<string>)

  /** `_absorb`. */
  function Absorbed(mind: Mind, e: Event): Mind {
    match e
    case TokenMoved(token, x, y, scene) =>
      if TextPart(token) == "" then mind else mind.(tokens := mind.tokens[token.value := Place(x, y, scene)])
    case ActorUpdated(actor, hp, _, newName) =>
      if TextPart(actor) == "" then mind
      else
        var cur := if actor.value in mind.actors then mind.actors[actor.value] else Known(None, None);
        mind.(actors := mind.actors[actor.value :=
          Known(if hp.Some? then hp else cur.hp, if newName.Some? then newName else cur.name)])
    case SceneActivated(scene, name) => mind.(scene := scene, sceneName := name)
  }

  /** The corrective write of `_revert`, when there is one. A known x with an unknown y raises, and nothing is sent. */
  function Corrective(mind: Mind, e: Event): Option<Write> {
    match e
    case TokenMoved(token, _, _, _) =>
      if TextPart(token) != "" && token.value in mind.tokens && mind.tokens[token.value].x.Some?
        && mind.tokens[token.value].y.Some? then
        var prev := mind.tokens[token.value];
        Some(MoveWrite(token.value, prev.x.value, prev.y.value, prev.scene))
      else None
    case ActorUpdated(actor, hp, _, _) =>
      if TextPart(actor) != "" && actor.value in mind.actors && mind.actors[actor.value].hp.Some? && hp.Some?
        && mind.actors[actor.value].hp != hp then
        Some(HpWrite(actor.value, mind.actors[actor.value].hp.value))
      else None
    case SceneActivated(scene, _) =>
      if TextPart(mind.scene) != "" && mind.scene != scene then Some(SceneWrite(mind.scene.value)) else None
  }

  datatype Verdict = SelfEcho | Ignored | Taken | Reverted(write: Write) | NoInverse

  function PolicyFor(cfg: Config, e: Event): Policy {
    match e
    case TokenMoved(_, _, _, _) => cfg.moved
    case ActorUpdated(_, _, _, _) => cfg.updated
    case SceneActivated(_, _) => cfg.activated
  }

  function Prime(cfg: Config, entries: seq<Echo>, w: Write, now: real): seq<Echo> {
    Remembered(entries, FingerprintCommand(w), now, cfg.ttl, cfg.max)
  }

  /** `_revert` primes its write; the router's hook primes it again. */
  function PrimeCorrective(cfg: Config, entries: seq<Echo>, w: Write, now: real): seq<Echo> {
    var once := Prime(cfg, entries, w, now);
    if cfg.hooked then Prime(cfg, once, w, now) else once
  }

  function Handled(cfg: Config, mind: Mind, entries: seq<Echo>, e: Event, now: real): (Mind, seq<Echo>, Verdict) {
    var (left, echo) := Consumed(entries, FingerprintInbound(e), now);
    if echo then (mind, left, SelfEcho)
    else
      match PolicyFor(cfg, e)
      case Ignore => (mind, left, Ignored)
      case Absorb => (Absorbed(mind, e), left, Taken)
      case Revert =>
        var w := if cfg.hasRouter then Corrective(mind, e) else None;
        if w.None? then (mind, left, NoInverse)
        else (mind, PrimeCorrective(cfg, left, w.value, now), Reverted(w.value))
  }

  class InboundArbiter {
    const cfg: Config
    const suppressor: EchoSuppressor
    var mind: Mind

    constructor (cfg: Config, suppressor: EchoSuppressor, mind: Mind)
      ensures this.cfg == cfg && this.suppressor == suppressor && this.mind == mind
    {
      this.cfg, this.suppressor, this.mind := cfg, suppressor, mind;
    }

    method PrimeOutbound(w: Write, now: real)
      requires suppressor.ttl == cfg.ttl && suppressor.maxEntries == cfg.max
      modifies suppressor
      ensures suppressor.entries == Prime(cfg, old(suppressor.entries), w, now)
    {
      var fp := FingerprintCommand(w);
      if fp != "" {
        suppressor.Remember(fp, now);
      }
    }

    method Handle(e: Event, now: real) returns (verdict: Verdict)
      requires suppressor as object != this
      requires suppressor.ttl == cfg.ttl && suppressor.maxEntries == cfg.max
      modifies this, suppressor
      ensures (mind, suppressor.entries, verdict) == Handled(cfg, old(mind), old(suppressor.entries), e, now)
    {
      var echo := suppressor.Consume(FingerprintInbound(e), now);
      if echo {
        return SelfEcho;
      }
      match PolicyFor(cfg, e) {
        case Ignore =>
          verdict := Ignored;
        case Absorb =>
          mind := Absorbed(mind, e);
          verdict := Taken;
        case Revert =>
          verdict := DoRevert(e, now);
      }
    }

    method DoRevert(e: Event, now: real) returns (verdict: Verdict)
      requires suppressor as object != this
      requires suppressor.ttl == cfg.ttl && suppressor.maxEntries == cfg.max
      modifies suppressor
      ensures var w := if cfg.hasRouter then Corrective(mind, e) else None;
        && verdict == (if w.None? then NoInverse else Reverted(w.value))
        && suppressor.entries == if w.None? then old(suppressor.entries)
          else PrimeCorrective(cfg, old(suppressor.entries), w.value, now)
    {
      if !cfg.hasRouter {
        return NoInverse;
      }
      var w := Corrective(mind, e);
      if w.None? {
        return NoInverse;
      }
      PrimeOutbound(w.value, now);
      // the dispatch, whose hook primes once more
      if cfg.hooked {
        PrimeOutbound(w.value, now);
      }
      verdict := Reverted(w.value);
    }
  }

  // ---- The loop -------------------------------------------------------------------------------------

  /** The arbiter with the events under way to it; the counters tell outside changes and corrections sent. */
  datatype Loop = Loop(mind: Mind, entries: seq<Echo>, outside: seq<Event>, echoes: seq<Event>, received: nat,
      sent: nat)

  datatype Happening =
    | OutsideChange(e: Event)
    | OutsideArrives(i: nat, now: real)
    | EchoArrives(i: nat, now: real)
    | EchoLost(i: nat)
    | OwnWrite(w: Write, now: real)

  function Without(es: seq<Event>, i: nat): seq<Event>
    requires i < |es|
  {
    es[..i] + es[i + 1..]
  }

  /** The arbiter handles an event; a corrective write puts at most one echo under way. */
  function Arrive(cfg: Config, s: Loop, e: Event, now: real): Loop {
    var (mind, entries, verdict) := Handled(cfg, s.mind, s.entries, e, now);
    var s' := s.(mind := mind, entries := entries);
    if verdict.Reverted? then
      s'.(sent := s.sent + 1, echoes := s.echoes + if EchoOf(verdict.write).Some? then [EchoOf(verdict.write).value]
        else [])
    else s'
  }

  function Happen(cfg: Config, s: Loop, h: Happening): Loop {
    match h
    case OutsideChange(e) => s.(outside := s.outside + [e], received := s.received + 1)
    case OutsideArrives(i, now) =>
      if i < |s.outside| then Arrive(cfg, s.(outside := Without(s.outside, i)), s.outside[i], now) else s
    case EchoArrives(i, now) =>
      if i < |s.echoes| then Arrive(cfg, s.(echoes := Without(s.echoes, i)), s.echoes[i], now) else s
    case EchoLost(i) =>
      if i < |s.echoes| then s.(echoes := Without(s.echoes, i)) else s
    case OwnWrite(w, now) =>
      s.(entries := Prime(cfg, s.entries, w, now),
         echoes := s.echoes + if EchoOf(w).Some? then [EchoOf(w).value] else [])
  }

  function Happens(cfg: Config, s: Loop, hs: seq<Happening>): Loop
    decreases |hs|
  {
    if hs == [] then s else Happens(cfg, Happen(cfg, s, hs[0]), hs[1..])
  }

  /** No fingerprint expires and none is evicted at this happening. */
  predicate NothingForgotten(cfg: Config, s: Loop, h: Happening) {
    match h
    case OutsideArrives(_, now) => Gc(s.entries, now) == s.entries && |s.entries| + 2 <= cfg.max
    case EchoArrives(_, now) => Gc(s.entries, now) == s.entries && |s.entries| + 2 <= cfg.max
    case OwnWrite(_, now) => Gc(s.entries, now) == s.entries && |s.entries| + 1 <= cfg.max
    case _ => true
  }

  predicate AllRemembered(cfg: Config, s: Loop, hs: seq<Happening>)
    decreases |hs|
  {
    hs == [] || (NothingForgotten(cfg, s, hs[0]) && AllRemembered(cfg, Happen(cfg, s, hs[0]), hs[1..]))
  }

  // ---- The potential -----------------------------------------------------------------------------------

  function PrimedSeq(entries: seq<Echo>): seq<string> {
    seq(|entries|, i requires 0 <= i < |entries| => entries[i].fingerprint)
  }

  function Primed(entries: seq<Echo>): multiset<string> {
    multiset(PrimedSeq(entries))
  }

  function PrintSeq(es: seq<Event>): seq<string> {
    seq(|es|, i requires 0 <= i < |es| => FingerprintInbound(es[i]))
  }

  function Prints(es: seq<Event>): multiset<string> {
    multiset(PrintSeq(es))
  }

  /** The echoes under way that no primed fingerprint covers. */
  function Uncovered(s: Loop): nat {
    |Prints(s.echoes) - Primed(s.entries)|
  }

  lemma OneLess(xs: seq<string>, i: nat)
    requires i < |xs|
    ensures multiset(xs) == multiset(xs[..i] + xs[i + 1..]) + multiset{xs[i]}
  {
    assert xs == xs[..i] + [xs[i]] + xs[i + 1..];
  }

  lemma OneMore(xs: seq<string>, x: string, ys: seq<string>)
    requires |ys| == |xs| + 1 && ys[|xs|] == x && forall j | 0 <= j < |xs| :: ys[j] == xs[j]
    ensures multiset(ys) == multiset(xs) + multiset{x}
  {
    assert ys == xs + [x];
  }

  lemma PrintsWithout(es: seq<Event>, i: nat)
    requires i < |es|
    ensures Prints(es) == Prints(Without(es, i)) + multiset{FingerprintInbound(es[i])}
  {
    var xs := PrintSeq(es);
    OneLess(xs, i);
    assert PrintSeq(Without(es, i)) == xs[..i] + xs[i + 1..];
  }

  lemma PrintsWith(es: seq<Event>, e: Event)
    ensures Prints(es + [e]) == Prints(es) + multiset{FingerprintInbound(e)}
  {
    OneMore(PrintSeq(es), FingerprintInbound(e), PrintSeq(es + [e]));
  }

  lemma FirstIsPrimed(entries: seq<Echo>, fp: string)
    ensures FirstOf(entries, fp) < |entries| <==> fp in Primed(entries)
  {
    var i := FirstOf(entries, fp);
    if i < |entries| {
      assert PrimedSeq(entries)[i] == fp;
    } else {
      assert fp !in PrimedSeq(entries);
    }
  }

  lemma PrimedWithoutAt(entries: seq<Echo>, i: nat)
    requires i < |entries|
    ensures Primed(entries) == Primed(entries[..i] + entries[i + 1..]) + multiset{entries[i].fingerprint}
  {
    var xs := PrimedSeq(entries);
    OneLess(xs, i);
    assert PrimedSeq(entries[..i] + entries[i + 1..]) == xs[..i] + xs[i + 1..];
  }

  lemma {:induction false} PrimedWithoutFirst(entries: seq<Echo>, fp: string)
    requires FirstOf(entries, fp) < |entries|
    ensures Primed(entries) == Primed(WithoutFirst(entries, fp)) + multiset{fp}
  {
    PrimedWithoutAt(entries, FirstOf(entries, fp));
  }

  /** Consuming, when nothing has expired, takes one primed copy if there is one. */
  lemma ConsumePrimed(entries: seq<Echo>, fp: string, now: real)
    requires fp != "" && Gc(entries, now) == entries
    ensures var (left, found) := Consumed(entries, fp, now);
      && (found <==> fp in Primed(entries))
      && (if found then Primed(entries) == Primed(left) + multiset{fp} && |left| == |entries| - 1 else left == entries)
  {
    FirstIsPrimed(entries, fp);
    if FirstOf(entries, fp) < |entries| {
      PrimedWithoutFirst(entries, fp);
    }
  }

  lemma {:induction false} GcShorter(entries: seq<Echo>, now: real)
    ensures |Gc(entries, now)| <= |entries|
  {
    if entries != [] {
      GcShorter(entries[1..], now);
    }
  }

  /** Priming, when nothing is forgotten, adds one copy. */
  lemma PrimeAdds(cfg: Config, entries: seq<Echo>, w: Write, now: real)
    requires Gc(entries, now) == entries && |entries| < cfg.max && FingerprintCommand(w) != "" && cfg.ttl >= 0.0
    ensures var primed := Prime(cfg, entries, w, now);
      && Primed(primed) == Primed(entries) + multiset{FingerprintCommand(w)}
      && |primed| == |entries| + 1
      && Gc(primed, now) == primed
  {
    var e := Echo(FingerprintCommand(w), now + cfg.ttl);
    GcShorter(if entries == [] then [] else entries[1..], now);
    var more := entries + [e];
    OneMore(PrimedSeq(entries), e.fingerprint, PrimedSeq(more));
  }

  /** How the surplus of one multiset over another moves when either gains an element. */
  lemma SurplusShift(a: multiset<string>, b: multiset<string>, f: string)
    ensures (a + multiset{f}) - (b + multiset{f}) == a - b
    ensures |a - (b + multiset{f})| <= |a - b| <= |a - (b + multiset{f})| + 1
    ensures |a - b| <= |(a + multiset{f}) - b| <= |a - b| + 1
    ensures f !in b ==> |(a + multiset{f}) - b| == |a - b| + 1
  {
    var c := b + multiset{f};
    if a[f] > b[f] {
      assert a - b == (a - c) + multiset{f};
    } else {
      assert a - b == a - c;
    }
    var d := a + multiset{f};
    if a[f] >= b[f] {
      assert d - b == (a - b) + multiset{f};
    } else {
      assert d - b == a - b;
    }
  }

  /** A corrective write and its echo: what is put under way is covered by what is primed. */
  lemma {:induction false} CorrectiveCovered(cfg: Config, entries: seq<Echo>, echoes: seq<Event>, w: Write, now: real)
    requires cfg.ttl >= 0.0 && Gc(entries, now) == entries && |entries| + 2 <= cfg.max && EchoOf(w).Some?
    ensures |Prints(echoes + [EchoOf(w).value]) - Primed(PrimeCorrective(cfg, entries, w, now))|
      <= |Prints(echoes) - Primed(entries)|
  {
    EchoCarriesFingerprint(w);
    var f := FingerprintCommand(w);
    PrimeAdds(cfg, entries, w, now);
    var once := Prime(cfg, entries, w, now);
    PrimeAdds(cfg, once, w, now);
    PrintsWith(echoes, EchoOf(w).value);
    SurplusShift(Prints(echoes), Primed(entries), f);
    SurplusShift(Prints(echoes + [EchoOf(w).value]), Primed(once), f);
  }

  /** Handling an event whose fingerprint is primed uses one copy up and sends nothing. */
  lemma ArriveKnown(cfg: Config, s: Loop, e: Event, now: real)
    requires Gc(s.entries, now) == s.entries && FingerprintInbound(e) in Primed(s.entries)
    ensures var s' := Arrive(cfg, s, e, now);
      && s' == s.(entries := s'.entries)
      && Primed(s.entries) == Primed(s'.entries) + multiset{FingerprintInbound(e)}
  {
    ConsumePrimed(s.entries, FingerprintInbound(e), now);
  }

  /** Handling any other event sends at most one command ... */
  lemma ArriveNew(cfg: Config, s: Loop, e: Event, now: real)
    ensures var s' := Arrive(cfg, s, e, now);
      && s'.outside == s.outside && s'.received == s.received
      && s.sent <= s'.sent <= s.sent + 1 && |s'.echoes| <= |s.echoes| + (s'.sent - s.sent)
  {
  }

  /** ... whose echo is covered. */
  lemma {:induction false} ArriveNewCovered(cfg: Config, s: Loop, e: Event, now: real)
    requires cfg.ttl >= 0.0 && Gc(s.entries, now) == s.entries && |s.entries| + 2 <= cfg.max
    requires FingerprintInbound(e) !in Primed(s.entries)
    ensures Uncovered(Arrive(cfg, s, e, now)) <= Uncovered(s)
  {
    ConsumePrimed(s.entries, FingerprintInbound(e), now);
    var (_, entries, verdict) := Handled(cfg, s.mind, s.entries, e, now);
    if verdict.Reverted? {
      assert EchoOf(verdict.write).Some?;
      assert entries == PrimeCorrective(cfg, s.entries, verdict.write, now);
      CorrectiveCovered(cfg, s.entries, s.echoes, verdict.write, now);
    } else {
      assert entries == s.entries;
    }
  }

  /** What the corrective commands sent may not outgrow. */
  predicate InCredit(s: Loop) {
    s.sent + |s.outside| + Uncovered(s) <= s.received
  }

  /** What an arrival does to the quantities that credit and measure are made of. */
  predicate Moves(s: Loop, s': Loop, outside: nat, echoes: nat, uncovered: int) {
    && s.sent <= s'.sent && s'.received == s.received
    && |s'.outside| + outside == |s.outside|
    && |s'.echoes| + echoes <= |s.echoes| + (s'.sent - s.sent)
    && Uncovered(s') <= Uncovered(s) + uncovered
  }

  /** A known outside change uses up a fingerprint that may have been meant for an echo. */
  lemma {:induction false} KnownOutsideMoves(s: Loop, s': Loop, fp: string)
    requires s'.sent == s.sent && s'.received == s.received && |s'.outside| + 1 == |s.outside| && s'.echoes == s.echoes
    requires Primed(s.entries) == Primed(s'.entries) + multiset{fp}
    ensures Moves(s, s', 1, 0, 1)
  {
    SurplusShift(Prints(s.echoes), Primed(s'.entries), fp);
  }

  lemma {:induction false} KnownEchoMoves(s: Loop, s': Loop, fp: string)
    requires s'.sent == s.sent && s'.received == s.received && s'.outside == s.outside && |s'.echoes| + 1 == |s.echoes|
    requires Prints(s.echoes) == Prints(s'.echoes) + multiset{fp}
      && Primed(s.entries) == Primed(s'.entries) + multiset{fp}
    ensures Moves(s, s', 0, 1, 0)
  {
    SurplusShift(Prints(s'.echoes), Primed(s'.entries), fp);
  }

  lemma {:induction false} NewEchoMoves(s: Loop, s0: Loop, s': Loop, fp: string)
    requires s0 == s.(echoes := s0.echoes) && |s0.echoes| + 1 == |s.echoes|
    requires Prints(s.echoes) == Prints(s0.echoes) + multiset{fp} && fp !in Primed(s.entries)
    requires Moves(s0, s', 0, 0, 0)
    ensures Moves(s, s', 0, 1, -1)
  {
    SurplusShift(Prints(s0.echoes), Primed(s.entries), fp);
  }

  lemma {:induction false} NewMoves(cfg: Config, s: Loop, e: Event, now: real)
    requires cfg.ttl >= 0.0 && Gc(s.entries, now) == s.entries && |s.entries| + 2 <= cfg.max
    requires FingerprintInbound(e) !in Primed(s.entries)
    ensures Moves(s, Arrive(cfg, s, e, now), 0, 0, 0) && Arrive(cfg, s, e, now).sent <= s.sent + 1
  {
    ArriveNew(cfg, s, e, now);
    ArriveNewCovered(cfg, s, e, now);
  }

  lemma {:induction false} OutsideArrivesMoves(cfg: Config, s: Loop, i: nat, now: real)
    requires cfg.ttl >= 0.0 && i < |s.outside| && NothingForgotten(cfg, s, OutsideArrives(i, now))
    ensures var s' := Happen(cfg, s, OutsideArrives(i, now));
      s'.sent <= s.sent + 1 && (Moves(s, s', 1, 0, 0) || (s'.sent == s.sent && Moves(s, s', 1, 0, 1)))
  {
    var s0, e := s.(outside := Without(s.outside, i)), s.outside[i];
    if FingerprintInbound(e) in Primed(s.entries) {
      ArriveKnown(cfg, s0, e, now);
      KnownOutsideMoves(s, Arrive(cfg, s0, e, now), FingerprintInbound(e));
    } else {
      NewMoves(cfg, s0, e, now);
    }
  }

  lemma {:induction false} EchoArrivesMoves(cfg: Config, s: Loop, i: nat, now: real)
    requires cfg.ttl >= 0.0 && i < |s.echoes| && NothingForgotten(cfg, s, EchoArrives(i, now))
    ensures var s' := Happen(cfg, s, EchoArrives(i, now));
      s'.sent <= s.sent + 1 && (Moves(s, s', 0, 1, -1) || (s'.sent == s.sent && Moves(s, s', 0, 1, 0)))
  {
    var s0, e := s.(echoes := Without(s.echoes, i)), s.echoes[i];
    PrintsWithout(s.echoes, i);
    if FingerprintInbound(e) in Primed(s.entries) {
      ArriveKnown(cfg, s0, e, now);
      KnownEchoMoves(s, Arrive(cfg, s0, e, now), FingerprintInbound(e));
    } else {
      NewMoves(cfg, s0, e, now);
      NewEchoMoves(s, s0, Arrive(cfg, s0, e, now), FingerprintInbound(e));
    }
  }

  predicate Arrives(s: Loop, h: Happening) {
    (h.OutsideArrives? && h.i < |s.outside|) || (h.EchoArrives? && h.i < |s.echoes|)
  }

  lemma {:induction false} ArrivalKeepsCredit(cfg: Config, s: Loop, h: Happening)
    requires cfg.ttl >= 0.0 && NothingForgotten(cfg, s, h) && Arrives(s, h)
    ensures InCredit(s) ==> InCredit(Happen(cfg, s, h))
    ensures Measure(Happen(cfg, s, h)) < Measure(s)
  {
    if h.OutsideArrives? {
      OutsideArrivesMoves(cfg, s, h.i, h.now);
    } else {
      EchoArrivesMoves(cfg, s, h.i, h.now);
    }
  }

  lemma {:induction false} EchoLostKeepsCredit(s: Loop, i: nat)
    requires i < |s.echoes|
    ensures Uncovered(s.(echoes := Without(s.echoes, i))) <= Uncovered(s)
  {
    PrintsWithout(s.echoes, i);
    SurplusShift(Prints(Without(s.echoes, i)), Primed(s.entries), FingerprintInbound(s.echoes[i]));
  }

  lemma {:induction false} OwnWriteKeepsCredit(cfg: Config, s: Loop, w: Write, now: real)
    requires cfg.ttl >= 0.0 && NothingForgotten(cfg, s, OwnWrite(w, now))
    ensures Uncovered(Happen(cfg, s, OwnWrite(w, now))) == Uncovered(s)
  {
    EchoCarriesFingerprint(w);
    if EchoOf(w).Some? {
      assert FingerprintCommand(w) != "";
      PrimeAdds(cfg, s.entries, w, now);
      PrintsWith(s.echoes, EchoOf(w).value);
      SurplusShift(Prints(s.echoes), Primed(s.entries), FingerprintCommand(w));
    } else {
      assert s.echoes + [] == s.echoes;
    }
  }

  lemma {:induction false} HappenKeepsCredit(cfg: Config, s: Loop, h: Happening)
    requires cfg.ttl >= 0.0 && InCredit(s) && NothingForgotten(cfg, s, h)
    ensures InCredit(Happen(cfg, s, h))
  {
    match h {
      case OutsideChange(e) =>
      case OutsideArrives(i, now) =>
        if i < |s.outside| {
          ArrivalKeepsCredit(cfg, s, h);
        }
      case EchoArrives(i, now) =>
        if i < |s.echoes| {
          ArrivalKeepsCredit(cfg, s, h);
        }
      case EchoLost(i) =>
        if i < |s.echoes| {
          EchoLostKeepsCredit(s, i);
        }
      case OwnWrite(w, now) => OwnWriteKeepsCredit(cfg, s, w, now);
    }
  }

  lemma {:induction false} RunKeepsCredit(cfg: Config, s: Loop, hs: seq<Happening>)
    requires cfg.ttl >= 0.0 && InCredit(s) && AllRemembered(cfg, s, hs)
    ensures InCredit(Happens(cfg, s, hs))
    decreases |hs|
  {
    if hs != [] {
      HappenKeepsCredit(cfg, s, hs[0]);
      RunKeepsCredit(cfg, Happen(cfg, s, hs[0]), hs[1..]);
    }
  }

  /** Over every run in which no fingerprint is forgotten, the corrective commands sent never exceed the outside
      changes received, whatever the policy, also when an outside change uses up a fingerprint meant for an echo. */
  lemma CorrectionsBounded(cfg: Config, mind: Mind, hs: seq<Happening>)
    requires cfg.ttl >= 0.0 && AllRemembered(cfg, Loop(mind, [], [], [], 0, 0), hs)
    ensures var s := Happens(cfg, Loop(mind, [], [], [], 0, 0), hs); s.sent <= s.received
  {
    RunKeepsCredit(cfg, Loop(mind, [], [], [], 0, 0), hs);
  }

  // ---- The loop comes to rest ------------------------------------------------------------------------------

  /** Bounds the arrivals still to come when nothing new is written. */
  function Measure(s: Loop): nat {
    3 * |s.outside| + 2 * Uncovered(s) + |s.echoes|
  }

  /** The happening takes an event that is under way, or loses it. */
  predicate Delivers(s: Loop, h: Happening) {
    Arrives(s, h) || (h.EchoLost? && h.i < |s.echoes|)
  }

  predicate OnlyDeliveries(cfg: Config, s: Loop, hs: seq<Happening>)
    decreases |hs|
  {
    hs == [] || (Delivers(s, hs[0]) && OnlyDeliveries(cfg, Happen(cfg, s, hs[0]), hs[1..]))
  }

  /** Once outside changes and own writes cease, the exchange of corrections and echoes ends:
      there are at most `Measure` more arrivals, in whatever order. */
  lemma {:induction false} LoopSettles(cfg: Config, s: Loop, hs: seq<Happening>)
    requires cfg.ttl >= 0.0 && AllRemembered(cfg, s, hs) && OnlyDeliveries(cfg, s, hs)
    ensures |hs| <= Measure(s)
    decreases |hs|
  {
    if hs != [] {
      match hs[0] {
        case OutsideArrives(_, _) => ArrivalKeepsCredit(cfg, s, hs[0]);
        case EchoArrives(_, _) => ArrivalKeepsCredit(cfg, s, hs[0]);
        case EchoLost(i) => EchoLostKeepsCredit(s, i);
      }
      LoopSettles(cfg, Happen(cfg, s, hs[0]), hs[1..]);
    }
  }

  /** When the echo of a corrective token move arrives after its fingerprint was forgotten, the arbiter
      sends the same move again, and its echo is under way again: forgetting is what can keep the loop going. */
  lemma ForgottenEchoRepeats(cfg: Config, s: Loop, i: nat, now: real)
    requires cfg.moved.Revert? && cfg.hasRouter && i < |s.echoes| && s.echoes[i].TokenMoved?
    requires var e := s.echoes[i];
      && e.token.Some? && e.token.value != "" && e.x.Some? && e.y.Some?
      && e.token.value in s.mind.tokens && s.mind.tokens[e.token.value] == Place(e.x, e.y, e.scene)
    requires Gc(s.entries, now) == []
    ensures var s' := Happen(cfg, s, EchoArrives(i, now));
      && s'.sent == s.sent + 1 && s'.mind == s.mind
      && s'.echoes == Without(s.echoes, i) + [s.echoes[i]]
      && s'.outside == s.outside && s'.received == s.received
      && Corrective(s.mind, s.echoes[i]).Some?
      && s'.entries == PrimeCorrective(cfg, [], Corrective(s.mind, s.echoes[i]).value, now)
  {
  }

  // ---- When a correction is sent ------------------------------------------------------------------------

  /** Python knows what the event changed, and knows it otherwise. */
  predicate Correctable(mind: Mind, e: Event) {
    match e
    case TokenMoved(token, _, _, _) =>
      && TextPart(token) != "" && token.value in mind.tokens
      && mind.tokens[token.value].x.Some? && mind.tokens[token.value].y.Some?
    case ActorUpdated(actor, hp, _, _) =>
      && TextPart(actor) != "" && actor.value in mind.actors
      && mind.actors[actor.value].hp.Some? && hp.Some? && mind.actors[actor.value].hp != hp
    case SceneActivated(scene, _) => TextPart(mind.scene) != "" && mind.scene != scene
  }

  /** A fingerprint was remembered, has not expired, and has been neither consumed nor evicted. */
  predicate LivePrimed(s: Loop, fp: string, now: real) {
    fp in Primed(Gc(s.entries, now))
  }

  /** An arriving event makes the arbiter send a correction exactly when the policy is to revert it, there is a router,
      no live primed copy of its fingerprint remains, and what it changed is known otherwise. */
  lemma {:induction false} ArrivalCorrectsIff(cfg: Config, s: Loop, e: Event, now: real)
    ensures Arrive(cfg, s, e, now).sent == s.sent + 1 <==>
      && PolicyFor(cfg, e).Revert? && cfg.hasRouter
      && !LivePrimed(s, FingerprintInbound(e), now) && Correctable(s.mind, e)
    ensures s.sent <= Arrive(cfg, s, e, now).sent <= s.sent + 1
  {
    FirstIsPrimed(Gc(s.entries, now), FingerprintInbound(e));
  }

  /** The echo of a correction is answered with a further one exactly when it is the echo of a token move, and no live
      primed copy of it remains: for hit points and scenes the arbiter compares with what it knows, for places not. */
  lemma {:induction false} EchoCorrectsIff(cfg: Config, s: Loop, cause: Event, now: real)
    requires Corrective(s.mind, cause).Some?
    ensures var w := Corrective(s.mind, cause).value;
      && EchoOf(w).Some?
      && (Arrive(cfg, s, EchoOf(w).value, now).sent == s.sent + 1 <==>
            w.MoveWrite? && cfg.moved.Revert? && cfg.hasRouter && !LivePrimed(s, FingerprintCommand(w), now))
  {
    var w := Corrective(s.mind, cause).value;
    EchoCarriesFingerprint(w);
    ArrivalCorrectsIff(cfg, s, EchoOf(w).value, now);
  }

  // ---- A loop without end -------------------------------------------------------------------------------

  /** One echo of a correction is under way, and what is primed expires within `ttl` of `now`. */
  ghost predicate Circling(cfg: Config, mind: Mind, echo: Event, s: Loop, now: real, n: nat) {
    && s.mind == mind && s.outside == [] && s.echoes == [echo] && s.received == 1 && s.sent == n
    && forall i | 0 <= i < |s.entries| :: s.entries[i].expiresAt <= now + cfg.ttl
  }

  lemma {:induction false} GcAllExpired(entries: seq<Echo>, now: real)
    requires forall i | 0 <= i < |entries| :: entries[i].expiresAt < now
    ensures Gc(entries, now) == []
  {
    if entries != [] {
      GcAllExpired(entries[1..], now);
    }
  }

  lemma {:induction false} GcOnlyDrops(entries: seq<Echo>, now: real, until: real)
    requires forall i | 0 <= i < |entries| :: entries[i].expiresAt <= until
    ensures forall i | 0 <= i < |Gc(entries, now)| :: Gc(entries, now)[i].expiresAt <= until
  {
    if entries != [] {
      GcOnlyDrops(entries[1..], now, until);
    }
  }

  lemma {:induction false} PrimedUntil(cfg: Config, entries: seq<Echo>, w: Write, now: real)
    requires forall i | 0 <= i < |entries| :: entries[i].expiresAt <= now + cfg.ttl
    ensures forall i | 0 <= i < |PrimeCorrective(cfg, entries, w, now)| ::
      PrimeCorrective(cfg, entries, w, now)[i].expiresAt <= now + cfg.ttl
  {
    GcOnlyDrops(entries, now, now + cfg.ttl);
    GcOnlyDrops(Prime(cfg, entries, w, now), now, now + cfg.ttl);
  }

  /** The token stands where Python knows it to stand. */
  predicate KnownPlace(mind: Mind, e: Event) {
    && e.TokenMoved? && TextPart(e.token) != "" && e.x.Some? && e.y.Some?
    && e.token.value in mind.tokens && mind.tokens[e.token.value] == Place(e.x, e.y, e.scene)
  }

  lemma {:induction false} CirclesOn(cfg: Config, mind: Mind, echo: Event, s: Loop, now: real, n: nat)
    requires cfg.moved.Revert? && cfg.hasRouter && KnownPlace(mind, echo) && Circling(cfg, mind, echo, s, now, n)
    ensures var later := now + cfg.ttl + 1.0;
      Circling(cfg, mind, echo, Happen(cfg, s, EchoArrives(0, later)), later, n + 1)
  {
    hide Happen, PrimeCorrective, Corrective;
    var later := now + cfg.ttl + 1.0;
    GcAllExpired(s.entries, later);
    ForgottenEchoRepeats(cfg, s, 0, later);
    PrimedUntil(cfg, [], Corrective(mind, echo).value, later);
    assert Without(s.echoes, 0) == [];
  }

  lemma {:induction false} HappensConcat(cfg: Config, s: Loop, hs: seq<Happening>, h: Happening)
    ensures Happens(cfg, s, hs + [h]) == Happen(cfg, Happens(cfg, s, hs), h)
    decreases |hs|
  {
    if hs == [] {
      assert [] + [h] == [h] && [h][1..] == [];
    } else {
      assert (hs + [h])[1..] == hs[1..] + [h];
      HappensConcat(cfg, Happen(cfg, s, hs[0]), hs[1..], h);
    }
  }

  /** There is no bound without remembering: for every n, one outside change of a known token, under the policy to
      revert it, can be followed by n corrections, when each echo comes more than `ttl` after its write. */
  lemma {:induction false} EndlessCorrections(cfg: Config, mind: Mind, change: Event, n: nat)
    returns (hs: seq<Happening>)
    requires cfg.moved.Revert? && cfg.hasRouter && change.TokenMoved? && Correctable(mind, change)
    ensures var s := Happens(cfg, Loop(mind, [], [], [], 0, 0), hs); s.received == 1 && s.sent == n
  {
    var start := Loop(mind, [], [], [], 0, 0);
    if n == 0 {
      hs := [OutsideChange(change)];
      assert hs[1..] == [];
    } else {
      ghost var now := CircleTo(cfg, mind, change, n - 1);
      hs := Circle(cfg, change, n - 1);
    }
  }

  function RoundAt(cfg: Config, n: nat): real {
    n as real * (cfg.ttl + 1.0)
  }

  /** An outside change, its arrival, and `n` echoes, each `ttl + 1` after what it echoes. */
  function Circle(cfg: Config, change: Event, n: nat): seq<Happening> {
    if n == 0 then [OutsideChange(change), OutsideArrives(0, 0.0)]
    else Circle(cfg, change, n - 1) + [EchoArrives(0, RoundAt(cfg, n))]
  }

  lemma {:induction false} CircleTo(cfg: Config, mind: Mind, change: Event, n: nat) returns (now: real)
    requires cfg.moved.Revert? && cfg.hasRouter && change.TokenMoved? && Correctable(mind, change)
    ensures now == RoundAt(cfg, n)
    ensures KnownPlace(mind, EchoOf(Corrective(mind, change).value).value)
    ensures Circling(cfg, mind, EchoOf(Corrective(mind, change).value).value,
      Happens(cfg, Loop(mind, [], [], [], 0, 0), Circle(cfg, change, n)), now, n + 1)
  {
    hide Happen, Circling;
    var start := Loop(mind, [], [], [], 0, 0);
    FirstCorrection(cfg, mind, change);
    if n == 0 {
      now := 0.0;
      FirstHappens(cfg, mind, change);
      assert Circling(cfg, mind, EchoOf(Corrective(mind, change).value).value,
        Happens(cfg, start, Circle(cfg, change, 0)), now, 1);
    } else {
      var before := CircleTo(cfg, mind, change, n - 1);
      now := RoundAt(cfg, n);
      assert now == before + cfg.ttl + 1.0;
      var so := Circle(cfg, change, n - 1);
      CirclesOn(cfg, mind, EchoOf(Corrective(mind, change).value).value, Happens(cfg, start, so), before, n);
      HappensConcat(cfg, start, so, EchoArrives(0, now));
      assert Circle(cfg, change, n) == so + [EchoArrives(0, now)];
    }
  }

  lemma {:induction false} FirstHappens(cfg: Config, mind: Mind, change: Event)
    ensures Happens(cfg, Loop(mind, [], [], [], 0, 0), Circle(cfg, change, 0)) ==
      Happen(cfg, Loop(mind, [], [change], [], 1, 0), OutsideArrives(0, 0.0))
  {
    var start := Loop(mind, [], [], [], 0, 0);
    assert Happen(cfg, start, OutsideChange(change)) == Loop(mind, [], [change], [], 1, 0);
    assert Circle(cfg, change, 0) == ([] + [OutsideChange(change)]) + [OutsideArrives(0, 0.0)];
    HappensConcat(cfg, start, [] + [OutsideChange(change)], OutsideArrives(0, 0.0));
    HappensConcat(cfg, start, [], OutsideChange(change));
  }

  lemma {:induction false} FirstCorrection(cfg: Config, mind: Mind, change: Event)
    requires cfg.moved.Revert? && cfg.hasRouter && change.TokenMoved? && Correctable(mind, change)
    ensures var echo := EchoOf(Corrective(mind, change).value).value;
      && KnownPlace(mind, echo)
      && Circling(cfg, mind, echo, Happen(cfg, Loop(mind, [], [change], [], 1, 0), OutsideArrives(0, 0.0)), 0.0, 1)
  {
    PrimedUntil(cfg, [], Corrective(mind, change).value, 0.0);
    assert Without([change], 0) == [];
    assert [] + [EchoOf(Corrective(mind, change).value).value] == [EchoOf(Corrective(mind, change).value).value];
  }

  // ---- What a revert restores -------------------------------------------------------------------------------

  /** What an event teaches: the place of its token; the hit points and the name of its actor, each where it came; the
      scene with its name. Everything else stays as it was. */
  ghost predicate Taught(before: Mind, e: Event, after: Mind) {
    match e
    case TokenMoved(token, x, y, scene) =>
      && after == before.(tokens := after.tokens)
      && (forall t | t != "" && token == Some(t) :: t in after.tokens && after.tokens[t] == Place(x, y, scene))
      && (forall t | t == "" || token != Some(t) ::
           && (t in after.tokens <==> t in before.tokens)
           && (t in before.tokens ==> after.tokens[t] == before.tokens[t]))
    case ActorUpdated(actor, hp, _, newName) =>
      && after == before.(actors := after.actors)
      && (forall a | a != "" && actor == Some(a) ::
           && a in after.actors
           && (hp.Some? ==> after.actors[a].hp == hp)
           && (newName.Some? ==> after.actors[a].name == newName)
           && (hp.None? ==> after.actors[a].hp == if a in before.actors then before.actors[a].hp else None)
           && (newName.None? ==> after.actors[a].name == if a in before.actors then before.actors[a].name else None))
      && (forall a | a == "" || actor != Some(a) ::
           && (a in after.actors <==> a in before.actors)
           && (a in before.actors ==> after.actors[a] == before.actors[a]))
    case SceneActivated(scene, name) =>
      after.scene == scene && after.sceneName == name
      && after.tokens == before.tokens && after.actors == before.actors
  }

  /** An arriving event teaches Python's state exactly what it says when its kind is absorbed and it is not taken for an
      echo, and otherwise leaves the state as it was; nothing is sent unless its kind is reverted. */
  lemma {:induction false} ArrivalTeaches(cfg: Config, s: Loop, e: Event, now: real)
    ensures var s' := Arrive(cfg, s, e, now);
      var policy := if e.TokenMoved? then cfg.moved else if e.ActorUpdated? then cfg.updated else cfg.activated;
      && (if policy.Absorb? && !LivePrimed(s, FingerprintInbound(e), now) then Taught(s.mind, e, s'.mind)
          else s'.mind == s.mind)
      && (!policy.Revert? ==> s'.sent == s.sent && s'.echoes == s.echoes)
      && s'.outside == s.outside && s'.received == s.received
  {
    FirstIsPrimed(Gc(s.entries, now), FingerprintInbound(e));
    hide FingerprintInbound;
  }

  /** What Python knows of a surface changes only under the policy that absorbs its events. */
  lemma {:induction false} OnlyAbsorbingLearns(cfg: Config, s: Loop, hs: seq<Happening>)
    ensures var mind := Happens(cfg, s, hs).mind;
      && (!cfg.moved.Absorb? ==> mind.tokens == s.mind.tokens)
      && (!cfg.updated.Absorb? ==> mind.actors == s.mind.actors)
      && (!cfg.activated.Absorb? ==> mind.scene == s.mind.scene)
    decreases |hs|
  {
    hide Happen;
    if hs != [] {
      HappenLearns(cfg, s, hs[0]);
      OnlyAbsorbingLearns(cfg, Happen(cfg, s, hs[0]), hs[1..]);
    }
  }

  lemma {:induction false} HappenLearns(cfg: Config, s: Loop, h: Happening)
    ensures var mind := Happen(cfg, s, h).mind;
      && (!cfg.moved.Absorb? ==> mind.tokens == s.mind.tokens)
      && (!cfg.updated.Absorb? ==> mind.actors == s.mind.actors)
      && (!cfg.activated.Absorb? ==> mind.scene == s.mind.scene)
  {
    hide Consumed, PrimeCorrective, Prime, Corrective, EchoOf, FingerprintInbound;
  }

  /** So in a run that starts with no token and no scene known, no token move and no activation is ever reverted, also
      where the policy is to revert them. */
  lemma {:induction false} NothingKnownNothingReverted(cfg: Config, mind: Mind, hs: seq<Happening>, e: Event, now: real)
    requires mind.tokens == map[] && mind.scene == None
    ensures var s := Happens(cfg, Loop(mind, [], [], [], 0, 0), hs);
      e.TokenMoved? || e.SceneActivated? ==> !Handled(cfg, s.mind, s.entries, e, now).2.Reverted?
  {
    OnlyAbsorbingLearns(cfg, Loop(mind, [], [], [], 0, 0), hs);
  }

  lemma {:induction false} GcKeepsLast(entries: seq<Echo>, e: Echo, now: real)
    requires e.expiresAt >= now
    ensures Gc(entries + [e], now) == Gc(entries, now) + [e]
  {
    if entries == [] {
      assert [e][1..] == [];
    } else {
      assert (entries + [e])[1..] == entries[1..] + [e];
      GcKeepsLast(entries[1..], e, now);
    }
  }

  /** What is primed is there, and alive, whatever was before. */
  lemma {:induction false} PrimedIsLive(cfg: Config, entries: seq<Echo>, w: Write, now: real)
    requires FingerprintCommand(w) != "" && cfg.ttl >= 0.0 && cfg.max > 0
    ensures FingerprintCommand(w) in Primed(Gc(Prime(cfg, entries, w, now), now))
  {
    hide FingerprintCommand;
    var e := Echo(FingerprintCommand(w), now + cfg.ttl);
    var primed := Prime(cfg, entries, w, now);
    assert primed == primed[..|primed| - 1] + [e];
    GcKeepsLast(primed[..|primed| - 1], e, now);
    var live := Gc(primed, now);
    assert PrimedSeq(live)[|live| - 1] == e.fingerprint;
  }

  /** An event is taken for the echo of a write exactly when it says what the write does; only where the write sets
      other keys than hit points, and a bar is in the actor's id, could others. */
  lemma {:induction false} TakenForEchoIff(w: Write, e: Event)
    requires BarFree(e) && (w.PatchWrite? ==> '|' !in w.actorId)
    ensures FingerprintCommand(w) == FingerprintInbound(e) <==>
      match (w, e)
      case (MoveWrite(t, x, y, _), TokenMoved(token, ex, ey, _)) =>
        TextPart(token) == t && ex == Some(x) && ey == Some(y)
      case (HpWrite(a, hp), ActorUpdated(actor, h, _, _)) => TextPart(actor) == a && h == Some(hp)
      case (PatchWrite(a, keys), ActorUpdated(actor, h, k, _)) => TextPart(actor) == a && h == None && k == keys
      case (SceneWrite(to), SceneActivated(scene, _)) => TextPart(scene) == to
      case _ => false
  {
    hide FingerprintCommand, FingerprintInbound;
    EchoCarriesFingerprint(w);
    if EchoOf(w).Some? {
      FingerprintTellsChanges(EchoOf(w).value, e);
    }
  }

  /** What a correction puts under way: that the token is at its known place, the actor has its known hit points, or the
      known scene is active. */
  ghost predicate TellsKnown(mind: Mind, e: Event, echo: Event) {
    match e
    case TokenMoved(token, _, _, _) =>
      token.Some? && token.value in mind.tokens
        && var at := mind.tokens[token.value];
           echo == TokenMoved(token, at.x, at.y, at.scene)
    case ActorUpdated(actor, _, _, _) =>
      actor.Some? && actor.value in mind.actors
        && echo == ActorUpdated(actor, mind.actors[actor.value].hp, "", None)
    case SceneActivated(_, _) => echo == SceneActivated(mind.scene, None)
  }

  /** An arrival that sends a correction puts exactly one event under way, which tells what Python knows, and leaves its
      fingerprint primed if something can be remembered at all. */
  lemma {:induction false} CorrectionTellsKnown(cfg: Config, s: Loop, e: Event, now: real)
    requires Arrive(cfg, s, e, now).sent > s.sent
    ensures var s' := Arrive(cfg, s, e, now);
      && |s'.echoes| == |s.echoes| + 1 && s'.echoes[..|s.echoes|] == s.echoes
      && var echo := s'.echoes[|s.echoes|];
         TellsKnown(s.mind, e, echo)
           && (cfg.ttl >= 0.0 && cfg.max > 0 ==> LivePrimed(s', FingerprintInbound(echo), now))
  {
    hide FingerprintInbound, FingerprintCommand, Gc, Primed, Prime, WithoutFirst;
    var w, left := Corrective(s.mind, e).value, Consumed(s.entries, FingerprintInbound(e), now).0;
    EchoCarriesFingerprint(w);
    if cfg.ttl >= 0.0 && cfg.max > 0 {
      PrimedIsLive(cfg, left, w, now);
      PrimedIsLive(cfg, Prime(cfg, left, w, now), w, now);
    }
  }

  predicate SameSubject(e: Event, later: Event) {
    match (e, later)
    case (TokenMoved(token, _, _, _), TokenMoved(token', _, _, _)) => token == token'
    case (ActorUpdated(actor, _, _, _), ActorUpdated(actor', _, _, _)) => actor == actor'
    case (SceneActivated(_, _), SceneActivated(_, _)) => true
    case _ => false
  }

  /** What a correction puts back is what was absorbed last: its echo repeats the absorbed event, except for the parts
      that a correction does not carry. */
  lemma {:induction false} CorrectionRepeatsAbsorbed(mind: Mind, e: Event, later: Event)
    requires SameSubject(e, later) && Corrective(Absorbed(mind, e), later).Some?
    ensures var echo := EchoOf(Corrective(Absorbed(mind, e), later).value);
      match e
      case TokenMoved(_, _, _, _) => echo == Some(e)
      case ActorUpdated(actor, hp, _, _) => hp.Some? ==> echo == Some(ActorUpdated(actor, hp, "", None))
      case SceneActivated(scene, _) => echo == Some(SceneActivated(scene, None))
  {
  }
}
