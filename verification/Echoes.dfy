/** `EchoSuppressor`: a bounded queue of fingerprints with a time to live, against a log of timed copies. */
module Echoes {
  import opened Sequences

  datatype Echo = Echo(fingerprint: string, expiresAt: real)

  // ---- The queue -----------------------------------------------------------------------------

  /** `_gc`: drops from the front only. */
  function Gc(entries: seq<Echo>, now: real): seq<Echo> {
    if entries != [] && entries[0].expiresAt < now then Gc(entries[1..], now) else entries
  }

  function Remembered(entries: seq<Echo>, fp: string, now: real, ttl: real, max: nat): seq<Echo> {
    if fp == "" then entries else Newest(Gc(entries, now) + [Echo(fp, now + ttl)], max)
  }

  /** The position of the first copy; the length when there is none. */
  function FirstOf(entries: seq<Echo>, fp: string): (i: nat)
    ensures i <= |entries|
    ensures i < |entries| ==> entries[i].fingerprint == fp
    ensures forall j | 0 <= j < i :: entries[j].fingerprint != fp
  {
    if entries == [] || entries[0].fingerprint == fp then 0 else 1 + FirstOf(entries[1..], fp)
  }

  function WithoutFirst(entries: seq<Echo>, fp: string): seq<Echo> {
    var i := FirstOf(entries, fp);
    if i < |entries| then entries[..i] + entries[i + 1..] else entries
  }

  function Consumed(entries: seq<Echo>, fp: string, now: real): (seq<Echo>, bool) {
    if fp == "" then (entries, false)
    else
      var live := Gc(entries, now);
      (WithoutFirst(live, fp), FirstOf(live, fp) < |live|)
  }

  class EchoSuppressor {
    const ttl: real
    const maxEntries: nat
    var entries: seq<Echo>

    constructor (ttl: real, maxEntries: nat)
      ensures this.ttl == ttl && this.maxEntries == maxEntries && entries == []
    {
      this.ttl, this.maxEntries, entries := ttl, maxEntries, [];
    }

    method Collect(now: real)
      modifies this
      ensures entries == Gc(old(entries), now)
    {
      while entries != [] && entries[0].expiresAt < now
        invariant Gc(entries, now) == Gc(old(entries), now)
        decreases |entries|
      {
        entries := entries[1..];
      }
    }

    method Remember(fp: string, now: real)
      modifies this
      ensures entries == Remembered(old(entries), fp, now, ttl, maxEntries)
    {
      if fp == "" {
        return;
      }
      Collect(now);
      entries := entries + [Echo(fp, now + ttl)];
      ghost var full := entries;
      while |entries| > maxEntries
        invariant |entries| <= |full| && entries == full[|full| - |entries|..]
        invariant |entries| >= maxEntries || entries == full
      {
        entries := entries[1..];
      }
    }

    method Consume(fp: string, now: real) returns (found: bool)
      modifies this
      ensures (entries, found) == Consumed(old(entries), fp, now)
    {
      if fp == "" {
        return false;
      }
      Collect(now);
      for i := 0 to |entries|
        invariant entries == Gc(old(entries), now)
        invariant forall j | 0 <= j < i :: entries[j].fingerprint != fp
      {
        if entries[i].fingerprint == fp {
          assert FirstOf(entries, fp) == i;
          entries := entries[..i] + entries[i + 1..];
          return true;
        }
      }
      found := false;
    }
  }

  // ---- The log ---------------------------------------------------------------------------------

  /** A fingerprint as remembered; `gone` once an echo consumed it or newer ones evicted it. */
  datatype Copy = Copy(fingerprint: string, at: real, gone: bool)

  predicate Alive(c: Copy, now: real, ttl: real) {
    !c.gone && now <= c.at + ttl
  }

  function Live(log: seq<Copy>, now: real, ttl: real): seq<Echo> {
    if log == [] then []
    else
      (if Alive(log[0], now, ttl) then [Echo(log[0].fingerprint, log[0].at + ttl)] else []) + Live(log[1..], now, ttl)
  }

  /** The oldest `n` live copies go. */
  function Evict(log: seq<Copy>, now: real, ttl: real, n: nat): seq<Copy>
    decreases |log|
  {
    if n == 0 || log == [] then log
    else if Alive(log[0], now, ttl) then [log[0].(gone := true)] + Evict(log[1..], now, ttl, n - 1)
    else [log[0]] + Evict(log[1..], now, ttl, n)
  }

  /** The oldest live copy of the fingerprint goes. */
  function Take(log: seq<Copy>, fp: string, now: real, ttl: real): seq<Copy> {
    if log == [] then []
    else if Alive(log[0], now, ttl) && log[0].fingerprint == fp then [log[0].(gone := true)] + log[1..]
    else [log[0]] + Take(log[1..], fp, now, ttl)
  }

  /** An unconsumed, unevicted copy was remembered at most `ttl` ago. */
  predicate Holds(log: seq<Copy>, fp: string, now: real, ttl: real) {
    exists i | 0 <= i < |log| :: Alive(log[i], now, ttl) && log[i].fingerprint == fp
  }

  datatype Op = Remembering(fp: string, now: real) | Consuming(fp: string, now: real)

  function LogStep(log: seq<Copy>, op: Op, ttl: real, max: nat): (seq<Copy>, bool) {
    match op
    case Remembering(fp, now) =>
      if fp == "" then (log, false)
      else
        var longer := log + [Copy(fp, now, false)];
        var live := |Live(longer, now, ttl)|;
        (Evict(longer, now, ttl, if live > max then live - max else 0), false)
    case Consuming(fp, now) =>
      if fp == "" then (log, false) else (Take(log, fp, now, ttl), Holds(log, fp, now, ttl))
  }

  function QueueStep(entries: seq<Echo>, op: Op, ttl: real, max: nat): (seq<Echo>, bool) {
    match op
    case Remembering(fp, now) => (Remembered(entries, fp, now, ttl, max), false)
    case Consuming(fp, now) => Consumed(entries, fp, now)
  }

  // ---- Refinement --------------------------------------------------------------------------------

  predicate InOrder(log: seq<Copy>, last: real) {
    && (forall i, j | 0 <= i < j < |log| :: log[i].at <= log[j].at)
    && (forall i | 0 <= i < |log| :: log[i].at <= last)
  }

  predicate Sorted(entries: seq<Echo>) {
    forall i, j | 0 <= i < j < |entries| :: entries[i].expiresAt <= entries[j].expiresAt
  }

  function Unexpired(entries: seq<Echo>, now: real): seq<Echo> {
    if entries == [] then []
    else (if entries[0].expiresAt >= now then [entries[0]] else []) + Unexpired(entries[1..], now)
  }

  /** On a queue sorted by expiry, looking at the front alone removes exactly what has expired. */
  lemma {:induction false} GcIsComplete(entries: seq<Echo>, now: real)
    requires Sorted(entries)
    ensures Gc(entries, now) == Unexpired(entries, now)
  {
    if entries != [] {
      GcIsComplete(entries[1..], now);
      if entries[0].expiresAt >= now {
        NothingExpired(entries, now);
      }
    }
  }

  lemma {:induction false} NothingExpired(entries: seq<Echo>, now: real)
    requires forall i | 0 <= i < |entries| :: entries[i].expiresAt >= now
    ensures Unexpired(entries, now) == entries
  {
    if entries != [] {
      NothingExpired(entries[1..], now);
    }
  }

  lemma {:induction false} LiveSorted(log: seq<Copy>, now: real, ttl: real, last: real)
    requires InOrder(log, last)
    ensures Sorted(Live(log, now, ttl))
    ensures forall i | 0 <= i < |Live(log, now, ttl)| && log != [] ::
      log[0].at + ttl <= Live(log, now, ttl)[i].expiresAt
  {
    if log != [] {
      LiveSorted(log[1..], now, ttl, last);
      if |log| > 1 {
        assert log[0].at <= log[1..][0].at;
      }
    }
  }

  /** As time goes on, the live copies are the unexpired among those that were live. */
  lemma {:induction false} LiveLater(log: seq<Copy>, before: real, now: real, ttl: real)
    requires before <= now
    ensures Unexpired(Live(log, before, ttl), now) == Live(log, now, ttl)
  {
    if log != [] {
      LiveLater(log[1..], before, now, ttl);
      if Alive(log[0], before, ttl) {
        assert Live(log, before, ttl)[1..] == Live(log[1..], before, ttl);
      } else {
        assert Live(log, before, ttl) == Live(log[1..], before, ttl);
      }
    }
  }

  lemma {:induction false} LiveConcat(a: seq<Copy>, b: seq<Copy>, now: real, ttl: real)
    ensures Live(a + b, now, ttl) == Live(a, now, ttl) + Live(b, now, ttl)
  {
    if a == [] {
      assert a + b == b;
    } else {
      LiveConcat(a[1..], b, now, ttl);
      assert (a + b)[1..] == a[1..] + b;
    }
  }

  lemma {:induction false} EvictDropsOldest(log: seq<Copy>, now: real, ttl: real, n: nat)
    requires n <= |Live(log, now, ttl)|
    ensures Live(Evict(log, now, ttl, n), now, ttl) == Live(log, now, ttl)[n..]
    ensures |Evict(log, now, ttl, n)| == |log|
    ensures forall i | 0 <= i < |log| :: Evict(log, now, ttl, n)[i].at == log[i].at
    decreases |log|
  {
    if n > 0 && log != [] {
      EvictDropsOldest(log[1..], now, ttl, if Alive(log[0], now, ttl) then n - 1 else n);
      assert Evict(log, now, ttl, n)[1..] == Evict(log[1..], now, ttl, if Alive(log[0], now, ttl) then n - 1 else n);
    }
  }

  lemma HoldsTail(log: seq<Copy>, fp: string, now: real, ttl: real)
    requires log != []
    ensures Holds(log, fp, now, ttl) <==>
      (Alive(log[0], now, ttl) && log[0].fingerprint == fp) || Holds(log[1..], fp, now, ttl)
  {
    if i :| 1 <= i < |log| && Alive(log[i], now, ttl) && log[i].fingerprint == fp {
      assert log[1..][i - 1] == log[i];
    }
    if i :| 0 <= i < |log[1..]| && Alive(log[1..][i], now, ttl) && log[1..][i].fingerprint == fp {
      assert log[i + 1] == log[1..][i];
    }
  }

  lemma {:induction false} WithoutFirstCons(e: Echo, rest: seq<Echo>, fp: string)
    ensures WithoutFirst([e] + rest, fp) == if e.fingerprint == fp then rest else [e] + WithoutFirst(rest, fp)
    ensures FirstOf([e] + rest, fp) == if e.fingerprint == fp then 0 else 1 + FirstOf(rest, fp)
  {
    var all, i := [e] + rest, FirstOf(rest, fp);
    assert all[1..] == rest;
    if e.fingerprint != fp && i < |rest| {
      assert all[..i + 1] == [e] + rest[..i];
      assert all[i + 2..] == rest[i + 1..];
    }
  }

  lemma {:induction false} TakeDropsFirst(log: seq<Copy>, fp: string, now: real, ttl: real)
    ensures Live(Take(log, fp, now, ttl), now, ttl) == WithoutFirst(Live(log, now, ttl), fp)
  {
    if log != [] {
      var rest, taken := Live(log[1..], now, ttl), Take(log, fp, now, ttl);
      TakeDropsFirst(log[1..], fp, now, ttl);
      if Alive(log[0], now, ttl) {
        WithoutFirstCons(Echo(log[0].fingerprint, log[0].at + ttl), rest, fp);
        if log[0].fingerprint == fp {
          assert taken[1..] == log[1..] && taken[0].gone;
        } else {
          assert taken[1..] == Take(log[1..], fp, now, ttl) && taken[0] == log[0];
        }
      } else {
        assert taken[1..] == Take(log[1..], fp, now, ttl) && taken[0] == log[0];
        assert [] + rest == rest;
      }
    }
  }

  lemma {:induction false} FoundIfHeld(log: seq<Copy>, fp: string, now: real, ttl: real)
    ensures FirstOf(Live(log, now, ttl), fp) < |Live(log, now, ttl)| <==> Holds(log, fp, now, ttl)
  {
    if log != [] {
      FoundIfHeld(log[1..], fp, now, ttl);
      HoldsTail(log, fp, now, ttl);
      var rest := Live(log[1..], now, ttl);
      if Alive(log[0], now, ttl) {
        assert ([Echo(log[0].fingerprint, log[0].at + ttl)] + rest)[1..] == rest;
      } else {
        assert [] + rest == rest;
      }
    }
  }

  lemma {:induction false} TakeKeepsTimes(log: seq<Copy>, fp: string, now: real, ttl: real)
    ensures |Take(log, fp, now, ttl)| == |log|
    ensures forall i | 0 <= i < |log| :: Take(log, fp, now, ttl)[i].at == log[i].at
  {
    if log != [] {
      TakeKeepsTimes(log[1..], fp, now, ttl);
    }
  }

  /** The queue is the part of the log that was live when the queue was last touched, at `last`. */
  predicate Mirrors(entries: seq<Echo>, log: seq<Copy>, last: real, ttl: real) {
    InOrder(log, last) && entries == Live(log, last, ttl)
  }

  lemma CollectMirrors(entries: seq<Echo>, log: seq<Copy>, last: real, now: real, ttl: real)
    requires Mirrors(entries, log, last, ttl) && last <= now
    ensures Gc(entries, now) == Live(log, now, ttl)
  {
    LiveSorted(log, last, ttl, last);
    GcIsComplete(entries, now);
    LiveLater(log, last, now, ttl);
  }

  lemma RememberLive(entries: seq<Echo>, log: seq<Copy>, fp: string, now: real, ttl: real, max: nat)
    requires ttl >= 0.0 && Gc(entries, now) == Live(log, now, ttl) && fp != ""
    ensures Remembered(entries, fp, now, ttl, max) == Live(LogStep(log, Remembering(fp, now), ttl, max).0, now, ttl)
  {
    var c := Copy(fp, now, false);
    LiveConcat(log, [c], now, ttl);
    assert Live([c], now, ttl) == [Echo(fp, now + ttl)];
    var live := Live(log + [c], now, ttl);
    var n := if |live| > max then |live| - max else 0;
    assert live == Gc(entries, now) + [Echo(fp, now + ttl)];
    assert Newest(live, max) == live[n..];
    assert LogStep(log, Remembering(fp, now), ttl, max).0 == Evict(log + [c], now, ttl, n);
    EvictDropsOldest(log + [c], now, ttl, n);
  }

  lemma RememberInOrder(log: seq<Copy>, last: real, fp: string, now: real, ttl: real, n: nat)
    requires InOrder(log, last) && last <= now && n <= |Live(log + [Copy(fp, now, false)], now, ttl)|
    ensures InOrder(Evict(log + [Copy(fp, now, false)], now, ttl, n), now)
  {
    EvictDropsOldest(log + [Copy(fp, now, false)], now, ttl, n);
  }

  lemma RememberMirrors(entries: seq<Echo>, log: seq<Copy>, last: real, fp: string, now: real, ttl: real, max: nat)
    requires ttl >= 0.0 && Mirrors(entries, log, last, ttl) && last <= now && fp != ""
    ensures Mirrors(Remembered(entries, fp, now, ttl, max), LogStep(log, Remembering(fp, now), ttl, max).0, now, ttl)
  {
    CollectMirrors(entries, log, last, now, ttl);
    RememberLive(entries, log, fp, now, ttl, max);
    var live := |Live(log + [Copy(fp, now, false)], now, ttl)|;
    RememberInOrder(log, last, fp, now, ttl, if live > max then live - max else 0);
  }

  /** One operation on the queue answers as the log does, and the queue goes on mirroring the log. */
  lemma StepMirrors(entries: seq<Echo>, log: seq<Copy>, last: real, op: Op, ttl: real, max: nat)
    requires ttl >= 0.0 && Mirrors(entries, log, last, ttl) && last <= op.now
    ensures var (entries', found) := QueueStep(entries, op, ttl, max);
      var (log', holds) := LogStep(log, op, ttl, max);
      found == holds && Mirrors(entries', log', if op.fp == "" then last else op.now, ttl)
  {
    if op.fp != "" {
      match op {
        case Remembering(fp, now) =>
          RememberMirrors(entries, log, last, fp, now, ttl, max);
        case Consuming(fp, now) =>
          CollectMirrors(entries, log, last, now, ttl);
          TakeDropsFirst(log, fp, now, ttl);
          FoundIfHeld(log, fp, now, ttl);
          TakeKeepsTimes(log, fp, now, ttl);
      }
    }
  }

  /** The times of the operations never go back. */
  predicate Monotone(ops: seq<Op>, from: real)
    decreases |ops|
  {
    ops == [] || (from <= ops[0].now && Monotone(ops[1..], ops[0].now))
  }

  function QueueRun(entries: seq<Echo>, ops: seq<Op>, ttl: real, max: nat): seq<bool>
    decreases |ops|
  {
    if ops == [] then []
    else
      var (next, found) := QueueStep(entries, ops[0], ttl, max);
      [found] + QueueRun(next, ops[1..], ttl, max)
  }

  function LogRun(log: seq<Copy>, ops: seq<Op>, ttl: real, max: nat): seq<bool>
    decreases |ops|
  {
    if ops == [] then []
    else
      var (next, holds) := LogStep(log, ops[0], ttl, max);
      [holds] + LogRun(next, ops[1..], ttl, max)
  }

  /** Over every run with a monotone clock the queue answers each `consume` as the log of timed copies does. */
  lemma {:induction false} QueueRefinesLog(entries: seq<Echo>, log: seq<Copy>, last: real, ops: seq<Op>, ttl: real,
      max: nat, now: real)
    requires ttl >= 0.0 && last <= now && Mirrors(entries, log, last, ttl) && Monotone(ops, now)
    ensures QueueRun(entries, ops, ttl, max) == LogRun(log, ops, ttl, max)
    decreases |ops|
  {
    if ops != [] {
      StepMirrors(entries, log, last, ops[0], ttl, max);
      QueueRefinesLog(QueueStep(entries, ops[0], ttl, max).0, LogStep(log, ops[0], ttl, max).0,
        if ops[0].fp == "" then last else ops[0].now, ops[1..], ttl, max, ops[0].now);
    }
  }
}
