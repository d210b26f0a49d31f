/** Bounded duplicate filters: the relay's `_mark_seen` and the tab's cache of processed requests, against the history
    of marks. */
module SeenFilter {
  import opened Sequences

  /** The sequence without its first `id`. */
  function Remove(ids: seq<string>, id: string): seq<string> {
    if ids == [] then []
    else if ids[0] == id then ids[1..]
    else [ids[0]] + Remove(ids[1..], id)
  }

  /** `_mark_seen` on the keys of the ordered dict, oldest first, and whether the id was among them. */
  function Mark(ids: seq<string>, id: string, n: nat): (seq<string>, bool) {
    if id in ids then (Remove(ids, id) + [id], true)
    else (Newest(ids + [id], n), false)
  }

  /** The relay's ordered dict of ids. */
  class RelayFilter {
    const size: nat
    var ids: seq<string>

    constructor (size: nat)
      ensures this.size == size && ids == []
    {
      this.size, ids := size, [];
    }

    method MarkSeen(id: string) returns (seen: bool)
      requires |ids| <= size
      modifies this
      ensures (ids, seen) == Mark(old(ids), id, size)
      ensures |ids| <= size
    {
      RemoveShortens(ids, id);
      if id in ids {
        ids := Remove(ids, id) + [id];
        return true;
      }
      ids := ids + [id];
      if |ids| > size {
        ids := ids[1..];
      }
      seen := false;
    }
  }

  /** The browser tab's map of request ids to result envelopes, in insertion order. */
  class ProcessedResults<T> {
    const limit: nat
    var ids: seq<string>
    var results: map<string, T>

    constructor (limit: nat)
      ensures this.limit == limit && ids == [] && results == map[] && Valid()
    {
      this.limit, ids, results := limit, [], map[];
    }

    ghost predicate Valid()
      reads this
    {
      Distinct(ids) && |ids| <= limit && results.Keys == Ids(ids)
    }

    method Remember(id: string, result: T)
      requires Valid()
      modifies this
      ensures Valid() && ids == Mark(old(ids), id, limit).0
      ensures id in ids ==> results[id] == result
      ensures forall other | other in ids && other != id ::
        other in old(results) && results[other] == old(results)[other]
    {
      RemoveDistinct(ids, id);
      RemoveShortens(ids, id);
      if id in results {
        ids := Remove(ids, id);
        results := results - {id};
      }
      IdsConcat(ids, [id]);
      ids := ids + [id];
      results := results[id := result];
      ghost var all := results;
      assert forall other | other in all && other != id :: other in old(results) && all[other] == old(results)[other];
      DropOldest();
      assert forall other | other in ids :: other in Ids(ids);
    }

    method DropOldest()
      requires Distinct(ids) && results.Keys == Ids(ids)
      modifies this
      ensures Valid() && ids == Newest(old(ids), limit)
      ensures forall id | id in results :: id in old(results) && results[id] == old(results)[id]
    {
      hide Distinct, Ids;
      while |ids| > limit
        invariant |ids| <= |old(ids)| && ids == old(ids)[|old(ids)| - |ids|..]
        invariant |ids| >= limit || ids == old(ids)
        invariant Distinct(ids) && results.Keys == Ids(ids)
        invariant forall id | id in results :: id in old(results) && results[id] == old(results)[id]
      {
        FirstGone(ids);
        results := results - {ids[0]};
        ids := ids[1..];
      }
    }
  }

  lemma FirstGone(ids: seq<string>)
    requires Distinct(ids) && ids != []
    ensures Distinct(ids[1..]) && Ids(ids[1..]) == Ids(ids) - {ids[0]}
  {
    RemoveDistinct(ids, ids[0]);
  }

  predicate Distinct(ids: seq<string>) {
    forall i, j | 0 <= i < j < |ids| :: ids[i] != ids[j]
  }

  function Ids(ids: seq<string>): set<string> {
    set id | id in ids
  }

  lemma {:induction false} RemoveShortens(ids: seq<string>, id: string)
    ensures |Remove(ids, id)| == if id in ids then |ids| - 1 else |ids|
    ensures id !in ids ==> Remove(ids, id) == ids
  {
    if ids != [] {
      RemoveShortens(ids[1..], id);
    }
  }

  lemma IdsConcat(a: seq<string>, b: seq<string>)
    ensures Ids(a + b) == Ids(a) + Ids(b)
  {
  }

  lemma {:induction false} RemoveDistinct(ids: seq<string>, id: string)
    requires Distinct(ids)
    ensures Distinct(Remove(ids, id)) && Ids(Remove(ids, id)) == Ids(ids) - {id}
    ensures |Remove(ids, id)| == if id in ids then |ids| - 1 else |ids|
  {
    if ids != [] {
      assert ids == [ids[0]] + ids[1..];
      IdsConcat([ids[0]], ids[1..]);
      assert ids[0] !in Ids(ids[1..]);
      if ids[0] != id {
        var rest := Remove(ids[1..], id);
        RemoveDistinct(ids[1..], id);
        IdsConcat([ids[0]], rest);
        assert forall i | 0 <= i < |rest| :: rest[i] in Ids(rest);
      }
    }
  }

  lemma DistinctApart(a: seq<string>, b: seq<string>, x: string)
    requires Distinct(a + b) && x in a
    ensures x !in b
  {
    var i :| 0 <= i < |a| && a[i] == x;
    assert (a + b)[i] == x;
    assert forall j | 0 <= j < |b| :: (a + b)[|a| + j] == b[j];
  }

  // ---- The history of marks ------------------------------------------------------------------------

  /** The ids of a history, each once, by their last mark. */
  function Recency(history: seq<string>): seq<string> {
    if history == [] then []
    else
      var n := |history| - 1;
      Remove(Recency(history[..n]), history[n]) + [history[n]]
  }

  function FilterAfter(history: seq<string>, size: nat): seq<string> {
    if history == [] then []
    else Mark(FilterAfter(history[..|history| - 1], size), history[|history| - 1], size).0
  }

  lemma {:induction false} RecencyDistinct(history: seq<string>)
    ensures Distinct(Recency(history)) && Ids(Recency(history)) == Ids(history)
  {
    if history != [] {
      var n := |history| - 1;
      var before, id := history[..n], history[n];
      RecencyDistinct(before);
      RemoveDistinct(Recency(before), id);
      var rest := Remove(Recency(before), id);
      assert id !in Ids(rest);
      assert forall i | 0 <= i < |rest| :: rest[i] in Ids(rest);
      assert history == before + [id];
      assert Ids(history) == Ids(before) + {id};
      assert Ids(rest + [id]) == Ids(rest) + {id};
    }
  }

  lemma {:induction false} RemoveConcat(a: seq<string>, b: seq<string>, id: string)
    ensures Remove(a + b, id) == if id in a then Remove(a, id) + b else a + Remove(b, id)
  {
    if a == [] {
      assert a + b == b;
    } else {
      assert (a + b)[1..] == a[1..] + b;
      RemoveConcat(a[1..], b, id);
    }
  }

  lemma NewestSuffix(a: seq<string>, b: seq<string>, n: nat)
    requires |b| >= n
    ensures Newest(a + b, n) == Newest(b, n)
  {
  }

  /** Marking an id moves a window of the newest ids just as it moves the whole list. */
  lemma {:induction false} MarkNewest(all: seq<string>, id: string, n: nat)
    requires Distinct(all)
    ensures Mark(Newest(all, n), id, n).0 == Newest(Remove(all, id) + [id], n)
  {
    RemoveShortens(all, id);
    hide Remove, Distinct;
    if |all| > n {
      var older, kept := all[..|all| - n], all[|all| - n..];
      assert all == older + kept;
      MarkWindow(older, kept, id);
    }
  }

  lemma {:induction false} MarkWindow(older: seq<string>, kept: seq<string>, id: string)
    requires Distinct(older + kept) && older != []
    ensures Mark(kept, id, |kept|).0 == Newest(Remove(older + kept, id) + [id], |kept|)
  {
    hide Remove, Distinct;
    RemoveConcat(older, kept, id);
    RemoveShortens(kept, id);
    RemoveShortens(older, id);
    if id in kept {
      if id in older {
        DistinctApart(older, kept, id);
      }
      assert Remove(older + kept, id) + [id] == older + (Remove(kept, id) + [id]);
      NewestSuffix(older, Remove(kept, id) + [id], |kept|);
    } else {
      var rest := Remove(older, id);
      assert Remove(older + kept, id) + [id] == rest + (kept + [id]);
      NewestSuffix(rest, kept + [id], |kept|);
    }
  }

  /** After any history of marks the filter holds exactly the most recently marked distinct ids, in the order of their
      last mark. */
  lemma {:induction false} FilterHoldsNewest(history: seq<string>, size: nat)
    ensures FilterAfter(history, size) == Newest(Recency(history), size)
  {
    if history != [] {
      var n := |history| - 1;
      FilterHoldsNewest(history[..n], size);
      RecencyDistinct(history[..n]);
      MarkNewest(Recency(history[..n]), history[n], size);
    }
  }

  lemma RemoveAround(older: seq<string>, id: string, newer: seq<string>, x: string)
    requires Distinct(older + [id] + newer) && x != id
    ensures Remove(older + [id] + newer, x) == Remove(older, x) + [id] + Remove(newer, x)
  {
    RemoveConcat(older + [id], newer, x);
    RemoveConcat(older, [id], x);
    RemoveShortens(older, x);
    RemoveShortens(newer, x);
    if x in older {
      DistinctApart(older + [id], newer, x);
    }
  }

  /** In the order of last marks, what comes after an id is what was marked after it. */
  lemma {:induction false} RecencyAfter(before: seq<string>, id: string, after: seq<string>)
    returns (older: seq<string>)
    requires id !in after
    ensures Recency(before + [id] + after) == older + [id] + Recency(after)
    decreases |after|
  {
    hide Remove, Distinct;
    var history := before + [id] + after;
    if after == [] {
      assert history[..|before|] == before;
      older := Remove(Recency(before), id);
    } else {
      var n := |after| - 1;
      assert history[..|history| - 1] == before + [id] + after[..n];
      var o := RecencyAfter(before, id, after[..n]);
      RecencyDistinct(before + [id] + after[..n]);
      RemoveAround(o, id, Recency(after[..n]), after[n]);
      older := Remove(o, after[n]);
    }
  }

  lemma {:induction false} DistinctSize(ids: seq<string>)
    requires Distinct(ids)
    ensures |Ids(ids)| == |ids|
  {
    if ids != [] {
      DistinctSize(ids[1..]);
      assert Ids(ids) == {ids[0]} + Ids(ids[1..]);
    }
  }

  /** A mark reports "seen" exactly when the id was marked before and, since then, fewer than `size` other ids were. */
  lemma SeenIff(before: seq<string>, id: string, after: seq<string>, size: nat)
    requires id !in after
    ensures id in FilterAfter(before + [id] + after, size) <==> |Ids(after)| < size
  {
    var history := before + [id] + after;
    FilterHoldsNewest(history, size);
    var older := RecencyAfter(before, id, after);
    RecencyDistinct(history);
    RecencyDistinct(after);
    DistinctSize(Recency(after));
    var r := Recency(history);
    assert r[|older|] == id;
    if |r| > size {
      if |Ids(after)| < size {
        assert r[|r| - size..][|older| - (|r| - size)] == id;
      } else {
        assert forall i | |older| < i < |r| :: r[i] != id;
      }
    }
  }

  lemma {:induction false} NotSeenIfNew(history: seq<string>, id: string, size: nat)
    requires id !in history
    ensures id !in FilterAfter(history, size)
  {
    FilterHoldsNewest(history, size);
    RecencyDistinct(history);
    assert id !in Ids(Recency(history));
  }
}
