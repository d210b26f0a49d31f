/** Patches with dotted keys: `expandDotted` of the Foundry module and `_dotted_get` of the batch executor. */
module Dotted {
  import opened Wrappers
  import opened Trees
  import opened Paths
  import Text

  /** The items of a patch in the order in which they are walked. */
  type Patch = seq<(string, Tree)>

  function PathOf(key: string): Path {
    Text.Split(key)
  }

  /** `_dotted_get`: absent, null and led through a non-dict all read as `None`. */
  function DottedGet(t: Tree, key: string): Tree {
    match GetAt(t, PathOf(key))
    case Some(v) => v
    case None => Null
  }

  /** The walk of `expandDotted` for a key with dots: what is no object on the way is replaced by `{}`. */
  function PutPath(props: map<string, Tree>, path: Path, v: Tree): map<string, Tree>
    decreases |path|
  {
    if |path| == 1 then props[path[0] := v]
    else
      var next := if path[0] in props && (props[path[0]].Dict? || props[path[0]].Arr?) then props[path[0]]
        else Dict(map[]);
      props[path[0] := next.(props := PutPath(next.props, path[1..], v))]
  }

  /** One entry: a key without dots merges an object into an object and otherwise overwrites. */
  function Put(out: map<string, Tree>, key: string, v: Tree): map<string, Tree> {
    if '.' in key then PutPath(out, PathOf(key), v)
    else if key in out && out[key].Dict? && v.Dict? then out[key := Merge(out[key], v)]
    else out[key := v]
  }

  function Expand(patch: Patch): map<string, Tree> {
    if patch == [] then map[] else Put(Expand(patch[..|patch| - 1]), patch[|patch| - 1].0, patch[|patch| - 1].1)
  }

  // ---- The walk of a moving reference ----------------------------------------------------------------

  predicate IsObject(t: Tree) {
    t.Dict? || t.Arr?
  }

  /** Every step of the path leads into an object. */
  predicate Walks(props: map<string, Tree>, path: seq<string>)
    decreases |path|
  {
    path == [] || (path[0] in props && IsObject(props[path[0]]) && Walks(props[path[0]].props, path[1..]))
  }

  /** The object that a reference at the path refers to. */
  function ObjectAt(props: map<string, Tree>, path: seq<string>): map<string, Tree>
    requires Walks(props, path)
    decreases |path|
  {
    if path == [] then props else ObjectAt(props[path[0]].props, path[1..])
  }

  /** `cur[key] = v` for a reference `cur` at the path. */
  function Assign(props: map<string, Tree>, path: seq<string>, key: string, v: Tree): map<string, Tree>
    requires Walks(props, path)
    decreases |path|
  {
    if path == [] then props[key := v]
    else props[path[0] := props[path[0]].(props := Assign(props[path[0]].props, path[1..], key, v))]
  }

  /** What the loop does before it moves the reference on. */
  function Prepare(props: map<string, Tree>, path: seq<string>, key: string): map<string, Tree>
    requires Walks(props, path)
  {
    var cur := ObjectAt(props, path);
    if key !in cur || !IsObject(cur[key]) then Assign(props, path, key, Dict(map[])) else props
  }

  lemma {:induction false} PrepareKeeps(props: map<string, Tree>, parts: Path, i: nat, v: Tree)
    requires i < |parts| - 1 && Walks(props, parts[..i])
    ensures var next := Prepare(props, parts[..i], parts[i]);
      Walks(next, parts[..i + 1]) && PutPath(next, parts, v) == PutPath(props, parts, v)
    decreases i
  {
    var next := Prepare(props, parts[..i], parts[i]);
    assert parts[..i + 1][0] == parts[0];
    if i == 0 {
      assert parts[..1][1..] == [];
    } else {
      var tail := parts[1..];
      assert parts[..i][1..] == tail[..i - 1] && parts[..i + 1][1..] == tail[..i] && tail[i - 1] == parts[i];
      PrepareKeeps(props[parts[0]].props, tail, i - 1, v);
      assert next[parts[0]].props == Prepare(props[parts[0]].props, tail[..i - 1], tail[i - 1]);
    }
  }

  lemma {:induction false} AssignLast(props: map<string, Tree>, parts: Path, v: Tree)
    requires Walks(props, parts[..|parts| - 1])
    ensures Assign(props, parts[..|parts| - 1], parts[|parts| - 1], v) == PutPath(props, parts, v)
    decreases |parts|
  {
    var n := |parts| - 1;
    if n > 0 {
      assert parts[..n][1..] == parts[1..][..n - 1];
      AssignLast(props[parts[0]].props, parts[1..], v);
    }
  }

  /** The inner loop; the reference `cur` is the object at `parts[..i]`. */
  method WalkAndSet(out: map<string, Tree>, parts: Path, v: Tree) returns (r: map<string, Tree>)
    ensures r == PutPath(out, parts, v)
  {
    r := out;
    for i := 0 to |parts| - 1
      invariant Walks(r, parts[..i]) && PutPath(r, parts, v) == PutPath(out, parts, v)
    {
      PrepareKeeps(r, parts, i, v);
      var cur := ObjectAt(r, parts[..i]);
      if parts[i] !in cur || !IsObject(cur[parts[i]]) {
        r := Assign(r, parts[..i], parts[i], Dict(map[]));
      }
    }
    AssignLast(r, parts, v);
    r := Assign(r, parts[..|parts| - 1], parts[|parts| - 1], v);
  }

  method ExpandDotted(patch: Patch) returns (out: map<string, Tree>)
    ensures out == Expand(patch)
  {
    out := map[];
    for i := 0 to |patch|
      invariant out == Expand(patch[..i])
    {
      var (key, value) := patch[i];
      assert patch[..i + 1][..i] == patch[..i];
      if '.' !in key {
        if key in out && out[key].Dict? && value.Dict? {
          out := out[key := Merge(out[key], value)];
        } else {
          out := out[key := value];
        }
      } else {
        out := WalkAndSet(out, PathOf(key), value);
      }
    }
    assert patch[..|patch|] == patch;
  }

  /** No key, cut at its dots, leads through another entry's key. */
  predicate PrefixFree(patch: Patch) {
    forall i, j | 0 <= i < j < |patch| :: Apart(PathOf(patch[i].0), PathOf(patch[j].0))
  }

  /** On the keys as written: one key is another, or continues it after a dot. */
  predicate Covers(key: string, other: string) {
    key == other || key + "." <= other
  }

  lemma {:induction false} CoversIsPathPrefix(key: string, other: string)
    ensures PathOf(key) <= PathOf(other) <==> Covers(key, other)
  {
    var p, q := Text.Split(key), Text.Split(other);
    if key == "" {
      if other != "" {
        assert (key + ".")[0] == '.';
        assert key + "." == ".";
        if other[0] == '.' {
          assert q[0] == "";
        }
      }
    } else if other == "" {
      assert q == [""];
      if key[0] != '.' {
        assert p[0] != "";
      } else {
        assert |p| >= 2;
      }
    } else {
      CoversIsPathPrefix(key[1..], other[1..]);
      var p', q' := Text.Split(key[1..]), Text.Split(other[1..]);
      assert key == [key[0]] + key[1..] && other == [other[0]] + other[1..];
      assert key + "." == [key[0]] + (key[1..] + ".");
      if key[0] == other[0] {
        assert Covers(key, other) <==> Covers(key[1..], other[1..]) by {
          if key + "." <= other {
            assert key[1..] + "." == (key + ".")[1..];
          }
          if key[1..] + "." <= other[1..] {
            assert key + "." <= other;
          }
        }
        if key[0] == '.' {
          assert p[1..] == p' && q[1..] == q';
          PrefixTail(p, q);
        } else {
          assert p[0] == [key[0]] + p'[0] && q[0] == [key[0]] + q'[0];
          assert p[0] == q[0] <==> p'[0] == q'[0] by {
            assert p[0][1..] == p'[0] && q[0][1..] == q'[0];
          }
          assert p[1..] == p'[1..] && q[1..] == q'[1..];
          PrefixTail(p, q);
          PrefixTail(p', q');
        }
      } else {
        assert !Covers(key, other) by {
          assert (key + ".")[0] == key[0];
        }
        assert p[0] != q[0] by {
          if key[0] == '.' {
            assert |q[0]| > 0;
          } else if other[0] != '.' {
            assert p[0][0] != q[0][0];
          }
        }
      }
    }
  }

  /** So whether a patch is prefix-free can be told from its keys as written. */
  lemma PrefixFreeOnKeys(patch: Patch)
    ensures PrefixFree(patch) <==>
      forall i, j | 0 <= i < j < |patch| :: !Covers(patch[i].0, patch[j].0) && !Covers(patch[j].0, patch[i].0)
  {
    forall i, j | 0 <= i < j < |patch|
      ensures Apart(PathOf(patch[i].0), PathOf(patch[j].0)) <==>
        !Covers(patch[i].0, patch[j].0) && !Covers(patch[j].0, patch[i].0)
    {
      CoversIsPathPrefix(patch[i].0, patch[j].0);
      CoversIsPathPrefix(patch[j].0, patch[i].0);
    }
  }

  lemma PrefixTail(p: Path, q: Path)
    ensures p <= q <==> p[0] == q[0] && p[1..] <= q[1..]
  {
    assert p == [p[0]] + p[1..] && q == [q[0]] + q[1..];
  }

  // ---- What the expansion means ----------------------------------------------------

  lemma {:induction false} PutPathFree(props: map<string, Tree>, path: Path, v: Tree)
    requires Free(Dict(props), path)
    ensures Dict(PutPath(props, path, v)) == Merge(Dict(props), Build(path, v))
    decreases |path|
  {
    if |path| > 1 {
      var next := if path[0] in props then props[path[0]] else Dict(map[]);
      PutPathFree(next.props, path[1..], v);
      MergeIdentity(Build(path[1..], v));
      MergeOne(props, path[0], Build(path[1..], v));
    } else {
      assert path[1..] == [];
      MergeOne(props, path[0], v);
    }
  }

  lemma MergeOne(props: map<string, Tree>, key: string, v: Tree)
    ensures Merge(Dict(props), Dict(map[key := v])) ==
      Dict(props[key := if key in props then Merge(props[key], v) else v])
  {
    assert Merge(Dict(props), Dict(map[key := v])).props ==
      props[key := if key in props then Merge(props[key], v) else v];
  }

  lemma PutFree(out: map<string, Tree>, key: string, v: Tree)
    requires Free(Dict(out), PathOf(key))
    ensures Dict(Put(out, key, v)) == Merge(Dict(out), Build(PathOf(key), v))
  {
    PutPathFree(out, PathOf(key), v);
  }

  /** A place that no entry of the patch touches is free in the expansion. */
  lemma {:induction false} ExpandFree(patch: Patch, p: Path)
    requires PrefixFree(patch) && forall i | 0 <= i < |patch| :: Apart(PathOf(patch[i].0), p)
    ensures Free(Dict(Expand(patch)), p)
    decreases |patch|, 1
  {
    if patch != [] {
      var n := |patch| - 1;
      ExpandFree(patch[..n], p);
      ExpandStep(patch);
      FreeMerged(Dict(Expand(patch[..n])), p, PathOf(patch[n].0), patch[n].1);
    }
  }

  /** Each further entry of a prefix-free patch is a plain write into the tree built so far. */
  lemma {:induction false} ExpandStep(patch: Patch)
    requires patch != [] && PrefixFree(patch)
    ensures PrefixFree(patch[..|patch| - 1])
    ensures Dict(Expand(patch)) == Merge(Dict(Expand(patch[..|patch| - 1])),
      Build(PathOf(patch[|patch| - 1].0), patch[|patch| - 1].1))
    decreases |patch|, 0
  {
    var n := |patch| - 1;
    ExpandFree(patch[..n], PathOf(patch[n].0));
    PutFree(Expand(patch[..n]), patch[n].0, patch[n].1);
  }

  /** Reading the expansion at a key of the patch gives that key's own value. */
  lemma {:induction false} ExpandReadsBack(patch: Patch, i: nat)
    requires PrefixFree(patch) && i < |patch|
    ensures DottedGet(Dict(Expand(patch)), patch[i].0) == patch[i].1
    ensures GetAt(Dict(Expand(patch)), PathOf(patch[i].0)) == Some(patch[i].1)
  {
    var n := |patch| - 1;
    var before := Dict(Expand(patch[..n]));
    var last := PathOf(patch[n].0);
    ExpandStep(patch);
    if i == n {
      ExpandFree(patch[..n], last);
      FreeIsAbsent(before, last);
      GetAtMerged(before, last, patch[n].1);
    } else {
      ExpandReadsBack(patch[..n], i);
      GetAtMergedElsewhere(before, PathOf(patch[i].0), last, patch[n].1);
    }
  }

  lemma {:induction false} FreeIsAbsent(t: Tree, p: Path)
    requires Free(t, p)
    ensures GetAt(t, p) == None
  {
    if p[0] in t.props {
      FreeIsAbsent(t.props[p[0]], p[1..]);
    }
  }

  predicate Crosswise(a: Patch, b: Patch) {
    forall i, j | 0 <= i < |a| && 0 <= j < |b| :: Apart(PathOf(a[i].0), PathOf(b[j].0))
  }

  lemma PrefixFreeConcat(a: Patch, b: Patch)
    ensures PrefixFree(a + b) <==> PrefixFree(a) && PrefixFree(b) && Crosswise(a, b)
  {
    var c := a + b;
    if PrefixFree(c) {
      assert forall i, j | 0 <= i < j < |a| :: c[i] == a[i] && c[j] == a[j];
      forall i, j | 0 <= i < j < |b|
        ensures Apart(PathOf(b[i].0), PathOf(b[j].0))
      {
        assert c[|a| + i] == b[i] && c[|a| + j] == b[j];
      }
      forall i, j | 0 <= i < |a| && 0 <= j < |b|
        ensures Apart(PathOf(a[i].0), PathOf(b[j].0))
      {
        assert c[i] == a[i] && c[|a| + j] == b[j];
      }
    }
  }

  lemma PrefixFreeSwap(s: Patch, e: (string, Tree), t: Patch)
    requires PrefixFree(s + [e] + t)
    ensures PrefixFree(s + t + [e])
  {
    PrefixFreeConcat(s + [e], t);
    PrefixFreeConcat(s, [e]);
    assert (s + [e])[|s|] == e && forall i | 0 <= i < |s| :: (s + [e])[i] == s[i];
    PrefixFreeConcat(s, t);
    PrefixFreeConcat(s + t, [e]);
  }

  lemma ExpandSnoc(s: Patch, e: (string, Tree))
    requires PrefixFree(s + [e])
    ensures PrefixFree(s) && Dict(Expand(s + [e])) == Merge(Dict(Expand(s)), Build(PathOf(e.0), e.1))
  {
    ExpandStep(s + [e]);
    assert (s + [e])[..|s|] == s;
  }

  /** Walking an entry later, after those that follow it, does not change the expansion. */
  lemma {:induction false} ExpandLater(s: Patch, e: (string, Tree), t: Patch)
    requires PrefixFree(s + [e] + t)
    ensures PrefixFree(s + t + [e]) && Expand(s + [e] + t) == Expand(s + t + [e])
    decreases |t|
  {
    hide Expand, PrefixFree, Merge, Build, PathOf;
    PrefixFreeSwap(s, e, t);
    if t == [] {
      assert s + [e] + t == s + t + [e];
    } else {
      var t', f := t[..|t| - 1], t[|t| - 1];
      assert t == t' + [f];
      assert s + [e] + t == (s + [e] + t') + [f] && s + t + [e] == (s + t' + [f]) + [e];
      ExpandSnoc(s + [e] + t', f);
      ExpandLater(s, e, t');
      ExpandSnoc(s + t', e);
      ExpandSnoc(s + t' + [f], e);
      ExpandSnoc(s + t', f);
      PrefixFreeConcat(s + t' + [f], [e]);
      assert (s + t' + [f])[|s + t'|] == f && [e][0] == e;
      MergedCommute(Dict(Expand(s + t')), PathOf(e.0), e.1, PathOf(f.0), f.1);
    }
  }

  /** The expansion does not depend on the order in which the entries are walked. */
  lemma {:induction false} ExpandAnyOrder(a: Patch, b: Patch)
    requires PrefixFree(a) && multiset(a) == multiset(b)
    ensures PrefixFree(b) && Expand(a) == Expand(b)
    decreases |a|
  {
    hide Expand, PrefixFree, Merge, Build, PathOf;
    if a == [] {
      assert |multiset(a)| == |multiset(b)|;
    } else {
      var t, e := a[1..], a[0];
      assert a == [] + [e] + t && t + [e] == [] + t + [e];
      ExpandLater([], e, t);
      PrefixFreeConcat(t, [e]);
      var s, u := SplitAt(b, e, multiset(t));
      ExpandAnyOrder(t, s + u);
      CrosswisePermuted(t, s + u, e);
      ExpandSnoc(t, e);
      InsertBack(s, e, u);
    }
  }

  /** An entry apart from all others can be walked anywhere among them. */
  lemma InsertBack(s: Patch, e: (string, Tree), u: Patch)
    requires PrefixFree(s + u) && Crosswise(s + u, [e])
    ensures PrefixFree(s + [e] + u)
    ensures Dict(Expand(s + [e] + u)) == Merge(Dict(Expand(s + u)), Build(PathOf(e.0), e.1))
  {
    PrefixFreeConcat(s + u, [e]);
    PrefixFreeInsert(s, e, u);
    ExpandLater(s, e, u);
    ExpandSnoc(s + u, e);
  }

  lemma PrefixFreeInsert(s: Patch, e: (string, Tree), u: Patch)
    requires PrefixFree(s + u) && Crosswise(s + u, [e])
    ensures PrefixFree(s + [e] + u)
  {
    PrefixFreeConcat(s, u);
    assert forall i | 0 <= i < |u| :: (s + u)[|s| + i] == u[i];
    assert forall i | 0 <= i < |s| :: (s + u)[i] == s[i];
    assert [e][0] == e;
    PrefixFreeConcat(s, [e]);
    PrefixFreeConcat(s + [e], u);
  }

  lemma SplitAt(b: Patch, e: (string, Tree), others: multiset<(string, Tree)>) returns (s: Patch, u: Patch)
    requires multiset(b) == others + multiset{e}
    ensures b == s + [e] + u && multiset(s + u) == others
  {
    assert e in multiset(b);
    var k :| 0 <= k < |b| && b[k] == e;
    s, u := b[..k], b[k + 1..];
    assert b == s + [e] + u;
    assert multiset(b) == multiset(s) + multiset{e} + multiset(u);
    assert multiset(s + u) == multiset(s) + multiset(u);
    assert multiset(s + u) + multiset{e} == others + multiset{e};
    assert multiset(s + u) == (multiset(s + u) + multiset{e}) - multiset{e};
    assert others == (others + multiset{e}) - multiset{e};
  }

  lemma CrosswisePermuted(a: Patch, b: Patch, e: (string, Tree))
    requires Crosswise(a, [e]) && multiset(a) == multiset(b)
    ensures Crosswise(b, [e])
  {
    forall i, j | 0 <= i < |b| && 0 <= j < |[e]|
      ensures Apart(PathOf(b[i].0), PathOf([e][j].0))
    {
      assert b[i] in multiset(a);
      var k :| 0 <= k < |a| && a[k] == b[i];
    }
  }

  lemma PutPathKeys(props: map<string, Tree>, path: Path, v: Tree)
    ensures PutPath(props, path, v).Keys == props.Keys + {path[0]}
  {
  }

  /** The expansion has the first parts of the keys and no other top-level keys. */
  lemma {:induction false} ExpandKeys(patch: Patch, k: string)
    ensures k in Expand(patch) <==> exists i | 0 <= i < |patch| :: PathOf(patch[i].0)[0] == k
    decreases |patch|
  {
    if patch != [] {
      var n := |patch| - 1;
      ExpandKeys(patch[..n], k);
      PutPathKeys(Expand(patch[..n]), PathOf(patch[n].0), patch[n].1);
      assert forall i | 0 <= i < n :: patch[i] == patch[..n][i];
    }
  }

  /** The value at a path that runs through dicts and arrays. */
  function Through(props: map<string, Tree>, path: Path): Option<Tree>
    decreases |path|
  {
    if path[0] !in props then None
    else if |path| == 1 then Some(props[path[0]])
    else if IsObject(props[path[0]]) then Through(props[path[0]].props, path[1..])
    else None
  }

  lemma {:induction false} PutPathReads(props: map<string, Tree>, path: Path, v: Tree)
    ensures Through(PutPath(props, path, v), path) == Some(v)
    decreases |path|
  {
    if |path| > 1 {
      var next := if path[0] in props && IsObject(props[path[0]]) then props[path[0]] else Dict(map[]);
      PutPathReads(next.props, path[1..], v);
    }
  }

  lemma {:induction false} PutPathElsewhere(props: map<string, Tree>, path: Path, v: Tree, q: Path)
    requires Apart(path, q)
    ensures Through(PutPath(props, path, v), q) == Through(props, q)
    decreases |path|
  {
    if path[0] == q[0] {
      ApartTail(path, q);
      var next := if path[0] in props && IsObject(props[path[0]]) then props[path[0]] else Dict(map[]);
      PutPathElsewhere(next.props, path[1..], v, q[1..]);
    }
  }

  /** In any patch, also one whose keys lead through each other, the last entry reads back if its key has a dot, and
      takes away nothing that stands apart from its key. */
  lemma {:induction false} LastEntryReads(patch: Patch, q: Path)
    requires patch != []
    ensures var n := |patch| - 1;
      && ('.' in patch[n].0 ==> Through(Expand(patch), PathOf(patch[n].0)) == Some(patch[n].1))
      && (Apart(PathOf(patch[n].0), q) ==> Through(Expand(patch), q) == Through(Expand(patch[..n]), q))
  {
    var n := |patch| - 1;
    var path := PathOf(patch[n].0);
    PutPathReads(Expand(patch[..n]), path, patch[n].1);
    if Apart(path, q) {
      PutPathElsewhere(Expand(patch[..n]), path, patch[n].1, q);
      if '.' !in patch[n].0 {
        assert path == [path[0]] && q == [q[0]] + q[1..];
        assert path[0] != q[0];
      }
    }
  }

  // ---- Foundry's update with a dotted patch, and its undo --------------------------

  /** `actor.update(patch)`: the patch is expanded and laid over the document. */
  function Update(doc: Tree, patch: Patch): Tree {
    Merge(doc, Dict(Expand(patch)))
  }

  /** The patch that the inverter builds from the snapshot: each key with the value read before. */
  function Previous(doc: Tree, patch: Patch): (previous: Patch)
    ensures |previous| == |patch|
    ensures forall i | 0 <= i < |patch| :: previous[i] == (patch[i].0, DottedGet(doc, patch[i].0))
  {
    seq(|patch|, i requires 0 <= i < |patch| => (patch[i].0, DottedGet(doc, patch[i].0)))
  }

  /** The key leads to a value in the document, and the patch brings no new key below it. */
  predicate Restorable(doc: Tree, entry: (string, Tree)) {
    var was := GetAt(doc, PathOf(entry.0));
    was.Some? && Subsumed(entry.1, was.value)
  }

  lemma {:induction false} UpdateLast(doc: Tree, patch: Patch)
    requires doc.Dict? && PrefixFree(patch) && patch != []
    ensures var n := |patch| - 1;
      Update(doc, patch) == Merge(Update(doc, patch[..n]), Build(PathOf(patch[n].0), patch[n].1))
  {
    var n := |patch| - 1;
    ExpandStep(patch);
    var e, b := Dict(Expand(patch[..n])), Build(PathOf(patch[n].0), patch[n].1);
    ExpandFree(patch[..n], PathOf(patch[n].0));
    FreeIsLossless(doc, e, PathOf(patch[n].0), patch[n].1);
    MergeAssociative(doc, e, b);
  }

  lemma {:induction false} FreeIsLossless(doc: Tree, e: Tree, p: Path, v: Tree)
    requires Free(e, p)
    ensures Lossless(doc, e, Build(p, v))
  {
    if doc.Dict? && p[0] in e.props && p[0] in doc.props {
      FreeIsLossless(doc.props[p[0]], e.props[p[0]], p[1..], v);
    }
  }

  /** Reading the updated document at a key that the patch does not touch. */
  lemma {:induction false} UpdateElsewhere(doc: Tree, patch: Patch, p: Path)
    requires doc.Dict? && PrefixFree(patch) && forall i | 0 <= i < |patch| :: Apart(PathOf(patch[i].0), p)
    ensures GetAt(Update(doc, patch), p) == GetAt(doc, p)
    decreases |patch|
  {
    if patch == [] {
      MergeIdentity(doc);
    } else {
      var n := |patch| - 1;
      UpdateLast(doc, patch);
      UpdateElsewhere(doc, patch[..n], p);
      GetAtMergedElsewhere(Update(doc, patch[..n]), p, PathOf(patch[n].0), patch[n].1);
    }
  }

  /** A write apart from every key of the patch can be moved before it. */
  lemma {:induction false} UpdateCommute(doc: Tree, patch: Patch, p: Path, v: Tree)
    requires doc.Dict? && PrefixFree(patch) && forall i | 0 <= i < |patch| :: Apart(PathOf(patch[i].0), p)
    ensures Merge(Update(doc, patch), Build(p, v)) == Update(Merge(doc, Build(p, v)), patch)
    decreases |patch|
  {
    var n := |patch| - 1;
    var doc' := Merge(doc, Build(p, v));
    if patch == [] {
      MergeIdentity(doc);
      MergeIdentity(doc');
    } else {
      UpdateLast(doc, patch);
      UpdateLast(doc', patch);
      UpdateCommute(doc, patch[..n], p, v);
      MergedCommute(Update(doc, patch[..n]), PathOf(patch[n].0), patch[n].1, p, v);
    }
  }

  /** The second patch has the keys of the first. */
  predicate SameKeys(patch: Patch, back: Patch) {
    |back| == |patch| && forall i | 0 <= i < |patch| :: back[i].0 == patch[i].0
  }

  /** The key led to a value, and the two writes give that value back. */
  predicate RestoredBy(doc: Tree, entry: (string, Tree), back: Tree) {
    var was := GetAt(doc, PathOf(entry.0));
    was.Some? && Merge(Merge(was.value, entry.1), back) == was.value
  }

  /** Updating twice with the same keys restores the document exactly when the value at each key is restored. */
  lemma {:induction false} UpdateBackIff(doc: Tree, patch: Patch, back: Patch)
    requires doc.Dict? && PrefixFree(patch) && SameKeys(patch, back)
    ensures Update(Update(doc, patch), back) == doc <==>
      forall i | 0 <= i < |patch| :: RestoredBy(doc, patch[i], back[i].1)
  {
    if forall i | 0 <= i < |patch| :: RestoredBy(doc, patch[i], back[i].1) {
      UpdateBack(doc, patch, back);
    } else {
      var i :| 0 <= i < |patch| && !RestoredBy(doc, patch[i], back[i].1);
      BackAt(doc, patch, back, i);
    }
  }

  lemma {:induction false} UpdateBack(doc: Tree, patch: Patch, back: Patch)
    requires doc.Dict? && PrefixFree(patch) && SameKeys(patch, back)
    requires forall i | 0 <= i < |patch| :: RestoredBy(doc, patch[i], back[i].1)
    ensures Update(Update(doc, patch), back) == doc
    decreases |patch|
  {
    if patch == [] {
      MergeIdentity(doc);
    } else {
      var n := |patch| - 1;
      var init, p, v := patch[..n], PathOf(patch[n].0), patch[n].1;
      UpdateBack(doc, init, back[..n]);
      UpdateLast(doc, patch);
      var mid := Update(doc, init);
      UpdateLast(Merge(mid, Build(p, v)), back);
      UpdateCommute(mid, back[..n], p, v);
      WriteBack(doc, p, v, back[n].1);
    }
  }

  /** What stands at the i-th key after both updates. */
  lemma {:induction false} BackAt(doc: Tree, patch: Patch, back: Patch, i: nat)
    requires doc.Dict? && PrefixFree(patch) && SameKeys(patch, back) && i < |patch|
    ensures GetAt(Update(Update(doc, patch), back), PathOf(patch[i].0)) ==
      Some(match GetAt(doc, PathOf(patch[i].0))
        case Some(was) => Merge(Merge(was, patch[i].1), back[i].1)
        case None => Merge(patch[i].1, back[i].1))
  {
    UpdateAt(doc, patch, i);
    UpdateAt(Update(doc, patch), back, i);
  }

  /** Updating and then laying the values read before back restores the document exactly when
      every key led to a value before and the patch added no key below any of them. */
  lemma {:induction false} UpdateUndoneIff(doc: Tree, patch: Patch)
    requires doc.Dict? && PrefixFree(patch)
    ensures PrefixFree(Previous(doc, patch))
    ensures Update(Update(doc, patch), Previous(doc, patch)) == doc
      <==> forall i | 0 <= i < |patch| :: Restorable(doc, patch[i])
  {
    UpdateBackIff(doc, patch, Previous(doc, patch));
    forall i | 0 <= i < |patch|
      ensures RestoredBy(doc, patch[i], Previous(doc, patch)[i].1) <==> Restorable(doc, patch[i])
    {
      if was :| GetAt(doc, PathOf(patch[i].0)) == Some(was) {
        MergeBack(was, patch[i].1);
      }
    }
  }

  /** What stands at the i-th key after the update and its undo. */
  lemma {:induction false} UndoneAt(doc: Tree, patch: Patch, i: nat)
    requires doc.Dict? && PrefixFree(patch) && i < |patch|
    ensures GetAt(Update(Update(doc, patch), Previous(doc, patch)), PathOf(patch[i].0)) ==
      Some(match GetAt(doc, PathOf(patch[i].0))
        case Some(was) => Merge(Merge(was, patch[i].1), was)
        case None => Merge(patch[i].1, Null))
  {
    BackAt(doc, patch, Previous(doc, patch), i);
  }

  lemma {:induction false} UpdateAt(doc: Tree, patch: Patch, i: nat)
    requires doc.Dict? && PrefixFree(patch) && i < |patch|
    ensures GetAt(Update(doc, patch), PathOf(patch[i].0)) ==
      Some(match GetAt(doc, PathOf(patch[i].0)) case Some(was) => Merge(was, patch[i].1) case None => patch[i].1)
    decreases |patch|
  {
    var n := |patch| - 1;
    var p := PathOf(patch[i].0);
    UpdateLast(doc, patch);
    if i == n {
      UpdateElsewhere(doc, patch[..n], p);
      GetAtMerged(Update(doc, patch[..n]), p, patch[n].1);
    } else {
      UpdateAt(doc, patch[..n], i);
      GetAtMergedElsewhere(Update(doc, patch[..n]), p, PathOf(patch[n].0), patch[n].1);
    }
  }
}
