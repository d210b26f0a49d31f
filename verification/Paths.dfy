/** Values addressed by a path of keys, and one-value documents laid over a tree. */
module Paths {
  import opened Wrappers
  import opened Trees

  type Path = p: seq<string> | p != [] witness [""]

  /** The value at a path that runs through dicts only. */
  function GetAt(t: Tree, path: seq<string>): Option<Tree> {
    if path == [] then Some(t)
    else if t.Dict? && path[0] in t.props then GetAt(t.props[path[0]], path[1..])
    else None
  }

  /** The document that holds just `v`, at `path`. */
  function Build(path: seq<string>, v: Tree): Tree {
    if path == [] then v else Dict(map[path[0] := Build(path[1..], v)])
  }

  /** Neither path leads through the other. */
  predicate Apart(p: seq<string>, q: seq<string>) {
    !(p <= q) && !(q <= p)
  }

  /** Nothing stands at `path` and every step towards it can be taken or is free. */
  predicate Free(t: Tree, path: Path) {
    t.Dict? && (path[0] in t.props ==> |path| > 1 && Free(t.props[path[0]], path[1..]))
  }

  lemma ApartTail(p: Path, q: Path)
    requires Apart(p, q) && p[0] == q[0]
    ensures |p| > 1 && |q| > 1 && Apart(p[1..], q[1..])
  {
    assert p == [p[0]] + p[1..] && q == [q[0]] + q[1..];
  }

  lemma {:induction false} GetAtBuild(p: seq<string>, v: Tree)
    ensures GetAt(Build(p, v), p) == Some(v)
  {
    if p != [] {
      GetAtBuild(p[1..], v);
    }
  }

  /** Laying `v` at `p` is seen at `p` itself ... */
  lemma {:induction false} GetAtMerged(t: Tree, p: seq<string>, v: Tree)
    ensures GetAt(Merge(t, Build(p, v)), p) == Some(match GetAt(t, p) case Some(was) => Merge(was, v) case None => v)
  {
    if p != [] {
      GetAtBuild(p[1..], v);
      if t.Dict? && p[0] in t.props {
        GetAtMerged(t.props[p[0]], p[1..], v);
      }
    }
  }

  /** ... and at no path apart from it. */
  lemma {:induction false} GetAtMergedElsewhere(t: Tree, p: Path, q: Path, v: Tree)
    requires Apart(p, q)
    ensures GetAt(Merge(t, Build(q, v)), p) == GetAt(t, p)
  {
    if p[0] == q[0] {
      ApartTail(p, q);
      if t.Dict? && p[0] in t.props {
        GetAtMergedElsewhere(t.props[p[0]], p[1..], q[1..], v);
      } else {
        BuildElsewhere(p[1..], q[1..], v);
      }
    }
  }

  lemma {:induction false} BuildElsewhere(p: Path, q: Path, v: Tree)
    requires Apart(p, q)
    ensures GetAt(Build(q, v), p) == None
  {
    if p[0] == q[0] {
      ApartTail(p, q);
      BuildElsewhere(p[1..], q[1..], v);
    }
  }

  lemma {:induction false} FreeMerged(t: Tree, p: Path, q: Path, v: Tree)
    requires Apart(p, q) && Free(t, p)
    ensures Free(Merge(t, Build(q, v)), p)
  {
    if p[0] == q[0] {
      ApartTail(p, q);
      if p[0] in t.props {
        FreeMerged(t.props[p[0]], p[1..], q[1..], v);
      } else {
        FreeBuilt(p[1..], q[1..], v);
      }
    }
  }

  lemma {:induction false} FreeBuilt(p: Path, q: Path, v: Tree)
    requires Apart(p, q)
    ensures Free(Build(q, v), p)
  {
    if p[0] == q[0] {
      ApartTail(p, q);
      FreeBuilt(p[1..], q[1..], v);
    }
  }

  /** Writes to paths apart from each other commute. */
  lemma {:induction false} MergedCommute(t: Tree, p: Path, v: Tree, q: Path, w: Tree)
    requires Apart(p, q)
    ensures Merge(Merge(t, Build(p, v)), Build(q, w)) == Merge(Merge(t, Build(q, w)), Build(p, v))
  {
    if p[0] == q[0] {
      ApartTail(p, q);
      if t.Dict? && p[0] in t.props {
        MergedCommute(t.props[p[0]], p[1..], v, q[1..], w);
      } else {
        BuildsCommute(p[1..], v, q[1..], w);
      }
    }
    if t.Dict? {
      WritesCommute(t.props, p[0], Build(p[1..], v), q[0], Build(q[1..], w));
    } else {
      BuildsCommute(p, v, q, w);
    }
  }

  /** Writes at two keys commute if, when the keys are one, what is written there commutes. */
  lemma WritesCommute(props: map<string, Tree>, j: string, v: Tree, k: string, w: Tree)
    requires j == k ==>
      if j in props then Merge(Merge(props[j], v), w) == Merge(Merge(props[j], w), v) else Merge(v, w) == Merge(w, v)
    ensures Merge(Merge(Dict(props), Dict(map[j := v])), Dict(map[k := w])) ==
      Merge(Merge(Dict(props), Dict(map[k := w])), Dict(map[j := v]))
  {
    var left := Merge(Merge(Dict(props), Dict(map[j := v])), Dict(map[k := w]));
    var right := Merge(Merge(Dict(props), Dict(map[k := w])), Dict(map[j := v]));
    assert left.props == right.props;
  }

  lemma {:induction false} BuildsCommute(p: Path, v: Tree, q: Path, w: Tree)
    requires Apart(p, q)
    ensures Merge(Build(p, v), Build(q, w)) == Merge(Build(q, w), Build(p, v))
  {
    if p[0] == q[0] {
      ApartTail(p, q);
      BuildsCommute(p[1..], v, q[1..], w);
    }
    KeysCommute(p[0], Build(p[1..], v), q[0], Build(q[1..], w));
  }

  lemma KeysCommute(j: string, v: Tree, k: string, w: Tree)
    requires j == k ==> Merge(v, w) == Merge(w, v)
    ensures Merge(Dict(map[j := v]), Dict(map[k := w])) == Merge(Dict(map[k := w]), Dict(map[j := v]))
  {
    assert Merge(Dict(map[j := v]), Dict(map[k := w])).props == Merge(Dict(map[k := w]), Dict(map[j := v])).props;
  }

  /** Two writes at one path leave the tree as it was when they leave the value there as it was. */
  lemma {:induction false} WriteBack(t: Tree, p: seq<string>, v: Tree, back: Tree)
    requires GetAt(t, p).Some? && Merge(Merge(GetAt(t, p).value, v), back) == GetAt(t, p).value
    ensures Merge(Merge(t, Build(p, v)), Build(p, back)) == t
  {
    if p != [] {
      WriteBack(t.props[p[0]], p[1..], v, back);
      assert Merge(Merge(t, Build(p, v)), Build(p, back)).props == t.props;
    }
  }
}
