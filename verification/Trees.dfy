/**
 * JSON-like documents and the recursive overlay of one on another: `deep_merge` of the
 * catalog loader, and what Foundry's `Document.update` does with an expanded patch.
 */
module Trees {
  import opened Wrappers

  /** `Dict` is a Python dict or a plain JavaScript object; `Arr` is an array, kept as the
      JavaScript object that it is; `Null` is `None` or `null`; `Atom` is any other value. */
  datatype Tree = Null | Atom(text: string) | Arr(props: map<string, Tree>) | Dict(props: map<string, Tree>)

  /** Overlay wins; two dicts merge key by key; anything else is replaced. */
  function Merge(base: Tree, overlay: Tree): Tree {
    if base.Dict? && overlay.Dict? then
      Dict(map k | k in base.props.Keys + overlay.props.Keys ::
        if k !in overlay.props then base.props[k]
        else if k !in base.props then overlay.props[k]
        else Merge(base.props[k], overlay.props[k]))
    else overlay
  }

  /** `deep_merge`: starts from a copy of the base and walks the overlay's items in any order. */
  method DeepMerge(base: map<string, Tree>, overlay: map<string, Tree>) returns (out: map<string, Tree>)
    ensures Dict(out) == Merge(Dict(base), Dict(overlay))
    decreases Dict(overlay)
  {
    out := base;
    var todo := overlay.Keys;
    while todo != {}
      invariant todo <= overlay.Keys
      invariant out.Keys == base.Keys + (overlay.Keys - todo)
      invariant forall k | k in out && k !in overlay.Keys - todo :: out[k] == base[k]
      invariant forall k | k in overlay.Keys - todo ::
        out[k] == if k in base then Merge(base[k], overlay[k]) else overlay[k]
    {
      var k :| k in todo;
      var v := overlay[k];
      if k in out && out[k].Dict? && v.Dict? {
        assert v < Dict(overlay);
        var merged := DeepMerge(out[k].props, v.props);
        out := out[k := Dict(merged)];
      } else {
        out := out[k := v];
      }
      todo := todo - {k};
    }
    assert out.Keys == base.Keys + overlay.Keys;
  }

  /** Every dict key path of `a` that meets a dict of `c` is a key path of `c`: then laying `c` over `a` hides all of
      `a`. */
  predicate Subsumed(a: Tree, c: Tree) {
    a.Dict? && c.Dict? ==>
      forall k | k in a.props :: k in c.props && Subsumed(a.props[k], c.props[k])
  }

  lemma {:induction false} MergeHides(a: Tree, c: Tree)
    ensures Merge(a, c) == c <==> Subsumed(a, c)
  {
    if a.Dict? && c.Dict? {
      var m := Merge(a, c);
      forall k | k in a.props && k in c.props
        ensures Merge(a.props[k], c.props[k]) == c.props[k] <==> Subsumed(a.props[k], c.props[k])
      {
        MergeHides(a.props[k], c.props[k]);
      }
      if Subsumed(a, c) {
        assert m.props.Keys == c.props.Keys;
        assert m.props == c.props;
      } else {
        var k :| k in a.props && !(k in c.props && Subsumed(a.props[k], c.props[k]));
        assert k in m.props;
        if k in c.props {
          assert m.props[k] == Merge(a.props[k], c.props[k]);
        }
      }
    }
  }

  /** No key path at which `b` cuts a dict of `a` off from a dict of `c` that does not restate it. */
  predicate Lossless(a: Tree, b: Tree, c: Tree) {
    a.Dict? && c.Dict? ==>
      if b.Dict? then
        forall k | k in a.props && k in b.props && k in c.props :: Lossless(a.props[k], b.props[k], c.props[k])
      else
        Subsumed(a, c)
  }

  lemma {:induction false} MergeAssociative(a: Tree, b: Tree, c: Tree)
    ensures Merge(Merge(a, b), c) == Merge(a, Merge(b, c)) <==> Lossless(a, b, c)
  {
    if a.Dict? && c.Dict? {
      if b.Dict? {
        var left, right := Merge(Merge(a, b), c), Merge(a, Merge(b, c));
        assert left.props.Keys == right.props.Keys;
        forall k | k in left.props
          ensures left.props[k] == right.props[k] <==>
            (k in a.props && k in b.props && k in c.props ==> Lossless(a.props[k], b.props[k], c.props[k]))
        {
          if k in a.props && k in b.props && k in c.props {
            MergeAssociative(a.props[k], b.props[k], c.props[k]);
          }
        }
        if Lossless(a, b, c) {
          assert left.props == right.props;
        } else {
          var k :| k in a.props && k in b.props && k in c.props && !Lossless(a.props[k], b.props[k], c.props[k]);
          assert k in left.props;
        }
      } else {
        MergeHides(a, c);
      }
    }
  }

  lemma MergeIdentity(t: Tree)
    requires t.Dict?
    ensures Merge(Dict(map[]), t) == t && Merge(t, Dict(map[])) == t
  {
    assert Merge(Dict(map[]), t).props == t.props;
    assert Merge(t, Dict(map[])).props == t.props;
  }

  /** Laying the old document back over the merged one gives it back exactly when the new one added no key. */
  lemma {:induction false} MergeBack(before: Tree, after: Tree)
    ensures Merge(Merge(before, after), before) == before <==> Subsumed(after, before)
  {
    MergeHides(after, before);
    MergeHides(before, before);
    SubsumedReflexive(before);
    if before.Dict? && after.Dict? {
      var m := Merge(Merge(before, after), before);
      forall k | k in before.props && k in after.props
        ensures m.props[k] == before.props[k] <==> Subsumed(after.props[k], before.props[k])
      {
        MergeBack(before.props[k], after.props[k]);
      }
      forall k | k in before.props && k !in after.props
        ensures m.props[k] == before.props[k]
      {
        SubsumedReflexive(before.props[k]);
        MergeHides(before.props[k], before.props[k]);
      }
      if Subsumed(after, before) {
        assert m.props == before.props;
      } else {
        var k :| k in after.props && !(k in before.props && Subsumed(after.props[k], before.props[k]));
        assert k in m.props;
      }
    }
  }

  lemma {:induction false} SubsumedReflexive(t: Tree)
    ensures Subsumed(t, t)
  {
    if t.Dict? {
      forall k | k in t.props
        ensures Subsumed(t.props[k], t.props[k])
      {
        SubsumedReflexive(t.props[k]);
      }
    }
  }
}
