/**
 * `deepmerge(target, source, { arrayMerge })` as the document uses it, following
 * deepmerge 4's object policy: two lists go through the callback of module
 * ArrayMerge; a list merged with a non-list, or a mapping merged with a list, gives
 * a clone of the source; otherwise `mergeObject` builds a new mapping that holds a
 * clone of each target entry, merges each source entry into the target entry of the
 * same key when that source entry is a list or a mapping, and clones it otherwise.
 * A scalar entry under a shared key is its own clone, so merging it gives it back.
 */
module DeepMerge {
  import opened Values
  import opened ArrayMerge

  function Merge(target: Value, source: Value): (r: Value)
    ensures target.Mapping? && source.Mapping? ==>
      r.Mapping? && r.entries.Keys == target.entries.Keys + source.entries.Keys
    ensures target.Mapping? && source.Mapping? ==>
      forall k :: k in target.entries && k !in source.entries ==> r.entries[k] == Clone(target.entries[k])
    ensures target.Mapping? && source.Mapping? ==>
      forall k :: k in source.entries && k !in target.entries ==> r.entries[k] == Clone(source.entries[k])
    ensures (source.Sequence? && !target.Sequence?) || (source.Mapping? && !target.Mapping?) ==> r == Clone(source)
    ensures source.Scalar? || source.Undefined? ==> r == source
  {
    match source
    case Sequence(ss) =>
      if target.Sequence? then Sequence(MergeArrays(target.items, ss)) else Clone(source)
    case Mapping(sm) =>
      if target.Mapping? then
        var tm := target.entries;
        Mapping(map k | k in tm.Keys + sm.Keys ::
          if k in sm then (if k in tm then Merge(tm[k], sm[k]) else Clone(sm[k])) else Clone(tm[k]))
      else Clone(source)
    case _ => source
  }

  /** Whatever the two values, the merge repeats no scalar in any list at any level. */
  lemma {:induction false} MergeDeduped(target: Value, source: Value)
    ensures Deduped(Merge(target, source))
  {
    match source
    case Sequence(ss) =>
      if target.Sequence? {
        MergeArraysElements(target.items, ss);
      } else {
        CloneDeduped(source);
      }
    case Mapping(sm) =>
      if target.Mapping? {
        var tm := target.entries;
        var m := Merge(target, source).entries;
        forall k | k in m ensures Deduped(m[k]) {
          if k in sm && k in tm {
            MergeDeduped(tm[k], sm[k]);
          } else if k in sm {
            CloneDeduped(sm[k]);
          } else {
            CloneDeduped(tm[k]);
          }
        }
      } else {
        CloneDeduped(source);
      }
    case _ =>
  }

  /** A document whose lists are duplicate-free scalar lists is unchanged by merging it with itself. */
  lemma {:induction false} MergeSelf(v: Value)
    requires Flat(v)
    ensures Merge(v, v) == v
  {
    match v
    case Mapping(m) =>
      var r := Merge(v, v).entries;
      forall k | k in m ensures r[k] == m[k] {
        MergeSelf(m[k]);
      }
      assert r == m;
    case Sequence(items) =>
      MergeArraysSelf(items);
    case _ =>
  }

  /** A flat value is its own clone. */
  lemma CloneFlat(v: Value)
    requires Flat(v)
    ensures Clone(v) == v
  {
    FlatDeduped(v);
    CloneFixed(v);
  }

  /** Merging the same flat source a second time changes nothing. */
  lemma {:induction false} MergeIdempotent(target: Value, source: Value)
    requires Flat(source)
    ensures Merge(Merge(target, source), source) == Merge(target, source)
  {
    match source
    case Sequence(ss) =>
      if target.Sequence? {
        MergeArraysIdempotent(target.items, ss);
      } else {
        CloneFlat(source);
        MergeSelf(source);
      }
    case Mapping(sm) =>
      if target.Mapping? {
        var tm := target.entries;
        var once := Merge(target, source).entries;
        var twice := Merge(Merge(target, source), source).entries;
        forall k | k in once ensures twice[k] == once[k] {
          if k in sm && k in tm {
            MergeIdempotent(tm[k], sm[k]);
          } else if k in sm {
            CloneFlat(sm[k]);
            MergeSelf(sm[k]);
          } else {
            CloneIdempotent(tm[k]);
          }
        }
        assert twice == once;
      } else {
        CloneFlat(source);
        MergeSelf(source);
      }
    case _ =>
  }

  /** Cloning the target or the source before merging makes no difference. */
  lemma {:induction false} MergeUpToClone(target: Value, source: Value)
    ensures Merge(Clone(target), source) == Merge(target, source)
    ensures Merge(target, Clone(source)) == Merge(target, source)
  {
    match source
    case Sequence(ss) =>
      CloneIdempotent(source);
      if target.Sequence? {
        CloneOfList(target.items);
        CloneOfList(ss);
        assert [] + target.items == target.items;
        assert [] + ss == ss;
        MergeArraysUpToClone(target.items, ss);
      }
    case Mapping(sm) =>
      CloneIdempotent(source);
      if target.Mapping? {
        var tm := target.entries;
        var ct := Clone(target).entries;
        var cs := Clone(source).entries;
        var r := Merge(target, source).entries;
        var x := Merge(Clone(target), source).entries;
        var y := Merge(target, Clone(source)).entries;
        forall k | k in r ensures x[k] == r[k] && y[k] == r[k] {
          if k in sm && k in tm {
            MergeUpToClone(tm[k], sm[k]);
          } else if k in sm {
            CloneIdempotent(sm[k]);
          } else {
            CloneIdempotent(tm[k]);
          }
        }
        assert x == r;
        assert y == r;
      }
    case _ =>
  }

  /** Two mappings with no key in common can be merged in either order. */
  lemma MergeDisjointCommutes(target: Value, a: Value, b: Value)
    requires a.Mapping? && b.Mapping?
    requires a.entries.Keys !! b.entries.Keys
    ensures Merge(Merge(target, a), b) == Merge(Merge(target, b), a)
  {
    var x := Merge(Merge(target, a), b);
    var y := Merge(Merge(target, b), a);
    var ta := Merge(target, a);
    var tb := Merge(target, b);
    forall k | k in x.entries ensures k in y.entries && x.entries[k] == y.entries[k] {
      if target.Mapping? && k in target.entries {
        var t := target.entries[k];
        if k in b.entries {
          MergeUpToClone(t, b.entries[k]);
          MergeDeduped(t, b.entries[k]);
          CloneFixed(tb.entries[k]);
        } else if k in a.entries {
          MergeUpToClone(t, a.entries[k]);
          MergeDeduped(t, a.entries[k]);
          CloneFixed(ta.entries[k]);
        }
      } else if k in b.entries {
        CloneIdempotent(b.entries[k]);
      } else {
        CloneIdempotent(a.entries[k]);
      }
    }
    assert x.entries.Keys == y.entries.Keys;
    assert x.entries == y.entries;
  }

  /** A new document built from `a: [x, x]` holds `a: [x]`: the clone drops the repeat. */
  lemma CloneDropsRepeats()
    ensures Merge(Undefined, Mapping(map["a" := Sequence([Scalar("x"), Scalar("x")])]))
         == Mapping(map["a" := Sequence([Scalar("x")])])
  {
    var x := Scalar("x");
    CloneOfList([x, x]);
    assert [] + [x, x] == [x, x];
    UniqueSnoc([], x);
    assert [] + [x] == [x];
    UniqueSnoc([x], x);
    assert [x] + [x] == [x, x];
    assert Clone(Sequence([x, x])) == Sequence([x]);
  }
}
