/**
 * The `arrayMerge` callback handed to deepmerge:
 * `target.concat(source).filter(onlyUnique).map(clone)`, where
 * `onlyUnique(value, index, self)` keeps an element when `self.indexOf(value) === index`
 * and `clone` is deepmerge's `cloneUnlessOtherwiseSpecified`, which, with this
 * callback installed, runs the callback again on every nested list.
 */
module ArrayMerge {
  import opened Values

  /**
   * `self[i] === self[j]`. Scalars compare by value; a mapping or a sequence
   * is an object of its own and is identical only to itself.
   */
  predicate Identical(s: seq<Value>, i: nat, j: nat)
    requires i < |s| && j < |s|
  {
    i == j || (s[i].Scalar? && s[i] == s[j])
  }

  /** `self.indexOf(self[k])`, searching from position `from`. */
  function IndexOf(s: seq<Value>, k: nat, from: nat): (r: nat)
    requires from <= k < |s|
    ensures from <= r <= k && Identical(s, r, k)
    ensures forall j :: from <= j < r ==> !Identical(s, j, k)
    decreases k - from
  {
    if Identical(s, from, k) then from else IndexOf(s, k, from + 1)
  }

  /** `onlyUnique(self[k], k, self)`. */
  predicate OnlyUnique(s: seq<Value>, k: nat)
    requires k < |s|
  {
    IndexOf(s, k, 0) == k
  }

  /** `self.filter(onlyUnique)`, restricted to the first `n` positions. */
  function Filtered(s: seq<Value>, n: nat): (r: seq<Value>)
    requires n <= |s|
    ensures forall x :: x in r ==> x in s
  {
    if n == 0 then [] else Filtered(s, n - 1) + (if OnlyUnique(s, n - 1) then [s[n - 1]] else [])
  }

  /** The positions that `Filtered(s, n)` keeps, in order. */
  function KeptPositions(s: seq<Value>, n: nat): seq<nat>
    requires n <= |s|
  {
    if n == 0 then [] else KeptPositions(s, n - 1) + (if OnlyUnique(s, n - 1) then [n - 1] else [])
  }

  /**
   * `cloneUnlessOtherwiseSpecified(v, options)` with this callback installed. A list
   * is cloned as `deepmerge([], v)`, which is the callback applied to `[]` and `v`:
   * its repeated scalars go and every kept element is cloned in turn. A mapping is
   * cloned key by key; a scalar or `undefined` is returned as it is.
   */
  function Clone(v: Value): (r: Value)
    ensures r.Undefined? == v.Undefined? && r.Scalar? == v.Scalar?
    ensures r.Sequence? == v.Sequence? && r.Mapping? == v.Mapping?
    ensures v.Undefined? || v.Scalar? ==> r == v
    ensures v.Mapping? ==> r.entries.Keys == v.entries.Keys
  {
    match v
    case Sequence(items) =>
      var kept := Filtered(items, |items|);
      Sequence(seq(|kept|, i requires 0 <= i < |kept| => assert kept[i] in items; Clone(kept[i])))
    case Mapping(m) => Mapping(map k | k in m :: Clone(m[k]))
    case _ => v
  }

  /** `.map(clone)`. */
  function CloneAll(s: seq<Value>): seq<Value>
  {
    seq(|s|, i requires 0 <= i < |s| => Clone(s[i]))
  }

  /** `s.filter(onlyUnique).map(clone)`. */
  function Unique(s: seq<Value>): seq<Value>
  {
    CloneAll(Filtered(s, |s|))
  }

  /** The callback: concatenate target then source, keep first occurrences, clone what is kept. */
  function MergeArrays(target: seq<Value>, source: seq<Value>): seq<Value>
  {
    Unique(target + source)
  }

  /** No scalar occurs twice. */
  predicate NoRepeatedScalar(s: seq<Value>)
  {
    forall i, j :: 0 <= i < j < |s| && s[i].Scalar? ==> s[i] != s[j]
  }

  /** Every list in the tree repeats no scalar. */
  predicate Deduped(v: Value)
  {
    match v
    case Sequence(items) => NoRepeatedScalar(items) && forall i :: 0 <= i < |items| ==> Deduped(items[i])
    case Mapping(m) => forall k :: k in m ==> Deduped(m[k])
    case _ => true
  }

  /** Every list in the tree is a duplicate-free list of scalars, like `environment` or `cap_add`. */
  predicate Flat(v: Value)
  {
    match v
    case Sequence(items) => NoRepeatedScalar(items) && forall i :: 0 <= i < |items| ==> items[i].Scalar?
    case Mapping(m) => forall k :: k in m ==> Flat(m[k])
    case _ => true
  }

  /** An element is dropped exactly when it is a scalar already seen earlier. */
  lemma OnlyUniqueIff(s: seq<Value>, k: nat)
    requires k < |s|
    ensures OnlyUnique(s, k) <==> !(s[k].Scalar? && s[k] in s[..k])
  {
    if s[k].Scalar? && s[k] in s[..k] {
      var j :| 0 <= j < k && s[j] == s[k];
      assert Identical(s, j, k);
    }
  }

  lemma {:induction false} FilteredPositions(s: seq<Value>, n: nat)
    requires n <= |s|
    ensures var r, p := Filtered(s, n), KeptPositions(s, n);
      |p| == |r| &&
      (forall i, j :: 0 <= i < j < |p| ==> p[i] < p[j]) &&
      (forall i :: 0 <= i < |p| ==> p[i] < n && s[p[i]] == r[i]) &&
      (forall k :: 0 <= k < n ==> (k in p <==> OnlyUnique(s, k)))
  {
    if n > 0 {
      FilteredPositions(s, n - 1);
    }
  }

  lemma {:induction false} FilteredMembers(s: seq<Value>, n: nat)
    requires n <= |s|
    ensures forall x :: x in Filtered(s, n) <==> x in s[..n]
  {
    if n > 0 {
      FilteredMembers(s, n - 1);
      OnlyUniqueIff(s, n - 1);
      assert s[..n] == s[..n - 1] + [s[n - 1]];
    }
  }

  lemma {:induction false} FilteredNoRepeat(s: seq<Value>, n: nat)
    requires n <= |s|
    ensures NoRepeatedScalar(Filtered(s, n))
  {
    if n > 0 {
      FilteredNoRepeat(s, n - 1);
      FilteredMembers(s, n - 1);
      OnlyUniqueIff(s, n - 1);
    }
  }

  /** Filtering a prefix without repeated scalars keeps all of it. */
  lemma {:induction false} FilteredDistinct(s: seq<Value>, n: nat)
    requires n <= |s|
    requires forall i, j :: 0 <= i < j < n && s[i].Scalar? ==> s[i] != s[j]
    ensures Filtered(s, n) == s[..n]
  {
    if n > 0 {
      FilteredDistinct(s, n - 1);
      OnlyUniqueIff(s, n - 1);
      assert s[..n] == s[..n - 1] + [s[n - 1]];
    }
  }

  /** Positions `m..n` that only repeat scalars of `s[..m]` add nothing to the filter. */
  lemma {:induction false} FilteredRepeats(s: seq<Value>, m: nat, n: nat)
    requires m <= n <= |s|
    requires forall k :: m <= k < n ==> s[k].Scalar? && s[k] in s[..m]
    ensures Filtered(s, n) == Filtered(s, m)
  {
    if m < n {
      FilteredRepeats(s, m, n - 1);
      OnlyUniqueIff(s, n - 1);
      var j :| 0 <= j < m && s[j] == s[n - 1];
      assert s[..n - 1][j] == s[n - 1];
    }
  }

  /** The filter of the first `n` positions looks at nothing beyond them. */
  lemma {:induction false} FilteredExtend(s: seq<Value>, t: seq<Value>, n: nat)
    requires n <= |s| && n <= |t| && s[..n] == t[..n]
    ensures Filtered(s, n) == Filtered(t, n)
  {
    if n > 0 {
      assert s[..n - 1] == s[..n][..n - 1];
      assert t[..n - 1] == t[..n][..n - 1];
      assert s[n - 1] == s[..n][n - 1];
      assert t[n - 1] == t[..n][n - 1];
      FilteredExtend(s, t, n - 1);
      OnlyUniqueIff(s, n - 1);
      OnlyUniqueIff(t, n - 1);
    }
  }

  /** Cloning keeps scalars, so a scalar is in a cloned list exactly when it is in the list. */
  lemma CloneAllScalars(s: seq<Value>)
    ensures forall x: Value :: x.Scalar? ==> (x in CloneAll(s) <==> x in s)
    ensures NoRepeatedScalar(s) ==> NoRepeatedScalar(CloneAll(s))
  {
    var c := CloneAll(s);
    forall x: Value | x.Scalar? && x in c ensures x in s {
      var i :| 0 <= i < |c| && c[i] == x;
      assert s[i] == x;
    }
    forall x: Value | x.Scalar? && x in s ensures x in c {
      var i :| 0 <= i < |s| && s[i] == x;
      assert c[i] == x;
    }
  }

  /** A clone is free of repeated scalars at every level. */
  lemma {:induction false} CloneDeduped(v: Value)
    ensures Deduped(Clone(v))
  {
    match v
    case Sequence(items) =>
      var kept := Filtered(items, |items|);
      var r := Clone(v).items;
      assert r == CloneAll(kept);
      FilteredNoRepeat(items, |items|);
      CloneAllScalars(kept);
      forall i | 0 <= i < |r| ensures Deduped(r[i]) {
        assert kept[i] in items;
        CloneDeduped(kept[i]);
      }
    case Mapping(m) =>
      forall k | k in m ensures Deduped(Clone(v).entries[k]) {
        CloneDeduped(m[k]);
      }
    case _ =>
  }

  /** A value free of repeated scalars at every level is its own clone. */
  lemma {:induction false} CloneFixed(v: Value)
    requires Deduped(v)
    ensures Clone(v) == v
  {
    match v
    case Sequence(items) =>
      FilteredDistinct(items, |items|);
      assert items[..|items|] == items;
      forall i | 0 <= i < |items| ensures Clone(items[i]) == items[i] {
        CloneFixed(items[i]);
      }
      assert Clone(v).items == items;
    case Mapping(m) =>
      forall k | k in m ensures Clone(m[k]) == m[k] {
        CloneFixed(m[k]);
      }
      assert Clone(v).entries == m;
    case _ =>
  }

  /** Cloning changes a value exactly when some list in it repeats a scalar. */
  lemma CloneFixedIff(v: Value)
    ensures Clone(v) == v <==> Deduped(v)
  {
    CloneDeduped(v);
    if Deduped(v) {
      CloneFixed(v);
    }
  }

  /** Cloning a clone changes nothing. */
  lemma CloneIdempotent(v: Value)
    ensures Clone(Clone(v)) == Clone(v)
  {
    CloneDeduped(v);
    CloneFixed(Clone(v));
  }

  /** A duplicate-free list of scalars is, in particular, free of repeated scalars at every level. */
  lemma {:induction false} FlatDeduped(v: Value)
    requires Flat(v)
    ensures Deduped(v)
  {
    match v
    case Mapping(m) =>
      forall k | k in m ensures Deduped(m[k]) {
        FlatDeduped(m[k]);
      }
    case _ =>
  }

  /** deepmerge clones a list by merging it into an empty list, through this same callback. */
  lemma CloneOfList(items: seq<Value>)
    ensures Clone(Sequence(items)) == Sequence(MergeArrays([], items))
  {
    assert [] + items == items;
  }

  /** Appending one element: it is kept, cloned, unless it is a scalar already present. */
  lemma UniqueSnoc(u: seq<Value>, y: Value)
    ensures Unique(u + [y]) == Unique(u) + (if y.Scalar? && y in u then [] else [Clone(y)])
  {
    var s := u + [y];
    assert s[..|u|] == u[..|u|];
    assert s[..|u|] == u;
    FilteredExtend(s, u, |u|);
    OnlyUniqueIff(s, |u|);
    var f := Filtered(u, |u|);
    var tail := if y.Scalar? && y in u then [] else [y];
    assert Filtered(s, |s|) == f + tail;
    assert CloneAll(f + tail) == CloneAll(f) + CloneAll(tail);
  }

  /** What the filter keeps repeats no scalar, holds the same scalars, and is cloned. */
  lemma UniqueFacts(s: seq<Value>)
    ensures NoRepeatedScalar(Unique(s))
    ensures forall x: Value :: x.Scalar? ==> (x in Unique(s) <==> x in s)
    ensures forall i :: 0 <= i < |Unique(s)| ==> Deduped(Unique(s)[i])
  {
    var f := Filtered(s, |s|);
    FilteredMembers(s, |s|);
    FilteredNoRepeat(s, |s|);
    assert s[..|s|] == s;
    CloneAllScalars(f);
    forall i | 0 <= i < |f| ensures Deduped(Unique(s)[i]) {
      CloneDeduped(f[i]);
    }
  }

  /** Filtering and cloning the source first makes no difference to the merge. */
  lemma {:induction false} UniqueRight(a: seq<Value>, b: seq<Value>)
    ensures Unique(a + Unique(b)) == Unique(a + b)
    decreases |b|
  {
    if b == [] {
      assert Unique(b) == [];
      assert a + Unique(b) == a;
      assert a + b == a;
    } else {
      var b', x := b[..|b| - 1], b[|b| - 1];
      assert b == b' + [x];
      assert a + b == (a + b') + [x];
      UniqueSnoc(b', x);
      UniqueSnoc(a + b', x);
      UniqueRight(a, b');
      UniqueFacts(b');
      if x.Scalar? && x in b' {
        assert Unique(b) == Unique(b');
      } else {
        CloneIdempotent(x);
        assert a + Unique(b) == (a + Unique(b')) + [Clone(x)];
        UniqueSnoc(a + Unique(b'), Clone(x));
      }
    }
  }

  /** Filtering and cloning the target first makes no difference to the merge. */
  lemma {:induction false} UniqueLeft(a: seq<Value>, b: seq<Value>)
    ensures Unique(Unique(a) + b) == Unique(a + b)
    decreases |b|
  {
    if b == [] {
      UniqueRight([], a);
      assert [] + Unique(a) == Unique(a) + b;
      assert [] + a == a + b;
    } else {
      var b', x := b[..|b| - 1], b[|b| - 1];
      assert b == b' + [x];
      assert a + b == (a + b') + [x];
      assert Unique(a) + b == (Unique(a) + b') + [x];
      UniqueSnoc(a + b', x);
      UniqueSnoc(Unique(a) + b', x);
      UniqueLeft(a, b');
      UniqueFacts(a);
    }
  }

  /**
   * The result is `target ++ source` read at strictly increasing positions and
   * cloned, and the positions read are exactly those that do not repeat an earlier
   * scalar: every later repeat is removed and first-occurrence order is kept.
   */
  lemma MergeArraysOrder(target: seq<Value>, source: seq<Value>)
    ensures var s, r := target + source, MergeArrays(target, source);
      var p := KeptPositions(s, |s|);
      |p| == |r| &&
      (forall i, j :: 0 <= i < j < |p| ==> p[i] < p[j]) &&
      (forall i :: 0 <= i < |p| ==> p[i] < |s| && r[i] == Clone(s[p[i]])) &&
      (forall k :: 0 <= k < |s| ==> (k in p <==> !(s[k].Scalar? && s[k] in s[..k])))
  {
    var s := target + source;
    FilteredPositions(s, |s|);
    forall k | 0 <= k < |s| ensures OnlyUnique(s, k) <==> !(s[k].Scalar? && s[k] in s[..k]) {
      OnlyUniqueIff(s, k);
    }
  }

  /**
   * No scalar is repeated in the result and every element is itself free of
   * repeats; the scalars are exactly those given; every element given has its
   * clone in the result.
   */
  lemma MergeArraysElements(target: seq<Value>, source: seq<Value>)
    ensures NoRepeatedScalar(MergeArrays(target, source))
    ensures forall i :: 0 <= i < |MergeArrays(target, source)| ==> Deduped(MergeArrays(target, source)[i])
    ensures forall x: Value :: x.Scalar? ==> (x in MergeArrays(target, source) <==> x in target || x in source)
    ensures forall x :: x in target || x in source ==> Clone(x) in MergeArrays(target, source)
  {
    var s := target + source;
    var r := MergeArrays(target, source);
    UniqueFacts(s);
    MergeArraysOrder(target, source);
    var p := KeptPositions(s, |s|);
    forall x | x in target || x in source ensures Clone(x) in r {
      if !x.Scalar? {
        assert x in s;
        var k :| 0 <= k < |s| && s[k] == x;
        assert k in p;
        var i :| 0 <= i < |p| && p[i] == k;
        assert r[i] == Clone(x);
      }
    }
  }

  /**
   * No growth on overlap: merging a list free of repeated scalars at every level
   * with scalars it already contains returns the first list unchanged.
   */
  lemma MergeArraysNoGrowth(target: seq<Value>, source: seq<Value>)
    requires Deduped(Sequence(target))
    requires forall x :: x in source ==> x.Scalar? && x in target
    ensures MergeArrays(target, source) == target
  {
    var s := target + source;
    assert s[..|target|] == target;
    FilteredDistinct(s, |target|);
    forall k | |target| <= k < |s| ensures s[k].Scalar? && s[k] in s[..|target|] {
      assert s[k] == source[k - |target|];
    }
    FilteredRepeats(s, |target|, |s|);
    forall i | 0 <= i < |target| ensures Clone(target[i]) == target[i] {
      CloneFixed(target[i]);
    }
  }

  /** A duplicate-free list of scalars merged with itself is unchanged. */
  lemma MergeArraysSelf(s: seq<Value>)
    requires NoRepeatedScalar(s)
    requires forall x :: x in s ==> x.Scalar?
    ensures MergeArrays(s, s) == s
  {
    MergeArraysNoGrowth(s, s);
  }

  /** Merging the same scalar list in again changes nothing. */
  lemma MergeArraysIdempotent(target: seq<Value>, source: seq<Value>)
    requires forall x :: x in source ==> x.Scalar?
    ensures MergeArrays(MergeArrays(target, source), source) == MergeArrays(target, source)
  {
    MergeArraysElements(target, source);
    MergeArraysNoGrowth(MergeArrays(target, source), source);
  }

  /** Cloning either list before the merge makes no difference. */
  lemma MergeArraysUpToClone(target: seq<Value>, source: seq<Value>)
    ensures MergeArrays(Unique(target), source) == MergeArrays(target, source)
    ensures MergeArrays(target, Unique(source)) == MergeArrays(target, source)
  {
    UniqueLeft(target, source);
    UniqueRight(target, source);
  }
}
