/** Sequence facts shared by the models: order-preserving sublists and filtering loops. */
module Seqs {
  import opened Options

  /** No element occurs twice. */
  ghost predicate Distinct<T>(s: seq<T>) {
    forall i, j :: 0 <= i < j < |s| ==> s[i] != s[j]
  }

  lemma DistinctConcat<T>(a: seq<T>, b: seq<T>)
    requires Distinct(a) && Distinct(b) && forall i :: 0 <= i < |b| ==> b[i] !in a
    ensures Distinct(a + b)
  {
    forall i, j | 0 <= i < j < |a + b|
      ensures (a + b)[i] != (a + b)[j]
    {
      if j >= |a| && i < |a| {
        assert (a + b)[j] == b[j - |a|] && (a + b)[i] == a[i];
      }
    }
  }

  // ---------------------------------------------------------------------------
  // Order-preserving sublists
  // ---------------------------------------------------------------------------

  /** `idx` lists positions below `bound` in strictly increasing order. */
  ghost predicate Increasing(idx: seq<int>, bound: int) {
    && (forall k :: 0 <= k < |idx| ==> 0 <= idx[k] < bound)
    && (forall k, l :: 0 <= k < l < |idx| ==> idx[k] < idx[l])
  }

  /** `a` is `b` with some elements deleted and the others kept in their order. */
  ghost predicate IsSubsequence<T>(a: seq<T>, b: seq<T>) {
    exists idx :: |idx| == |a| && Increasing(idx, |b|) && forall k :: 0 <= k < |a| ==> a[k] == b[idx[k]]
  }

  /** Python's `del s[k]`. */
  function Remove<T>(s: seq<T>, k: nat): (r: seq<T>)
    requires k < |s|
    ensures |r| == |s| - 1
    ensures forall m :: 0 <= m < |r| ==> r[m] == if m < k then s[m] else s[m + 1]
  {
    s[..k] + s[k + 1..]
  }

  lemma SubsequenceReflexive<T>(s: seq<T>)
    ensures IsSubsequence(s, s)
  {
    var idx := seq(|s|, k => k);
    assert Increasing(idx, |s|);
    assert forall k :: 0 <= k < |s| ==> s[k] == s[idx[k]];
  }

  lemma RemoveIsSubsequence<T>(s: seq<T>, k: nat)
    requires k < |s|
    ensures IsSubsequence(Remove(s, k), s)
  {
    var r := Remove(s, k);
    var idx := seq(|r|, m => if m < k then m else m + 1);
    assert Increasing(idx, |s|);
    assert forall m :: 0 <= m < |r| ==> r[m] == s[idx[m]];
  }

  lemma SubsequenceTransitive<T>(a: seq<T>, b: seq<T>, c: seq<T>)
    requires IsSubsequence(a, b) && IsSubsequence(b, c)
    ensures IsSubsequence(a, c)
  {
    var i1 :| |i1| == |a| && Increasing(i1, |b|) && forall k :: 0 <= k < |a| ==> a[k] == b[i1[k]];
    var i2 :| |i2| == |b| && Increasing(i2, |c|) && forall k :: 0 <= k < |b| ==> b[k] == c[i2[k]];
    var idx := seq(|a|, k requires 0 <= k < |a| => i2[i1[k]]);
    assert Increasing(idx, |c|);
    assert forall k :: 0 <= k < |a| ==> a[k] == c[idx[k]];
  }

  // ---------------------------------------------------------------------------
  // Filtering loops: keep what a function maps to Some, in order
  // ---------------------------------------------------------------------------

  /** The elements `f` maps to `Some`, unwrapped, in their original order. */
  function FilterMap<T, U>(f: T -> Option<U>, s: seq<T>): (r: seq<U>)
    ensures |r| <= |s|
    decreases |s|
  {
    if s == [] then []
    else FilterMap(f, s[..|s| - 1]) + (match f(s[|s| - 1]) case Some(u) => [u] case None => [])
  }

  lemma FilterMapSnoc<T, U>(f: T -> Option<U>, s: seq<T>, x: T)
    ensures f(x).None? ==> FilterMap(f, s + [x]) == FilterMap(f, s)
    ensures f(x).Some? ==> FilterMap(f, s + [x]) == FilterMap(f, s) + [f(x).value]
  {
    assert (s + [x])[..|s|] == s;
  }

  /** The positions of `s` that `f` keeps. */
  function KeptIndices<T, U>(f: T -> Option<U>, s: seq<T>): seq<int>
    decreases |s|
  {
    if s == [] then []
    else KeptIndices(f, s[..|s| - 1]) + (if f(s[|s| - 1]).Some? then [|s| - 1] else [])
  }

  /** `FilterMap` keeps exactly the positions `f` maps to `Some`, in order, each replaced by its image. */
  ghost predicate KeepsExactly<T, U>(f: T -> Option<U>, s: seq<T>, ks: seq<int>, r: seq<U>) {
    && |ks| == |r|
    && Increasing(ks, |s|)
    && (forall k :: 0 <= k < |ks| ==> 0 <= ks[k] < |s| && f(s[ks[k]]) == Some(r[k]))
    && (forall m :: 0 <= m < |s| ==> (f(s[m]).Some? <==> m in ks))
  }

  lemma {:induction false} FilterMapKeepsExactly<T, U>(f: T -> Option<U>, s: seq<T>)
    ensures KeepsExactly(f, s, KeptIndices(f, s), FilterMap(f, s))
    decreases |s|
  {
    if s != [] {
      var n := |s| - 1;
      var p, x := s[..n], s[n];
      FilterMapKeepsExactly(f, p);
      assert s == p + [x];
      FilterMapSnoc(f, p, x);
      var ks, r := KeptIndices(f, p), FilterMap(f, p);
      KeepsExactlySnoc(f, p, x, ks, r);
      if f(x).Some? {
        assert KeptIndices(f, s) == ks + [|p|] && FilterMap(f, s) == r + [f(x).value];
      } else {
        assert KeptIndices(f, s) == ks && FilterMap(f, s) == r;
      }
    }
  }

  /** One more element: kept with its image when `f` maps it to `Some`, skipped otherwise. */
  lemma KeepsExactlySnoc<T, U>(f: T -> Option<U>, p: seq<T>, x: T, ks: seq<int>, r: seq<U>)
    requires KeepsExactly(f, p, ks, r)
    ensures f(x).Some? ==> KeepsExactly(f, p + [x], ks + [|p|], r + [f(x).value])
    ensures f(x).None? ==> KeepsExactly(f, p + [x], ks, r)
  {
    var s := p + [x];
    forall k | 0 <= k < |ks| ensures s[ks[k]] == p[ks[k]] { }
    forall m | 0 <= m < |p| ensures s[m] == p[m] { }
    if f(x).None? {
      assert |p| !in ks;
    }
  }
}
