/**
 * The receiver: one view per face of a small cube around the receiving
 * point, searched for two rounds; each resolved view is classified by the
 * material of its target, and reflecting or refracting targets queue the
 * views seen through them for the next round.
 *
 * The model is generic in the view type `V`; what the receiver asks of a view
 * (`View.search`, the target's material, `copy`, `reflect_view`,
 * `refract_view`) is bundled in `Optics`.
 */
module Receivers {
  import opened Options
  import opened Regions
  import opened Seqs

  /**
   * An entry of the receiver's queue. `refract_view` returns a pair, and the
   * receiver appends that pair as ONE entry; `Pair` keeps this visible.
   */
  datatype Entry<V> = Single(view: V) | Pair(through: V, behind: V)

  datatype Optics<!V> = Optics(
    /** `v.search(space.polygons)`: the views resolved from `v`. */
    search: V -> seq<V>,
    /** `v.region.target.material` of a resolved view. */
    material: V -> Material,
    /** `v.copy()`. */
    copy: V -> V,
    /** `v.reflect_view()`. */
    reflect: V -> V,
    /** `v.refract_view()`: the straight-through view and the view from behind. */
    refract: V -> (V, V)
  )

  // ---------------------------------------------------------------------------
  // One round, as written
  // ---------------------------------------------------------------------------

  /**
   * Draining the queue: the resolved views of every entry, in queue order.
   * Calling `search` on a pair raises, so the drain fails exactly when the
   * queue holds a pair.
   */
  function Drain<V>(o: Optics<V>, q: seq<Entry<V>>): (r: Option<seq<V>>)
    ensures r.Some? <==> forall k :: 0 <= k < |q| ==> q[k].Single?
    decreases |q|
  {
    if q == [] then Some([])
    else
      var p := q[..|q| - 1];
      assert forall k :: 0 <= k < |p| ==> p[k] == q[k];
      match Drain(o, p)
      case None => None
      case Some(rs) =>
        match q[|q| - 1]
        case Single(v) => Some(rs + o.search(v))
        case Pair(_, _) => None
  }

  /** The entry a resolved view queues: reflection first, refraction only otherwise. */
  function ChildEntry<V>(o: Optics<V>): V -> Option<Entry<V>> {
    v =>
      if o.material(v).isReflective then Some(Single(o.reflect(v)))
      else if o.material(v).isRefractive then Some(Pair(o.refract(v).0, o.refract(v).1))
      else None
  }

  /** The queue a round leaves behind: each resolved view's entry, in order. */
  function Children<V>(o: Optics<V>, rs: seq<V>): seq<Entry<V>> {
    FilterMap(ChildEntry(o), rs)
  }

  /** The copy a resolved view adds to the sources, independently of its children. */
  function SourceOf<V>(o: Optics<V>): V -> Option<V> {
    v => if o.material(v).isSource then Some(o.copy(v)) else None
  }

  function Sources<V>(o: Optics<V>, rs: seq<V>): seq<V> {
    FilterMap(SourceOf(o), rs)
  }

  lemma ChildrenSnoc<V>(o: Optics<V>, rs: seq<V>, v: V)
    ensures Children(o, rs + [v]) == Children(o, rs) +
      if o.material(v).isReflective then [Single(o.reflect(v))]
      else if o.material(v).isRefractive then [Pair(o.refract(v).0, o.refract(v).1)]
      else []
  {
    FilterMapSnoc(ChildEntry(o), rs, v);
  }

  lemma SourcesSnoc<V>(o: Optics<V>, rs: seq<V>, v: V)
    ensures Sources(o, rs + [v]) == Sources(o, rs) + if o.material(v).isSource then [o.copy(v)] else []
  {
    FilterMapSnoc(SourceOf(o), rs, v);
  }

  /** One round: the next queue and the sources found, or `None` when the drain raises. */
  function Round<V>(o: Optics<V>, q: seq<Entry<V>>): (r: Option<(seq<Entry<V>>, seq<V>)>)
    ensures r.Some? <==> forall k :: 0 <= k < |q| ==> q[k].Single?
    ensures r.Some? ==> |r.value.0| <= |Drain(o, q).value| && |r.value.1| <= |Drain(o, q).value|
    ensures q == [] ==> r == Some(([], []))
  {
    match Drain(o, q)
    case None => None
    case Some(rs) => Some((Children(o, rs), Sources(o, rs)))
  }

  /** `n` rounds from queue `q`: the final queue and all sources, in the order found. */
  function Rounds<V>(o: Optics<V>, q: seq<Entry<V>>, n: nat): (r: Option<(seq<Entry<V>>, seq<V>)>)
    ensures q == [] ==> r == Some(([], []))
  {
    if n == 0 then Some((q, []))
    else match Rounds(o, q, n - 1)
      case None => None
      case Some(st) =>
        match Round(o, st.0)
        case None => None
        case Some(next) =>
          assert q == [] ==> st.1 + next.1 == [];
          Some((next.0, st.1 + next.1))
  }

  /** Once a round has raised, no later round count finishes either. */
  lemma {:induction false} RoundsStayRaised<V>(o: Optics<V>, q: seq<Entry<V>>, n: nat, m: nat)
    requires n <= m && Rounds(o, q, n).None?
    ensures Rounds(o, q, m).None?
    decreases m - n
  {
    if n < m {
      RoundsStayRaised(o, q, n, m - 1);
    }
  }

  /**
   * The classification of one round: the next queue holds, in order, one
   * entry per reflective or refractive resolved view (a `Single` reflection
   * for a reflective one, the refracted `Pair` for a refractive one that is
   * not reflective) and nothing for any other; the sources are one copy per
   * source view, whatever else its material does.
   */
  lemma ChildrenByMaterial<V>(o: Optics<V>, rs: seq<V>)
    ensures var idx := KeptIndices(ChildEntry(o), rs);
            var r := Children(o, rs);
      && |idx| == |r| && Increasing(idx, |rs|)
      && (forall k :: 0 <= k < |idx| ==>
            && 0 <= idx[k] < |rs|
            && (var m := o.material(rs[idx[k]]);
                && (m.isReflective || m.isRefractive)
                && r[k] == (if m.isReflective then Single(o.reflect(rs[idx[k]]))
                            else Pair(o.refract(rs[idx[k]]).0, o.refract(rs[idx[k]]).1))))
      && (forall j :: 0 <= j < |rs| ==>
            (j in idx <==> o.material(rs[j]).isReflective || o.material(rs[j]).isRefractive))
  {
    FilterMapKeepsExactly(ChildEntry(o), rs);
  }

  lemma SourcesAreCopies<V>(o: Optics<V>, rs: seq<V>)
    ensures var idx := KeptIndices(SourceOf(o), rs);
            var r := Sources(o, rs);
      && |idx| == |r| && Increasing(idx, |rs|)
      && (forall k :: 0 <= k < |idx| ==>
            0 <= idx[k] < |rs| && o.material(rs[idx[k]]).isSource && r[k] == o.copy(rs[idx[k]]))
      && (forall j :: 0 <= j < |rs| ==> (j in idx <==> o.material(rs[j]).isSource))
  {
    FilterMapKeepsExactly(SourceOf(o), rs);
  }

  /**
   * The pair bug: when a round resolves a refractive view that is not
   * reflective, its pair is queued as one entry and the next round raises.
   */
  lemma RefractedPairRaises<V>(o: Optics<V>, q: seq<Entry<V>>, j: nat)
    requires Drain(o, q).Some? && j < |Drain(o, q).value|
    requires !o.material(Drain(o, q).value[j]).isReflective && o.material(Drain(o, q).value[j]).isRefractive
    ensures Round(o, q).Some? && Round(o, Round(o, q).value.0).None?
  {
    var rs := Drain(o, q).value;
    FilterMapKeepsExactly(ChildEntry(o), rs);
    var idx := KeptIndices(ChildEntry(o), rs);
    var k :| 0 <= k < |idx| && idx[k] == j;
    assert Children(o, rs)[k].Pair?;
  }

  /** So the two rounds of `search` raise whenever the first round resolves such a view. */
  lemma SearchRaisesOnRefraction<V>(o: Optics<V>, q: seq<Entry<V>>, j: nat)
    requires Drain(o, q).Some? && j < |Drain(o, q).value|
    requires !o.material(Drain(o, q).value[j]).isReflective && o.material(Drain(o, q).value[j]).isRefractive
    ensures Rounds(o, q, 2).None?
  {
    RefractedPairRaises(o, q, j);
    assert Rounds(o, q, 1) == Some((Round(o, q).value.0, [] + Round(o, q).value.1));
  }

  // ---------------------------------------------------------------------------
  // One round, as evidently intended
  // ---------------------------------------------------------------------------

  /** The drain that searches every view an entry stands for. */
  function DrainAll<V>(o: Optics<V>, q: seq<Entry<V>>): seq<V>
    decreases |q|
  {
    if q == [] then []
    else DrainAll(o, q[..|q| - 1]) + match q[|q| - 1] case Single(v) => o.search(v) case Pair(t, b) => o.search(t) + o.search(b)
  }

  /** The entries a resolved view queues when a refracted pair is queued view by view. */
  function ChildViews<V>(o: Optics<V>, v: V): seq<Entry<V>> {
    if o.material(v).isReflective then [Single(o.reflect(v))]
    else if o.material(v).isRefractive then [Single(o.refract(v).0), Single(o.refract(v).1)]
    else []
  }

  function FixedChildren<V>(o: Optics<V>, rs: seq<V>): seq<Entry<V>>
    decreases |rs|
  {
    if rs == [] then [] else FixedChildren(o, rs[..|rs| - 1]) + ChildViews(o, rs[|rs| - 1])
  }

  lemma FixedChildrenSnoc<V>(o: Optics<V>, rs: seq<V>, v: V)
    ensures FixedChildren(o, rs + [v]) == FixedChildren(o, rs) + ChildViews(o, v)
  {
    assert (rs + [v])[..|rs|] == rs;
  }

  /** An entry as single views: a pair becomes its two views, in order. */
  function ViewsAsSingles<V>(e: Entry<V>): seq<Entry<V>> {
    match e
    case Single(v) => [Single(v)]
    case Pair(t, b) => [Single(t), Single(b)]
  }


  /** The queue with every pair replaced by its two views, in order. */
  function SplitPairs<V>(q: seq<Entry<V>>): (r: seq<Entry<V>>)
    ensures forall k :: 0 <= k < |r| ==> r[k].Single?
    decreases |q|
  {
    if q == [] then []
    else SplitPairs(q[..|q| - 1]) + ViewsAsSingles(q[|q| - 1])
  }

  function FixedRound<V>(o: Optics<V>, q: seq<Entry<V>>): (seq<Entry<V>>, seq<V>) {
    var rs := DrainAll(o, q);
    (FixedChildren(o, rs), Sources(o, rs))
  }

  function FixedRounds<V>(o: Optics<V>, q: seq<Entry<V>>, n: nat): (seq<Entry<V>>, seq<V>) {
    if n == 0 then (q, [])
    else
      var st := FixedRounds(o, q, n - 1);
      var next := FixedRound(o, st.0);
      (next.0, st.1 + next.1)
  }

  /** On a queue of single views the corrected drain is the drain as written. */
  lemma {:induction false} DrainAgrees<V>(o: Optics<V>, q: seq<Entry<V>>)
    requires forall k :: 0 <= k < |q| ==> q[k].Single?
    ensures Drain(o, q) == Some(DrainAll(o, q))
    decreases |q|
  {
    if q != [] {
      DrainAgrees(o, q[..|q| - 1]);
    }
  }

  lemma SplitPairsAppend<V>(a: seq<Entry<V>>, b: seq<Entry<V>>)
    ensures SplitPairs(a + b) == SplitPairs(a) + SplitPairs(b)
    decreases |b|
  {
    if b == [] {
      assert a + b == a;
    } else {
      var p, e := b[..|b| - 1], b[|b| - 1];
      assert (a + b)[..|a + b| - 1] == a + p;
      assert (a + b)[|a + b| - 1] == e;
      SplitPairsAppend(a, p);
      calc {
        SplitPairs(a + b);
        SplitPairs(a + p) + ViewsAsSingles(e);
        SplitPairs(a) + SplitPairs(p) + ViewsAsSingles(e);
        SplitPairs(a) + SplitPairs(b);
      }
    }
  }

  /** The corrected children are the written children with each pair queued view by view. */
  lemma {:induction false} FixedChildrenSplitPairs<V>(o: Optics<V>, rs: seq<V>)
    ensures FixedChildren(o, rs) == SplitPairs(Children(o, rs))
    decreases |rs|
  {
    if rs != [] {
      var p := rs[..|rs| - 1];
      var v := rs[|rs| - 1];
      FixedChildrenSplitPairs(o, p);
      assert rs == p + [v];
      FilterMapSnoc(ChildEntry(o), p, v);
      match ChildEntry(o)(v)
      case None =>
      case Some(e) =>
        SplitPairsAppend(Children(o, p), [e]);
        assert SplitPairs([e]) == ViewsAsSingles(e);
    }
  }

  /** Both views of a refracted pair reach the next queue of the corrected round. */
  lemma {:induction false} FixedQueuesBothRefractedViews<V>(o: Optics<V>, rs: seq<V>, j: nat)
    requires j < |rs| && !o.material(rs[j]).isReflective && o.material(rs[j]).isRefractive
    ensures Single(o.refract(rs[j]).0) in FixedChildren(o, rs)
    ensures Single(o.refract(rs[j]).1) in FixedChildren(o, rs)
    decreases |rs|
  {
    var p := rs[..|rs| - 1];
    if j < |rs| - 1 {
      assert p[j] == rs[j];
      FixedQueuesBothRefractedViews(o, p, j);
    }
    assert FixedChildren(o, rs) == FixedChildren(o, p) + ChildViews(o, rs[|rs| - 1]);
  }

  /** A corrected round queues only single views. */
  lemma {:induction false} FixedChildrenAreSingle<V>(o: Optics<V>, rs: seq<V>)
    ensures forall k :: 0 <= k < |FixedChildren(o, rs)| ==> FixedChildren(o, rs)[k].Single?
  {
    FixedChildrenSplitPairs(o, rs);
  }

  /**
   * Where the first round resolves no refractive-only view (so no pair is
   * queued), the two rounds as written finish and find the same sources as
   * the corrected rounds, and leave the same queue but for pairs.
   */
  lemma RoundsAgreeWithoutRefraction<V>(o: Optics<V>, q: seq<Entry<V>>)
    requires forall k :: 0 <= k < |q| ==> q[k].Single?
    requires forall v :: v in DrainAll(o, q) ==> o.material(v).isReflective || !o.material(v).isRefractive
    ensures Rounds(o, q, 2).Some?
    ensures Rounds(o, q, 2).value.1 == FixedRounds(o, q, 2).1
    ensures SplitPairs(Rounds(o, q, 2).value.0) == FixedRounds(o, q, 2).0
  {
    DrainAgrees(o, q);
    var rs := DrainAll(o, q);
    NoPairSplitsToItself(o, rs);
    FixedChildrenSplitPairs(o, rs);
    var q1 := Children(o, rs);
    assert q1 == FixedChildren(o, rs);
    assert Rounds(o, q, 1) == Some((q1, [] + Sources(o, rs)));
    assert FixedRounds(o, q, 1) == (q1, [] + Sources(o, rs));
    DrainAgrees(o, q1);
    var rs2 := DrainAll(o, q1);
    FixedChildrenSplitPairs(o, rs2);
    assert Round(o, q1) == Some((Children(o, rs2), Sources(o, rs2)));
    assert FixedRound(o, q1) == (FixedChildren(o, rs2), Sources(o, rs2));
  }

  /** Without refractive-only views the children hold no pair. */
  lemma {:induction false} NoPairSplitsToItself<V>(o: Optics<V>, rs: seq<V>)
    requires forall v :: v in rs ==> o.material(v).isReflective || !o.material(v).isRefractive
    ensures forall k :: 0 <= k < |Children(o, rs)| ==> Children(o, rs)[k].Single?
    ensures SplitPairs(Children(o, rs)) == Children(o, rs)
    decreases |rs|
  {
    if rs != [] {
      var p := rs[..|rs| - 1];
      var v := rs[|rs| - 1];
      assert rs == p + [v];
      NoPairSplitsToItself(o, p);
      FilterMapSnoc(ChildEntry(o), p, v);
      match ChildEntry(o)(v)
      case None =>
      case Some(e) =>
        SplitPairsAppend(Children(o, p), [e]);
        assert SplitPairs([e]) == [e];
    }
  }

  // ---------------------------------------------------------------------------
  // The receiver
  // ---------------------------------------------------------------------------

  class Receiver<V> {
    var origin: Point
    var views: seq<Entry<V>>

    /**
     * Seeding: one view from the origin per face of the cube, in the order
     * the faces are given. `faces` is what `space.cube(origin, ...)` returns
     * and `mk` is the `View` constructor.
     */
    constructor (origin: Point, faces: seq<Polygon>, mk: (Point, Polygon) -> V)
      ensures this.origin == origin
      ensures |views| == |faces| && forall k :: 0 <= k < |faces| ==> views[k] == Single(mk(origin, faces[k]))
    {
      var seeded: seq<Entry<V>> := [];
      for k := 0 to |faces|
        invariant |seeded| == k && forall i :: 0 <= i < k ==> seeded[i] == Single(mk(origin, faces[i]))
      {
        seeded := seeded + [Single(mk(origin, faces[k]))];
      }
      this.origin := origin;
      views := seeded;
    }

    /**
     * The first loop of a round: pop entries from the front and collect what
     * `search` resolves from each. `None` when a popped entry is a pair, on
     * which `search` raises.
     */
    method DrainViews(o: Optics<V>) returns (resolved: Option<seq<V>>)
      modifies this
      ensures origin == old(origin)
      ensures resolved == Drain(o, old(views))
      ensures resolved.Some? ==> views == []
    {
      ghost var qr := views;
      var found: seq<V> := [];
      while |views| > 0
        invariant origin == old(origin)
        invariant |views| <= |qr| && views == qr[|qr| - |views|..]
        invariant Drain(o, qr[..|qr| - |views|]) == Some(found)
      {
        ghost var c := |qr| - |views|;
        assert qr[..c + 1][..c] == qr[..c];
        var e := views[0];
        assert e == qr[c];
        views := views[1..];
        if e.Pair? {
          assert Drain(o, qr).None?;
          return None;
        }
        found := found + o.search(e.view);
      }
      assert qr[..|qr|] == qr;
      resolved := Some(found);
    }

    /**
     * The second loop of a round: pop resolved views from the front; a
     * source adds a copy to the sources, and a reflection or (otherwise) a
     * refraction is appended to the queue.
     */
    method Classify(o: Optics<V>, resolved: seq<V>) returns (found: seq<V>)
      modifies this
      ensures origin == old(origin)
      ensures views == old(views) + Children(o, resolved)
      ensures found == Sources(o, resolved)
    {
      var rest := resolved;
      found := [];
      while |rest| > 0
        invariant origin == old(origin)
        invariant |rest| <= |resolved| && rest == resolved[|resolved| - |rest|..]
        invariant views == old(views) + Children(o, resolved[..|resolved| - |rest|])
        invariant found == Sources(o, resolved[..|resolved| - |rest|])
      {
        ghost var c := |resolved| - |rest|;
        ghost var done := resolved[..c];
        var v := rest[0];
        assert resolved[..c + 1] == done + [v];
        ChildrenSnoc(o, done, v);
        SourcesSnoc(o, done, v);
        rest := rest[1..];
        var material := o.material(v);
        if material.isSource {
          found := found + [o.copy(v)];
        }
        if material.isReflective {
          views := views + [Single(o.reflect(v))];
        } else if material.isRefractive {
          var (through, behind) := o.refract(v);
          views := views + [Pair(through, behind)];
        }
      }
      assert resolved[..|resolved|] == resolved;
    }

    /**
     * `search` as written: two rounds; each first empties the queue through
     * `search`, then classifies every resolved view. `ok` is false when a
     * round raises on a queued pair. The sources are collected locally and
     * not returned; what is left is the queue of round two's children.
     */
    method Search(o: Optics<V>) returns (ok: bool)
      modifies this
      ensures origin == old(origin)
      ensures ok <==> Rounds(o, old(views), 2).Some?
      ensures ok ==> views == Rounds(o, old(views), 2).value.0
    {
      var sources: seq<V> := [];
      ghost var q0 := views;
      for it := 1 to 3
        invariant origin == old(origin)
        invariant Rounds(o, q0, it - 1) == Some((views, sources))
      {
        ghost var qr := views;
        var resolved := DrainViews(o);
        if resolved.None? {
          RoundsStayRaised(o, q0, it, 2);
          return false;
        }
        var found := Classify(o, resolved.value);
        assert views == Children(o, resolved.value);
        assert Round(o, qr) == Some((views, found));
        sources := sources + found;
      }
      ok := true;
    }

    /** The first loop of a corrected round: a pair is searched view by view. */
    method DrainAllViews(o: Optics<V>) returns (resolved: seq<V>)
      modifies this
      ensures origin == old(origin)
      ensures resolved == DrainAll(o, old(views)) && views == []
    {
      ghost var qr := views;
      resolved := [];
      while |views| > 0
        invariant origin == old(origin)
        invariant |views| <= |qr| && views == qr[|qr| - |views|..]
        invariant DrainAll(o, qr[..|qr| - |views|]) == resolved
      {
        ghost var c := |qr| - |views|;
        assert qr[..c + 1][..c] == qr[..c];
        var e := views[0];
        assert e == qr[c];
        views := views[1..];
        match e
        case Single(v) =>
          resolved := resolved + o.search(v);
        case Pair(through, behind) =>
          resolved := resolved + (o.search(through) + o.search(behind));
      }
      assert qr[..|qr|] == qr;
    }

    /** The second loop of a corrected round: both refracted views are queued. */
    method ClassifyAll(o: Optics<V>, resolved: seq<V>) returns (found: seq<V>)
      modifies this
      ensures origin == old(origin)
      ensures views == old(views) + FixedChildren(o, resolved)
      ensures found == Sources(o, resolved)
    {
      var rest := resolved;
      found := [];
      while |rest| > 0
        invariant origin == old(origin)
        invariant |rest| <= |resolved| && rest == resolved[|resolved| - |rest|..]
        invariant views == old(views) + FixedChildren(o, resolved[..|resolved| - |rest|])
        invariant found == Sources(o, resolved[..|resolved| - |rest|])
      {
        ghost var c := |resolved| - |rest|;
        ghost var done := resolved[..c];
        var v := rest[0];
        assert resolved[..c + 1] == done + [v];
        FixedChildrenSnoc(o, done, v);
        SourcesSnoc(o, done, v);
        rest := rest[1..];
        var material := o.material(v);
        if material.isSource {
          found := found + [o.copy(v)];
        }
        ghost var before := views;
        if material.isReflective {
          views := views + [Single(o.reflect(v))];
        } else if material.isRefractive {
          var (through, behind) := o.refract(v);
          views := views + [Single(through), Single(behind)];
        }
        assert views == before + ChildViews(o, v);
        assert views == old(views) + (FixedChildren(o, done) + ChildViews(o, v));
        assert |resolved| - |rest| == c + 1;
      }
      assert resolved[..|resolved|] == resolved;
    }

    /**
     * `search` as evidently intended: both views of a refracted pair are
     * queued (a pair already in the queue is searched view by view) and the
     * sources of both rounds are returned.
     */
    method SearchForSources(o: Optics<V>) returns (sources: seq<V>)
      modifies this
      ensures origin == old(origin)
      ensures (views, sources) == FixedRounds(o, old(views), 2)
      ensures forall k :: 0 <= k < |views| ==> views[k].Single?
    {
      sources := [];
      ghost var q0 := views;
      for it := 1 to 3
        invariant origin == old(origin)
        invariant FixedRounds(o, q0, it - 1) == (views, sources)
        invariant it > 1 ==> forall k :: 0 <= k < |views| ==> views[k].Single?
      {
        ghost var qr := views;
        var resolved := DrainAllViews(o);
        var found := ClassifyAll(o, resolved);
        assert views == FixedChildren(o, resolved);
        assert FixedRound(o, qr) == (views, found);
        sources := sources + found;
        FixedChildrenAreSingle(o, resolved);
      }
    }
  }
}
