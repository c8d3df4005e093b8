/**
 * The list logic of a View, stated as functions: the candidate filter, the
 * crop-and-filter, the occlusion sweep and the nearest-edge choice. The class
 * in module Views runs the same steps in place and is proved equal to these.
 */
module Candidates {
  import opened Options
  import opened Regions
  import opened Seqs

  // ---------------------------------------------------------------------------
  // Candidate discovery (`__search_polygons`) and cropping (`__refine_visibles`)
  // ---------------------------------------------------------------------------

  /** The tests a scene polygon must pass to become a candidate of `region`. */
  ghost predicate Discoverable(g: Geometry, region: Region, p: ScenePolygon) {
    && !p.illOnly
    && g.depth(p.shape, region.origin) != 0.0
    && !(g.depth(p.shape, region.origin) < 0.0 && p.material.isReflective)
    && g.projectAndCrop(region.window, region.origin, p.shape).Some?
  }

  /** What `__search_polygons` makes of one scene polygon. */
  function Candidate(g: Geometry, region: Region, p: ScenePolygon): (r: Option<Region>)
    ensures r.Some? <==> Discoverable(g, region, p)
    ensures r.Some? ==> r.value.origin == region.origin && r.value.target.Some?
  {
    if p.illOnly then None
    else
      var z := g.depth(p.shape, region.origin);
      if z == 0.0 then None
      else if z < 0.0 && p.material.isReflective then None
      else match g.projectAndCrop(region.window, region.origin, p.shape)
        case None => None
        case Some(pp) => Some(Region(region.origin, pp.0, Some(pp.1)))
  }

  function CandidateOf(g: Geometry, region: Region): ScenePolygon -> Option<Region> {
    p => Candidate(g, region, p)
  }

  /** What `__refine_visibles` makes of one candidate: `region.crop_visible(v)`. */
  function CropOf(g: Geometry, region: Region): Region -> Option<Region> {
    v => g.cropVisible(region, v)
  }

  /**
   * The candidate list keeps, in scene order, exactly the discoverable
   * polygons, each as the region (origin, window-space polygon, projected polygon).
   */
  lemma CandidatesKeepExactly(g: Geometry, region: Region, ps: seq<ScenePolygon>)
    ensures var idx := KeptIndices(CandidateOf(g, region), ps);
            var r := FilterMap(CandidateOf(g, region), ps);
      && |idx| == |r| && Increasing(idx, |ps|)
      && (forall k :: 0 <= k < |idx| ==>
            && 0 <= idx[k] < |ps| && Discoverable(g, region, ps[idx[k]])
            && var pp := g.projectAndCrop(region.window, region.origin, ps[idx[k]].shape).value;
               r[k] == Region(region.origin, pp.0, Some(pp.1)))
      && (forall m :: 0 <= m < |ps| ==> (m in idx <==> Discoverable(g, region, ps[m])))
  {
    FilterMapKeepsExactly(CandidateOf(g, region), ps);
  }

  // ---------------------------------------------------------------------------
  // Occlusion sweep (`__remove_occluded`)
  // ---------------------------------------------------------------------------

  /** What one comparison of an earlier candidate `v1` with a later `v2` decides. */
  datatype Verdict = Keep | FirstOccluded | SecondOccluded | Intersecting

  function PairVerdict(g: Geometry, v1: Region, v2: Region): (r: Verdict)
    ensures r == Keep <==>
      var c1, c2 := g.compareVisible(v2, v1), g.compareVisible(v1, v2);
      !(c1.interior && c1.farther) && !(c2.interior && c2.farther) && !(c1.interior && c2.interior)
    ensures r == FirstOccluded <==> g.compareVisible(v2, v1).interior && g.compareVisible(v2, v1).farther
    ensures r != Keep && r != FirstOccluded ==> g.compareVisible(v1, v2).interior
  {
    var c1 := g.compareVisible(v2, v1);  // v1 relative to v2
    var c2 := g.compareVisible(v1, v2);  // v2 relative to v1
    if c1.interior && c1.farther then FirstOccluded
    else if c2.interior && c2.farther then SecondOccluded
    else if c1.interior && c2.interior then Intersecting
    else Keep
  }

  /** The first partner at or after `j` that the candidate at `i` conflicts with. */
  function FirstConflict(g: Geometry, vs: seq<Region>, i: nat, j: nat): (r: Option<nat>)
    requires i < |vs| && j <= |vs|
    ensures r.None? ==> forall m :: j <= m < |vs| ==> PairVerdict(g, vs[i], vs[m]) == Keep
    ensures r.Some? ==>
      && j <= r.value < |vs| && PairVerdict(g, vs[i], vs[r.value]) != Keep
      && forall m :: j <= m < r.value ==> PairVerdict(g, vs[i], vs[m]) == Keep
    decreases |vs| - j
  {
    if j == |vs| then None
    else if PairVerdict(g, vs[i], vs[j]) != Keep then Some(j)
    else FirstConflict(g, vs, i, j + 1)
  }

  /** One pass of the outer loop at index `i`: the list and index afterwards. */
  function SweepStep(g: Geometry, vs: seq<Region>, i: nat): (r: (seq<Region>, nat))
    requires i + 1 < |vs|
    ensures r.1 <= |r.0| && |r.0| - r.1 == |vs| - i - 1
    ensures i <= r.1 <= i + 1 && |r.0| <= |vs| && r.0[..i] == vs[..i]
  {
    match FirstConflict(g, vs, i, i + 1)
    case None => (vs, i + 1)
    case Some(j) =>
      if PairVerdict(g, vs[i], vs[j]) == FirstOccluded then (Remove(vs, i), i) else (Remove(vs, j), i)
  }

  /** A pass at `i` either moves on, having found no partner to delete against, or deletes once. */
  ghost predicate StepByRule(g: Geometry, vs: seq<Region>, i: nat, r: (seq<Region>, nat))
    requires i + 1 < |vs|
  {
    || (r.1 == i + 1 && r.0 == vs && forall j :: i < j < |vs| ==> PairVerdict(g, vs[i], vs[j]) == Keep)
    || (r.1 == i && exists j :: DeletesAt(g, vs, i, j, r.0))
  }

  /**
   * The deletion of one pass, against the first partner `j` that calls for one:
   * the candidate at `i` goes when it is farther and inside `j`; the one at `j`
   * goes when it is farther and inside `i`, or when the two are inside each other.
   */
  ghost predicate DeletesAt(g: Geometry, vs: seq<Region>, i: nat, j: int, after: seq<Region>)
    requires i < |vs|
  {
    && i < j < |vs|
    && (forall m :: i < m < j ==> PairVerdict(g, vs[i], vs[m]) == Keep)
    && ((PairVerdict(g, vs[i], vs[j]) == FirstOccluded && after == Remove(vs, i))
        || (PairVerdict(g, vs[i], vs[j]) in {SecondOccluded, Intersecting} && after == Remove(vs, j)))
  }

  /** A candidate is deleted only in the three cases `DeletesAt` names. */
  lemma SweepStepDeletesByRule(g: Geometry, vs: seq<Region>, i: nat)
    requires i + 1 < |vs|
    ensures StepByRule(g, vs, i, SweepStep(g, vs, i))
  {
    var r := SweepStep(g, vs, i);
    match FirstConflict(g, vs, i, i + 1)
    case None =>
    case Some(j) =>
      assert DeletesAt(g, vs, i, j, r.0);
  }

  /** The sweep from index `i` on, until `i` reaches the last candidate. */
  function SweepFrom(g: Geometry, vs: seq<Region>, i: nat): (r: seq<Region>)
    requires i <= |vs|
    ensures i <= |r| <= |vs| && r[..i] == vs[..i]
    decreases |vs| - i
  {
    if i + 1 < |vs| then
      var step := SweepStep(g, vs, i);
      SweepFrom(g, step.0, step.1)
    else vs
  }

  function Sweep(g: Geometry, vs: seq<Region>): (r: seq<Region>)
    ensures |r| <= |vs|
    ensures |vs| <= 1 ==> r == vs
  {
    SweepFrom(g, vs, 0)
  }

  /** No pair of candidates, earlier against later, calls for a deletion. */
  ghost predicate NoConflicts(g: Geometry, vs: seq<Region>) {
    forall a, b :: 0 <= a < b < |vs| ==> PairVerdict(g, vs[a], vs[b]) == Keep
  }

  /** Every candidate before `i` has been compared with every later one without a deletion. */
  ghost predicate Settled(g: Geometry, vs: seq<Region>, i: int) {
    forall a, b :: 0 <= a < i && a < b < |vs| ==> PairVerdict(g, vs[a], vs[b]) == Keep
  }

  /** The sweep only deletes: its result is an order-preserving sublist of its input. */
  lemma {:induction false} SweepFromIsSubsequence(g: Geometry, vs: seq<Region>, i: nat)
    requires i <= |vs|
    ensures IsSubsequence(SweepFrom(g, vs, i), vs)
    decreases |vs| - i
  {
    if i + 1 < |vs| {
      var r := SweepStep(g, vs, i);
      SweepStepDeletesByRule(g, vs, i);
      SweepFromIsSubsequence(g, r.0, r.1);
      if r.1 == i + 1 {
        assert r.0 == vs;
      } else {
        var j :| DeletesAt(g, vs, i, j, r.0);
        if r.0 == Remove(vs, i) {
          RemoveIsSubsequence(vs, i);
        } else {
          RemoveIsSubsequence(vs, j);
        }
        SubsequenceTransitive(SweepFrom(g, r.0, r.1), r.0, vs);
      }
    } else {
      SubsequenceReflexive(vs);
    }
  }

  /** Deleting at or after `i` keeps the settled prefix settled. */
  lemma RemoveKeepsSettled(g: Geometry, vs: seq<Region>, k: nat, i: nat)
    requires i <= k < |vs| && Settled(g, vs, i)
    ensures Settled(g, Remove(vs, k), i)
  {
    var r := Remove(vs, k);
    forall a, b | 0 <= a < i && a < b < |r|
      ensures PairVerdict(g, r[a], r[b]) == Keep
    {
      assert r[a] == vs[a];
      if b < k {
        assert r[b] == vs[b];
      } else {
        assert r[b] == vs[b + 1];
      }
    }
  }

  /** At exit no surviving pair meets any of the three deletion conditions. */
  lemma {:induction false} SweepFromSettles(g: Geometry, vs: seq<Region>, i: nat)
    requires i <= |vs| && Settled(g, vs, i)
    ensures NoConflicts(g, SweepFrom(g, vs, i))
    decreases |vs| - i
  {
    if i + 1 < |vs| {
      var r := SweepStep(g, vs, i);
      SweepStepDeletesByRule(g, vs, i);
      if r.1 == i + 1 {
        assert Settled(g, vs, i + 1);
      } else {
        var j :| DeletesAt(g, vs, i, j, r.0);
        if r.0 == Remove(vs, i) {
          RemoveKeepsSettled(g, vs, i, i);
        } else {
          RemoveKeepsSettled(g, vs, j, i);
        }
      }
      SweepFromSettles(g, r.0, r.1);
    }
  }

  /** A list without conflicts passes through the sweep unchanged. */
  lemma {:induction false} SweepFromKeepsSettledList(g: Geometry, vs: seq<Region>, i: nat)
    requires i <= |vs| && NoConflicts(g, vs)
    ensures SweepFrom(g, vs, i) == vs
    decreases |vs| - i
  {
    if i + 1 < |vs| {
      var r := SweepStep(g, vs, i);
      SweepStepDeletesByRule(g, vs, i);
      assert r.1 == i + 1;
      SweepFromKeepsSettledList(g, r.0, r.1);
    }
  }

  /** The sweep never empties a non-empty list: it only deletes while two candidates remain. */
  lemma {:induction false} SweepFromKeepsOne(g: Geometry, vs: seq<Region>, i: nat)
    requires i <= |vs| && |vs| >= 1
    ensures |SweepFrom(g, vs, i)| >= 1
    decreases |vs| - i
  {
    if i + 1 < |vs| {
      var r := SweepStep(g, vs, i);
      SweepFromKeepsOne(g, r.0, r.1);
    }
  }

  /** A whole sweep yields an order-preserving sublist with no pair left to delete. */
  lemma SweepIsSettledSublist(g: Geometry, vs: seq<Region>)
    ensures IsSubsequence(Sweep(g, vs), vs)
    ensures NoConflicts(g, Sweep(g, vs))
  {
    SweepFromIsSubsequence(g, vs, 0);
    SweepFromSettles(g, vs, 0);
  }

  /** A second sweep changes nothing, and a non-empty list stays non-empty. */
  lemma SweepIdempotent(g: Geometry, vs: seq<Region>)
    ensures Sweep(g, Sweep(g, vs)) == Sweep(g, vs)
    ensures |vs| >= 1 ==> |Sweep(g, vs)| >= 1
  {
    SweepFromSettles(g, vs, 0);
    SweepFromKeepsSettledList(g, Sweep(g, vs), 0);
    if |vs| >= 1 {
      SweepFromKeepsOne(g, vs, 0);
    }
  }

  // ---------------------------------------------------------------------------
  // Nearest splitting edge (the selection loop of `__refine`)
  // ---------------------------------------------------------------------------

  /** The lexicographic test on the distance pairs `(d1, d2)`. */
  predicate Nearer(a: Edge, b: Edge) {
    a.d1 < b.d1 || (a.d1 == b.d1 && a.d2 < b.d2)
  }

  function EdgeOf(g: Geometry, region: Region, v: Region): Option<Edge> {
    g.nearestIntersection(region, v)
  }

  /** One step of the selection: a found edge replaces the best so far only when strictly nearer. */
  function Better(best: Option<Edge>, e: Option<Edge>): Option<Edge> {
    match e
    case None => best
    case Some(x) => if best.None? || Nearer(x, best.value) then e else best
  }

  /** The edge the selection loop ends with. */
  function BestEdge(g: Geometry, region: Region, vs: seq<Region>): (r: Option<Edge>)
    ensures r.Some? ==> exists k :: 0 <= k < |vs| && EdgeOf(g, region, vs[k]) == r
    decreases |vs|
  {
    if vs == [] then None
    else Better(BestEdge(g, region, vs[..|vs| - 1]), EdgeOf(g, region, vs[|vs| - 1]))
  }

  /**
   * Candidate `k` yields the edge `b`, which is strictly nearer than every
   * earlier edge and not beaten by any later one.
   */
  ghost predicate ChosenAt(g: Geometry, region: Region, vs: seq<Region>, k: int, b: Edge) {
    && 0 <= k < |vs|
    && EdgeOf(g, region, vs[k]) == Some(b)
    && (forall j :: 0 <= j < k && EdgeOf(g, region, vs[j]).Some? ==> Nearer(b, EdgeOf(g, region, vs[j]).value))
    && (forall j :: k < j < |vs| && EdgeOf(g, region, vs[j]).Some? ==> !Nearer(EdgeOf(g, region, vs[j]).value, b))
  }

  /**
   * The chosen edge is found exactly when some candidate has one; it is the
   * edge of a candidate that is strictly nearer than every earlier edge and
   * not beaten by any later one: the lexicographic minimum, earliest on ties.
   */
  lemma {:induction false} BestEdgeIsNearest(g: Geometry, region: Region, vs: seq<Region>)
    ensures BestEdge(g, region, vs).None? <==> forall k :: 0 <= k < |vs| ==> EdgeOf(g, region, vs[k]).None?
    ensures BestEdge(g, region, vs).Some? ==> exists k :: ChosenAt(g, region, vs, k, BestEdge(g, region, vs).value)
    decreases |vs|
  {
    if vs != [] {
      var n := |vs| - 1;
      var p := vs[..n];
      BestEdgeIsNearest(g, region, p);
      assert forall m :: 0 <= m < n ==> p[m] == vs[m];
      var prev := BestEdge(g, region, p);
      var e := EdgeOf(g, region, vs[n]);
      var b := BestEdge(g, region, vs);
      assert b == Better(prev, e);
      if prev.None? {
        if e.Some? {
          assert ChosenAt(g, region, vs, n, e.value);
        }
      } else {
        var k :| ChosenAt(g, region, p, k, prev.value);
        if e.Some? && Nearer(e.value, prev.value) {
          NearerThanChosen(g, region, vs, k, prev.value, e.value);
        } else {
          assert ChosenAt(g, region, vs, k, prev.value);
        }
      }
    }
  }

  /** An edge strictly nearer than the chosen one of a prefix is nearer than every edge of that prefix. */
  lemma NearerThanChosen(g: Geometry, region: Region, vs: seq<Region>, k: int, b: Edge, x: Edge)
    requires |vs| > 0 && ChosenAt(g, region, vs[..|vs| - 1], k, b) && Nearer(x, b)
    requires EdgeOf(g, region, vs[|vs| - 1]) == Some(x)
    ensures ChosenAt(g, region, vs, |vs| - 1, x)
  {
    var n := |vs| - 1;
    forall j | 0 <= j < n && EdgeOf(g, region, vs[j]).Some?
      ensures Nearer(x, EdgeOf(g, region, vs[j]).value)
    {
      assert vs[..n][j] == vs[j];
    }
  }

  /** The two vertices `split` is called with; both are `None` when no edge was found. */
  function FirstVertex(e: Option<Edge>): Option<Vertex> {
    if e.Some? then Some(e.value.v1) else None
  }

  function SecondVertex(e: Option<Edge>): Option<Vertex> {
    if e.Some? then Some(e.value.v2) else None
  }

  /**
   * When no candidate yields an edge, both halves of the split are cut with
   * `split(None, None)`: the two subviews get the same window.
   */
  lemma NoEdgeSplitsWithNone(g: Geometry, region: Region, vs: seq<Region>)
    requires forall k :: 0 <= k < |vs| ==> EdgeOf(g, region, vs[k]).None?
    ensures FirstVertex(BestEdge(g, region, vs)) == None && SecondVertex(BestEdge(g, region, vs)) == None
  {
    BestEdgeIsNearest(g, region, vs);
  }
}
