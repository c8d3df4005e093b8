/**
 * A View: one region, a back-link to the view it was derived from, and the
 * working list of candidate regions (`None` once the view is resolved).
 */
module Views {
  import opened Options
  import opened Regions
  import opened Seqs
  import opened Candidates

  /**
   * The selection loop of `__refine`: the vertices of the nearest edge any
   * candidate offers, `None` when no candidate offers one.
   */
  method NearestEdge(g: Geometry, region: Region, vs: seq<Region>) returns (v1Best: Option<Vertex>, v2Best: Option<Vertex>)
    ensures v1Best == FirstVertex(BestEdge(g, region, vs))
    ensures v2Best == SecondVertex(BestEdge(g, region, vs))
  {
    v1Best, v2Best := None, None;
    var d1Best, d2Best := 0.0, 0.0;
    for k := 0 to |vs|
      invariant v1Best.None? <==> BestEdge(g, region, vs[..k]).None?
      invariant v1Best.None? ==> v2Best.None?
      invariant BestEdge(g, region, vs[..k]).Some? ==>
        var b := BestEdge(g, region, vs[..k]).value;
        v1Best == Some(b.v1) && v2Best == Some(b.v2) && d1Best == b.d1 && d2Best == b.d2
    {
      assert vs[..k + 1][..k] == vs[..k];
      var e := g.nearestIntersection(region, vs[k]);
      if e.None? {
        continue;
      }
      var Edge(v1, d1, v2, d2) := e.value;
      if v1Best.None? || (d1 < d1Best || (d1 == d1Best && d2 < d2Best)) {
        v1Best, v2Best := Some(v1), Some(v2);
        d1Best, d2Best := d1, d2;
      }
    }
    assert vs[..|vs|] == vs;
  }

  class View {
    var region: Region
    var parent: View?
    var visibles: Option<seq<Region>>

    constructor (origin: Point, window: Polygon, visibles: Option<seq<Region>>)
      ensures region == Region(origin, window, None) && parent == null && this.visibles == visibles
    {
      region := Region(origin, window, None);
      parent := null;
      this.visibles := visibles;
    }

    /** A new view with the same region, target, parent and (copied) candidate list. */
    method Copy() returns (view: View)
      ensures fresh(view)
      ensures view.region == region && view.parent == parent && view.visibles == visibles
    {
      view := new View(region.origin, region.window, visibles);
      view.region := view.region.(target := region.target);
      view.parent := parent;
    }

    /** `__search_polygons`: one candidate per polygon that passes the tests, in scene order. */
    method SearchPolygons(g: Geometry, polygons: seq<ScenePolygon>)
      modifies this
      ensures region == old(region) && parent == old(parent)
      ensures visibles == Some(FilterMap(CandidateOf(g, region), polygons))
    {
      ghost var f := CandidateOf(g, region);
      visibles := Some([]);
      for k := 0 to |polygons|
        invariant region == old(region) && parent == old(parent)
        invariant visibles == Some(FilterMap(f, polygons[..k]))
      {
        var p := polygons[k];
        assert polygons[..k + 1] == polygons[..k] + [p];
        FilterMapSnoc(f, polygons[..k], p);
        assert f(p) == Candidate(g, region, p);
        if p.illOnly {
          continue;
        }
        var localZ := g.depth(p.shape, region.origin);
        if localZ == 0.0 {
          continue;  // the origin lies in the polygon's plane
        }
        if localZ < 0.0 && p.material.isReflective {
          continue;  // behind a reflective plane
        }
        var pp := g.projectAndCrop(region.window, region.origin, p.shape);
        if pp.Some? {
          var (poly, proj) := pp.value;
          assert Candidate(g, region, p) == Some(Region(region.origin, poly, Some(proj)));
          visibles := Some(visibles.value + [Region(region.origin, poly, Some(proj))]);
        }
      }
      assert polygons[..|polygons|] == polygons;
    }

    /** `__refine_visibles`: every candidate cropped to the current window, empty crops dropped. */
    method RefineVisibles(g: Geometry)
      requires visibles.Some?
      modifies this
      ensures region == old(region) && parent == old(parent)
      ensures visibles == Some(FilterMap(CropOf(g, region), old(visibles).value))
    {
      var vs := visibles.value;
      var kept: seq<Region> := [];
      for k := 0 to |vs|
        invariant region == old(region) && parent == old(parent) && visibles == old(visibles)
        invariant kept == FilterMap(CropOf(g, region), vs[..k])
      {
        assert vs[..k + 1] == vs[..k] + [vs[k]];
        FilterMapSnoc(CropOf(g, region), vs[..k], vs[k]);
        assert CropOf(g, region)(vs[k]) == g.cropVisible(region, vs[k]);
        var cropV := g.cropVisible(region, vs[k]);
        if cropV.Some? {
          kept := kept + [cropV.value];
        }
      }
      assert vs[..|vs|] == vs;
      visibles := Some(kept);
    }

    /**
     * `__remove_occluded`: the index sweep that deletes occluded candidates in
     * place. The result is the sweep function's; it is an order-preserving
     * sublist with no pair left to delete, and short lists are untouched.
     */
    method RemoveOccluded(g: Geometry)
      requires visibles.Some?
      modifies this
      ensures region == old(region) && parent == old(parent)
      ensures visibles == Some(Sweep(g, old(visibles).value))
      ensures |old(visibles).value| <= 1 ==> visibles == old(visibles)
    {
      var iv1: nat := 0;
      while iv1 < |visibles.value| - 1 && |visibles.value| > 1
        invariant visibles.Some? && iv1 <= |visibles.value|
        invariant region == old(region) && parent == old(parent)
        invariant SweepFrom(g, visibles.value, iv1) == Sweep(g, old(visibles).value)
        decreases |visibles.value| - iv1
      {
        iv1 := SweepPass(g, iv1);
      }
    }

    /**
     * One pass of the outer loop of `__remove_occluded` at index `iv1`: the
     * inner loop looks for the first partner that calls for a deletion, and
     * the index moves on only when there is none.
     */
    method SweepPass(g: Geometry, iv1: nat) returns (next: nat)
      requires visibles.Some? && iv1 + 1 < |visibles.value|
      modifies this
      ensures region == old(region) && parent == old(parent)
      ensures var step := SweepStep(g, old(visibles).value, iv1);
        visibles == Some(step.0) && next == step.1
    {
      var vs := visibles.value;
      var poly1IsOccluded := false;
      var poly2Deleted := false;
      var v1 := vs[iv1];
      for iv2 := iv1 + 1 to |vs|
        invariant visibles == Some(vs)
        invariant FirstConflict(g, vs, iv1, iv1 + 1) == FirstConflict(g, vs, iv1, iv2)
        invariant !poly1IsOccluded && !poly2Deleted
      {
        var v2 := vs[iv2];
        // is v1 inside v2?
        var c1 := g.compareVisible(v2, v1);
        if c1.interior && c1.farther {
          poly1IsOccluded := true;
          break;
        }
        // is v2 inside v1?
        var c2 := g.compareVisible(v1, v2);
        if c2.interior && c2.farther {
          visibles := Some(Remove(vs, iv2));
          poly2Deleted := true;
          break;
        }
        if c1.interior && c2.interior {
          // intersecting polygons: one is removed
          visibles := Some(Remove(vs, iv2));
          poly2Deleted := true;
          break;
        }
      }
      next := iv1;
      if poly1IsOccluded {
        visibles := Some(Remove(visibles.value, iv1));
      } else if !poly2Deleted {
        next := iv1 + 1;
      }
    }

    /**
     * `__refine`: with no candidate the view is exhausted; with exactly one
     * left after the sweep it is resolved to that candidate; otherwise it is
     * split along the nearest edge into itself and a copy, each re-cropped.
     */
    method Refine(g: Geometry) returns (subviews: seq<View>, resolved: seq<View>)
      requires visibles.Some?
      modifies this
      ensures parent == old(parent)
      ensures old(visibles).value == [] ==>
        subviews == [] && resolved == [] && region == old(region) && visibles == old(visibles)
      ensures old(visibles).value != [] ==> |Sweep(g, old(visibles).value)| >= 1
      ensures |Sweep(g, old(visibles).value)| == 1 ==>
        subviews == [] && resolved == [this] && region == Sweep(g, old(visibles).value)[0] && visibles == None
      ensures |Sweep(g, old(visibles).value)| >= 2 ==>
        var s := Sweep(g, old(visibles).value);
        var e := BestEdge(g, old(region), s);
        && resolved == [] && |subviews| == 2 && subviews[0] == this && fresh(subviews[1])
        && region == old(region).(window := g.split(old(region).window, FirstVertex(e), SecondVertex(e)))
        && visibles == Some(FilterMap(CropOf(g, region), s))
        && subviews[1].region == old(region).(window := g.split(old(region).window, SecondVertex(e), FirstVertex(e)))
        && subviews[1].visibles == Some(FilterMap(CropOf(g, subviews[1].region), s))
        && subviews[1].parent == old(parent)
      ensures forall v :: v in subviews ==> v.visibles.Some? && v.parent == old(parent) && (v == this || fresh(v))
      ensures forall v :: v in resolved ==> v == this && visibles.None?
      ensures |subviews| <= 2 && (|subviews| == 2 ==> subviews[0] != subviews[1]) && |resolved| <= 1
    {
      subviews, resolved := [], [];
      if |visibles.value| == 0 {
        return;  // nothing to see
      }
      RemoveOccluded(g);
      SweepIdempotent(g, old(visibles).value);
      if |visibles.value| == 1 {
        region := visibles.value[0];
        visibles := None;
        resolved := resolved + [this];
        return;
      }
      var v1Best, v2Best := NearestEdge(g, region, visibles.value);
      if v1Best.None? {
        // no valid edge: the source re-runs the sweep only to print the comparisons
        RemoveOccluded(g);
      }
      var view := Copy();
      region := region.(window := g.split(region.window, v1Best, v2Best));
      RefineVisibles(g);
      subviews := subviews + [this];
      view.region := view.region.(window := g.split(view.region.window, v2Best, v1Best));
      view.RefineVisibles(g);
      subviews := subviews + [view];
    }

    /**
     * `search`: discover the candidates, then drain a FIFO of subviews through
     * `Refine`. At most `fuel` refinements are run; what is still queued then
     * is returned as `pending`. Every returned resolved view came from the
     * one-candidate branch and keeps this view's parent.
     */
    method Search(g: Geometry, polygons: seq<ScenePolygon>, fuel: nat) returns (resolved: seq<View>, pending: seq<View>)
      modifies this
      ensures forall v :: v in resolved ==> v.visibles.None? && v.parent == old(parent) && (v == this || fresh(v))
      ensures forall v :: v in pending ==> v.visibles.Some? && v.parent == old(parent) && (v == this || fresh(v))
      ensures Distinct(resolved)
    {
      SearchPolygons(g, polygons);
      resolved := [];
      var subviews: seq<View> := [this];
      var steps := 0;
      while |subviews| > 0 && steps < fuel
        invariant forall v :: v in subviews ==> v.visibles.Some? && v.parent == old(parent) && (v == this || fresh(v))
        invariant forall v :: v in resolved ==> v.visibles.None? && v.parent == old(parent) && (v == this || fresh(v))
        invariant Distinct(subviews) && Distinct(resolved)
        decreases fuel - steps
      {
        var subview := subviews[0];
        assert subview in subviews && subview !in resolved;
        var rest := subviews[1..];
        assert forall v :: v in rest ==> v in subviews && v != subview;
        var refinedSubviews, refinedResolved := subview.Refine(g);
        forall i | 0 <= i < |refinedSubviews|
          ensures refinedSubviews[i] !in rest
        {
          assert refinedSubviews[i] in refinedSubviews;
        }
        assert Distinct(refinedSubviews);
        DistinctConcat(rest, refinedSubviews);
        DistinctConcat(resolved, refinedResolved);
        forall v: View | v in rest + refinedSubviews
          ensures v.visibles.Some? && v.parent == old(parent) && (v == this || fresh(v))
        {
          if v !in rest {
            assert v in refinedSubviews;
          }
        }
        forall v: View | v in resolved + refinedResolved
          ensures v.visibles.None? && v.parent == old(parent) && (v == this || fresh(v))
        {
          if v !in resolved {
            assert v == subview;
          }
        }
        subviews := rest + refinedSubviews;
        resolved := resolved + refinedResolved;
        steps := steps + 1;
      }
      pending := subviews;
    }

    /** `reflect_view`: a child seen from the origin's mirror image, through the target. */
    method ReflectView(g: Geometry) returns (child: View)
      requires region.target.Some?
      ensures fresh(child) && child.parent == this && child.visibles == None
      ensures child.region == Region(g.reflect(region.target.value, region.origin), region.target.value, None)
    {
      var origin := g.reflect(region.target.value, region.origin);
      var window := region.target.value;
      child := new View(origin, window, None);
      child.parent := this;
    }

    /**
     * `refract_view`: the target, turned to face away from the origin, is the
     * window of a straight-through child and of a child whose origin lies behind it.
     */
    method RefractView(g: Geometry) returns (through: View, child: View)
      requires region.target.Some?
      ensures fresh(through) && fresh(child) && through != child
      ensures through.parent == this && child.parent == this
      ensures through.visibles == None && child.visibles == None
      ensures var t := region.target.value;
        var w := if g.depth(t, region.origin) > 0.0 then g.reverse(t) else t;
        && child.region == Region(g.imageBehind(w, region.origin), w, None)
        && through.region == Region(region.origin, w, None)
    {
      var window := region.target.value;
      var zW := g.depth(window, region.origin);
      if zW > 0.0 {
        window := g.reverse(window);
      }
      var origin := g.imageBehind(window, region.origin);
      child := new View(origin, window, None);
      child.parent := this;
      through := new View(region.origin, window, None);
      through.parent := this;
    }
  }
}
