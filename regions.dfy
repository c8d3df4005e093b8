/**
 * The geometry the visibility search consumes but does not implement.
 * Points, polygons and 2D window vertices are abstract; every geometric
 * operation is an uninterpreted collaborator function bundled in `Geometry`.
 * Being Dafny functions, the collaborators are deterministic.
 */
module Regions {
  import opened Options

  /** A point of 3D space (a receiver origin or an image source). */
  type Point(==)
  /** A planar polygon: a scene surface, a window, or a projected target. */
  type Polygon(==)
  /** A vertex in the 2D coordinates of a window. */
  type Vertex(==)

  /** The capability queries of a surface material; each one is asked independently. */
  datatype Material = Material(isSource: bool, isReflective: bool, isRefractive: bool)

  /** A polygon of the scene with the properties the search looks at. */
  datatype ScenePolygon = ScenePolygon(illOnly: bool, material: Material, shape: Polygon)

  /** A `Visible`: an origin, a window in the window's plane and, once known, a target polygon. */
  datatype Region = Region(origin: Point, window: Polygon, target: Option<Polygon>)

  /** The four answers of `compare_visible`. */
  datatype Comparison = Comparison(exterior: bool, interior: bool, farther: bool, coplanar: bool)

  /** A splitting edge of `nearest_intersection`: two window vertices and their 3D distances. */
  datatype Edge = Edge(v1: Vertex, d1: real, v2: Vertex, d2: real)

  datatype Geometry = Geometry(
    /** `local_z` of `p.plane.project(origin)`: the signed depth of a point against a polygon's plane. */
    depth: (Polygon, Point) -> real,
    /** `window.project_and_crop(origin, p)`: the window-space and projected 3D polygons, if any. */
    projectAndCrop: (Polygon, Point, Polygon) -> Option<(Polygon, Polygon)>,
    /** `a.compare_visible(b)`: how `b` lies relative to `a`. */
    compareVisible: (Region, Region) -> Comparison,
    /** `region.crop_visible(v)`: `v` cropped to the region's window, if anything is left. */
    cropVisible: (Region, Region) -> Option<Region>,
    /** `region.nearest_intersection(v)`: the nearest edge of `v` that divides the window. */
    nearestIntersection: (Region, Region) -> Option<Edge>,
    /** `window.split(a, b)`: the part of the window on one side of the ordered edge `a`-`b`. */
    split: (Polygon, Option<Vertex>, Option<Vertex>) -> Polygon,
    /** `target.plane.reflect(origin)`: the mirror image of a point across a polygon's plane. */
    reflect: (Polygon, Point) -> Point,
    /** `window.reverse()`: the polygon with its orientation flipped. */
    reverse: Polygon -> Polygon,
    /** `center - norm(origin - center) * window.plane.normal()` with `center = window.center()`. */
    imageBehind: (Polygon, Point) -> Point
  )
}
