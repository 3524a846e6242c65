/**
 * The planar shapes of the `geo` crate that this program builds or carries:
 * coordinates, the axis-aligned rectangle `Rect`, polygons and the geometry
 * kinds a GeoJSON document can hold. Coordinates are ordered reals: only
 * their order and, for the winding, their products matter here. The
 * Well-Known Binary encoder is a parameter of type `Encoder`, about which
 * nothing is assumed.
 */
module Geo {

  /** `geo::Coord` / `geo::Point`: x is the longitude, y the latitude. */
  datatype Point = Point(x: real, y: real)

  /** `geo::Rect`: kept with `min` below-left of `max`, see `Normalized`. */
  datatype Rect = Rect(min: Point, max: Point)

  datatype Polygon = Polygon(exterior: seq<Point>, interiors: seq<seq<Point>>)

  /** `geo::Geometry`, restricted to the kinds a GeoJSON document produces. */
  datatype Shape =
    | PointShape(point: Point)
    | MultiPointShape(points: seq<Point>)
    | LineStringShape(line: seq<Point>)
    | MultiLineStringShape(lines: seq<seq<Point>>)
    | PolygonShape(polygon: Polygon)
    | MultiPolygonShape(polygons: seq<Polygon>)
    | CollectionShape(members: seq<Shape>)

  type Bytes = seq<bv8>

  /** Well-Known Binary encoding (`wkb::geom_to_wkb`), taken to succeed. */
  type Encoder = Shape -> Bytes

  function Min(a: real, b: real): real { if a <= b then a else b }
  function Max(a: real, b: real): real { if a <= b then b else a }

  predicate Normalized(r: Rect) {
    r.min.x <= r.max.x && r.min.y <= r.max.y
  }

  predicate Contains(r: Rect, p: Point) {
    r.min.x <= p.x <= r.max.x && r.min.y <= p.y <= r.max.y
  }

  /** Every point of `inner` lies in `outer`. */
  predicate Encloses(outer: Rect, inner: Rect) {
    outer.min.x <= inner.min.x && inner.max.x <= outer.max.x &&
    outer.min.y <= inner.min.y && inner.max.y <= outer.max.y
  }

  /** A rectangle with no area: its corners are not four distinct points. */
  predicate Degenerate(r: Rect) {
    r.min.x == r.max.x || r.min.y == r.max.y
  }

  /**
   * `Rect::new(c1, c2)`: the rectangle spanned by two opposite corners given
   * in either order. It contains both corners and lies inside every rectangle
   * that contains both.
   */
  function RectNew(c1: Point, c2: Point): (r: Rect)
    ensures Normalized(r) && Contains(r, c1) && Contains(r, c2)
    ensures forall q :: Contains(q, c1) && Contains(q, c2) ==> Encloses(q, r)
    ensures r.min.x in {c1.x, c2.x} && r.max.x in {c1.x, c2.x}
    ensures r.min.y in {c1.y, c2.y} && r.max.y in {c1.y, c2.y}
  {
    Rect(Point(Min(c1.x, c2.x), Min(c1.y, c2.y)), Point(Max(c1.x, c2.x), Max(c1.y, c2.y)))
  }

  /** The four corners of a rectangle. */
  function Corners(r: Rect): set<Point> {
    {r.min, Point(r.max.x, r.min.y), r.max, Point(r.min.x, r.max.y)}
  }

  /**
   * `Polygon::from(Rect)`: the exterior ring runs counter-clockwise from the
   * lower-right corner through the other three and repeats its first
   * position to close; there are no holes.
   */
  function RectToPolygon(r: Rect): (p: Polygon)
    ensures |p.exterior| == 5 && p.interiors == []
    ensures p.exterior[0] == p.exterior[4]
    ensures forall i :: 0 <= i < 5 ==> p.exterior[i] in Corners(r)
    ensures Corners(r) == {p.exterior[0], p.exterior[1], p.exterior[2], p.exterior[3]}
  {
    Polygon([Point(r.max.x, r.min.y), r.max, Point(r.min.x, r.max.y), r.min, Point(r.max.x, r.min.y)], [])
  }

  /** The smallest rectangle holding every position of a non-empty sequence. */
  function Bounds(ps: seq<Point>): (b: Rect)
    requires |ps| > 0
    ensures Normalized(b)
    ensures forall i :: 0 <= i < |ps| ==> Contains(b, ps[i])
    ensures exists i :: 0 <= i < |ps| && ps[i].x == b.min.x
    ensures exists i :: 0 <= i < |ps| && ps[i].x == b.max.x
    ensures exists i :: 0 <= i < |ps| && ps[i].y == b.min.y
    ensures exists i :: 0 <= i < |ps| && ps[i].y == b.max.y
    decreases |ps|
  {
    if |ps| == 1 then Rect(ps[0], ps[0])
    else
      var rest := Bounds(ps[1..]);
      Rect(Point(Min(ps[0].x, rest.min.x), Min(ps[0].y, rest.min.y)),
           Point(Max(ps[0].x, rest.max.x), Max(ps[0].y, rest.max.y)))
  }

  /** Twice the signed area enclosed by a ring (the shoelace sum); positive for a counter-clockwise ring. */
  function TwiceSignedArea(ring: seq<Point>): real
    decreases |ring|
  {
    if |ring| < 2 then 0.0
    else ring[0].x * ring[1].y - ring[1].x * ring[0].y + TwiceSignedArea(ring[1..])
  }

  /** The polygon of a rectangle has exactly the rectangle as its extent. */
  lemma RectPolygonExtent(r: Rect)
    requires Normalized(r)
    ensures Bounds(RectToPolygon(r).exterior) == r
  {
    var ring := RectToPolygon(r).exterior;
    var b := Bounds(ring);
    assert forall i :: 0 <= i < |ring| ==> Contains(r, ring[i]);
    assert Contains(b, ring[1]) && Contains(b, ring[3]);
    var i0 :| 0 <= i0 < |ring| && ring[i0].x == b.min.x;
    var i1 :| 0 <= i1 < |ring| && ring[i1].x == b.max.x;
    var i2 :| 0 <= i2 < |ring| && ring[i2].y == b.min.y;
    var i3 :| 0 <= i3 < |ring| && ring[i3].y == b.max.y;
    assert Contains(r, ring[i0]) && Contains(r, ring[i1]) && Contains(r, ring[i2]) && Contains(r, ring[i3]);
  }

  /** The ring of a rectangle winds counter-clockwise: its signed area is the rectangle's area. */
  lemma RectPolygonWinding(r: Rect)
    ensures TwiceSignedArea(RectToPolygon(r).exterior) == 2.0 * (r.max.x - r.min.x) * (r.max.y - r.min.y)
  {
    var ring := RectToPolygon(r).exterior;
    var (x0, y0, x1, y1) := (r.min.x, r.min.y, r.max.x, r.max.y);
    assert ring[4..] == [Point(x1, y0)];
    assert TwiceSignedArea(ring[4..]) == 0.0;
    assert ring[3..] == [Point(x0, y0), Point(x1, y0)];
    assert TwiceSignedArea(ring[3..]) == x0 * y0 - x1 * y0;
    assert ring[2..] == [Point(x0, y1)] + ring[3..];
    assert TwiceSignedArea(ring[2..]) == x0 * y0 - x0 * y1 + TwiceSignedArea(ring[3..]);
    assert ring[1..] == [Point(x1, y1)] + ring[2..];
    assert TwiceSignedArea(ring[1..]) == x1 * y1 - x0 * y1 + TwiceSignedArea(ring[2..]);
    assert TwiceSignedArea(ring) == x1 * y1 - x1 * y0 + TwiceSignedArea(ring[1..]);
  }

  /** The four corners of a rectangle's ring are pairwise distinct exactly when the rectangle is not degenerate. */
  lemma RectPolygonCornersDistinct(r: Rect)
    requires Normalized(r)
    ensures var ring := RectToPolygon(r).exterior;
      (forall i, j :: 0 <= i < j < 4 ==> ring[i] != ring[j]) <==> !Degenerate(r)
  {
    var ring := RectToPolygon(r).exterior;
    if Degenerate(r) {
      if r.min.x == r.max.x {
        assert ring[0] == ring[3];
      } else {
        assert ring[0] == ring[1];
      }
    }
  }

  /** `Rect::new` does not depend on which corner comes first. */
  lemma RectNewSymmetric(c1: Point, c2: Point)
    ensures RectNew(c1, c2) == RectNew(c2, c1)
  {
  }
}
