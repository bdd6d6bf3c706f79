/** src/math/conversion.ts: free-standing conversions between shapes. */
module Conversion {
  import opened Wrappers
  import opened Vectors
  import opened Boxes
  import opened Polygons
  import opened BoxPolygons
  import Circles

  /** `convertBoxToPolygon`: a new polygon at a copy of the box's position
      whose points are (0,0), (w,0), (w,h), (0,h) in that order; the same
      polygon `toPolygon` builds. */
  method ConvertBoxToPolygon(box: Box, trig: Trig) returns (p: Polygon)
    ensures fresh(p) && fresh(p.calcPoints) && fresh(p.edges) && fresh(p.normals)
    ensures p.Valid() && p.trig == trig
    ensures p.pos == box.pos && p.points == Corners(box) && p.angle == 0.0 && p.offset == Zero
    ensures p.calcPoints[..] == Corners(box)
  {
    p := new Polygon(trig, Vec(box.pos.x, box.pos.y), [Vec(), Vec(box.w, 0.0), Vec(box.w, box.h), Vec(0.0, box.h)]);
    CornersCalcPoints(box, trig);
  }

  /** The structural argument of `getAABBBox`: anything with a position, and
      optionally calculated points and a radius. */
  datatype Extent = Extent(pos: Vec, calcPoints: Option<seq<Vec>>, r: Option<real>)

  /** A polygon seen as such an argument: it has calculated points and no
      radius. */
  function PolygonExtent(p: Polygon): (e: Extent)
    reads p, p.calcPoints
    ensures e.r.None? && e.calcPoints == Some(p.calcPoints[..])
  {
    Extent(p.pos, Some(p.calcPoints[..]), None)
  }

  /** A circle seen as such an argument: it has a radius and no points. */
  function CircleExtent(c: Circles.Circle): (e: Extent)
    ensures e.calcPoints.None? && e.r == Some(c.r)
  {
    Extent(c.pos, None, Some(c.r))
  }

  /** JavaScript truthiness of `polygon.r`: present and not 0. */
  predicate HasRadius(e: Extent)
  {
    e.r.Some? && e.r.value != 0.0
  }

  /** One step of the scan of `getAABBBox`: one `if` chain for x and a
      separate one for y, so both axes see every point. */
  function ScanStep(b: Bounds, p: Vec): Bounds
  {
    var bx := if p.x < b.xMin then b.(xMin := p.x) else if p.x > b.xMax then b.(xMax := p.x) else b;
    if p.y < bx.yMin then bx.(yMin := p.y) else if p.y > bx.yMax then bx.(yMax := p.y) else bx
  }

  /** The bounds the scan ends with on the points `cs`. */
  function ScanBounds(cs: seq<Vec>): Bounds
    requires |cs| > 0
  {
    if |cs| == 1 then Bounds(cs[0].x, cs[0].x, cs[0].y, cs[0].y)
    else ScanStep(ScanBounds(cs[..|cs| - 1]), cs[|cs| - 1])
  }

  /** The x bounds of the scan are exact: the least and greatest x. */
  lemma {:induction false} ScanBoundsX(cs: seq<Vec>)
    requires |cs| > 0
    ensures IsLeast(Xs(cs), ScanBounds(cs).xMin) && IsGreatest(Xs(cs), ScanBounds(cs).xMax)
  {
    var n := |cs|;
    if n > 1 {
      var pre := cs[..n - 1];
      ScanBoundsX(pre);
      var b := ScanBounds(pre);
      var i :| 0 <= i < |pre| && Xs(pre)[i] == b.xMin;
      var j :| 0 <= j < |pre| && Xs(pre)[j] == b.xMax;
      assert Xs(cs)[i] == b.xMin && Xs(cs)[j] == b.xMax;
      forall k | 0 <= k < n - 1 ensures b.xMin <= Xs(cs)[k] <= b.xMax {
        assert Xs(pre)[k] == Xs(cs)[k];
      }
    }
  }

  /** So are the y bounds, since y has an `if` chain of its own. */
  lemma {:induction false} ScanBoundsY(cs: seq<Vec>)
    requires |cs| > 0
    ensures IsLeast(Ys(cs), ScanBounds(cs).yMin) && IsGreatest(Ys(cs), ScanBounds(cs).yMax)
  {
    var n := |cs|;
    if n > 1 {
      var pre := cs[..n - 1];
      ScanBoundsY(pre);
      var b := ScanBounds(pre);
      var i :| 0 <= i < |pre| && Ys(pre)[i] == b.yMin;
      var j :| 0 <= j < |pre| && Ys(pre)[j] == b.yMax;
      assert Ys(cs)[i] == b.yMin && Ys(cs)[j] == b.yMax;
      forall k | 0 <= k < n - 1 ensures b.yMin <= Ys(cs)[k] <= b.yMax {
        assert Ys(pre)[k] == Ys(cs)[k];
      }
    }
  }

  /** On an unrotated box outline of non-negative size the scan finds the
      bounds (0, w) and (0, h). */
  lemma ScanBoundsOfCorners(b: Box)
    requires b.w >= 0.0 && b.h >= 0.0
    ensures ScanBounds(Corners(b)) == Bounds(0.0, b.w, 0.0, b.h)
  {
    var cs := Corners(b);
    assert cs[..3][..2][..1] == [cs[0]];
    assert cs[..3][..2] == cs[..2];
    assert ScanBounds(cs[..2]) == Bounds(0.0, b.w, 0.0, 0.0);
    assert ScanBounds(cs[..3]) == Bounds(0.0, b.w, 0.0, b.h);
  }

  /** `getAABBBox`. With a truthy radius: the circle's 2r by 2r box around
      `pos`, whatever points there are. Otherwise: the box of the calculated
      points placed at `pos`, exact on both axes; no box where the source
      throws a TypeError (points absent or empty). */
  method GetAABBBox(e: Extent) returns (box: Option<Box>)
    ensures HasRadius(e) ==> box == Some(Box(Sub(e.pos, Vec(e.r.value, e.r.value)), 2.0 * e.r.value, 2.0 * e.r.value))
    ensures HasRadius(e) ==> box == Some(Circles.GetAABBBox(Circles.Circle(e.pos, e.r.value)))
    ensures !HasRadius(e) ==> (box.None? <==> e.calcPoints.None? || |e.calcPoints.value| == 0)
    ensures !HasRadius(e) && box.Some? ==>
      && box.value == BoxAround(e.pos, ScanBounds(e.calcPoints.value))
      && SpansX(box.value, e.pos, e.calcPoints.value) && SpansY(box.value, e.pos, e.calcPoints.value)
      && box.value.w >= 0.0 && box.value.h >= 0.0
  {
    if HasRadius(e) {
      var r := e.r.value;
      var corner := Vec(e.pos.x - r, e.pos.y - r);
      box := Some(Box(corner, r * 2.0, r * 2.0));
      assert box.value == Circles.GetAABBBox(Circles.Circle(e.pos, r));
      return;
    }
    if e.calcPoints.None? {
      return None;
    }
    var points := e.calcPoints.value;
    var len := |points|;
    if len == 0 {
      return None;
    }
    var xMin := points[0].x;
    var yMin := points[0].y;
    var xMax := xMin;
    var yMax := yMin;
    var i := 1;
    while i < len
      invariant 1 <= i <= len
      invariant Bounds(xMin, xMax, yMin, yMax) == ScanBounds(points[..i])
    {
      var point := points[i];
      if point.x < xMin {
        xMin := point.x;
      } else if point.x > xMax {
        xMax := point.x;
      }
      if point.y < yMin {
        yMin := point.y;
      } else if point.y > yMax {
        yMax := point.y;
      }
      assert points[..i + 1][..i] == points[..i];
      i := i + 1;
    }
    assert points[..len] == points;
    var pos := Vec(e.pos.x + xMin, e.pos.y + yMin);
    box := Some(Box(Vec(pos.x, pos.y), xMax - xMin, yMax - yMin));
    assert box.value == BoxAround(e.pos, ScanBounds(points)) by {
      assert Bounds(xMin, xMax, yMin, yMax) == ScanBounds(points);
    }
    ScanBoundsX(points);
    ScanBoundsY(points);
    BoxAroundSpansX(e.pos, points, ScanBounds(points));
    BoxAroundSpansY(e.pos, points, ScanBounds(points));
  }

  /** A box of non-negative size survives the trip box to polygon to AABB
      through these two conversions. */
  method BoxRoundTrip(b: Box, trig: Trig) returns (box: Option<Box>)
    requires b.w >= 0.0 && b.h >= 0.0
    ensures box == Some(b)
  {
    var p := ConvertBoxToPolygon(b, trig);
    box := GetAABBBox(PolygonExtent(p));
    ScanBoundsOfCorners(b);
  }

  /** A circle of radius 0, the default circle, has a falsy `r`: the scan
      takes the polygon branch, finds no points and throws, where the
      circle's own `getAABBBox` gives the 0 by 0 box at its centre. */
  method ZeroRadiusCircleBox(pos: Vec) returns (box: Option<Box>)
    ensures box.None?
    ensures Circles.GetAABBBox(Circles.Circle(pos, 0.0)) == Box(pos, 0.0, 0.0)
  {
    box := GetAABBBox(CircleExtent(Circles.Circle(pos, 0.0)));
  }

  /** `getAABBBox` as evidently intended: the circle branch is taken
      whenever a radius is present, 0 included; shapes without one are
      scanned as before. */
  method FixedGetAABBBox(e: Extent) returns (box: Option<Box>)
    ensures e.r.Some? ==> box == Some(Circles.GetAABBBox(Circles.Circle(e.pos, e.r.value)))
    ensures e.r.None? ==> (box.None? <==> e.calcPoints.None? || |e.calcPoints.value| == 0)
    ensures e.r.None? && box.Some? ==>
      && box.value == BoxAround(e.pos, ScanBounds(e.calcPoints.value))
      && SpansX(box.value, e.pos, e.calcPoints.value) && SpansY(box.value, e.pos, e.calcPoints.value)
      && box.value.w >= 0.0 && box.value.h >= 0.0
  {
    if e.r.Some? {
      var r := e.r.value;
      box := Some(Box(Vec(e.pos.x - r, e.pos.y - r), r * 2.0, r * 2.0));
      assert box.value == Circles.GetAABBBox(Circles.Circle(e.pos, r));
      return;
    }
    box := GetAABBBox(e);
  }

  /** With the fix every circle, the zero-radius one included, gets the
      circle's own box. */
  method FixedCircleBox(c: Circles.Circle) returns (box: Option<Box>)
    ensures box == Some(Circles.GetAABBBox(c))
  {
    box := FixedGetAABBBox(CircleExtent(c));
  }
}
