/** src/math/box.ts: an axis-aligned box, and the pieces of an AABB that the
    polygon and conversion scans share. */
module Boxes {
  import opened Vectors

  /** `new Box(pos = new Vector(), w = 0, h = 0)`: `pos` is the corner with
      the smallest x and y. A value: nothing in the library mutates a box. */
  datatype Box = Box(pos: Vec := Zero, w: real := 0.0, h: real := 0.0)

  /** The constructor's defaults. */
  lemma BoxDefaults()
    ensures Box() == Box(Vec(0.0, 0.0), 0.0, 0.0)
    ensures forall p: Vec, w: real :: Box(p, w) == Box(p, w, 0.0)
  {
  }

  /** The vertex list `toPolygon` builds, relative to the box's `pos`. */
  function Corners(b: Box): (ps: seq<Vec>)
    ensures |ps| == 4
  {
    [Vec(), Vec(b.w, 0.0), Vec(b.w, b.h), Vec(0.0, b.h)]
  }

  /** z-component of the cross product of two 2D vectors. */
  function Cross(u: Vec, v: Vec): real { u.x * v.y - u.y * v.x }

  /** Turning from the edge entering vertex `i` of `ps` to the edge leaving it. */
  function TurnAt(ps: seq<Vec>, i: nat): real
    requires 0 < |ps| && i < |ps|
  {
    var prev := if i == 0 then |ps| - 1 else i - 1;
    var next := if i == |ps| - 1 then 0 else i + 1;
    Cross(Sub(ps[i], ps[prev]), Sub(ps[next], ps[i]))
  }

  /** For a box of positive size the corners come counter-clockwise: the
      outline turns left, by the same amount w*h, at every vertex. */
  lemma CornersCounterClockwise(b: Box)
    requires b.w > 0.0 && b.h > 0.0
    ensures forall i :: 0 <= i < 4 ==> TurnAt(Corners(b), i) == b.w * b.h > 0.0
  {
    var c := Corners(b);
    assert TurnAt(c, 0) == b.h * b.w;
    assert TurnAt(c, 1) == b.w * b.h;
    assert TurnAt(c, 2) == b.w * b.h;
    assert TurnAt(c, 3) == b.h * b.w;
  }

  /** The per-axis extremes that an AABB scan ends with. */
  datatype Bounds = Bounds(xMin: real, xMax: real, yMin: real, yMax: real)

  /** A point lies in the closed box. */
  predicate Contains(box: Box, p: Vec)
  {
    box.pos.x <= p.x <= box.pos.x + box.w && box.pos.y <= p.y <= box.pos.y + box.h
  }

  /** The box's x extent is exactly the x range of the points `ps` placed
      at `pos`: it covers every point and both of its sides touch one. */
  ghost predicate SpansX(box: Box, pos: Vec, ps: seq<Vec>)
  {
    && (forall k :: 0 <= k < |ps| ==> box.pos.x <= pos.x + ps[k].x <= box.pos.x + box.w)
    && (exists k :: 0 <= k < |ps| && pos.x + ps[k].x == box.pos.x)
    && (exists k :: 0 <= k < |ps| && pos.x + ps[k].x == box.pos.x + box.w)
  }

  /** The same for the y extent. */
  ghost predicate SpansY(box: Box, pos: Vec, ps: seq<Vec>)
  {
    && (forall k :: 0 <= k < |ps| ==> box.pos.y <= pos.y + ps[k].y <= box.pos.y + box.h)
    && (exists k :: 0 <= k < |ps| && pos.y + ps[k].y == box.pos.y)
    && (exists k :: 0 <= k < |ps| && pos.y + ps[k].y == box.pos.y + box.h)
  }

  /** A box built from exact x bounds spans the points along x ... */
  lemma BoxAroundSpansX(pos: Vec, ps: seq<Vec>, b: Bounds)
    requires IsLeast(Xs(ps), b.xMin) && IsGreatest(Xs(ps), b.xMax)
    ensures SpansX(BoxAround(pos, b), pos, ps) && BoxAround(pos, b).w >= 0.0
  {
    var box := BoxAround(pos, b);
    var i :| 0 <= i < |ps| && Xs(ps)[i] == b.xMin;
    var j :| 0 <= j < |ps| && Xs(ps)[j] == b.xMax;
    assert pos.x + ps[i].x == box.pos.x;
    assert pos.x + ps[j].x == box.pos.x + box.w;
  }

  /** ... and one built from exact y bounds spans them along y. */
  lemma BoxAroundSpansY(pos: Vec, ps: seq<Vec>, b: Bounds)
    requires IsLeast(Ys(ps), b.yMin) && IsGreatest(Ys(ps), b.yMax)
    ensures SpansY(BoxAround(pos, b), pos, ps) && BoxAround(pos, b).h >= 0.0
  {
    var box := BoxAround(pos, b);
    var i :| 0 <= i < |ps| && Ys(ps)[i] == b.yMin;
    var j :| 0 <= j < |ps| && Ys(ps)[j] == b.yMax;
    assert pos.y + ps[i].y == box.pos.y;
    assert pos.y + ps[j].y == box.pos.y + box.h;
  }

  /** `new Box(pos + (xMin, yMin), xMax - xMin, yMax - yMin)`, the box both
      AABB scans build from their bounds, placed at `pos`: its far corner is
      the placed upper bounds, and it has a non-negative size exactly when
      the bounds are ordered. */
  function BoxAround(pos: Vec, b: Bounds): (box: Box)
    ensures box.w >= 0.0 && box.h >= 0.0 <==> b.xMin <= b.xMax && b.yMin <= b.yMax
    ensures Add(box.pos, Vec(box.w, box.h)) == Add(pos, Vec(b.xMax, b.yMax))
  {
    Box(Add(pos, Vec(b.xMin, b.yMin)), b.xMax - b.xMin, b.yMax - b.yMin)
  }

  /** A point placed at `pos` lies in the box exactly when it lies within
      the bounds. */
  lemma BoxAroundContains(pos: Vec, b: Bounds, p: Vec)
    ensures Contains(BoxAround(pos, b), Add(pos, p)) <==> b.xMin <= p.x <= b.xMax && b.yMin <= p.y <= b.yMax
  {
  }
}
