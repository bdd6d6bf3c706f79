/** src/math/polygon.ts: a convex polygon whose derived arrays (calculated
    points, edges, normals) are kept in step with its points, angle and
    offset by the setters. */
module Polygons {
  import opened Wrappers
  import opened Vectors
  import opened Boxes

  /** The index of the vertex after `i`, wrapping to 0 at the last one. */
  function Next(i: nat, n: nat): (j: nat)
    requires i < n
    ensures j < n && j == (i + 1) % n
  {
    if i < n - 1 then i + 1 else 0
  }

  /** One calculated point: the point moved by the offset, then turned by
      the angle when the angle is not 0. */
  function CalcPoint(p: Vec, offset: Vec, angle: real, trig: Trig): Vec
  {
    var q := Add(p, offset);
    if angle != 0.0 then trig.rotate(q, angle) else q
  }

  /** What `calcPoints` must hold for the given points, offset and angle. */
  function CalcPoints(ps: seq<Vec>, offset: Vec, angle: real, trig: Trig): (cs: seq<Vec>)
    ensures |cs| == |ps|
    ensures angle == 0.0 ==> forall i :: 0 <= i < |ps| ==> cs[i] == Add(ps[i], offset)
  {
    seq(|ps|, i requires 0 <= i < |ps| => CalcPoint(ps[i], offset, angle, trig))
  }

  /** What `edges` must hold for the calculated points `cs`: edge i runs from
      vertex i to the next one, the last edge closing the outline. */
  function Edges(cs: seq<Vec>): (es: seq<Vec>)
    ensures |es| == |cs|
    ensures forall i :: 0 <= i < |cs| ==> Add(cs[i], es[i]) == cs[(i + 1) % |cs|]
  {
    seq(|cs|, i requires 0 <= i < |cs| => Sub(cs[Next(i, |cs|)], cs[i]))
  }

  /** What `normals` must hold: each edge turned by -90 degrees, normalised. */
  function Normals(es: seq<Vec>, trig: Trig): (ns: seq<Vec>)
    ensures |ns| == |es|
  {
    seq(|es|, i requires 0 <= i < |es| => trig.normalize(Perp(es[i])))
  }

  /** Every vector of `vs` moved by `d`. */
  function Translated(vs: seq<Vec>, d: Vec): (ws: seq<Vec>)
    ensures |ws| == |vs|
  {
    seq(|vs|, i requires 0 <= i < |vs| => Add(vs[i], d))
  }

  /** The first `k` edges of a closed outline add up to the walk from vertex
      0 to vertex k. */
  lemma {:induction false} EdgesPrefixSum(cs: seq<Vec>, k: nat)
    requires k < |cs|
    ensures Sum(Edges(cs)[..k]) == Sub(cs[k], cs[0])
  {
    var es := Edges(cs);
    if k > 0 {
      EdgesPrefixSum(cs, k - 1);
      assert es[..k][..k - 1] == es[..k - 1];
    }
  }

  /** The edges of any outline add up to the zero vector. */
  lemma EdgesSumToZero(cs: seq<Vec>)
    ensures Sum(Edges(cs)) == Zero
  {
    var es := Edges(cs);
    var n := |cs|;
    if n > 0 {
      EdgesPrefixSum(cs, n - 1);
      assert es[..n][..n - 1] == es[..n - 1];
      assert es[..n] == es;
    }
  }

  /** At angle 0, translating the original points translates every
      calculated point by the same amount. */
  lemma TranslatedCalcPoints(ps: seq<Vec>, d: Vec, offset: Vec, trig: Trig)
    ensures CalcPoints(Translated(ps, d), offset, 0.0, trig) == Translated(CalcPoints(ps, offset, 0.0, trig), d)
  {
    var l := CalcPoints(Translated(ps, d), offset, 0.0, trig);
    var r := Translated(CalcPoints(ps, offset, 0.0, trig), d);
    forall i | 0 <= i < |ps| ensures l[i] == r[i] {
    }
  }

  /** Moving every vertex by the same vector leaves every edge as it was. */
  lemma TranslatedEdges(cs: seq<Vec>, d: Vec)
    ensures Edges(Translated(cs, d)) == Edges(cs)
  {
    var l := Edges(Translated(cs, d));
    forall i | 0 <= i < |cs| ensures l[i] == Edges(cs)[i] {
    }
  }

  /** One step of the `else if` chain of `getAABB`: a point widens at most
      one of the four bounds, and the y bounds only when its x is already
      inside the x bounds. */
  function ChainStep(b: Bounds, p: Vec): Bounds
  {
    if p.x < b.xMin then b.(xMin := p.x)
    else if p.x > b.xMax then b.(xMax := p.x)
    else if p.y < b.yMin then b.(yMin := p.y)
    else if p.y > b.yMax then b.(yMax := p.y)
    else b
  }

  /** The bounds `getAABB` ends with on the calculated points `cs`. */
  function ChainBounds(cs: seq<Vec>): Bounds
    requires |cs| > 0
  {
    if |cs| == 1 then Bounds(cs[0].x, cs[0].x, cs[0].y, cs[0].y)
    else ChainStep(ChainBounds(cs[..|cs| - 1]), cs[|cs| - 1])
  }

  /** The x bounds of the chain are exact: the least and greatest x. */
  lemma {:induction false} ChainBoundsX(cs: seq<Vec>)
    requires |cs| > 0
    ensures IsLeast(Xs(cs), ChainBounds(cs).xMin) && IsGreatest(Xs(cs), ChainBounds(cs).xMax)
  {
    var n := |cs|;
    if n > 1 {
      var pre := cs[..n - 1];
      ChainBoundsX(pre);
      var b := ChainBounds(pre);
      var i :| 0 <= i < |pre| && Xs(pre)[i] == b.xMin;
      var j :| 0 <= j < |pre| && Xs(pre)[j] == b.xMax;
      assert Xs(cs)[i] == b.xMin && Xs(cs)[j] == b.xMax;
      forall k | 0 <= k < n - 1 ensures b.xMin <= Xs(cs)[k] <= b.xMax {
        assert Xs(pre)[k] == Xs(cs)[k];
      }
    }
  }

  /** The y bounds of the chain are attained, ordered and bracket the first
      point's y; unlike the x bounds they need not cover every point. */
  lemma {:induction false} ChainBoundsY(cs: seq<Vec>)
    requires |cs| > 0
    ensures var b := ChainBounds(cs);
      && b.yMin <= cs[0].y <= b.yMax
      && (exists i :: 0 <= i < |cs| && cs[i].y == b.yMin)
      && (exists i :: 0 <= i < |cs| && cs[i].y == b.yMax)
  {
    var n := |cs|;
    if n > 1 {
      var pre := cs[..n - 1];
      ChainBoundsY(pre);
      var b := ChainBounds(pre);
      var i :| 0 <= i < |pre| && pre[i].y == b.yMin;
      var j :| 0 <= j < |pre| && pre[j].y == b.yMax;
      assert cs[i].y == b.yMin && cs[j].y == b.yMax && pre[0] == cs[0];
    }
  }

  /** When every point lies strictly right of the one before, each point
      moves `xMax` and the chain never looks at a y again: the y bounds stay
      at the first point's y. */
  lemma {:induction false} ChainBoundsRisingX(cs: seq<Vec>)
    requires |cs| > 0
    requires forall i :: 0 < i < |cs| ==> cs[i - 1].x < cs[i].x
    ensures ChainBounds(cs) == Bounds(cs[0].x, cs[|cs| - 1].x, cs[0].y, cs[0].y)
  {
    if |cs| > 1 {
      var pre := cs[..|cs| - 1];
      ChainBoundsRisingX(pre);
      assert pre[|pre| - 1] == cs[|cs| - 2];
    }
  }

  /** So the box `getAABB` builds can miss a vertex: for the triangle
      (0,0), (1,1), (2,3) it is 2 wide and 0 high, and (2,3) lies above it. */
  lemma ChainBoundsMissesPoint(cs: seq<Vec>)
    requires |cs| > 1
    requires forall i :: 0 < i < |cs| ==> cs[i - 1].x < cs[i].x
    requires cs[|cs| - 1].y != cs[0].y
    ensures !Contains(BoxAround(Zero, ChainBounds(cs)), cs[|cs| - 1])
  {
    ChainBoundsRisingX(cs);
    assert Add(Zero, cs[|cs| - 1]) == cs[|cs| - 1];
  }

  /** On an unrotated box outline (positive or zero size) the chain does find
      the box: bounds (0, w) and (0, h). */
  lemma ChainBoundsOfCorners(b: Box)
    requires b.w >= 0.0 && b.h >= 0.0
    ensures ChainBounds(Corners(b)) == Bounds(0.0, b.w, 0.0, b.h)
  {
    var cs := Corners(b);
    assert cs[..3][..2][..1] == [cs[0]];
    assert cs[..3][..2] == cs[..2];
    assert ChainBounds(cs[..2]) == Bounds(0.0, b.w, 0.0, 0.0);
    assert ChainBounds(cs[..3]) == Bounds(0.0, b.w, 0.0, b.h);
  }

  class Polygon {
    /** The rotation and normalisation of the vector library. */
    const trig: Trig
    /** The origin the points are relative to; callers may set it directly. */
    var pos: Vec
    var angle: real
    var offset: Vec
    /** The original, counter-clockwise points, owned by the polygon. */
    var points: seq<Vec>
    var calcPoints: array<Vec>
    var edges: array<Vec>
    var normals: array<Vec>

    /** The three derived arrays have one slot per point and are three
        different arrays. */
    ghost predicate Shaped()
      reads this
    {
      && calcPoints.Length == |points| && edges.Length == |points| && normals.Length == |points|
      && calcPoints != edges && calcPoints != normals && edges != normals
    }

    /** The derived arrays are never stale: they hold what the points, the
        offset and the angle determine. */
    ghost predicate Valid()
      reads this, calcPoints, edges, normals
    {
      && Shaped()
      && calcPoints[..] == CalcPoints(points, offset, angle, trig)
      && edges[..] == Edges(calcPoints[..])
      && normals[..] == Normals(edges[..], trig)
    }

    /** `new Polygon(pos = new Vector(), points = [])`: angle 0, zero offset,
        and (as `setPoints` does on a polygon without points) three new
        derived arrays of the points' length. */
    constructor (trig: Trig, pos: Vec := Zero, points: seq<Vec> := [])
      ensures Valid()
      ensures this.trig == trig && this.pos == pos && this.points == points
      ensures angle == 0.0 && offset == Zero
      ensures fresh(calcPoints) && fresh(edges) && fresh(normals)
    {
      this.trig := trig;
      this.pos := pos;
      angle := 0.0;
      offset := Zero;
      this.points := points;
      calcPoints := new Vec[|points|](_ => Zero);
      edges := new Vec[|points|](_ => Zero);
      normals := new Vec[|points|](_ => Zero);
      new;
      Recalc();
    }

    /** `_recalc`: overwrites the three derived arrays in place, first the
        calculated points, then the edges (wrapping at the last vertex) and
        their normals. */
    method Recalc()
      requires Shaped()
      modifies calcPoints, edges, normals
      ensures Valid()
    {
      var len := |points|;
      var i := 0;
      while i < len
        invariant 0 <= i <= len
        invariant forall k :: 0 <= k < i ==> calcPoints[k] == CalcPoint(points[k], offset, angle, trig)
      {
        var calcPoint := Add(points[i], offset);
        if angle != 0.0 {
          calcPoint := trig.rotate(calcPoint, angle);
        }
        calcPoints[i] := calcPoint;
        i := i + 1;
      }
      assert calcPoints[..] == CalcPoints(points, offset, angle, trig);
      i := 0;
      while i < len
        invariant 0 <= i <= len
        invariant calcPoints[..] == CalcPoints(points, offset, angle, trig)
        invariant forall k :: 0 <= k < i ==> edges[k] == Sub(calcPoints[Next(k, len)], calcPoints[k])
        invariant forall k :: 0 <= k < i ==> normals[k] == trig.normalize(Perp(edges[k]))
      {
        var p1 := calcPoints[i];
        var p2 := if i < len - 1 then calcPoints[i + 1] else calcPoints[0];
        var e := Sub(p2, p1);
        edges[i] := e;
        normals[i] := trig.normalize(Perp(e));
        i := i + 1;
      }
      assert edges[..] == Edges(calcPoints[..]);
      assert normals[..] == Normals(edges[..], trig);
    }

    /** `setPoints`: the derived arrays are reallocated only when the number
        of points changes, and reused and overwritten otherwise. */
    method SetPoints(ps: seq<Vec>)
      requires Valid()
      modifies this, calcPoints, edges, normals
      ensures Valid()
      ensures points == ps && pos == old(pos) && angle == old(angle) && offset == old(offset)
      ensures calcPoints.Length == |ps| && edges.Length == |ps| && normals.Length == |ps|
      ensures |old(points)| == |ps| ==> calcPoints == old(calcPoints) && edges == old(edges) && normals == old(normals)
      ensures |old(points)| != |ps| ==> fresh(calcPoints) && fresh(edges) && fresh(normals)
    {
      var lengthChanged := |points| != |ps|;
      if lengthChanged {
        calcPoints := new Vec[|ps|](_ => Zero);
        edges := new Vec[|ps|](_ => Zero);
        normals := new Vec[|ps|](_ => Zero);
      }
      points := ps;
      Recalc();
    }

    /** `setAngle`: only the angle and the derived arrays' contents change. */
    method SetAngle(angle: real)
      requires Valid()
      modifies this, calcPoints, edges, normals
      ensures Valid()
      ensures this.angle == angle && points == old(points) && pos == old(pos) && offset == old(offset)
      ensures calcPoints == old(calcPoints) && edges == old(edges) && normals == old(normals)
    {
      this.angle := angle;
      Recalc();
    }

    /** `setOffset`: only the offset and the derived arrays' contents change. */
    method SetOffset(offset: Vec)
      requires Valid()
      modifies this, calcPoints, edges, normals
      ensures Valid()
      ensures this.offset == offset && points == old(points) && pos == old(pos) && angle == old(angle)
      ensures calcPoints == old(calcPoints) && edges == old(edges) && normals == old(normals)
    {
      this.offset := offset;
      Recalc();
    }

    /** `rotate`: turns the original points in place, so that the angle is
        applied on top of this rotation. */
    method Rotate(angle: real)
      requires Valid()
      modifies this, calcPoints, edges, normals
      ensures Valid()
      ensures |points| == |old(points)|
      ensures forall k :: 0 <= k < |points| ==> points[k] == trig.rotate(old(points)[k], angle)
      ensures pos == old(pos) && this.angle == old(this.angle) && offset == old(offset)
      ensures calcPoints == old(calcPoints) && edges == old(edges) && normals == old(normals)
    {
      var i := 0;
      while i < |points|
        invariant 0 <= i <= |points| == |old(points)|
        invariant forall k :: 0 <= k < i ==> points[k] == trig.rotate(old(points)[k], angle)
        invariant forall k :: i <= k < |points| ==> points[k] == old(points)[k]
        invariant pos == old(pos) && this.angle == old(this.angle) && offset == old(offset)
        invariant calcPoints == old(calcPoints) && edges == old(edges) && normals == old(normals)
      {
        points := points[i := trig.rotate(points[i], angle)];
        i := i + 1;
      }
      Recalc();
    }

    /** `translate(x = 0, y = 0)`: moves the original points in place. At
        angle 0 every calculated point moves by (x, y) and no edge changes. */
    method Translate(x: real := 0.0, y: real := 0.0)
      requires Valid()
      modifies this, calcPoints, edges, normals
      ensures Valid()
      ensures points == Translated(old(points), Vec(x, y))
      ensures pos == old(pos) && angle == old(angle) && offset == old(offset)
      ensures calcPoints == old(calcPoints) && edges == old(edges) && normals == old(normals)
      ensures angle == 0.0 ==> calcPoints[..] == Translated(old(calcPoints[..]), Vec(x, y))
      ensures angle == 0.0 ==> edges[..] == old(edges[..])
    {
      var i := 0;
      while i < |points|
        invariant 0 <= i <= |points| == |old(points)|
        invariant forall k :: 0 <= k < i ==> points[k] == Add(old(points)[k], Vec(x, y))
        invariant forall k :: i <= k < |points| ==> points[k] == old(points)[k]
        invariant pos == old(pos) && angle == old(angle) && offset == old(offset)
        invariant calcPoints == old(calcPoints) && edges == old(edges) && normals == old(normals)
      {
        points := points[i := Vec(points[i].x + x, points[i].y + y)];
        i := i + 1;
      }
      assert points == Translated(old(points), Vec(x, y));
      Recalc();
      if angle == 0.0 {
        TranslatedCalcPoints(old(points), Vec(x, y), offset, trig);
        TranslatedEdges(old(calcPoints[..]), Vec(x, y));
      }
    }

    /** `getAABB`: the box of the calculated points, placed at `pos`, as the
        `else if` chain finds it. Its x extent is exact; its height is never
        negative. An empty polygon has no box (the source throws a TypeError
        reading the first point). */
    method GetAABB() returns (box: Option<Box>)
      ensures box.None? <==> calcPoints.Length == 0
      ensures box.Some? ==> box.value == BoxAround(pos, ChainBounds(calcPoints[..]))
      ensures box.Some? ==> SpansX(box.value, pos, calcPoints[..]) && box.value.h >= 0.0
    {
      var len := calcPoints.Length;
      if len == 0 {
        return None;
      }
      var xMin := calcPoints[0].x;
      var yMin := calcPoints[0].y;
      var xMax := xMin;
      var yMax := yMin;
      var i := 1;
      while i < len
        invariant 1 <= i <= len
        invariant Bounds(xMin, xMax, yMin, yMax) == ChainBounds(calcPoints[..i])
      {
        var point := calcPoints[i];
        if point.x < xMin {
          xMin := point.x;
        } else if point.x > xMax {
          xMax := point.x;
        } else if point.y < yMin {
          yMin := point.y;
        } else if point.y > yMax {
          yMax := point.y;
        }
        assert calcPoints[..i + 1][..i] == calcPoints[..i];
        i := i + 1;
      }
      assert calcPoints[..len] == calcPoints[..];
      ChainBoundsX(calcPoints[..]);
      ChainBoundsY(calcPoints[..]);
      BoxAroundSpansX(pos, calcPoints[..], ChainBounds(calcPoints[..]));
      box := Some(Box(Add(pos, Vec(xMin, yMin)), xMax - xMin, yMax - yMin));
    }
  }
}
