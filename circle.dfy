/** src/math/circle.ts: a circle and its axis-aligned bounding box. */
module Circles {
  import opened Vectors
  import opened Boxes
  import opened Polygons
  import opened BoxPolygons

  /** `new Circle(pos = new Vector(), r = 0)`. A value: the library never
      mutates a circle. */
  datatype Circle = Circle(pos: Vec := Zero, r: real := 0.0)

  /** The constructor's defaults. */
  lemma CircleDefaults()
    ensures Circle() == Circle(Vec(0.0, 0.0), 0.0)
    ensures forall p: Vec :: Circle(p) == Circle(p, 0.0)
  {
  }

  /** `getAABBBox`: the 2r by 2r box centred on the circle. The corner is
      computed from a copy of `pos`; with values nothing of the circle can
      change. */
  function GetAABBBox(c: Circle): (box: Box)
    ensures Add(box.pos, Vec(c.r, c.r)) == c.pos
    ensures box.w == 2.0 * c.r && box.h == 2.0 * c.r
  {
    var r := c.r;
    var corner := Sub(c.pos, Vec(r, r));
    Box(corner, r * 2.0, r * 2.0)
  }

  lemma MulPos(a: real, b: real)
    requires a > 0.0 && b > 0.0
    ensures a * b > 0.0
  {
  }

  /** A coordinate whose square is at most r*r lies within [-r, r]. */
  lemma SquareBound(d: real, r: real)
    requires r >= 0.0 && d * d <= r * r
    ensures -r <= d <= r
  {
    if d > r {
      MulPos(d - r, d + r);
    } else if d < -r {
      MulPos(-d - r, -d + r);
    }
  }

  /** For a circle of non-negative radius, the box holds every point of the
      disc. */
  lemma AABBBoxContainsDisc(c: Circle, p: Vec)
    requires c.r >= 0.0 && Len2(Sub(p, c.pos)) <= c.r * c.r
    ensures Contains(GetAABBBox(c), p)
  {
    var d := Sub(p, c.pos);
    assert d.x * d.x <= c.r * c.r by {
      assert d.y * d.y >= 0.0;
    }
    assert d.y * d.y <= c.r * c.r by {
      assert d.x * d.x >= 0.0;
    }
    SquareBound(d.x, c.r);
    SquareBound(d.y, c.r);
  }

  /** `getAABB`: the polygon of that box; its points are (0,0), (2r,0),
      (2r,2r), (0,2r) relative to the box corner. */
  method GetAABB(c: Circle, trig: Trig) returns (p: Polygon)
    ensures fresh(p) && p.Valid() && p.angle == 0.0 && p.offset == Zero
    ensures p.pos == GetAABBBox(c).pos
    ensures p.points == [Vec(0.0, 0.0), Vec(2.0 * c.r, 0.0), Vec(2.0 * c.r, 2.0 * c.r), Vec(0.0, 2.0 * c.r)]
  {
    var r := c.r;
    var corner := Sub(c.pos, Vec(r, r));
    p := ToPolygon(Box(corner, r * 2.0, r * 2.0), trig);
  }
}
