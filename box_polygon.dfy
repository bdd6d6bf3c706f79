/** `Box.toPolygon` (src/math/box.ts). It lives apart from the Box datatype
    because it builds a Polygon, and the Polygon module already depends on
    boxes for its bounding box. */
module BoxPolygons {
  import opened Wrappers
  import opened Vectors
  import opened Boxes
  import opened Polygons

  /** A new polygon has angle 0 and a zero offset, so its calculated points
      are the box corners themselves. */
  lemma CornersCalcPoints(b: Box, trig: Trig)
    ensures CalcPoints(Corners(b), Zero, 0.0, trig) == Corners(b)
  {
    var cs := CalcPoints(Corners(b), Zero, 0.0, trig);
    forall i | 0 <= i < 4 ensures cs[i] == Corners(b)[i] {
    }
  }

  /** The outline of a box walks right by w, up by h, left by w and down by h. */
  lemma CornersEdges(b: Box)
    ensures Edges(Corners(b)) == [Vec(b.w, 0.0), Vec(0.0, b.h), Vec(-b.w, 0.0), Vec(0.0, -b.h)]
  {
    var es := Edges(Corners(b));
    assert es[0] == Vec(b.w, 0.0);
    assert es[1] == Vec(0.0, b.h);
    assert es[2] == Vec(-b.w, 0.0);
    assert es[3] == Vec(0.0, -b.h);
  }

  /** `toPolygon`: a new polygon at a copy of the box's position, with the
      four corners (0,0), (w,0), (w,h), (0,h) in that order. The box is a
      value, so nothing of it can change or be shared. */
  method ToPolygon(b: Box, trig: Trig) returns (p: Polygon)
    ensures fresh(p) && fresh(p.calcPoints) && fresh(p.edges) && fresh(p.normals)
    ensures p.Valid() && p.trig == trig
    ensures p.pos == b.pos && p.points == Corners(b) && p.angle == 0.0 && p.offset == Zero
    ensures p.calcPoints[..] == Corners(b)
    ensures p.edges[..] == [Vec(b.w, 0.0), Vec(0.0, b.h), Vec(-b.w, 0.0), Vec(0.0, -b.h)]
  {
    var pos := b.pos;
    var w := b.w;
    var h := b.h;
    p := new Polygon(trig, Vec(pos.x, pos.y), [Vec(), Vec(w, 0.0), Vec(w, h), Vec(0.0, h)]);
    CornersCalcPoints(b, trig);
    CornersEdges(b);
  }

  /** A box of non-negative size survives `toPolygon().getAABB()`: the
      `else if` chain of `getAABB` happens to see every corner it needs. */
  method ToPolygonGetAABB(b: Box, trig: Trig) returns (box: Option<Box>)
    requires b.w >= 0.0 && b.h >= 0.0
    ensures box == Some(b)
  {
    var p := ToPolygon(b, trig);
    box := p.GetAABB();
    assert p.calcPoints[..] == Corners(b);
    ChainBoundsOfCorners(b);
    assert box.value == BoxAround(b.pos, Bounds(0.0, b.w, 0.0, b.h));
  }
}
