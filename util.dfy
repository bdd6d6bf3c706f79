/** src/collision/util.ts: projecting point lists onto an axis and the
    separating-axis test with its overlap bookkeeping. */
module Collision {
  import opened Vectors
  import opened Responses

  /** `Number.MAX_VALUE`, the largest finite double, (2 - 2^-52) * 2^1023,
      written out exactly. */
  const MaxValue: real := 179769313486231570814527423731704356798070567525844996598917476803157260780028538760589558632766878171540458953514382464234321326889464182768467546703537516986049910576551282076245490090389328944075868508455133942304583236903222948165808559332123348274797826204144723168738177180919299881250404026184124858368.0

  /** A value some finite double reaches in magnitude. */
  predicate Finite(v: real)
  {
    -MaxValue <= v <= MaxValue
  }

  /** `Math.abs`. */
  function Abs(v: real): real
  {
    if v < 0.0 then -v else v
  }

  /** The projections `dot(points[i], axis)`, in order. */
  function Projections(ps: seq<Vec>, axis: Vec): (ds: seq<real>)
    ensures |ds| == |ps|
  {
    seq(|ps|, i requires 0 <= i < |ps| => Dot(ps[i], axis))
  }

  /** The minimum the scan of `flattenPointsOn` keeps: it starts at
      `MaxValue` and drops to every smaller value. It is a lower bound of
      every value and never above the start. */
  function RunningMin(ds: seq<real>): (m: real)
    ensures m <= MaxValue
    ensures forall i :: 0 <= i < |ds| ==> m <= ds[i]
  {
    if ds == [] then MaxValue
    else
      var m := RunningMin(ds[..|ds| - 1]);
      var d := ds[|ds| - 1];
      if d < m then d else m
  }

  /** The maximum that scan keeps, started at `-MaxValue`. */
  function RunningMax(ds: seq<real>): (m: real)
    ensures -MaxValue <= m
    ensures forall i :: 0 <= i < |ds| ==> ds[i] <= m
  {
    if ds == [] then -MaxValue
    else
      var m := RunningMax(ds[..|ds| - 1]);
      var d := ds[|ds| - 1];
      if d > m then d else m
  }

  /** Over finite values the running minimum of a non-empty list is its
      least element. */
  lemma {:induction false} RunningMinIsLeast(ds: seq<real>)
    requires |ds| > 0 && forall i :: 0 <= i < |ds| ==> Finite(ds[i])
    ensures IsLeast(ds, RunningMin(ds))
  {
    var pre := ds[..|ds| - 1];
    if |pre| > 0 {
      RunningMinIsLeast(pre);
      var i :| 0 <= i < |pre| && pre[i] == RunningMin(pre);
      assert ds[i] == pre[i];
    }
  }

  /** The running maximum of a non-empty finite list is its greatest element. */
  lemma {:induction false} RunningMaxIsGreatest(ds: seq<real>)
    requires |ds| > 0 && forall i :: 0 <= i < |ds| ==> Finite(ds[i])
    ensures IsGreatest(ds, RunningMax(ds))
  {
    var pre := ds[..|ds| - 1];
    if |pre| > 0 {
      RunningMaxIsGreatest(pre);
      var i :| 0 <= i < |pre| && pre[i] == RunningMax(pre);
      assert ds[i] == pre[i];
    }
  }

  /** Over finite values the range comes out inverted (min above max)
      exactly when there was nothing to project: the sentinel pair
      (`MaxValue`, `-MaxValue`) of the empty list. */
  lemma RangeInvertedIffEmpty(ds: seq<real>)
    requires forall i :: 0 <= i < |ds| ==> Finite(ds[i])
    ensures RunningMin(ds) > RunningMax(ds) <==> ds == []
    ensures ds == [] ==> RunningMin(ds) == MaxValue && RunningMax(ds) == -MaxValue
  {
    if ds != [] {
      RunningMinIsLeast(ds);
      var i :| 0 <= i < |ds| && ds[i] == RunningMin(ds);
    }
  }

  /** `flattenPointsOn`: writes the least projection of the points onto the
      axis into `result[0]` and the greatest into `result[1]`. */
  method FlattenPointsOn(points: array<Vec>, normal: Vec, result: array<real>)
    requires result.Length >= 2
    modifies result
    ensures result[0] == RunningMin(Projections(points[..], normal))
    ensures result[1] == RunningMax(Projections(points[..], normal))
    ensures forall k :: 2 <= k < result.Length ==> result[k] == old(result[k])
  {
    var min := MaxValue;
    var max := -MaxValue;
    var len := points.Length;
    ghost var ds := Projections(points[..], normal);
    var i := 0;
    while i < len
      invariant 0 <= i <= len
      invariant min == RunningMin(ds[..i]) && max == RunningMax(ds[..i])
    {
      var dot := Dot(points[i], normal);
      if dot < min {
        min := dot;
      }
      if dot > max {
        max := dot;
      }
      assert ds[..i + 1][..i] == ds[..i];
      i := i + 1;
    }
    assert ds[..len] == ds;
    result[0] := min;
    result[1] := max;
  }

  /** A one-dimensional range [lo, hi] on the axis. */
  datatype Range = Range(lo: real, hi: real)

  /** The range `flattenPointsOn` finds for a point list. */
  function Projection(ps: seq<Vec>, axis: Vec): Range
  {
    Range(RunningMin(Projections(ps, axis)), RunningMax(Projections(ps, axis)))
  }

  function Shift(r: Range, d: real): Range
  {
    Range(r.lo + d, r.hi + d)
  }

  /** The test of `isSeparatingAxis`: one range starts beyond the other's end. */
  predicate Disjoint(a: Range, b: Range)
  {
    a.lo > b.hi || b.lo > a.hi
  }

  predicate InRange(r: Range, t: real)
  {
    r.lo <= t <= r.hi
  }

  /** For proper ranges, not disjoint means sharing a value. */
  lemma OverlapIffCommonValue(a: Range, b: Range)
    requires a.lo <= a.hi && b.lo <= b.hi
    ensures !Disjoint(a, b) <==> exists t :: InRange(a, t) && InRange(b, t)
  {
    if !Disjoint(a, b) {
      var t := if a.lo < b.lo then b.lo else a.lo;
      assert InRange(a, t) && InRange(b, t);
    }
  }

  /** A separating axis separates the shapes: with B's range moved by the
      projected offset of the positions, every point of A placed at `aPos`
      projects strictly beyond every point of B placed at `bPos`, on one and
      the same side. */
  lemma SeparatingAxisSeparatesPoints(aPos: Vec, bPos: Vec, aPoints: seq<Vec>, bPoints: seq<Vec>, axis: Vec)
    requires Disjoint(Projection(aPoints, axis), Shift(Projection(bPoints, axis), Dot(Sub(bPos, aPos), axis)))
    ensures || (forall i, j :: 0 <= i < |aPoints| && 0 <= j < |bPoints| ==>
                 Dot(Add(aPos, aPoints[i]), axis) > Dot(Add(bPos, bPoints[j]), axis))
            || (forall i, j :: 0 <= i < |aPoints| && 0 <= j < |bPoints| ==>
                 Dot(Add(aPos, aPoints[i]), axis) < Dot(Add(bPos, bPoints[j]), axis))
  {
    var da := Projections(aPoints, axis);
    var db := Projections(bPoints, axis);
    var ra := Projection(aPoints, axis);
    var rb := Projection(bPoints, axis);
    var oa := Dot(aPos, axis);
    var ob := Dot(bPos, axis);
    DotSub(bPos, aPos, axis);
    forall i | 0 <= i < |aPoints| ensures Dot(Add(aPos, aPoints[i]), axis) == oa + da[i] && ra.lo <= da[i] <= ra.hi {
      DotAddLeft(aPos, aPoints[i], axis);
    }
    forall j | 0 <= j < |bPoints| ensures Dot(Add(bPos, bPoints[j]), axis) == ob + db[j] && rb.lo <= db[j] <= rb.hi {
      DotAddLeft(bPos, bPoints[j], axis);
    }
  }

  /** Moving A by `-d` along the axis leaves the two ranges at most touching. */
  predicate Resolves(a: Range, b: Range, d: real)
  {
    a.hi - d <= b.lo || a.lo - d >= b.hi
  }

  /** The signed overlap `isSeparatingAxis` computes for ranges that are not
      disjoint (B already moved into A's frame). */
  function SignedOverlap(a: Range, b: Range): real
  {
    if a.lo < b.lo then
      if a.hi < b.hi then a.hi - b.lo
      else
        var option1 := a.hi - b.lo;
        var option2 := b.hi - a.lo;
        if option1 < option2 then option1 else -option2
    else
      if a.hi > b.hi then a.lo - b.hi
      else
        var option1 := a.hi - b.lo;
        var option2 := b.hi - a.lo;
        if option1 < option2 then option1 else -option2
  }

  /** Its value and sign case by case: A starting and ending first, A
      starting and ending later, and one range nested in the other. */
  lemma SignedOverlapCases(a: Range, b: Range)
    requires !Disjoint(a, b)
    ensures a.lo < b.lo && a.hi < b.hi ==> SignedOverlap(a, b) == a.hi - b.lo >= 0.0
    ensures a.lo >= b.lo && a.hi > b.hi ==> SignedOverlap(a, b) == a.lo - b.hi <= 0.0
    ensures (a.lo < b.lo && a.hi >= b.hi) || (a.lo >= b.lo && a.hi <= b.hi) ==>
      && Abs(SignedOverlap(a, b)) <= a.hi - b.lo && Abs(SignedOverlap(a, b)) <= b.hi - a.lo
      && (SignedOverlap(a, b) == a.hi - b.lo || SignedOverlap(a, b) == -(b.hi - a.lo))
      && (SignedOverlap(a, b) < 0.0 ==> b.hi - a.lo <= a.hi - b.lo)
  {
  }

  /** The signed overlap is a minimum translation: moving A by minus it
      along the axis resolves the overlap, and no resolving move is shorter. */
  lemma SignedOverlapIsMinimal(a: Range, b: Range, d: real)
    requires !Disjoint(a, b)
    ensures Resolves(a, b, SignedOverlap(a, b))
    ensures Resolves(a, b, d) ==> Abs(SignedOverlap(a, b)) <= Abs(d)
  {
  }

  /** What a non-separating axis does to the response: the containment flags
      can only be cleared, and survive exactly when the ranges nest that
      way; the overlap never grows and is replaced, together with its
      direction, only by a strictly smaller one. */
  function Accumulate(h: Hit, a: Range, b: Range, axis: Vec): (h': Hit)
    ensures h'.aInB <==> h.aInB && b.lo <= a.lo && a.hi <= b.hi
    ensures h'.bInA <==> h.bInA && a.lo < b.lo && b.hi <= a.hi
    ensures h'.overlap <= h.overlap
    ensures var o := SignedOverlap(a, b);
      if Abs(o) < h.overlap then h'.overlap == Abs(o) && h'.overlapN == (if o < 0.0 then Neg(axis) else axis)
      else h'.overlap == h.overlap && h'.overlapN == h.overlapN
  {
    var flags := if a.lo < b.lo then h.(aInB := false, bInA := h.bInA && !(a.hi < b.hi))
                 else h.(bInA := false, aInB := h.aInB && !(a.hi > b.hi));
    var o := SignedOverlap(a, b);
    if Abs(o) < h.overlap then flags.(overlap := Abs(o), overlapN := if o < 0.0 then Neg(axis) else axis)
    else flags
  }

  /** `isSeparatingAxis`: true exactly when the projections of A and of B,
      the latter moved by the projected offset between the positions, are
      disjoint. Then, or without a response, nothing observable changes;
      otherwise the response accumulates this axis. */
  method IsSeparatingAxis(aPos: Vec, bPos: Vec, aPoints: array<Vec>, bPoints: array<Vec>, axis: Vec, response: Response?)
    returns (separating: bool)
    modifies response
    ensures var ra := Projection(aPoints[..], axis);
            var rb := Shift(Projection(bPoints[..], axis), Dot(Sub(bPos, aPos), axis));
            && separating == Disjoint(ra, rb)
            && (response != null && !separating ==> response.Snapshot() == Accumulate(old(response.Snapshot()), ra, rb, axis))
    ensures response != null && separating ==> unchanged(response)
    ensures response != null ==> response.a == old(response.a) && response.b == old(response.b)
    ensures response != null ==> response.overlapV == old(response.overlapV)
  {
    ghost var h0 := if response != null then response.Snapshot() else Hit(0.0, Zero, false, false);
    var rangeA := new real[2];
    var rangeB := new real[2];
    var offsetV := Sub(bPos, aPos);
    var projectedOffset := Dot(offsetV, axis);
    FlattenPointsOn(aPoints, axis, rangeA);
    FlattenPointsOn(bPoints, axis, rangeB);
    rangeB[0] := rangeB[0] + projectedOffset;
    rangeB[1] := rangeB[1] + projectedOffset;
    ghost var ra := Range(rangeA[0], rangeA[1]);
    ghost var rb := Range(rangeB[0], rangeB[1]);
    assert ra == Projection(aPoints[..], axis);
    assert rb == Shift(Projection(bPoints[..], axis), Dot(Sub(bPos, aPos), axis));
    if rangeA[0] > rangeB[1] || rangeB[0] > rangeA[1] {
      return true;
    }
    assert !Disjoint(ra, rb);
    if response != null {
      var overlap := 0.0;
      if rangeA[0] < rangeB[0] {
        response.aInB := false;
        if rangeA[1] < rangeB[1] {
          overlap := rangeA[1] - rangeB[0];
          response.bInA := false;
        } else {
          var option1 := rangeA[1] - rangeB[0];
          var option2 := rangeB[1] - rangeA[0];
          overlap := if option1 < option2 then option1 else -option2;
        }
      } else {
        response.bInA := false;
        if rangeA[1] > rangeB[1] {
          overlap := rangeA[0] - rangeB[1];
          response.aInB := false;
        } else {
          var option1 := rangeA[1] - rangeB[0];
          var option2 := rangeB[1] - rangeA[0];
          overlap := if option1 < option2 then option1 else -option2;
        }
      }
      assert overlap == SignedOverlap(ra, rb);
      var absOverlap := Abs(overlap);
      if absOverlap < response.overlap {
        response.overlap := absOverlap;
        response.overlapN := axis;
        if overlap < 0.0 {
          response.overlapN := Neg(response.overlapN);
        }
      }
      assert response.Snapshot() == Accumulate(h0, ra, rb, axis);
    }
    return false;
  }
}
