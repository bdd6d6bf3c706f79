/** src/collision/response.ts: the result record of an intersection query,
    with the fields lib/collision/response.d.ts declares. */
module Responses {
  import opened Vectors

  /** The part of a response the separating-axis test reads and writes. */
  datatype Hit = Hit(overlap: real, overlapN: Vec, aInB: bool, bInA: bool)

  class Response {
    /** The two shapes tested; the engine never looks at them. */
    var a: object?
    var b: object?
    /** The direction of the smallest overlap found so far. */
    var overlapN: Vec
    /** The minimum translation vector. */
    var overlapV: Vec
    /** Whether a lies wholly inside b, and b wholly inside a. */
    var aInB: bool
    var bInA: bool
    /** The magnitude of the smallest overlap found so far. */
    var overlap: real

    /** The source's constructor leaves every field unset, for the caller to
        fill in; here the caller passes their values. */
    constructor (overlap: real, overlapN: Vec := Zero, aInB: bool := true, bInA: bool := true)
      ensures this.overlap == overlap && this.overlapN == overlapN
      ensures this.aInB == aInB && this.bInA == bInA
      ensures a == null && b == null && overlapV == Zero
    {
      this.overlap := overlap;
      this.overlapN := overlapN;
      this.aInB := aInB;
      this.bInA := bInA;
      a, b := null, null;
      overlapV := Zero;
    }

    /** The response as the separating-axis test sees it. */
    function Snapshot(): Hit
      reads this
    {
      Hit(overlap, overlapN, aInB, bInA)
    }
  }
}
