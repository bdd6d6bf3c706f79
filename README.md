# SAT-ts in Dafny

A model of the real-valued core of SAT-ts, a Separating Axis Theorem
collision library for convex 2D shapes. It covers:

- the axis-projection test `isSeparatingAxis`, with its helper
  `flattenPointsOn` and the overlap bookkeeping it does in a `Response`;
- the `Polygon` class, whose setters keep the derived arrays `calcPoints`,
  `edges` and `normals` in step with `points`, `angle` and `offset`;
- the bounding-box and conversion helpers of `Box`, `Circle` and
  `conversion.ts`.

Every number is a Dafny `real`. Vectors, boxes and circles are values
(`Vec`, `Box`, `Circle`). `Polygon` and `Response` are classes whose methods
update their fields in place. `Polygon.calcPoints`, `edges` and `normals`
are arrays that are overwritten in place and reallocated only when the
number of points changes. The vector library's `rotate` and `normalize` need
trigonometry and square roots. They are supplied as a `Trig` value, held by
every polygon and passed to every operation that builds one.

Modules, one per source file:

- `Vectors` (`vector.dfy`): the vector operations used by the core, and the
  least and greatest element of a list.
- `Boxes` (`box.dfy`): the box.
- `Polygons` (`polygon.dfy`): the polygon.
- `BoxPolygons` (`box_polygon.dfy`): `Box.toPolygon`. It sits apart from
  `Boxes` because the polygon already depends on boxes, and Dafny modules
  cannot import each other in a cycle.
- `Circles` (`circle.dfy`): the circle.
- `Conversion` (`conversion.dfy`): the conversion helpers.
- `Responses` (`response.dfy`): the response record.
- `Collision` (`util.dfy`): the projection and the separating-axis test.
- `Wrappers` (`wrappers.dfy`): the `Option` type.

Some source calls throw a JavaScript TypeError: `getAABB` and `getAABBBox`
on a polygon with no points, and `getAABBBox` on a shape with neither a
truthy radius nor `calcPoints`. These calls return `None` in the model.

`Polygon.getAABB` is documented as computing the axis-aligned bounding box
(src/math/polygon.ts:196). The sibling scan in `conversion.ts` keeps separate
chains for x and y (src/math/conversion.ts:30-39). `getAABB` itself uses one
`else if` chain over both axes (src/math/polygon.ts:216-224). The model
follows that code, and Findings records where the two differ.

## Model

| member | source | states |
|---|---|---|
| `Boxes.BoxDefaults` | src/math/box.ts:19-25 | A box defaults to position (0,0), width 0 and height 0. |
| `Boxes.CornersCounterClockwise` | src/math/box.ts:42-45 | For w, h > 0 the corners (0,0), (w,0), (w,h), (0,h) turn left by w·h at every vertex, so they are in counter-clockwise convex order. |
| `Boxes.BoxAround` | src/math/conversion.ts:41-42 | The far corner of the box built from the bounds is pos + (xMax, yMax), and the box has non-negative width and height exactly when xMin ≤ xMax and yMin ≤ yMax. |
| `Boxes.BoxAroundContains` | src/math/polygon.ts:226 | A point placed at pos lies in that box exactly when it lies within the bounds on both axes. |
| `Boxes.BoxAroundSpansX` | src/math/polygon.ts:226 | If the x bounds are the exact least and greatest x, the box covers every point along x, touches a point on both sides, and w ≥ 0. |
| `Boxes.BoxAroundSpansY` | src/math/conversion.ts:41-42 | The same along y for exact y bounds, with h ≥ 0. |
| `Polygons.Next` | src/math/polygon.ts:114 | The vertex after i is (i + 1) mod n, wrapping to 0 after the last. |
| `Polygons.CalcPoints` | src/math/polygon.ts:103-110 | At angle 0 every calculated point is the original point plus the offset; there is one per point. |
| `Polygons.Edges` | src/math/polygon.ts:112-115 | Edge i leads from calculated point i to calculated point (i + 1) mod n. |
| `Polygons.EdgesPrefixSum` | src/math/polygon.ts:112-115 | The first k edges add up to the walk from vertex 0 to vertex k. |
| `Polygons.EdgesSumToZero` | src/math/polygon.ts:112-115 | The edges of every outline add up to the zero vector. |
| `Polygons.TranslatedCalcPoints` | src/math/polygon.ts:181-194 | At angle 0, translating the original points by d translates every calculated point by d. |
| `Polygons.TranslatedEdges` | src/math/polygon.ts:181-194 | Moving every vertex by the same vector changes no edge. |
| `Polygons.ChainBoundsX` | src/math/polygon.ts:213-225 | The `else if` chain's x bounds are the exact least and greatest x of the points. |
| `Polygons.ChainBoundsY` | src/math/polygon.ts:213-225 | The chain's y bounds are each attained by some point and bracket the first point's y (so h ≥ 0). They are not claimed to cover every point. |
| `Polygons.ChainBoundsRisingX` | src/math/polygon.ts:216-224 | When x strictly increases along the points, the y bounds stay at the first point's y. |
| `Polygons.ChainBoundsMissesPoint` | src/math/polygon.ts:216-224 | For such points the box misses the last vertex whenever that vertex's y differs from the first: the chain's box need not contain the polygon. |
| `Polygons.ChainBoundsOfCorners` | src/math/polygon.ts:203-226 | On box corners with w, h ≥ 0 the chain finds the bounds (0, w) and (0, h). |
| `Polygons.Polygon.constructor` | src/math/polygon.ts:39-47 | A new polygon has the given position and points, angle 0, a zero offset and three fresh derived arrays consistent with them. |
| `Polygons.Polygon.Recalc` | src/math/polygon.ts:86-120 | Overwrites only the three derived arrays, in place. Afterwards the calculated points, the wrapping edges and the normals of the edges hold what the points, offset and angle determine. |
| `Polygons.Polygon.SetPoints` | src/math/polygon.ts:61-79 | Replaces the points and keeps pos, angle and offset. All three arrays get the new length. They are the same arrays when the length is unchanged and fresh ones otherwise. They are consistent afterwards. |
| `Polygons.Polygon.SetAngle` | src/math/polygon.ts:127-133 | Changes only the angle and the contents of the derived arrays. |
| `Polygons.Polygon.SetOffset` | src/math/polygon.ts:140-146 | Changes only the offset and the contents of the derived arrays. |
| `Polygons.Polygon.Rotate` | src/math/polygon.ts:155-167 | Rotates every original point by the angle in place and keeps the polygon's own angle, offset and position. |
| `Polygons.Polygon.Translate` | src/math/polygon.ts:181-194 | Adds (x, y) to every original point and keeps everything else. At angle 0 every calculated point moves by (x, y) and every edge is unchanged. |
| `Polygons.Polygon.GetAABB` | src/math/polygon.ts:203-227 | With no calculated points there is no box. Otherwise the box is the chain's box at pos: its x extent spans the points exactly and h ≥ 0. |
| `BoxPolygons.CornersCalcPoints` | src/math/polygon.ts:103-110 | With angle 0 and a zero offset, the calculated points of a box polygon are its corners. |
| `BoxPolygons.CornersEdges` | src/math/polygon.ts:112-115 | A box outline's edges are (w,0), (0,h), (-w,0), (0,-h). |
| `BoxPolygons.ToPolygon` | src/math/box.ts:37-46 | A fresh, consistent polygon at the box's position (held by value), with points (0,0), (w,0), (w,h), (0,h), angle 0, zero offset and edges (w,0), (0,h), (-w,0), (0,-h). |
| `BoxPolygons.ToPolygonGetAABB` | src/math/polygon.ts:203-226 | For w, h ≥ 0, `toPolygon().getAABB()` gives back the same box. |
| `Circles.CircleDefaults` | src/math/circle.ts:22-26 | A circle defaults to position (0,0) and radius 0. |
| `Circles.GetAABBBox` | src/math/circle.ts:46-50 | The box is 2r by 2r and centred on the circle: corner + (r, r) = pos. |
| `Circles.AABBBoxContainsDisc` | src/math/circle.ts:46-50 | For r ≥ 0 the box contains every point of the disc. |
| `Circles.GetAABB` | src/math/circle.ts:34-38 | A fresh polygon at the box corner with points (0,0), (2r,0), (2r,2r), (0,2r). |
| `Conversion.ConvertBoxToPolygon` | src/math/conversion.ts:6-11 | A fresh, consistent polygon at the box's position with points (0,0), (w,0), (w,h), (0,h), just as `toPolygon` builds. |
| `Conversion.ScanBoundsX` | src/math/conversion.ts:27-40 | The scan's x bounds are the exact least and greatest x. |
| `Conversion.ScanBoundsY` | src/math/conversion.ts:35-39 | With its own `if` chain for y, the y bounds are the exact least and greatest y. |
| `Conversion.ScanBoundsOfCorners` | src/math/conversion.ts:22-40 | On box corners with w, h ≥ 0 the scan finds (0, w) and (0, h). |
| `Conversion.GetAABBBox` | src/math/conversion.ts:13-43 | With a truthy radius the result is the 2r by 2r box at pos - (r, r), the same as the circle's own box. Otherwise there is no box when the points are absent or empty. When there is one, it lies at pos and spans the points exactly on both axes, with w, h ≥ 0. |
| `Conversion.BoxRoundTrip` | src/math/conversion.ts:6-42 | For w, h ≥ 0, `getAABBBox(convertBoxToPolygon(b))` gives back b. |
| `Conversion.ZeroRadiusCircleBox` | src/math/conversion.ts:14-20 | A circle of radius 0 gets no box from `getAABBBox`, while its own `getAABBBox` gives the 0 by 0 box at its centre. |
| `Conversion.FixedGetAABBBox` | src/math/conversion.ts:13-43 | `getAABBBox` with the radius test corrected. Any radius that is present, 0 included, gives the circle's own box. Without a radius it behaves like `getAABBBox`: no box when the points are absent or empty, else the box at pos that spans the points exactly on both axes. |
| `Conversion.FixedCircleBox` | src/math/conversion.ts:14-18 | With the correction, every circle passed as an argument, including one of radius 0, gets the box that `Circle.getAABBBox` gives. |
| `Responses.Response.constructor` | lib/collision/response.d.ts:6-13 | A response holds the given overlap, direction and flags, with no shapes and a zero translation vector. |
| `Collision.RunningMin` | src/collision/util.ts:51-62 | The scan's minimum is never above the `MAX_VALUE` start and is a lower bound of every projection. |
| `Collision.RunningMax` | src/collision/util.ts:53-62 | The scan's maximum is never below `-MAX_VALUE` and is an upper bound of every projection. |
| `Collision.RunningMinIsLeast` | src/collision/util.ts:57-62 | Over finite values, the minimum of a non-empty list is attained: it is the least projection. |
| `Collision.RunningMaxIsGreatest` | src/collision/util.ts:57-62 | Over finite values, the maximum of a non-empty list is the greatest projection. |
| `Collision.RangeInvertedIffEmpty` | src/collision/util.ts:51-64 | Over finite values, min > max exactly when there are no points. The empty range is the sentinel pair (`MAX_VALUE`, `-MAX_VALUE`). |
| `Collision.FlattenPointsOn` | src/collision/util.ts:50-65 | Writes the minimum projection into result[0] and the maximum into result[1], and touches no other slot. |
| `Collision.OverlapIffCommonValue` | src/collision/util.ts:99 | Two proper ranges fail the disjointness test exactly when they share a value. |
| `Collision.SeparatingAxisSeparatesPoints` | src/collision/util.ts:87-99 | On a separating axis, every point of A (placed at aPos) projects strictly on one side of every point of B (placed at bPos). |
| `Collision.SignedOverlapCases` | src/collision/util.ts:110-134 | Case by case for overlapping ranges. If A starts and ends first, the overlap is A.max - B.min ≥ 0. If A starts no earlier and ends later, it is A.min - B.max ≤ 0. If one range is nested in the other, the overlap is either option1 or -option2, its magnitude is at most both, and it is negative only when option2 ≤ option1. |
| `Collision.SignedOverlapIsMinimal` | src/collision/util.ts:110-134 | Moving A by minus the signed overlap leaves the ranges at most touching, and no move that does so is shorter. |
| `Collision.Accumulate` | src/collision/util.ts:107-143 | On a non-separating axis: aInB survives exactly when A's range lies within B's, and bInA exactly when B's lies within A's and A starts first. Neither flag can become true. Overlap never grows. It is replaced by the absolute overlap only when that is strictly smaller, with direction axis (or -axis for a negative signed overlap). Otherwise overlap and direction are kept. |
| `Collision.IsSeparatingAxis` | src/collision/util.ts:82-149 | Returns true exactly when A's projected range and B's range, shifted by the projected offset dot(bPos - aPos, axis), are disjoint. On a true return the response is unchanged. Otherwise it is updated as `Accumulate` says. Its shapes and translation vector are never touched. |

## Left out

- The body of the vector class (`src/math/vector.ts`) is not part of this model. Only its declaration file is. The model's `Vec` operations are values instead of receivers that are mutated and returned for chaining. `perp` is taken as (x, y) to (y, -x).
- Rotation and normalisation are parameters (`Trig`) because reals have neither trigonometry nor square roots. The model says of `normals` only that `normals[i]` is the normalised perpendicular of `edges[i]`.
- IEEE-754 behaviour (rounding, NaN, infinities) is not modelled; numbers are exact reals. `Number.MAX_VALUE` is its exact real value. The attainment lemmas for `flattenPointsOn` assume every projection is at most `MAX_VALUE` in magnitude, as every finite double is.
- `Response.overlap` is a finite real, so a query starts from a finite bound such as `MaxValue`. An infinite start cannot be expressed.
- `Response.clear()` (declared at lib/collision/response.d.ts:14) is not modelled, and neither are the constructor's initial values. `src/collision/response.ts` is an empty class, so neither has a body to model. The model's constructor takes the initial field values.
- `getCentroid` (src/math/polygon.ts:238-263) is not modelled. Its loop assigns `cx` and `cy` instead of accumulating them, and it divides by 3 × area, so it does not compute a centroid.
- The Voronoi-region classification, the shape-pair tests (`testPolygonPolygon`, `testCircleCircle`, `testPolygonCircle`, `testCirclePolygon`) and `pointInCircle` and `pointInPolygon` are not modelled. The source text of `util.ts` ends at line 163 and only their declarations exist, so none of their properties are stated.
- The module-level object pools (`T_VECTORS`, `T_ARRAYS`, `T_RESPONSE`, `TEST_POINT`) are left out. The model allocates its two ranges locally.
- Aliasing of caller objects is left out. `setPoints` keeps the caller's array, `setOffset` keeps the caller's vector, and the constructors keep the caller's `pos`. In the model these are values owned by the polygon, so outside mutation cannot bypass the recomputation.
- The setters' `return this` for chaining is left out; the methods return nothing.
- `getAABB`'s declared return type is `Polygon`, but it returns a `Box`. The model returns a `Box`.
- Polygon.constructor: stores the points and allocates the derived arrays itself, as `setPoints` does when the polygon has no points yet, rather than calling `SetPoints`.
- FlattenPointsOn: requires the result array to have at least two slots, because Dafny arrays have a fixed length. The `requires` stands for a JavaScript array growing on assignment. The range arrays in the `T_ARRAYS` pool start empty (src/collision/util.ts:22, 83-85), and the writes at src/collision/util.ts:63-64 grow them to two slots.
- Number arguments that the source gets as `undefined` or as non-numbers are not modelled, apart from the optional radius and points of `getAABBBox`'s argument (`Extent`).
- The declaration files under `lib/`, `webpack.config.js` and `src/index.ts` (re-exports) carry no behaviour.

## Findings

| source | as written | input that shows it | evidently intended | confidence | as-written member | corrected member |
|---|---|---|---|---|---|---|
| src/math/polygon.ts:216-224 | One `else if` chain over both axes: a point that moves xMin or xMax never updates yMin or yMax. | The triangle (0,0), (1,1), (2,3) gives a box 2 wide and 0 high, so (2,3) lies outside it. | Separate chains for x and y, as in src/math/conversion.ts:30-39, so that the box contains every vertex. | high; not executed | `Polygons.ChainBoundsMissesPoint` | `Conversion.ScanBoundsY` |
| src/math/conversion.ts:14 | `if(polygon.r)` tests truthiness, so a circle of radius 0 takes the polygon branch, has no `calcPoints` and throws a TypeError. | A circle with the default radius 0 at any position. | Take the circle branch whenever a radius is present, giving the 0 by 0 box at the centre that `Circle.getAABBBox` gives. | medium; not executed | `Conversion.ZeroRadiusCircleBox` | `Conversion.FixedGetAABBBox` |
