/** The 2D vector kernel (lib/math/vector.d.ts declares it; its body is not
    part of this model). Vectors are values here: every operation returns a
    new vector instead of mutating its receiver for chaining. */
module Vectors {

  /** `new Vector(x = 0, y = 0)`. */
  datatype Vec = Vec(x: real := 0.0, y: real := 0.0)

  const Zero: Vec := Vec(0.0, 0.0)

  function Add(u: Vec, v: Vec): Vec { Vec(u.x + v.x, u.y + v.y) }

  function Sub(u: Vec, v: Vec): Vec { Vec(u.x - v.x, u.y - v.y) }

  /** `reverse()`. */
  function Neg(v: Vec): Vec { Vec(-v.x, -v.y) }

  /** `perp()`: the vector turned by -90 degrees, (x, y) to (y, -x). */
  function Perp(v: Vec): Vec { Vec(v.y, -v.x) }

  function Dot(u: Vec, v: Vec): real { u.x * v.x + u.y * v.y }

  /** `len2()`: the squared length. */
  function Len2(v: Vec): real { Dot(v, v) }

  /** The operations of the vector library that need trigonometry or square
      roots (`rotate(angle)` and `normalize()`). Reals have neither, so they
      are supplied by the caller and the model only ever applies them. */
  datatype Trig = Trig(rotate: (Vec, real) -> Vec, normalize: Vec -> Vec)

  /** The sum of a sequence of vectors, from the left. */
  function Sum(vs: seq<Vec>): Vec
  {
    if vs == [] then Zero else Add(Sum(vs[..|vs| - 1]), vs[|vs| - 1])
  }

  lemma DotAddLeft(u: Vec, v: Vec, n: Vec)
    ensures Dot(Add(u, v), n) == Dot(u, n) + Dot(v, n)
  {
  }

  lemma DotSub(u: Vec, v: Vec, n: Vec)
    ensures Dot(Sub(u, v), n) == Dot(u, n) - Dot(v, n)
  {
  }

  /** The x and y coordinates of a point list. */
  function Xs(ps: seq<Vec>): (r: seq<real>)
    ensures |r| == |ps| && forall i :: 0 <= i < |ps| ==> r[i] == ps[i].x
  {
    seq(|ps|, i requires 0 <= i < |ps| => ps[i].x)
  }

  function Ys(ps: seq<Vec>): (r: seq<real>)
    ensures |r| == |ps| && forall i :: 0 <= i < |ps| ==> r[i] == ps[i].y
  {
    seq(|ps|, i requires 0 <= i < |ps| => ps[i].y)
  }

  /** `m` is the least element of `s`: a lower bound that `s` attains. */
  ghost predicate IsLeast(s: seq<real>, m: real)
  {
    (forall i :: 0 <= i < |s| ==> m <= s[i]) && exists i :: 0 <= i < |s| && s[i] == m
  }

  /** `m` is the greatest element of `s`: an upper bound that `s` attains. */
  ghost predicate IsGreatest(s: seq<real>, m: real)
  {
    (forall i :: 0 <= i < |s| ==> s[i] <= m) && exists i :: 0 <= i < |s| && s[i] == m
  }
}
