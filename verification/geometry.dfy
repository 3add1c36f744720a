/** Points of the packing space and the distance arithmetic the packing worker uses.

    The worker measures distances with `Math.sqrt`. Reals carry no constructive square
    root, so every operation that needs one takes it as a parameter `sqrt` constrained by
    `IsSqrt`: it returns the non-negative number whose square is its argument. All the
    invariants of the model are stated without it, over squared distances, and the lemmas
    here translate between the two forms. */
module Geometry {

  /** A centre in space; candidates are drawn from the cube [-1, 1)^3. */
  datatype Point = Point(x: real, y: real, z: real)

  const Origin: Point := Point(0.0, 0.0, 0.0)

  /** The square-root law `Math.sqrt` obeys on non-negative reals (rounding left out). */
  ghost predicate IsSqrt(sqrt: real -> real) {
    forall v :: 0.0 <= v ==> 0.0 <= sqrt(v) && sqrt(v) * sqrt(v) == v
  }

  function Square(v: real): (s: real)
    ensures s >= 0.0
  {
    v * v
  }

  /** Squared Euclidean distance between two points. */
  function SqDist(a: Point, b: Point): (d: real)
    ensures d >= 0.0
    ensures a == b ==> d == 0.0
  {
    Square(b.x - a.x) + Square(b.y - a.y) + Square(b.z - a.z)
  }

  /** `dist3`: the Euclidean distance, through the supplied square root. */
  function Dist(sqrt: real -> real, a: Point, b: Point): (d: real)
    requires IsSqrt(sqrt)
    ensures d >= 0.0 && d * d == SqDist(a, b)
  {
    sqrt(SqDist(a, b))
  }

  /** Distance from the origin, `dist3(0, 0, 0, x, y, z)`. */
  function Norm(sqrt: real -> real, c: Point): (d: real)
    requires IsSqrt(sqrt)
    ensures d >= 0.0 && d * d == SqDist(Origin, c)
  {
    Dist(sqrt, Origin, c)
  }

  lemma SqDistSymmetric(a: Point, b: Point)
    ensures SqDist(a, b) == SqDist(b, a)
  {
  }

  /** On non-negative reals, comparing two numbers and comparing their squares agree. */
  lemma SquareMonotone(u: real, v: real)
    requires 0.0 <= u && 0.0 <= v
    ensures u < v <==> u * u < v * v
  {
    var uu, uv, vv := u * u, u * v, v * v;
    if u < v {
      assert uu <= uv < vv;
    } else {
      assert vv <= uv <= uu;
    }
  }

  /** The test `dist < bound` of the worker is the squared test `dist^2 < bound^2`. */
  lemma DistBelow(sqrt: real -> real, a: Point, b: Point, bound: real)
    requires IsSqrt(sqrt)
    requires 0.0 <= bound
    ensures Dist(sqrt, a, b) < bound <==> SqDist(a, b) < bound * bound
  {
    SquareMonotone(Dist(sqrt, a, b), bound);
  }

  /** A sphere of radius `r` centred at `c` lies in the closed unit ball, stated with the
      square root and without it. */
  lemma InBallSquared(sqrt: real -> real, c: Point, r: real)
    requires IsSqrt(sqrt)
    ensures Norm(sqrt, c) + r <= 1.0 <==> r <= 1.0 && SqDist(Origin, c) <= (1.0 - r) * (1.0 - r)
  {
    if r <= 1.0 {
      SquareMonotone(1.0 - r, Norm(sqrt, c));
    }
  }
}
