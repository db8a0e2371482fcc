/**
 * Positions and Euclidean distance.
 *
 * The scenario measures every distance with `np.linalg.norm(p - q)`, a square
 * root of a sum of squares. Dafny has no square root over the reals, so the
 * square root is a parameter `sqrt` that callers supply, constrained by
 * `IsSqrt`. Everything the reward logic needs about distances (non-negative,
 * symmetric, zero on equal points, order agrees with squared distance) is
 * proved from that constraint.
 */
module Geometry {

  /** A point or a vector of the position space (`p_pos`, `p_vel`, `c`). */
  type Vec = seq<real>

  /** Squared Euclidean distance. Positions of one world share a dimension;
      on vectors of different lengths the sum stops at the shorter one. */
  function SqDist(p: Vec, q: Vec): (r: real)
    ensures 0.0 <= r
    decreases |p|
  {
    if |p| == 0 || |q| == 0 then 0.0
    else (p[0] - q[0]) * (p[0] - q[0]) + SqDist(p[1..], q[1..])
  }

  /** `sqrt` is the non-negative square root on the non-negative reals. */
  ghost predicate IsSqrt(sqrt: real -> real) {
    forall x: real {:trigger sqrt(x)} :: 0.0 <= x ==> 0.0 <= sqrt(x) && sqrt(x) * sqrt(x) == x
  }

  /** Euclidean distance, `np.linalg.norm(p - q)`. */
  function Dist(sqrt: real -> real, p: Vec, q: Vec): (d: real)
    requires IsSqrt(sqrt)
    ensures 0.0 <= d && d * d == SqDist(p, q)
  {
    sqrt(SqDist(p, q))
  }

  /** The vector `p - q`, component by component. */
  function Sub(p: Vec, q: Vec): (r: Vec)
    requires |p| == |q|
    ensures |r| == |p|
    ensures forall d :: 0 <= d < |p| ==> r[d] == p[d] - q[d]
  {
    seq(|p|, d requires 0 <= d < |p| => p[d] - q[d])
  }

  /** The zero vector of dimension `n`, `np.zeros(n)`. */
  function Zeros(n: nat): (r: Vec)
    ensures |r| == n
    ensures forall d :: 0 <= d < n ==> r[d] == 0.0
  {
    seq(n, d => 0.0)
  }

  lemma {:induction false} SqDistSymmetric(p: Vec, q: Vec)
    ensures SqDist(p, q) == SqDist(q, p)
    decreases |p|
  {
    if |p| != 0 && |q| != 0 {
      SqDistSymmetric(p[1..], q[1..]);
      assert (p[0] - q[0]) * (p[0] - q[0]) == (q[0] - p[0]) * (q[0] - p[0]);
    }
  }

  lemma {:induction false} SqDistSelf(p: Vec)
    ensures SqDist(p, p) == 0.0
    decreases |p|
  {
    if |p| != 0 {
      SqDistSelf(p[1..]);
    }
  }

  lemma DistSymmetric(sqrt: real -> real, p: Vec, q: Vec)
    requires IsSqrt(sqrt)
    ensures Dist(sqrt, p, q) == Dist(sqrt, q, p)
  {
    SqDistSymmetric(p, q);
  }

  lemma DistSelf(sqrt: real -> real, p: Vec)
    requires IsSqrt(sqrt)
    ensures Dist(sqrt, p, p) == 0.0
  {
    SqDistSelf(p);
    SquareLess(0.0, Dist(sqrt, p, p));
  }

  /** On the non-negative reals squaring preserves and reflects strict order. */
  lemma SquareLess(a: real, b: real)
    requires 0.0 <= a && 0.0 <= b
    ensures a < b <==> a * a < b * b
  {
    if a < b {
      Chain(a * a, a * b, b * b);
    } else {
      ChainLe(b * b, b * a, a * a);
    }
  }

  /** Stated over opaque terms: the solver does not always chain inequalities
      between products on its own. */
  lemma Chain(x: real, y: real, z: real)
    requires x <= y < z
    ensures x < z
  {
  }

  lemma ChainLe(x: real, y: real, z: real)
    requires x <= y <= z
    ensures x <= z
  {
  }

  /** A distance is below a non-negative bound exactly when its square is. */
  lemma DistLessIff(sqrt: real -> real, p: Vec, q: Vec, t: real)
    requires IsSqrt(sqrt) && 0.0 <= t
    ensures Dist(sqrt, p, q) < t <==> SqDist(p, q) < t * t
  {
    SquareLess(Dist(sqrt, p, q), t);
  }

  /** A distance is above a non-negative bound exactly when its square is. */
  lemma DistGreaterIff(sqrt: real -> real, p: Vec, q: Vec, t: real)
    requires IsSqrt(sqrt) && 0.0 <= t
    ensures t < Dist(sqrt, p, q) <==> t * t < SqDist(p, q)
  {
    SquareLess(t, Dist(sqrt, p, q));
  }

  /** The square root is strictly monotone, so comparing distances is
      comparing squared distances. */
  lemma DistLessIffSqLess(sqrt: real -> real, p: Vec, q: Vec, p': Vec, q': Vec)
    requires IsSqrt(sqrt)
    ensures Dist(sqrt, p, q) < Dist(sqrt, p', q') <==> SqDist(p, q) < SqDist(p', q')
  {
    SquareLess(Dist(sqrt, p, q), Dist(sqrt, p', q'));
  }
}
