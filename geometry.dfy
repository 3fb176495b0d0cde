/**
 * Points and vectors of the node (Eigen::Vector3d, Eigen::Vector3i) and the
 * comparisons of a point's Euclidean norm with a range bound.
 *
 * Coordinates are reals: the double and float rounding of the source is not
 * modelled. Dafny has no square root, so "norm(p) > r" and "norm(p) < r" are
 * stated through the squared norm; NormGreaterMeans and NormLessMeans show
 * that they agree with a comparison against the norm itself.
 */
module Geometry {

  /** A point or vector with real coordinates (Eigen::Vector3d). */
  datatype Vec3 = Vec3(x: real, y: real, z: real)

  /** A 32-bit signed integer (the element type of Eigen::Vector3i). */
  newtype int32 = i: int | -0x8000_0000 <= i < 0x8000_0000

  /** A triangle as three vertex indices (Eigen::Vector3i). */
  datatype Vec3i = Vec3i(i0: int32, i1: int32, i2: int32)

  function SquaredNorm(p: Vec3): (s: real)
    ensures s >= 0.0
  {
    p.x * p.x + p.y * p.y + p.z * p.z
  }

  /** n is the Euclidean norm of p. */
  ghost predicate IsNorm(p: Vec3, n: real)
  {
    n >= 0.0 && n * n == SquaredNorm(p)
  }

  /** norm(p) > r. A norm is never negative, so every negative r is exceeded. */
  predicate NormGreater(p: Vec3, r: real)
  {
    r < 0.0 || SquaredNorm(p) > r * r
  }

  /** norm(p) < r. No norm is below a bound that is zero or negative. */
  predicate NormLess(p: Vec3, r: real)
  {
    r > 0.0 && SquaredNorm(p) < r * r
  }

  /** For non-negative a and b, a < b exactly when a * a < b * b. */
  lemma SquareMonotone(a: real, b: real)
    requires a >= 0.0 && b >= 0.0
    ensures a < b <==> a * a < b * b
  {
    if a < b {
      calc {
        a * a;
      <= a * b;
      <  b * b;
      }
    } else {
      calc {
        b * b;
      <= b * a;
      <= a * a;
      }
    }
  }

  lemma NormGreaterMeans(p: Vec3, n: real, r: real)
    requires IsNorm(p, n)
    ensures NormGreater(p, r) <==> n > r
  {
    if r >= 0.0 {
      SquareMonotone(r, n);
    }
  }

  lemma NormLessMeans(p: Vec3, n: real, r: real)
    requires IsNorm(p, n)
    ensures NormLess(p, r) <==> n < r
  {
    if r > 0.0 {
      SquareMonotone(n, r);
    }
  }

  /** No point is both nearer than lo and not farther than hi when lo > hi. */
  lemma NoNormBetweenInvertedBounds(p: Vec3, lo: real, hi: real)
    requires lo > hi
    ensures NormGreater(p, hi) || NormLess(p, lo)
  {
    if hi >= 0.0 {
      SquareMonotone(hi, lo);
    }
  }
}
