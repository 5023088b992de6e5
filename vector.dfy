/**
 * Displacements in space (src/core/vector.rs). A vector stores x, y and z;
 * its homogeneous coordinate w is not stored and is always 0.
 */
module Vectors {
  import opened Float

  /** `Vector::new(x, y, z)` is the datatype constructor. */
  datatype Vector = Vector(x: real, y: real, z: real)

  /** `Tuple::zero`: the identity of vector addition. */
  function Zero(): (r: Vector)
    ensures forall v :: Add(v, r) == v && Add(r, v) == v
  {
    Vector(0.0, 0.0, 0.0)
  }

  /** `Tuple::w`: fixed by the kind of tuple, never stored. */
  function W(v: Vector): (w: real)
    ensures w == 0.0
  {
    0.0
  }

  /** `PartialEq`: every coordinate agrees at the tight tier. */
  predicate Eq(u: Vector, v: Vector)
    ensures Eq(u, v) <==> -Epsilon < u.x - v.x < Epsilon && -Epsilon < u.y - v.y < Epsilon && -Epsilon < u.z - v.z < Epsilon
  {
    ApproxEq(u.x, v.x) && ApproxEq(u.y, v.y) && ApproxEq(u.z, v.z)
  }

  /** `Vector + Vector`: subtracting `v` again gives back `u`. */
  function Add(u: Vector, v: Vector): (r: Vector)
    ensures Sub(r, v) == u
  {
    Vector(u.x + v.x, u.y + v.y, u.z + v.z)
  }

  /** `Vector - Vector`: the vector that, added to `v`, gives `u`. */
  function Sub(u: Vector, v: Vector): (r: Vector)
    ensures Vector(r.x + v.x, r.y + v.y, r.z + v.z) == u
  {
    Vector(u.x - v.x, u.y - v.y, u.z - v.z)
  }

  /** `-Vector`: the same as subtracting from the zero vector. */
  function Neg(v: Vector): (r: Vector)
    ensures r == Sub(Zero(), v)
    ensures MagnitudeSquared(r) == MagnitudeSquared(v)
  {
    Vector(-v.x, -v.y, -v.z)
  }

  /** `Vector * f64`: dividing by a non-zero `s` again gives back `v`. */
  function Mul(v: Vector, s: real): (r: Vector)
    ensures s != 0.0 ==> Div(r, s) == v
  {
    Vector(v.x * s, v.y * s, v.z * s)
  }

  /** `f64 * Vector`, which the source delegates to `Vector * f64`: the scalar multiplies each coordinate. */
  function ScalarMul(s: real, v: Vector): (r: Vector)
    ensures r.x == s * v.x && r.y == s * v.y && r.z == s * v.z
  {
    Mul(v, s)
  }

  /** `Vector / f64`: the vector that, scaled by `s`, gives `v`. A zero divisor has no real-valued result. */
  function Div(v: Vector, s: real): (r: Vector)
    requires s != 0.0
    ensures Vector(r.x * s, r.y * s, r.z * s) == v
  {
    Vector(v.x / s, v.y / s, v.z / s)
  }

  /** The radicand of `magnitude`: x² + y² + z². */
  function MagnitudeSquared(v: Vector): (r: real)
    ensures r >= 0.0
  {
    v.x * v.x + v.y * v.y + v.z * v.z
  }

  /**
   * `magnitude` is `sqrt(x² + y² + z²)`. The square root is kept abstract:
   * `m` is the magnitude of `v` when it is the non-negative root of the radicand.
   */
  predicate IsMagnitude(v: Vector, m: real)
    ensures IsMagnitude(v, m) ==> m >= 0.0 && MagnitudeSquared(v) >= 0.0
  {
    m >= 0.0 && m * m == MagnitudeSquared(v)
  }

  lemma WIsZero(v: Vector)
    ensures W(v) == 0.0 && W(Zero()) == 0.0
  {
  }

  /** Equality is at the tight tier, not the loose one: a gap of 5e-4 is unequal. */
  lemma EqUsesTightTier(v: Vector)
    ensures !Eq(v, Vector(v.x + 0.0005, v.y, v.z))
    ensures ApproxEqLowPrecision(v.x, v.x + 0.0005)
  {
  }

  lemma EqReflexive(v: Vector)
    ensures Eq(v, v)
  {
  }

  lemma EqSymmetric(u: Vector, v: Vector)
    ensures Eq(u, v) <==> Eq(v, u)
  {
  }

  /** Subtraction undoes addition and vice versa. */
  lemma AddSubInverse(u: Vector, v: Vector)
    ensures Sub(Add(u, v), v) == u
    ensures Add(Sub(u, v), v) == u
  {
  }

  /** Subtracting from the zero vector is negation. */
  lemma ZeroMinusIsNeg(v: Vector)
    ensures Sub(Zero(), v) == Neg(v)
    ensures Add(v, Neg(v)) == Zero()
  {
  }

  lemma NegInvolutive(v: Vector)
    ensures Neg(Neg(v)) == v
  {
  }

  /** Scaling on either side is the same, and division by `s` undoes it. */
  lemma ScalingCommutesAndInverts(v: Vector, s: real)
    ensures ScalarMul(s, v) == Mul(v, s)
    ensures s != 0.0 ==> Div(Mul(v, s), s) == v
    ensures s != 0.0 ==> Div(v, s) == Mul(v, 1.0 / s)
  {
  }

  /** Any two magnitudes of the same vector coincide, so `IsMagnitude` determines one value. */
  lemma {:induction false} MagnitudeUnique(v: Vector, m1: real, m2: real)
    requires IsMagnitude(v, m1) && IsMagnitude(v, m2)
    ensures m1 == m2
  {
    assert (m1 - m2) * (m1 + m2) == m1 * m1 - m2 * m2 == 0.0;
    if m1 + m2 == 0.0 {
      assert m1 == 0.0 && m2 == 0.0;
    }
  }

  /** The radicand is never negative, so the square root is defined for every vector. */
  lemma MagnitudeSquaredNonNegative(v: Vector)
    ensures MagnitudeSquared(v) >= 0.0
  {
  }

  /** A vector whose radicand is 1 has magnitude exactly 1. */
  lemma UnitRadicandMagnitude(v: Vector, m: real)
    requires MagnitudeSquared(v) == 1.0
    ensures IsMagnitude(v, m) <==> m == 1.0
  {
    if IsMagnitude(v, m) {
      MagnitudeUnique(v, m, 1.0);
    }
  }

  /** Each unit axis vector has magnitude exactly 1. */
  lemma AxisMagnitudeIsOne(v: Vector, m: real)
    requires v == Vector(1.0, 0.0, 0.0) || v == Vector(0.0, 1.0, 0.0) || v == Vector(0.0, 0.0, 1.0)
    ensures IsMagnitude(v, m) <==> m == 1.0
  {
    assert MagnitudeSquared(v) == 1.0;
    UnitRadicandMagnitude(v, m);
  }

  /** Negation keeps the magnitude: (1,2,3) and (-1,-2,-3) both have magnitude √14. */
  lemma MagnitudeOfNeg(v: Vector, m: real)
    ensures IsMagnitude(Neg(v), m) <==> IsMagnitude(v, m)
    ensures IsMagnitude(Vector(1.0, 2.0, 3.0), m) <==> m >= 0.0 && m * m == 14.0
    ensures IsMagnitude(Vector(-1.0, -2.0, -3.0), m) <==> m >= 0.0 && m * m == 14.0
  {
  }

  /** The unit tests of vector.rs for negation, scaling and division. */
  lemma ArithmeticExamples()
    ensures Sub(Zero(), Vector(1.0, -2.0, 3.0)) == Vector(-1.0, 2.0, -3.0)
    ensures Neg(Vector(1.0, -2.0, 3.0)) == Vector(-1.0, 2.0, -3.0)
    ensures Mul(Vector(1.0, -2.0, 3.0), 3.5) == Vector(3.5, -7.0, 10.5)
    ensures ScalarMul(3.5, Vector(1.0, -2.0, 3.0)) == Vector(3.5, -7.0, 10.5)
    ensures Div(Vector(1.0, -2.0, 3.0), 2.0) == Vector(0.5, -1.0, 1.5)
  {
  }
}
