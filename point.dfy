/**
 * Locations in space (src/core/point.rs). A point stores x, y and z;
 * its homogeneous coordinate w is not stored and is always 1.
 */
module Points {
  import opened Float
  import Vectors

  /** `Point::new(x, y, z)` is the datatype constructor. */
  datatype Point = Point(x: real, y: real, z: real)

  /** `Tuple::zero`: the origin. */
  function Zero(): Point {
    Point(0.0, 0.0, 0.0)
  }

  /** `Tuple::w`: fixed by the kind of tuple, never stored. */
  function W(p: Point): (w: real)
    ensures w == 1.0
  {
    1.0
  }

  /** `PartialEq`: every coordinate agrees at the tight tier. */
  predicate Eq(p: Point, q: Point)
    ensures Eq(p, q) <==> -Epsilon < p.x - q.x < Epsilon && -Epsilon < p.y - q.y < Epsilon && -Epsilon < p.z - q.z < Epsilon
  {
    ApproxEq(p.x, q.x) && ApproxEq(p.y, q.y) && ApproxEq(p.z, q.z)
  }

  /** `Point + Vector`: translation, a point; translating back by `v` returns `p`. */
  function AddVector(p: Point, v: Vectors.Vector): (r: Point)
    ensures SubVector(r, v) == p
  {
    Point(p.x + v.x, p.y + v.y, p.z + v.z)
  }

  /** `Vector + Point`: translation written the other way round, with the same guarantees. */
  function VectorAddPoint(v: Vectors.Vector, p: Point): (r: Point)
    ensures SubVector(r, v) == p
  {
    Point(v.x + p.x, v.y + p.y, v.z + p.z)
  }

  /** `Point - Point`: the displacement between two points, a vector that carries `q` onto `p`. */
  function Sub(p: Point, q: Point): (d: Vectors.Vector)
    ensures Point(q.x + d.x, q.y + d.y, q.z + d.z) == p
  {
    Vectors.Vector(p.x - q.x, p.y - q.y, p.z - q.z)
  }

  /** `Point - Vector`: translation backwards, the point that `v` carries onto `p`. */
  function SubVector(p: Point, v: Vectors.Vector): (r: Point)
    ensures Point(r.x + v.x, r.y + v.y, r.z + v.z) == p
  {
    Point(p.x - v.x, p.y - v.y, p.z - v.z)
  }

  /** `-Point`: the reflection through the origin. */
  function Neg(p: Point): (r: Point)
    ensures Point(r.x + p.x, r.y + p.y, r.z + p.z) == Point(0.0, 0.0, 0.0)
  {
    Point(-p.x, -p.y, -p.z)
  }

  /** `Point * f64`: dividing by a non-zero `s` again gives back `p`. */
  function Mul(p: Point, s: real): (r: Point)
    ensures s != 0.0 ==> Div(r, s) == p
  {
    Point(p.x * s, p.y * s, p.z * s)
  }

  /** `f64 * Point`, which the source delegates to `Point * f64`: the scalar multiplies each coordinate. */
  function ScalarMul(s: real, p: Point): (r: Point)
    ensures r.x == s * p.x && r.y == s * p.y && r.z == s * p.z
  {
    Mul(p, s)
  }

  /** `Point / f64`: the point that, scaled by `s`, gives `p`. A zero divisor has no real-valued result. */
  function Div(p: Point, s: real): (r: Point)
    requires s != 0.0
    ensures Point(r.x * s, r.y * s, r.z * s) == p
  {
    Point(p.x / s, p.y / s, p.z / s)
  }

  /** The origin is the one point that is its own reflection. */
  lemma OriginIsOwnReflection(p: Point)
    ensures Neg(Zero()) == Zero()
    ensures Neg(p) == p ==> p == Zero()
  {
  }

  lemma WIsOne(p: Point)
    ensures W(p) == 1.0 && W(Zero()) == 1.0
  {
  }

  /** Equality is at the tight tier, not the loose one: a gap of 5e-4 is unequal. */
  lemma EqUsesTightTier(p: Point)
    ensures !Eq(p, Point(p.x, p.y + 0.0005, p.z))
    ensures ApproxEqLowPrecision(p.y, p.y + 0.0005)
  {
  }

  lemma EqReflexive(p: Point)
    ensures Eq(p, p)
  {
  }

  lemma EqSymmetric(p: Point, q: Point)
    ensures Eq(p, q) <==> Eq(q, p)
  {
  }

  /** Both spellings of translation give the same point. */
  lemma TranslationCommutes(p: Point, v: Vectors.Vector)
    ensures VectorAddPoint(v, p) == AddVector(p, v)
  {
  }

  /** Translating by `v` and then by `-v` (or subtracting `v`) returns the start point. */
  lemma TranslationRoundTrip(p: Point, v: Vectors.Vector)
    ensures SubVector(AddVector(p, v), v) == p
    ensures AddVector(SubVector(p, v), v) == p
    ensures SubVector(p, v) == AddVector(p, Vectors.Neg(v))
    ensures Eq(SubVector(AddVector(p, v), v), p)
  {
  }

  /** The difference of two points is the vector that translates the second onto the first. */
  lemma DifferenceTranslates(p: Point, q: Point)
    ensures AddVector(q, Sub(p, q)) == p
    ensures Sub(p, q) == Vectors.Neg(Sub(q, p))
    ensures Sub(p, p) == Vectors.Zero()
    ensures Sub(p, Zero()) == Vectors.Vector(p.x, p.y, p.z)
  {
    var o := Zero();
    assert o.x == 0.0 && o.y == 0.0 && o.z == 0.0;
  }

  lemma NegInvolutive(p: Point)
    ensures Neg(Neg(p)) == p
  {
  }

  /** Scaling on either side is the same, and division by `s` undoes it. */
  lemma ScalingCommutesAndInverts(p: Point, s: real)
    ensures ScalarMul(s, p) == Mul(p, s)
    ensures s != 0.0 ==> Div(Mul(p, s), s) == p
    ensures s != 0.0 ==> Div(p, s) == Mul(p, 1.0 / s)
  {
  }

  /** The unit tests of point.rs for negation, scaling and division. */
  lemma ArithmeticExamples()
    ensures Eq(Point(-1.0, 2.0, -3.0), Neg(Point(1.0, -2.0, 3.0)))
    ensures Eq(Point(3.5, -7.0, 10.5), Mul(Point(1.0, -2.0, 3.0), 3.5))
    ensures Eq(Point(3.5, -7.0, 10.5), ScalarMul(3.5, Point(1.0, -2.0, 3.0)))
    ensures Eq(Point(0.5, -1.0, 1.5), Div(Point(1.0, -2.0, 3.0), 2.0))
  {
  }
}
