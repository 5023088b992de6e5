/**
 * Two-tier approximate equality on scalars (src/core/float.rs).
 * Scalars are `f64` in the source and `real` here, so rounding is not modelled.
 */
module Float {

  /** Tolerance of the tight tier, `EPSILON`. */
  const Epsilon: real := 0.0000001
  /** Tolerance of the loose tier, `EPSILON_LOW`. */
  const EpsilonLow: real := 0.001

  /** `f64::abs` */
  function Abs(x: real): (r: real)
    ensures r >= 0.0
    ensures r == x || r == -x
  {
    if x < 0.0 then -x else x
  }

  /**
   * `approx_eq`: the absolute difference is strictly below `Epsilon`, that is,
   * the difference lies in the open interval around zero.
   */
  predicate ApproxEq(a: real, b: real)
    ensures ApproxEq(a, b) <==> -Epsilon < a - b < Epsilon
  {
    Abs(a - b) < Epsilon
  }

  /**
   * `approx_eq_low_precision`: the absolute difference is strictly below
   * `EpsilonLow`, that is, the difference lies in the open interval around zero.
   */
  predicate ApproxEqLowPrecision(a: real, b: real)
    ensures ApproxEqLowPrecision(a, b) <==> -EpsilonLow < a - b < EpsilonLow
  {
    Abs(a - b) < EpsilonLow
  }

  /** The comparison is strict: a difference of exactly the tolerance is unequal. */
  lemma ToleranceIsExclusive(a: real)
    ensures !ApproxEq(a, a + Epsilon) && !ApproxEq(a + Epsilon, a)
    ensures !ApproxEqLowPrecision(a, a + EpsilonLow) && !ApproxEqLowPrecision(a + EpsilonLow, a)
  {
  }

  lemma ApproxEqReflexive(a: real)
    ensures ApproxEq(a, a) && ApproxEqLowPrecision(a, a)
  {
  }

  lemma ApproxEqSymmetric(a: real, b: real)
    ensures ApproxEq(a, b) <==> ApproxEq(b, a)
    ensures ApproxEqLowPrecision(a, b) <==> ApproxEqLowPrecision(b, a)
  {
  }

  /** The tight tier refines the loose one, since `Epsilon < EpsilonLow`. */
  lemma TightImpliesLow(a: real, b: real)
    ensures ApproxEq(a, b) ==> ApproxEqLowPrecision(a, b)
  {
  }

  /** The tiers really differ: a gap of 5e-4 passes the loose test and fails the tight one. */
  lemma TiersDiffer(a: real)
    ensures ApproxEqLowPrecision(a, a + 0.0005) && !ApproxEq(a, a + 0.0005)
  {
  }
}
