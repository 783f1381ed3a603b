/**
 * The argument check shared by the pi estimators.
 *
 * `RiemannPiCalc.underestimatePi`, `RiemannPiCalc.overestimatePi`,
 * `RiemannPiCalc.calcPi` and `MaclaurenPiCalc.calcPi` all reject an iteration
 * count that is negative or larger than `Long.MAX_VALUE - 1` with an
 * `IllegalArgumentException`. The floating-point sums behind that check are not
 * part of this model; the optimizer sees an estimator only through an error
 * oracle whose domain contains every count that passes this check.
 */
module PiCalc {

  /** `Long.MAX_VALUE`, the largest value of a Java `long`. */
  const LongMax: int := 0x7FFF_FFFF_FFFF_FFFF

  /** An iteration count the estimators accept without throwing. */
  predicate InRange(n: int)
  {
    0 <= n <= LongMax - 1
  }
}
