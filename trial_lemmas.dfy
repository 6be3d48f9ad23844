/** Properties of the trial-count policy `getNumberOfTrials`: where it
    saturates, where the floating-point interpolation is used, why the slope
    denominator is never zero there, and its bounds and monotonicity under
    assumptions on the interpolation alone. */
module TrialPolicy {
  import opened JavaInt
  import opened Utils

  /** A degenerate trial range gives the same count, `1 << lgMaxT`, for every input size. */
  lemma DegenerateRangeIsConstant(lgMinBpU: Int32, lgMaxBpU: Int32, lgT: Int32, interp: Interpolation)
    ensures forall u: Int32 :: GetNumberOfTrials(u, lgMinBpU, lgMaxBpU, lgT, lgT, interp) == OneShiftedLeft(lgT)
  {
  }

  /** At or below the lower breakpoint the count saturates at `1 << lgMaxT`. */
  lemma AtOrBelowLowerBreakpoint(u: Int32, lgMinBpU: Int32, lgMaxBpU: Int32, lgMinT: Int32, lgMaxT: Int32,
                                 interp: Interpolation)
    requires u <= OneShiftedLeft(lgMinBpU)
    ensures GetNumberOfTrials(u, lgMinBpU, lgMaxBpU, lgMinT, lgMaxT, interp) == OneShiftedLeft(lgMaxT)
  {
  }

  /** Past the first guard, at or above the upper breakpoint the count
      saturates at `1 << lgMinT`. */
  lemma AtOrAboveUpperBreakpoint(u: Int32, lgMinBpU: Int32, lgMaxBpU: Int32, lgMinT: Int32, lgMaxT: Int32,
                                 interp: Interpolation)
    requires !SaturatesHigh(u, lgMinBpU, lgMinT, lgMaxT)
    requires u >= OneShiftedLeft(lgMaxBpU)
    ensures GetNumberOfTrials(u, lgMinBpU, lgMaxBpU, lgMinT, lgMaxT, interp) == OneShiftedLeft(lgMinT)
  {
  }

  /** The interpolation is used exactly when the trial range is not
      degenerate and `u` lies strictly between the two breakpoints. */
  lemma InterpolationStrictlyBetweenBreakpoints(u: Int32, lgMinBpU: Int32, lgMaxBpU: Int32,
                                                lgMinT: Int32, lgMaxT: Int32, interp: Interpolation)
    ensures Interpolates(u, lgMinBpU, lgMaxBpU, lgMinT, lgMaxT) <==>
            lgMinT != lgMaxT && OneShiftedLeft(lgMinBpU) < u < OneShiftedLeft(lgMaxBpU)
    ensures Interpolates(u, lgMinBpU, lgMaxBpU, lgMinT, lgMaxT) ==>
            GetNumberOfTrials(u, lgMinBpU, lgMaxBpU, lgMinT, lgMaxT, interp) == interp(u, lgMinBpU, lgMaxBpU, lgMinT, lgMaxT)
    ensures !Interpolates(u, lgMinBpU, lgMaxBpU, lgMinT, lgMaxT) ==>
            GetNumberOfTrials(u, lgMinBpU, lgMaxBpU, lgMinT, lgMaxT, interp) in {OneShiftedLeft(lgMinT), OneShiftedLeft(lgMaxT)}
  {
  }

  /** The slope of `getNumberOfTrials` divides by `lgMinBpU - lgMaxBpU`, an `int`
      subtraction. Wherever the interpolation that uses the slope is
      reached, that difference is nonzero, also after wrap-around; with the
      exponents in 0..30 the breakpoints are even in increasing order. */
  lemma SlopeDenominatorNonzeroWhenUsed(u: Int32, lgMinBpU: Int32, lgMaxBpU: Int32, lgMinT: Int32, lgMaxT: Int32)
    requires Interpolates(u, lgMinBpU, lgMaxBpU, lgMinT, lgMaxT)
    ensures lgMinBpU != lgMaxBpU
    ensures ToInt32(lgMinBpU - lgMaxBpU) != 0
    ensures 0 <= lgMinBpU <= 30 && 0 <= lgMaxBpU <= 30 ==> lgMinBpU < lgMaxBpU
  {
    WrappedDifferenceZero(lgMinBpU, lgMaxBpU);
    if 0 <= lgMaxBpU < lgMinBpU <= 30 {
      OneShiftedLeftStrictlyIncreasing(lgMaxBpU, lgMinBpU);
    }
  }

  /** Equal breakpoint exponents never reach the interpolation: either `u`
      is at or below the common breakpoint, or it is above it and so at or
      above the upper one. */
  lemma EqualBreakpointsSaturate(u: Int32, lgBpU: Int32, lgMinT: Int32, lgMaxT: Int32, interp: Interpolation)
    ensures !Interpolates(u, lgBpU, lgBpU, lgMinT, lgMaxT)
    ensures GetNumberOfTrials(u, lgBpU, lgBpU, lgMinT, lgMaxT, interp) ==
            if lgMinT == lgMaxT || u <= OneShiftedLeft(lgBpU) then OneShiftedLeft(lgMaxT) else OneShiftedLeft(lgMinT)
  {
  }

  /** The assumption on the floating-point branch for the bounds below: its
      value lies between the two trial bounds. */
  predicate InterpolationWithin(interp: Interpolation, lgMinBpU: Int32, lgMaxBpU: Int32, lgMinT: Int32, lgMaxT: Int32)
  {
    forall u: Int32 :: Interpolates(u, lgMinBpU, lgMaxBpU, lgMinT, lgMaxT) ==>
      OneShiftedLeft(lgMinT) <= interp(u, lgMinBpU, lgMaxBpU, lgMinT, lgMaxT) <= OneShiftedLeft(lgMaxT)
  }

  /** The assumption for monotonicity: the floating-point branch does not
      grow with the input size. */
  predicate InterpolationNonIncreasing(interp: Interpolation, lgMinBpU: Int32, lgMaxBpU: Int32, lgMinT: Int32, lgMaxT: Int32)
  {
    forall u1: Int32, u2: Int32 ::
      Interpolates(u1, lgMinBpU, lgMaxBpU, lgMinT, lgMaxT) && Interpolates(u2, lgMinBpU, lgMaxBpU, lgMinT, lgMaxT) && u1 <= u2 ==>
        interp(u2, lgMinBpU, lgMaxBpU, lgMinT, lgMaxT) <= interp(u1, lgMinBpU, lgMaxBpU, lgMinT, lgMaxT)
  }

  /** With trial exponents ordered in 0..30, every trial count lies between
      `1 << lgMinT` and `1 << lgMaxT`, and so is at least 1. */
  lemma TrialsWithinBounds(u: Int32, lgMinBpU: Int32, lgMaxBpU: Int32, lgMinT: Int32, lgMaxT: Int32,
                           interp: Interpolation)
    requires 0 <= lgMinT <= lgMaxT <= 30
    requires InterpolationWithin(interp, lgMinBpU, lgMaxBpU, lgMinT, lgMaxT)
    ensures 1 <= OneShiftedLeft(lgMinT) <= GetNumberOfTrials(u, lgMinBpU, lgMaxBpU, lgMinT, lgMaxT, interp)
    ensures GetNumberOfTrials(u, lgMinBpU, lgMaxBpU, lgMinT, lgMaxT, interp) <= OneShiftedLeft(lgMaxT)
  {
    OneShiftedLeftSign(lgMinT);
    if lgMinT < lgMaxT {
      OneShiftedLeftStrictlyIncreasing(lgMinT, lgMaxT);
    }
  }

  /** With trial exponents ordered in 0..30 and an interpolation that stays
      within the trial bounds and does not grow with the size, the trial
      count does not grow with the input size. */
  lemma TrialsNonIncreasing(u1: Int32, u2: Int32, lgMinBpU: Int32, lgMaxBpU: Int32, lgMinT: Int32, lgMaxT: Int32,
                            interp: Interpolation)
    requires u1 <= u2
    requires 0 <= lgMinT <= lgMaxT <= 30
    requires InterpolationWithin(interp, lgMinBpU, lgMaxBpU, lgMinT, lgMaxT)
    requires InterpolationNonIncreasing(interp, lgMinBpU, lgMaxBpU, lgMinT, lgMaxT)
    ensures GetNumberOfTrials(u2, lgMinBpU, lgMaxBpU, lgMinT, lgMaxT, interp) <=
            GetNumberOfTrials(u1, lgMinBpU, lgMaxBpU, lgMinT, lgMaxT, interp)
  {
    TrialsWithinBounds(u1, lgMinBpU, lgMaxBpU, lgMinT, lgMaxT, interp);
    TrialsWithinBounds(u2, lgMinBpU, lgMaxBpU, lgMinT, lgMaxT, interp);
  }
}
