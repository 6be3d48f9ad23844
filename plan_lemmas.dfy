/** Properties of the plan that `computeIterationPlans` builds: where it
    starts, that its sizes strictly increase along the stepper's series and
    stop at the first one that reaches `1 << lgMaxU`, that every trial count
    comes from the policy, and that the offsets chain so that the input
    ranges of the steps do not overlap. */
module PlanProperties {
  import opened JavaInt
  import opened LinkedMaps
  import opened Utils
  import opened TrialPolicy

  /** The loop's next size exceeds the current one. */
  lemma NextUIncreases(s: Sweep, next: Stepper, lastU: Int32)
    requires s.StartsPositive() && StepperIncreases(s, next)
    requires 0 <= lastU < s.MaxU()
    ensures lastU < NextU(s, next, lastU)
  {
  }

  /** One unfolding of `PlanFrom`, indexed: record 0 is the one built from
      `NextU(lastU)`, record i + 1 is record i of the rest. */
  lemma PlanFromCons(s: Sweep, next: Stepper, interp: Interpolation, lastU: Int32, vIn: Int64)
    requires s.StartsPositive() && StepperIncreases(s, next)
    requires 0 <= lastU < s.MaxU()
    ensures var u := NextU(s, next, lastU);
            var t := s.Trials(interp, u);
            var r := PlanFrom(s, next, interp, lastU, vIn);
            var rest := PlanFrom(s, next, interp, u, Advance(vIn, u, t));
            lastU < u && |r| == |rest| + 1 && r[0] == IterationPlan(u, t, vIn) &&
            forall i :: 0 <= i < |rest| ==> r[i + 1] == rest[i]
  {
    NextUIncreases(s, next, lastU);
  }

  // ----- input sizes -----

  /** Every size recorded from `lastU` on exceeds `lastU`, and the sizes
      strictly increase: the i-th is at least `lastU + 1 + i`. */
  lemma {:induction false} PlanFromSizesIncrease(s: Sweep, next: Stepper, interp: Interpolation, lastU: Int32, vIn: Int64)
    requires s.StartsPositive() && StepperIncreases(s, next) && lastU >= 0
    ensures var r := PlanFrom(s, next, interp, lastU, vIn);
            forall i :: 0 <= i < |r| ==> lastU + 1 + i <= r[i].uniques
    ensures var r := PlanFrom(s, next, interp, lastU, vIn);
            forall i, j :: 0 <= i < j < |r| ==> r[i].uniques < r[j].uniques
    decreases s.MaxU() - lastU
  {
    if lastU < s.MaxU() {
      var u := NextU(s, next, lastU);
      var t := s.Trials(interp, u);
      var rest := PlanFrom(s, next, interp, u, Advance(vIn, u, t));
      PlanFromSizesIncrease(s, next, interp, u, Advance(vIn, u, t));
      var r := PlanFrom(s, next, interp, lastU, vIn);
      PlanFromCons(s, next, interp, lastU, vIn);
      forall i | 0 <= i < |r| ensures lastU + 1 + i <= r[i].uniques {
        if i > 0 {
          assert r[i] == rest[i - 1];
        }
      }
      forall i, j | 0 <= i < j < |r| ensures r[i].uniques < r[j].uniques {
        assert r[j] == rest[j - 1];
        if i > 0 {
          assert r[i] == rest[i - 1];
        }
      }
    }
  }

  /** The loop stops at the first size that reaches `maxU`: every record but
      the last is below it, the last is not, and there is no record at all
      exactly when the loop condition fails at the start. */
  lemma {:induction false} PlanFromStopsAtMax(s: Sweep, next: Stepper, interp: Interpolation, lastU: Int32, vIn: Int64)
    requires s.StartsPositive() && StepperIncreases(s, next) && lastU >= 0
    ensures var r := PlanFrom(s, next, interp, lastU, vIn);
            (|r| == 0 <==> lastU >= s.MaxU()) &&
            (forall i :: 0 <= i < |r| - 1 ==> r[i].uniques < s.MaxU()) &&
            (|r| > 0 ==> r[|r| - 1].uniques >= s.MaxU())
    decreases s.MaxU() - lastU
  {
    if lastU < s.MaxU() {
      var u := NextU(s, next, lastU);
      var t := s.Trials(interp, u);
      var rest := PlanFrom(s, next, interp, u, Advance(vIn, u, t));
      PlanFromStopsAtMax(s, next, interp, u, Advance(vIn, u, t));
      var r := PlanFrom(s, next, interp, lastU, vIn);
      PlanFromCons(s, next, interp, lastU, vIn);
      forall i | 0 <= i < |r| - 1 ensures r[i].uniques < s.MaxU() {
        if i > 0 {
          assert r[i] == rest[i - 1];
        }
      }
      if |rest| > 0 {
        assert r[|r| - 1] == rest[|rest| - 1];
      }
    }
  }

  /** The sizes are the stepper's series: the first is `NextU(lastU)` and
      each later one is the stepper's value at its predecessor, cast to `int`. */
  lemma {:induction false} PlanFromFollowsStepper(s: Sweep, next: Stepper, interp: Interpolation, lastU: Int32, vIn: Int64)
    requires s.StartsPositive() && StepperIncreases(s, next) && lastU >= 0
    ensures var r := PlanFrom(s, next, interp, lastU, vIn);
            (|r| > 0 ==> r[0].uniques == NextU(s, next, lastU) && r[0].vIn == vIn) &&
            (forall i :: 0 <= i < |r| - 1 ==> r[i + 1].uniques == ToInt32(next(s.uPPO, r[i].uniques)))
    decreases s.MaxU() - lastU
  {
    if lastU < s.MaxU() {
      var u := NextU(s, next, lastU);
      var t := s.Trials(interp, u);
      var rest := PlanFrom(s, next, interp, u, Advance(vIn, u, t));
      PlanFromFollowsStepper(s, next, interp, u, Advance(vIn, u, t));
      PlanFromSizesIncrease(s, next, interp, lastU, vIn);
      var r := PlanFrom(s, next, interp, lastU, vIn);
      PlanFromCons(s, next, interp, lastU, vIn);
      if |rest| > 0 {
        assert u >= 1;
        assert rest[0].uniques == ToInt32(next(s.uPPO, u));
      }
    }
  }

  // ----- trials and offsets -----

  /** Each record's trial count is the policy's count for its own size. */
  lemma {:induction false} PlanFromTrials(s: Sweep, next: Stepper, interp: Interpolation, lastU: Int32, vIn: Int64)
    requires s.StartsPositive() && StepperIncreases(s, next) && lastU >= 0
    ensures var r := PlanFrom(s, next, interp, lastU, vIn);
            forall i :: 0 <= i < |r| ==>
              r[i].trials == GetNumberOfTrials(r[i].uniques, s.lgMinBpU, s.lgMaxBpU, s.lgMinT, s.lgMaxT, interp)
    decreases s.MaxU() - lastU
  {
    if lastU < s.MaxU() {
      var u := NextU(s, next, lastU);
      var t := s.Trials(interp, u);
      var rest := PlanFrom(s, next, interp, u, Advance(vIn, u, t));
      PlanFromTrials(s, next, interp, u, Advance(vIn, u, t));
      var r := PlanFrom(s, next, interp, lastU, vIn);
      PlanFromCons(s, next, interp, lastU, vIn);
    }
  }

  /** The `int` multiplication `uniques * trials` in the offset update of
      `computeIterationPlans` does not wrap
      for any record. */
  predicate NoProductWraps(r: seq<IterationPlan>)
  {
    forall i :: 0 <= i < |r| ==> MIN_INT <= Consumed(r[i]) <= MAX_INT
  }

  /** Every record consumes a nonnegative number of input values, that is,
      none has a negative trial count. */
  predicate ProductsNonnegative(r: seq<IterationPlan>)
  {
    forall i :: 0 <= i < |r| ==> 0 <= Consumed(r[i])
  }

  /** Offsets as the update `vIn += lastU * trials` computes them: each is the previous one advanced by
      the previous step's `uniques * trials` with Java's wrap-around. */
  lemma {:induction false} PlanFromOffsetsChain(s: Sweep, next: Stepper, interp: Interpolation, lastU: Int32, vIn: Int64)
    requires s.StartsPositive() && StepperIncreases(s, next) && lastU >= 0
    ensures var r := PlanFrom(s, next, interp, lastU, vIn);
            (|r| > 0 ==> r[0].vIn == vIn) &&
            (forall i :: 0 <= i < |r| - 1 ==> r[i + 1].vIn == Advance(r[i].vIn, r[i].uniques, r[i].trials))
    decreases s.MaxU() - lastU
  {
    if lastU < s.MaxU() {
      var u := NextU(s, next, lastU);
      var t := s.Trials(interp, u);
      var rest := PlanFrom(s, next, interp, u, Advance(vIn, u, t));
      PlanFromOffsetsChain(s, next, interp, u, Advance(vIn, u, t));
      var r := PlanFrom(s, next, interp, lastU, vIn);
      PlanFromCons(s, next, interp, lastU, vIn);
    }
  }

  /** When no product wraps, the `long` sum cannot wrap either: an offset
      at size `lastU` stays within `lastU * MIN_INT .. lastU * MAX_INT`, far
      inside the `long` range. So the offsets are exact running sums of the
      consumed counts. */
  lemma {:induction false} PlanFromOffsetsExact(s: Sweep, next: Stepper, interp: Interpolation, lastU: Int32, vIn: Int64)
    requires s.StartsPositive() && StepperIncreases(s, next) && lastU >= 0
    requires lastU * MIN_INT <= vIn <= lastU * MAX_INT
    requires NoProductWraps(PlanFrom(s, next, interp, lastU, vIn))
    ensures var r := PlanFrom(s, next, interp, lastU, vIn);
            forall i :: 0 <= i < |r| - 1 ==> r[i + 1].vIn == r[i].vIn + Consumed(r[i])
    decreases s.MaxU() - lastU
  {
    if lastU < s.MaxU() {
      var u := NextU(s, next, lastU);
      var t := s.Trials(interp, u);
      var p := IterationPlan(u, t, vIn);
      var vIn' := Advance(vIn, u, t);
      var rest := PlanFrom(s, next, interp, u, vIn');
      var r := PlanFrom(s, next, interp, lastU, vIn);
      PlanFromCons(s, next, interp, lastU, vIn);
      assert MIN_INT <= Consumed(p) <= MAX_INT by { assert r[0] == p; }
      OffsetBudgetGrows(lastU, u, vIn, Consumed(p));
      assert vIn' == vIn + Consumed(p);
      assert NoProductWraps(rest) by {
        forall i | 0 <= i < |rest| ensures MIN_INT <= Consumed(rest[i]) <= MAX_INT {
          assert rest[i] == r[i + 1];
        }
      }
      PlanFromOffsetsExact(s, next, interp, u, vIn');
    }
  }

  /** The arithmetic behind the bound: one more `int` keeps the offset
      within the next, larger size's budget, and every budget lies inside
      the `long` range. */
  lemma OffsetBudgetGrows(lastU: int, u: int, vIn: int, c: int)
    requires 0 <= lastU < u <= MAX_INT
    requires lastU * MIN_INT <= vIn <= lastU * MAX_INT
    requires MIN_INT <= c <= MAX_INT
    ensures MIN_LONG < u * MIN_INT <= vIn + c <= u * MAX_INT < MAX_LONG
  {
    assert (lastU + 1) * MAX_INT == lastU * MAX_INT + MAX_INT;
    assert (lastU + 1) * MAX_INT <= u * MAX_INT;
    assert u * MAX_INT <= MAX_INT * MAX_INT;
    assert (lastU + 1) * MIN_INT == lastU * MIN_INT + MIN_INT;
    assert u * MIN_INT <= (lastU + 1) * MIN_INT;
    assert MAX_INT * MIN_INT <= u * MIN_INT;
  }

  /** Offsets that advance by each step's consumed count, with every count
      nonnegative, never decrease, and the `uniques * trials` counter values
      after every step's `vIn` all come at or before every later step's
      `vIn`. */
  lemma {:induction false} ChainedOffsetsSeparate(r: seq<IterationPlan>, i: nat, j: nat)
    requires ProductsNonnegative(r)
    requires forall k :: 0 <= k < |r| - 1 ==> r[k + 1].vIn == r[k].vIn + Consumed(r[k])
    requires i < j < |r|
    ensures r[i].vIn + Consumed(r[i]) <= r[j].vIn
    decreases j - i
  {
    if i + 1 < j {
      ChainedOffsetsSeparate(r, i, j - 1);
      assert r[j].vIn == r[j - 1].vIn + Consumed(r[j - 1]);
    }
  }

  // ----- the whole plan -----

  /** The plan is empty exactly when `1 << lgMaxU` is not positive (a shift
      count of 31 modulo 32). Otherwise its first record is at `minU`, with
      the policy's trial count and offset 0. */
  lemma PlanStart(s: Sweep, next: Stepper, interp: Interpolation)
    requires s.StartsPositive() && StepperIncreases(s, next)
    ensures s.MaxU() <= 0 <==> Plans(s, next, interp) == []
    ensures s.MaxU() > 0 ==> Plans(s, next, interp)[0] == IterationPlan(s.MinU(), s.Trials(interp, s.MinU()), 0)
  {
  }

  /** The sizes of the plan strictly increase. */
  lemma PlanSizesStrictlyIncrease(s: Sweep, next: Stepper, interp: Interpolation)
    requires s.StartsPositive() && StepperIncreases(s, next)
    ensures var r := Plans(s, next, interp);
            forall i, j :: 0 <= i < j < |r| ==> r[i].uniques < r[j].uniques
  {
    var r := Plans(s, next, interp);
    PlanFromSizesIncrease(s, next, interp, 0, 0);
    assert r == PlanFrom(s, next, interp, 0, 0);
    forall i, j | 0 <= i < j < |r| ensures r[i].uniques < r[j].uniques {
    }
  }

  /** The plan walks the stepper's series from `minU`, and its last size is
      the first one of that series to reach `maxU`. */
  lemma PlanEndsAtFirstSizeReachingMax(s: Sweep, next: Stepper, interp: Interpolation)
    requires s.StartsPositive() && StepperIncreases(s, next)
    ensures var r := Plans(s, next, interp);
            (|r| > 0 ==> r[0].uniques == s.MinU()) &&
            (forall i :: 0 <= i < |r| - 1 ==> r[i + 1].uniques == ToInt32(next(s.uPPO, r[i].uniques))) &&
            (forall i :: 0 <= i < |r| - 1 ==> r[i].uniques < s.MaxU()) &&
            (|r| > 0 ==> r[|r| - 1].uniques >= s.MaxU())
  {
    PlanFromFollowsStepper(s, next, interp, 0, 0);
    PlanFromStopsAtMax(s, next, interp, 0, 0);
  }

  /** Exactly one record is produced exactly when `minU` already reaches a
      positive `maxU`. */
  lemma PlanSingleStep(s: Sweep, next: Stepper, interp: Interpolation)
    requires s.StartsPositive() && StepperIncreases(s, next)
    ensures |Plans(s, next, interp)| == 1 <==> 0 < s.MaxU() <= s.MinU()
  {
    PlanFromStopsAtMax(s, next, interp, 0, 0);
    PlanFromFollowsStepper(s, next, interp, 0, 0);
  }

  /** Every record's trial count is `getNumberOfTrials` of its size. */
  lemma PlanTrialsFollowPolicy(s: Sweep, next: Stepper, interp: Interpolation)
    requires s.StartsPositive() && StepperIncreases(s, next)
    ensures var r := Plans(s, next, interp);
            forall i :: 0 <= i < |r| ==>
              r[i].trials == GetNumberOfTrials(r[i].uniques, s.lgMinBpU, s.lgMaxBpU, s.lgMinT, s.lgMaxT, interp)
  {
    var r := Plans(s, next, interp);
    PlanFromTrials(s, next, interp, 0, 0);
    assert r == PlanFrom(s, next, interp, 0, 0);
    forall i | 0 <= i < |r|
      ensures r[i].trials == GetNumberOfTrials(r[i].uniques, s.lgMinBpU, s.lgMaxBpU, s.lgMinT, s.lgMaxT, interp)
    {
    }
  }

  /** With trial exponents ordered in 0..30 and an interpolation that stays
      within the trial bounds, every record runs between `1 << lgMinT` and
      `1 << lgMaxT` trials. */
  lemma PlanTrialsWithinBounds(s: Sweep, next: Stepper, interp: Interpolation)
    requires s.StartsPositive() && StepperIncreases(s, next)
    requires 0 <= s.lgMinT <= s.lgMaxT <= 30
    requires InterpolationWithin(interp, s.lgMinBpU, s.lgMaxBpU, s.lgMinT, s.lgMaxT)
    ensures 1 <= OneShiftedLeft(s.lgMinT)
    ensures var r := Plans(s, next, interp);
            forall i :: 0 <= i < |r| ==> OneShiftedLeft(s.lgMinT) <= r[i].trials <= OneShiftedLeft(s.lgMaxT)
  {
    var r := Plans(s, next, interp);
    PlanTrialsFollowPolicy(s, next, interp);
    OneShiftedLeftSign(s.lgMinT);
    forall i | 0 <= i < |r|
      ensures OneShiftedLeft(s.lgMinT) <= r[i].trials <= OneShiftedLeft(s.lgMaxT)
    {
      TrialsWithinBounds(r[i].uniques, s.lgMinBpU, s.lgMaxBpU, s.lgMinT, s.lgMaxT, interp);
    }
  }

  /** The offset update `vIn += lastU * trials` as written: the first offset is 0 and each later one is the
      previous one advanced with Java's wrapping arithmetic. */
  lemma PlanOffsetsAsWritten(s: Sweep, next: Stepper, interp: Interpolation)
    requires s.StartsPositive() && StepperIncreases(s, next)
    ensures var r := Plans(s, next, interp);
            (|r| > 0 ==> r[0].vIn == 0) &&
            (forall i :: 0 <= i < |r| - 1 ==> r[i + 1].vIn == Advance(r[i].vIn, r[i].uniques, r[i].trials))
  {
    PlanFromOffsetsChain(s, next, interp, 0, 0);
  }

  /** When no step's `uniques * trials` wraps, the offsets are additive:
      the first is 0 and each later one is its predecessor plus the
      predecessor's `uniques * trials`. */
  lemma PlanOffsetsAdditive(s: Sweep, next: Stepper, interp: Interpolation)
    requires s.StartsPositive() && StepperIncreases(s, next)
    requires NoProductWraps(Plans(s, next, interp))
    ensures var r := Plans(s, next, interp);
            (|r| > 0 ==> r[0].vIn == 0) &&
            (forall i :: 0 <= i < |r| - 1 ==> r[i + 1].vIn == r[i].vIn + Consumed(r[i]))
  {
    var r := Plans(s, next, interp);
    assert r == PlanFrom(s, next, interp, 0, 0);
    PlanFromOffsetsExact(s, next, interp, 0, 0);
    PlanFromOffsetsChain(s, next, interp, 0, 0);
  }

  /** When moreover no step has a negative trial count, the offsets never
      decrease and the steps' input ranges, the `uniques * trials` counter
      values after each step's `vIn`, are pairwise disjoint: each ends at or
      before every later step's `vIn`. */
  lemma PlanRangesDisjoint(s: Sweep, next: Stepper, interp: Interpolation)
    requires s.StartsPositive() && StepperIncreases(s, next)
    requires NoProductWraps(Plans(s, next, interp)) && ProductsNonnegative(Plans(s, next, interp))
    ensures var r := Plans(s, next, interp);
            (forall i, j :: 0 <= i <= j < |r| ==> r[i].vIn <= r[j].vIn) &&
            (forall i, j :: 0 <= i < j < |r| ==> r[i].vIn + Consumed(r[i]) <= r[j].vIn)
  {
    var r := Plans(s, next, interp);
    PlanOffsetsAdditive(s, next, interp);
    forall i, j | 0 <= i < j < |r|
      ensures r[i].vIn + Consumed(r[i]) <= r[j].vIn
    {
      ChainedOffsetsSeparate(r, i, j);
    }
  }

  // ----- the method's map -----

  /** The map that `ComputeIterationPlans` returns holds, under key k, the
      k-th record of the plan. */
  lemma MapKeyHoldsRecord(s: Sweep, next: Stepper, interp: Interpolation, m: LinkedMap<IterationPlan>, k: int)
    requires s.StartsPositive() && StepperIncreases(s, next)
    requires m.Valid() && m.values == Plans(s, next, interp) && m.keys == OneTo(|m.keys|)
    requires 1 <= k <= |m.keys|
    ensures k in m.keys && Get(m, k) == Plans(s, next, interp)[k - 1]
  {
    GetOneTo(m, |m.keys|, k - 1);
  }

  // ----- concrete sweeps -----

  /** A sweep at which the offset update's product wraps: 256 * 2^24 = 2^32 is 0 as an `int`, so
      the second step starts at the same offset as the first and the two
      steps' input ranges overlap, whatever the stepper and interpolation. */
  lemma WrappedProductRepeatsOffset(next: Stepper, interp: Interpolation)
    requires StepperIncreases(Sweep(8, 9, 1, 8, 9, 0, 24), next)
    ensures var r := Plans(Sweep(8, 9, 1, 8, 9, 0, 24), next, interp);
            |r| >= 2 && r[0] == IterationPlan(256, 0x100_0000, 0) &&
            Consumed(r[0]) == TWO_32 && r[1].vIn == 0
  {
    var s := Sweep(8, 9, 1, 8, 9, 0, 24);
    assert Pow2(8) == 0x100;
    Pow2Add(8, 8);
    assert Pow2(16) == 0x1_0000;
    Pow2Add(16, 8);
    assert OneShiftedLeft(24) == 0x100_0000;
    assert s.MinU() == 256 && s.MaxU() == 512;
    assert s.Trials(interp, 256) == 0x100_0000;
    assert ToInt32(256 * 0x100_0000) == 0;
    var rest := PlanFrom(s, next, interp, 256, Advance(0, 256, 0x100_0000));
    assert Advance(0, 256, 0x100_0000) == 0;
    assert Plans(s, next, interp) == [IterationPlan(256, 0x100_0000, 0)] + rest;
  }

  /** The doubling sweep from 1 to 8 with breakpoints 1 and 8 and trials
      between 2 and 4, for a stepper that doubles and an interpolation that
      floors 2^(5/3) to 3 and 2^(4/3) to 2. */
  lemma DoublingSweep(next: Stepper, interp: Interpolation)
    requires StepperIncreases(Sweep(0, 3, 1, 0, 3, 1, 2), next)
    requires next(1, 1) == 2 && next(1, 2) == 4 && next(1, 4) == 8
    requires interp(2, 0, 3, 1, 2) == 3 && interp(4, 0, 3, 1, 2) == 2
    ensures Plans(Sweep(0, 3, 1, 0, 3, 1, 2), next, interp) ==
            [IterationPlan(1, 4, 0), IterationPlan(2, 3, 4), IterationPlan(4, 2, 10), IterationPlan(8, 2, 18)]
  {
    var s := Sweep(0, 3, 1, 0, 3, 1, 2);
    assert s.MinU() == 1 && s.MaxU() == 8;
    assert PlanFrom(s, next, interp, 8, 34) == [];
    assert PlanFrom(s, next, interp, 4, 18) == [IterationPlan(8, 2, 18)];
    assert PlanFrom(s, next, interp, 2, 10) == [IterationPlan(4, 2, 10), IterationPlan(8, 2, 18)];
    assert PlanFrom(s, next, interp, 1, 4) == [IterationPlan(2, 3, 4), IterationPlan(4, 2, 10), IterationPlan(8, 2, 18)];
  }
}
