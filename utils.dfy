/** The benchmark sweep planner of `Utils.java`: the trial-count policy
    `getNumberOfTrials` and the loop `computeIterationPlans` that walks the
    input sizes and records one `IterationPlan` per size. */
module Utils {
  import opened JavaInt
  import opened LinkedMaps

  /** One step of the sweep: run `trials` measured repetitions at input size
      `uniques`, drawing input values from a counter that starts at `vIn`. */
  datatype IterationPlan = IterationPlan(uniques: Int32, trials: Int32, vIn: Int64)

  /** How many input values the benchmark consumes for one step: `trials`
      repetitions of `uniques` values each. */
  function Consumed(p: IterationPlan): (n: int)
  {
    p.uniques * p.trials
  }

  /** `pwr2SeriesNext(ppo, curPoint)` of the datasketches-common library,
      which returns the next point of a log-spaced series as a `long`. Its
      code is not part of this model; the planner is proved for every
      stepper that meets `StepperIncreases`. */
  type Stepper = (Int32, Int64) -> Int64

  /** The floating-point branch of `getNumberOfTrials`: given `uniques` and
      the four exponents, `(int) pow(2.0, slope * (log2(uniques) - lgMinBpU) + lgMaxT)`.
      Java's `(int)` cast of a double always yields an `int`, so the only
      thing assumed of it is its type. */
  type Interpolation = (Int32, Int32, Int32, Int32, Int32) -> Int32

  // ----- getNumberOfTrials -----

  /** The first guard of `getNumberOfTrials`: degenerate trial range, or at
      or below the lower breakpoint. */
  predicate SaturatesHigh(uniques: Int32, lgMinBpU: Int32, lgMinT: Int32, lgMaxT: Int32)
  {
    lgMinT == lgMaxT || uniques <= OneShiftedLeft(lgMinBpU)
  }

  /** Both guards fail, so the floating-point interpolation decides. */
  predicate Interpolates(uniques: Int32, lgMinBpU: Int32, lgMaxBpU: Int32, lgMinT: Int32, lgMaxT: Int32)
  {
    !SaturatesHigh(uniques, lgMinBpU, lgMinT, lgMaxT) && uniques < OneShiftedLeft(lgMaxBpU)
  }

  /** The trial count for input size `uniques`. The slope it computes is a
      `double` division, which never throws, so computing it before the
      guards has no observable effect and is not modelled. */
  function GetNumberOfTrials(uniques: Int32, lgMinBpU: Int32, lgMaxBpU: Int32,
                             lgMinT: Int32, lgMaxT: Int32, interp: Interpolation): (r: Int32)
  {
    var minBpU := OneShiftedLeft(lgMinBpU);
    var maxBpU := OneShiftedLeft(lgMaxBpU);
    var maxT := OneShiftedLeft(lgMaxT);
    var minT := OneShiftedLeft(lgMinT);
    if lgMinT == lgMaxT || uniques <= minBpU then maxT
    else if uniques >= maxBpU then minT
    else interp(uniques, lgMinBpU, lgMaxBpU, lgMinT, lgMaxT)
  }

  // ----- computeIterationPlans -----

  /** The seven parameters of `computeIterationPlans`. */
  datatype Sweep = Sweep(lgMinU: Int32, lgMaxU: Int32, uPPO: Int32,
                         lgMinBpU: Int32, lgMaxBpU: Int32, lgMinT: Int32, lgMaxT: Int32)
  {
    function MinU(): (u: Int32) { OneShiftedLeft(lgMinU) }

    function MaxU(): (u: Int32) { OneShiftedLeft(lgMaxU) }

    function Trials(interp: Interpolation, uniques: Int32): (t: Int32)
    {
      GetNumberOfTrials(uniques, lgMinBpU, lgMaxBpU, lgMinT, lgMaxT, interp)
    }

    /** The stepper is defined only for points of at least 1. The loop calls
        it after the first step, which is at `minU`, whenever
        `minU < maxU`; so `minU` must be positive whenever the loop runs at
        all. It fails only for `lgMinU % 32 == 31`, where `minU` is
        `Integer.MIN_VALUE`. */
    predicate StartsPositive()
    {
      MaxU() > 0 ==> MinU() > 0
    }
  }

  /** The contract of the stepper: at every point from 1 up to below `maxU`,
      the `(int)` cast of its result is strictly larger. Every point where
      the loop calls it lies in that range, though the loop visits only a
      few of them. */
  predicate StepperIncreases(s: Sweep, next: Stepper)
  {
    forall cur: int :: 1 <= cur < s.MaxU() ==> cur < ToInt32(next(s.uPPO, cur))
  }

  /** The choice of `nextU`: the first size is `minU`, every later one the stepper's value
      cast to `int`. */
  function NextU(s: Sweep, next: Stepper, lastU: Int32): (u: Int32)
  {
    if lastU == 0 then s.MinU() else ToInt32(next(s.uPPO, lastU))
  }

  /** The offset update `vIn += lastU * trials`: the product is an `int`
      multiplication, which wraps before it is widened, and the sum is a
      `long` addition, which wraps too. */
  function Advance(vIn: Int64, uniques: Int32, trials: Int32): (vOut: Int64)
  {
    ToInt64(vIn + ToInt32(uniques * trials))
  }

  /** The records that the loop still appends when it is at the top of an
      iteration with `lastU` and `vIn`. */
  function PlanFrom(s: Sweep, next: Stepper, interp: Interpolation, lastU: Int32, vIn: Int64): (r: seq<IterationPlan>)
    requires s.StartsPositive() && StepperIncreases(s, next)
    requires lastU >= 0
    decreases s.MaxU() - lastU
  {
    if lastU < s.MaxU() then
      var u := NextU(s, next, lastU);
      var t := s.Trials(interp, u);
      [IterationPlan(u, t, vIn)] + PlanFrom(s, next, interp, u, Advance(vIn, u, t))
    else
      []
  }

  /** The whole plan, in execution order. */
  function Plans(s: Sweep, next: Stepper, interp: Interpolation): (r: seq<IterationPlan>)
    requires s.StartsPositive() && StepperIncreases(s, next)
  {
    PlanFrom(s, next, interp, 0, 0)
  }

  /** One iteration of the loop: the record it puts under key n + 1 is the
      first one `PlanFrom` still owes, and what remains is `PlanFrom` at the
      new size and offset. */
  lemma IterationAppendsNextRecord(s: Sweep, next: Stepper, interp: Interpolation,
                                   m: LinkedMap<IterationPlan>, n: nat, lastU: Int32, vIn: Int64,
                                   u: Int32, t: Int32, m': LinkedMap<IterationPlan>, vIn': Int64,
                                   whole: seq<IterationPlan>)
    requires s.StartsPositive() && StepperIncreases(s, next)
    requires 0 <= lastU < s.MaxU()
    requires m.Valid() && m.keys == OneTo(n)
    requires m.values + PlanFrom(s, next, interp, lastU, vIn) == whole
    requires u == NextU(s, next, lastU) && t == s.Trials(interp, u)
    requires m' == Put(m, n + 1, IterationPlan(u, t, vIn)) && vIn' == Advance(vIn, u, t)
    ensures lastU < u
    ensures m'.Valid() && m'.keys == OneTo(n + 1)
    ensures m'.values + PlanFrom(s, next, interp, u, vIn') == whole
  {
    var p := IterationPlan(u, t, vIn);
    PutNextKey(m, n, p);
    assert PlanFrom(s, next, interp, lastU, vIn) == [p] + PlanFrom(s, next, interp, u, vIn');
  }

  /** `computeIterationPlans`: the plans come back in a map keyed 1, 2, ...,
      n in insertion order, and the records, read in that order, are
      `Plans`. */
  method ComputeIterationPlans(lgMinU: Int32, lgMaxU: Int32, uPPO: Int32,
                               lgMinBpU: Int32, lgMaxBpU: Int32, lgMinT: Int32, lgMaxT: Int32,
                               next: Stepper, interp: Interpolation)
    returns (iterationPlans: LinkedMap<IterationPlan>)
    requires Sweep(lgMinU, lgMaxU, uPPO, lgMinBpU, lgMaxBpU, lgMinT, lgMaxT).StartsPositive()
    requires StepperIncreases(Sweep(lgMinU, lgMaxU, uPPO, lgMinBpU, lgMaxBpU, lgMinT, lgMaxT), next)
    ensures iterationPlans.Valid()
    ensures iterationPlans.values == Plans(Sweep(lgMinU, lgMaxU, uPPO, lgMinBpU, lgMaxBpU, lgMinT, lgMaxT), next, interp)
    ensures iterationPlans.keys == OneTo(|iterationPlans.keys|)
  {
    ghost var s := Sweep(lgMinU, lgMaxU, uPPO, lgMinBpU, lgMaxBpU, lgMinT, lgMaxT);
    ghost var whole := Plans(s, next, interp);
    var maxU := OneShiftedLeft(lgMaxU);
    var minU := OneShiftedLeft(lgMinU);

    iterationPlans := Empty();
    var iteration: Int32 := 0;
    var lastU: Int32 := 0;
    var vIn: Int64 := 0;
    while lastU < maxU
      invariant 0 <= iteration <= lastU
      invariant lastU == 0 <==> iteration == 0
      invariant iterationPlans.Valid() && iterationPlans.keys == OneTo(iteration)
      invariant iterationPlans.values + PlanFrom(s, next, interp, lastU, vIn) == whole
      decreases maxU - lastU
    {
      ghost var m, n, u0, v0 := iterationPlans, iteration as nat, lastU, vIn;
      iteration := iteration + 1;
      var nextU := if lastU == 0 then minU else ToInt32(next(uPPO, lastU));
      lastU := nextU;

      var trials := GetNumberOfTrials(lastU, lgMinBpU, lgMaxBpU, lgMinT, lgMaxT, interp);

      iterationPlans := Put(iterationPlans, iteration, IterationPlan(lastU, trials, vIn));
      vIn := Advance(vIn, lastU, trials);
      IterationAppendsNextRecord(s, next, interp, m, n, u0, v0, lastU, trials, iterationPlans, vIn, whole);
    }
  }
}
