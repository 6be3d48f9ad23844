# Benchmark sweep planner of datasketches-jmh

This project models the sweep planner that drives the HLL update-speed
benchmark. The planner lives in `Utils.java` and has two parts:

- `getNumberOfTrials` is the trial-count policy. It gives `1 << lgMaxT`
  trials for small inputs and `1 << lgMinT` for large ones. Between the two
  breakpoints `1 << lgMinBpU` and `1 << lgMaxBpU` it interpolates in log-log
  space.
- `computeIterationPlans` walks the input sizes `uniques` from
  `1 << lgMinU` up to the first one that reaches `1 << lgMaxU`. It steps
  with the log-spaced series `pwr2SeriesNext`. For each size it puts an
  `IterationPlan(uniques, trials, vIn)` into a `LinkedHashMap` under keys
  1, 2, 3, and so on. `vIn` is the offset of the first synthetic input value
  of the step; it advances by `uniques * trials` after every step.

The Dafny modules follow that structure:

- `JavaInt` (`java_int.dfy`) holds Java's `int` and `long` ranges.
  It models two's-complement narrowing (`ToInt32`, `ToInt64`). It models
  `1 << n`, whose count Java masks to five bits (`OneShiftedLeft`).
- `LinkedMaps` (`linked_map.dfy`) is the part of `LinkedHashMap` that the
  planner uses. It is a value with keys in first-insertion order and the
  values beside them.
- `Utils` (`utils.dfy`) contains the following:
  - the `IterationPlan` record;
  - `GetNumberOfTrials`;
  - the specification function `Plans` of the sweep (through `PlanFrom`,
    the records that remain to be built from one loop state);
  - the imperative `ComputeIterationPlans`. It keeps the source's
    `while` loop over `iteration`, `lastU` and `vIn`, and is proved to
    return `Plans` in a map keyed 1..n.
- `TrialPolicy` (`trial_lemmas.dfy`) holds the properties of the trial
  policy.
- `PlanProperties` (`plan_lemmas.dfy`) holds the properties of the plan.

Two pieces are parameters, not code:

- `next: Stepper` is `pwr2SeriesNext`. It is only required to make the
  `(int)` cast of its value larger than the current point, at every point
  from 1 up to below `maxU` (`StepperIncreases`). That covers every point
  where the loop calls it, and more: the loop visits only a few of them.
- `interp: Interpolation` is the floating-point branch of
  `getNumberOfTrials` (`Utils.java` lines 72-74). Java's `(int)` cast of a
  `double` always produces an `int`, so nothing else is assumed about it.
  Only the bounds and monotonicity lemmas assume more, and they say so.

Integer details are written out:

- **Shifts.** `1 << n` is `2^(n mod 32)`, except that a count of 31 gives
  `Integer.MIN_VALUE`.
- **The `(int)` cast at line 42.** It keeps the low 32 bits.
- **Line 48, `vIn += lastU * trials`.** The `int` multiplication wraps first,
  then the `long` addition wraps.

Three behaviours of the code are worth stating outright:

- **Equal breakpoints.** `getNumberOfTrials` has no guard for
  `lgMinBpU == lgMaxBpU`, although the slope at line 64 then divides by
  zero. The model proves that no guard is needed: with equal breakpoints
  the interpolation, and so the slope, is never used, and the result is
  `maxT` or `minT` (`EqualBreakpointsSaturate`,
  `SlopeDenominatorNonzeroWhenUsed`).
- **`maxU <= minU`.** The loop then produces exactly one record, at `minU`,
  but only when `1 << lgMaxU` is positive. When the shift count of `lgMaxU`
  is 31 modulo 32, `maxU` is negative and the loop produces nothing
  (`PlanStart`, `PlanSingleStep`).
- **Offset additivity.** The offsets add up only while no step's `int`
  product `uniques * trials` wraps. `WrappedProductRepeatsOffset` gives a
  configuration where the product wraps and two steps start at the same
  offset. `PlanOffsetsAdditive` proves additivity whenever no product
  wraps. `PlanRangesDisjoint` proves that the input ranges do not overlap
  when, in addition, no trial count is negative. A trial count is negative
  when the shift count of `lgMaxT` or `lgMinT` is 31 modulo 32.

## Model

| member | source | states |
|---|---|---|
| JavaInt.ToInt32 | src/main/java/org/apache/datasketches/Utils.java:42 | the `(int)` narrowing: the result is the `int` congruent to its argument modulo 2^32, and any value already in the `int` range is unchanged |
| JavaInt.ToInt64 | src/main/java/org/apache/datasketches/Utils.java:48 | `long` wrap-around of the addition: the result is congruent modulo 2^64 and equals any argument already in the `long` range |
| JavaInt.OneShiftedLeft | src/main/java/org/apache/datasketches/Utils.java:33-34 | `1 << n` is the low 32 bits of 2^(n & 31) read as an `int`, as Java defines the shift; so it is 2^(n & 31) for masked counts below 31 and `Integer.MIN_VALUE` for a masked count of 31 |
| JavaInt.OneShiftedLeftSign | src/main/java/org/apache/datasketches/Utils.java:60-63 | `1 << n` is never 0; it is positive exactly when the masked count is not 31; for 0 <= n <= 30 it is the positive number 2^n |
| JavaInt.OneShiftedLeftStrictlyIncreasing | src/main/java/org/apache/datasketches/Utils.java:60-61 | on counts 0..30 the shift is strictly increasing, so distinct counts give distinct breakpoints |
| JavaInt.WrappedDifferenceZero | src/main/java/org/apache/datasketches/Utils.java:64 | the `int` subtraction `lgMinBpU - lgMaxBpU` is zero, even after wrap-around, exactly when the two exponents are equal |
| LinkedMaps.Empty | src/main/java/org/apache/datasketches/Utils.java:36 | a new `LinkedHashMap` has no keys and no values |
| LinkedMaps.Put | src/main/java/org/apache/datasketches/Utils.java:47 | `put(k, v)` maps k to v and leaves every other key's value alone; an existing key keeps its place in iteration order, and a new key is appended at the end |
| LinkedMaps.PutNextKey | src/main/java/org/apache/datasketches/Utils.java:41-47 | putting key n + 1 into a map keyed 1..n gives a map keyed 1..n+1 whose values are the old values followed by the new one |
| LinkedMaps.GetOneTo | src/main/java/org/apache/datasketches/Utils.java:47 | in a map keyed 1..n in insertion order, key i + 1 holds the value inserted i-th (counting from 0) |
| Utils.IterationAppendsNextRecord | src/main/java/org/apache/datasketches/Utils.java:40-48 | one loop iteration increases `lastU`, puts under key `iteration + 1` exactly the next record the plan owes, and leaves the plan from the new `lastU` and `vIn` still to be built |
| Utils.ComputeIterationPlans | src/main/java/org/apache/datasketches/Utils.java:24-51 | the loop terminates; the map it returns has keys 1..n in insertion order and its values, in that order, are exactly `Plans` of the seven parameters |
| TrialPolicy.DegenerateRangeIsConstant | src/main/java/org/apache/datasketches/Utils.java:62-68 | with `lgMinT == lgMaxT` the count is `1 << lgMaxT` for every input size |
| TrialPolicy.AtOrBelowLowerBreakpoint | src/main/java/org/apache/datasketches/Utils.java:60-68 | at or below `1 << lgMinBpU` the count is `1 << lgMaxT` |
| TrialPolicy.AtOrAboveUpperBreakpoint | src/main/java/org/apache/datasketches/Utils.java:61-71 | once the first guard fails, at or above `1 << lgMaxBpU` the count is `1 << lgMinT` |
| TrialPolicy.InterpolationStrictlyBetweenBreakpoints | src/main/java/org/apache/datasketches/Utils.java:66-74 | the interpolation decides the count exactly when the trial range is not degenerate and the size lies strictly between the breakpoints; otherwise the count is one of the two trial bounds |
| TrialPolicy.SlopeDenominatorNonzeroWhenUsed | src/main/java/org/apache/datasketches/Utils.java:64-74 | wherever the interpolation is reached, `lgMinBpU != lgMaxBpU`, so the slope's denominator is nonzero; with exponents in 0..30, `lgMinBpU < lgMaxBpU` |
| TrialPolicy.EqualBreakpointsSaturate | src/main/java/org/apache/datasketches/Utils.java:64-71 | equal breakpoint exponents never reach the interpolation: the count is `maxT` at or below the breakpoint and `minT` above it |
| TrialPolicy.TrialsWithinBounds | src/main/java/org/apache/datasketches/Utils.java:60-74 | for trial exponents ordered in 0..30 and an interpolation that stays within the trial bounds, the count lies in `[1 << lgMinT, 1 << lgMaxT]` and is at least 1 |
| TrialPolicy.TrialsNonIncreasing | src/main/java/org/apache/datasketches/Utils.java:60-74 | under the assumptions of `TrialsWithinBounds` (trial exponents ordered in 0..30, an interpolation within the trial bounds), and with an interpolation that does not grow with the size, a larger size never gets more trials |
| PlanProperties.NextUIncreases | src/main/java/org/apache/datasketches/Utils.java:42-43 | each `nextU` computed inside the loop exceeds the previous `lastU` |
| PlanProperties.PlanFromCons | src/main/java/org/apache/datasketches/Utils.java:41-48 | from a state inside the loop, the first record still owed is `(nextU, trials, vIn)` and the rest is what the next state owes |
| PlanProperties.PlanFromSizesIncrease | src/main/java/org/apache/datasketches/Utils.java:40-43 | every size built from `lastU` on exceeds it by at least its position plus one, and the sizes strictly increase |
| PlanProperties.PlanFromStopsAtMax | src/main/java/org/apache/datasketches/Utils.java:40-43 | nothing is built exactly when `lastU >= maxU`; every record but the last is below `maxU` and the last one reaches it |
| PlanProperties.PlanFromFollowsStepper | src/main/java/org/apache/datasketches/Utils.java:42-43 | the first size is `nextU` of the current state, and each later size is the `(int)` cast of the stepper at its predecessor |
| PlanProperties.PlanFromTrials | src/main/java/org/apache/datasketches/Utils.java:45-47 | each record's trial count is `getNumberOfTrials` of its own size |
| PlanProperties.PlanFromOffsetsChain | src/main/java/org/apache/datasketches/Utils.java:47-48 | the first offset is the current `vIn`, and each later one is its predecessor advanced by line 48 with Java's wrap-around |
| PlanProperties.PlanFromOffsetsExact | src/main/java/org/apache/datasketches/Utils.java:39-48 | when no `uniques * trials` wraps (`NoProductWraps`) and `vIn` is within `lastU * MIN_INT .. lastU * MAX_INT`, each offset is its predecessor plus the predecessor's `uniques * trials`, so the `long` addition never overflows |
| PlanProperties.OffsetBudgetGrows | src/main/java/org/apache/datasketches/Utils.java:48 | adding one `int` to an offset within `lastU * MIN_INT .. lastU * MAX_INT` keeps it within `u * MIN_INT .. u * MAX_INT` for the next, larger size `u`, a range strictly inside the `long` range |
| PlanProperties.ChainedOffsetsSeparate | src/main/java/org/apache/datasketches/Utils.java:47-48 | offsets that advance by nonnegative consumed counts keep every step's input range before every later step's start |
| PlanProperties.PlanStart | src/main/java/org/apache/datasketches/Utils.java:33-47 | the plan is empty exactly when `1 << lgMaxU` is not positive; otherwise record 1 has size `1 << lgMinU`, the policy's trial count and offset 0 |
| PlanProperties.PlanSizesStrictlyIncrease | src/main/java/org/apache/datasketches/Utils.java:40-43 | the recorded sizes strictly increase across the whole plan |
| PlanProperties.PlanEndsAtFirstSizeReachingMax | src/main/java/org/apache/datasketches/Utils.java:40-43 | the sizes start at `minU` and follow the stepper; every size but the last is below `maxU` and the last one is at or above it |
| PlanProperties.PlanSingleStep | src/main/java/org/apache/datasketches/Utils.java:33-43 | the plan has exactly one record exactly when `0 < maxU <= minU` |
| PlanProperties.PlanTrialsFollowPolicy | src/main/java/org/apache/datasketches/Utils.java:45-47 | every record's trial count is `getNumberOfTrials` of that record's size |
| PlanProperties.PlanTrialsWithinBounds | src/main/java/org/apache/datasketches/Utils.java:45-47 | under the trial-bound assumptions, every record runs between `1 << lgMinT` and `1 << lgMaxT` trials, at least one |
| PlanProperties.PlanOffsetsAsWritten | src/main/java/org/apache/datasketches/Utils.java:39-48 | the first offset is 0 and each later one is line 48 applied to the previous record, wrap-around included |
| PlanProperties.PlanOffsetsAdditive | src/main/java/org/apache/datasketches/Utils.java:39-48 | when no product wraps: the first offset is 0 and consecutive offsets differ by exactly `uniques * trials` |
| PlanProperties.PlanRangesDisjoint | src/main/java/org/apache/datasketches/Utils.java:39-48 | when no product wraps and no product is negative: offsets never decrease, and the `uniques * trials` counter values after each step's `vIn` all come before every later step's `vIn` |
| PlanProperties.MapKeyHoldsRecord | src/main/java/org/apache/datasketches/Utils.java:36-47 | in the returned map, key k (1 <= k <= n) holds the k-th record of the plan |
| PlanProperties.WrappedProductRepeatsOffset | src/main/java/org/apache/datasketches/Utils.java:48 | for `lgMinU = 8`, `lgMaxU = 9`, breakpoints 8 and 9 and trials from 1 to 2^24, the first step consumes 2^32 values, the product wraps to 0, and the second step starts again at offset 0 |
| PlanProperties.DoublingSweep | src/main/java/org/apache/datasketches/Utils.java:24-74 | the doubling sweep from 1 to 8 with breakpoints 1 and 8 and trials 2 to 4 gives exactly (1, 4, 0), (2, 3, 4), (4, 2, 10), (8, 2, 18) when the stepper doubles and the interpolation yields 3 at size 2 and 2 at size 4 |

## Left out

- `pwr2SeriesNext` (line 42) belongs to the datasketches-common library and
  is not part of this model. It is the parameter `next`. Its only contract
  is `StepperIncreases`: at every point from 1 up to below `maxU`, the
  `(int)` cast of its value is larger. The loop calls it at only some of
  those points, so a stepper that increases at the points the loop visits
  but not elsewhere is excluded, although the Java loop handles it. A stepper whose value wraps when cast is
  excluded by that contract. For such a stepper the Java loop could fail to
  terminate.
- The floating-point interpolation (lines 72-74, with `LN2` at line 10) is
  the parameter `interp`. `log`, `pow` and the double-to-int cast are not
  modelled. The slope at line 64 is a `double` division that never throws.
  It is not computed, because its value is used only inside the
  interpolation.
- TrialPolicy.TrialsWithinBounds: assumes the interpolation stays within the
  trial bounds (`InterpolationWithin`). The bound does not follow from the
  integer code alone.
- TrialPolicy.TrialsNonIncreasing: assumes both that the interpolation stays
  within the trial bounds (`InterpolationWithin`) and that it does not grow
  with the size (`InterpolationNonIncreasing`).
- PlanProperties.PlanTrialsWithinBounds: rests on the same assumption as
  `TrialsWithinBounds`.
- PlanProperties.PlanOffsetsAdditive: holds only when no step's
  `uniques * trials` wraps (`NoProductWraps`). Line 48 as written wraps, and
  `WrappedProductRepeatsOffset` shows the overlap that results.
- PlanProperties.PlanRangesDisjoint: also needs every product to be
  nonnegative (`ProductsNonnegative`). With a negative trial count the
  offsets go down, and the ranges are not ordered.
- Utils.ComputeIterationPlans: requires that `1 << lgMinU` be positive
  whenever `1 << lgMaxU` is (`StartsPositive`). The first iteration takes
  `minU` without calling the stepper (line 42). If `minU` is
  `Integer.MIN_VALUE` and `maxU` is positive, the second iteration would
  call the stepper at `Integer.MIN_VALUE`, outside its domain.
- `LinkedHashMap` is modelled only through `put` of fresh and existing keys,
  `get` of present keys, and iteration order. Boxing to `Integer` and the
  map's other operations are not modelled.
- `HllUpdateSpeedBenchmark.java` is not part of this model. It is JMH
  benchmark code that calls into the external `HllSketch`. That includes its
  `test` loop, which consumes `uniques * trials` consecutive input values.
- `CreateJfreeChartPDF.java` and `CreateXChartPDF.java` are not part of this
  model. They do file I/O, parse doubles and render charts to PDF.
- `Params.java` is not part of this model. It reads JVM system properties.
