# qorbit pass prediction, modelled in Dafny

This project models the pass-prediction engine of qorbit, a Qt satellite
tracker. Given an observer and a satellite, the engine lists the passes in a
time window. A pass is the interval during which the satellite is above the
observer's horizon, and it is recorded with its acquisition of signal (AOS),
loss of signal (LOS) and peak elevation. The engine has three routines and
one record:

- `PassCalculator::GeneratePassList` scans the window forward in steps of
  `time_step` seconds. It tracks whether a pass is in progress with the flag
  `found_aos`. A pass is detected when a sample is above the horizon while
  `found_aos` is false, and it is closed by the next sample below the horizon.
  A pass that starts and ends between two samples is never seen. Closed
  passes are listed when their peak, converted to degrees, reaches the
  minimum elevation `miniumElevation`. A pass still in progress at the end of
  the window is compared in radians against that threshold in degrees (see
  Findings).
- `PassCalculator::FindCrossingPoint` refines a horizon crossing that lies
  between two samples. It bisects the bracket at most 16 times, then steps
  outward at most 6 whole seconds.
- `PassCalculator::FindMaxElevation` finds a pass's peak with a hill-climb
  over ever narrower windows.
- `PassDetails` is the pass record, and `duration()` formats its length as
  text.

## How the model is built

- **Elevation.** The SGP4 propagator and the observer's look-angle
  computation are one oracle, `elev: int -> real`. It gives the elevation in
  radians at an instant and is a parameter of every routine.
- **Instants and spans.** A `DateTime` is an `int` number of microsecond
  ticks, and a `TimeSpan` is a signed tick difference (module `DateTimes`).
- **Doubles.** They are exact reals. The one rounding kept is the conversion
  back to ticks in `AddSeconds` and `AddMicroseconds`. That conversion is a
  cast to a 64-bit integer, so it truncates toward zero (`TruncToInt`).
- **The class.** `PassCalculator` is a class whose one modelled field is
  `miniumElevation` (the source's spelling). Its routines are methods with
  loops, written as the source writes them.
  - `FindCrossingPoint` is split into its two phases, `Bisect` and `StepOut`.
    One bisection is the method `Halve`, and the final rounding
    `RoundIntoPass`.
  - The inner walk of `FindMaxElevation` is the method `Walk`.
  - The loop of `GeneratePassList` is the method `ScanForPasses`, whose loop
    body is the method `TakeSample`.

  These helpers keep each proof within the verifier's budget. They do not
  change what is computed.
- **Specification functions.** `FindMaxElevation` is proved equal to the pure
  function `HillClimbing.HillClimb`, and its inner walk equal to
  `HillClimbing.Climb`. Properties of the search are then lemmas about those
  functions.
- **The record of a run.** `GeneratePassList` returns ghost outputs that
  record the run:
  - the sampled instants;
  - the value of `found_aos` before each sample;
  - every pass it closed, before filtering;
  - whether a pass was still open at the end.

  Its postconditions tie the returned list to this record. `Edges` lists
  the rising edges of the record (samples above the horizon while not
  tracking) and its falling edges (samples below the horizon while
  tracking). `PassesOfTrace` states that there is one detected pass per
  rising edge, closed by the falling edge that follows. Each AOS and LOS is
  placed as `FindCrossingPoint` places it on the gap before its edge. When
  the bisection converges on that gap, it is a whole second near the gap.
  When the object crosses the horizon once near the gap, it is within a
  second of the crossing.
- **The threshold filter.** The list kept from the closed passes is the
  function `KeptClosed`, and the whole returned list is `ListedPasses`.
- **Duration text.** `duration()` returns a string built with
  `QString::arg(int)`, which is modelled by `Decimal.IntToString`. The text
  is proved to read back as the span's minute and second components.

Some behaviour of the code, as modelled, that a reader might not expect:

- Phase 2 of the crossing refinement (PassCalculator.cpp:105-117) steps away
  from the pass while the elevation is strictly above the horizon. So the
  refined instant is the first whole second at or below the horizon (or the
  sixth step), not the last one above it. Accordingly, `FindCrossingPoint`
  proves that the result lies on the below-horizon side of the crossing,
  within one second.
- The bisection (PassCalculator.cpp:56-80) keeps one end of its bracket
  strictly above the horizon and the other at or below it. A sample at
  exactly 0 counts as not above.
- A window with `endTime <= startTime` is not rejected
  (PassCalculator.cpp:141). The scan takes no sample and returns an empty
  list.
- The pass still open at the end of the window is filtered by comparing
  its peak in radians with the threshold in degrees (PassCalculator.cpp:243;
  see Findings).
- The peak of a pass is not guaranteed to be non-negative or to lie inside
  `[aos, los]` (PassCalculator.cpp:257-321). The hill-climb's later windows
  can start before `aos`, and an empty window yields the sentinel
  `-99999999999999.0`.
- A detected pass is not guaranteed to end after it starts
  (PassCalculator.cpp:47-117). When the object is above the horizon for less
  than a second between two samples, the AOS refinement can round forward
  and the LOS refinement back past each other. Such a pass gets the
  sentinel peak (PassCalculator.cpp:263-268), which fails both filters
  (PassCalculator.cpp:199, 243), so it is never listed: every listed pass
  has `aos < los` whenever the threshold is above the sentinel
  (`ListedPassesForward`).

## Model

| member | source | states |
|---|---|---|
| PassCalculation.PassCalculator.constructor | PassCalculator.cpp:5-11 | a new calculator's minimum elevation is 5.0 degrees |
| PassCalculation.PassCalculator.SetMiniumElevation | PassCalculator.cpp:32-34 | the threshold becomes the given value |
| PassCalculation.PassCalculator.Halve | PassCalculator.cpp:49-80 | the midpoint is the lower end plus half the span, truncated toward zero; it replaces the end on its own side of the horizon: `time2` when above and seeking AOS, `time1` when above and seeking LOS, mirrored when at or below |
| PassCalculation.PassCalculator.Bisect | PassCalculator.cpp:45-98 | the bracket only narrows within `[time1, time2]` and keeps its orientation: for AOS the lower end is the start or at or below the horizon, and the upper end is the end or above it; mirrored for LOS. When it converges, the bracket is under a second and the result is the last midpoint with its microseconds dropped, moved one second into the pass, and a whole second. Otherwise the result is the last midpoint and the bracket is at least a second. Any bracket up to 999999·2^16 µs converges within 16 halvings |
| PassCalculation.PassCalculator.RoundIntoPass | PassCalculator.cpp:88-96 | the converged midpoint loses its microseconds and moves one second into the pass; the result is a whole second, within (middle, middle + 1 s] for AOS and (middle − 2 s, middle − 1 s] for LOS |
| PassCalculation.PassCalculator.StepOut | PassCalculator.cpp:103-117 | at most 6 one-second steps outward (back for AOS, forward for LOS); every instant stepped from was above the horizon, and when fewer than 6 were taken the instant reached is at or below it |
| PassCalculation.PassCalculator.FindCrossingPoint | PassCalculator.cpp:36-120 | the result is a whole second when the bracket converges; it is at or below the horizon or has 6 above-horizon seconds inward of it; it lies in a bounded neighbourhood of the bracket; and when the bracket is at most 999999·2^16 µs (so the bisection converges) and, within 7 s of it, the elevation's sign changes once, from not above to above at t0 (a rise inside the bracket), the result is in [t0 − 1 s, t0), and for a single change from above to not above at t0 it is in [t0, t0 + 1 s) |
| PassCalculation.RiseFound | PassCalculator.cpp:45-117 | with a single rise at t0 near the bracket, the converged bisection followed by the outward steps ends on the last whole second before t0 |
| PassCalculation.SetFound | PassCalculator.cpp:45-117 | with a single set at t0 near the bracket, the converged bisection followed by the outward steps ends on the first whole second at or after t0 |
| PassCalculation.PassCalculator.Walk | PassCalculator.cpp:265-302 | the walk's stopping instant and running maximum are those of `Climb` |
| PassCalculation.PassCalculator.FindMaxElevation | PassCalculator.cpp:251-324 | the returned peak equals the hill-climb `HillClimb(elev, aos, los)` |
| PassCalculation.PassCalculator.TakeSample | PassCalculator.cpp:143-201 | one loop iteration: the new `found_aos` is `NextTracking`; a pass is closed exactly on a falling edge, with the current `aos_time`, the hill-climb's peak and a LOS near the bracket; an AOS at the very start is the start time; any other AOS, and the LOS, are whole seconds near the bracket when it converges, and within a second of a single crossing near it (`RefinedRise`, `RefinedSet`); otherwise `aos_time` is unchanged |
| PassCalculation.PassCalculator.ScanStep | PassCalculator.cpp:141-229 | one iteration of the scan: the next instant is half an hour after a closing sample and one step otherwise, clamped to `end_time`; the record of the run grows by this sample, and the sampling, boundary, detection and filtered-list invariants are kept; the detection invariant dates each AOS and LOS as `FindCrossingPoint` does on the gap before its edge |
| PassCalculation.PassCalculator.ScanForPasses | PassCalculator.cpp:129-230 | the scan samples from `start_time`, strictly before `end_time`, each sample one step or half an hour after the previous; the state machine follows `NextTracking`; the list so far is the threshold-filtered closed passes; the closed passes are one per falling edge, dated as `FindCrossingPoint` dates the crossing in the gap before each rising and falling edge: whole seconds near the gap, and within a second of a single crossing near it |
| PassCalculation.PassCalculator.GeneratePassList | PassCalculator.cpp:122-248 | samples exist exactly when start < end, start at `start_time`, stay in `[start, end)`, follow the state machine and gaps, and the next sample would reach `end_time`; every detected pass carries the hill-climb peak; a pass open at the end gets LOS `end_time`; the list is `ListedPasses` of the detected passes; an empty window, or samples never above the horizon, give an empty list; a sample above the horizon at the start gives a first pass with AOS exactly `start_time`; samples always above give exactly one pass, [start, end]; the number of detected passes is the number of falling edges plus one when a pass is open at the end; the detected passes are those of `PassesOfTrace`, so each AOS and LOS is within a second of a single horizon crossing near the gap before its edge; with `7 <= time_step <= 65535` the detected passes and the returned list are in strictly increasing order of AOS; with a threshold above the sentinel every listed pass has `aos < los` |
| PassCalculation.NextTracking | PassCalculator.cpp:151-184 | `found_aos` flips false→true only on a sample strictly above the horizon and true→false only on one strictly below; a sample at exactly 0 changes nothing |
| PassCalculation.KeptClosed | PassCalculator.cpp:194-200 | the kept passes are exactly the closed passes with `RAD2DEG * peak >= threshold`, and no more than were closed |
| PassCalculation.ListedPasses | PassCalculator.cpp:232-245 | every listed pass was detected, and passed the degree filter or is the open pass that passed the radian comparison; every closed pass that passes the degree filter is listed; the open pass (when it is not also a closed one) is listed exactly when its peak in radians reaches the threshold |
| PassCalculation.ListedPassesForward | PassCalculator.cpp:194-200 | when the threshold is above the sentinel, every listed pass has `aos < los`: a pass with `los <= aos` carries the sentinel peak (line 197 and PassCalculator.cpp:263-268), which neither the degree filter nor the radian filter of line 243 keeps |
| PassCalculation.ListedPassesCorrected | PassCalculator.cpp:243 | with the open pass converted to degrees, the list is exactly the detected passes with `RAD2DEG * peak >= threshold` |
| PassCalculation.OpenPassFilterMixesUnits | PassCalculator.cpp:243 | a pass open at the end that peaks at 0.5 rad (about 28.6 degrees) is dropped by the filter as written but kept by the corrected one |
| PassCalculation.OpenPassDroppedAtDefault | PassCalculator.cpp:243 | at the default threshold of 5, an open pass peaking at no more than π/2 rad is never listed |
| PassCalculation.SamplesIncrease | PassCalculator.cpp:206-229 | with a positive step the sampled instants strictly increase, so the scan terminates |
| PassCalculation.ScanningAdvances | PassCalculator.cpp:141-229 | taking one more sample keeps the scan's record consistent: samples within `[start, current)`, state machine, gaps and the clamp to `end_time` |
| PassCalculation.BoundedAdvances | PassCalculator.cpp:151-201 | one more sample keeps the boundary facts: a pass visible at the start is dated from the start; all samples below means nothing detected and not tracking; all above means still tracking the pass from the start |
| PassCalculation.EdgesExactly | PassCalculator.cpp:151-184 | the rising (falling) edges of a run are listed in increasing order, and they are exactly the samples above (below) the horizon taken while not tracking (tracking) |
| PassCalculation.DetectedAdvances | PassCalculator.cpp:151-201 | one more sample keeps the detection record: a rising edge starts a pass whose AOS is the start time (first sample) or a whole second within (previous − 6 s, current + 1 s], within a second before a single rise near the gap; a falling edge closes the pass in progress with its AOS and a LOS that is a whole second within (previous − 2 s, current + 5 s], within a second after a single set near the gap; any other sample changes nothing |
| PassCalculation.RisingEdgeKeeps | PassCalculator.cpp:151-177 | a rising edge adds one pass in progress, dated near it |
| PassCalculation.FallingEdgeKeeps | PassCalculator.cpp:178-201 | a falling edge closes the pass in progress, keeping the alternation of rising and falling edges |
| PassCalculation.DetectedAtEnd | PassCalculator.cpp:232-241 | appending the pass still open at the end, with the recorded AOS, gives exactly the passes of the trace |
| PassCalculation.GapConverges | PassCalculator.cpp:206-229 | with a step of at most 65535 s every gap between samples (a step or half an hour) is one the bisection narrows below a second |
| PassCalculation.AcquisitionsApart | PassCalculator.cpp:151-229 | with a step of 7 s to 65535 s, the AOS dated at one rising edge precedes the AOS dated at the next rising edge |
| PassCalculation.PassesInOrder | PassCalculator.cpp:122-248 | with a step of 7 s to 65535 s, the detected passes are in strictly increasing order of AOS |
| PassCalculation.RiseInGapDatedToTheSecond | PassCalculator.cpp:151-177 | samples at 0 s and 180 s with the object rising once at 100 s yield one pass, open at the end, with AOS exactly 99 s |
| PassCalculation.SetInGapDatedToTheSecond | PassCalculator.cpp:151-201 | samples at 0 s and 180 s with the object above at the start and setting once at 100 s yield one closed pass, AOS 0 s and LOS exactly 100 s |
| PassCalculation.KeptClosedInOrder | PassCalculator.cpp:194-200 | the degree filter keeps closed passes that are in AOS order in that order |
| PassCalculation.ListedInOrder | PassCalculator.cpp:232-245 | the returned list keeps the AOS order of the detected passes |
| PassCalculation.RiseThenFallDetectsOnePass | PassCalculator.cpp:151-201 | samples at 0 s, 1 s and 2 s below, above and below the horizon yield exactly one closed pass, AOS within (−6 s, 2 s] and LOS within (−1 s, 7 s] |
| PassCalculation.KeptClosedAppend | PassCalculator.cpp:199-200 | closing a pass appends it to the kept list exactly when it passes the degree filter |
| HillClimbing.Climb | PassCalculator.cpp:265-302 | the walk stops within `[t, end]`; its maximum is at least the start value, the first sample and the sample where it stopped; it is the starting value or the elevation at some instant in `[t, stop]` before `end` (not shown to be one of the instants the walk visited) |
| HillClimbing.HillClimbRound | PassCalculator.cpp:304-321 | each round re-brackets to `[stop − 2 steps, stop]`, a window of 2/9 of the previous one (truncated); the search either continues on that non-empty, strictly smaller window or returns the round's maximum |
| HillClimbing.HillClimbEmptyWindow | PassCalculator.cpp:263-323 | with `los <= aos` no sample is taken and the sentinel is returned |
| HillClimbing.HillClimbIsSample | PassCalculator.cpp:251-324 | the peak is the sentinel or the elevation at some instant before `los` and at most 2/7 of the window before `aos` (not shown to be one of the instants the walks visited) |
| HillClimbing.HillClimbAboveSentinel | PassCalculator.cpp:265-302 | when every elevation exceeds the sentinel, a non-empty window yields a real sample |
| Passes.PassDetails.Duration | PassDetails.h:20-28 | the text ends in `s` and contains `m` exactly when the span's minute component is positive |
| Passes.DurationRoundTrip | PassDetails.h:20-28 | the text reads back as the minute component (when shown) and the second component of `los − aos` |
| Passes.DurationDependsOnSpan | PassDetails.h:21 | two passes of equal length have the same duration text |
| Passes.DurationDropsHours | PassDetails.h:21-26 | a span of one hour and five seconds shows as "5s": the hour component is never shown |
| Passes.SpanMinutes | PassDetails.h:23 | the minute component lies strictly between −60 and 60, and for non-negative spans is the minute of the hour |
| Passes.SpanSeconds | PassDetails.h:24 | the second component lies strictly between −60 and 60, and for non-negative spans is the second of the minute |
| Decimal.ParseIntToString | PassDetails.h:24 | the decimal text of any integer reads back as that integer |
| DateTimes.HalfSpanTicks | PassCalculator.cpp:49 | adding half a span in seconds adds half its ticks, truncated toward zero |
| DateTimes.UnderOneSecond | PassCalculator.cpp:82 | a span is under one second exactly when it has fewer than 10^6 ticks |
| DateTimes.DropMicroseconds | PassCalculator.cpp:91-96 | removing the microseconds and moving by whole seconds lands on a whole second |
| DateTimes.WholeSecondsTicks | PassCalculator.cpp:111 | a move by whole seconds is exact |
| DateTimes.NinthSpanTicks | PassCalculator.cpp:286 | a walk step of one ninth of the window advances by a ninth of its ticks, truncated |
| DateTimes.TwoNinthsBackTicks | PassCalculator.cpp:307 | stepping back two steps moves back 2/9 of the window's ticks, truncated |
| DateTimes.TruncOfRatio | PassCalculator.cpp:49 | truncating a tick ratio gives C++'s integer quotient |

## Left out

- `PassCalculator::refresh` (PassCalculator.cpp:14-26). It reads the wall clock, builds a fixed TLE and an SGP4 model, and emits a Qt signal. These are I/O and wiring.
- `setObserversPosition` and the observer position. The observer is folded into the elevation oracle `elev`.
- The SGP4 propagator and `Observer::GetLookAngle`. They are foreign library code with floating-point orbital mechanics, so they become the oracle `elev`. A propagation failure (an exception from the library) has no counterpart, because the engine itself has no error path.
- Floating-point rounding. Doubles are exact reals, so a double's rounding of `TotalSeconds()/2.0`, `/9.0` or `RAD2DEG` is not modelled. Only the truncation back to ticks is.
- `DateTime` and `TimeSpan` internals.
  - Their sources are not part of this model.
  - `Minutes()` and `Seconds()` are taken as the minute-of-hour and second-of-minute components with C++'s truncating division and remainder.
  - `Microsecond()` is taken as the tick count modulo 10^6 for the non-negative tick counts a `DateTime` holds.
  - 64-bit overflow of tick arithmetic is not modelled.
- PassCalculation.PassCalculator.GeneratePassList: requires `time_step > 0`. With a zero or negative step the loop need not terminate, and the source does not guard against that.
- PassCalculation.PassCalculator.FindMaxElevation: promises only equality with `HillClimb`. Its other properties are stated on `HillClimb` by the HillClimbing lemmas rather than repeated on the method.
- PassCalculation.PassCalculator.FindCrossingPoint: the accuracy guarantee assumes that, within 7 s of the bracket, the elevation changes sign exactly once. Only the sign pattern is constrained there, and nothing is assumed further away. When the sign changes several times near the bracket, only the whole-second, side-of-horizon and neighbourhood guarantees hold.
- HillClimbing.HillClimb: nothing relates the hill-climb's result to the true maximum of the elevation over `[aos, los]`, even for an elevation that rises and then falls. Only the result's origin (the sentinel or the elevation at some instant of the searched range), the windows it searches and the sentinel cases are proved. So `FindMaxElevation` has no accuracy guarantee.
- PassCalculation.PassCalculator.GeneratePassList: does not promise that the listed passes do not overlap (`passList[j].los < passList[k].aos` for j < k). The code does not guarantee it either. Take an elevation that is at or below the horizon only briefly around a closing sample, and above it again at the next sample, half an hour later. The LOS refinement can then land up to 5 s after the closing sample. The next AOS is refined on the half-hour gap that starts at that same sample, and it can land up to 6 s before it. With a step of 7 s to 65535 s only the AOS order is proved (`PassesInOrder`, `ListedInOrder`).
- The map, polar-plot, footprint and pass-table code (QSimpleSatelliteMap, qPolarView, Footprint.h, qpredict_footprint.h, PassTable, qOrbit, Satellite.h). These are rendering and UI.
- Qt's `QList`, `QString` and the `listUpdated` signal. The list is a sequence, and the text is a sequence of characters built by `Decimal.IntToString`.

## Findings

| source | as written | input that shows it | evidently intended | confidence | as-written member | corrected member |
|---|---|---|---|---|---|---|
| PassCalculator.cpp:243 | the pass still open at the end is kept when `max_elevation >= miniumElevation`, comparing radians with a threshold in degrees | a pass open at the end of the window peaking at 0.5 rad (28.6°), threshold 5°: dropped, although a closed pass with the same peak is kept | the same filter as line 199, `RAD2DEG * max_elevation >= miniumElevation` | high, not executed | PassCalculation.ListedPasses, PassCalculation.OpenPassFilterMixesUnits | PassCalculation.ListedPassesCorrected |
