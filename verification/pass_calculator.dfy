/** The pass-prediction engine of PassCalculator.cpp: a forward scan for
    horizon crossings (GeneratePassList), a bisection that refines a
    crossing instant (FindCrossingPoint) and a hill-climb for the peak
    elevation (FindMaxElevation).

    The propagator and the observer's look-angle computation appear as one
    oracle `elev`, the elevation in radians at an instant; only its sign and
    its ordering are ever consulted. Instants are tick counts (DateTimes). */
module PassCalculation {
  import opened DateTimes
  import opened HillClimbing
  import opened Passes
  import opened Decimal

  /** RAD2DEG, with M_PI written out as its double literal. */
  const Rad2Deg: real := 180.0 / 3.141592653589793

  /** The threshold a new PassCalculator starts with, in degrees. */
  const DefaultMinimumElevation: real := 5.0

  /** A span the bisection always narrows below one second in its 16
      halvings: 999999 microseconds times 2^16. */
  const MaxConvergentSpan: int := 999999 * 65536

  function Pow2(n: nat): (p: nat)
    ensures p >= 1
  {
    if n == 0 then 1 else 2 * Pow2(n - 1)
  }

  lemma Pow2Sixteen()
    ensures Pow2(16) == 65536
  {
    assert Pow2(4) == 16;
    assert Pow2(8) == 256;
    assert Pow2(12) == 4096;
  }

  /** A bisection step splits a bracket of at most twice `half` into two
      parts of at most `half` each. */
  lemma HalvingFits(t1: int, t2: int, middle: int, half: int)
    requires t1 <= t2 && middle == t1 + CDiv(t2 - t1, 2)
    ensures t1 <= middle <= t2
    ensures t2 - t1 <= 2 * half ==> middle - t1 <= half && t2 - middle <= half
  {
  }

  function Last<T>(s: seq<T>): T
    requires |s| > 0
  {
    s[|s| - 1]
  }

  function AllButLast<T>(s: seq<T>): seq<T>
    requires |s| > 0
  {
    s[..|s| - 1]
  }

  // ---------------------------------------------------------------------
  // Crossing refinement

  /** `t` moved `k` whole seconds away from the pass: earlier when the
      crossing sought is an acquisition, later when it is a loss. */
  function Outward(t: int, k: int, findingAos: bool): int
  {
    if findingAos then t - k * TicksPerSecond else t + k * TicksPerSecond
  }

  /** `t` moved `k` whole seconds back toward the pass. */
  function Inward(t: int, k: int, findingAos: bool): int
  {
    Outward(t, -k, findingAos)
  }

  /** Within seven seconds of the bracket `[time1, time2]`, the object
      rises at `t0`: below or on the horizon before, above from then on.
      Nothing is assumed further away. */
  ghost predicate RisesAt(elev: int -> real, t0: int, time1: int, time2: int)
  {
    forall t :: time1 - 7 * TicksPerSecond <= t <= time2 + 7 * TicksPerSecond ==>
      (t < t0 ==> elev(t) <= 0.0) && (t0 <= t ==> 0.0 < elev(t))
  }

  /** Within seven seconds of the bracket `[time1, time2]`, the object sets
      at `t0`: above the horizon before, on or below it from then on.
      Nothing is assumed further away. */
  ghost predicate SetsAt(elev: int -> real, t0: int, time1: int, time2: int)
  {
    forall t :: time1 - 7 * TicksPerSecond <= t <= time2 + 7 * TicksPerSecond ==>
      (t < t0 ==> 0.0 < elev(t)) && (t0 <= t ==> elev(t) <= 0.0)
  }

  /** `aos` is accurate for the bracket `[lo, hi]`: when the bracket is one
      the bisection narrows below a second and the object rises once near
      it, at `t0`, the instant lies within the second before `t0`. */
  ghost predicate RefinedRise(elev: int -> real, lo: int, hi: int, aos: int)
  {
    forall t0 :: RisesAt(elev, t0, lo, hi) && lo < t0 <= hi <= lo + MaxConvergentSpan ==>
      aos < t0 <= aos + TicksPerSecond
  }

  /** `los` is accurate for the bracket `[lo, hi]`: when the bracket is one
      the bisection narrows below a second and the object sets once near
      it, at `t0`, the instant lies within the second from `t0` on. */
  ghost predicate RefinedSet(elev: int -> real, lo: int, hi: int, los: int)
  {
    forall t0 :: SetsAt(elev, t0, lo, hi) && lo < t0 <= hi <= lo + MaxConvergentSpan ==>
      t0 <= los < t0 + TicksPerSecond
  }

  /** Accuracy of an AOS refinement: when the object rises once, at `t0`,
      near the bracket, the converged bisection and the outward steps end
      on the last whole second before `t0`. */
  lemma RiseFound(elev: int -> real, time1: int, time2: int, t0: int, lo: int, hi: int,
                 unrounded: int, middle: int, crossing: int, steps: nat)
    requires RisesAt(elev, t0, time1, time2) && time1 < t0 <= time2
    requires time1 <= lo <= hi <= time2 && hi - lo < TicksPerSecond && (unrounded == lo || unrounded == hi)
    requires (lo == time1 || elev(lo) <= 0.0) && (hi == time2 || 0.0 < elev(hi))
    requires middle == unrounded - Microsecond(unrounded) + TicksPerSecond
    requires steps <= 6 && crossing == Outward(middle, steps, true)
    requires forall j :: 0 <= j < steps ==> 0.0 < elev(Outward(middle, j, true))
    requires steps < 6 ==> elev(crossing) <= 0.0
    ensures crossing < t0 <= crossing + TicksPerSecond
  {
    assert lo < t0 <= hi;
    if steps > 0 {
      assert 0.0 < elev(Outward(middle, steps - 1, true));
    }
  }

  /** Accuracy of a LOS refinement: when the object sets once, at `t0`,
      near the bracket, the converged bisection and the outward steps end
      on the first whole second from `t0` on. */
  lemma SetFound(elev: int -> real, time1: int, time2: int, t0: int, lo: int, hi: int,
                unrounded: int, middle: int, crossing: int, steps: nat)
    requires SetsAt(elev, t0, time1, time2) && time1 < t0 <= time2
    requires time1 <= lo <= hi <= time2 && hi - lo < TicksPerSecond && (unrounded == lo || unrounded == hi)
    requires (lo == time1 || 0.0 < elev(lo)) && (hi == time2 || elev(hi) <= 0.0)
    requires middle == unrounded - Microsecond(unrounded) - TicksPerSecond
    requires steps <= 6 && crossing == Outward(middle, steps, false)
    requires forall j :: 0 <= j < steps ==> 0.0 < elev(Outward(middle, j, false))
    requires steps < 6 ==> elev(crossing) <= 0.0
    ensures t0 <= crossing < t0 + TicksPerSecond
  {
    assert lo < t0 <= hi;
    assert middle < t0;
    assert 0.0 < elev(Outward(middle, steps - 1, false));
  }

  // ---------------------------------------------------------------------
  // The scanner's two states and what it lists

  /** found_aos after a sample of elevation `e`: it is raised only by a
      sample strictly above the horizon and lowered only by one strictly
      below it. */
  function NextTracking(tracking: bool, e: real): (r: bool)
    ensures r != tracking <==> (if tracking then e < 0.0 else 0.0 < e)
    ensures e == 0.0 ==> r == tracking
  {
    if !tracking && e > 0.0 then true
    else if tracking && e < 0.0 then false
    else tracking
  }

  /** The sample ends a pass (end_of_pass). */
  predicate ClosesPass(tracking: bool, e: real)
  {
    tracking && e < 0.0
  }

  /** The sample starts a pass: found_aos is false and the object is above
      the horizon. */
  predicate OpensPass(tracking: bool, e: real)
  {
    !tracking && 0.0 < e
  }

  /** A rising edge (`rising`) or a falling edge of the state machine. */
  predicate IsEdge(rising: bool, tracking: bool, e: real)
  {
    if rising then OpensPass(tracking, e) else ClosesPass(tracking, e)
  }

  /** How far the scan moves on after a sample, before clamping to the end. */
  function Gap(closesPass: bool, timeStep: int): int
  {
    if closesPass then HalfHour else timeStep * TicksPerSecond
  }

  /** The filter on a pass closed inside the scan: peak in degrees against the threshold. */
  predicate KeepsClosedPass(maxElevation: real, minimum: real)
  {
    Rad2Deg * maxElevation >= minimum
  }

  /** The filter on the pass still open when the scan ends, as written:
      the peak in radians against the threshold in degrees. */
  predicate KeepsOpenPass(maxElevation: real, minimum: real)
  {
    maxElevation >= minimum
  }

  /** The closed passes that the degree filter keeps, in order. */
  function KeptClosed(passes: seq<PassDetails>, minimum: real): (r: seq<PassDetails>)
    ensures |r| <= |passes|
    ensures forall p :: p in r ==> p in passes && KeepsClosedPass(p.maxElevation, minimum)
    ensures forall p :: p in passes && KeepsClosedPass(p.maxElevation, minimum) ==> p in r
    decreases |passes|
  {
    if passes == [] then []
    else
      var kept := KeptClosed(AllButLast(passes), minimum);
      assert passes == AllButLast(passes) + [Last(passes)];
      if KeepsClosedPass(Last(passes).maxElevation, minimum) then kept + [Last(passes)] else kept
  }

  /** The list GeneratePassList returns, given the passes it detected: all
      but a pass still open at the end go through the degree filter, the
      open one through the radian comparison. */
  function ListedPasses(detected: seq<PassDetails>, openAtEnd: bool, minimum: real): (r: seq<PassDetails>)
    ensures forall p :: p in r ==> p in detected
    ensures forall p :: p in r ==>
      KeepsClosedPass(p.maxElevation, minimum) || (openAtEnd && p == Last(detected) && KeepsOpenPass(p.maxElevation, minimum))
    ensures forall p ::
      (p in (if openAtEnd && detected != [] then AllButLast(detected) else detected)
       && KeepsClosedPass(p.maxElevation, minimum)) ==> p in r
    ensures openAtEnd && detected != [] && Last(detected) !in AllButLast(detected) ==>
      (Last(detected) in r <==> KeepsOpenPass(Last(detected).maxElevation, minimum))
  {
    if openAtEnd && detected != [] then
      KeptClosed(AllButLast(detected), minimum)
        + (if KeepsOpenPass(Last(detected).maxElevation, minimum) then [Last(detected)] else [])
    else
      KeptClosed(detected, minimum)
  }

  /** Passes in strictly increasing order of AOS. */
  predicate InAosOrder(passes: seq<PassDetails>)
  {
    forall j, k :: 0 <= j < k < |passes| ==> passes[j].aos < passes[k].aos
  }

  /** The degree filter keeps the closed passes in the order they came. */
  lemma {:induction false} KeptClosedInOrder(passes: seq<PassDetails>, minimum: real)
    requires InAosOrder(passes)
    ensures InAosOrder(KeptClosed(passes, minimum))
    decreases |passes|
  {
    if passes != [] {
      var init := AllButLast(passes);
      assert InAosOrder(init) by {
        forall j, k | 0 <= j < k < |init| ensures init[j].aos < init[k].aos {
          assert init[j] == passes[j] && init[k] == passes[k];
        }
      }
      KeptClosedInOrder(init, minimum);
      OrderedBeforeLast(passes, KeptClosed(init, minimum));
    }
  }

  /** A sequence of the passes before the last one, in order, stays in order
      with the last pass appended. */
  lemma OrderedBeforeLast(passes: seq<PassDetails>, kept: seq<PassDetails>)
    requires passes != [] && InAosOrder(passes) && InAosOrder(kept)
    requires forall p :: p in kept ==> p in AllButLast(passes)
    ensures InAosOrder(kept + [Last(passes)])
  {
    var r := kept + [Last(passes)];
    forall j, k | 0 <= j < k < |r| ensures r[j].aos < r[k].aos {
      if k == |kept| {
        assert r[j] in AllButLast(passes);
        var i :| 0 <= i < |passes| - 1 && passes[i] == r[j];
      } else {
        assert r[j] == kept[j] && r[k] == kept[k];
      }
    }
  }

  /** The returned list keeps the order of the detected passes. */
  lemma ListedInOrder(detected: seq<PassDetails>, openAtEnd: bool, minimum: real)
    requires InAosOrder(detected)
    ensures InAosOrder(ListedPasses(detected, openAtEnd, minimum))
  {
    if openAtEnd && detected != [] {
      var init := AllButLast(detected);
      assert InAosOrder(init) by {
        forall j, k | 0 <= j < k < |init| ensures init[j].aos < init[k].aos {
          assert init[j] == detected[j] && init[k] == detected[k];
        }
      }
      KeptClosedInOrder(init, minimum);
      if KeepsOpenPass(Last(detected).maxElevation, minimum) {
        OrderedBeforeLast(detected, KeptClosed(init, minimum));
      } else {
        assert KeptClosed(init, minimum) + [] == KeptClosed(init, minimum);
      }
    } else {
      KeptClosedInOrder(detected, minimum);
    }
  }

  /** A detected pass whose ends are inverted or equal carries the
      sentinel peak, which neither filter lets through: every listed pass
      ends after it starts, whenever the threshold is above the sentinel. */
  lemma ListedPassesForward(elev: int -> real, detected: seq<PassDetails>, openAtEnd: bool, minimum: real)
    requires PeaksRefined(elev, detected) && minimum > Sentinel
    ensures forall p :: p in ListedPasses(detected, openAtEnd, minimum) ==> p.aos < p.los
  {
    forall p | p in ListedPasses(detected, openAtEnd, minimum)
      ensures p.aos < p.los
    {
      if p.los <= p.aos {
        HillClimbEmptyWindow(elev, p.aos, p.los);
      }
    }
  }

  /** ListedPasses with the open pass put through the same degree filter. */
  function ListedPassesCorrected(detected: seq<PassDetails>, openAtEnd: bool, minimum: real): (r: seq<PassDetails>)
    ensures forall p :: p in r ==> p in detected && Rad2Deg * p.maxElevation >= minimum
    ensures forall p :: p in detected && Rad2Deg * p.maxElevation >= minimum ==> p in r
  {
    if openAtEnd && detected != [] then
      assert detected == AllButLast(detected) + [Last(detected)];
      KeptClosed(AllButLast(detected), minimum)
        + (if KeepsClosedPass(Last(detected).maxElevation, minimum) then [Last(detected)] else [])
    else
      KeptClosed(detected, minimum)
  }

  /** As written, a pass still open at the end is never listed at the
      default threshold: no elevation in radians reaches 5. */
  lemma OpenPassDroppedAtDefault(detected: seq<PassDetails>)
    requires detected != [] && Last(detected).maxElevation <= 1.5708
    ensures ListedPasses(detected, true, DefaultMinimumElevation) == KeptClosed(AllButLast(detected), DefaultMinimumElevation)
  {
  }

  /** A pass peaking at 0.5 rad (about 28.6 degrees) and still open at the
      end is dropped by the as-written filter but kept by the corrected one. */
  lemma OpenPassFilterMixesUnits()
    ensures var p := PassDetails(0, TicksPerSecond, 0.5);
      Rad2Deg * p.maxElevation >= DefaultMinimumElevation
      && ListedPasses([p], true, DefaultMinimumElevation) == []
      && ListedPassesCorrected([p], true, DefaultMinimumElevation) == [p]
  {
    var p := PassDetails(0, TicksPerSecond, 0.5);
    assert KeptClosed([], DefaultMinimumElevation) == [];
    assert AllButLast([p]) == [];
  }

  // ---------------------------------------------------------------------
  // The scanner's record of a run

  function Clamp(t: int, end: int): int
  {
    if t > end then end else t
  }

  ghost predicate SampledWithin(samples: seq<int>, lo: int, hi: int)
  {
    forall i :: 0 <= i < |samples| ==> lo <= samples[i] < hi
  }

  ghost predicate AllBelow(elev: int -> real, samples: seq<int>)
  {
    forall i :: 0 <= i < |samples| ==> elev(samples[i]) <= 0.0
  }

  ghost predicate AllAbove(elev: int -> real, samples: seq<int>)
  {
    forall i :: 0 <= i < |samples| ==> 0.0 < elev(samples[i])
  }

  /** Each detected pass carries the peak the hill-climb finds between its ends. */
  ghost predicate PeaksRefined(elev: int -> real, detected: seq<PassDetails>)
  {
    forall p :: p in detected ==> p.maxElevation == HillClimb(elev, p.aos, p.los)
  }

  /** The run's state machine: found_aos starts false and follows
      NextTracking, and each sample follows the previous one by its Gap. */
  ghost predicate Traced(elev: int -> real, timeStep: int, samples: seq<int>, tracking: seq<bool>)
  {
    |tracking| == |samples|
    && (tracking != [] ==> !tracking[0])
    && forall i :: 0 < i < |samples| ==>
      tracking[i] == NextTracking(tracking[i - 1], elev(samples[i - 1]))
      && samples[i] == samples[i - 1] + Gap(ClosesPass(tracking[i - 1], elev(samples[i - 1])), timeStep)
  }

  /** With a positive step, the instants a traced run samples strictly
      increase: the scan never stands still or goes back. */
  lemma {:induction false} SamplesIncrease(elev: int -> real, timeStep: int, samples: seq<int>, tracking: seq<bool>,
                                           i: int, j: int)
    requires timeStep > 0 && Traced(elev, timeStep, samples, tracking)
    requires 0 <= i < j < |samples|
    ensures samples[i] < samples[j]
    decreases j - i
  {
    assert samples[j] == samples[j - 1] + Gap(ClosesPass(tracking[j - 1], elev(samples[j - 1])), timeStep);
    if i < j - 1 {
      SamplesIncrease(elev, timeStep, samples, tracking, i, j - 1);
    }
  }

  lemma KeptClosedAppend(passes: seq<PassDetails>, p: PassDetails, minimum: real)
    ensures KeptClosed(passes + [p], minimum)
      == KeptClosed(passes, minimum) + (if KeepsClosedPass(p.maxElevation, minimum) then [p] else [])
  {
    assert AllButLast(passes + [p]) == passes;
  }

  lemma SignsAppended(elev: int -> real, samples: seq<int>, t: int)
    ensures AllBelow(elev, samples + [t]) <==> AllBelow(elev, samples) && elev(t) <= 0.0
    ensures AllAbove(elev, samples + [t]) <==> AllAbove(elev, samples) && 0.0 < elev(t)
  {
    assert (samples + [t])[|samples|] == t;
    assert forall i :: 0 <= i < |samples| ==> (samples + [t])[i] == samples[i];
  }

  /** The indices of the samples of a run that are rising (or falling)
      edges, in increasing order (EdgesExactly). */
  ghost function Edges(elev: int -> real, samples: seq<int>, tracking: seq<bool>, rising: bool): seq<nat>
    requires |tracking| == |samples|
    decreases |samples|
  {
    if samples == [] then []
    else
      var n := |samples| - 1;
      Edges(elev, samples[..n], tracking[..n], rising)
        + (if IsEdge(rising, tracking[n], elev(samples[n])) then [n] else [])
  }

  /** Edges lists every edge of the run, and nothing else, in increasing order. */
  lemma {:induction false} EdgesExactly(elev: int -> real, samples: seq<int>, tracking: seq<bool>, rising: bool)
    requires |tracking| == |samples|
    ensures var r := Edges(elev, samples, tracking, rising);
      (forall k :: 0 <= k < |r| ==> r[k] < |samples| && IsEdge(rising, tracking[r[k]], elev(samples[r[k]])))
      && (forall k, l :: 0 <= k < l < |r| ==> r[k] < r[l])
      && (forall i :: 0 <= i < |samples| && IsEdge(rising, tracking[i], elev(samples[i])) ==> i in r)
    decreases |samples|
  {
    if samples != [] {
      var n := |samples| - 1;
      EdgesExactly(elev, samples[..n], tracking[..n], rising);
    }
  }

  lemma EdgesAppend(elev: int -> real, samples: seq<int>, tracking: seq<bool>, rising: bool, t: int, b: bool)
    requires |tracking| == |samples|
    ensures Edges(elev, samples + [t], tracking + [b], rising)
      == Edges(elev, samples, tracking, rising) + (if IsEdge(rising, b, elev(t)) then [|samples|] else [])
  {
    assert (samples + [t])[..|samples|] == samples;
    assert (tracking + [b])[..|samples|] == tracking;
  }

  /** An acquisition at `aos` found at sample `r`: the start time when `r`
      is the first sample. Otherwise it is refined on the gap before sample
      `r`: when the bisection converges on the gap, a whole second between
      6 s before the previous sample and 1 s after sample `r`, and within the
      second before the crossing when the object rises once near the gap. */
  ghost predicate AosNear(elev: int -> real, samples: seq<int>, startTime: int, r: int, aos: int)
  {
    0 <= r < |samples|
    && (r == 0 ==> aos == startTime)
    && (0 < r && samples[r] - samples[r - 1] <= MaxConvergentSpan ==>
         samples[r - 1] - 6 * TicksPerSecond < aos <= samples[r] + TicksPerSecond && WholeSecond(aos))
    && (0 < r ==> RefinedRise(elev, samples[r - 1], samples[r], aos))
  }

  /** A loss of signal at `los` found at sample `c`, which is never the first,
      refined on the gap before it: when the bisection converges on the gap,
      a whole second between 2 s before the previous sample and 5 s after
      sample `c`, and within the second from the crossing on when the object
      sets once near the gap. */
  ghost predicate LosNear(elev: int -> real, samples: seq<int>, c: int, los: int)
  {
    0 < c < |samples|
    && (samples[c] - samples[c - 1] <= MaxConvergentSpan ==>
         samples[c - 1] - 2 * TicksPerSecond < los <= samples[c] + 5 * TicksPerSecond && WholeSecond(los))
    && RefinedSet(elev, samples[c - 1], samples[c], los)
  }

  lemma NearExtends(elev: int -> real, samples: seq<int>, t: int, startTime: int, i: int, instant: int)
    ensures AosNear(elev, samples, startTime, i, instant) ==> AosNear(elev, samples + [t], startTime, i, instant)
    ensures LosNear(elev, samples, i, instant) ==> LosNear(elev, samples + [t], i, instant)
  {
    if 0 <= i < |samples| {
      assert (samples + [t])[i] == samples[i];
      if 0 < i {
        assert (samples + [t])[i - 1] == samples[i - 1];
      }
    }
  }

  /** Rising and falling edges alternate, starting with a rising edge: the
      k-th falling edge comes after the k-th rising edge and before every
      later one. */
  ghost predicate Alternate(opens: seq<nat>, closes: seq<nat>)
  {
    (forall k :: 0 <= k < |closes| && k < |opens| ==> opens[k] < closes[k])
    && (forall k, l :: 0 <= k < l < |opens| && k < |closes| ==> closes[k] < opens[l])
  }

  /** The passes `detected` against the rising edges `opens` and falling
      edges `closes` of a run: one pass per rising edge, in order, each
      closed by the falling edge that follows, except a pass still open at
      the end; every AOS lies near its rising edge and every LOS of a closed
      pass near its falling edge. */
  ghost predicate PassesNear(elev: int -> real, samples: seq<int>, startTime: int, opens: seq<nat>, closes: seq<nat>,
                             detected: seq<PassDetails>, openAtEnd: bool)
  {
    |opens| == |detected|
    && |closes| + (if openAtEnd then 1 else 0) == |detected|
    && Alternate(opens, closes)
    && (forall k :: 0 <= k < |detected| ==> AosNear(elev, samples, startTime, opens[k], detected[k].aos))
    && (forall k :: 0 <= k < |closes| ==> LosNear(elev, samples, closes[k], detected[k].los))
  }

  /** The passes a run detects, read off its trace (see PassesNear). */
  ghost predicate PassesOfTrace(elev: int -> real, startTime: int, samples: seq<int>, tracking: seq<bool>,
                                detected: seq<PassDetails>, openAtEnd: bool)
  {
    |tracking| == |samples|
    && PassesNear(elev, samples, startTime, Edges(elev, samples, tracking, true), Edges(elev, samples, tracking, false),
                  detected, openAtEnd)
  }

  /** The scan's bookkeeping while it runs: the closed passes `detected`
      against the edges so far, and, when a pass is in progress, its AOS
      near the last rising edge. */
  ghost predicate ClosedNear(elev: int -> real, samples: seq<int>, startTime: int, opens: seq<nat>, closes: seq<nat>,
                             detected: seq<PassDetails>, foundAos: bool, aosTime: int)
  {
    |closes| == |detected|
    && |opens| == |detected| + (if foundAos then 1 else 0)
    && Alternate(opens, closes)
    && (forall k :: 0 <= k < |detected| ==> AosNear(elev, samples, startTime, opens[k], detected[k].aos))
    && (forall k :: 0 <= k < |detected| ==> LosNear(elev, samples, closes[k], detected[k].los))
    && (foundAos ==> AosNear(elev, samples, startTime, Last(opens), aosTime))
  }

  /** The scan's loop invariant for what it detected. */
  ghost predicate DetectedSoFar(elev: int -> real, startTime: int, samples: seq<int>, tracking: seq<bool>,
                                detected: seq<PassDetails>, foundAos: bool, aosTime: int)
  {
    |tracking| == |samples|
    && ClosedNear(elev, samples, startTime, Edges(elev, samples, tracking, true), Edges(elev, samples, tracking, false),
                  detected, foundAos, aosTime)
  }

  /** A sample that is no edge leaves the bookkeeping as it was. */
  lemma NoEdgeKeeps(elev: int -> real, samples: seq<int>, t: int, startTime: int, opens: seq<nat>, closes: seq<nat>,
                    detected: seq<PassDetails>, foundAos: bool, aosTime: int)
    requires ClosedNear(elev, samples, startTime, opens, closes, detected, foundAos, aosTime)
    ensures ClosedNear(elev, samples + [t], startTime, opens, closes, detected, foundAos, aosTime)
  {
    forall k | 0 <= k < |detected|
      ensures AosNear(elev, samples + [t], startTime, opens[k], detected[k].aos)
        && LosNear(elev, samples + [t], closes[k], detected[k].los)
    {
      NearExtends(elev, samples, t, startTime, opens[k], detected[k].aos);
      NearExtends(elev, samples, t, startTime, closes[k], detected[k].los);
    }
    if foundAos {
      NearExtends(elev, samples, t, startTime, Last(opens), aosTime);
    }
  }

  /** A rising edge at sample `|samples|` starts a pass dated near it. */
  lemma RisingEdgeKeeps(elev: int -> real, samples: seq<int>, t: int, startTime: int, opens: seq<nat>, closes: seq<nat>,
                        detected: seq<PassDetails>, aosTime: int)
    requires ClosedNear(elev, samples, startTime, opens, closes, detected, false, aosTime)
    requires AosNear(elev, samples + [t], startTime, |samples|, aosTime)
    ensures ClosedNear(elev, samples + [t], startTime, opens + [|samples|], closes, detected, true, aosTime)
  {
    NoEdgeKeeps(elev, samples, t, startTime, opens, closes, detected, false, aosTime);
    assert Last(opens + [|samples|]) == |samples|;
  }

  /** A falling edge at sample `|samples|` closes the pass in progress. */
  lemma FallingEdgeKeeps(elev: int -> real, samples: seq<int>, t: int, startTime: int, opens: seq<nat>, closes: seq<nat>,
                         detected: seq<PassDetails>, aosTime: int, p: PassDetails)
    requires ClosedNear(elev, samples, startTime, opens, closes, detected, true, aosTime)
    requires p.aos == aosTime && LosNear(elev, samples + [t], |samples|, p.los)
    ensures ClosedNear(elev, samples + [t], startTime, opens, closes + [|samples|], detected + [p], false, aosTime)
  {
    NoEdgeKeeps(elev, samples, t, startTime, opens, closes, detected, true, aosTime);
    var d := detected + [p];
    assert Last(opens) == opens[|detected|];
    forall k | 0 <= k < |d|
      ensures AosNear(elev, samples + [t], startTime, opens[k], d[k].aos)
    {
      if k < |detected| {
        assert d[k] == detected[k];
      }
    }
  }

  /** One more sample, handled as the scan's loop body handles it, keeps
      DetectedSoFar: a rising edge starts a pass dated near it, a falling
      edge closes the pass in progress with a LOS near it. */
  lemma DetectedAdvances(elev: int -> real, startTime: int, samples: seq<int>, tracking: seq<bool>,
                         detected: seq<PassDetails>, foundAos: bool, aosTime: int, sampleTime: int,
                         nextAosTime: int, closed: Option<PassDetails>)
    requires DetectedSoFar(elev, startTime, samples, tracking, detected, foundAos, aosTime)
    requires samples == [] ==> sampleTime == startTime && !foundAos
    requires samples != [] ==> Last(samples) <= sampleTime
    requires OpensPass(foundAos, elev(sampleTime)) && sampleTime == startTime ==> nextAosTime == startTime
    requires OpensPass(foundAos, elev(sampleTime)) && samples != [] && sampleTime <= Last(samples) + MaxConvergentSpan ==>
      Last(samples) - 6 * TicksPerSecond < nextAosTime <= sampleTime + TicksPerSecond && WholeSecond(nextAosTime)
    requires OpensPass(foundAos, elev(sampleTime)) && samples != [] ==>
      RefinedRise(elev, Last(samples), sampleTime, nextAosTime)
    requires !OpensPass(foundAos, elev(sampleTime)) ==> nextAosTime == aosTime
    requires closed.Some? <==> ClosesPass(foundAos, elev(sampleTime))
    requires closed.Some? ==> closed.value.aos == aosTime
    requires closed.Some? && samples != [] && sampleTime <= Last(samples) + MaxConvergentSpan ==>
      Last(samples) - 2 * TicksPerSecond < closed.value.los <= sampleTime + 5 * TicksPerSecond && WholeSecond(closed.value.los)
    requires closed.Some? && samples != [] ==> RefinedSet(elev, Last(samples), sampleTime, closed.value.los)
    ensures DetectedSoFar(elev, startTime, samples + [sampleTime], tracking + [foundAos],
                          detected + (if closed.Some? then [closed.value] else []),
                          NextTracking(foundAos, elev(sampleTime)), nextAosTime)
  {
    var s, n := samples + [sampleTime], |samples|;
    var opens, closes := Edges(elev, samples, tracking, true), Edges(elev, samples, tracking, false);
    var opens', closes' := Edges(elev, s, tracking + [foundAos], true), Edges(elev, s, tracking + [foundAos], false);
    var next := detected + (if closed.Some? then [closed.value] else []);
    EdgesAppend(elev, samples, tracking, true, sampleTime, foundAos);
    EdgesAppend(elev, samples, tracking, false, sampleTime, foundAos);
    assert s[n] == sampleTime;
    if n > 0 {
      assert s[n - 1] == Last(samples);
    }
    if OpensPass(foundAos, elev(sampleTime)) {
      assert opens' == opens + [n] && closes' == closes && next == detected;
      assert AosNear(elev, s, startTime, n, nextAosTime);
      RisingEdgeKeeps(elev, samples, sampleTime, startTime, opens, closes, detected, nextAosTime);
      assert ClosedNear(elev, s, startTime, opens', closes', next, true, nextAosTime);
    } else if closed.Some? {
      assert opens' == opens && closes' == closes + [n] && next == detected + [closed.value];
      assert LosNear(elev, s, n, closed.value.los);
      FallingEdgeKeeps(elev, samples, sampleTime, startTime, opens, closes, detected, aosTime, closed.value);
      assert ClosedNear(elev, s, startTime, opens', closes', next, false, nextAosTime);
    } else {
      assert opens' == opens && closes' == closes && next == detected;
      NoEdgeKeeps(elev, samples, sampleTime, startTime, opens, closes, detected, foundAos, aosTime);
      assert ClosedNear(elev, s, startTime, opens', closes', next, foundAos, nextAosTime);
    }
  }

  /** At the end of the scan, a pass still in progress is appended with the
      AOS the scan recorded: the detected passes are those of the trace. */
  lemma DetectedAtEnd(elev: int -> real, startTime: int, samples: seq<int>, tracking: seq<bool>,
                      detected: seq<PassDetails>, foundAos: bool, aosTime: int, open: PassDetails)
    requires DetectedSoFar(elev, startTime, samples, tracking, detected, foundAos, aosTime)
    requires open.aos == aosTime
    ensures PassesOfTrace(elev, startTime, samples, tracking, detected + (if foundAos then [open] else []), foundAos)
  {
    var d := detected + (if foundAos then [open] else []);
    assert forall k :: 0 <= k < |detected| ==> d[k] == detected[k];
  }

  /** A run sampled at 0 s, 1 s and 2 s that sees the object below, above
      and below the horizon detects exactly one pass, closed, with its AOS
      near the second sample and its LOS near the third. */
  lemma RiseThenFallDetectsOnePass(elev: int -> real, detected: seq<PassDetails>, openAtEnd: bool)
    requires elev(0) < 0.0 < elev(TicksPerSecond) && elev(2 * TicksPerSecond) < 0.0
    requires PassesOfTrace(elev, 0, [0, TicksPerSecond, 2 * TicksPerSecond], [false, false, true], detected, openAtEnd)
    ensures |detected| == 1 && !openAtEnd
    ensures -6 * TicksPerSecond < detected[0].aos <= 2 * TicksPerSecond
    ensures -TicksPerSecond < detected[0].los <= 7 * TicksPerSecond
  {
    RiseThenFallEdges(elev);
  }

  lemma RiseThenFallEdges(elev: int -> real)
    requires elev(0) < 0.0 < elev(TicksPerSecond) && elev(2 * TicksPerSecond) < 0.0
    ensures Edges(elev, [0, TicksPerSecond, 2 * TicksPerSecond], [false, false, true], true) == [1]
    ensures Edges(elev, [0, TicksPerSecond, 2 * TicksPerSecond], [false, false, true], false) == [2]
  {
    var samples, tracking := [0, TicksPerSecond, 2 * TicksPerSecond], [false, false, true];
    var s2, t2 := samples[..2], tracking[..2];
    assert s2 == [0, TicksPerSecond] && t2 == [false, false];
    var s1, t1 := s2[..1], t2[..1];
    assert s1 == [0] && t1 == [false];
    assert s1[..0] == [] && t1[..0] == [];
    assert Edges(elev, s1[..0], t1[..0], true) == [] && Edges(elev, s1[..0], t1[..0], false) == [];
    assert Edges(elev, s1, t1, true) == [] && Edges(elev, s1, t1, false) == [];
    assert Edges(elev, s2, t2, true) == [1] && Edges(elev, s2, t2, false) == [];
  }

  /** A run sampled at 0 s and 180 s, with the object rising once at 100 s,
      detects one pass, still open at the end, whose AOS is 99 s: the
      last whole second before the rise, not merely a point of the gap. */
  lemma RiseInGapDatedToTheSecond(elev: int -> real, detected: seq<PassDetails>, openAtEnd: bool)
    requires RisesAt(elev, 100 * TicksPerSecond, 0, 180 * TicksPerSecond)
    requires PassesOfTrace(elev, 0, [0, 180 * TicksPerSecond], [false, false], detected, openAtEnd)
    ensures |detected| == 1 && openAtEnd
    ensures detected[0].aos == 99 * TicksPerSecond
  {
    var samples, tracking := [0, 180 * TicksPerSecond], [false, false];
    assert elev(0) <= 0.0 && 0.0 < elev(180 * TicksPerSecond);
    assert samples[..1] == [0] && tracking[..1] == [false];
    assert [0][..0] == [] && [false][..0] == [];
    assert Edges(elev, [0][..0], [false][..0], true) == [] && Edges(elev, [0][..0], [false][..0], false) == [];
    assert Edges(elev, [0], [false], true) == [] && Edges(elev, [0], [false], false) == [];
    assert Edges(elev, samples, tracking, true) == [1] && Edges(elev, samples, tracking, false) == [];
    var aos := detected[0].aos;
    assert AosNear(elev, samples, 0, 1, aos);
    assert aos < 100 * TicksPerSecond <= aos + TicksPerSecond;
    assert aos % TicksPerSecond == 0;
  }

  /** A run sampled at 0 s and 180 s, with the object above the horizon at
      the start and setting once at 100 s, detects one closed pass dated
      from the start to 100 s, the first whole second from the set on. */
  lemma SetInGapDatedToTheSecond(elev: int -> real, detected: seq<PassDetails>, openAtEnd: bool)
    requires SetsAt(elev, 100 * TicksPerSecond, 0, 180 * TicksPerSecond) && elev(180 * TicksPerSecond) < 0.0
    requires PassesOfTrace(elev, 0, [0, 180 * TicksPerSecond], [false, true], detected, openAtEnd)
    ensures |detected| == 1 && !openAtEnd
    ensures detected[0].aos == 0 && detected[0].los == 100 * TicksPerSecond
  {
    var samples, tracking := [0, 180 * TicksPerSecond], [false, true];
    assert 0.0 < elev(0);
    assert samples[..1] == [0] && tracking[..1] == [false];
    assert [0][..0] == [] && [false][..0] == [];
    assert Edges(elev, [0][..0], [false][..0], true) == [] && Edges(elev, [0][..0], [false][..0], false) == [];
    assert Edges(elev, [0], [false], true) == [0] && Edges(elev, [0], [false], false) == [];
    assert Edges(elev, samples, tracking, true) == [0] && Edges(elev, samples, tracking, false) == [1];
    var los := detected[0].los;
    assert LosNear(elev, samples, 1, los);
    assert 100 * TicksPerSecond <= los < 101 * TicksPerSecond;
    assert los % TicksPerSecond == 0;
  }

  /** With a step of at least 7 s and at most 65535 s, the passes of a
      trace are in strictly increasing order of AOS: each bisection for an
      AOS converges, and the next rising edge comes at least one full step
      after the previous one, more than the 6 s an AOS can lie before its
      bracket plus the 1 s it can lie after. */
  lemma {:induction false} PassesInOrder(elev: int -> real, timeStep: int, startTime: int, samples: seq<int>,
                                         tracking: seq<bool>, detected: seq<PassDetails>, openAtEnd: bool)
    requires 7 <= timeStep <= 65535
    requires Traced(elev, timeStep, samples, tracking)
    requires samples != [] ==> samples[0] == startTime
    requires PassesOfTrace(elev, startTime, samples, tracking, detected, openAtEnd)
    ensures InAosOrder(detected)
  {
    forall k | 0 <= k < |detected| - 1
      ensures detected[k].aos < detected[k + 1].aos
    {
      NextAcquisitionLater(elev, timeStep, startTime, samples, tracking, detected, openAtEnd, k);
    }
    forall j, k | 0 <= j < k < |detected|
      ensures detected[j].aos < detected[k].aos
    {
      AcquisitionsIncrease(detected, j, k);
    }
  }

  lemma NextAcquisitionLater(elev: int -> real, timeStep: int, startTime: int, samples: seq<int>,
                             tracking: seq<bool>, detected: seq<PassDetails>, openAtEnd: bool, k: int)
    requires 7 <= timeStep <= 65535
    requires Traced(elev, timeStep, samples, tracking)
    requires samples != [] ==> samples[0] == startTime
    requires PassesOfTrace(elev, startTime, samples, tracking, detected, openAtEnd)
    requires 0 <= k < |detected| - 1
    ensures detected[k].aos < detected[k + 1].aos
  {
    var opens, closes := Edges(elev, samples, tracking, true), Edges(elev, samples, tracking, false);
    EdgesExactly(elev, samples, tracking, true);
    assert opens[k] < closes[k] < opens[k + 1];
    AcquisitionsApart(elev, timeStep, startTime, samples, tracking, opens[k], closes[k], opens[k + 1],
                      detected[k].aos, detected[k + 1].aos);
  }

  /** The AOS dated at rising edge `r` precedes the one dated at the next
      rising edge `r2`, which comes after the falling edge `c` between them. */
  lemma AcquisitionsApart(elev: int -> real, timeStep: int, startTime: int, samples: seq<int>,
                          tracking: seq<bool>, r: int, c: int, r2: int, aos: int, aos2: int)
    requires 7 <= timeStep <= 65535
    requires Traced(elev, timeStep, samples, tracking)
    requires samples != [] ==> samples[0] == startTime
    requires 0 <= r < c < r2 < |samples| && !tracking[r]
    requires AosNear(elev, samples, startTime, r, aos) && AosNear(elev, samples, startTime, r2, aos2)
    ensures aos < aos2
  {
    GapConverges(elev, timeStep, samples, tracking, r2);
    if r > 0 {
      GapConverges(elev, timeStep, samples, tracking, r);
    }
    assert samples[r + 1] == samples[r] + timeStep * TicksPerSecond;
    if r + 1 < r2 - 1 {
      SamplesIncrease(elev, timeStep, samples, tracking, r + 1, r2 - 1);
    }
  }

  /** With a step of at most 65535 s every gap between samples is one the
      bisection narrows below a second. */
  lemma GapConverges(elev: int -> real, timeStep: int, samples: seq<int>, tracking: seq<bool>, i: int)
    requires 0 < timeStep <= 65535
    requires Traced(elev, timeStep, samples, tracking)
    requires 0 < i < |samples|
    ensures 0 < samples[i] - samples[i - 1] <= MaxConvergentSpan
  {
  }

  lemma {:induction false} AcquisitionsIncrease(detected: seq<PassDetails>, j: int, k: int)
    requires forall i :: 0 <= i < |detected| - 1 ==> detected[i].aos < detected[i + 1].aos
    requires 0 <= j < k < |detected|
    ensures detected[j].aos < detected[k].aos
    decreases k - j
  {
    if j < k - 1 {
      AcquisitionsIncrease(detected, j, k - 1);
    }
  }

  /** Where the scan stands before the sample at `currentTime`: the
      samples so far start at `startTime`, follow the state machine, and
      `currentTime` is the clamped instant after the last of them, with
      `foundAos` the state it left behind. */
  ghost predicate Scanning(elev: int -> real, timeStep: int, startTime: int, endTime: int,
                           samples: seq<int>, tracking: seq<bool>,
                           previousTime: int, foundAos: bool, currentTime: int)
  {
    startTime <= currentTime
    && SampledWithin(samples, startTime, currentTime)
    && Traced(elev, timeStep, samples, tracking)
    && (samples == [] ==> currentTime == startTime && !foundAos)
    && (samples != [] ==>
         samples[0] == startTime && currentTime <= endTime
         && previousTime == Last(samples)
         && foundAos == NextTracking(Last(tracking), elev(Last(samples)))
         && currentTime == Clamp(Last(samples) + Gap(ClosesPass(Last(tracking), elev(Last(samples))), timeStep), endTime))
  }

  /** Taking the sample at `sampleTime` keeps the record of the run consistent. */
  lemma ScanningAdvances(elev: int -> real, timeStep: int, startTime: int, endTime: int,
                         samples: seq<int>, tracking: seq<bool>,
                         previousTime: int, foundAos: bool, sampleTime: int,
                         nextTracking: bool, nextTime: int)
    requires timeStep > 0 && sampleTime < endTime
    requires Scanning(elev, timeStep, startTime, endTime, samples, tracking, previousTime, foundAos, sampleTime)
    requires nextTracking == NextTracking(foundAos, elev(sampleTime))
    requires nextTime == Clamp(sampleTime + Gap(ClosesPass(foundAos, elev(sampleTime)), timeStep), endTime)
    ensures Scanning(elev, timeStep, startTime, endTime, samples + [sampleTime], tracking + [foundAos],
                     sampleTime, nextTracking, nextTime)
  {
    var s, k := samples + [sampleTime], tracking + [foundAos];
    assert Last(s) == sampleTime && Last(k) == foundAos;
    forall i | 0 < i < |s|
      ensures k[i] == NextTracking(k[i - 1], elev(s[i - 1]))
        && s[i] == s[i - 1] + Gap(ClosesPass(k[i - 1], elev(s[i - 1])), timeStep)
    {
      if i == |samples| {
        assert s[i - 1] == Last(samples) && k[i - 1] == Last(tracking);
      }
    }
  }

  /** What the scan has detected so far, in the boundary cases: a pass
      visible at the very start is dated from the start, a run of samples
      all below the horizon detects nothing and ends with found_aos false,
      and a run of samples all above it detects nothing and is still
      tracking the pass that was visible at the start. */
  ghost predicate Bounded(elev: int -> real, startTime: int, endTime: int, samples: seq<int>,
                          detected: seq<PassDetails>, foundAos: bool, aosTime: int)
  {
    (samples == [] ==> detected == [])
    && (startTime < endTime && 0.0 < elev(startTime) && samples != [] ==>
         (detected == [] ==> foundAos && aosTime == startTime)
         && (detected != [] ==> detected[0].aos == startTime))
    && (AllBelow(elev, samples) ==> detected == [] && !foundAos)
    && (samples != [] && AllAbove(elev, samples) ==> detected == [] && foundAos && aosTime == startTime)
  }

  /** The sample at `sampleTime`, handled as the scan's loop body handles
      it, keeps Bounded. */
  lemma BoundedAdvances(elev: int -> real, startTime: int, endTime: int, samples: seq<int>,
                        detected: seq<PassDetails>, foundAos: bool, aosTime: int, sampleTime: int,
                        nextTracking: bool, nextAosTime: int, nextDetected: seq<PassDetails>)
    requires Bounded(elev, startTime, endTime, samples, detected, foundAos, aosTime)
    requires samples == [] ==> sampleTime == startTime && !foundAos
    requires samples != [] ==> samples[0] == startTime
    requires nextTracking == NextTracking(foundAos, elev(sampleTime))
    requires !foundAos && 0.0 < elev(sampleTime) && startTime == sampleTime ==> nextAosTime == startTime
    requires foundAos || elev(sampleTime) <= 0.0 ==> nextAosTime == aosTime
    requires !ClosesPass(foundAos, elev(sampleTime)) ==> nextDetected == detected
    requires ClosesPass(foundAos, elev(sampleTime)) ==>
      |nextDetected| == |detected| + 1 && nextDetected[..|detected|] == detected && nextDetected[|detected|].aos == aosTime
    ensures Bounded(elev, startTime, endTime, samples + [sampleTime], nextDetected, nextTracking, nextAosTime)
  {
    SignsAppended(elev, samples, sampleTime);
    assert (samples + [sampleTime])[0] == if samples == [] then sampleTime else samples[0];
    if ClosesPass(foundAos, elev(sampleTime)) && detected != [] {
      assert nextDetected[0] == nextDetected[..|detected|][0];
    }
  }

  // ---------------------------------------------------------------------

  class PassCalculator {
    /** The minimum peak elevation, in degrees, a pass needs to be listed
        (the source spells the field miniumElevation). */
    var miniumElevation: real

    constructor ()
      ensures miniumElevation == DefaultMinimumElevation
    {
      miniumElevation := DefaultMinimumElevation;
    }

    method SetMiniumElevation(elev: real)
      modifies this
      ensures miniumElevation == elev
    {
      miniumElevation := elev;
    }

    /** One bisection of FindCrossingPoint's bracket: the midpoint, and the
        half of the bracket that still straddles the horizon. The midpoint
        replaces the end on its own side of the crossing: the pass side
        when the elevation there is above the horizon. */
    static method Halve(elev: int -> real, time1: int, time2: int, findingAos: bool)
      returns (middle: int, newTime1: int, newTime2: int)
      ensures middle == time1 + CDiv(time2 - time1, 2)
      ensures 0.0 < elev(middle) && findingAos ==> newTime1 == time1 && newTime2 == middle
      ensures 0.0 < elev(middle) && !findingAos ==> newTime1 == middle && newTime2 == time2
      ensures elev(middle) <= 0.0 && findingAos ==> newTime1 == middle && newTime2 == time2
      ensures elev(middle) <= 0.0 && !findingAos ==> newTime1 == time1 && newTime2 == middle
    {
      newTime1, newTime2 := time1, time2;
      HalfSpanTicks(time1, time2 - time1);
      middle := AddSeconds(time1, TotalSeconds(time2 - time1) / 2.0);
      if elev(middle) > 0.0 {
        if findingAos { newTime2 := middle; } else { newTime1 := middle; }
      } else {
        if findingAos { newTime1 := middle; } else { newTime2 := middle; }
      }
    }

    /** The end of phase 1: the midpoint loses its microseconds and moves
        one second into the pass (later for an AOS, earlier for a LOS). */
    static method RoundIntoPass(middle: int, findingAos: bool) returns (rounded: int)
      ensures rounded == middle - Microsecond(middle) + (if findingAos then TicksPerSecond else -TicksPerSecond)
      ensures WholeSecond(rounded)
      ensures findingAos ==> middle < rounded <= middle + TicksPerSecond
      ensures !findingAos ==> middle - 2 * TicksPerSecond < rounded <= middle - TicksPerSecond
    {
      DropMicroseconds(middle, if findingAos then 1 else -1);
      var us := Microsecond(middle);
      rounded := AddMicroseconds(middle, (-us) as real);
      WholeSecondsTicks(rounded, if findingAos then 1 else -1);
      rounded := AddSeconds(rounded, if findingAos then 1.0 else -1.0);
    }

    /** Phase 1 of FindCrossingPoint: at most 16 bisections of the bracket.
        `lo` and `hi` are the final bracket ends and `unrounded` the last
        midpoint, which is always one of them. Once the bracket is under a
        second the midpoint loses its microseconds and moves one second into
        the pass, and `converged` is set. */
    static method Bisect(elev: int -> real, time1: int, time2: int, findingAos: bool)
      returns (middle: int, converged: bool, ghost lo: int, ghost hi: int, ghost unrounded: int)
      ensures time1 <= time2 ==> time1 <= lo <= hi <= time2
      ensures unrounded == lo || unrounded == hi
      ensures findingAos ==> (lo == time1 || elev(lo) <= 0.0) && (hi == time2 || 0.0 < elev(hi))
      ensures !findingAos ==> (lo == time1 || 0.0 < elev(lo)) && (hi == time2 || elev(hi) <= 0.0)
      ensures converged ==> hi - lo < TicksPerSecond && WholeSecond(middle)
      ensures converged ==> middle == unrounded - Microsecond(unrounded) + (if findingAos then TicksPerSecond else -TicksPerSecond)
      ensures !converged ==> middle == unrounded && TicksPerSecond <= hi - lo
      ensures time2 - time1 <= MaxConvergentSpan ==> converged
    {
      var t1, t2 := time1, time2;
      var running := true;
      var cnt := 0;
      middle := 0;  // a default-constructed DateTime
      unrounded := t1;
      Pow2Sixteen();
      while running && cnt < 16
        invariant 0 <= cnt <= 16
        invariant time1 <= time2 ==> time1 <= t1 <= t2 <= time2
        invariant findingAos ==> (t1 == time1 || elev(t1) <= 0.0) && (t2 == time2 || 0.0 < elev(t2))
        invariant !findingAos ==> (t1 == time1 || 0.0 < elev(t1)) && (t2 == time2 || elev(t2) <= 0.0)
        invariant cnt > 0 ==> unrounded == t1 || unrounded == t2
        invariant cnt > 0 && running ==> middle == unrounded && TicksPerSecond <= t2 - t1
        invariant !running ==> cnt > 0 && t2 - t1 < TicksPerSecond && WholeSecond(middle)
        invariant !running ==> middle == unrounded - Microsecond(unrounded) + (if findingAos then TicksPerSecond else -TicksPerSecond)
        invariant running && time2 - time1 <= MaxConvergentSpan ==> t2 - t1 <= 999999 * Pow2(16 - cnt)
        decreases 16 - cnt
      {
        ghost var bound := 999999 * Pow2(16 - cnt);
        cnt := cnt + 1;
        ghost var half := 999999 * Pow2(16 - cnt);
        assert bound == 2 * half;
        ghost var (was1, was2) := (t1, t2);
        middle, t1, t2 := Halve(elev, t1, t2, findingAos);
        if was1 <= was2 {
          HalvingFits(was1, was2, middle, half);
        }
        unrounded := middle;
        UnderOneSecond(t2 - t1);
        if TotalSeconds(t2 - t1) < 1.0 {
          running := false;
          middle := RoundIntoPass(middle, findingAos);
        }
      }
      if running {
        assert cnt == 16 && Pow2(0) == 1;
      }
      converged := !running;
      lo, hi := t1, t2;
    }

    /** Phase 2 of FindCrossingPoint: at most 6 whole-second steps away from
        the pass while the elevation is above the horizon. `steps` is how
        many were taken. */
    static method StepOut(elev: int -> real, start: int, findingAos: bool) returns (t: int, ghost steps: nat)
      ensures steps <= 6 && t == Outward(start, steps, findingAos)
      ensures forall j :: 0 <= j < steps ==> 0.0 < elev(Outward(start, j, findingAos))
      ensures steps < 6 ==> elev(t) <= 0.0
    {
      var running := true;
      var cnt := 0;
      t, steps := start, 0;
      while running && cnt < 6
        invariant 0 <= steps <= cnt <= 6
        invariant t == Outward(start, steps, findingAos)
        invariant forall j :: 0 <= j < steps ==> 0.0 < elev(Outward(start, j, findingAos))
        invariant running ==> steps == cnt
        invariant !running ==> elev(t) <= 0.0
        decreases 6 - cnt
      {
        cnt := cnt + 1;
        if elev(t) > 0.0 {
          WholeSecondsTicks(t, if findingAos then -1 else 1);
          t := AddSeconds(t, if findingAos then -1.0 else 1.0);
          steps := steps + 1;
        } else {
          running := false;
        }
      }
    }

    /** PassCalculator::FindCrossingPoint. The result is the first
        whole-second instant at or below the horizon on the far side of the
        crossing from the pass, unless six steps did not reach one. */
    static method FindCrossingPoint(elev: int -> real, time1: int, time2: int, findingAos: bool) returns (crossing: int)
      ensures time2 - time1 <= MaxConvergentSpan ==> WholeSecond(crossing)
      ensures elev(crossing) <= 0.0 || forall j :: 1 <= j <= 6 ==> 0.0 < elev(Inward(crossing, j, findingAos))
      ensures time1 <= time2 <= time1 + MaxConvergentSpan && findingAos ==>
        time1 - 6 * TicksPerSecond < crossing <= time2 + TicksPerSecond
      ensures time1 <= time2 <= time1 + MaxConvergentSpan && !findingAos ==>
        time1 - 2 * TicksPerSecond < crossing <= time2 + 5 * TicksPerSecond
      ensures findingAos ==> RefinedRise(elev, time1, time2, crossing)
      ensures !findingAos ==> RefinedSet(elev, time1, time2, crossing)
    {
      var middle, converged, lo, hi, unrounded := Bisect(elev, time1, time2, findingAos);
      ghost var steps;
      crossing, steps := StepOut(elev, middle, findingAos);
      if steps == 6 {
        forall j | 1 <= j <= 6
          ensures 0.0 < elev(Inward(crossing, j, findingAos))
        {
          assert Inward(crossing, j, findingAos) == Outward(middle, 6 - j, findingAos);
        }
      }
      forall t0 | findingAos && RisesAt(elev, t0, time1, time2)
                  && time1 < t0 <= time2 <= time1 + MaxConvergentSpan
        ensures crossing < t0 <= crossing + TicksPerSecond
      {
        RiseFound(elev, time1, time2, t0, lo, hi, unrounded, middle, crossing, steps);
      }
      forall t0 | !findingAos && SetsAt(elev, t0, time1, time2)
                  && time1 < t0 <= time2 <= time1 + MaxConvergentSpan
        ensures t0 <= crossing < t0 + TicksPerSecond
      {
        SetFound(elev, time1, time2, t0, lo, hi, unrounded, middle, crossing, steps);
      }
    }

    /** One round's walk of FindMaxElevation: from `start`, step forward
        while before `time2` and while each sample is strictly higher than
        the last. */
    static method Walk(elev: int -> real, start: int, time2: int, timeStep: real)
      returns (currentTime: int, maxElevation: real)
      requires 0.0 <= timeStep || time2 <= start
      ensures (currentTime, maxElevation) == Climb(elev, start, time2, timeStep, Sentinel)
    {
      var running := true;
      currentTime := start;
      maxElevation := Sentinel;
      while running && currentTime < time2
        invariant 0.0 <= timeStep || time2 <= currentTime
        invariant running ==>
          Climb(elev, currentTime, time2, timeStep, maxElevation) == Climb(elev, start, time2, timeStep, Sentinel)
        invariant !running ==> (currentTime, maxElevation) == Climb(elev, start, time2, timeStep, Sentinel)
        decreases time2 - currentTime, if !running then 0 else if maxElevation < elev(currentTime) then 2 else 1
      {
        var elevation := elev(currentTime);
        if elevation > maxElevation {
          maxElevation := elevation;
          currentTime := AddSeconds(currentTime, timeStep);
          if currentTime > time2 {
            currentTime := time2;
          }
        } else {
          running := false;
        }
      }
    }

    /** PassCalculator::FindMaxElevation: the hill-climb of HillClimbing,
        run with the source's loops. */
    static method FindMaxElevation(elev: int -> real, aos: int, los: int) returns (maxElevation: real)
      ensures maxElevation == HillClimb(elev, aos, los)
    {
      var timeStep := TotalSeconds(los - aos) / 9.0;
      var currentTime := aos;
      var time1 := aos;
      var time2 := los;
      maxElevation := Sentinel;
      while true
        invariant timeStep == StepOf(time2 - currentTime)
        invariant HillClimb(elev, currentTime, time2) == HillClimb(elev, aos, los)
        decreases time2 - currentTime
      {
        ghost var stop, best, next := HillClimbRound(elev, currentTime, time2);
        currentTime, maxElevation := Walk(elev, currentTime, time2, timeStep);
        time1 := AddSeconds(currentTime, -2.0 * timeStep);
        time2 := currentTime;
        currentTime := time1;
        timeStep := TotalSeconds(time2 - time1) / 9.0;
        assert currentTime == next && time2 == stop && timeStep == StepOf(stop - next);
        if timeStep <= 1.0 {
          break;
        }
      }
    }

    /** The body of GeneratePassList's loop for the sample at `currentTime`:
        the new found_aos, the new aos_time, and the pass the sample closes,
        if any. An acquisition at the very start of the scan is dated at the
        start; any other is refined between the previous sample and this one,
        and so is a loss of signal. */
    static method TakeSample(elev: int -> real, startTime: int, previousTime: int, currentTime: int,
                             foundAos: bool, aosTime: int)
      returns (tracking: bool, newAosTime: int, closed: Option<PassDetails>)
      ensures tracking == NextTracking(foundAos, elev(currentTime))
      ensures closed.Some? <==> ClosesPass(foundAos, elev(currentTime))
      ensures closed.Some? ==>
        closed.value.aos == aosTime && closed.value.maxElevation == HillClimb(elev, aosTime, closed.value.los)
      ensures closed.Some? && previousTime <= currentTime <= previousTime + MaxConvergentSpan ==>
        previousTime - 2 * TicksPerSecond < closed.value.los <= currentTime + 5 * TicksPerSecond
      ensures closed.Some? ==>
        (currentTime - previousTime <= MaxConvergentSpan ==> WholeSecond(closed.value.los))
        && RefinedSet(elev, previousTime, currentTime, closed.value.los)
      ensures !foundAos && 0.0 < elev(currentTime) && startTime == currentTime ==> newAosTime == startTime
      ensures !foundAos && 0.0 < elev(currentTime) && previousTime <= currentTime <= previousTime + MaxConvergentSpan ==>
        previousTime - 6 * TicksPerSecond < newAosTime <= currentTime + TicksPerSecond
      ensures !foundAos && 0.0 < elev(currentTime) && startTime != currentTime ==>
        (currentTime - previousTime <= MaxConvergentSpan ==> WholeSecond(newAosTime))
        && RefinedRise(elev, previousTime, currentTime, newAosTime)
      ensures foundAos || elev(currentTime) <= 0.0 ==> newAosTime == aosTime
    {
      var elevation := elev(currentTime);
      tracking, newAosTime, closed := foundAos, aosTime, None;
      if !foundAos && elevation > 0.0 {
        if startTime == currentTime {
          newAosTime := startTime;
        } else {
          newAosTime := FindCrossingPoint(elev, previousTime, currentTime, true);
        }
        tracking := true;
      } else if foundAos && elevation < 0.0 {
        tracking := false;
        var losTime := FindCrossingPoint(elev, previousTime, currentTime, false);
        var maxElevation := FindMaxElevation(elev, aosTime, losTime);
        closed := Some(PassDetails(aosTime, losTime, maxElevation));
      }
    }

    /** The body of GeneratePassList's scanning loop for the sample at
        `currentTime`: TakeSample, the closed pass appended to the list when
        it passes the degree filter, and the move to the next instant, half
        an hour after a pass closed and one step otherwise, never past
        `endTime`. The ghost parameters are the record of the run so far,
        which the step extends by this sample. */
    method ScanStep(elev: int -> real, startTime: int, endTime: int, timeStep: int,
                    passList: seq<PassDetails>, foundAos: bool, aosTime: int, previousTime: int, currentTime: int,
                    ghost samples: seq<int>, ghost tracking: seq<bool>, ghost detected: seq<PassDetails>)
      returns (nextList: seq<PassDetails>, nextFound: bool, nextAosTime: int, nextTime: int,
               ghost nextSamples: seq<int>, ghost nextTracking: seq<bool>, ghost nextDetected: seq<PassDetails>)
      requires timeStep > 0 && currentTime < endTime
      requires Scanning(elev, timeStep, startTime, endTime, samples, tracking, previousTime, foundAos, currentTime)
      requires PeaksRefined(elev, detected)
      requires passList == KeptClosed(detected, miniumElevation)
      requires Bounded(elev, startTime, endTime, samples, detected, foundAos, aosTime)
      requires DetectedSoFar(elev, startTime, samples, tracking, detected, foundAos, aosTime)
      ensures currentTime < nextTime <= endTime
      ensures nextSamples == samples + [currentTime] && nextTracking == tracking + [foundAos]
      ensures Scanning(elev, timeStep, startTime, endTime, nextSamples, nextTracking, currentTime, nextFound, nextTime)
      ensures PeaksRefined(elev, nextDetected)
      ensures nextList == KeptClosed(nextDetected, miniumElevation)
      ensures Bounded(elev, startTime, endTime, nextSamples, nextDetected, nextFound, nextAosTime)
      ensures DetectedSoFar(elev, startTime, nextSamples, nextTracking, nextDetected, nextFound, nextAosTime)
    {
      var closed;
      nextFound, nextAosTime, closed := TakeSample(elev, startTime, previousTime, currentTime, foundAos, aosTime);
      assert samples != [] ==> samples[0] < currentTime;
      var endOfPass := closed.Some?;
      nextList := passList;
      if closed.Some? {
        var pd := closed.value;
        KeptClosedAppend(detected, pd, miniumElevation);
        if KeepsClosedPass(pd.maxElevation, miniumElevation) {
          nextList := passList + [pd];
        }
      }
      nextDetected := detected + (if closed.Some? then [closed.value] else []);
      nextSamples, nextTracking := samples + [currentTime], tracking + [foundAos];
      if endOfPass {
        nextTime := currentTime + HalfHour;
      } else {
        nextTime := currentTime + timeStep * TicksPerSecond;
      }
      if nextTime > endTime {
        nextTime := endTime;
      }
      ScanningAdvances(elev, timeStep, startTime, endTime, samples, tracking, previousTime, foundAos,
                       currentTime, nextFound, nextTime);
      BoundedAdvances(elev, startTime, endTime, samples, detected, foundAos, aosTime,
                      currentTime, nextFound, nextAosTime, nextDetected);
      DetectedAdvances(elev, startTime, samples, tracking, detected, foundAos, aosTime,
                       currentTime, nextAosTime, closed);
    }

    /** The scanning loop of GeneratePassList: every sample from `startTime`
        until `endTime` is reached, with the passes closed on the way.
        Returns the filtered list so far, the final found_aos and aos_time,
        and, as ghosts, the instants sampled, the value of found_aos before
        each of them, and every pass closed (before the filter). */
    method ScanForPasses(elev: int -> real, startTime: int, endTime: int, timeStep: int)
      returns (passList: seq<PassDetails>, foundAos: bool, aosTime: int,
               ghost samples: seq<int>, ghost tracking: seq<bool>, ghost detected: seq<PassDetails>)
      requires timeStep > 0
      ensures samples != [] <==> startTime < endTime
      ensures samples != [] ==> samples[0] == startTime
      ensures SampledWithin(samples, startTime, endTime)
      ensures Traced(elev, timeStep, samples, tracking)
      ensures samples != [] ==> endTime <= Last(samples) + Gap(ClosesPass(Last(tracking), elev(Last(samples))), timeStep)
      ensures foundAos <==> samples != [] && NextTracking(Last(tracking), elev(Last(samples)))
      ensures PeaksRefined(elev, detected)
      ensures passList == KeptClosed(detected, miniumElevation)
      ensures Bounded(elev, startTime, endTime, samples, detected, foundAos, aosTime)
      ensures DetectedSoFar(elev, startTime, samples, tracking, detected, foundAos, aosTime)
    {
      passList := [];
      aosTime := 0;  // a default-constructed DateTime
      foundAos := false;
      var previousTime := startTime;
      var currentTime := startTime;
      samples, tracking, detected := [], [], [];
      while currentTime < endTime
        invariant Scanning(elev, timeStep, startTime, endTime, samples, tracking, previousTime, foundAos, currentTime)
        invariant PeaksRefined(elev, detected)
        invariant passList == KeptClosed(detected, miniumElevation)
        invariant Bounded(elev, startTime, endTime, samples, detected, foundAos, aosTime)
        invariant DetectedSoFar(elev, startTime, samples, tracking, detected, foundAos, aosTime)
        decreases endTime - currentTime
      {
        var nextTime;
        passList, foundAos, aosTime, nextTime, samples, tracking, detected :=
          ScanStep(elev, startTime, endTime, timeStep, passList, foundAos, aosTime, previousTime, currentTime,
                   samples, tracking, detected);
        previousTime, currentTime := currentTime, nextTime;
      }
    }

    /** PassCalculator::GeneratePassList. Besides the list it returns, the
        ghost results record the run: `samples` are the instants at which the
        elevation was taken, `tracking` the value of found_aos before each of
        them, `detected` every pass it closed (before the minimum-elevation
        filter), the last of which is the one still open at the end when
        `openAtEnd` holds. */
    method GeneratePassList(elev: int -> real, startTime: int, endTime: int, timeStep: int)
      returns (passList: seq<PassDetails>,
               ghost samples: seq<int>, ghost tracking: seq<bool>,
               ghost detected: seq<PassDetails>, ghost openAtEnd: bool)
      requires timeStep > 0
      // the instants sampled: from startTime, strictly before endTime, each
      // one step (or half an hour after a pass closed) after the previous,
      // until the next would reach endTime
      ensures samples != [] <==> startTime < endTime
      ensures samples != [] ==> samples[0] == startTime
      ensures SampledWithin(samples, startTime, endTime)
      ensures Traced(elev, timeStep, samples, tracking)
      ensures samples != [] ==> endTime <= Last(samples) + Gap(ClosesPass(Last(tracking), elev(Last(samples))), timeStep)
      ensures openAtEnd <==> samples != [] && NextTracking(Last(tracking), elev(Last(samples)))
      // what is detected and what is listed
      ensures PeaksRefined(elev, detected)
      ensures openAtEnd ==> detected != [] && Last(detected).los == endTime
      ensures passList == ListedPasses(detected, openAtEnd, miniumElevation)
      // which passes are detected: one per rising edge of the state
      // machine, each but a pass open at the end closed by the falling edge
      // that follows, and dated near those edges; in order of AOS when the
      // step is at least 7 s and every bisection converges
      ensures |detected| == |Edges(elev, samples, tracking, false)| + (if openAtEnd then 1 else 0)
      ensures PassesOfTrace(elev, startTime, samples, tracking, detected, openAtEnd)
      ensures 7 <= timeStep <= 65535 ==> InAosOrder(detected) && InAosOrder(passList)
      // a listed pass never ends before it starts (a detected one may)
      ensures miniumElevation > Sentinel ==> forall p :: p in passList ==> p.aos < p.los
      // boundary cases
      ensures endTime <= startTime ==> detected == [] && passList == []
      ensures startTime < endTime && 0.0 < elev(startTime) ==> detected != [] && detected[0].aos == startTime
      ensures AllBelow(elev, samples) ==> detected == [] && passList == []
      ensures startTime < endTime && AllAbove(elev, samples) ==>
        openAtEnd && detected == [PassDetails(startTime, endTime, HillClimb(elev, startTime, endTime))]
    {
      var foundAos, aosTime;
      passList, foundAos, aosTime, samples, tracking, detected := ScanForPasses(elev, startTime, endTime, timeStep);
      openAtEnd := foundAos;
      if foundAos {
        var maxElevation := FindMaxElevation(elev, aosTime, endTime);
        var pd := PassDetails(aosTime, endTime, maxElevation);
        DetectedAtEnd(elev, startTime, samples, tracking, detected, foundAos, aosTime, pd);
        assert AllButLast(detected + [pd]) == detected;
        detected := detected + [pd];
        if KeepsOpenPass(pd.maxElevation, miniumElevation) {
          passList := passList + [pd];
        }
      } else {
        DetectedAtEnd(elev, startTime, samples, tracking, detected, foundAos, aosTime, PassDetails(aosTime, endTime, 0.0));
        assert detected + [] == detected;
      }
      if miniumElevation > Sentinel {
        ListedPassesForward(elev, detected, openAtEnd, miniumElevation);
      }
      if 7 <= timeStep <= 65535 {
        PassesInOrder(elev, timeStep, startTime, samples, tracking, detected, openAtEnd);
        ListedInOrder(detected, openAtEnd, miniumElevation);
      }
    }
  }
}
