/** The peak-elevation search of PassCalculator::FindMaxElevation, as
    functions: one walk of the hill-climb (Climb) and the sequence of
    ever narrower rounds (HillClimb). The class method in pass_calculator.dfy
    runs the same search with loops and is proved equal to HillClimb. */
module HillClimbing {
  import opened DateTimes

  /** The value max_elevation starts each round with. */
  const Sentinel: real := -99999999999999.0

  /** A round's step in seconds: one ninth of its window. */
  function StepOf(width: int): real
  {
    TotalSeconds(width) / 9.0
  }

  /** `t` moved on by `step`, but not past `end`. */
  function Advance(t: int, end: int, step: real): int
  {
    var next := AddSeconds(t, step);
    if next > end then end else next
  }

  /** One walk of a round: starting at `t` with running maximum `best`, sample
      while before `end` and while each sample is strictly higher than the
      running maximum. Gives the instant the walk stopped at and the running
      maximum it reached. */
  function Climb(elev: int -> real, t: int, end: int, step: real, best: real): (r: (int, real))
    requires 0.0 <= step || end <= t
    ensures t <= end ==> t <= r.0 <= end
    ensures end <= t ==> r == (t, best)
    ensures best <= r.1
    ensures t < end ==> elev(t) <= r.1
    ensures r.0 < end ==> elev(r.0) <= r.1
    ensures r.1 == best || exists s :: t <= s <= r.0 && s < end && r.1 == elev(s)
    decreases end - t, if best < elev(t) then 1 else 0
  {
    if t < end && elev(t) > best then
      Climb(elev, Advance(t, end, step), end, step, elev(t))
    else
      (t, best)
  }

  /** The whole search from the top of a round whose window runs from
      `current` to `time2`: walk, then re-bracket to the last two steps
      before the stopping instant, and go round again while the new step
      exceeds one second. The result is the running maximum of the last walk. */
  function HillClimb(elev: int -> real, current: int, time2: int): real
    decreases time2 - current
  {
    var step := StepOf(time2 - current);
    var (stop, best) := Climb(elev, current, time2, step, Sentinel);
    var time1 := AddSeconds(stop, -2.0 * step);
    TwoNinthsBackTicks(stop, time2 - current);
    if StepOf(stop - time1) > 1.0 then HillClimb(elev, time1, stop) else best
  }

  /** One round of HillClimb unfolded: the walk stops at `stop` with
      maximum `best`, the window is re-bracketed to [time1, stop], and either
      the search goes on from that window, which is non-empty and strictly
      smaller, or it ends with the round's maximum. */
  lemma HillClimbRound(elev: int -> real, current: int, time2: int) returns (stop: int, best: real, time1: int)
    ensures 0.0 <= StepOf(time2 - current) || time2 <= current
    ensures (stop, best) == Climb(elev, current, time2, StepOf(time2 - current), Sentinel)
    ensures time1 == AddSeconds(stop, -2.0 * StepOf(time2 - current))
    ensures stop - time1 == CDiv(2 * (time2 - current), 9)
    ensures StepOf(stop - time1) > 1.0 ==>
      0 < stop - time1 < time2 - current && HillClimb(elev, current, time2) == HillClimb(elev, time1, stop)
    ensures StepOf(stop - time1) <= 1.0 ==> HillClimb(elev, current, time2) == best
  {
    var step := StepOf(time2 - current);
    assert 0.0 <= step || time2 <= current;
    var r := Climb(elev, current, time2, step, Sentinel);
    stop, best := r.0, r.1;
    time1 := AddSeconds(stop, -2.0 * step);
    TwoNinthsBackTicks(stop, time2 - current);
  }

  /** An empty or inverted window takes no sample and yields the sentinel. */
  lemma HillClimbEmptyWindow(elev: int -> real, current: int, time2: int)
    requires time2 <= current
    ensures HillClimb(elev, current, time2) == Sentinel
  {
    var stop, best, time1 := HillClimbRound(elev, current, time2);
    TwoNinthsBackTicks(current, time2 - current);
  }

  /** The result is the sentinel or an actual sample, taken before `time2`
      and at most two sevenths of the window before `current`: the later
      windows are not clamped to the first one, but they drift back by
      at most 2/9 + (2/9)^2 + ... of its width. */
  lemma {:induction false} HillClimbIsSample(elev: int -> real, current: int, time2: int)
    ensures var r := HillClimb(elev, current, time2);
      r == Sentinel || exists s :: 7 * (current - s) <= 2 * (time2 - current) && s < time2 && r == elev(s)
    decreases time2 - current
  {
    var w := time2 - current;
    var stop, best, time1 := HillClimbRound(elev, current, time2);
    var r := HillClimb(elev, current, time2);
    if StepOf(stop - time1) > 1.0 {
      TwoNinthsBackTicks(stop, w);
      assert current <= stop <= time2;
      assert 9 * (stop - time1) <= 2 * w;
      HillClimbIsSample(elev, time1, stop);
      if r != Sentinel {
        var s :| 7 * (time1 - s) <= 2 * (stop - time1) && s < stop && r == elev(s);
        assert 7 * (current - s) <= 2 * w && s < time2;
      }
    } else if r != Sentinel {
      var s :| current <= s <= stop && s < time2 && r == elev(s);
      assert 7 * (current - s) <= 2 * w && s < time2;
    }
  }

  /** When every elevation lies above the sentinel, a non-empty window
      always yields a real sample: each round's window is non-empty. */
  lemma {:induction false} HillClimbAboveSentinel(elev: int -> real, current: int, time2: int)
    requires current < time2
    requires forall t :: Sentinel < elev(t)
    ensures Sentinel < HillClimb(elev, current, time2)
    decreases time2 - current
  {
    var stop, best, time1 := HillClimbRound(elev, current, time2);
    if StepOf(stop - time1) > 1.0 {
      HillClimbAboveSentinel(elev, time1, stop);
    } else {
      assert elev(current) <= best;
    }
  }
}
