/** One predicted pass (PassDetails.h): acquisition and loss of signal as
    instants, the peak elevation in radians, and the human-readable duration. */
module Passes {
  import opened DateTimes
  import opened Decimal

  /** TimeSpan::Minutes(): the minute-of-the-hour component of a span, with
      C++'s truncating division, so it is negative for negative spans. */
  function SpanMinutes(span: int): (m: int)
    ensures -60 < m < 60
    ensures span >= 0 ==> m == span % TicksPerHour / TicksPerMinute
  {
    CDiv(CMod(span, TicksPerHour), TicksPerMinute)
  }

  /** TimeSpan::Seconds(): the second-of-the-minute component of a span. */
  function SpanSeconds(span: int): (s: int)
    ensures -60 < s < 60
    ensures span >= 0 ==> s == span % TicksPerMinute / TicksPerSecond
  {
    CDiv(CMod(span, TicksPerMinute), TicksPerSecond)
  }

  /** The figures a duration text carries: minutes (0 when absent) and seconds. */
  datatype DurationFields = DurationFields(minutes: int, seconds: int)

  /** Reads "<m>m <s>s" or "<s>s" back into its figures. */
  function ParseDuration(text: string): Option<DurationFields>
  {
    if |text| == 0 || text[|text| - 1] != 's' then None
    else
      var body := text[..|text| - 1];
      match IndexOf(body, 'm')
      case None =>
        (match ParseInt(body)
         case None => None
         case Some(s) => Some(DurationFields(0, s)))
      case Some(i) =>
        if i + 1 < |body| && body[i + 1] == ' ' then
          match (ParseInt(body[..i]), ParseInt(body[i + 2..]))
          case (Some(m), Some(s)) => Some(DurationFields(m, s))
          case _ => None
        else None
  }

  datatype PassDetails = PassDetails(aos: int, los: int, maxElevation: real)
  {
    /** PassDetails::duration(): minutes and seconds of los - aos, or
        seconds alone when the minute component is not positive. */
    function Duration(): (r: string)
      ensures |r| >= 2 && r[|r| - 1] == 's'
      ensures ('m' in r) <==> SpanMinutes(los - aos) > 0
    {
      var d := los - aos;
      if SpanMinutes(d) > 0 then
        IntToString(SpanMinutes(d)) + "m " + IntToString(SpanSeconds(d)) + "s"
      else
        IntToString(SpanSeconds(d)) + "s"
    }
  }

  /** The duration text reads back as the span's minute component (when it
      is shown) and its second component. */
  lemma DurationRoundTrip(p: PassDetails)
    ensures var d := p.los - p.aos;
      ParseDuration(p.Duration()) ==
        Some(DurationFields(if SpanMinutes(d) > 0 then SpanMinutes(d) else 0, SpanSeconds(d)))
  {
    var d := p.los - p.aos;
    var m, s := SpanMinutes(d), SpanSeconds(d);
    if m > 0 {
      assert p.Duration() == IntToString(m) + "m " + IntToString(s) + "s";
      ParseMinutesSeconds(m, s);
    } else {
      assert p.Duration() == IntToString(s) + "s";
      ParseSecondsOnly(s);
    }
  }

  lemma ParseMinutesSeconds(m: int, s: int)
    ensures ParseDuration(IntToString(m) + "m " + IntToString(s) + "s") == Some(DurationFields(m, s))
  {
    var mins, secs := IntToString(m), IntToString(s);
    var text := mins + "m " + secs + "s";
    var body := text[..|text| - 1];
    ParseIntToString(m);
    ParseIntToString(s);
    assert body == mins + "m " + secs;
    assert 'm' !in mins;
    assert body[..|mins|] == mins;
    assert IndexOf(body, 'm') == Some(|mins|);
    assert body[|mins| + 2..] == secs;
  }

  lemma ParseSecondsOnly(s: int)
    ensures ParseDuration(IntToString(s) + "s") == Some(DurationFields(0, s))
  {
    var secs := IntToString(s);
    var text := secs + "s";
    ParseIntToString(s);
    assert text[..|text| - 1] == secs;
    assert 'm' !in secs;
  }

  /** Two passes of the same length have the same duration text. */
  lemma DurationDependsOnSpan(p: PassDetails, q: PassDetails)
    requires p.los - p.aos == q.los - q.aos
    ensures p.Duration() == q.Duration()
  {
  }

  /** A span of one hour and five seconds shows as "5s": the hour
      component is never shown. */
  lemma DurationDropsHours()
    ensures PassDetails(0, TicksPerHour + 5 * TicksPerSecond, 0.0).Duration() == "5s"
  {
    assert SpanMinutes(TicksPerHour + 5 * TicksPerSecond) == 0;
    assert SpanSeconds(TicksPerHour + 5 * TicksPerSecond) == 5;
  }
}
