/** Instants and spans as the pass engine uses them: a DateTime is a count of
    ticks (one tick is one microsecond), a TimeSpan a signed tick count.
    The engine's double-valued second counts are modelled as exact reals; the
    only rounding that is kept is the conversion back to ticks, which the
    library performs by a cast to a 64-bit integer and so truncates toward zero. */
module DateTimes {

  const TicksPerSecond: int := 1000000
  const TicksPerMinute: int := 60 * TicksPerSecond
  const TicksPerHour: int := 60 * TicksPerMinute

  /** TimeSpan(0, 30, 0): the skip after a pass has ended. */
  const HalfHour: int := 30 * TicksPerMinute

  /** C++ integer division of `a` by a positive `b`: rounds toward zero. */
  function CDiv(a: int, b: int): (q: int)
    requires b > 0
    ensures a >= 0 ==> q == a / b
    ensures a < 0 ==> q == -((-a) / b)
  {
    if a >= 0 then a / b else -((-a) / b)
  }

  /** C++ remainder of `a` by a positive `b`: takes the sign of `a`. */
  function CMod(a: int, b: int): (r: int)
    requires b > 0
    ensures a == b * CDiv(a, b) + r
    ensures -b < r < b
    ensures a >= 0 ==> 0 <= r
    ensures a <= 0 ==> r <= 0
  {
    if a >= 0 then a % b else -((-a) % b)
  }

  /** A cast of a double to a 64-bit integer: truncation toward zero. */
  function TruncToInt(x: real): (n: int)
    ensures 0.0 <= x ==> n as real <= x < n as real + 1.0
    ensures x <= 0.0 ==> n as real - 1.0 < x <= n as real
  {
    if x >= 0.0 then x.Floor else -((-x).Floor)
  }

  /** TimeSpan::TotalSeconds(). */
  function TotalSeconds(span: int): real
  {
    span as real / TicksPerSecond as real
  }

  /** DateTime::AddMicroseconds(double): the offset is truncated toward
      zero before it is added. */
  function AddMicroseconds(t: int, microseconds: real): int
  {
    t + TruncToInt(microseconds)
  }

  /** DateTime::AddSeconds(double), which goes through AddMicroseconds. */
  function AddSeconds(t: int, seconds: real): int
  {
    AddMicroseconds(t, seconds * TicksPerSecond as real)
  }

  /** DateTime::Microsecond(): the sub-second part of an instant. */
  function Microsecond(t: int): (us: int)
    ensures 0 <= us < TicksPerSecond
  {
    t % TicksPerSecond
  }

  /** An instant that falls on a whole second. */
  predicate WholeSecond(t: int)
  {
    t % TicksPerSecond == 0
  }

  /** Converting `a / b` to a double and truncating it gives C++'s integer quotient. */
  lemma TruncOfRatio(a: int, b: int)
    requires b > 0
    ensures TruncToInt(a as real / b as real) == CDiv(a, b)
  {
    if a >= 0 {
      FloorOfRatio(a, b);
    } else {
      FloorOfRatio(-a, b);
      assert a as real / b as real == -((-a) as real / b as real);
    }
  }

  lemma FloorOfRatio(n: nat, b: int)
    requires b > 0
    ensures (n as real / b as real).Floor == n / b
  {
    var q, r := n / b, n % b;
    assert n as real == q as real * b as real + r as real;
    assert n as real / b as real == q as real + r as real / b as real;
    assert 0.0 <= r as real / b as real < 1.0;
  }

  /** The midpoint offset used by the bisection: half the span, truncated toward zero. */
  lemma HalfSpanTicks(t: int, span: int)
    ensures AddSeconds(t, TotalSeconds(span) / 2.0) == t + CDiv(span, 2)
  {
    assert TotalSeconds(span) / 2.0 * TicksPerSecond as real == span as real / 2 as real;
    TruncOfRatio(span, 2);
  }

  /** Adding one ninth of a span, as the hill-climb's step does. */
  lemma NinthSpanTicks(t: int, span: int)
    ensures AddSeconds(t, TotalSeconds(span) / 9.0) == t + CDiv(span, 9)
  {
    assert TotalSeconds(span) / 9.0 * TicksPerSecond as real == span as real / 9 as real;
    TruncOfRatio(span, 9);
  }

  /** Going back two ninths of a span, as the hill-climb's re-bracketing does. */
  lemma TwoNinthsBackTicks(t: int, span: int)
    ensures AddSeconds(t, -2.0 * (TotalSeconds(span) / 9.0)) == t - CDiv(2 * span, 9)
  {
    assert -2.0 * (TotalSeconds(span) / 9.0) * TicksPerSecond as real == (-2 * span) as real / 9 as real;
    TruncOfRatio(-2 * span, 9);
  }

  /** Dropping the sub-second part of an instant, then moving it by whole
      seconds, lands on a whole second. */
  lemma DropMicroseconds(t: int, k: int)
    ensures AddMicroseconds(t, (-Microsecond(t)) as real) == t - Microsecond(t)
    ensures WholeSecond(t - Microsecond(t) + k * TicksPerSecond)
  {
    var q := t / TicksPerSecond;
    assert t - Microsecond(t) + k * TicksPerSecond == (q + k) * TicksPerSecond;
  }

  /** A span is under one second exactly when it has fewer ticks than a second. */
  lemma UnderOneSecond(span: int)
    ensures TotalSeconds(span) < 1.0 <==> span < TicksPerSecond
  {
    assert TotalSeconds(span) * TicksPerSecond as real == span as real;
  }

  /** Whole-second offsets are exact. */
  lemma WholeSecondsTicks(t: int, k: int)
    ensures AddSeconds(t, k as real) == t + k * TicksPerSecond
  {
    assert k as real * TicksPerSecond as real == (k * TicksPerSecond) as real;
  }
}
