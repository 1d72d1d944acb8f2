/**
 ExponentialBackoffRiverLike (internal/queue/platlib/adapter.go), in int32 and int64
 arithmetic: when its result is the documented failed_attempt^4 seconds, and what a job
 waits in total.
 */
module Backoff {
  const SECOND: nat := 1_000_000_000

  function WrapTo(x: int, half: nat): int
    requires half > 0
  {
    (x + half) % (2 * half) - half
  }

  function Wrap32(x: int): int { WrapTo(x, 0x8000_0000) }
  function Wrap64(x: int): int { WrapTo(x, 0x8000_0000_0000_0000) }

  predicate IsInt32(x: int) { -0x8000_0000 <= x < 0x8000_0000 }

  function FailedAttempt(next: int): int {
    var f := Wrap32(next - 1);
    if f < 1 then 1 else f
  }

  /** The delay in nanoseconds, every product wrapped as Go wraps it. */
  function Delay(next: int): int {
    var f := FailedAttempt(next);
    Wrap64(Wrap64(Wrap64(Wrap64(f * f) * f) * f) * SECOND)
  }

  function Fourth(f: int): int { f * f * f * f }

  // ----- wrapping once at the end is enough

  lemma WrapCongruent(x: int)
    ensures exists k: int :: Wrap64(x) == x + k * 0x1_0000_0000_0000_0000
  {
    var k := -((x + 0x8000_0000_0000_0000) / 0x1_0000_0000_0000_0000);
    assert Wrap64(x) == x + k * 0x1_0000_0000_0000_0000;
  }

  lemma WrapShift(x: int, k: int)
    ensures Wrap64(x + k * 0x1_0000_0000_0000_0000) == Wrap64(x)
  {
  }

  lemma WrapProduct(x: int, y: int)
    ensures Wrap64(Wrap64(x) * y) == Wrap64(x * y)
  {
    WrapCongruent(x);
    var k: int :| Wrap64(x) == x + k * 0x1_0000_0000_0000_0000;
    assert (x + k * 0x1_0000_0000_0000_0000) * y == x * y + (k * y) * 0x1_0000_0000_0000_0000;
    WrapShift(x * y, k * y);
  }

  lemma DelayWrapsOnce(next: int)
    ensures Delay(next) == Wrap64(Fourth(FailedAttempt(next)) * SECOND)
  {
    var f := FailedAttempt(next);
    WrapProduct(f * f, f);
    WrapProduct(f * f * f, f);
    WrapProduct(Fourth(f), SECOND);
  }

  // ----- exactly when the delay is the documented one

  lemma FourthMonotone(a: nat, b: nat)
    requires a < b
    ensures Fourth(a) < Fourth(b)
  {
    SquareMonotone(a, b);
    SquareMonotone(a * a, b * b);
    assert Fourth(a) == (a * a) * (a * a) && Fourth(b) == (b * b) * (b * b);
  }

  lemma SquareMonotone(a: nat, b: nat)
    requires a < b
    ensures a * a < b * b
  {
    assert b * b - a * a == (b - a) * (b + a);
  }

  lemma FourthAtMost(a: nat, b: nat)
    ensures a <= b <==> Fourth(a) <= Fourth(b)
  {
    if a < b { FourthMonotone(a, b); }
    if b < a { FourthMonotone(b, a); }
  }

  lemma FitsUpTo309(f: nat)
    ensures 0 <= Fourth(f) * SECOND && (Fourth(f) * SECOND < 0x8000_0000_0000_0000 <==> f <= 309)
  {
    FourthAtMost(0, f);
    FourthAtMost(f, 309);
    FourthAtMost(310, f);
    assert Fourth(309) == 9116621361 && Fourth(310) == 9235210000;
  }

  lemma WrapExact(v: int)
    ensures Wrap64(v) == v <==> -0x8000_0000_0000_0000 <= v < 0x8000_0000_0000_0000
  {
  }

  lemma FailedRange(next: int)
    requires IsInt32(next)
    ensures 1 <= FailedAttempt(next) && (2 <= next ==> FailedAttempt(next) == next - 1)
    ensures -0x8000_0000 < next <= 1 ==> FailedAttempt(next) == 1
    ensures next == -0x8000_0000 ==> FailedAttempt(next) == 0x7FFF_FFFF
    ensures FailedAttempt(next) <= 309 <==> -0x8000_0000 < next <= 310
  {
  }

  /** The delay is failed_attempt^4 seconds exactly up to next attempt 310 (and not at the least int32, where next - 1 wraps). */
  lemma ExactUpTo310(next: int)
    requires IsInt32(next)
    ensures Delay(next) == Fourth(FailedAttempt(next)) * SECOND <==> -0x8000_0000 < next <= 310
    ensures 2 <= next ==> FailedAttempt(next) == next - 1
  {
    DelayWrapsOnce(next);
    FailedRange(next);
    FitsUpTo309(FailedAttempt(next));
    WrapExact(Fourth(FailedAttempt(next)) * SECOND);
  }

  /** Up to 310 the delay is positive, so the retry waits in a timer, and each delay is longer than the one before. */
  lemma PositiveAndIncreasing(a: int, b: int)
    requires 2 <= a < b <= 310
    ensures 0 < Delay(a) < Delay(b) < 0x8000_0000_0000_0000
  {
    ExactUpTo310(a);
    ExactUpTo310(b);
    FourthMonotone(0, a - 1);
    FourthMonotone(a - 1, b - 1);
    FourthAtMost(b - 1, 309);
    assert Fourth(309) == 9116621361;
  }

  /** From 311 to 369 the product overflows to a negative delay, so those retries are pushed at once. */
  lemma NegativeFrom311(next: int)
    requires 311 <= next <= 369
    ensures Delay(next) < 0
  {
    DelayWrapsOnce(next);
    FourthAtMost(310, next - 1);
    FourthAtMost(next - 1, 368);
    assert Fourth(310) == 9235210000 && Fourth(368) == 18339659776;
    assert FailedAttempt(next) == next - 1;
    WrapNegative(Fourth(next - 1) * SECOND);
  }

  lemma WrapNegative(v: int)
    requires 0x8000_0000_0000_0000 <= v < 0x1_0000_0000_0000_0000
    ensures Wrap64(v) < 0
  {
  }

  // ----- the total wait of a job that uses up m attempts

  /** The sum of the delays before attempts 2..m. */
  function TotalDelay(m: nat): int {
    if m <= 1 then 0 else TotalDelay(m - 1) + Delay(m)
  }

  function ClosedForm(n: int): int {
    n * (n + 1) * (2 * n + 1) * (3 * n * n + 3 * n - 1)
  }

  lemma {:induction false} TotalClosedForm(m: nat)
    requires 1 <= m <= 310
    ensures 30 * TotalDelay(m) == ClosedForm(m - 1) * SECOND
  {
    if m > 1 {
      TotalClosedForm(m - 1);
      ExactUpTo310(m);
      SumStep(m - 1);
      Distribute(ClosedForm(m - 2), Fourth(m - 1), SECOND);
    }
  }

  lemma SumStep(n: int)
    ensures ClosedForm(n) == ClosedForm(n - 1) + 30 * Fourth(n)
  {
  }

  lemma Distribute(x: int, y: int, s: int)
    ensures (x + 30 * y) * s == x * s + 30 * (y * s)
  {
  }
}
