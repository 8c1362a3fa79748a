/**
 Exponential backoff (recoveryRetryDelay in recovery_guard.go and warmupFailureDelay
 in warmup_policy.go): the loops, and the closed forms they compute. Durations are
 nanoseconds; Go's duration division truncates, and is used on positive values only.
 */
module Backoff {

  const MINUTE: int := 60 * 1000000000
  const HOUR: int := 60 * MINUTE

  function Pow2(n: nat): (p: nat)
    ensures p >= 1
  {
    if n == 0 then 1 else 2 * Pow2(n - 1)
  }

  function Min(a: int, b: int): int { if a <= b then a else b }

  // Doublings after the first failure.
  function Doublings(failures: int): nat { if failures <= 1 then 0 else failures - 1 }

  lemma {:induction false} Pow2Monotone(m: nat, n: nat)
    requires m <= n
    ensures Pow2(m) <= Pow2(n)
    decreases n
  {
    if m < n { Pow2Monotone(m, n - 1); }
  }

  // Once past the cap, further doublings stay past it.
  lemma StaysPast(base: int, cap: int, m: nat, n: nat)
    requires base > 0 && m <= n && base * Pow2(m) >= cap
    ensures base * Pow2(n) >= cap
  {
    Pow2Monotone(m, n);
    Scale(base, Pow2(m), Pow2(n));
  }

  lemma Scale(k: int, a: int, b: int)
    requires k > 0 && a <= b
    ensures k * a <= k * b
  {
    var d := b - a;
    assert k * d >= 0;
  }

  function Base(base: int): int { if base <= 0 then 2 * MINUTE else base }

  function Cap(max: int): int { if max <= 0 then 24 * HOUR else max }

  // base * 2^(failures-1), at most the maximum, with defaults for unset settings.
  function RetryDelay(failures: int, base: int, max: int): int {
    Min(Cap(max), Min(Base(base), Cap(max)) * Pow2(Doublings(failures)))
  }

  lemma RetryDelayIsPositive(failures: int, base: int, max: int)
    ensures 0 < RetryDelay(failures, base, max) <= Cap(max)
  {
    var b, p := Min(Base(base), Cap(max)), Pow2(Doublings(failures));
    assert b * p >= b by { assert b * (p - 1) >= 0; }
  }

  method ComputeRetryDelay(failures: int, base: int, max: int) returns (delay: int)
    ensures delay == RetryDelay(failures, base, max)
  {
    var cap := Cap(max);
    var first := Min(Base(base), cap);
    delay := first;
    var i := 1;
    while i < failures && delay < cap
      invariant if failures <= 1 then i == 1 else 1 <= i <= failures
      invariant delay == first * Pow2(i - 1) && 0 < delay <= cap
      decreases failures - i
    {
      assert first * Pow2(i) == 2 * delay;
      if delay > cap / 2 {
        StaysPast(first, cap, i, Doublings(failures));
        return cap;
      }
      delay := delay * 2;
      i := i + 1;
    }
    if failures <= 1 {
      assert first * Pow2(0) == first;
    } else {
      StaysPast(first, delay, i - 1, failures - 1);
    }
  }

  const WARMUP_CAP: int := 6 * HOUR

  function WarmupBase(base: int): int { if base < MINUTE then 15 * MINUTE else base }

  function WarmupDelay(failures: int, base: int): int {
    Min(WARMUP_CAP, WarmupBase(base) * Pow2(Doublings(failures)))
  }

  method ComputeWarmupDelay(base: int, failures: int) returns (delay: int)
    ensures delay == WarmupDelay(failures, base)
  {
    var first := WarmupBase(base);
    delay := first;
    var n := 1;
    while n < failures && delay < WARMUP_CAP
      invariant if failures <= 1 then n == 1 else 1 <= n <= failures
      invariant delay == first * Pow2(n - 1)
      decreases failures - n
    {
      assert first * Pow2(n) == 2 * delay;
      delay := delay * 2;
      n := n + 1;
    }
    if failures <= 1 {
      assert first * Pow2(0) == first;
    } else {
      StaysPast(first, delay, n - 1, failures - 1);
    }
    if delay > WARMUP_CAP {
      delay := WARMUP_CAP;
    }
  }

  /** The first failure waits the base, two minutes if unset, and each further one twice
      as long, always at most the maximum, a day if unset. */
  lemma RetryDelayDoubles(failures: int, base: int, max: int)
    ensures var first, most := if base > 0 then base else 2 * MINUTE, if max > 0 then max else 24 * HOUR;
            && (failures <= 1 ==> RetryDelay(failures, base, max) == if first <= most then first else most)
            && (failures >= 1 ==> RetryDelay(failures + 1, base, max)
                                  == if 2 * RetryDelay(failures, base, max) <= most then 2 * RetryDelay(failures, base, max) else most)
  {
    var first := Min(Base(base), Cap(max));
    if failures <= 1 { assert first * Pow2(0) == first; }
    if failures >= 1 { DoublesOnce(first, failures); }
  }

  lemma DoublesOnce(first: int, failures: int)
    requires failures >= 1
    ensures first * Pow2(Doublings(failures + 1)) == 2 * (first * Pow2(Doublings(failures)))
  {
    assert Pow2(failures) == 2 * Pow2(failures - 1);
  }

  /** A warmup's first failure waits the base, a quarter of an hour if it is below a
      minute, and each further one twice as long, at most six hours. */
  lemma WarmupDelayDoubles(failures: int, base: int)
    ensures var first := if base >= MINUTE then base else 15 * MINUTE;
            && (failures <= 1 ==> WarmupDelay(failures, base) == if first <= 6 * HOUR then first else 6 * HOUR)
            && (failures >= 1 ==> WarmupDelay(failures + 1, base)
                                  == if 2 * WarmupDelay(failures, base) <= 6 * HOUR then 2 * WarmupDelay(failures, base) else 6 * HOUR)
  {
    var first := WarmupBase(base);
    if failures <= 1 { assert first * Pow2(0) == first; }
    if failures >= 1 { DoublesOnce(first, failures); }
  }
}
