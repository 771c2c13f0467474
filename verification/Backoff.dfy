/** The retry delay as a doubling that is clamped at every step, its growth and its total. */
module Backoff {
  import opened Jobs

  /** The delay written as a process: start at the base, double, and clamp each time. */
  function Doubling(attempt: nat, base: nat, cap: nat): nat
    requires attempt >= 1
  {
    var next := if attempt == 1 then base else 2 * Doubling(attempt - 1, base, cap);
    if next <= cap then next else cap
  }

  lemma PowStep(n: nat, base: nat)
    requires n >= 1
    ensures base * Pow2(n) == 2 * (base * Pow2(n - 1))
  {
  }

  lemma {:induction false} DelayIsClampedDoubling(attempt: nat, base: nat, cap: nat)
    requires attempt >= 1
    ensures RetryDelay(attempt, base, cap) == Doubling(attempt, base, cap)
  {
    if attempt > 1 {
      DelayIsClampedDoubling(attempt - 1, base, cap);
      PowStep(attempt - 1, base);
    }
  }

  lemma {:induction false} PowMonotone(a: nat, b: nat)
    requires a <= b
    ensures Pow2(a) <= Pow2(b)
  {
    if a < b {
      PowMonotone(a, b - 1);
    }
  }

  lemma TimesMonotone(k: nat, a: nat, b: nat)
    requires a <= b
    ensures k * a <= k * b
  {
  }

  lemma DelayMonotone(a: nat, b: nat, base: nat, cap: nat)
    requires a <= b
    ensures RetryDelay(a, base, cap) <= RetryDelay(b, base, cap) <= cap
  {
    var x, y := if a >= 1 then a - 1 else 0, if b >= 1 then b - 1 else 0;
    PowMonotone(x, y);
    TimesMonotone(base, Pow2(x), Pow2(y));
  }

  lemma OneLess(k: nat, n: int)
    ensures k * (n - 1) == k * n - k
  {
  }

  /** What a job that fails all of `attempts` attempts waits in total: one delay after each but the last. */
  function TotalDelay(attempts: nat, base: nat, cap: nat): nat
    requires attempts >= 1
  {
    if attempts == 1 then 0
    else TotalDelay(attempts - 1, base, cap) + RetryDelay(attempts - 1, base, cap)
  }

  lemma {:induction false} TotalDelayBound(attempts: nat, base: nat, cap: nat)
    requires attempts >= 1
    ensures TotalDelay(attempts, base, cap) <= base * (Pow2(attempts - 1) - 1)
    ensures base * Pow2(attempts - 1) <= cap ==> TotalDelay(attempts, base, cap) == base * (Pow2(attempts - 1) - 1)
  {
    if attempts > 1 {
      TotalDelayBound(attempts - 1, base, cap);
      PowStep(attempts - 1, base);
      OneLess(base, Pow2(attempts - 2));
      OneLess(base, Pow2(attempts - 1));
      hide Pow2;
    }
  }
}
