/** The restart delay of an instance that keeps crashing, over exact arithmetic. */
module CrashDelay {
  import opened Arithmetic

  function Pow2(k: nat): (r: nat)
    ensures r >= 1
  {
    if k == 0 then 1 else 2 * Pow2(k - 1)
  }

  lemma {:induction false} Pow2Monotone(a: nat, b: nat)
    requires a <= b
    ensures Pow2(a) <= Pow2(b)
    decreases b
  {
    if a < b {
      Pow2Monotone(a, b - 1);
    }
  }

  lemma ScaledPow2Monotone(x: nat, a: nat, b: nat)
    requires a <= b
    ensures x * Pow2(a) <= x * Pow2(b)
  {
    Pow2Monotone(a, b);
    MulMonotone(x, Pow2(a), Pow2(b));
  }

  lemma Doubled(q: nat, k: nat)
    ensures q * Pow2(k + 1) == 2 * q * Pow2(k)
  {
    assert Pow2(k + 1) == 2 * Pow2(k);
  }

  // The largest k with q * 2^k <= p, which is log2(p/q) rounded down.
  function FloorLog2(p: nat, q: nat): (k: nat)
    requires 0 < q <= p
    ensures q * Pow2(k) <= p < q * Pow2(k + 1)
    decreases p - q
  {
    if p < 2 * q then 0
    else
      var k := FloorLog2(p, 2 * q);
      Doubled(q, k);
      Doubled(q, k + 1);
      k + 1
  }

  // The least k with p <= q * 2^k, which is log2(p/q) rounded up.
  function CeilLog2(p: nat, q: nat): (k: nat)
    requires 0 < q < p
    ensures 1 <= k && q * Pow2(k - 1) < p <= q * Pow2(k)
    decreases p - q
  {
    if p <= 2 * q then 1
    else
      var k := CeilLog2(p, 2 * q);
      Doubled(q, k - 1);
      Doubled(q, k);
      k + 1
  }

  // log2(maximum / start) + n truncated towards zero, as an integer conversion does.
  function EffectiveMaxCrashCount(n: nat, start: nat, maximum: nat): int
    requires 0 < start && 0 < maximum
  {
    if start <= maximum then n + FloorLog2(maximum, start)
    else if CeilLog2(start, maximum) <= n then n - CeilLog2(start, maximum)
    else n - FloorLog2(start, maximum)
  }

  function ComputeCrashDelay(crashCount: int, n: nat, start: nat, maximum: nat): int
    requires 0 < start && 0 < maximum
  {
    if crashCount < n then 0
    else if crashCount > EffectiveMaxCrashCount(n, start, maximum) then maximum
    else start * Pow2(crashCount - n)
  }

  // The documented law: no delay below the threshold, then doubling, never above the maximum.
  function ExponentialBackoff(crashCount: int, n: nat, start: nat, maximum: nat): int {
    if crashCount < n then 0 else Min(maximum, start * Pow2(crashCount - n))
  }

  /** The code follows the law for every crash count exactly when it is not asked about a first
      crash with no threshold and a start delay between one and two times the maximum. */
  lemma BackoffLaw(crashCount: int, n: nat, start: nat, maximum: nat)
    requires 0 < start && 0 < maximum
    ensures ComputeCrashDelay(crashCount, n, start, maximum) == ExponentialBackoff(crashCount, n, start, maximum)
            <==> !(n == 0 && crashCount == 0 && maximum < start < 2 * maximum)
  {
    if crashCount >= n {
      var e := crashCount - n;
      ScaledPow2Monotone(start, 0, e);
      if start <= maximum {
        var k := FloorLog2(maximum, start);
        if e <= k {
          ScaledPow2Monotone(start, e, k);
        } else {
          ScaledPow2Monotone(start, k + 1, e);
        }
      } else if CeilLog2(start, maximum) > n {
        var f := FloorLog2(start, maximum);
        if f == 0 {
          SmallRatio(start, maximum);
        } else {
          ScaledPow2Monotone(maximum, 1, f);
        }
      }
    }
  }

  lemma SmallRatio(p: nat, q: nat)
    requires 0 < q < p && FloorLog2(p, q) == 0
    ensures p < 2 * q && CeilLog2(p, q) == 1
  {
    assert q * Pow2(1) == 2 * q;
  }

  /** With a start delay no larger than the maximum the delay never decreases as crashes
      accumulate and never exceeds the maximum; the doubling branch is taken only while the
      product it computes stays within the maximum. */
  lemma BackoffMonotoneAndBounded(c: int, d: int, n: nat, start: nat, maximum: nat)
    requires 0 < start <= maximum && c <= d
    ensures 0 <= ComputeCrashDelay(c, n, start, maximum) <= ComputeCrashDelay(d, n, start, maximum) <= maximum
    ensures n <= c <= EffectiveMaxCrashCount(n, start, maximum) ==> start * Pow2(c - n) <= maximum
  {
    BackoffLaw(c, n, start, maximum);
    BackoffLaw(d, n, start, maximum);
    if n <= c {
      ScaledPow2Monotone(start, c - n, d - n);
      if c <= EffectiveMaxCrashCount(n, start, maximum) {
        ScaledPow2Monotone(start, c - n, FloorLog2(maximum, start));
      }
    }
  }

  /** The one family of settings outside the law, at its smallest: the first delay is 3, not 2. */
  lemma BackoffLawFails()
    ensures ComputeCrashDelay(0, 0, 3, 2) == 3 && ExponentialBackoff(0, 0, 3, 2) == 2
  {
    SmallRatio(3, 2);
    assert 2 * Pow2(1) == 4;
  }
}
