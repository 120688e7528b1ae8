/** Integer arithmetic standing in for the Java expressions of the two bucket
    strategies that turn elapsed milliseconds into whole tokens (token bucket)
    or whole units of leaked volume (leaky bucket):
      `(long) (timeDelta * ((double) maxRequests / timeWindowMillis))`.
    The rate is kept as the exact fraction maxRequests / timeWindowMillis, the
    conversion to `long` truncates toward zero and saturates at the bounds of
    `long`, and the divisions by zero of the double expression (an infinite rate,
    or NaN for 0 / 0) are written out case by case. */
module Rates {

  /** The bounds of Java's `long`. */
  const LONG_MAX: int := 0x7FFF_FFFF_FFFF_FFFF
  const LONG_MIN: int := -0x8000_0000_0000_0000

  function Max(a: int, b: int): int { if a >= b then a else b }

  function Min(a: int, b: int): int { if a <= b then a else b }

  function Abs(a: int): nat { if a < 0 then -a else a }

  /** Java's integer quotient: truncated toward zero rather than Euclidean. */
  function TruncDiv(a: int, b: int): (q: int)
    requires b != 0
    ensures Abs(q) * Abs(b) <= Abs(a) < (Abs(q) + 1) * Abs(b)
    ensures q > 0 ==> (a > 0) == (b > 0)
    ensures q < 0 ==> (a > 0) != (b > 0)
    ensures 0 <= a && 0 < b ==> q == a / b
  {
    var m := Abs(a) / Abs(b);
    if (a >= 0) == (b > 0) then m else -m
  }

  /** The narrowing conversion of a (non-NaN) double to `long`: values beyond
      the range of `long` saturate at its bounds. */
  function Saturate(x: int): (r: int)
    ensures LONG_MIN <= r <= LONG_MAX
    ensures LONG_MIN <= x <= LONG_MAX ==> r == x
  {
    if x > LONG_MAX then LONG_MAX else if x < LONG_MIN then LONG_MIN else x
  }

  /** Whole units earned (token bucket) or leaked (leaky bucket) after `elapsed`
      milliseconds at the rate maxRequests / timeWindowMillis per millisecond.
      Both strategies only evaluate it for a positive elapsed time. */
  function WholeUnits(elapsed: int, maxRequests: int, timeWindowMillis: int): (n: int)
    requires elapsed > 0
    ensures LONG_MIN <= n <= LONG_MAX
    // with a positive window and a non-negative limit: the floor of the exact product
    ensures timeWindowMillis > 0 && maxRequests >= 0 ==>
              0 <= n && n * timeWindowMillis <= elapsed * maxRequests
    ensures timeWindowMillis > 0 && maxRequests >= 0 && n < LONG_MAX ==>
              elapsed * maxRequests < (n + 1) * timeWindowMillis
    // a unit is only ever earned or leaked when the rate is positive (or infinite)
    ensures n > 0 ==> maxRequests != 0 && (maxRequests > 0) == (timeWindowMillis >= 0)
  {
    if timeWindowMillis == 0 then
      // maxRequests / 0.0 is +Infinity, NaN or -Infinity; times a positive elapsed
      // time it stays so, and (long) maps them to LONG_MAX, 0 and LONG_MIN
      if maxRequests > 0 then LONG_MAX else if maxRequests == 0 then 0 else LONG_MIN
    else
      Saturate(TruncDiv(elapsed * maxRequests, timeWindowMillis))
  }

  /** After a whole window has elapsed, a positive limit earns at least the whole
      limit (up to saturation): the recovery both bucket strategies rely on. */
  lemma {:induction false} FullWindowEarnsLimit(elapsed: int, maxRequests: int, timeWindowMillis: int)
    requires 0 < timeWindowMillis <= elapsed
    requires 0 <= maxRequests <= LONG_MAX
    ensures WholeUnits(elapsed, maxRequests, timeWindowMillis) >= maxRequests
  {
    var n := WholeUnits(elapsed, maxRequests, timeWindowMillis);
    if n < maxRequests {
      // n + 1 <= maxRequests, so (n + 1) * window <= maxRequests * window <= maxRequests * elapsed
      MulMonotone(n + 1, maxRequests, timeWindowMillis);
      assert false;
    }
  }

  lemma MulMonotone(a: int, b: int, c: int)
    requires a <= b && c >= 0
    ensures a * c <= b * c
  {
  }
}
