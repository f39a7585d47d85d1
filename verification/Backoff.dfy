/** The delay between retries (internal/errors/handler.go), with floating point as reals. Durations are
    nanoseconds. */
module Backoff {
  /** What an error is taken for. */
  datatype Category = Transient | Permanent | ResourceNotFound | Validation | Network | RateLimit | Conflicting

  datatype RetryConfig = RetryConfig(
    maxRetries: int, baseDelay: int, maxDelay: int, backoffFactor: real, jitter: bool, retryable: seq<Category>)

  function Pow(f: real, n: nat): real {
    if n == 0 then 1.0 else f * Pow(f, n - 1)
  }

  /** The conversion of a float to an integer truncates toward zero. */
  function Truncate(x: real): int {
    if x >= 0.0 then x.Floor else -(-x).Floor
  }

  /** An integer wrapped to 64 bits, signed. */
  function Int64(x: int): (w: int)
    ensures exists k :: w == x + k * 0x1_0000_0000_0000_0000
    ensures -0x8000_0000_0000_0000 <= w < 0x8000_0000_0000_0000
  {
    var m := x % 0x1_0000_0000_0000_0000;
    assert m == x + -(x / 0x1_0000_0000_0000_0000) * 0x1_0000_0000_0000_0000;
    assert m - 0x1_0000_0000_0000_0000 == x + (-(x / 0x1_0000_0000_0000_0000) - 1) * 0x1_0000_0000_0000_0000;
    if m < 0x8000_0000_0000_0000 then m else m - 0x1_0000_0000_0000_0000
  }

  /** The remainder takes the sign of the dividend. */
  function Remainder(a: int, b: int): (r: int)
    requires b > 0
    ensures -b < r < b && (a >= 0 ==> r >= 0) && (a <= 0 ==> r <= 0)
    ensures a == (if a >= 0 then a / b else -(-a / b)) * b + r
  {
    if a >= 0 then a % b else -(-a % b)
  }

  /** What a clock reading contributes to the jitter is always -1: twice a reading is even, also after
      it has wrapped. */
  lemma JitterIsOneSided(unixNano: int)
    ensures Remainder(Int64(2 * unixNano), 2) - 1 == -1
  {
    var w := Int64(2 * unixNano);
    var k :| w == 2 * unixNano + k * 0x1_0000_0000_0000_0000;
    assert w == 2 * (unixNano + k * 0x8000_0000_0000_0000);
  }

  function Growth(c: RetryConfig, attempt: int): real
    requires attempt >= 1
  {
    c.baseDelay as real * Pow(c.backoffFactor, attempt - 1)
  }

  /** At most the maximum, in whole nanoseconds. */
  function Cap(delay: real, max: int): int {
    if delay > max as real then max else Truncate(delay)
  }

  function Capped(c: RetryConfig, attempt: int): int
    requires attempt >= 1
  {
    Cap(Growth(c, attempt), c.maxDelay)
  }

  /** The delay, without a clock. */
  function Delay(c: RetryConfig, attempt: int): int {
    if attempt <= 0 then c.baseDelay
    else
      var d := Capped(c, attempt);
      if !c.jitter then d else if d < 0 then c.baseDelay else d - d / 10
  }

  lemma TruncateOfInt(n: int)
    ensures Truncate(n as real) == n
  {
    if n < 0 {
      assert -(n as real) == (-n) as real;
    }
  }

  lemma TenthTruncated(d: int)
    ensures Truncate(d as real * 0.1 * -1.0) == if d >= 0 then -(d / 10) else -d / 10
  {
    if d >= 0 {
      FloorOfTenth(d);
      assert -(d as real * 0.1 * -1.0) == d as real / 10.0;
      if d == 0 {
        assert d as real * 0.1 * -1.0 == 0.0;
      } else {
        assert d as real * 0.1 * -1.0 < 0.0;
      }
    } else {
      FloorOfTenth(-d);
      assert d as real * 0.1 * -1.0 == (-d) as real / 10.0;
    }
  }

  lemma FloorOfTenth(n: nat)
    ensures (n as real / 10.0).Floor == n / 10
  {
    var q, r := n / 10, n % 10;
    assert n as real / 10.0 == q as real + r as real / 10.0;
  }

  method CalculateJitter(duration: int, unixNano: int) returns (jitter: int)
    ensures jitter == if duration >= 0 then -(duration / 10) else -duration / 10
  {
    var jitterFactor := (Remainder(Int64(2 * unixNano), 2) - 1) as real;
    JitterIsOneSided(unixNano);
    assert jitterFactor == -1.0;
    TenthTruncated(duration);
    return Truncate(duration as real * 0.1 * jitterFactor);
  }

  /** The delay before a retry does not depend on the clock. */
  method CalculateDelay(c: RetryConfig, attempt: int, unixNano: int) returns (duration: int)
    ensures duration == Delay(c, attempt)
  {
    if attempt <= 0 {
      return c.baseDelay;
    }
    var delay := c.baseDelay as real * Pow(c.backoffFactor, attempt - 1);
    if delay > c.maxDelay as real {
      delay := c.maxDelay as real;
      TruncateOfInt(c.maxDelay);
    }
    duration := Truncate(delay);
    if c.jitter {
      var jitter := CalculateJitter(duration, unixNano);
      duration := duration + jitter;
      if duration < 0 {
        duration := c.baseDelay;
      }
    }
  }

  /** A configuration that backs off. */
  predicate Sensible(c: RetryConfig) {
    c.baseDelay >= 0 && c.backoffFactor >= 1.0
  }

  lemma {:induction false} PowIsAtLeastOne(f: real, n: nat)
    requires f >= 1.0
    ensures Pow(f, n) >= 1.0
  {
    if n == 0 {
    } else {
      PowIsAtLeastOne(f, n - 1);
      Scale(Pow(f, n - 1), 1.0, f);
    }
  }

  lemma {:induction false} PowGrows(f: real, m: nat, n: nat)
    requires f >= 1.0 && m <= n
    ensures Pow(f, m) <= Pow(f, n)
  {
    if m == n {
    } else {
      PowGrows(f, m, n - 1);
      PowIsAtLeastOne(f, n - 1);
      Scale(Pow(f, n - 1), 1.0, f);
    }
  }

  lemma Scale(k: real, a: real, b: real)
    requires k >= 0.0 && a <= b
    ensures k * a <= k * b
  {
  }

  /** The growth before the cap never shrinks and never falls below the base delay. */
  lemma GrowthIsMonotone(c: RetryConfig, m: int, n: int)
    requires Sensible(c) && 1 <= m <= n
    ensures 0.0 <= c.baseDelay as real <= Growth(c, m) <= Growth(c, n)
  {
    PowIsAtLeastOne(c.backoffFactor, m - 1);
    PowGrows(c.backoffFactor, m - 1, n - 1);
    Scale(c.baseDelay as real, 1.0, Pow(c.backoffFactor, m - 1));
    Scale(c.baseDelay as real, Pow(c.backoffFactor, m - 1), Pow(c.backoffFactor, n - 1));
  }

  lemma TruncateIsMonotone(x: real, y: real)
    requires 0.0 <= x <= y
    ensures 0 <= Truncate(x) <= Truncate(y)
  {
  }

  lemma CapBounds(base: int, delay: real, max: int)
    requires 0 <= base && base as real <= delay
    ensures Cap(delay, max) <= max
    ensures max < 0 ==> Cap(delay, max) == max
    ensures max >= 0 ==> Cap(delay, max) >= if base < max then base else max
  {
    TruncateOfInt(base);
    TruncateOfInt(max);
    if delay <= max as real {
      TruncateIsMonotone(base as real, delay);
      TruncateIsMonotone(delay, max as real);
    }
  }

  lemma CapIsMonotone(x: real, y: real, max: int)
    requires 0.0 <= x <= y
    ensures Cap(x, max) <= Cap(y, max)
  {
    TruncateOfInt(max);
    if y <= max as real {
      TruncateIsMonotone(x, y);
    } else if x <= max as real {
      TruncateIsMonotone(x, max as real);
    }
  }

  lemma CappedBounds(c: RetryConfig, attempt: int)
    requires Sensible(c) && attempt >= 1
    ensures Capped(c, attempt) <= c.maxDelay
    ensures c.maxDelay < 0 ==> Capped(c, attempt) == c.maxDelay
    ensures c.maxDelay >= 0 ==> Capped(c, attempt) >= if c.baseDelay < c.maxDelay then c.baseDelay else c.maxDelay
  {
    GrowthIsMonotone(c, attempt, attempt);
    CapBounds(c.baseDelay, Growth(c, attempt), c.maxDelay);
  }

  lemma CappedIsMonotone(c: RetryConfig, m: int, n: int)
    requires Sensible(c) && 1 <= m <= n
    ensures Capped(c, m) <= Capped(c, n)
  {
    GrowthIsMonotone(c, m, n);
    CapIsMonotone(Growth(c, m), Growth(c, n), c.maxDelay);
  }

  function IntPow(k: nat, n: nat): nat {
    if n == 0 then 1 else k * IntPow(k, n - 1)
  }

  lemma {:induction false} PowOfInt(k: nat, n: nat)
    ensures Pow(k as real, n) == IntPow(k, n) as real
  {
    if n == 0 {
    } else {
      PowOfInt(k, n - 1);
      ProductOfInts(k, IntPow(k, n - 1));
    }
  }

  lemma ProductOfInts(a: int, b: int)
    ensures (a * b) as real == a as real * b as real
  {
  }

  /** With a whole factor: the first retry waits the base delay, each later one that many times as long, up to the
      maximum; jitter takes off a tenth, and falls back to the base delay below zero. */
  lemma WholeDelays(c: RetryConfig, k: nat, attempt: int)
    requires c.backoffFactor == k as real && attempt >= 1
    ensures var grown := c.baseDelay * IntPow(k, attempt - 1);
      var d := if grown < c.maxDelay then grown else c.maxDelay;
      Delay(c, attempt) == if !c.jitter then d else if d < 0 then c.baseDelay else d - d / 10
  {
    PowOfInt(k, attempt - 1);
    ProductOfInts(c.baseDelay, IntPow(k, attempt - 1));
    TruncateOfInt(c.baseDelay * IntPow(k, attempt - 1));
  }

  /** Whatever the factor: the first retry waits the base delay. */
  lemma FirstDelay(c: RetryConfig)
    requires !c.jitter
    ensures Delay(c, 1) == if c.baseDelay < c.maxDelay then c.baseDelay else c.maxDelay
  {
    assert Growth(c, 1) == c.baseDelay as real;
    TruncateOfInt(c.baseDelay);
  }

  lemma {:induction false} PowAdds(f: real, m: nat, n: nat)
    ensures Pow(f, m + n) == Pow(f, m) * Pow(f, n) && Pow(f, 1) == f
  {
    assert Pow(f, 1) == f * Pow(f, 0);
    if n == 0 {
    } else {
      PowAdds(f, m, n - 1);
      Commute(f, Pow(f, m), Pow(f, n - 1));
    }
  }

  lemma Commute(a: real, b: real, c: real)
    ensures a * (b * c) == b * (a * c)
  {
  }

  /** Whatever the factor: a delay below the maximum is the growth of the base delay, cut off below a nanosecond,
      and each retry multiplies that growth by the factor. */
  lemma DelayFollowsGrowth(c: RetryConfig, attempt: int)
    requires Sensible(c) && !c.jitter && attempt >= 1
    ensures Growth(c, 1) == c.baseDelay as real && Growth(c, attempt + 1) == Growth(c, attempt) * c.backoffFactor
    ensures Growth(c, attempt) < c.maxDelay as real ==>
      Delay(c, attempt) as real <= Growth(c, attempt) < (Delay(c, attempt) + 1) as real
  {
    GrowthIsMonotone(c, attempt, attempt);
    PowAdds(c.backoffFactor, attempt - 1, 1);
    Associate(c.baseDelay as real, Pow(c.backoffFactor, attempt - 1), c.backoffFactor);
  }

  lemma Associate(a: real, b: real, c: real)
    ensures a * (b * c) == a * b * c
  {
  }

  /** A later retry never waits less. */
  lemma DelaysNeverShrink(c: RetryConfig, m: int, n: int)
    requires Sensible(c) && 1 <= m <= n
    ensures Delay(c, m) <= Delay(c, n)
  {
    CappedIsMonotone(c, m, n);
    CappedBounds(c, m);
    CappedBounds(c, n);
  }

  /** No delay exceeds the maximum, exactly if the maximum is not negative or there is no jitter: a
      negative maximum with jitter falls back to the base delay. */
  lemma AtMostMaxDelayExactly(c: RetryConfig, attempt: int)
    requires Sensible(c) && attempt >= 1
    ensures Delay(c, attempt) <= c.maxDelay <==> c.maxDelay >= 0 || !c.jitter
  {
    CappedBounds(c, attempt);
  }

  /** Jitter takes off at most a tenth of the smaller of base and maximum, exactly if the maximum is not
      negative or there is jitter: without jitter a negative maximum is itself the delay. */
  lemma AtLeastNineTenthsExactly(c: RetryConfig, attempt: int)
    requires Sensible(c) && attempt >= 1
    ensures 10 * Delay(c, attempt) >= 9 * (if c.baseDelay < c.maxDelay then c.baseDelay else c.maxDelay) <==>
      c.maxDelay >= 0 || c.jitter
  {
    CappedBounds(c, attempt);
  }

  /** With a factor above 1 the delays grow until they stay at the cap. */
  lemma DelaysReachTheCap(c: RetryConfig, attempt: int)
    requires Sensible(c) && c.backoffFactor > 1.0 && c.baseDelay > 0 && c.maxDelay >= 0 && attempt >= 1
    requires c.maxDelay as real < c.baseDelay as real * (1.0 + (attempt - 1) as real * (c.backoffFactor - 1.0))
    ensures Delay(c, attempt) == if c.jitter then c.maxDelay - c.maxDelay / 10 else c.maxDelay
  {
    GrowthPassesCap(c, attempt);
    AtCap(c, attempt);
  }

  lemma GrowthPassesCap(c: RetryConfig, attempt: int)
    requires Sensible(c) && attempt >= 1
    requires c.maxDelay as real < c.baseDelay as real * (1.0 + (attempt - 1) as real * (c.backoffFactor - 1.0))
    ensures c.maxDelay as real < Growth(c, attempt)
  {
    var linear, pow := 1.0 + (attempt - 1) as real * (c.backoffFactor - 1.0), Pow(c.backoffFactor, attempt - 1);
    Bernoulli(c.backoffFactor, attempt - 1);
    Scale(c.baseDelay as real, linear, pow);
  }

  lemma AtCap(c: RetryConfig, attempt: int)
    requires attempt >= 1 && c.maxDelay >= 0 && c.maxDelay as real < Growth(c, attempt)
    ensures Delay(c, attempt) == if c.jitter then c.maxDelay - c.maxDelay / 10 else c.maxDelay
  {
    TruncateOfInt(c.maxDelay);
  }

  lemma {:induction false} Bernoulli(f: real, n: nat)
    requires f >= 1.0
    ensures Pow(f, n) >= 1.0 + n as real * (f - 1.0)
  {
    if n == 0 {
    } else {
      Bernoulli(f, n - 1);
      var e := f - 1.0;
      var k := (n - 1) as real;
      Scale(f, 1.0 + k * e, Pow(f, n - 1));
      assert f * (1.0 + k * e) == 1.0 + (k + 1.0) * e + k * (e * e);
      Scale(k, 0.0, e * e);
    }
  }
}
