/** The retry loops (internal/errors/handler.go). The operation's outcomes, the moments at which the
    context is cancelled and the clock are given for all attempts in advance, in every possible way. */
module Retry {
  import opened Wrappers
  import opened Backoff

  datatype Failure = Failure(message: string, category: Category)

  /** For each attempt: how the operation ends, whether the wait after it is cancelled, and the clock. */
  datatype Script = Script(run: nat -> Option<Failure>, cancelled: nat -> bool, unixNano: nat -> int)

  datatype Outcome =
    | Succeeded
    | GaveUp(attempts: int, last: Option<Failure>)  // the attempts that the error message names
    | Cancelled

  /** What a retry loop did: how often the operation ran, the waits begun, and what was returned. */
  datatype Trace = Trace(runs: nat, delays: seq<int>, outcome: Outcome)

  type Condition = (Failure, int) -> bool

  predicate Retryable(c: RetryConfig, e: Failure, attempt: int) {
    attempt < c.maxRetries && e.category in c.retryable
  }

  function RetryableBy(c: RetryConfig): Condition {
    (e, attempt) => Retryable(c, e, attempt)
  }

  method ShouldRetry(c: RetryConfig, e: Failure, attempt: int) returns (retry: bool)
    ensures retry <==> Retryable(c, e, attempt)
  {
    if attempt >= c.maxRetries {
      return false;
    }
    for i := 0 to |c.retryable|
      invariant e.category !in c.retryable[..i]
    {
      if e.category == c.retryable[i] {
        return true;
      }
    }
    assert c.retryable[..|c.retryable|] == c.retryable;
    return false;
  }

  /** After this attempt the loop goes on to a further one. */
  predicate GoesOn(c: RetryConfig, s: Script, retry: Condition, attempt: nat) {
    && s.run(attempt).Some?
    && retry(s.run(attempt).value, attempt)
    && attempt < c.maxRetries
    && !s.cancelled(attempt)
  }

  /** What the loop returns if this attempt is its last. */
  function EndsWith(c: RetryConfig, s: Script, retry: Condition, attempt: nat): Outcome {
    match s.run(attempt)
    case None => Succeeded
    case Some(e) =>
      if retry(e, attempt) && attempt < c.maxRetries then Cancelled
      else GaveUp(c.maxRetries + 1, Some(e))
  }

  /** A trace of the loop: it went on after each attempt but the last. */
  ghost predicate IsTrace(c: RetryConfig, s: Script, retry: Condition, t: Trace) {
    if c.maxRetries < 0 then t == Trace(0, [], GaveUp(c.maxRetries + 1, None))
    else
      && t.runs >= 1
      && (forall k: nat | k < t.runs - 1 :: GoesOn(c, s, retry, k))
      && !GoesOn(c, s, retry, t.runs - 1)
      && t.outcome == EndsWith(c, s, retry, t.runs - 1)
      && |t.delays| == t.runs - (if t.outcome == Cancelled then 0 else 1)
      && (forall k | 0 <= k < |t.delays| :: t.delays[k] == Delay(c, k + 1))
  }

  method RetryWithBackoff(c: RetryConfig, s: Script) returns (t: Trace)
    ensures IsTrace(c, s, RetryableBy(c), t)
  {
    var lastErr: Option<Failure> := None;
    ghost var retry := RetryableBy(c);
    var delays: seq<int> := [];
    var attempt: nat := 0;
    while attempt <= c.maxRetries
      invariant c.maxRetries >= 0 ==> attempt <= c.maxRetries
      invariant c.maxRetries < 0 ==> attempt == 0 && lastErr == None
      invariant |delays| == attempt
      invariant forall k: nat | k < attempt :: GoesOn(c, s, retry, k)
      invariant forall k | 0 <= k < |delays| :: delays[k] == Delay(c, k + 1)
      decreases c.maxRetries - attempt
    {
      var err := s.run(attempt);
      if err == None {
        return Trace(attempt + 1, delays, Succeeded);
      }
      lastErr := err;
      var again := ShouldRetry(c, err.value, attempt);
      if !again || attempt == c.maxRetries {
        return Trace(attempt + 1, delays, GaveUp(c.maxRetries + 1, lastErr));
      }
      var delay := CalculateDelay(c, attempt + 1, s.unixNano(attempt));
      delays := delays + [delay];
      if s.cancelled(attempt) {
        return Trace(attempt + 1, delays, Cancelled);
      }
      attempt := attempt + 1;
    }
    return Trace(attempt, delays, GaveUp(c.maxRetries + 1, lastErr));
  }

  method RetryWithBackoffAndCondition(c: RetryConfig, s: Script, shouldRetry: Condition) returns (t: Trace)
    ensures IsTrace(c, s, shouldRetry, t)
  {
    var lastErr: Option<Failure> := None;
    var delays: seq<int> := [];
    var attempt: nat := 0;
    while attempt <= c.maxRetries
      invariant c.maxRetries >= 0 ==> attempt <= c.maxRetries
      invariant c.maxRetries < 0 ==> attempt == 0 && lastErr == None
      invariant |delays| == attempt
      invariant forall k: nat | k < attempt :: GoesOn(c, s, shouldRetry, k)
      invariant forall k | 0 <= k < |delays| :: delays[k] == Delay(c, k + 1)
      decreases c.maxRetries - attempt
    {
      var err := s.run(attempt);
      if err == None {
        return Trace(attempt + 1, delays, Succeeded);
      }
      lastErr := err;
      if !shouldRetry(err.value, attempt) {
        return Trace(attempt + 1, delays, GaveUp(c.maxRetries + 1, lastErr));
      }
      if attempt == c.maxRetries {
        return Trace(attempt + 1, delays, GaveUp(c.maxRetries + 1, lastErr));
      }
      var delay := CalculateDelay(c, attempt + 1, s.unixNano(attempt));
      delays := delays + [delay];
      if s.cancelled(attempt) {
        return Trace(attempt + 1, delays, Cancelled);
      }
      attempt := attempt + 1;
    }
    return Trace(attempt, delays, GaveUp(c.maxRetries + 1, lastErr));
  }

  /** The two loops agree: the one takes the other's built-in condition as its own, and the trace of a
      loop is determined by its condition on failures that happen, on attempts that have a successor. */
  lemma LoopsAgree(c: RetryConfig, s: Script, p: Condition, q: Condition, t: Trace, u: Trace)
    requires IsTrace(c, s, p, t) && IsTrace(c, s, q, u)
    requires forall k: nat | k < c.maxRetries && s.run(k).Some? :: p(s.run(k).value, k) == q(s.run(k).value, k)
    ensures t == u
  {
    if c.maxRetries >= 0 {
      var last: nat, other: nat := t.runs - 1, u.runs - 1;
      assert forall k: nat :: GoesOn(c, s, p, k) <==> GoesOn(c, s, q, k);
      assert !GoesOn(c, s, q, last) && !GoesOn(c, s, p, other);
      assert last == other;
      assert EndsWith(c, s, p, t.runs - 1) == EndsWith(c, s, q, t.runs - 1);
      assert t.delays == u.delays;
    }
  }

  /** The operation runs between once and maxRetries + 1 times; nil is returned exactly when its last run
      succeeded; every earlier run failed, and in a way the condition accepts. */
  lemma RunsAreBounded(c: RetryConfig, s: Script, retry: Condition, t: Trace)
    requires IsTrace(c, s, retry, t) && c.maxRetries >= 0
    ensures 1 <= t.runs <= c.maxRetries + 1
    ensures t.outcome == Succeeded <==> s.run(t.runs - 1) == None
    ensures forall k: nat | k < t.runs - 1 :: s.run(k).Some? && retry(s.run(k).value, k)
    ensures t.outcome == GaveUp(c.maxRetries + 1, s.run(t.runs - 1)) && s.run(t.runs - 1).Some? <==>
      s.run(t.runs - 1).Some? && (t.runs == c.maxRetries + 1 || !retry(s.run(t.runs - 1).value, t.runs - 1))
  {
    var bound: nat := c.maxRetries;
    assert !GoesOn(c, s, retry, bound);
    forall k: nat | k < t.runs - 1
      ensures s.run(k).Some? && retry(s.run(k).value, k)
    {
      assert GoesOn(c, s, retry, k);
    }
  }

  /** All the runs are used up exactly when nothing but retryable failures comes before the last. */
  lemma UsesEveryRunExactly(c: RetryConfig, s: Script, t: Trace)
    requires IsTrace(c, s, RetryableBy(c), t) && c.maxRetries >= 0
    ensures t.runs == c.maxRetries + 1 <==>
      forall k: nat | k < c.maxRetries :: s.run(k).Some? && s.run(k).value.category in c.retryable && !s.cancelled(k)
  {
    var retry := RetryableBy(c);
    RunsAreBounded(c, s, retry, t);
    if t.runs == c.maxRetries + 1 {
      forall k: nat | k < c.maxRetries
        ensures s.run(k).Some? && s.run(k).value.category in c.retryable && !s.cancelled(k)
      {
        assert GoesOn(c, s, retry, k);
      }
    } else {
      assert !GoesOn(c, s, retry, t.runs - 1);
    }
  }

  function Total(delays: seq<int>): int {
    if delays == [] then 0 else Total(delays[..|delays| - 1]) + delays[|delays| - 1]
  }

  lemma {:induction false} TotalBound(delays: seq<int>, bound: int)
    requires forall i | 0 <= i < |delays| :: delays[i] <= bound
    ensures Total(delays) <= |delays| * bound
  {
    if delays == [] {
    } else {
      TotalBound(delays[..|delays| - 1], bound);
      assert (|delays| - 1) * bound + bound == |delays| * bound;
    }
  }

  /** The waits of one call, together, take at most maxRetries times the maximum delay. */
  lemma TotalWaitIsBounded(c: RetryConfig, s: Script, retry: Condition, t: Trace)
    requires IsTrace(c, s, retry, t) && Sensible(c) && c.maxRetries >= 0 && c.maxDelay >= 0
    ensures Total(t.delays) <= c.maxRetries * c.maxDelay
  {
    WaitsAreCounted(c, s, retry, t);
    DelaysBound(c, t.delays, c.maxRetries);
  }

  lemma WaitsAreCounted(c: RetryConfig, s: Script, retry: Condition, t: Trace)
    requires IsTrace(c, s, retry, t) && c.maxRetries >= 0
    ensures |t.delays| <= c.maxRetries
    ensures forall k | 0 <= k < |t.delays| :: t.delays[k] == Delay(c, k + 1)
  {
    RunsAreBounded(c, s, retry, t);
  }

  lemma DelaysBound(c: RetryConfig, delays: seq<int>, n: nat)
    requires Sensible(c) && c.maxDelay >= 0 && |delays| <= n
    requires forall k | 0 <= k < |delays| :: delays[k] == Delay(c, k + 1)
    ensures Total(delays) <= n * c.maxDelay
  {
    forall k | 0 <= k < |delays|
      ensures delays[k] <= c.maxDelay
    {
      AtMostMaxDelayExactly(c, k + 1);
    }
    TotalBound(delays, c.maxDelay);
    MoreIsMore(|delays|, n, c.maxDelay);
  }

  lemma MoreIsMore(m: nat, n: nat, k: nat)
    requires m <= n
    ensures m * k <= n * k
  {
    assert n * k == m * k + (n - m) * k;
  }

  /** No wait of a call is shorter than the one before it. */
  lemma WaitsNeverShrink(c: RetryConfig, s: Script, retry: Condition, t: Trace, i: nat, j: nat)
    requires IsTrace(c, s, retry, t) && Sensible(c) && i <= j < |t.delays|
    ensures t.delays[i] <= t.delays[j]
  {
    DelaysNeverShrink(c, i + 1, j + 1);
  }
}
