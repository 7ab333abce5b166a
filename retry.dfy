/** Retrying an operation with exponential backoff. The operation is
    outside the model: `outcome(k)` is what its k-th call returns (None for
    success, Some(message) for an error), and the sleeps are recorded
    instead of performed. Durations are nanoseconds; the factor is a
    real. */
module Retry {
  import opened Common

  datatype RetryConfig = RetryConfig(maxRetries: int, initialWait: int, maxWait: int, factor: real)

  function DefaultRetryConfig(): (c: RetryConfig)
    ensures c.maxRetries == 3 && c.initialWait == 500 * Millisecond && c.maxWait == 10 * Second && c.factor == 2.0
  {
    RetryConfig(3, 500 * Millisecond, 10 * Second, 2.0)
  }

  /** Go's conversion of a float to an integer duration: truncation toward
      zero. */
  function Truncate(x: real): (n: int)
    ensures x >= 0.0 ==> n as real <= x < n as real + 1.0
    ensures x < 0.0 ==> n as real - 1.0 < x <= n as real
  {
    if x >= 0.0 then x.Floor else -((-x).Floor)
  }

  /** The wait after one more failure: the wait times the factor, capped at
      maxWait. */
  function NextWait(wait: int, c: RetryConfig): (w: int)
    ensures w <= c.maxWait
    ensures 0.0 <= wait as real * c.factor <= c.maxWait as real ==>
              w as real <= wait as real * c.factor < w as real + 1.0
    ensures wait as real * c.factor < 0.0 <= c.maxWait as real ==>
              w as real - 1.0 < wait as real * c.factor <= w as real
    ensures wait as real * c.factor >= c.maxWait as real ==> w == c.maxWait
  {
    var next := Truncate(wait as real * c.factor);
    if next > c.maxWait then c.maxWait else next
  }

  /** The wait before attempt k + 2, that is after k + 1 failures. */
  function WaitAt(c: RetryConfig, k: nat): int
  {
    if k == 0 then c.initialWait else NextWait(WaitAt(c, k - 1), c)
  }

  /** No wait exceeds the larger of the initial wait and the cap. */
  lemma WaitBounded(c: RetryConfig, k: nat)
    ensures WaitAt(c, k) <= MaxInt(c.initialWait, c.maxWait)
  {
  }

  /** With a factor of at least 1 and a non-negative initial wait below the
      cap, the waits never shrink. */
  lemma {:induction false} WaitsGrow(c: RetryConfig, k: nat)
    requires c.factor >= 1.0 && 0 <= c.initialWait <= c.maxWait
    ensures 0 <= WaitAt(c, k) <= WaitAt(c, k + 1) <= c.maxWait
  {
    if k > 0 {
      WaitsGrow(c, k - 1);
    }
    NextWaitGrows(WaitAt(c, k), c);
  }

  lemma NextWaitGrows(w: int, c: RetryConfig)
    requires c.factor >= 1.0 && 0 <= w <= c.maxWait
    ensures w <= NextWait(w, c) <= c.maxWait
  {
    ScaleAtLeast(w, c.factor);
  }

  lemma ScaleAtLeast(w: int, f: real)
    requires w >= 0 && f >= 1.0
    ensures Truncate(w as real * f) >= w
  {
    var x := w as real;
    assert x * f - x == x * (f - 1.0);
    assert x * (f - 1.0) >= 0.0;
  }

  /** The first successful call among calls 1..n, if any. */
  function FirstSuccess(outcome: int -> Option<string>, n: int): (k: Option<nat>)
    ensures k.Some? ==> 1 <= k.value <= n && outcome(k.value).None?
    ensures k.Some? ==> forall j :: 1 <= j < k.value ==> outcome(j).Some?
    ensures k.None? ==> forall j :: 1 <= j <= n ==> outcome(j).Some?
    decreases if n < 0 then 0 else n
  {
    if n < 1 then None
    else
      var earlier := FirstSuccess(outcome, n - 1);
      if earlier.Some? then earlier
      else if outcome(n).None? then Some(n)
      else None
  }

  function Wrapped(maxRetries: int, err: string): string
  {
    "operation failed after " + Decimal(maxRetries) + " attempts: " + err
  }

  /** The waits before each retry, in order. */
  predicate WaitSchedule(c: RetryConfig, waits: seq<int>)
  {
    forall k :: 0 <= k < |waits| ==> waits[k] == WaitAt(c, k)
  }

  /** Calls the operation until it succeeds or maxRetries calls have failed,
      sleeping between calls. */
  method RetryOperation(outcome: int -> Option<string>, c: RetryConfig)
    returns (err: Option<string>, calls: nat, waits: seq<int>)
    ensures calls <= MaxInt(c.maxRetries, 0)
    ensures c.maxRetries <= 0 ==> err == None && calls == 0 && waits == []
    ensures FirstSuccess(outcome, c.maxRetries).Some? ==>
      err == None && calls == FirstSuccess(outcome, c.maxRetries).value
    ensures c.maxRetries >= 1 && FirstSuccess(outcome, c.maxRetries).None? ==>
      calls == c.maxRetries && err == Some(Wrapped(c.maxRetries, outcome(c.maxRetries).value))
    ensures calls >= 1 ==> |waits| == calls - 1
    ensures WaitSchedule(c, waits)
  {
    err := None;
    calls := 0;
    waits := [];
    var wait := c.initialWait;
    var attempt := 1;
    while attempt <= c.maxRetries
      invariant 1 <= attempt && calls == attempt - 1
      invariant attempt <= MaxInt(c.maxRetries, 1)
      invariant forall j :: 1 <= j < attempt ==> outcome(j).Some?
      invariant |waits| == attempt - 1 && WaitSchedule(c, waits)
      invariant wait == WaitAt(c, attempt - 1)
      decreases c.maxRetries - attempt
    {
      var result := outcome(attempt);
      calls := calls + 1;
      if result.None? {
        FirstSuccessIs(outcome, c.maxRetries, attempt);
        return None, calls, waits;
      }
      if attempt == c.maxRetries {
        NoSuccess(outcome, c.maxRetries);
        return Some(Wrapped(c.maxRetries, result.value)), calls, waits;
      }
      waits := waits + [wait];
      wait := NextWait(wait, c);
      attempt := attempt + 1;
    }
    return err, calls, waits;
  }

  lemma {:induction false} FirstSuccessIs(outcome: int -> Option<string>, n: int, k: nat)
    requires 1 <= k <= n && outcome(k).None?
    requires forall j :: 1 <= j < k ==> outcome(j).Some?
    ensures FirstSuccess(outcome, n) == Some(k)
    decreases n
  {
    if n > k {
      FirstSuccessIs(outcome, n - 1, k);
    } else {
      NoSuccess(outcome, k - 1);
    }
  }

  lemma {:induction false} NoSuccess(outcome: int -> Option<string>, n: int)
    requires forall j :: 1 <= j <= n ==> outcome(j).Some?
    ensures FirstSuccess(outcome, n) == None
    decreases if n < 0 then 0 else n
  {
    if n >= 1 {
      NoSuccess(outcome, n - 1);
    }
  }
}
