/** The `rate_limiting` decorator of facebook_downloader/downloader.py.
    It re-invokes the wrapped call when the Facebook API answers with error
    code 17 (rate limit reached), sleeping 60 * 2^k seconds before retry k,
    and gives up after seven retries.

    The wrapped call is given as the outcome of each of its invocations:
    `calls(k)` is what the k-th invocation (counting from 0) returns or
    raises. Sleeping is recorded as a duration in seconds, not performed. */
module RateLimiting {

  /** The API error code of "application request limit reached". */
  const RateLimitErrorCode: int := 17
  /** Retries allowed after the first invocation. */
  const MaxRetries: nat := 7
  /** Seconds slept before the first retry. */
  const BaseDelay: nat := 60

  /** What one invocation of the wrapped call does. */
  datatype CallOutcome<T> =
    | Returned(value: T)        // the call returned normally
    | RequestError(code: int)   // it raised FacebookRequestError with this API error code
    | OtherError                // it raised any other exception, which is never caught

  predicate IsRateLimitError<T>(o: CallOutcome<T>) {
    o.RequestError? && o.code == RateLimitErrorCode
  }

  /** The final outcome the wrapper returns or re-raises, and the sleeps it made. */
  datatype Transcript<T> = Transcript(outcome: CallOutcome<T>, sleeps: seq<nat>)

  function Pow2(k: nat): (r: nat)
    ensures r >= 1
  {
    if k == 0 then 1 else 2 * Pow2(k - 1)
  }

  /** Seconds slept before retry `attempt` (0-based). */
  function Backoff(attempt: nat): nat {
    BaseDelay * Pow2(attempt)
  }

  function Sum(s: seq<nat>): nat {
    if s == [] then 0 else Sum(s[..|s| - 1]) + s[|s| - 1]
  }

  /** The behaviour of the wrapper once `attempts` retries have been made:
      invoke the call; retry only on a rate-limit error while fewer than
      MaxRetries retries were made; otherwise hand the outcome back. */
  function RetryFrom<T>(calls: nat -> CallOutcome<T>, attempts: nat): Transcript<T>
    requires attempts <= MaxRetries
    decreases MaxRetries - attempts
  {
    var outcome := calls(attempts);
    if IsRateLimitError(outcome) && attempts < MaxRetries then
      var rest := RetryFrom(calls, attempts + 1);
      Transcript(rest.outcome, [Backoff(attempts)] + rest.sleeps)
    else
      Transcript(outcome, [])
  }

  /** The whole run of the wrapper. */
  function Retry<T>(calls: nat -> CallOutcome<T>): Transcript<T> {
    RetryFrom(calls, 0)
  }

  /** The decorated function: the `while True` loop with its mutable
      `number_of_attempts` counter. Invocation k happens after exactly k
      sleeps; the loop stops at the first outcome that is not a rate-limit
      error, or after the seventh retry. */
  method RateLimited<T>(calls: nat -> CallOutcome<T>) returns (outcome: CallOutcome<T>, sleeps: seq<nat>)
    ensures Transcript(outcome, sleeps) == Retry(calls)
    ensures Shaped(calls, Transcript(outcome, sleeps))
  {
    var numberOfAttempts: nat := 0;
    sleeps := [];
    outcome := calls(numberOfAttempts);
    while IsRateLimitError(outcome) && numberOfAttempts < MaxRetries
      invariant numberOfAttempts <= MaxRetries
      invariant |sleeps| == numberOfAttempts
      invariant outcome == calls(numberOfAttempts)
      invariant Retry(calls) == Transcript(RetryFrom(calls, numberOfAttempts).outcome,
                                           sleeps + RetryFrom(calls, numberOfAttempts).sleeps)
      decreases MaxRetries - numberOfAttempts
    {
      var duration := BaseDelay * Pow2(numberOfAttempts);
      ghost var rest := RetryFrom(calls, numberOfAttempts + 1);
      assert RetryFrom(calls, numberOfAttempts) == Transcript(rest.outcome, [duration] + rest.sleeps);
      assert sleeps + ([duration] + rest.sleeps) == (sleeps + [duration]) + rest.sleeps;
      sleeps := sleeps + [duration];
      numberOfAttempts := numberOfAttempts + 1;
      outcome := calls(numberOfAttempts);
    }
    RetryShape(calls);
  }

  /** Shape of a run from `attempts` on: the outcome handed back is the one
      of the last invocation, every earlier invocation hit the rate limit
      and was followed by the matching backoff, and the run stops at the
      first other outcome or when the retries are used up. */
  ghost predicate ShapedFrom<T>(calls: nat -> CallOutcome<T>, attempts: nat, t: Transcript<T>) {
    && attempts + |t.sleeps| <= MaxRetries
    && t.outcome == calls(attempts + |t.sleeps|)
    && (forall j :: attempts <= j < attempts + |t.sleeps| ==>
          IsRateLimitError(calls(j)) && t.sleeps[j - attempts] == Backoff(j))
    && (!IsRateLimitError(t.outcome) || attempts + |t.sleeps| == MaxRetries)
  }

  /** Every run of the wrapper has that shape. */
  lemma {:induction false} RetryFromShape<T>(calls: nat -> CallOutcome<T>, attempts: nat)
    requires attempts <= MaxRetries
    ensures ShapedFrom(calls, attempts, RetryFrom(calls, attempts))
    decreases MaxRetries - attempts
  {
    var t := RetryFrom(calls, attempts);
    if IsRateLimitError(calls(attempts)) && attempts < MaxRetries {
      RetryFromShape(calls, attempts + 1);
      var rest := RetryFrom(calls, attempts + 1);
      assert t == Transcript(rest.outcome, [Backoff(attempts)] + rest.sleeps);
      forall j | attempts < j < attempts + |t.sleeps|
        ensures t.sleeps[j - attempts] == Backoff(j)
      {
        assert t.sleeps[j - attempts] == rest.sleeps[j - (attempts + 1)];
      }
    } else {
      assert t == Transcript(calls(attempts), []);
    }
  }

  /** The shape of a whole run: the outcome handed back is the one of
      invocation n, where n is the number of sleeps and at most seven; each
      invocation k before it hit the rate limit and was followed by a sleep
      of `Backoff(k)`; and invocation n either did not hit the rate limit or
      was the eighth. */
  ghost predicate Shaped<T>(calls: nat -> CallOutcome<T>, t: Transcript<T>) {
    && |t.sleeps| <= MaxRetries
    && t.outcome == calls(|t.sleeps|)
    && (forall k :: 0 <= k < |t.sleeps| ==> IsRateLimitError(calls(k)) && t.sleeps[k] == Backoff(k))
    && (!IsRateLimitError(t.outcome) || |t.sleeps| == MaxRetries)
  }

  lemma RetryShape<T>(calls: nat -> CallOutcome<T>)
    ensures Shaped(calls, Retry(calls))
  {
    RetryFromShape(calls, 0);
    var t := Retry(calls);
    forall k | 0 <= k < |t.sleeps| ensures IsRateLimitError(calls(k)) && t.sleeps[k] == Backoff(k) {
      assert t.sleeps[k - 0] == Backoff(k);
    }
  }

  /** The first invocation that does not hit the rate limit (a success, any
      other API error, any other exception) ends the run at once, and its
      outcome is what the caller sees. */
  lemma {:induction false} StopsAtFirstOtherOutcome<T>(calls: nat -> CallOutcome<T>, n: nat)
    requires n <= MaxRetries
    requires forall k :: 0 <= k < n ==> IsRateLimitError(calls(k))
    requires !IsRateLimitError(calls(n))
    ensures Retry(calls).outcome == calls(n)
    ensures Retry(calls).sleeps == seq(n, k requires 0 <= k < n => Backoff(k))
  {
    RetryShape(calls);
  }

  /** A first invocation that returns is handed back without any sleep. */
  lemma FirstSuccessWithoutSleep<T>(calls: nat -> CallOutcome<T>)
    requires calls(0).Returned?
    ensures Retry(calls) == Transcript(calls(0), [])
  {
    StopsAtFirstOtherOutcome(calls, 0);
  }

  /** Any API error other than 17 on the first invocation is re-raised
      immediately, with no retry. */
  lemma NonRateLimitErrorReraised<T>(calls: nat -> CallOutcome<T>)
    requires calls(0).RequestError? && calls(0).code != RateLimitErrorCode
    ensures Retry(calls) == Transcript(calls(0), [])
  {
    StopsAtFirstOtherOutcome(calls, 0);
  }

  /** When the first eight invocations all hit the rate limit, the wrapper
      makes exactly eight invocations and seven sleeps, and re-raises the
      eighth error. */
  lemma {:induction false} ExhaustedAfterEightRateLimitErrors<T>(calls: nat -> CallOutcome<T>)
    requires forall k :: 0 <= k <= MaxRetries ==> IsRateLimitError(calls(k))
    ensures |Retry(calls).sleeps| == MaxRetries
    ensures Retry(calls).outcome == calls(MaxRetries)
  {
    RetryShape(calls);
  }

  /** The first sleep is 60 seconds and each further sleep doubles the
      one before it. */
  lemma SleepsDouble<T>(calls: nat -> CallOutcome<T>)
    ensures |Retry(calls).sleeps| > 0 ==> Retry(calls).sleeps[0] == BaseDelay
    ensures forall k :: 0 < k < |Retry(calls).sleeps| ==> Retry(calls).sleeps[k] == 2 * Retry(calls).sleeps[k - 1]
  {
    RetryShape(calls);
    var s := Retry(calls).sleeps;
    forall k | 0 < k < |s| ensures s[k] == 2 * s[k - 1] {
      assert s[k] == BaseDelay * (2 * Pow2(k - 1));
    }
  }

  /** At most seven sleeps, together lasting 60 * (2^n - 1) seconds for n
      sleeps, so never more than 7620 seconds. */
  lemma TotalSleep<T>(calls: nat -> CallOutcome<T>)
    ensures |Retry(calls).sleeps| <= MaxRetries
    ensures Sum(Retry(calls).sleeps) == BaseDelay * (Pow2(|Retry(calls).sleeps|) - 1)
    ensures Sum(Retry(calls).sleeps) <= 7620
  {
    RetryShape(calls);
    var s := Retry(calls).sleeps;
    SumOfBackoffs(s);
    Pow2Monotone(|s|, MaxRetries);
    assert Pow2(MaxRetries) == 128;
  }

  lemma {:induction false} SumOfBackoffs(s: seq<nat>)
    requires forall k :: 0 <= k < |s| ==> s[k] == Backoff(k)
    ensures Sum(s) == BaseDelay * (Pow2(|s|) - 1)
  {
    if s != [] {
      SumOfBackoffs(s[..|s| - 1]);
    }
  }

  lemma {:induction false} Pow2Monotone(m: nat, n: nat)
    requires m <= n
    ensures Pow2(m) <= Pow2(n)
    decreases n
  {
    if m < n {
      Pow2Monotone(m, n - 1);
    }
  }
}
