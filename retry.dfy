/** The retry helper of the exclusion script (`_call_with_retries`): call a
    function up to `retries` times, return its first result, sleep
    `base_delay * 2^k` after the k-th failure (the last one included), and
    raise the last exception once every attempt has failed.

    The function's behaviour is a parameter: `outcome(k)` is what its k-th
    call does. The sleeps are returned as the list of their durations. */
module Retry {
  import opened Common

  datatype Attempt<T> = Success(value: T) | Failure(exc: string)

  datatype RetryError =
    | Raised(exc: string)  // the last attempt's exception, re-raised
    | NothingToRaise       // retries <= 0: `raise None`, a TypeError

  function Pow2(k: nat): (r: nat)
    ensures r >= 1
  {
    if k == 0 then 1 else 2 * Pow2(k - 1)
  }

  /** The sleep after failed attempt k. */
  function Delay(baseDelay: real, k: nat): real {
    baseDelay * (Pow2(k) as real)
  }

  /** The sleeps after the first n failures. */
  function Backoff(baseDelay: real, n: nat): (r: seq<real>)
    ensures |r| == n
  {
    seq(n, k requires 0 <= k < n => Delay(baseDelay, k))
  }

  /** The first of the first n attempts that succeeds, if any. */
  function FirstSuccess<T>(outcome: nat -> Attempt<T>, n: int): (r: Option<nat>)
    ensures r.Some? ==> r.value < n && outcome(r.value).Success?
    ensures r.Some? ==> forall k: nat :: k < r.value ==> outcome(k).Failure?
    ensures r.None? ==> forall k: nat :: k < n ==> outcome(k).Failure?
    decreases if n <= 0 then 0 else n
  {
    if n <= 0 then None
    else
      var r0 := FirstSuccess(outcome, n - 1);
      if r0.Some? then r0
      else if outcome(n - 1).Success? then Some(n - 1)
      else None
  }

  /** What the helper returns or raises: the value of the first success,
      else the last failure's exception, else nothing to raise. */
  function RetryOutcome<T>(outcome: nat -> Attempt<T>, retries: int): (r: Result<T, RetryError>)
    ensures r.Ok? <==> FirstSuccess(outcome, retries).Some?
    ensures r.Ok? ==> outcome(FirstSuccess(outcome, retries).value) == Success(r.value)
    ensures r.Err? && retries > 0 ==> r.error == Raised(outcome(retries - 1).exc)
    ensures r.Err? && retries <= 0 ==> r.error == NothingToRaise
  {
    match FirstSuccess(outcome, retries)
    case Some(k) => Ok(outcome(k).value)
    case None => if retries > 0 then Err(Raised(outcome(retries - 1).exc)) else Err(NothingToRaise)
  }

  /** _call_with_retries(fn, retries, base_delay). */
  method CallWithRetries<T>(outcome: nat -> Attempt<T>, retries: int, baseDelay: real)
    returns (r: Result<T, RetryError>, sleeps: seq<real>, calls: nat)
    ensures r.Ok? <==> FirstSuccess(outcome, retries).Some?
    ensures r.Ok? ==> calls == FirstSuccess(outcome, retries).value + 1 && outcome(calls - 1) == Success(r.value)
    ensures r.Err? ==> calls == (if retries > 0 then retries else 0)
    ensures r.Err? && retries > 0 ==> r.error == Raised(outcome(retries - 1).exc)
    ensures r.Err? && retries <= 0 ==> r.error == NothingToRaise
    ensures sleeps == Backoff(baseDelay, if r.Ok? then calls - 1 else calls)
    ensures r == RetryOutcome(outcome, retries)
  {
    var lastExc: Option<string> := None;
    sleeps := [];
    calls := 0;
    var attempt: nat := 0;
    while attempt < retries
      invariant attempt <= (if retries > 0 then retries else 0)
      invariant calls == attempt
      invariant forall k: nat :: k < attempt ==> outcome(k).Failure?
      invariant sleeps == Backoff(baseDelay, attempt)
      invariant lastExc == if attempt == 0 then None else Some(outcome(attempt - 1).exc)
    {
      calls := calls + 1;
      match outcome(attempt) {
        case Success(v) =>
          assert FirstSuccess(outcome, retries) == Some(attempt) by {
            FirstSuccessAt(outcome, retries, attempt);
          }
          return Ok(v), sleeps, calls;
        case Failure(e) =>
          lastExc := Some(e);
          sleeps := sleeps + [Delay(baseDelay, attempt)];
          BackoffSnoc(baseDelay, attempt);
      }
      attempt := attempt + 1;
    }
    if lastExc.None? {
      r := Err(NothingToRaise);
    } else {
      r := Err(Raised(lastExc.value));
    }
  }

  lemma BackoffSnoc(baseDelay: real, n: nat)
    ensures Backoff(baseDelay, n + 1) == Backoff(baseDelay, n) + [Delay(baseDelay, n)]
  {
  }

  /** An attempt that succeeds after failures only is the first success. */
  lemma {:induction false} FirstSuccessAt<T>(outcome: nat -> Attempt<T>, n: int, k: nat)
    requires k < n && outcome(k).Success?
    requires forall j: nat :: j < k ==> outcome(j).Failure?
    ensures FirstSuccess(outcome, n) == Some(k)
    decreases n
  {
    if n - 1 > k {
      FirstSuccessAt(outcome, n - 1, k);
    }
  }

  /** The total time slept over n failures: base_delay * (2^n - 1). */
  lemma {:induction false} TotalBackoff(baseDelay: real, n: nat)
    ensures Sum(Backoff(baseDelay, n)) == baseDelay * ((Pow2(n) - 1) as real)
  {
    if n > 0 {
      var b := Backoff(baseDelay, n);
      TotalBackoff(baseDelay, n - 1);
      BackoffSnoc(baseDelay, n - 1);
      assert b[..n - 1] == Backoff(baseDelay, n - 1);
      var p := Pow2(n - 1) as real;
      assert Sum(b) == baseDelay * (p - 1.0) + baseDelay * p;
      assert (Pow2(n) - 1) as real == 2.0 * p - 1.0;
      assert baseDelay * (p - 1.0) + baseDelay * p == baseDelay * (2.0 * p - 1.0);
    }
  }

  /** With the defaults used for the scoreboard (5 attempts, 2 seconds),
      five failures cost 62 seconds of sleep before the error surfaces. */
  lemma DefaultBackoff()
    ensures Sum(Backoff(2.0, 5)) == 62.0
  {
    TotalBackoff(2.0, 5);
    assert Pow2(5) == 32;
  }
}
