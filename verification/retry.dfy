/** `retry(action, maxRetries, initialBackOffMs, logger)`: run an action until
    it succeeds, at most `maxRetries` times, sleeping a randomised, doubling
    back-off between attempts. The action is modelled by its outcome on each
    attempt (`action(k)` for the k-th call, counting from 1) and
    `Math.random()` by the draw `rand(k)` taken after the k-th failure. */
module Retry {
  import opened Common

  const DEFAULT_MAX_RETRIES: int := 3
  const DEFAULT_INITIAL_BACKOFF_MS: real := 1000.0
  const DEFAULT_BACKOFF_MULTIPLIER: real := 2.0

  datatype Outcome<T> =
    | Success(value: T)
      /** `RetryError("Failed to execute action after N attempts", cause)`. */
    | RetryFailed(message: string, cause: string)
      /** `Error("Unreachable")`: the loop body never ran. */
    | Unreachable

  /** What one call of `retry` did: its outcome, how often the action ran,
      how many warnings were logged and the sleeps between attempts. */
  datatype Trace<T> = Trace(outcome: Outcome<T>, attempts: nat, warnings: nat, sleeps: seq<real>)

  function FailureMessage(maxRetries: int): string
  {
    "Failed to execute action after " + IntToString(maxRetries) + " attempts"
  }

  /** `backoffMs / 2 + Math.floor(backoffMs * Math.random())`. */
  function Randomised(backoffMs: real, draw: real): real
  {
    backoffMs / 2.0 + (backoffMs * draw).Floor as real
  }

  /** `initialBackOffMs * 2^k`, the back-off before the (k+1)-th sleep. */
  function Backoff(initial: real, k: nat): real
  {
    if k == 0 then initial else DEFAULT_BACKOFF_MULTIPLIER * Backoff(initial, k - 1)
  }

  /** The loop from attempt number `attempt` on; the current back-off is
      `Backoff(initial, attempt - 1)`, doubled after every sleep. */
  function RetryFrom<T>(action: nat -> Result<T>, attempt: nat, maxRetries: int, initial: real, rand: nat -> real): (t: Trace<T>)
    requires attempt >= 1
    ensures attempt > maxRetries <==> t.outcome.Unreachable?
    ensures attempt > maxRetries ==> t == Trace(Unreachable, attempt - 1, 0, [])
    ensures t.outcome.Success? ==> attempt <= t.attempts <= maxRetries && action(t.attempts) == Ok(t.outcome.value)
    ensures t.outcome.Success? || t.outcome.RetryFailed? ==>
      (forall k :: attempt <= k < t.attempts ==> action(k).Failure?)
    ensures t.outcome.RetryFailed? ==>
      (t.attempts == maxRetries && action(maxRetries).Failure? &&
       t.outcome == RetryFailed(FailureMessage(maxRetries), action(maxRetries).error))
    ensures t.outcome.Success? ==> t.warnings == t.attempts - attempt && |t.sleeps| == t.warnings
    ensures t.outcome.RetryFailed? ==> t.warnings == t.attempts - attempt + 1 && |t.sleeps| == t.warnings - 1
    ensures forall i :: 0 <= i < |t.sleeps| ==>
      t.sleeps[i] == Randomised(Backoff(initial, attempt - 1 + i), rand(attempt + i))
    decreases maxRetries - attempt
  {
    if attempt > maxRetries then Trace(Unreachable, attempt - 1, 0, [])
    else
      match action(attempt)
      case Ok(v) => Trace(Success(v), attempt, 0, [])
      case Failure(e) =>
        if attempt + 1 > maxRetries then Trace(RetryFailed(FailureMessage(maxRetries), e), attempt, 1, [])
        else
          var rest := RetryFrom(action, attempt + 1, maxRetries, initial, rand);
          Trace(rest.outcome, rest.attempts, rest.warnings + 1, [Randomised(Backoff(initial, attempt - 1), rand(attempt))] + rest.sleeps)
  }

  /** `retry(action, maxRetries, initialBackOffMs)`. */
  function RetryCall<T>(action: nat -> Result<T>, maxRetries: int, initialBackOffMs: real, rand: nat -> real): (t: Trace<T>)
    ensures maxRetries < 1 ==> t == Trace(Unreachable, 0, 0, [])
    ensures maxRetries >= 1 ==> t.outcome.Success? || t.outcome.RetryFailed?
  {
    RetryFrom(action, 1, maxRetries, initialBackOffMs, rand)
  }

  /** The loop of `retry` as written, with its counters. */
  method RetryLoop<T>(action: nat -> Result<T>, maxRetries: int, initialBackOffMs: real, rand: nat -> real) returns (t: Trace<T>)
    ensures t == RetryCall(action, maxRetries, initialBackOffMs, rand)
    ensures t.outcome.Success? ==> 1 <= t.attempts <= maxRetries && action(t.attempts) == Ok(t.outcome.value)
    ensures t.outcome.RetryFailed? ==> t.attempts == maxRetries
  {
    var attempt: nat := 1;
    var backoffMs := initialBackOffMs;
    var warnings := 0;
    var sleeps: seq<real> := [];
    while attempt <= maxRetries
      invariant attempt >= 1
      invariant backoffMs == Backoff(initialBackOffMs, attempt - 1)
      invariant warnings == attempt - 1 && |sleeps| == attempt - 1
      invariant RetryCall(action, maxRetries, initialBackOffMs, rand) ==
        Continue(RetryFrom(action, attempt, maxRetries, initialBackOffMs, rand), warnings, sleeps)
      decreases maxRetries - attempt
    {
      match action(attempt)
      case Ok(v) =>
        ContinueLast(action, attempt, maxRetries, initialBackOffMs, rand, warnings, sleeps);
        return Trace(Success(v), attempt, warnings, sleeps);
      case Failure(e) =>
        warnings := warnings + 1;
        attempt := attempt + 1;
        if attempt > maxRetries {
          ContinueLast(action, attempt - 1, maxRetries, initialBackOffMs, rand, warnings - 1, sleeps);
          return Trace(RetryFailed(FailureMessage(maxRetries), e), attempt - 1, warnings, sleeps);
        }
        ContinueStep(action, attempt - 1, maxRetries, initialBackOffMs, rand, warnings - 1, sleeps);
        sleeps := sleeps + [Randomised(backoffMs, rand(attempt - 1))];
        backoffMs := backoffMs * DEFAULT_BACKOFF_MULTIPLIER;
    }
    return Trace(Unreachable, attempt - 1, 0, []);
  }

  /** A trace of the remaining attempts, preceded by `warnings` failures
      that slept `sleeps`. */
  function Continue<T>(rest: Trace<T>, warnings: nat, sleeps: seq<real>): Trace<T>
  {
    Trace(rest.outcome, rest.attempts, rest.warnings + warnings, sleeps + rest.sleeps)
  }

  /** A failed attempt that is not the last moves one failure and one sleep
      from the remaining run into the prefix. */
  lemma ContinueStep<T>(action: nat -> Result<T>, attempt: nat, maxRetries: int, initial: real, rand: nat -> real, warnings: nat, sleeps: seq<real>)
    requires 1 <= attempt && attempt + 1 <= maxRetries && action(attempt).Failure?
    ensures Continue(RetryFrom(action, attempt, maxRetries, initial, rand), warnings, sleeps) ==
      Continue(RetryFrom(action, attempt + 1, maxRetries, initial, rand), warnings + 1,
        sleeps + [Randomised(Backoff(initial, attempt - 1), rand(attempt))])
  {
    var rest := RetryFrom(action, attempt + 1, maxRetries, initial, rand);
    var x := Randomised(Backoff(initial, attempt - 1), rand(attempt));
    assert sleeps + ([x] + rest.sleeps) == sleeps + [x] + rest.sleeps;
  }

  /** The attempt that ends the run: a success, or the final failure. */
  lemma ContinueLast<T>(action: nat -> Result<T>, attempt: nat, maxRetries: int, initial: real, rand: nat -> real, warnings: nat, sleeps: seq<real>)
    requires 1 <= attempt <= maxRetries && (action(attempt).Ok? || attempt + 1 > maxRetries)
    ensures action(attempt).Ok? ==>
      Continue(RetryFrom(action, attempt, maxRetries, initial, rand), warnings, sleeps) ==
      Trace(Success(action(attempt).value), attempt, warnings, sleeps)
    ensures action(attempt).Failure? ==>
      Continue(RetryFrom(action, attempt, maxRetries, initial, rand), warnings, sleeps) ==
      Trace(RetryFailed(FailureMessage(maxRetries), action(attempt).error), attempt, warnings + 1, sleeps)
  {
    assert sleeps + [] == sleeps;
  }

  /** The sleep after a failure lies in `[backoff/2, backoff/2 + backoff)`. */
  lemma RandomisedBounds(backoffMs: real, draw: real)
    requires backoffMs > 0.0 && 0.0 <= draw < 1.0
    ensures backoffMs / 2.0 <= Randomised(backoffMs, draw) < backoffMs / 2.0 + backoffMs
  {
    assert 0.0 <= backoffMs * draw < backoffMs;
  }

  /** The k-th back-off is `initialBackOffMs * 2^k`: at least the initial
      one when that is positive, and twice the previous one. */
  lemma {:induction false} BackoffDoubles(initial: real, k: nat)
    requires initial > 0.0
    ensures Backoff(initial, k) >= initial
    ensures Backoff(initial, k + 1) == 2.0 * Backoff(initial, k)
  {
    if k > 0 {
      BackoffDoubles(initial, k - 1);
    }
  }

  /** A run that succeeds ran the action exactly up to its first success. */
  lemma SuccessIsFirst<T>(action: nat -> Result<T>, maxRetries: int, initialBackOffMs: real, rand: nat -> real, k: nat)
    requires 1 <= k <= maxRetries && action(k).Ok?
    requires forall j :: 1 <= j < k ==> action(j).Failure?
    ensures RetryCall(action, maxRetries, initialBackOffMs, rand).outcome == Success(action(k).value)
    ensures RetryCall(action, maxRetries, initialBackOffMs, rand).attempts == k
  {
  }

  /** When every attempt fails, the action ran exactly `maxRetries` times and
      a `RetryError` carries the last error. */
  lemma AllFail<T>(action: nat -> Result<T>, maxRetries: int, initialBackOffMs: real, rand: nat -> real)
    requires maxRetries >= 1
    requires forall j :: 1 <= j <= maxRetries ==> action(j).Failure?
    ensures RetryCall(action, maxRetries, initialBackOffMs, rand).attempts == maxRetries
    ensures RetryCall(action, maxRetries, initialBackOffMs, rand).warnings == maxRetries
    ensures |RetryCall(action, maxRetries, initialBackOffMs, rand).sleeps| == maxRetries - 1
    ensures RetryCall(action, maxRetries, initialBackOffMs, rand).outcome ==
      RetryFailed(FailureMessage(maxRetries), action(maxRetries).error)
  {
  }

  /** An action failing on its first two calls and succeeding on the third,
      allowed five attempts, runs exactly three times and sleeps twice. */
  lemma ThirdAttemptSucceeds(rand: nat -> real)
    ensures var action := (k: nat) => if k < 3 then Failure("Fail") else Ok("success");
      var t := RetryCall(action, 5, DEFAULT_INITIAL_BACKOFF_MS, rand);
      t.outcome == Success("success") && t.attempts == 3 && t.warnings == 2 && |t.sleeps| == 2
  {
    var action := (k: nat) => if k < 3 then Failure("Fail") else Ok("success");
    SuccessIsFirst(action, 5, DEFAULT_INITIAL_BACKOFF_MS, rand, 3);
  }
}
