/** The `retry` decorator: call the wrapped function up to `attempts` times,
    return its first result, sleep `delay` between failed attempts, and
    re-raise the last error when every attempt failed. */
module Retry {

  /** What one call of the wrapped function does. */
  datatype Attempt<T> = Succeeded(value: T) | Raised(error: string)

  /** What the wrapper does: return the function's result, re-raise its last
      error, or, when no attempt is allowed at all, return None. */
  datatype Outcome<T> = Returned(value: T) | ReRaised(error: string) | ReturnedNone

  /** An outcome and the number of calls it took. */
  datatype RetryRun<T> = RetryRun(outcome: Outcome<T>, calls: nat)

  /** Calls number i, i + 1, ... of at most `attempts`; `call(k)` is what
      call number k (from 0) does. */
  function RetryFrom<T>(call: nat -> Attempt<T>, i: nat, attempts: nat): (r: RetryRun<T>)
    requires i < attempts
    ensures i < r.calls <= attempts
    ensures !r.outcome.ReturnedNone?
    decreases attempts - i
  {
    match call(i)
    case Succeeded(v) => RetryRun(Returned(v), i + 1)
    case Raised(e) => if i == attempts - 1 then RetryRun(ReRaised(e), i + 1) else RetryFrom(call, i + 1, attempts)
  }

  /** The wrapper as a whole. */
  function Retried<T>(attempts: int, call: nat -> Attempt<T>): RetryRun<T>
  {
    if attempts <= 0 then RetryRun(ReturnedNone, 0) else RetryFrom(call, 0, attempts)
  }

  /** The wrapper's loop. `sleeps` lists the delays slept, in order. */
  method Retry<T>(attempts: int, delay: int, call: nat -> Attempt<T>)
    returns (outcome: Outcome<T>, calls: nat, sleeps: seq<int>)
    ensures RetryRun(outcome, calls) == Retried(attempts, call)
    ensures |sleeps| == (if calls == 0 then 0 else calls - 1)
    ensures forall k :: 0 <= k < |sleeps| ==> sleeps[k] == delay
  {
    calls := 0;
    sleeps := [];
    var i := 0;
    while i < attempts
      invariant 0 <= i && (attempts > 0 ==> i < attempts) && (attempts <= 0 ==> i == 0)
      invariant calls == i && |sleeps| == i
      invariant forall k :: 0 <= k < i ==> sleeps[k] == delay
      invariant attempts > 0 ==> Retried(attempts, call) == RetryFrom(call, i, attempts)
    {
      var attempt := call(i);
      calls := calls + 1;
      match attempt {
        case Succeeded(v) =>
          return Returned(v), calls, sleeps;
        case Raised(e) =>
          if i == attempts - 1 {
            return ReRaised(e), calls, sleeps;
          }
          sleeps := sleeps + [delay];
      }
      i := i + 1;
    }
    outcome := ReturnedNone;
  }

  /** At most `attempts` calls, at least one when any is allowed, and none
      (returning None) when `attempts` is zero or negative. */
  lemma RetryCallsBounded<T>(attempts: int, call: nat -> Attempt<T>)
    ensures attempts <= 0 ==> Retried(attempts, call) == RetryRun(ReturnedNone, 0)
    ensures attempts > 0 ==> 1 <= Retried(attempts, call).calls <= attempts
  {
  }

  /** A returned value is the result of the last call made, and every
      earlier call raised: the first success ends the loop. */
  lemma {:induction false} RetryStopsAtFirstSuccess<T>(call: nat -> Attempt<T>, i: nat, attempts: nat)
    requires i < attempts
    ensures var r := RetryFrom(call, i, attempts);
      r.outcome.Returned? ==>
        (call(r.calls - 1) == Succeeded(r.outcome.value)
        && forall k :: i <= k < r.calls - 1 ==> call(k).Raised?)
    decreases attempts - i
  {
    if call(i).Raised? && i < attempts - 1 {
      RetryStopsAtFirstSuccess(call, i + 1, attempts);
    }
  }

  /** The wrapper re-raises exactly when every allowed call raised; it then
      made all `attempts` calls and re-raises the last call's error. */
  lemma {:induction false} RetryReRaisesLastError<T>(call: nat -> Attempt<T>, i: nat, attempts: nat)
    requires i < attempts
    ensures var r := RetryFrom(call, i, attempts);
      && (r.outcome.ReRaised? <==> forall k :: i <= k < attempts ==> call(k).Raised?)
      && (r.outcome.ReRaised? ==> r.calls == attempts && call(attempts - 1) == Raised(r.outcome.error))
    decreases attempts - i
  {
    if call(i).Raised? && i < attempts - 1 {
      RetryReRaisesLastError(call, i + 1, attempts);
      if forall k :: i + 1 <= k < attempts ==> call(k).Raised? {
        assert forall k :: i <= k < attempts ==> call(k).Raised?;
      }
    }
  }

  /** The wrapper never returns None once an attempt is allowed: it either
      returns a result or re-raises. */
  lemma RetryNeverNoneWhenAllowed<T>(attempts: int, call: nat -> Attempt<T>)
    requires attempts > 0
    ensures !Retried(attempts, call).outcome.ReturnedNone?
  {
  }
}
