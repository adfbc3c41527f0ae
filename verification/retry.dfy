/** The `retry_on_failure` decorator of the helpers module as a state
    machine. The decorated function is a script: its `k`-th call returns or
    raises as `func(k)` says. Sleeps are recorded instead of performed. */
module Retry {

  import opened Wrappers
  import opened Text

  /** One call of the wrapped function. `caught` tells whether the raised
      exception is an instance of the decorator's `exceptions` tuple. */
  datatype Call<T> = Returned(value: T) | Raised(message: String, caught: bool)

  datatype RetryRun<T> = RetryRun(outcome: Result<T, String>, calls: nat, sleeps: seq<real>)

  /** With `max_retries <= 0` the loop body never runs and the wrapper
      executes `raise None`, which Python turns into this TypeError. */
  const RaiseNoneMessage: String := "exceptions must derive from BaseException"

  function Pow(b: real, k: nat): real
  {
    if k == 0 then 1.0 else b * Pow(b, k - 1)
  }

  /** Each entry is the one before it times `ratio`. */
  predicate Geometric(s: seq<real>, ratio: real)
  {
    forall i :: 0 <= i < |s| - 1 ==> s[i + 1] == s[i] * ratio
  }

  /** A schedule stays geometric when its first entry's predecessor is put
      in front. */
  lemma {:induction false} GeometricCons(x: real, s: seq<real>, ratio: real)
    requires Geometric(s, ratio) && (|s| > 0 ==> s[0] == x * ratio)
    ensures Geometric([x] + s, ratio)
  {
    var t := [x] + s;
    forall i | 0 <= i < |t| - 1
      ensures t[i + 1] == t[i] * ratio
    {
      if i > 0 {
        assert t[i + 1] == s[i] && t[i] == s[i - 1];
      }
    }
  }

  /** The loop from attempt `attempt` on, with `currentDelay` the delay the
      next failure would sleep. */
  function Attempts<T>(func: nat -> Call<T>, maxRetries: int, currentDelay: real, backoff: real, attempt: nat): (run: RetryRun<T>)
    requires attempt < maxRetries
    ensures 1 <= run.calls <= maxRetries - attempt
    ensures |run.sleeps| == run.calls - 1
    ensures |run.sleeps| > 0 ==> run.sleeps[0] == currentDelay
    ensures Geometric(run.sleeps, backoff)
    ensures forall j :: attempt <= j < attempt + run.calls - 1 ==> func(j).Raised? && func(j).caught
    ensures run.outcome.Success? ==> func(attempt + run.calls - 1) == Returned(run.outcome.value)
    ensures run.outcome.Failure? ==>
              && func(attempt + run.calls - 1).Raised?
              && func(attempt + run.calls - 1).message == run.outcome.error
              && (!func(attempt + run.calls - 1).caught || attempt + run.calls == maxRetries)
    decreases maxRetries - attempt
  {
    match func(attempt)
    case Returned(v) => RetryRun(Success(v), 1, [])
    case Raised(m, caught) =>
      if caught && attempt < maxRetries - 1 then
        var rest := Attempts(func, maxRetries, currentDelay * backoff, backoff, attempt + 1);
        GeometricCons(currentDelay, rest.sleeps, backoff);
        RetryRun(rest.outcome, rest.calls + 1, [currentDelay] + rest.sleeps)
      else
        RetryRun(Failure(m), 1, [])
  }

  /** A call of a function wrapped by `retry_on_failure(max_retries, delay,
      backoff)`: at most `max_retries` calls; the first successful result is
      returned unchanged; after the k-th failed attempt (counting from 0) the
      wrapper sleeps `delay * backoff^k`, except after the final attempt,
      whose exception is re-raised; an exception outside `exceptions`
      propagates at once. */
  function RetryOnFailure<T>(func: nat -> Call<T>, maxRetries: int, delay: real, backoff: real): (run: RetryRun<T>)
    ensures maxRetries <= 0 ==> run == RetryRun(Failure(RaiseNoneMessage), 0, [])
    ensures maxRetries > 0 ==> 1 <= run.calls <= maxRetries && |run.sleeps| == run.calls - 1
    ensures |run.sleeps| > 0 ==> run.sleeps[0] == delay
    ensures Geometric(run.sleeps, backoff)
    ensures run.outcome.Success? ==> run.calls >= 1 && func(run.calls - 1) == Returned(run.outcome.value)
    ensures forall k :: 0 <= k < run.calls - 1 ==> func(k).Raised? && func(k).caught
    ensures maxRetries > 0 && run.outcome.Failure? ==>
              && func(run.calls - 1).Raised?
              && func(run.calls - 1).message == run.outcome.error
              && (!func(run.calls - 1).caught || run.calls == maxRetries)
  {
    if maxRetries <= 0 then RetryRun(Failure(RaiseNoneMessage), 0, [])
    else Attempts(func, maxRetries, delay, backoff, 0)
  }

  /** A geometric schedule: the k-th entry (counting from 0) is
      `first * ratio^k`. */
  lemma {:induction false} GeometricEntries(s: seq<real>, first: real, ratio: real, k: nat)
    requires k < |s| && s[0] == first
    requires Geometric(s, ratio)
    ensures s[k] == first * Pow(ratio, k)
  {
    if k > 0 {
      GeometricEntries(s, first, ratio, k - 1);
      var p := Pow(ratio, k - 1);
      assert s[k] == (first * p) * ratio;
      assert (first * p) * ratio == first * (ratio * p);
    }
  }

  /** The k-th sleep of the wrapper (counting from 0) lasts `delay * backoff^k`. */
  lemma {:induction false} SleepSchedule<T>(func: nat -> Call<T>, maxRetries: int, delay: real, backoff: real, k: nat)
    requires k < |RetryOnFailure(func, maxRetries, delay, backoff).sleeps|
    ensures RetryOnFailure(func, maxRetries, delay, backoff).sleeps[k] == delay * Pow(backoff, k)
  {
    var run := RetryOnFailure(func, maxRetries, delay, backoff);
    GeometricEntries(run.sleeps, delay, backoff, k);
  }

  /** When every call raises a caught exception, the wrapper makes exactly
      `max_retries` calls, sleeps `max_retries - 1` times and re-raises the
      last exception. */
  lemma {:induction false} AlwaysFailing<T>(func: nat -> Call<T>, maxRetries: int, delay: real, backoff: real)
    requires maxRetries > 0
    requires forall k :: 0 <= k < maxRetries ==> func(k).Raised? && func(k).caught
    ensures RetryOnFailure(func, maxRetries, delay, backoff).calls == maxRetries
    ensures |RetryOnFailure(func, maxRetries, delay, backoff).sleeps| == maxRetries - 1
    ensures RetryOnFailure(func, maxRetries, delay, backoff).outcome == Failure(func(maxRetries - 1).message)
  {
    var run := RetryOnFailure(func, maxRetries, delay, backoff);
    assert func(run.calls - 1).Raised?;
  }
}
