/**
 * Model of the retry loop of examples/backoff_decorator/backoff.py
 * (`backoff(...)._decorate._wrapper`). The wrapped function is an oracle:
 * `calls[k]` is what its (k+1)-th call does, either return a value or raise
 * an exception; `catches(e)` says whether `e` is one of the listed
 * exception types (Python's `except exceptions:` also matches subclasses,
 * so this is a predicate rather than a set). `delay` is the pause in
 * milliseconds after a swallowed exception; `time.sleep` rejects a negative
 * length with a ValueError, which then escapes from the `except` block.
 */
module Backoff {
  import opened Common

  /** The default `max_retry_count`. */
  const DefaultMaxRetryCount: Option<int> := Some(3)

  /** The default `delay`, in milliseconds. */
  const DefaultDelay: int := 0

  /** What one call of the wrapped function does. */
  datatype Call<R, E> = Returns(value: R) | Raises(exc: E)

  /** How the wrapper ends after `calls` calls: it returns the value of the
      last call, or lets its exception escape. `SleepRaised` is the
      ValueError that `time.sleep` raises for a negative delay after the
      exception of call `calls` was swallowed. `Exhausted` means the wrapper
      was still retrying when the supplied calls ran out. */
  datatype Ending<R, E> =
    | Returned(value: R, calls: nat)
    | Raised(exc: E, calls: nat)
    | SleepRaised(calls: nat)
    | Exhausted

  /** The bound on the number of calls: `n` for `max_retry_count == n >= 1`;
      none for `None`, and none for `n <= 0`, whose counter passes 0 before
      the first comparison and never meets it again. */
  function CallLimit(maxRetryCount: Option<int>): (limit: Option<nat>)
    ensures limit.Some? ==> limit.value >= 1
  {
    if maxRetryCount.Some? && maxRetryCount.value >= 1 then Some(maxRetryCount.value) else None
  }

  /** The index of the first call that is not an exception the wrapper
      swallows, or `|calls|` if there is none. */
  function FirstStop<R, E>(catches: E -> bool, calls: seq<Call<R, E>>): (k: nat)
    ensures k <= |calls|
    ensures forall j :: 0 <= j < k ==> calls[j].Raises? && catches(calls[j].exc)
    ensures k < |calls| ==> calls[k].Returns? || !catches(calls[k].exc)
  {
    if calls == [] then 0
    else if calls[0].Raises? && catches(calls[0].exc) then 1 + FirstStop(catches, calls[1..])
    else 0
  }

  /** The reference outcome: the wrapper stops at the first call that is not
      a swallowed exception, or at the last allowed call, whichever comes
      first, and reports that call's result. With a negative delay the
      first swallowed exception, if any, is followed by the sleep's error. */
  function Expected<R, E>(catches: E -> bool, maxRetryCount: Option<int>, delay: int,
                          calls: seq<Call<R, E>>): Ending<R, E>
  {
    var first := FirstStop(catches, calls);
    var limit := CallLimit(maxRetryCount);
    var stop := if limit.Some? && limit.value - 1 < first then limit.value - 1 else first;
    if delay < 0 && 0 < stop && 0 < |calls| then SleepRaised(1)
    else if stop >= |calls| then Exhausted
    else match calls[stop]
      case Returns(v) => Returned(v, stop + 1)
      case Raises(e) => Raised(e, stop + 1)
  }

  /** `_wrapper(*args, **kwargs)`: the retry loop. */
  method Wrapper<R, E>(catches: E -> bool, maxRetryCount: Option<int>, delay: int, calls: seq<Call<R, E>>)
    returns (ending: Ending<R, E>)
    ensures ending == Expected(catches, maxRetryCount, delay, calls)
  {
    var count := maxRetryCount;
    var made := 0;
    while true
      invariant made <= |calls|
      invariant made <= FirstStop(catches, calls)
      invariant delay < 0 ==> made == 0
      invariant count.Some? <==> maxRetryCount.Some?
      invariant count.Some? ==> count.value == maxRetryCount.value - made
      invariant CallLimit(maxRetryCount).Some? ==> made < CallLimit(maxRetryCount).value
      decreases |calls| - made
    {
      if count.Some? {
        count := Some(count.value - 1);
      }
      if made == |calls| {
        return Exhausted;
      }
      var call := calls[made];
      made := made + 1;
      // Mustn't ignore the exception on the last attempt.
      if count == Some(0) {
        ending := match call
          case Returns(v) => Returned(v, made)
          case Raises(e) => Raised(e, made);
        return;
      }
      match call {
        case Returns(v) =>
          return Returned(v, made);
        case Raises(e) =>
          if !catches(e) {
            return Raised(e, made);
          }
          if delay < 0 {
            return SleepRaised(made);
          }
      }
    }
  }

  /** With a bound of n >= 1 the function is called at most n times, and the
      run always ends once n calls are available. */
  lemma AtMostLimitCalls<R, E>(catches: E -> bool, n: int, delay: int, calls: seq<Call<R, E>>)
    requires n >= 1
    ensures var ending := Expected(catches, Some(n), delay, calls);
            && (ending.Returned? ==> ending.calls <= n)
            && (ending.Raised? ==> ending.calls <= n)
            && (ending.SleepRaised? ==> ending.calls <= n)
            && (|calls| >= n ==> !ending.Exhausted?)
  {
  }

  /** The first successful call's value is returned at once, provided the
      calls before it were swallowed, the bound was not reached and the
      sleeps between them succeeded. */
  lemma FirstSuccessReturned<R, E>(catches: E -> bool, maxRetryCount: Option<int>, delay: int,
                                   calls: seq<Call<R, E>>, k: nat)
    requires k < |calls| && calls[k].Returns?
    requires forall j :: 0 <= j < k ==> calls[j].Raises? && catches(calls[j].exc)
    requires CallLimit(maxRetryCount).Some? ==> k < CallLimit(maxRetryCount).value
    requires delay >= 0 || k == 0
    ensures Expected(catches, maxRetryCount, delay, calls) == Returned(calls[k].value, k + 1)
  {
    FirstStopAt(catches, calls, k);
  }

  /** On the last allowed call any exception escapes, even a listed one. */
  lemma LastAttemptRaises<R, E>(catches: E -> bool, n: int, delay: int, calls: seq<Call<R, E>>)
    requires n >= 1 && n <= |calls|
    requires forall j :: 0 <= j < n ==> calls[j].Raises? && catches(calls[j].exc)
    requires delay >= 0 || n == 1
    ensures Expected(catches, Some(n), delay, calls) == Raised(calls[n - 1].exc, n)
  {
  }

  /** An exception that is not listed escapes on whichever call raises it. */
  lemma UnlistedEscapes<R, E>(catches: E -> bool, maxRetryCount: Option<int>, delay: int,
                              calls: seq<Call<R, E>>, k: nat)
    requires k < |calls| && calls[k].Raises? && !catches(calls[k].exc)
    requires forall j :: 0 <= j < k ==> calls[j].Raises? && catches(calls[j].exc)
    requires CallLimit(maxRetryCount).Some? ==> k < CallLimit(maxRetryCount).value
    requires delay >= 0 || k == 0
    ensures Expected(catches, maxRetryCount, delay, calls) == Raised(calls[k].exc, k + 1)
  {
    FirstStopAt(catches, calls, k);
  }

  /** With no bound (`None`, or a count of zero or less) the wrapper keeps
      retrying as long as every call raises a listed exception and the
      sleeps succeed. */
  lemma UnboundedRetries<R, E>(catches: E -> bool, maxRetryCount: Option<int>, delay: int, calls: seq<Call<R, E>>)
    requires maxRetryCount.None? || maxRetryCount.value <= 0
    requires forall j :: 0 <= j < |calls| ==> calls[j].Raises? && catches(calls[j].exc)
    requires delay >= 0 || calls == []
    ensures Expected(catches, maxRetryCount, delay, calls) == Exhausted
  {
    FirstStopAt(catches, calls, |calls|);
  }

  /** A negative delay ends the run with the sleep's ValueError exactly when
      the first call raises a listed exception and is not the last allowed
      one; only the first call is then made. */
  lemma NegativeDelayRaises<R, E>(catches: E -> bool, maxRetryCount: Option<int>, delay: int,
                                  calls: seq<Call<R, E>>)
    ensures Expected(catches, maxRetryCount, delay, calls).SleepRaised? <==>
            && delay < 0
            && 0 < |calls| && calls[0].Raises? && catches(calls[0].exc)
            && CallLimit(maxRetryCount) != Some(1)
    ensures Expected(catches, maxRetryCount, delay, calls).SleepRaised? ==>
            Expected(catches, maxRetryCount, delay, calls).calls == 1
  {
  }

  /** `FirstStop` is the position the caller names when every call before it
      was swallowed and that one was not. */
  lemma {:induction false} FirstStopAt<R, E>(catches: E -> bool, calls: seq<Call<R, E>>, k: nat)
    requires k <= |calls|
    requires forall j :: 0 <= j < k ==> calls[j].Raises? && catches(calls[j].exc)
    requires k < |calls| ==> calls[k].Returns? || !catches(calls[k].exc)
    ensures FirstStop(catches, calls) == k
  {
    if k > 0 {
      FirstStopAt(catches, calls[1..], k - 1);
    }
  }

  /** The exercise's tests: with the default bound of 3, two swallowed
      exceptions and then a success give the success on the third call;
      three swallowed exceptions let the third escape. */
  lemma SourceScenarios<E>(zeroDivision: E, value: int)
    ensures var catches := (e: E) => e == zeroDivision;
            && Expected(catches, DefaultMaxRetryCount, DefaultDelay,
                        [Raises(zeroDivision), Raises(zeroDivision), Returns(value)])
               == Returned(value, 3)
            && Expected(catches, DefaultMaxRetryCount, DefaultDelay,
                        [Raises(zeroDivision), Raises(zeroDivision), Raises(zeroDivision), Returns(value)])
               == Raised(zeroDivision, 3)
  {
    var catches := (e: E) => e == zeroDivision;
    FirstSuccessReturned(catches, DefaultMaxRetryCount, DefaultDelay,
                         [Raises(zeroDivision), Raises(zeroDivision), Returns(value)], 2);
    LastAttemptRaises(catches, 3, DefaultDelay,
                      [Raises(zeroDivision), Raises(zeroDivision), Raises(zeroDivision), Returns(value)]);
  }
}
