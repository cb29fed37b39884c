/** The retry engine `retry_with_backoff`: it invokes a remote call up to
    `MaxRetries` times, sleeping between attempts, and classifies each
    failure as rate limiting, a transient network failure, or fatal.

    The remote call is a thunk; `answer(i)` is what its i-th invocation
    (0-based) returns or raises. Sleeps are recorded, not performed. */
module Retry {
  import opened Optional

  const MaxRetries: nat := 3
  const InitialRetryDelay: nat := 2

  /** What one invocation of the remote call does: return a value, raise
      the service's rate-limit error carrying a wait in seconds, raise a
      network or time-out error, or raise anything else. */
  datatype CallOutcome<T> =
    | Ok(value: T)
    | RetryAfter(seconds: nat)
    | Network(error: string)
    | Other(error: string)

  /** What the engine raises when it gives up. `RaisedNone` is the final
      `raise` of a loop in which no network error was ever recorded, which
      raises the empty value rather than an error of the call. */
  datatype Raised = RaisedNetwork(error: string) | RaisedOther(error: string) | RaisedNone

  datatype Result<T> = Returned(value: T) | Raised(raised: Raised)

  /** The result, the sleeps taken in order, and how often the thunk ran. */
  datatype Run<T> = Run(result: Result<T>, sleeps: seq<nat>, invocations: nat)

  function Pow2(n: nat): (r: nat)
    ensures r >= 1
  {
    if n == 0 then 1 else 2 * Pow2(n - 1)
  }

  /** The back-off before the attempt following a network failure on
      0-based attempt `attempt`. */
  function Backoff(attempt: nat): nat
  {
    InitialRetryDelay * Pow2(attempt)
  }

  /** The loop of `retry_with_backoff` from attempt `attempt` on, with
      `last` the most recent network error seen so far. */
  function Attempts<T>(answer: nat -> CallOutcome<T>, attempt: nat, last: Option<string>): (r: Run<T>)
    requires attempt <= MaxRetries
    ensures attempt + r.invocations <= MaxRetries
    ensures |r.sleeps| <= r.invocations
    ensures r.result.Raised? && r.result.raised == RaisedNone ==> last.None?
    decreases MaxRetries - attempt
  {
    if attempt == MaxRetries then
      Run(if last.Some? then Raised(RaisedNetwork(last.value)) else Raised(RaisedNone), [], 0)
    else
      match answer(attempt)
      case Ok(v) => Run(Returned(v), [], 1)
      case Other(e) => Run(Raised(RaisedOther(e)), [], 1)
      case RetryAfter(d) =>
        var rest := Attempts(answer, attempt + 1, last);
        Run(rest.result, [d + 2] + rest.sleeps, rest.invocations + 1)
      case Network(e) =>
        var rest := Attempts(answer, attempt + 1, Some(e));
        Run(rest.result, [Backoff(attempt)] + rest.sleeps, rest.invocations + 1)
  }

  /** `retry_with_backoff(func)`: the thunk runs at least once and at most
      `MaxRetries` times, with at most one sleep after each invocation (the
      last attempt still sleeps before the error is raised). */
  function RetryWithBackoff<T>(answer: nat -> CallOutcome<T>): (r: Run<T>)
    ensures 1 <= r.invocations <= MaxRetries
    ensures |r.sleeps| <= r.invocations
  {
    Attempts(answer, 0, None)
  }

  // ---------------------------------------------------------------------
  // An independent, non-recursive description of the engine.

  /** Outcomes that end the loop at once. */
  predicate Final<T>(o: CallOutcome<T>)
  {
    o.Ok? || o.Other?
  }

  /** The first attempt below `MaxRetries` whose outcome ends the loop, or
      `MaxRetries` when every attempt is retried. */
  function FirstFinal<T>(answer: nat -> CallOutcome<T>, from: nat): (k: nat)
    requires from <= MaxRetries
    ensures from <= k <= MaxRetries
    ensures k < MaxRetries ==> Final(answer(k))
    ensures forall j :: from <= j < k ==> !Final(answer(j))
    decreases MaxRetries - from
  {
    if from == MaxRetries || Final(answer(from)) then from else FirstFinal(answer, from + 1)
  }

  /** The sleep that follows a retried outcome on attempt `j`. */
  function SleepAfter<T>(o: CallOutcome<T>, j: nat): nat
  {
    match o
    case RetryAfter(d) => d + 2
    case Network(_) => Backoff(j)
    case _ => 0
  }

  /** The error of the last network failure among attempts `from..upto`,
      falling back to `last` when there is none. */
  function LastNetwork<T>(answer: nat -> CallOutcome<T>, from: nat, upto: nat, last: Option<string>): (r: Option<string>)
    requires from <= upto
    ensures r.None? ==> last.None?
    decreases upto - from
  {
    if from == upto then last
    else LastNetwork(answer, from + 1, upto, if answer(from).Network? then Some(answer(from).error) else last)
  }

  /** The behaviour the loop promises, stated attempt by attempt: the thunk
      runs until the first final outcome or until the budget is spent; each
      retried attempt is followed by its sleep; a final outcome decides the
      result, otherwise the last network error (or nothing) is raised. */
  ghost predicate MeetsSpec<T>(answer: nat -> CallOutcome<T>, r: Run<T>)
  {
    var k := FirstFinal(answer, 0);
    && r.invocations == (if k < MaxRetries then k + 1 else MaxRetries)
    && |r.sleeps| == k
    && (forall j :: 0 <= j < k ==> r.sleeps[j] == SleepAfter(answer(j), j))
    && (k < MaxRetries && answer(k).Ok? ==> r.result == Returned(answer(k).value))
    && (k < MaxRetries && answer(k).Other? ==> r.result == Raised(RaisedOther(answer(k).error)))
    && (k == MaxRetries ==>
          r.result == match LastNetwork(answer, 0, MaxRetries, None)
                      case Some(e) => Raised(RaisedNetwork(e))
                      case None => Raised(RaisedNone))
  }

  /** The loop runs the thunk up to and including the first final outcome,
      or until the budget is spent. */
  lemma {:induction false} AttemptsCount<T>(answer: nat -> CallOutcome<T>, attempt: nat, last: Option<string>)
    requires attempt <= MaxRetries
    ensures var k := FirstFinal(answer, attempt);
            Attempts(answer, attempt, last).invocations == (if k < MaxRetries then k + 1 - attempt else MaxRetries - attempt)
    decreases MaxRetries - attempt
  {
    if attempt < MaxRetries && !Final(answer(attempt)) {
      var next := if answer(attempt).Network? then Some(answer(attempt).error) else last;
      AttemptsCount(answer, attempt + 1, next);
      assert Attempts(answer, attempt, last).invocations == Attempts(answer, attempt + 1, next).invocations + 1;
    }
  }

  /** One sleep per attempt before the first final outcome. */
  lemma {:induction false} AttemptsSleepCount<T>(answer: nat -> CallOutcome<T>, attempt: nat, last: Option<string>)
    requires attempt <= MaxRetries
    ensures |Attempts(answer, attempt, last).sleeps| == FirstFinal(answer, attempt) - attempt
    decreases MaxRetries - attempt
  {
    if attempt < MaxRetries && !Final(answer(attempt)) {
      var next := if answer(attempt).Network? then Some(answer(attempt).error) else last;
      AttemptsSleepCount(answer, attempt + 1, next);
      assert |Attempts(answer, attempt, last).sleeps| == |Attempts(answer, attempt + 1, next).sleeps| + 1;
    }
  }

  /** Each recorded sleep, counted from attempt `from`, is the one its
      attempt's outcome calls for. */
  ghost predicate SleepsFrom<T>(answer: nat -> CallOutcome<T>, from: nat, sleeps: seq<nat>)
  {
    forall j :: 0 <= j < |sleeps| ==> sleeps[j] == SleepAfter(answer(from + j), from + j)
  }

  lemma SleepsFromCons<T>(answer: nat -> CallOutcome<T>, from: nat, rest: seq<nat>)
    requires SleepsFrom(answer, from + 1, rest)
    ensures SleepsFrom(answer, from, [SleepAfter(answer(from), from)] + rest)
  {
    var s := [SleepAfter(answer(from), from)] + rest;
    forall j | 0 <= j < |s| ensures s[j] == SleepAfter(answer(from + j), from + j) {
      if j > 0 {
        assert s[j] == rest[j - 1];
        assert from + j == (from + 1) + (j - 1);
      }
    }
  }

  lemma {:induction false} AttemptsSleeps<T>(answer: nat -> CallOutcome<T>, attempt: nat, last: Option<string>)
    requires attempt <= MaxRetries
    ensures SleepsFrom(answer, attempt, Attempts(answer, attempt, last).sleeps)
    decreases MaxRetries - attempt
  {
    if attempt < MaxRetries {
      match answer(attempt)
      case Ok(_) =>
      case Other(_) =>
      case RetryAfter(d) =>
        AttemptsSleeps(answer, attempt + 1, last);
        SleepsFromCons(answer, attempt, Attempts(answer, attempt + 1, last).sleeps);
      case Network(e) =>
        AttemptsSleeps(answer, attempt + 1, Some(e));
        SleepsFromCons(answer, attempt, Attempts(answer, attempt + 1, Some(e)).sleeps);
    }
  }

  lemma {:induction false} AttemptsResult<T>(answer: nat -> CallOutcome<T>, attempt: nat, last: Option<string>)
    requires attempt <= MaxRetries
    ensures var r := Attempts(answer, attempt, last);
            var k := FirstFinal(answer, attempt);
            && (k < MaxRetries && answer(k).Ok? ==> r.result == Returned(answer(k).value))
            && (k < MaxRetries && answer(k).Other? ==> r.result == Raised(RaisedOther(answer(k).error)))
            && (k == MaxRetries ==>
                  r.result == match LastNetwork(answer, attempt, MaxRetries, last)
                              case Some(e) => Raised(RaisedNetwork(e))
                              case None => Raised(RaisedNone))
    decreases MaxRetries - attempt
  {
    if attempt < MaxRetries && !Final(answer(attempt)) {
      var next := if answer(attempt).Network? then Some(answer(attempt).error) else last;
      AttemptsResult(answer, attempt + 1, next);
      assert Attempts(answer, attempt, last).result == Attempts(answer, attempt + 1, next).result;
      assert LastNetwork(answer, attempt, MaxRetries, last) == LastNetwork(answer, attempt + 1, MaxRetries, next);
    }
  }

  /** The recursive engine agrees with the attempt-by-attempt description. */
  lemma RetryMeetsSpec<T>(answer: nat -> CallOutcome<T>)
    ensures MeetsSpec(answer, RetryWithBackoff(answer))
  {
    AttemptsCount(answer, 0, None);
    AttemptsSleepCount(answer, 0, None);
    AttemptsSleeps(answer, 0, None);
    AttemptsResult(answer, 0, None);
  }

  // ---------------------------------------------------------------------
  // Consequences.

  function TotalSleep(xs: seq<nat>): nat
  {
    if xs == [] then 0 else xs[0] + TotalSleep(xs[1..])
  }

  /** A first successful invocation returns its value unchanged, with no
      sleep and no further invocation. */
  lemma FirstOkReturned<T>(answer: nat -> CallOutcome<T>, v: T)
    requires answer(0) == Ok(v)
    ensures RetryWithBackoff(answer) == Run(Returned(v), [], 1)
  {
  }

  /** A non-retryable error on attempt `k` propagates at once: the thunk is
      not invoked again and no sleep follows it. */
  lemma OtherPropagatesImmediately<T>(answer: nat -> CallOutcome<T>, k: nat)
    requires k < MaxRetries && answer(k).Other?
    requires forall j :: 0 <= j < k ==> !Final(answer(j))
    ensures var r := RetryWithBackoff(answer);
            && r.result == Raised(RaisedOther(answer(k).error))
            && r.invocations == k + 1
            && |r.sleeps| == k
  {
    RetryMeetsSpec(answer);
    assert FirstFinal(answer, 0) == k;
  }

  /** A thunk that fails transiently `k < MaxRetries` times and then
      succeeds runs `k + 1` times, sleeping 2, 4, ... seconds, in total
      `INITIAL_RETRY_DELAY * (2^k - 1)`. */
  lemma TransientThenSuccess<T>(answer: nat -> CallOutcome<T>, k: nat, v: T)
    requires k < MaxRetries
    requires forall j :: 0 <= j < k ==> answer(j).Network?
    requires answer(k) == Ok(v)
    ensures var r := RetryWithBackoff(answer);
            && r.result == Returned(v)
            && r.invocations == k + 1
            && (forall j :: 0 <= j < k ==> r.sleeps[j] == Backoff(j))
            && TotalSleep(r.sleeps) == InitialRetryDelay * (Pow2(k) - 1)
  {
    RetryMeetsSpec(answer);
    var r := RetryWithBackoff(answer);
    assert FirstFinal(answer, 0) == k;
    if k == 0 {
      assert r.sleeps == [];
    } else if k == 1 {
      assert r.sleeps == [2];
      assert TotalSleep(r.sleeps) == 2 + TotalSleep([]);
    } else {
      assert r.sleeps == [2, 4];
      assert TotalSleep(r.sleeps) == 2 + TotalSleep([4]) == 6;
    }
  }

  /** A thunk that always fails transiently runs exactly `MaxRetries`
      times, sleeps 2, 4 and 8 seconds, and the last network error is
      raised. */
  lemma AlwaysTransient<T>(answer: nat -> CallOutcome<T>)
    requires forall j :: 0 <= j < MaxRetries ==> answer(j).Network?
    ensures var r := RetryWithBackoff(answer);
            && r.result == Raised(RaisedNetwork(answer(MaxRetries - 1).error))
            && r.invocations == MaxRetries
            && r.sleeps == [2, 4, 8]
            && TotalSleep(r.sleeps) == 14
  {
    RetryMeetsSpec(answer);
    var r := RetryWithBackoff(answer);
    assert !Final(answer(0)) && !Final(answer(1)) && !Final(answer(2));
    assert FirstFinal(answer, 0) == MaxRetries;
    assert r.sleeps == [2, 4, 8];
    assert TotalSleep(r.sleeps) == 2 + TotalSleep([4, 8]);
    assert TotalSleep([4, 8]) == 4 + TotalSleep([8]);
  }

  /** A rate-limit answer waits its delay plus two seconds and uses up an
      attempt; when every attempt is rate limited no network error was
      recorded and the final `raise` has nothing to raise. */
  lemma RateLimitConsumesAttempts<T>(answer: nat -> CallOutcome<T>)
    requires forall j :: 0 <= j < MaxRetries ==> answer(j).RetryAfter?
    ensures var r := RetryWithBackoff(answer);
            && r.result == Raised(RaisedNone)
            && r.invocations == MaxRetries
            && r.sleeps == [answer(0).seconds + 2, answer(1).seconds + 2, answer(2).seconds + 2]
  {
    RetryMeetsSpec(answer);
    var r := RetryWithBackoff(answer);
    assert !Final(answer(0)) && !Final(answer(1)) && !Final(answer(2));
    assert FirstFinal(answer, 0) == MaxRetries;
    assert r.sleeps == [answer(0).seconds + 2, answer(1).seconds + 2, answer(2).seconds + 2];
  }

  /** Once a network error has been seen, exhaustion raises the most recent
      one even if later attempts were rate limited. */
  lemma ExhaustionRaisesLatestNetworkError<T>(answer: nat -> CallOutcome<T>, i: nat)
    requires i < MaxRetries && answer(i).Network?
    requires forall j :: 0 <= j < MaxRetries ==> !Final(answer(j))
    requires forall j :: i < j < MaxRetries ==> answer(j).RetryAfter?
    ensures RetryWithBackoff(answer).result == Raised(RaisedNetwork(answer(i).error))
  {
    RetryMeetsSpec(answer);
    assert FirstFinal(answer, 0) == MaxRetries;
    if i == 0 {
      assert LastNetwork(answer, 0, 3, None) == LastNetwork(answer, 1, 3, Some(answer(0).error));
    }
  }
}
