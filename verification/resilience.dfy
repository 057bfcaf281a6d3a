/** The circuit breaker as a function of what has happened to it, and the bounds it enforces.
    Times are those of one monotonic clock. */
module Breaker {
  import opened Common

  datatype Breaker = Breaker(failures: nat, openedAt: Option<int>)

  datatype Outcome = Succeeded | FailedAt(time: int)

  const CLOSED: Breaker := Breaker(0, None)

  function Record(b: Breaker, o: Outcome, threshold: int): Breaker {
    match o
    case Succeeded => CLOSED
    case FailedAt(time) =>
      Breaker(b.failures + 1, if b.failures + 1 >= threshold then Some(time) else b.openedAt)
  }

  function RecordAll(trace: seq<Outcome>, threshold: int): Breaker {
    if trace == [] then CLOSED
    else Record(RecordAll(trace[..|trace| - 1], threshold), trace[|trace| - 1], threshold)
  }

  predicate IsOpen(b: Breaker, now: int, reset: int) {
    b.openedAt.Some? && now - b.openedAt.value < reset
  }

  /** How many failures the trace ends with. */
  function TrailingFailures(trace: seq<Outcome>): (n: nat)
    ensures n <= |trace| && (forall i :: |trace| - n <= i < |trace| ==> trace[i].FailedAt?)
    ensures n < |trace| ==> trace[|trace| - n - 1].Succeeded?
  {
    if trace == [] || trace[|trace| - 1].Succeeded? then 0 else 1 + TrailingFailures(trace[..|trace| - 1])
  }

  /** The breaker's two fields in terms of the trace alone. */
  lemma {:induction false} BreakerCountsTrailingFailures(trace: seq<Outcome>, threshold: int)
    ensures var n := TrailingFailures(trace);
            RecordAll(trace, threshold) ==
            Breaker(n, if n > 0 && n >= threshold then Some(trace[|trace| - 1].time) else None)
    decreases |trace|
  {
    if trace != [] {
      BreakerCountsTrailingFailures(trace[..|trace| - 1], threshold);
    }
  }

  /** Calls fail fast exactly when at least `threshold` failures in a row came last and the latest of them
      is less than the reset timeout ago. */
  lemma FailsFastIff(trace: seq<Outcome>, threshold: int, now: int, reset: int)
    ensures var n := TrailingFailures(trace);
            IsOpen(RecordAll(trace, threshold), now, reset)
            <==> n > 0 && n >= threshold && now < trace[|trace| - 1].time + reset
  {
    BreakerCountsTrailingFailures(trace, threshold);
  }

  // ---- A sequential run in which every attempted call fails. ----

  /** A call: when it checks the breaker and, if let through, when its failure is recorded and how many
      HTTP attempts it made. */
  datatype Call = Call(start: int, finish: int, attempts: nat)

  ghost predicate Sequential(calls: seq<Call>) {
    && (forall i :: 0 <= i < |calls| ==> calls[i].start <= calls[i].finish)
    && (forall i :: 0 < i < |calls| ==> calls[i - 1].finish <= calls[i].start)
  }

  /** The failures recorded while `calls` are made one after the other. */
  function Trace(calls: seq<Call>, threshold: int, reset: int): (trace: seq<Outcome>)
    ensures |trace| <= |calls| && forall i :: 0 <= i < |trace| ==> trace[i].FailedAt?
  {
    if calls == [] then []
    else
      var before := Trace(calls[..|calls| - 1], threshold, reset);
      var call := calls[|calls| - 1];
      if IsOpen(RecordAll(before, threshold), call.start, reset) then before else before + [FailedAt(call.finish)]
  }

  /** HTTP attempts made by the calls that were let through. */
  function HttpAttempts(calls: seq<Call>, threshold: int, reset: int): nat {
    if calls == [] then 0
    else
      var before := calls[..|calls| - 1];
      var call := calls[|calls| - 1];
      HttpAttempts(before, threshold, reset)
      + (if IsOpen(RecordAll(Trace(before, threshold, reset), threshold), call.start, reset) then 0 else call.attempts)
  }

  lemma {:induction false} AllFailuresTrail(trace: seq<Outcome>)
    requires forall i :: 0 <= i < |trace| ==> trace[i].FailedAt?
    ensures TrailingFailures(trace) == |trace|
    decreases |trace|
  {
    if trace != [] {
      AllFailuresTrail(trace[..|trace| - 1]);
    }
  }

  /** Everything recorded happened by the end of the run, and once the breaker has opened, failures are at
      least a reset timeout apart. */
  lemma {:induction false} AttemptsSpreadOut(calls: seq<Call>, threshold: nat, reset: int)
    requires Sequential(calls) && threshold > 0
    ensures var trace := Trace(calls, threshold, reset);
            && (trace != [] ==> trace[|trace| - 1].time <= calls[|calls| - 1].finish)
            && (forall i :: threshold <= i < |trace| ==> trace[i].time >= trace[i - 1].time + reset)
    decreases |calls|
  {
    if calls != [] {
      var before := calls[..|calls| - 1];
      AttemptsSpreadOut(before, threshold, reset);
      var trace := Trace(before, threshold, reset);
      AllFailuresTrail(trace);
      FailsFastIff(trace, threshold, calls[|calls| - 1].start, reset);
    }
  }

  /** `n` times `unit`. */
  function Times(n: nat, unit: int): int {
    if n == 0 then 0 else Times(n - 1, unit) + unit
  }

  lemma {:induction false} TimesIsProduct(n: nat, reset: int)
    ensures Times(n, reset) == n * reset
    decreases n
  {
    if n > 0 {
      TimesIsProduct(n - 1, reset);
      assert n * reset == (n - 1) * reset + reset;
    }
  }

  lemma {:induction false} Spaced(trace: seq<Outcome>, threshold: nat, reset: int, i: nat)
    requires 0 < threshold <= i + 1 <= |trace| && forall k :: 0 <= k < |trace| ==> trace[k].FailedAt?
    requires forall k :: threshold <= k < |trace| ==> trace[k].time >= trace[k - 1].time + reset
    ensures trace[i].time >= trace[threshold - 1].time + Times(i + 1 - threshold, reset)
    decreases i
  {
    if i >= threshold {
      Spaced(trace, threshold, reset, i - 1);
    }
  }

  /** After such failures a call that is let through starts a reset timeout after the last of them. */
  lemma StartsLate(trace: seq<Outcome>, threshold: nat, reset: int, start: int)
    requires 0 < threshold <= |trace| && forall k :: 0 <= k < |trace| ==> trace[k].FailedAt?
    requires forall k :: threshold <= k < |trace| ==> trace[k].time >= trace[k - 1].time + reset
    requires !IsOpen(RecordAll(trace, threshold), start, reset)
    ensures start - trace[threshold - 1].time >= Times(|trace| + 1 - threshold, reset)
  {
    AllFailuresTrail(trace);
    FailsFastIff(trace, threshold, start, reset);
    Spaced(trace, threshold, reset, |trace| - 1);
    assert Times(|trace| + 1 - threshold, reset) == Times(|trace| - threshold, reset) + reset;
  }

  lemma {:induction false} SpacingBounded(calls: seq<Call>, threshold: nat, reset: int, d: nat)
    requires Sequential(calls) && threshold > 0
    requires |Trace(calls, threshold, reset)| >= threshold
    requires calls[|calls| - 1].start <= Trace(calls, threshold, reset)[threshold - 1].time + d
    ensures Times(|Trace(calls, threshold, reset)| - threshold, reset) <= d
    decreases |calls|
  {
    var before := calls[..|calls| - 1];
    var call := calls[|calls| - 1];
    var earlier := Trace(before, threshold, reset);
    if IsOpen(RecordAll(earlier, threshold), call.start, reset) {
      SpacingBounded(before, threshold, reset, d);
    } else if |earlier| >= threshold {
      AttemptsSpreadOut(before, threshold, reset);
      StartsLate(earlier, threshold, reset, call.start);
    }
  }

  /** If the last attempted call began no later than `d` after the first opening, at most
      threshold + d / reset calls were attempted: beyond `threshold`, one per reset timeout. */
  lemma AttemptsBounded(calls: seq<Call>, threshold: nat, reset: int, d: nat)
    requires Sequential(calls) && threshold > 0
    requires |Trace(calls, threshold, reset)| >= threshold
    requires calls[|calls| - 1].start <= Trace(calls, threshold, reset)[threshold - 1].time + d
    ensures (|Trace(calls, threshold, reset)| - threshold) * reset <= d
  {
    SpacingBounded(calls, threshold, reset, d);
    TimesIsProduct(|Trace(calls, threshold, reset)| - threshold, reset);
  }

  lemma {:induction false} HttpAttemptsCounted(calls: seq<Call>, threshold: nat, reset: int, most: nat)
    requires forall i :: 0 <= i < |calls| ==> calls[i].attempts <= most
    ensures HttpAttempts(calls, threshold, reset) <= Times(|Trace(calls, threshold, reset)|, most)
    decreases |calls|
  {
    if calls != [] {
      HttpAttemptsCounted(calls[..|calls| - 1], threshold, reset, most);
    }
  }

  /** A call makes at most `most` HTTP attempts, so a run makes at most `most` per attempted call: with three a
      call and a threshold of five, at most fifteen by the first opening. */
  lemma HttpAttemptsBounded(calls: seq<Call>, threshold: nat, reset: int, most: nat)
    requires forall i :: 0 <= i < |calls| ==> calls[i].attempts <= most
    ensures HttpAttempts(calls, threshold, reset) <= |Trace(calls, threshold, reset)| * most
  {
    HttpAttemptsCounted(calls, threshold, reset, most);
    TimesIsProduct(|Trace(calls, threshold, reset)|, most);
  }
}

/** The primitives themselves: retrying and the breaker object. */
module Resilience {
  import opened Common
  import opened Breaker

  /** What a call ends with. `NoException` is the error of raising a variable that was never set. */
  datatype Result<T> = Returned(value: T) | HttpError | OtherError | CircuitOpen | NoException

  function Pow2(n: nat): nat {
    if n == 0 then 1 else 2 * Pow2(n - 1)
  }

  function Delay(attempt: nat, base: nat, longest: nat): nat {
    if base * Pow2(attempt) <= longest then base * Pow2(attempt) else longest
  }

  /** The first delay is the base, each further one twice the one before, and none is longer than the longest. */
  lemma DelayDoubles(attempt: nat, base: nat, longest: nat)
    ensures Delay(0, base, longest) == if base < longest then base else longest
    ensures Delay(attempt + 1, base, longest)
            == if 2 * Delay(attempt, base, longest) < longest then 2 * Delay(attempt, base, longest) else longest
  {
    assert base * Pow2(0) == base;
    assert base * Pow2(attempt + 1) == 2 * (base * Pow2(attempt));
  }

  /** Attempts `attempt..` end at the first that does not fail in a retryable way, or with the last one. */
  function LastAttempt<T>(results: nat -> Result<T>, attempt: nat, attempts: nat): (last: nat)
    requires attempt < attempts
    ensures attempt <= last < attempts
    ensures forall i :: attempt <= i < last ==> results(i).HttpError?
    ensures last < attempts - 1 ==> !results(last).HttpError?
    decreases attempts - attempt
  {
    if !results(attempt).HttpError? || attempt == attempts - 1 then attempt
    else LastAttempt(results, attempt + 1, attempts)
  }

  /** `results(i)` is what attempt `i` would end with; only HTTP errors are retried. */
  method RetryWithBackoff<T>(results: nat -> Result<T>, attempts: int, base: nat, longest: nat)
    returns (result: Result<T>, delays: seq<nat>, made: nat)
    ensures attempts <= 0 ==> result == NoException && made == 0 && delays == []
    ensures attempts > 0 ==> made == LastAttempt(results, 0, attempts) + 1 && result == results(made - 1)
    ensures attempts > 0 ==> |delays| == made - 1
    ensures forall i :: 0 <= i < |delays| ==> delays[i] == Delay(i, base, longest)
    ensures delays != [] ==> delays[0] == if base < longest then base else longest
    ensures forall i :: 0 <= i < |delays| - 1 ==>
              delays[i + 1] == if 2 * delays[i] < longest then 2 * delays[i] else longest
  {
    result, delays, made := NoException, [], 0;
    for attempt := 0 to if attempts > 0 then attempts else 0
      invariant attempt == 0 ==> result == NoException
      invariant made == attempt && |delays| == attempt
      invariant attempts > 0 && attempt < attempts ==>
                  LastAttempt(results, 0, attempts) == LastAttempt(results, attempt, attempts)
      invariant forall i :: 0 <= i < attempt ==> delays[i] == Delay(i, base, longest)
      invariant delays != [] ==> delays[0] == if base < longest then base else longest
      invariant forall i :: 0 <= i < attempt - 1 ==>
                  delays[i + 1] == if 2 * delays[i] < longest then 2 * delays[i] else longest
      invariant attempt > 0 ==> attempt < attempts
    {
      made := made + 1;
      result := results(attempt);
      if !result.HttpError? || attempt == attempts - 1 {
        return;
      }
      DelayDoubles(if attempt > 0 then attempt - 1 else 0, base, longest);
      delays := delays + [Delay(attempt, base, longest)];
    }
  }

  const FAILURE_THRESHOLD: nat := 5
  const ATTEMPTS: nat := 3
  const BASE_DELAY: nat := 500
  const MAX_DELAY: nat := 8000

  /** Under `complete`, whatever the calls meet, at most fifteen HTTP attempts are made up to the first opening. */
  lemma FifteenUpToOpening<T>(calls: seq<Call>, results: seq<nat -> Result<T>>, reset: int)
    requires |results| == |calls|
    requires forall i :: 0 <= i < |calls| ==> calls[i].attempts == LastAttempt(results[i], 0, ATTEMPTS) + 1
    requires |Trace(calls, FAILURE_THRESHOLD, reset)| <= FAILURE_THRESHOLD
    ensures HttpAttempts(calls, FAILURE_THRESHOLD, reset) <= 15
  {
    HttpAttemptsBounded(calls, FAILURE_THRESHOLD, reset, ATTEMPTS);
  }

  class CircuitBreaker {
    const failureThreshold: int
    const resetTimeout: int
    var failureCount: nat
    var openedAt: Option<int>
    ghost var trace: seq<Outcome>

    constructor (failureThreshold: int, resetTimeout: int)
      ensures Valid() && trace == []
      ensures this.failureThreshold == failureThreshold && this.resetTimeout == resetTimeout
    {
      this.failureThreshold, this.resetTimeout := failureThreshold, resetTimeout;
      failureCount, openedAt, trace := 0, None, [];
    }

    /** The fields are what the recorded outcomes say: the length of the trailing run of failures, and the
        time of the last one once the run is long enough. */
    ghost predicate Valid()
      reads this
    {
      var n := TrailingFailures(trace);
      && failureCount == n
      && openedAt == if n > 0 && n >= failureThreshold then Some(trace[|trace| - 1].time) else None
    }

    ghost predicate FailsFast(now: int)
      reads this
    {
      var n := TrailingFailures(trace);
      n > 0 && n >= failureThreshold && now < trace[|trace| - 1].time + resetTimeout
    }

    method CheckOpen(now: int) returns (open: bool)
      requires Valid()
      ensures open == FailsFast(now)
    {
      if openedAt.None? {
        return false;
      }
      if now - openedAt.value >= resetTimeout {
        return false;
      }
      open := true;
    }

    method RecordSuccess()
      requires Valid()
      modifies this
      ensures Valid() && trace == old(trace) + [Succeeded]
    {
      trace := trace + [Succeeded];
      failureCount, openedAt := 0, None;
    }

    method RecordFailure(now: int)
      requires Valid()
      modifies this
      ensures Valid() && trace == old(trace) + [FailedAt(now)]
    {
      assert (trace + [FailedAt(now)])[..|trace|] == trace;
      trace := trace + [FailedAt(now)];
      failureCount := failureCount + 1;
      if failureCount >= failureThreshold {
        openedAt := Some(now);
      }
    }

    /** `complete`: the breaker around three attempts. The call starts at `start` and, when it is let
        through, ends at `finish`. `made` counts the HTTP attempts. */
    method CallWithRetry<T>(results: nat -> Result<T>, start: int, finish: int) returns (result: Result<T>, made: nat)
      requires Valid()
      modifies this
      ensures Valid()
      ensures old(FailsFast(start)) ==> result == CircuitOpen && made == 0 && trace == old(trace)
      ensures !old(FailsFast(start)) ==>
                && made == LastAttempt(results, 0, ATTEMPTS) + 1 && result == results(made - 1)
                && trace == old(trace) + [if result.Returned? then Succeeded else FailedAt(finish)]
    {
      var open := CheckOpen(start);
      if open {
        return CircuitOpen, 0;
      }
      var delays: seq<nat>;
      result, delays, made := RetryWithBackoff(results, ATTEMPTS, BASE_DELAY, MAX_DELAY);
      if result.Returned? {
        RecordSuccess();
      } else {
        RecordFailure(finish);
      }
    }
  }
}
