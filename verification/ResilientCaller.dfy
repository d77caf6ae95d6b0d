/** Rate limit, retries and breaker composed around one call
    (windbreak/connector/resilience.py). */
module ResilientCallers {
  import opened Numeric
  import opened TokenBuckets
  import opened CircuitBreakers

  const MIN_SERVER_ERROR := 500
  const MAX_SERVER_ERROR := 599
  const TOO_MANY_REQUESTS := 429
  const MAX_BACKOFF_SHIFT := 30

  datatype Policy = Policy(
    bucketCapacity: int, refillInterval: int, maxAttempts: int, baseBackoff: int, maxBackoff: int, maxJitter: int,
    failureThreshold: int, cooldown: int) {
    /** What construction enforces. */
    predicate Valid() {
      && bucketCapacity >= 1 && refillInterval >= 1 && maxAttempts >= 1 && failureThreshold >= 1
      && baseBackoff >= 0 && maxBackoff >= 0 && maxJitter >= 0 && cooldown >= 0
    }
  }

  /** One physical attempt: a result, or an error with the integer status it carries, if any. */
  datatype Attempt = Returned(value: int) | Raised(status: Option<int>)

  predicate IsRetryableStatus(status: int)
  {
    status == TOO_MANY_REQUESTS || MIN_SERVER_ERROR <= status <= MAX_SERVER_ERROR
  }

  /** An error without an integer status is a transport failure, always worth retrying. */
  predicate IsRetryable(a: Attempt)
  {
    a.Raised? && (a.status.None? || IsRetryableStatus(a.status.value))
  }

  function EndingOf(a: Attempt): Ending
  {
    if a.Returned? then Succeeded else if IsRetryable(a) then Exhausted else Rejected
  }

  /** Only an error with a status other than 429 and outside the 500s is rejected at once; one
      without a status is retried like those. */
  lemma EndingByStatus(a: Attempt)
    ensures EndingOf(a).Succeeded? <==> a.Returned?
    ensures EndingOf(a).Rejected? <==> a.Raised? && a.status.Some? && a.status.value != 429 && a.status.value / 100 != 5
  {}

  function Pow2(n: nat): (p: int)
    ensures p >= 1
  {
    if n == 0 then 1 else 2 * Pow2(n - 1)
  }

  /** The pre-jitter backoff after failed attempt `attempt`. */
  function Backoff(p: Policy, attempt: nat): int
  {
    Min(p.maxBackoff, p.baseBackoff * Pow2(Min(attempt, MAX_BACKOFF_SHIFT)))
  }

  lemma {:induction false} Pow2Monotone(a: nat, b: nat)
    requires a <= b
    ensures Pow2(a) <= Pow2(b)
  {
    if a < b { Pow2Monotone(a, b - 1); }
  }

  /** Backoff never shrinks from one attempt to the next, and never passes its ceiling. */
  lemma BackoffGrowsToCeiling(p: Policy, a: nat, b: nat)
    requires p.Valid() && a <= b
    ensures 0 <= Backoff(p, a) <= Backoff(p, b) <= p.maxBackoff
  {
    hide Pow2;
    var s, t := Pow2(Min(a, MAX_BACKOFF_SHIFT)), Pow2(Min(b, MAX_BACKOFF_SHIFT));
    Pow2Monotone(Min(a, MAX_BACKOFF_SHIFT), Min(b, MAX_BACKOFF_SHIFT));
    ScaleMonotone(p.baseBackoff, s, t);
  }

  /** It starts at the base and doubles with every attempt, thirty times at most, under its ceiling. */
  lemma BackoffDoubles(p: Policy, a: nat)
    requires p.Valid()
    ensures Backoff(p, 0) == Min(p.baseBackoff, p.maxBackoff)
    ensures Backoff(p, a + 1) == if a < 30 then Min(2 * Backoff(p, a), p.maxBackoff) else Backoff(p, a)
  {
    hide Pow2;
    PowersOfTwo(Min(a, MAX_BACKOFF_SHIFT));
    var s := Pow2(Min(a, MAX_BACKOFF_SHIFT));
    assert p.baseBackoff * (2 * s) == 2 * (p.baseBackoff * s);
    ScaleMonotone(p.baseBackoff, 0, s);
  }

  lemma PowersOfTwo(n: nat)
    ensures Pow2(0) == 1 && Pow2(n + 1) == 2 * Pow2(n)
  {}

  lemma ScaleMonotone(c: int, s: int, t: int)
    requires c >= 0 && 0 <= s <= t
    ensures 0 <= c * s <= c * t
  {}

  class CircuitBreaker {
    const threshold: int
    const cooldown: int
    const clock: Clock
    var state: CircuitState
    var failures: nat
    var openedAt: int
    var justOpened: bool

    ghost function Value(): Breaker
      reads this
    {
      Breaker(threshold, cooldown, state, failures, openedAt, justOpened)
    }

    constructor (threshold: int, cooldown: int, clock: Clock)
      ensures Value() == NewBreaker(threshold, cooldown) && this.clock == clock
    {
      this.threshold, this.cooldown, this.clock := threshold, cooldown, clock;
      state, failures, openedAt, justOpened := Closed, 0, 0, false;
    }

    /** Gate a call; the clock is read only when the breaker is OPEN. */
    method BeforeCall() returns (admitted: bool)
      modifies this`state, clock
      ensures clock.now >= old(clock.now)
      ensures admitted == Admits(old(Value()), clock.now)
      ensures Value() == if admitted then Gated(old(Value())) else old(Value())
    {
      if state.Closed? { return true; }
      if state.HalfOpen? { return false; }
      var now := clock.Read();
      admitted := now - openedAt >= cooldown;
      if admitted { state := HalfOpen; }
    }

    method Success()
      modifies this
      ensures Value() == RecordSuccess(old(Value()))
    {
      state, failures, justOpened := Closed, 0, false;
    }

    /** Count a failure, tripping at the threshold or from a failed probe. */
    method Failure()
      modifies this, clock
      ensures clock.now >= old(clock.now)
      ensures Value() == RecordFailure(old(Value()), clock.now)
    {
      justOpened := false;
      failures := failures + 1;
      if state.HalfOpen? || failures >= threshold {
        justOpened := !state.Open?;
        state := Open;
        openedAt := clock.Read();
      }
    }
  }

  datatype Reply = Refused | Answered(attempt: Attempt)

  class ResilientCaller {
    const policy: Policy
    const clock: Clock
    const breaker: CircuitBreaker
    const bucket: TokenBucket
    /** The streak each halt event was recorded with; a failing writer is isolated, so this is
        every attempt to record one. */
    var haltEvents: seq<nat>
    /** Every call so far. */
    ghost var calls: seq<Call>

    ghost function Start(): Breaker { NewBreaker(policy.failureThreshold, policy.cooldown) }

    ghost predicate Valid()
      reads this, bucket, breaker, clock
    {
      && policy.Valid() && bucket.clock == clock && breaker.clock == clock
      && bucket.Valid() && bucket.capacity == policy.bucketCapacity && bucket.interval == policy.refillInterval
      && breaker.Value() == AfterCalls(Start(), calls)
      && InTime(calls) && (calls != [] ==> calls[|calls| - 1].end <= clock.now)
      && |haltEvents| == HaltRecords(Start(), calls)
    }

    constructor (policy: Policy, clock: Clock)
      requires policy.Valid()
      modifies clock
      ensures Valid() && calls == [] && haltEvents == [] && bucket.visits == []
      ensures fresh(bucket) && fresh(breaker)
    {
      this.policy, this.clock := policy, clock;
      breaker := new CircuitBreaker(policy.failureThreshold, policy.cooldown, clock);
      bucket := new TokenBucket(policy.bucketCapacity, policy.refillInterval, clock);
      haltEvents, calls := [], [];
    }

    /** One token per physical attempt, stopping at the first result or non-retryable error and
        backing off between retryable ones. */
    method RunAttempts(fn: nat -> Attempt) returns (last: Attempt, attempts: nat, waits: seq<int>)
      requires policy.Valid() && bucket.clock == clock && bucket.Valid()
      modifies bucket, clock
      ensures bucket.Valid() && clock.now >= old(clock.now)
      ensures 1 <= attempts <= policy.maxAttempts && last == fn(attempts - 1)
      ensures forall k :: 0 <= k < attempts - 1 ==> IsRetryable(fn(k))
      ensures IsRetryable(last) ==> attempts == policy.maxAttempts
      ensures |bucket.visits| == |old(bucket.visits)| + attempts && old(bucket.visits) <= bucket.visits
      ensures forall k :: |old(bucket.visits)| <= k < |bucket.visits| ==> bucket.visits[k].first >= old(clock.now)
      ensures |waits| == attempts - 1
      ensures forall k :: 0 <= k < |waits| ==> Backoff(policy, k) <= waits[k] <= Backoff(policy, k) + policy.maxJitter
    {
      hide Backoff, IsRetryable, PossibleRun, AfterVisits;
      last, waits, attempts := Raised(None), [], 0;
      while attempts < policy.maxAttempts
        invariant 0 <= attempts <= policy.maxAttempts
        invariant bucket.Valid() && clock.now >= old(clock.now)
        invariant forall k :: 0 <= k < attempts ==> IsRetryable(fn(k))
        invariant attempts > 0 ==> last == fn(attempts - 1)
        invariant |bucket.visits| == |old(bucket.visits)| + attempts && old(bucket.visits) <= bucket.visits
        invariant forall k :: |old(bucket.visits)| <= k < |bucket.visits| ==> bucket.visits[k].first >= old(clock.now)
        invariant |waits| == (if attempts < policy.maxAttempts then attempts else attempts - 1)
        invariant forall k :: 0 <= k < |waits| ==>
            Backoff(policy, k) <= waits[k] <= Backoff(policy, k) + policy.maxJitter
      {
        bucket.AcquireToken();
        last := fn(attempts);
        attempts := attempts + 1;
        if !IsRetryable(last) { return; }
        if attempts < policy.maxAttempts {
          var jitter :| 0 <= jitter <= policy.maxJitter;
          var wait := Backoff(policy, attempts - 1) + jitter;
          clock.Sleep(wait);
          waits := waits + [wait];
        }
      }
    }

    /** Refused without an attempt while the breaker refuses; otherwise run the attempts, count
        at most one failure, and record one halt if that tripped the breaker. */
    method Invoke(fn: nat -> Attempt) returns (r: Reply)
      requires Valid()
      modifies this`haltEvents, this`calls, bucket, breaker, clock
      ensures Valid() && |calls| == |old(calls)| + 1 && old(calls) <= calls
      ensures r.Refused? <==> !Admits(old(breaker.Value()), calls[|old(calls)|].gate)
      ensures r.Refused? ==> bucket.visits == old(bucket.visits) && haltEvents == old(haltEvents)
      ensures r.Answered? ==> calls[|old(calls)|].ending == EndingOf(r.attempt)
      ensures r.Answered? ==>
                var n := |bucket.visits| - |old(bucket.visits)|;
                && 1 <= n <= policy.maxAttempts && r.attempt == fn(n - 1)
                && (forall k :: 0 <= k < n - 1 ==> IsRetryable(fn(k)))
                && (IsRetryable(r.attempt) ==> n == policy.maxAttempts)
      ensures forall k :: |old(bucket.visits)| <= k < |bucket.visits| ==>
          bucket.visits[k].first >= calls[|old(calls)|].gate
      ensures haltEvents
           == old(haltEvents)
              + if Trips(old(breaker.Value()), calls[|old(calls)|]) then [Streak(Start(), calls)] else []
    {
      hide AfterCalls, HaltRecords, PossibleRun, AfterVisits, Streak, IsRetryable;
      ghost var before := breaker.Value();
      ghost var past := calls;
      var admitted := breaker.BeforeCall();
      ghost var gate := clock.now;
      if !admitted {
        ghost var c := Call(gate, Rejected, gate);
        CallsExtend(Start(), past, c);
        TripRecordsOneHalt(policy.failureThreshold, policy.cooldown, past, c);
        InTimeExtends(past, c);
        calls := past + [c];
        return Refused;
      }
      var last, attempts, waits := RunAttempts(fn);
      if last.Returned? {
        breaker.Success();
      } else if IsRetryable(last) {
        breaker.Failure();
        if breaker.justOpened { haltEvents := haltEvents + [breaker.failures]; }
      }
      ghost var c := Call(gate, EndingOf(last), clock.now);
      FailuresAreStreak(policy, past + [c]);
      CallsExtend(Start(), past, c);
      TripRecordsOneHalt(policy.failureThreshold, policy.cooldown, past, c);
      InTimeExtends(past, c);
      calls := past + [c];
      r := Answered(last);
    }
  }

  lemma FailuresAreStreak(p: Policy, calls: seq<Call>)
    requires p.failureThreshold >= 1
    ensures var b := NewBreaker(p.failureThreshold, p.cooldown);
            AfterCalls(b, calls).failures == Streak(b, calls)
  {
    BreakerInvariant(p.failureThreshold, p.cooldown, calls);
  }

  lemma InTimeExtends(calls: seq<Call>, c: Call)
    requires InTime(calls) && c.gate <= c.end && (calls != [] ==> calls[|calls| - 1].end <= c.gate)
    ensures InTime(calls + [c])
  {}

  /** Whatever was called and retried, the physical attempts of a caller stay within its budget. */
  lemma AttemptsWithinBudget(caller: ResilientCaller)
    requires caller.Valid()
    ensures |caller.bucket.visits| <= caller.policy.bucketCapacity
              + FloorQuotient(caller.clock.now - caller.bucket.born, caller.policy.refillInterval)
    ensures forall i, j :: 0 <= i <= j < |caller.bucket.visits| ==>
              j - i + 1 <= caller.policy.bucketCapacity + 1
                + Ticks(caller.bucket.visits[j].done - caller.bucket.visits[i].done, caller.policy.refillInterval)
  {
    var bucket := caller.bucket;
    BornBeforeNow(bucket);
    AdmissionsBy(bucket.capacity, bucket.interval, bucket.born, bucket.visits, caller.clock.now, |bucket.visits|);
    forall i, j | 0 <= i <= j < |bucket.visits|
      ensures j - i + 1 <= bucket.capacity + 1 + Ticks(bucket.visits[j].done - bucket.visits[i].done, bucket.interval)
    {
      AdmissionsWithin(bucket.capacity, bucket.interval, bucket.born, bucket.visits, i, j);
    }
  }

  lemma BornBeforeNow(bucket: TokenBucket)
    requires bucket.Valid()
    ensures bucket.born <= bucket.clock.now
  {
    hide PossibleRun, AfterVisits;
    var grants := RunIsBalanced(bucket.Start(), bucket.visits);
    ScaleMonotone(bucket.interval, 0, grants);
  }
}
