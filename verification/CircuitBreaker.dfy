/** The CLOSED / OPEN / HALF_OPEN breaker (windbreak/connector/resilience.py) over every
    sequential run of calls. */
module CircuitBreakers {
  datatype CircuitState = Closed | Open | HalfOpen

  datatype Breaker = Breaker(threshold: int, cooldown: int, state: CircuitState, failures: nat, openedAt: int,
      justOpened: bool)

  function NewBreaker(threshold: int, cooldown: int): Breaker
  {
    Breaker(threshold, cooldown, Closed, 0, 0, false)
  }

  predicate Admits(b: Breaker, now: int)
  {
    b.state.Closed? || (b.state.Open? && now - b.openedAt >= b.cooldown)
  }

  /** The state an admitted call runs in: a cooled-down breaker lets one probe through. */
  function Gated(b: Breaker): Breaker
  {
    if b.state.Open? then b.(state := HalfOpen) else b
  }

  function RecordSuccess(b: Breaker): Breaker
  {
    b.(state := Closed, failures := 0, justOpened := false)
  }

  function RecordFailure(b: Breaker, now: int): Breaker
  {
    var counted := b.(justOpened := false, failures := b.failures + 1);
    if b.state.HalfOpen? || counted.failures >= b.threshold then
      counted.(justOpened := !b.state.Open?, state := Open, openedAt := now)
    else counted
  }

  /** How an admitted call ended: a result, a non-retryable error, or every attempt used up. */
  datatype Ending = Succeeded | Rejected | Exhausted

  /** One call: the clock at the gate, how it would end, and the clock at its end. */
  datatype Call = Call(gate: int, ending: Ending, end: int)

  function AfterCall(b: Breaker, c: Call): Breaker
  {
    if !Admits(b, c.gate) then b
    else
      match c.ending
      case Succeeded => RecordSuccess(Gated(b))
      case Rejected => Gated(b)
      case Exhausted => RecordFailure(Gated(b), c.end)
  }

  function AfterCalls(b: Breaker, calls: seq<Call>): Breaker
  {
    if calls == [] then b else AfterCall(AfterCalls(b, calls[..|calls| - 1]), calls[|calls| - 1])
  }

  /** Whether the call makes an attempt to record a halt. */
  predicate RecordsHalt(b: Breaker, c: Call)
  {
    Admits(b, c.gate) && c.ending.Exhausted? && AfterCall(b, c).justOpened
  }

  /** Whether the call leaves a breaker OPEN that was not refusing it. */
  predicate Trips(b: Breaker, c: Call)
  {
    Admits(b, c.gate) && AfterCall(b, c).state.Open?
  }

  function HaltRecords(b: Breaker, calls: seq<Call>): nat
  {
    if calls == [] then 0
    else
      var before := calls[..|calls| - 1];
      HaltRecords(b, before) + if RecordsHalt(AfterCalls(b, before), calls[|calls| - 1]) then 1 else 0
  }

  /** Retryable exhaustions since the last success, refused calls not counting. */
  function Streak(b: Breaker, calls: seq<Call>): nat
  {
    if calls == [] then 0
    else
      var before, c := calls[..|calls| - 1], calls[|calls| - 1];
      if !Admits(AfterCalls(b, before), c.gate) || c.ending.Rejected? then Streak(b, before)
      else if c.ending.Succeeded? then 0
      else Streak(b, before) + 1
  }

  ghost predicate InTime(calls: seq<Call>)
  {
    && (forall k :: 0 <= k < |calls| ==> calls[k].gate <= calls[k].end)
    && (forall k :: 0 <= k < |calls| - 1 ==> calls[k].end <= calls[k + 1].gate)
  }

  lemma CallsExtend(b: Breaker, calls: seq<Call>, c: Call)
    ensures AfterCalls(b, calls + [c]) == AfterCall(AfterCalls(b, calls), c)
    ensures HaltRecords(b, calls + [c]) == HaltRecords(b, calls) + if RecordsHalt(AfterCalls(b, calls), c) then 1 else 0
  {}

  // ---------------------------------------------------------------- over every run

  /** Between calls: CLOSED means below the threshold, and the counter is the unbroken streak. */
  lemma {:induction false} BreakerInvariant(threshold: int, cooldown: int, calls: seq<Call>)
    requires threshold >= 1
    ensures var b := AfterCalls(NewBreaker(threshold, cooldown), calls);
            && b.threshold == threshold && b.cooldown == cooldown
            && (b.state.Closed? ==> b.failures < threshold)
            && b.failures == Streak(NewBreaker(threshold, cooldown), calls)
            && (b.state.Open? ==> b.failures >= 1)
  {
    if calls != [] {
      BreakerInvariant(threshold, cooldown, calls[..|calls| - 1]);
    }
  }

  /** A call trips exactly when it used up its attempts as a probe or as the failure reaching
      the threshold; every trip records one halt and nothing else records any. */
  lemma TripRecordsOneHalt(threshold: int, cooldown: int, calls: seq<Call>, c: Call)
    requires threshold >= 1
    ensures var b := AfterCalls(NewBreaker(threshold, cooldown), calls);
            && (RecordsHalt(b, c) <==> Trips(b, c))
            && (Trips(b, c) <==> Admits(b, c.gate) && c.ending.Exhausted?
                                 && (b.state.Open? || Streak(NewBreaker(threshold, cooldown), calls) + 1 >= threshold))
  {
    BreakerInvariant(threshold, cooldown, calls);
  }

  function TripCount(b: Breaker, calls: seq<Call>): nat
  {
    if calls == [] then 0
    else
      var before := calls[..|calls| - 1];
      TripCount(b, before) + if Trips(AfterCalls(b, before), calls[|calls| - 1]) then 1 else 0
  }

  lemma {:induction false} HaltsCountTrips(threshold: int, cooldown: int, calls: seq<Call>)
    requires threshold >= 1
    ensures HaltRecords(NewBreaker(threshold, cooldown), calls) == TripCount(NewBreaker(threshold, cooldown), calls)
  {
    if calls != [] {
      var before := calls[..|calls| - 1];
      HaltsCountTrips(threshold, cooldown, before);
      TripRecordsOneHalt(threshold, cooldown, before, calls[|calls| - 1]);
    }
  }

  /** Once call `i` has tripped: still cooling from then or later, stuck half-open, or the
      cooldown is over. */
  ghost predicate CoolingSince(b: Breaker, calls: seq<Call>, i: nat)
    requires i < |calls|
  {
    || (b.state.Open? && b.openedAt >= calls[i].end)
    || b.state.HalfOpen?
    || calls[|calls| - 1].end >= calls[i].end + b.cooldown
  }

  lemma {:induction false} TripStartsCooldown(threshold: int, cooldown: int, calls: seq<Call>, i: nat)
    requires threshold >= 1 && cooldown >= 0 && InTime(calls) && i < |calls|
    requires Trips(AfterCalls(NewBreaker(threshold, cooldown), calls[..i]), calls[i])
    ensures CoolingSince(AfterCalls(NewBreaker(threshold, cooldown), calls), calls, i)
  {
    var before := calls[..|calls| - 1];
    BreakerInvariant(threshold, cooldown, before);
    if i < |before| {
      assert before[..i] == calls[..i] && before[i] == calls[i];
      TripStartsCooldown(threshold, cooldown, before, i);
      assert before[|before| - 1].end <= calls[|calls| - 1].gate <= calls[|calls| - 1].end;
    } else {
      assert before == calls[..i];
    }
  }

  /** After a trip no call is admitted, so no attempt is made, before a full cooldown; hence two
      trips are at least a cooldown apart. */
  lemma TripsAreACooldownApart(threshold: int, cooldown: int, calls: seq<Call>, i: nat, j: nat)
    requires threshold >= 1 && cooldown >= 0 && InTime(calls) && i < j < |calls|
    requires Trips(AfterCalls(NewBreaker(threshold, cooldown), calls[..i]), calls[i])
    requires Admits(AfterCalls(NewBreaker(threshold, cooldown), calls[..j]), calls[j].gate)
    ensures calls[j].gate >= calls[i].end + cooldown && calls[j].end >= calls[i].end + cooldown
  {
    var prefix := calls[..j];
    assert prefix[..i] == calls[..i] && prefix[i] == calls[i];
    TripStartsCooldown(threshold, cooldown, prefix, i);
    BreakerInvariant(threshold, cooldown, prefix);
    assert prefix[|prefix| - 1] == calls[j - 1];
  }

  /** Call `i` tripped the breaker and no later call was let through. */
  ghost predicate Cooling(b: Breaker, calls: seq<Call>, i: nat)
  {
    && i < |calls| && Trips(AfterCalls(b, calls[..i]), calls[i])
    && forall m :: i < m < |calls| ==> !Admits(AfterCalls(b, calls[..m]), calls[m].gate)
  }

  lemma {:induction false} CoolingIsOpen(b: Breaker, calls: seq<Call>, i: nat)
    requires Cooling(b, calls, i)
    ensures AfterCalls(b, calls).state.Open? && AfterCalls(b, calls).openedAt == calls[i].end
    ensures AfterCalls(b, calls).cooldown == AfterCalls(b, calls[..i]).cooldown
  {
    var last := |calls| - 1;
    var before := calls[..last];
    if i < last {
      assert before[..i] == calls[..i] && before[i] == calls[i];
      assert forall m :: i < m < last ==> before[..m] == calls[..m] && before[m] == calls[m];
      CoolingIsOpen(b, before, i);
      assert !Admits(AfterCalls(b, calls[..last]), calls[last].gate);
    } else {
      assert before == calls[..i];
    }
  }

  lemma {:induction false} OpenIsCooling(threshold: int, cooldown: int, calls: seq<Call>) returns (i: nat)
    requires threshold >= 1 && AfterCalls(NewBreaker(threshold, cooldown), calls).state.Open?
    ensures Cooling(NewBreaker(threshold, cooldown), calls, i)
  {
    var b, last := NewBreaker(threshold, cooldown), |calls| - 1;
    var before := calls[..last];
    if Admits(AfterCalls(b, before), calls[last].gate) {
      i := last;
    } else {
      i := OpenIsCooling(threshold, cooldown, before);
      assert before[..i] == calls[..i] && before[i] == calls[i];
      forall m | i < m < |calls| ensures !Admits(AfterCalls(b, calls[..m]), calls[m].gate) {
        if m < last { assert before[..m] == calls[..m] && before[m] == calls[m]; }
      }
    }
  }

  /** A call is refused exactly when a rejected probe is stuck, or the last trip since which
      nothing was let through is less than a cooldown old; a breaker past its cooldown, and a
      closed one, always let it through. */
  lemma RefusesExactly(threshold: int, cooldown: int, calls: seq<Call>, now: int)
    requires threshold >= 1
    ensures var b := NewBreaker(threshold, cooldown);
            !Admits(AfterCalls(b, calls), now)
            <==> || (exists k :: 0 <= k < |calls| && RejectedProbe(b, calls, k))
                 || (exists i: nat :: Cooling(b, calls, i) && now < calls[i].end + cooldown)
  {
    hide AfterCalls, Trips, RejectedProbe;
    var b := NewBreaker(threshold, cooldown);
    HalfOpenMeansRejectedProbe(threshold, cooldown, calls);
    BreakerInvariant(threshold, cooldown, calls);
    forall i: nat | Cooling(b, calls, i)
      ensures AfterCalls(b, calls).state.Open? && AfterCalls(b, calls).openedAt == calls[i].end
    {
      CoolingIsOpen(b, calls, i);
    }
    if AfterCalls(b, calls).state.Open? {
      var i := OpenIsCooling(threshold, cooldown, calls);
      assert Cooling(b, calls, i);
    }
  }

  /** One exhausted call, then a probe the venue rejects: the breaker is left half-open. */
  lemma RejectedProbeSticks()
    ensures AfterCalls(NewBreaker(1, 0), [Call(0, Exhausted, 0), Call(0, Rejected, 0)]).state.HalfOpen?
  {
    var trip, probe := Call(0, Exhausted, 0), Call(0, Rejected, 0);
    CallsExtend(NewBreaker(1, 0), [], trip);
    CallsExtend(NewBreaker(1, 0), [trip], probe);
    assert [] + [trip] == [trip] && [trip] + [probe] == [trip, probe];
  }

  /** A half-open breaker refuses every later call, for good. */
  lemma {:induction false} HalfOpenIsForever(b: Breaker, calls: seq<Call>)
    requires b.state.HalfOpen?
    ensures AfterCalls(b, calls) == b
    ensures forall k :: 0 <= k < |calls| ==> !Admits(AfterCalls(b, calls[..k]), calls[k].gate)
  {
    if calls != [] {
      var before := calls[..|calls| - 1];
      HalfOpenIsForever(b, before);
      forall k | 0 <= k < |calls| ensures !Admits(AfterCalls(b, calls[..k]), calls[k].gate) {
        assert k < |before| ==> before[..k] == calls[..k] && before[k] == calls[k];
        assert k == |before| ==> calls[..k] == before;
      }
    }
  }

  /** A probe that ended in a non-retryable error. */
  ghost predicate RejectedProbe(b: Breaker, calls: seq<Call>, k: nat)
    requires k < |calls|
  {
    var at := AfterCalls(b, calls[..k]);
    at.state.Open? && Admits(at, calls[k].gate) && calls[k].ending.Rejected?
  }

  /** Between calls the breaker is HALF_OPEN exactly when some probe was rejected. */
  lemma {:induction false} HalfOpenMeansRejectedProbe(threshold: int, cooldown: int, calls: seq<Call>)
    requires threshold >= 1
    ensures var b := NewBreaker(threshold, cooldown);
            AfterCalls(b, calls).state.HalfOpen? <==> exists k :: 0 <= k < |calls| && RejectedProbe(b, calls, k)
  {
    var b := NewBreaker(threshold, cooldown);
    if calls != [] {
      var before, last := calls[..|calls| - 1], |calls| - 1;
      HalfOpenMeansRejectedProbe(threshold, cooldown, before);
      forall k | 0 <= k < last ensures RejectedProbe(b, before, k) <==> RejectedProbe(b, calls, k) {
        assert before[..k] == calls[..k];
      }
      var at := AfterCalls(b, before);
      if AfterCalls(b, calls).state.HalfOpen? {
        if at.state.HalfOpen? {
          var k :| 0 <= k < last && RejectedProbe(b, before, k);
          assert RejectedProbe(b, calls, k);
        } else {
          assert RejectedProbe(b, calls, last);
        }
      }
      if k :| 0 <= k < |calls| && RejectedProbe(b, calls, k) {
        if k < last { assert RejectedProbe(b, before, k); }
      }
    }
  }
}
