/** The integer-refill token bucket (windbreak/connector/resilience.py) and how many admissions
    it can make over any run. */
module TokenBuckets {
  import opened Numeric

  /** The injected clock and sleeper.  Time passes on its own between readings and never runs
      backwards; a sleep lasts at least what was asked. */
  class Clock {
    var now: int

    constructor (start: int)
      ensures now == start
    {
      now := start;
    }

    method Read() returns (t: int)
      modifies this
      ensures t == now >= old(now)
    {
      var passed :| passed >= 0;
      now := now + passed;
      t := now;
    }

    method Sleep(seconds: int)
      modifies this
      ensures now >= old(now) && now >= old(now) + seconds
    {
      var extra :| extra >= 0;
      now := now + Max(seconds, 0) + extra;
    }
  }

  datatype Bucket = Bucket(capacity: int, interval: int, tokens: int, lastRefill: int)

  /** The clock readings of one `acquire`: at the refill, at the sleep, and on return. */
  datatype Visit = Visit(first: int, second: int, done: int)

  function Granted(b: Bucket, now: int): int
    requires b.interval > 0
  {
    FloorQuotient(now - b.lastRefill, b.interval)
  }

  function Refill(b: Bucket, now: int): (r: Bucket)
    requires b.interval > 0
    ensures r.capacity == b.capacity && r.interval == b.interval
  {
    var granted := Granted(b, now);
    if granted > 0 then b.(tokens := Min(b.capacity, b.tokens + granted), lastRefill :=
        b.lastRefill + granted * b.interval)
    else b
  }

  /** How long an `acquire` asks to sleep, if it sleeps at all. */
  function SleepRequest(b: Bucket, v: Visit): Option<int>
    requires b.interval > 0
  {
    var r := Refill(b, v.first);
    if r.tokens == 0 then Some(b.interval - (v.second - r.lastRefill)) else None
  }

  function Acquire(b: Bucket, v: Visit): (r: Bucket)
    requires b.interval > 0
    ensures r.capacity == b.capacity && r.interval == b.interval
  {
    var r := Refill(b, v.first);
    if r.tokens == 0 then r.(lastRefill := r.lastRefill + r.interval) else r.(tokens := r.tokens - 1)
  }

  function FullBucket(capacity: int, interval: int, born: int): Bucket
  {
    Bucket(capacity, interval, capacity, born)
  }

  /** The bucket after a run of acquires. */
  function AfterVisits(full: Bucket, visits: seq<Visit>): (r: Bucket)
    requires full.interval > 0
    ensures r.capacity == full.capacity && r.interval == full.interval
  {
    if visits == [] then full else Acquire(AfterVisits(full, visits[..|visits| - 1]), visits[|visits| - 1])
  }

  /** Readings a monotone clock and a faithful sleeper can produce. */
  ghost predicate Possible(b: Bucket, earliest: int, v: Visit)
    requires b.interval > 0
  {
    && earliest <= v.first <= v.second <= v.done
    && (SleepRequest(b, v).Some? ==> v.done >= v.second + SleepRequest(b, v).value)
  }

  ghost predicate PossibleRun(full: Bucket, visits: seq<Visit>)
    requires full.interval > 0
  {
    visits != [] ==>
      var before := visits[..|visits| - 1];
      PossibleRun(full, before) && Possible(AfterVisits(full, before), LastDone(full, before), visits[|visits| - 1])
  }

  function LastDone(full: Bucket, visits: seq<Visit>): int
  {
    if visits == [] then full.lastRefill else visits[|visits| - 1].done
  }

  lemma VisitsExtend(full: Bucket, visits: seq<Visit>, v: Visit)
    requires full.interval > 0
    ensures AfterVisits(full, visits + [v]) == Acquire(AfterVisits(full, visits), v)
    ensures PossibleRun(full, visits + [v])
            <==> PossibleRun(full, visits) && Possible(AfterVisits(full, visits), LastDone(full, visits), v)
  {}

  // ---------------------------------------------------------------- arithmetic

  /** Whole intervals, rounded up, in a span; none for an empty span. */
  function Ticks(span: int, interval: int): (t: nat)
    requires interval > 0
    ensures if span <= 0 then t == 0 else (t - 1) * interval < span <= t * interval
  {
    if span <= 0 then 0
    else
      var t := Divide(span, interval, OverstateCost);
      assert t * interval >= span > 0;
      t
  }

  lemma QuotientShift(x: int, g: int, d: int)
    requires d > 0
    ensures FloorQuotient(x + g * d, d) == FloorQuotient(x, d) + g
  {
    hide FloorQuotient;
    var q, r := FloorQuotient(x, d), FloorQuotient(x + g * d, d);
    assert (q + g) * d == q * d + g * d && (r - g) * d == r * d - g * d;
    WholeIntervals(q + g, x + g * d, d);
    WholeIntervals(r - g, x, d);
  }

  lemma WholeIntervals(n: int, span: int, interval: int)
    requires interval > 0 && n * interval <= span
    ensures n <= FloorQuotient(span, interval)
  {
    hide FloorQuotient;
    var q := FloorQuotient(span, interval);
    assert n * interval < (q + 1) * interval;
  }

  /** Past the last whole interval before zero, ticks count intervals exactly. */
  lemma TicksShift(span: int, g: nat, interval: int)
    requires interval > 0 && span > -interval
    ensures Ticks(span + g * interval, interval) == Ticks(span, interval) + g
  {
    QuotientShift(-span, 0 - g, interval);
    assert -(span + g * interval) == -span + (0 - g) * interval;
    NoTicksBelowZero(span, interval);
    NoTicksBelowZero(span + g * interval, interval);
    assert g * interval >= 0;
  }

  lemma NoTicksBelowZero(span: int, interval: int)
    requires interval > 0 && span > -interval
    ensures Ticks(span, interval) == -FloorQuotient(-span, interval)
  {}

  lemma TicksMonotone(a: int, b: int, interval: int)
    requires interval > 0 && a <= b
    ensures Ticks(a, interval) <= Ticks(b, interval)
  {
    var p, q := Ticks(a, interval), Ticks(b, interval);
    assert a > 0 ==> (p - 1) * interval < q * interval;
  }

  // ---------------------------------------------------------------- the invariant

  /** `grants` intervals have been credited since birth. */
  ghost predicate Balanced(full: Bucket, visits: seq<Visit>, b: Bucket, grants: int)
  {
    && 0 <= b.tokens <= b.capacity
    && grants >= 0 && b.lastRefill == full.lastRefill + grants * b.interval
    && b.lastRefill <= LastDone(full, visits)
    && |visits| + b.tokens <= b.capacity + grants
  }

  lemma RefillFacts(b: Bucket, now: int)
    requires b.interval > 0 && 0 <= b.tokens <= b.capacity && b.lastRefill <= now
    ensures var r, g := Refill(b, now), Granted(b, now);
            && g >= 0 && r.lastRefill == b.lastRefill + g * b.interval
            && now - b.interval < r.lastRefill <= now
            && b.tokens <= r.tokens <= Min(b.capacity, b.tokens + g)
  {}

  lemma CreditIntervals(a: int, g: int, interval: int)
    ensures (a + g) * interval == a * interval + g * interval
    ensures (a + g + 1) * interval == a * interval + g * interval + interval
  {}

  lemma {:induction false} RunIsBalanced(full: Bucket, visits: seq<Visit>) returns (grants: int)
    requires full.interval > 0 && full.capacity > 0 && full.tokens == full.capacity && PossibleRun(full, visits)
    ensures Balanced(full, visits, AfterVisits(full, visits), grants)
  {
    hide Refill, Granted;
    if visits == [] {
      grants := 0;
    } else {
      var before, v := visits[..|visits| - 1], visits[|visits| - 1];
      var earlier := RunIsBalanced(full, before);
      var b := AfterVisits(full, before);
      RefillFacts(b, v.first);
      var r, g := Refill(b, v.first), Granted(b, v.first);
      grants := earlier + g + if r.tokens == 0 then 1 else 0;
      CreditIntervals(earlier, g, b.interval);
    }
  }

  /** What an earlier admission still allows: one, a full bucket, and the intervals since. */
  ghost predicate WindowHolds(b: Bucket, visits: seq<Visit>, i: nat)
    requires b.interval > 0 && i < |visits|
  {
    && (|visits| - i) + b.tokens <= 1 + b.capacity + Ticks(b.lastRefill - visits[i].done, b.interval)
    && (i + 1 < |visits| ==> b.lastRefill > visits[i].done - b.interval)
  }

  lemma {:induction false} EveryWindowHolds(full: Bucket, visits: seq<Visit>, i: nat)
    requires full.interval > 0 && full.capacity > 0 && full.tokens == full.capacity && PossibleRun(full, visits)
    requires i < |visits|
    ensures WindowHolds(AfterVisits(full, visits), visits, i)
  {
    var before, v := visits[..|visits| - 1], visits[|visits| - 1];
    var b := AfterVisits(full, before);
    var grants := RunIsBalanced(full, before);
    RefillFacts(b, v.first);
    if i < |before| {
      EveryWindowHolds(full, before, i);
      DoneIsMonotone(full, before, i);
      WindowStep(b, before, v, i);
      assert visits == before + [v];
    }
  }

  lemma {:induction false} DoneIsMonotone(full: Bucket, visits: seq<Visit>, i: nat)
    requires full.interval > 0 && PossibleRun(full, visits) && i < |visits|
    ensures visits[i].done <= LastDone(full, visits)
  {
    if i + 1 < |visits| {
      DoneIsMonotone(full, visits[..|visits| - 1], i);
    }
  }

  lemma WindowStep(b: Bucket, before: seq<Visit>, v: Visit, i: nat)
    requires b.interval > 0 && 0 <= b.tokens <= b.capacity && b.lastRefill <= v.first
    requires i < |before| && before[i].done <= v.first && WindowHolds(b, before, i)
    ensures WindowHolds(Acquire(b, v), before + [v], i)
  {
    RefillFacts(b, v.first);
    var r, g, d := Refill(b, v.first), Granted(b, v.first), before[i].done;
    if b.lastRefill > d - b.interval {
      TicksShift(b.lastRefill - d, g, b.interval);
      assert b.lastRefill - d + g * b.interval == r.lastRefill - d;
    }
    if r.tokens == 0 {
      TicksShift(r.lastRefill - d, 1, b.interval);
    }
  }

  // ---------------------------------------------------------------- what a run may admit

  lemma {:induction false} PrefixIsPossible(full: Bucket, visits: seq<Visit>, k: nat)
    requires full.interval > 0 && PossibleRun(full, visits) && k <= |visits|
    ensures PossibleRun(full, visits[..k])
  {
    if k < |visits| {
      var before := visits[..|visits| - 1];
      PrefixIsPossible(full, before, k);
      assert before[..k] == visits[..k];
    } else {
      assert visits[..k] == visits;
    }
  }

  /** By time `t`, at most a full bucket plus one admission per elapsed interval. */
  lemma AdmissionsBy(capacity: int, interval: int, born: int, visits: seq<Visit>, t: int, k: nat)
    requires capacity > 0 && interval > 0 && PossibleRun(FullBucket(capacity, interval, born), visits)
    requires k <= |visits| && t >= born && (k > 0 ==> visits[k - 1].done <= t)
    ensures k <= capacity + FloorQuotient(t - born, interval)
  {
    var full := FullBucket(capacity, interval, born);
    PrefixIsPossible(full, visits, k);
    var grants := RunIsBalanced(full, visits[..k]);
    WholeIntervals(grants, t - born, interval);
  }

  /** In any window, from one admission to another, at most a full bucket, one more, and the
      window's intervals rounded up. */
  lemma AdmissionsWithin(capacity: int, interval: int, born: int, visits: seq<Visit>, i: nat, j: nat)
    requires capacity > 0 && interval > 0 && PossibleRun(FullBucket(capacity, interval, born), visits)
    requires i <= j < |visits|
    ensures j - i + 1 <= capacity + 1 + Ticks(visits[j].done - visits[i].done, interval)
  {
    hide Ticks, AfterVisits, PossibleRun;
    var full, window := FullBucket(capacity, interval, born), visits[..j + 1];
    PrefixIsPossible(full, visits, j + 1);
    EveryWindowHolds(full, window, i);
    var grants := RunIsBalanced(full, window);
    TicksMonotone(AfterVisits(full, window).lastRefill - visits[i].done, visits[j].done - visits[i].done, interval);
  }

  /** An acquire sleeps at most once, never for more than an interval, and for at least a second
      when its two readings agree. */
  lemma SleepIsShort(capacity: int, interval: int, born: int, visits: seq<Visit>, k: nat)
    requires capacity > 0 && interval > 0 && PossibleRun(FullBucket(capacity, interval, born), visits) && k < |visits|
    ensures var request := SleepRequest(AfterVisits(FullBucket(capacity, interval, born), visits[..k]), visits[k]);
            request.Some? ==> request.value <= interval && (visits[k].first == visits[k].second ==> request.value >= 1)
  {
    var full := FullBucket(capacity, interval, born);
    PrefixIsPossible(full, visits, k + 1);
    assert visits[..k + 1][..k] == visits[..k];
    var grants := RunIsBalanced(full, visits[..k]);
    RefillFacts(AfterVisits(full, visits[..k]), visits[k].first);
  }

  /** An acquire that sleeps asks to be woken exactly at the first tick after its reading, ticks
      being whole intervals from birth. */
  lemma SleepEndsOnTheTick(capacity: int, interval: int, born: int, visits: seq<Visit>, k: nat)
    returns (due: int, m: int)
    requires capacity > 0 && interval > 0 && PossibleRun(FullBucket(capacity, interval, born), visits) && k < |visits|
    ensures due == born + m * interval && visits[k].first < due <= visits[k].first + interval
    ensures var request := SleepRequest(AfterVisits(FullBucket(capacity, interval, born), visits[..k]), visits[k]);
            request.Some? ==> visits[k].second + request.value == due
  {
    hide Refill, Granted;
    var full := FullBucket(capacity, interval, born);
    PrefixIsPossible(full, visits, k + 1);
    assert visits[..k + 1][..k] == visits[..k];
    var grants := RunIsBalanced(full, visits[..k]);
    var b := AfterVisits(full, visits[..k]);
    RefillFacts(b, visits[k].first);
    m := grants + Granted(b, visits[k].first) + 1;
    due := Refill(b, visits[k].first).lastRefill + interval;
    CreditIntervals(grants, Granted(b, visits[k].first), interval);
  }

  /** Since instant `a`, birth or a moment when visit `i` found the bucket full, no credit was cut
      off: the tokens are a full bucket less the visits since plus `g` whole intervals. */
  ghost predicate Exact(full: Bucket, visits: seq<Visit>, b: Bucket, i: nat, a: int, g: int)
  {
    && i <= |visits| && g >= 0 && b.lastRefill == a + g * b.interval
    && b.tokens == b.capacity - (|visits| - i) + g
    && Anchors(full, visits, i, a)
  }

  ghost predicate Anchors(full: Bucket, visits: seq<Visit>, i: nat, a: int)
  {
    (i == 0 && a == full.lastRefill) || (i < |visits| && visits[i].first - full.interval < a <= visits[i].first)
  }

  lemma RefillExactly(b: Bucket, now: int)
    requires b.interval > 0 && 0 <= b.tokens <= b.capacity && b.lastRefill <= now
    ensures Refill(b, now).tokens == Min(b.capacity, b.tokens + Granted(b, now))
  {
    assert Granted(b, now) >= 0;
  }

  lemma {:induction false} RunIsExact(full: Bucket, visits: seq<Visit>) returns (i: nat, a: int, g: int)
    requires full.interval > 0 && full.capacity > 0 && full.tokens == full.capacity && PossibleRun(full, visits)
    ensures Exact(full, visits, AfterVisits(full, visits), i, a, g)
  {
    hide Refill, Granted;
    if visits == [] {
      i, a, g := 0, full.lastRefill, 0;
    } else {
      var before, v := visits[..|visits| - 1], visits[|visits| - 1];
      i, a, g := RunIsExact(full, before);
      var grants := RunIsBalanced(full, before);
      var b := AfterVisits(full, before);
      var r, more := Refill(b, v.first), Granted(b, v.first);
      RefillFacts(b, v.first);
      RefillExactly(b, v.first);
      CreditIntervals(g, more, b.interval);
      if b.tokens + more >= b.capacity {
        i, a, g := |before|, r.lastRefill, 0;
      } else {
        g := g + more + if r.tokens == 0 then 1 else 0;
        assert i < |before| ==> visits[i] == before[i];
      }
    }
  }

  /** No needless sleep: an acquire sleeps only when, since birth or since some visit that found
      the bucket full, exactly a full bucket and one admission per elapsed interval are used up. */
  lemma SleepMeansSpent(capacity: int, interval: int, born: int, visits: seq<Visit>, k: nat) returns (i: nat, a: int)
    requires capacity > 0 && interval > 0 && PossibleRun(FullBucket(capacity, interval, born), visits) && k < |visits|
    requires SleepRequest(AfterVisits(FullBucket(capacity, interval, born), visits[..k]), visits[k]).Some?
    ensures i <= k && Anchors(FullBucket(capacity, interval, born), visits[..k], i, a)
    ensures k - i == capacity + FloorQuotient(visits[k].first - a, interval)
  {
    hide Refill, Granted, FloorQuotient;
    var full, before := FullBucket(capacity, interval, born), visits[..k];
    PrefixIsPossible(full, visits, k + 1);
    assert visits[..k + 1][..k] == before;
    var g: int;
    i, a, g := RunIsExact(full, before);
    var grants := RunIsBalanced(full, before);
    var b, now := AfterVisits(full, before), visits[k].first;
    RefillFacts(b, now);
    RefillExactly(b, now);
    var more := Granted(b, now);
    CreditIntervals(g, more, interval);
    QuotientIs(now - a, interval, g + more);
  }

  lemma QuotientIs(span: int, interval: int, q: int)
    requires interval > 0 && q * interval <= span < q * interval + interval
    ensures FloorQuotient(span, interval) == q
  {
    WholeIntervals(q, span, interval);
    var r := FloorQuotient(span, interval);
    assert r > q ==> r * interval >= (q + 1) * interval;
  }

  // ---------------------------------------------------------------- the object

  class TokenBucket {
    const capacity: int
    const interval: int
    const clock: Clock
    ghost const born: int
    var tokens: int
    var lastRefill: int
    /** Every completed acquire. */
    ghost var visits: seq<Visit>

    ghost function Start(): Bucket { FullBucket(capacity, interval, born) }

    ghost predicate Valid()
      reads this, clock
    {
      && capacity > 0 && interval > 0
      && PossibleRun(Start(), visits)
      && Bucket(capacity, interval, tokens, lastRefill) == AfterVisits(Start(), visits)
      && LastDone(Start(), visits) <= clock.now
    }

    constructor (capacity: int, interval: int, clock: Clock)
      requires capacity > 0 && interval > 0
      modifies clock
      ensures Valid() && visits == [] && this.clock == clock && this.capacity == capacity && this.interval == interval
      ensures born == clock.now >= old(clock.now)
    {
      var now := clock.Read();
      this.capacity, this.interval, this.clock := capacity, interval, clock;
      born, tokens, lastRefill, visits := now, capacity, now, [];
    }

    /** Take one token, sleeping exactly once if there is none. */
    method AcquireToken()
      requires Valid()
      modifies this, clock
      ensures Valid() && clock.now >= old(clock.now)
      ensures |visits| == |old(visits)| + 1 && visits[..|old(visits)|] == old(visits)
      ensures visits[|old(visits)|].first >= old(clock.now) && visits[|old(visits)|].done == clock.now
    {
      hide AfterVisits, PossibleRun, FloorQuotient;
      var first := clock.Read();
      var second := first;
      var granted := FloorQuotient(first - lastRefill, interval);
      if granted > 0 {
        tokens := Min(capacity, tokens + granted);
        lastRefill := lastRefill + granted * interval;
      }
      if tokens == 0 {
        second := clock.Read();
        clock.Sleep(interval - (second - lastRefill));
        lastRefill := lastRefill + interval;
        tokens := tokens + 1;
      }
      tokens := tokens - 1;
      ghost var v := Visit(first, second, clock.now);
      VisitsExtend(Start(), visits, v);
      visits := visits + [v];
    }
  }
}
