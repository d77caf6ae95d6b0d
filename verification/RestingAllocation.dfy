/** Sharing one step's trade-through volume among same-side resting buys
    (windbreak/connector/fills.py): the loops, and the closed form of what they leave behind. */
module RestingAllocation {
  import opened Numeric
  import opened Sums
  import opened Sorting
  import opened TakerWalk

  datatype Print = Print(price: int, quantity: int, ts: int)

  datatype Request = Request(limit: int, remaining: int, depth: int)

  ghost predicate ValidPrints(prints: seq<Print>)
  {
    forall j :: 0 <= j < |prints| ==> prints[j].quantity >= 0
  }

  /** The through-volume of each print: all of it strictly below the limit, none otherwise. */
  function Below(prints: seq<Print>, limit: int): (r: seq<int>)
    ensures |r| == |prints|
    ensures forall j :: 0 <= j < |prints| ==> r[j] == if prints[j].price < limit then prints[j].quantity else 0
  {
    seq(|prints|, j requires 0 <= j < |prints| => if prints[j].price < limit then prints[j].quantity else 0)
  }

  function VolumeBelow(prints: seq<Print>, limit: int): int
  {
    Sum(Below(prints, limit))
  }

  /** What one order may claim whatever the volume. */
  function Claimable(q: Request, ppm: int): int
  {
    Min(q.remaining, ParticipationCap(q.depth, ppm))
  }

  function RestingFillQuantity(q: Request, prints: seq<Print>, ppm: int): int
  {
    Min(Claimable(q, ppm), VolumeBelow(prints, q.limit))
  }

  // ---------------------------------------------------------------- consuming prints

  function Prices(prints: seq<Print>): (r: seq<int>)
    ensures |r| == |prints| && forall j :: 0 <= j < |prints| ==> r[j] == prints[j].price
  {
    seq(|prints|, j requires 0 <= j < |prints| => prints[j].price)
  }

  function Reduced(pool: seq<Print>, i: nat, take: int): seq<Print>
    requires i < |pool|
  {
    pool[i := pool[i].(quantity := pool[i].quantity - take)]
  }

  /** Draw `amount` through `limit`, visiting prints in the given order. */
  function ConsumeInOrder(pool: seq<Print>, order: seq<nat>, limit: int, amount: int): (r: seq<Print>)
    requires forall k :: 0 <= k < |order| ==> order[k] < |pool|
    ensures |r| == |pool|
    ensures forall j :: 0 <= j < |pool| ==> r[j].price == pool[j].price && r[j].ts == pool[j].ts
    ensures forall j :: 0 <= j < |pool| && pool[j].price >= limit ==> r[j] == pool[j]
    ensures ValidPrints(pool) ==> ValidPrints(r)
    decreases |order|
  {
    if order == [] || amount <= 0 then pool
    else
      var i := order[0];
      if pool[i].price >= limit || pool[i].quantity <= 0 then ConsumeInOrder(pool, order[1..], limit, amount)
      else
        var take := Min(amount, pool[i].quantity);
        ConsumeInOrder(Reduced(pool, i, take), order[1..], limit, amount - take)
  }

  /** Highest price first, so the cheapest volume is left for less aggressive orders. */
  function Consume(pool: seq<Print>, limit: int, amount: int): (r: seq<Print>)
    ensures |r| == |pool| && Prices(r) == Prices(pool)
    ensures ValidPrints(pool) ==> ValidPrints(r)
  {
    ConsumeInOrder(pool, DescendingOrder(Prices(pool), |pool|), limit, amount)
  }

  lemma ConsumeUnfold(pool: seq<Print>, order: seq<nat>, limit: int, amount: int)
    requires order != [] && amount > 0 && forall k :: 0 <= k < |order| ==> order[k] < |pool|
    ensures var i := order[0];
            ConsumeInOrder(pool, order, limit, amount)
            == if pool[i].price >= limit || pool[i].quantity <= 0 then ConsumeInOrder(pool, order[1..], limit, amount)
               else ConsumeInOrder(Reduced(pool, i, Min(amount, pool[i].quantity)), order[1..], limit,
                                   amount - Min(amount, pool[i].quantity))
  {}

  lemma ConsumeDone(pool: seq<Print>, order: seq<nat>, limit: int, amount: int)
    requires forall k :: 0 <= k < |order| ==> order[k] < |pool|
    ensures order == [] || amount <= 0 ==> ConsumeInOrder(pool, order, limit, amount) == pool
  {}

  lemma StableIndices(keys: seq<int>)
    ensures forall k :: 0 <= k < |DescendingOrder(keys, |keys|)| ==> DescendingOrder(keys, |keys|)[k] < |keys|
  {}

  method ConsumeThroughPrints(prints: seq<Print>, limit: int, amount: int) returns (pool: seq<Print>)
    ensures pool == Consume(prints, limit, amount)
  {
    hide ConsumeInOrder, DescendingOrder, IsStableDescending;
    StableIndices(Prices(prints));
    pool := prints;
    var remaining := amount;
    var order := DescendingOrder(Prices(prints), |prints|);
    var k := 0;
    while k < |order|
      invariant 0 <= k <= |order| && |pool| == |prints|
      invariant Consume(prints, limit, amount) == ConsumeInOrder(pool, order[k..], limit, remaining)
    {
      if remaining <= 0 { break; }
      var index := order[k];
      ConsumeUnfold(pool, order[k..], limit, remaining);
      assert order[k..][0] == index && order[k..][1..] == order[k + 1..];
      k := k + 1;
      if pool[index].price >= limit || pool[index].quantity <= 0 { continue; }
      var take := Min(remaining, pool[index].quantity);
      pool := Reduced(pool, index, take);
      remaining := remaining - take;
    }
    ConsumeDone(pool, order[k..], limit, remaining);
  }

  lemma ReduceVolume(pool: seq<Print>, i: nat, take: int, limit: int)
    requires i < |pool|
    ensures VolumeBelow(Reduced(pool, i, take), limit)
         == VolumeBelow(pool, limit) - if pool[i].price < limit then take else 0
  {
    var before, after := Below(pool, limit), Below(Reduced(pool, i, take), limit);
    assert after == before[i := after[i]];
    SumUpdate(before, i, after[i]);
  }

  lemma VolumeMonotone(pool: seq<Print>, low: int, high: int)
    requires ValidPrints(pool) && low <= high
    ensures 0 <= VolumeBelow(pool, low) <= VolumeBelow(pool, high)
  {
    SumNonNegative(Below(pool, low));
    SumMonotone(Below(pool, low), Below(pool, high));
  }

  /** A print between two limits separates their volumes by at least its size. */
  lemma VolumeGap(pool: seq<Print>, i: nat, low: int, high: int)
    requires ValidPrints(pool) && i < |pool| && low <= pool[i].price < high
    ensures VolumeBelow(pool, low) + pool[i].quantity <= VolumeBelow(pool, high)
  {
    var below := Below(pool, low);
    SumUpdate(below, i, pool[i].quantity);
    SumMonotone(below[i := pool[i].quantity], Below(pool, high));
  }

  lemma VolumeFlat(pool: seq<Print>, low: int, high: int)
    requires low <= high
    requires forall j :: 0 <= j < |pool| && low <= pool[j].price < high ==> pool[j].quantity == 0
    ensures VolumeBelow(pool, low) == VolumeBelow(pool, high)
  {
    assert Below(pool, low) == Below(pool, high);
  }

  /** `order` still has to visit every print below the limit that has volume left, dearest first. */
  ghost predicate Pending(pool: seq<Print>, order: seq<nat>, limit: int)
  {
    && ValidPrints(pool)
    && (forall k :: 0 <= k < |order| ==> order[k] < |pool|)
    && (forall a, b :: 0 <= a < b < |order| ==> order[a] != order[b] && pool[order[a]].price >= pool[order[b]].price)
    && (forall j :: 0 <= j < |pool| && j !in order && pool[j].price < limit ==> pool[j].quantity == 0)
  }

  /** When the head of a pending order sits below `low`, nothing is left in between. */
  lemma PendingFlat(pool: seq<Print>, order: seq<nat>, limit: int, low: int)
    requires Pending(pool, order, limit) && order != [] && pool[order[0]].price < low <= limit
    ensures VolumeBelow(pool, low) == VolumeBelow(pool, limit)
  {
    VolumeFlat(pool, low, limit);
  }

  lemma PendingStep(pool: seq<Print>, order: seq<nat>, limit: int, take: int)
    requires Pending(pool, order, limit) && order != []
    requires take == 0 || (pool[order[0]].price < limit && take == pool[order[0]].quantity)
    requires pool[order[0]].price < limit ==> take == pool[order[0]].quantity
    ensures Pending(Reduced(pool, order[0], take), order[1..], limit)
  {}

  /** One draw from the dearest pending print, seen from a lower limit. */
  lemma DrawStep(pool: seq<Print>, order: seq<nat>, limit: int, amount: int, low: int)
    requires Pending(pool, order, limit) && order != [] && low <= limit
    requires pool[order[0]].price < limit && pool[order[0]].quantity > 0
    requires 0 < amount <= VolumeBelow(pool, limit)
    ensures var take := Min(amount, pool[order[0]].quantity);
            var after := Reduced(pool, order[0], take);
            && VolumeBelow(after, limit) == VolumeBelow(pool, limit) - take
            && Min(VolumeBelow(after, low), VolumeBelow(after, limit) - (amount - take))
               == Min(VolumeBelow(pool, low), VolumeBelow(pool, limit) - amount)
            && (amount == take ==> VolumeBelow(after, low) <= VolumeBelow(after, limit))
  {
    var i := order[0];
    var take := Min(amount, pool[i].quantity);
    VolumeMonotone(pool, low, limit);
    ReduceVolume(pool, i, take, low);
    ReduceVolume(pool, i, take, limit);
    if pool[i].price < low {
      PendingFlat(pool, order, limit, low);
    } else {
      VolumeGap(pool, i, low, limit);
    }
  }

  /** Key lemma: drawing dearest-first leaves, below every lower limit, the most volume any
      draw of that amount could leave. */
  lemma {:induction false} ConsumeLeavesMost(pool: seq<Print>, order: seq<nat>, limit: int, amount: int, low: int)
    requires Pending(pool, order, limit)
    requires 0 <= amount <= VolumeBelow(pool, limit) && low <= limit
    ensures VolumeBelow(ConsumeInOrder(pool, order, limit, amount), low)
         == Min(VolumeBelow(pool, low), VolumeBelow(pool, limit) - amount)
    decreases |order|
  {
    hide ConsumeInOrder, VolumeBelow;
    VolumeMonotone(pool, low, limit);
    ConsumeDone(pool, order, limit, amount);
    if amount == 0 {
    } else if order == [] {
      VolumeFlat(pool, low, limit);
      ZeroVolume(pool, limit);
    } else {
      var i := order[0];
      ConsumeUnfold(pool, order, limit, amount);
      if pool[i].price >= limit || pool[i].quantity <= 0 {
        PendingStep(pool, order, limit, 0);
        assert Reduced(pool, i, 0) == pool;
        ConsumeLeavesMost(pool, order[1..], limit, amount, low);
      } else {
        var take := Min(amount, pool[i].quantity);
        DrawStep(pool, order, limit, amount, low);
        ConsumeDone(Reduced(pool, i, take), order[1..], limit, amount - take);
        if amount > take {
          PendingStep(pool, order, limit, take);
          ConsumeLeavesMost(Reduced(pool, i, take), order[1..], limit, amount - take, low);
        }
      }
    }
  }

  lemma ZeroVolume(pool: seq<Print>, limit: int)
    requires forall j :: 0 <= j < |pool| && pool[j].price < limit ==> pool[j].quantity == 0
    ensures VolumeBelow(pool, limit) == 0
  {
    AllZero(Below(pool, limit));
  }

  lemma {:induction false} AllZero(s: seq<int>)
    requires forall k :: 0 <= k < |s| ==> s[k] == 0
    ensures Sum(s) == 0
  {
    if s != [] { AllZero(s[1..]); }
  }

  /** Above the claiming limit, the whole amount is gone. */
  lemma {:induction false} ConsumeDeducts(pool: seq<Print>, order: seq<nat>, limit: int, amount: int, high: int)
    requires Pending(pool, order, limit)
    requires 0 <= amount <= VolumeBelow(pool, limit) && limit <= high
    ensures VolumeBelow(ConsumeInOrder(pool, order, limit, amount), high) == VolumeBelow(pool, high) - amount
    decreases |order|
  {
    hide ConsumeInOrder, VolumeBelow;
    ConsumeDone(pool, order, limit, amount);
    if amount == 0 {
    } else if order == [] {
      ZeroVolume(pool, limit);
    } else {
      var i := order[0];
      ConsumeUnfold(pool, order, limit, amount);
      if pool[i].price >= limit || pool[i].quantity <= 0 {
        PendingStep(pool, order, limit, 0);
        assert Reduced(pool, i, 0) == pool;
        ConsumeDeducts(pool, order[1..], limit, amount, high);
      } else {
        var take := Min(amount, pool[i].quantity);
        ReduceVolume(pool, i, take, high);
        ReduceVolume(pool, i, take, limit);
        ConsumeDone(Reduced(pool, i, take), order[1..], limit, amount - take);
        if amount > take {
          PendingStep(pool, order, limit, take);
          ConsumeDeducts(Reduced(pool, i, take), order[1..], limit, amount - take, high);
        }
      }
    }
  }

  lemma FreshOrderIsPending(pool: seq<Print>, limit: int)
    requires ValidPrints(pool)
    ensures Pending(pool, DescendingOrder(Prices(pool), |pool|), limit)
  {}

  /** The pool after one claim, seen through its volume below any price. */
  lemma ConsumedVolume(pool: seq<Print>, limit: int, amount: int, price: int)
    requires ValidPrints(pool) && 0 <= amount <= VolumeBelow(pool, limit)
    ensures VolumeBelow(Consume(pool, limit, amount), price)
         == if price <= limit then Min(VolumeBelow(pool, price), VolumeBelow(pool, limit) - amount)
            else VolumeBelow(pool, price) - amount
  {
    var order := DescendingOrder(Prices(pool), |pool|);
    FreshOrderIsPending(pool, limit);
    if price <= limit {
      ConsumeLeavesMost(pool, order, limit, amount, price);
    } else {
      ConsumeDeducts(pool, order, limit, amount, price);
    }
  }

  lemma {:induction false} ConsumeOnlyTakes(pool: seq<Print>, order: seq<nat>, limit: int, amount: int)
    requires forall k :: 0 <= k < |order| ==> order[k] < |pool|
    ensures forall j :: 0 <= j < |pool| ==> ConsumeInOrder(pool, order, limit, amount)[j].quantity <= pool[j].quantity
    decreases |order|
  {
    if order != [] && amount > 0 {
      var i := order[0];
      var take := if pool[i].price >= limit || pool[i].quantity <= 0 then 0 else Min(amount, pool[i].quantity);
      assert Reduced(pool, i, 0) == pool;
      ConsumeOnlyTakes(Reduced(pool, i, take), order[1..], limit, amount - take);
    }
  }

  /** `other` is what some way of claiming `amount` below `limit` leaves of the pool. */
  ghost predicate LeftBy(other: seq<Print>, pool: seq<Print>, limit: int, amount: int)
  {
    && ValidPrints(other) && Prices(other) == Prices(pool)
    && (forall j :: 0 <= j < |other| ==> other[j].quantity <= pool[j].quantity)
    && VolumeBelow(other, limit) == VolumeBelow(pool, limit) - amount
  }

  /** Of all ways to claim the amount, highest-price-first leaves the most below every lower limit. */
  lemma HighestFirstLeavesMost(pool: seq<Print>, limit: int, amount: int, other: seq<Print>, low: int)
    requires ValidPrints(pool) && amount >= 0 && low <= limit && LeftBy(other, pool, limit, amount)
    ensures LeftBy(Consume(pool, limit, amount), pool, limit, amount)
    ensures VolumeBelow(other, low) <= VolumeBelow(Consume(pool, limit, amount), low)
  {
    assert |other| == |Prices(other)| == |pool|;
    VolumeMonotone(other, low, limit);
    ConsumeOnlyTakes(pool, DescendingOrder(Prices(pool), |pool|), limit, amount);
    ConsumedVolume(pool, limit, amount, low);
    ConsumedVolume(pool, limit, amount, limit);
    SumMonotone(Below(other, low), Below(pool, low));
  }

  // ---------------------------------------------------------------- allocating to orders

  function Limits(requests: seq<Request>): (r: seq<int>)
    ensures |r| == |requests| && forall i :: 0 <= i < |requests| ==> r[i] == requests[i].limit
  {
    seq(|requests|, i requires 0 <= i < |requests| => requests[i].limit)
  }

  /** Most aggressive limit first, arrival order among equals. */
  function Priority(requests: seq<Request>): (order: seq<nat>)
    ensures IsStableDescending(order, Limits(requests), |requests|)
  {
    DescendingOrder(Limits(requests), |requests|)
  }

  /** The fills in the order they are claimed. */
  function ClaimInOrder(requests: seq<Request>, order: seq<nat>, pool: seq<Print>, ppm: int): (fills: seq<int>)
    requires forall k :: 0 <= k < |order| ==> order[k] < |requests|
    ensures |fills| == |order|
    decreases |order|
  {
    if order == [] then []
    else
      var q := requests[order[0]];
      var fill := RestingFillQuantity(q, pool, ppm);
      [fill] + ClaimInOrder(requests, order[1..], Consume(pool, q.limit, fill), ppm)
  }

  /** The same fills written back at each request's own position. */
  function Scatter(fills: seq<int>, order: seq<nat>, values: seq<int>): (r: seq<int>)
    requires |order| == |values| && forall k :: 0 <= k < |order| ==> order[k] < |fills|
    ensures |r| == |fills|
    decreases |order|
  {
    if order == [] then fills else Scatter(fills[order[0] := values[0]], order[1..], values[1..])
  }

  function Zeros(n: nat): (r: seq<int>)
    ensures |r| == n
  {
    seq(n, _ => 0)
  }

  function Allocate(requests: seq<Request>, prints: seq<Print>, ppm: int): (fills: seq<int>)
    ensures |fills| == |requests|
  {
    var order := Priority(requests);
    Scatter(Zeros(|requests|), order, ClaimInOrder(requests, order, prints, ppm))
  }

  method AllocateRestingFills(requests: seq<Request>, prints: seq<Print>, ppm: int) returns (fills: seq<int>)
    ensures fills == Allocate(requests, prints, ppm)
  {
    var pool := prints;
    fills := Zeros(|requests|);
    var priority := Priority(requests);
    ghost var claims := ClaimInOrder(requests, priority, prints, ppm);
    var k := 0;
    while k < |priority|
      invariant 0 <= k <= |priority| && |fills| == |requests|
      invariant claims[k..] == ClaimInOrder(requests, priority[k..], pool, ppm)
      invariant Allocate(requests, prints, ppm) == Scatter(fills, priority[k..], claims[k..])
    {
      var index := priority[k];
      var request := requests[index];
      var fill := RestingFillQuantity(request, pool, ppm);
      assert priority[k..][0] == index && priority[k..][1..] == priority[k + 1..];
      assert claims[k..][0] == fill && claims[k..][1..] == claims[k + 1..];
      fills := fills[index := fill];
      pool := ConsumeThroughPrints(pool, request.limit, fill);
      k := k + 1;
    }
  }

  lemma {:induction false} ScatterAt(fills: seq<int>, order: seq<nat>, values: seq<int>)
    requires |order| == |values| && forall k :: 0 <= k < |order| ==> order[k] < |fills|
    requires forall a, b :: 0 <= a < b < |order| ==> order[a] != order[b]
    ensures forall k :: 0 <= k < |order| ==> Scatter(fills, order, values)[order[k]] == values[k]
    ensures forall i :: 0 <= i < |fills| && i !in order ==> Scatter(fills, order, values)[i] == fills[i]
    decreases |order|
  {
    if order != [] {
      var next := fills[order[0] := values[0]];
      ScatterAt(next, order[1..], values[1..]);
      assert order[0] !in order[1..];
      forall k | 0 <= k < |order| ensures Scatter(fills, order, values)[order[k]] == values[k] {
        if k > 0 { assert order[k] == order[1..][k - 1] && values[k] == values[1..][k - 1]; }
      }
    }
  }

  /** Each request's fill is the one claimed at its place in the priority order. */
  lemma AllocateAt(requests: seq<Request>, prints: seq<Print>, ppm: int)
    ensures var order := Priority(requests);
            forall k :: 0 <= k < |order| ==>
              Allocate(requests, prints, ppm)[order[k]] == ClaimInOrder(requests, order, prints, ppm)[k]
  {
    var order := Priority(requests);
    forall a, b | 0 <= a < b < |order| ensures order[a] != order[b] {
      assert Precedes(Limits(requests), order[a], order[b]);
    }
    ScatterAt(Zeros(|requests|), order, ClaimInOrder(requests, order, prints, ppm));
  }

  /** An order alone on its side gets its claim or all the volume through its limit. */
  lemma LoneRequest(q: Request, prints: seq<Print>, ppm: int)
    ensures Allocate([q], prints, ppm) == [RestingFillQuantity(q, prints, ppm)]
  {
    hide RestingFillQuantity, Consume;
    assert Priority([q]) == [0];
    AllocateAt([q], prints, ppm);
  }

  ghost predicate ValidRequests(requests: seq<Request>, ppm: int)
  {
    && 0 <= ppm <= PPM_DENOMINATOR
    && forall i :: 0 <= i < |requests| ==> requests[i].remaining >= 0 && requests[i].depth >= 0
  }

  lemma ClaimableNonNegative(requests: seq<Request>, ppm: int, i: nat)
    requires ValidRequests(requests, ppm) && i < |requests|
    ensures 0 <= Claimable(requests[i], ppm) <= requests[i].remaining
  {}
}
