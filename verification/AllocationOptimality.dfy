/** The greedy allocator is maximum, claims no volume twice, and keeps price-time priority. */
module AllocationOptimality {
  import opened Numeric
  import opened Sums
  import opened Sorting
  import opened RestingAllocation

  // ---------------------------------------------------------------- assignments in general

  /** `amount` contracts of print `source` handed to order `order`. */
  datatype Claim = Claim(order: nat, source: nat, amount: int)

  function Total(claims: seq<Claim>): int
  {
    if claims == [] then 0 else claims[0].amount + Total(claims[1..])
  }

  function OrderTotal(claims: seq<Claim>, i: nat): int
  {
    if claims == [] then 0
    else (if claims[0].order == i then claims[0].amount else 0) + OrderTotal(claims[1..], i)
  }

  function SourceTotal(claims: seq<Claim>, j: nat): int
  {
    if claims == [] then 0
    else (if claims[0].source == j then claims[0].amount else 0) + SourceTotal(claims[1..], j)
  }

  ghost predicate WellFormedClaim(c: Claim, requests: seq<Request>, prints: seq<Print>)
  {
    && c.order < |requests| && c.source < |prints| && c.amount >= 0
    && prints[c.source].price < requests[c.order].limit
  }

  /** Any way of assigning recorded volume that no rule forbids: only prints strictly through
      the limit, no order beyond its claimable size, no print beyond its recorded size. */
  ghost predicate Feasible(claims: seq<Claim>, requests: seq<Request>, prints: seq<Print>, ppm: int)
  {
    && (forall k :: 0 <= k < |claims| ==> WellFormedClaim(claims[k], requests, prints))
    && (forall i :: 0 <= i < |requests| ==> OrderTotal(claims, i) <= Claimable(requests[i], ppm))
    && (forall j :: 0 <= j < |prints| ==> SourceTotal(claims, j) <= prints[j].quantity)
  }

  /** Claimable size of the orders whose limit lies above the cut. */
  function CapsAbove(requests: seq<Request>, cut: int, ppm: int): (r: seq<int>)
    ensures |r| == |requests|
    ensures forall i :: 0 <= i < |requests| ==>
              r[i] == if requests[i].limit > cut then Claimable(requests[i], ppm) else 0
  {
    seq(|requests|, i requires 0 <= i < |requests| =>
      if requests[i].limit > cut then Claimable(requests[i], ppm) else 0)
  }

  function ClaimedAbove(claims: seq<Claim>, requests: seq<Request>, cut: int): (r: seq<int>)
    ensures |r| == |requests|
    ensures forall i :: 0 <= i < |requests| ==> r[i] == if requests[i].limit > cut then OrderTotal(claims, i) else 0
  {
    seq(|requests|, i requires 0 <= i < |requests| => if requests[i].limit > cut then OrderTotal(claims, i) else 0)
  }

  function ClaimedBelow(claims: seq<Claim>, prints: seq<Print>, cut: int): (r: seq<int>)
    ensures |r| == |prints|
    ensures forall j :: 0 <= j < |prints| ==> r[j] == if prints[j].price < cut then SourceTotal(claims, j) else 0
  {
    seq(|prints|, j requires 0 <= j < |prints| => if prints[j].price < cut then SourceTotal(claims, j) else 0)
  }

  /** Every claim is counted against an order above the cut or a print below it. */
  lemma {:induction false} ClaimsCrossCut(claims: seq<Claim>, requests: seq<Request>, prints: seq<Print>, cut: int)
    requires forall k :: 0 <= k < |claims| ==> WellFormedClaim(claims[k], requests, prints)
    ensures Total(claims) <= Sum(ClaimedAbove(claims, requests, cut)) + Sum(ClaimedBelow(claims, prints, cut))
  {
    if claims == [] {
      AllZero(ClaimedAbove(claims, requests, cut));
      AllZero(ClaimedBelow(claims, prints, cut));
    } else {
      var c, rest := claims[0], claims[1..];
      ClaimsCrossCut(rest, requests, prints, cut);
      var above, below := ClaimedAbove(rest, requests, cut), ClaimedBelow(rest, prints, cut);
      var above', below' := ClaimedAbove(claims, requests, cut), ClaimedBelow(claims, prints, cut);
      assert above' == above[c.order := above'[c.order]];
      assert below' == below[c.source := below'[c.source]];
      SumUpdate(above, c.order, above'[c.order]);
      SumUpdate(below, c.source, below'[c.source]);
    }
  }

  /** No assignment beats any cut: orders above it at their caps, plus all volume below it. */
  lemma FeasibleWithinCut(claims: seq<Claim>, requests: seq<Request>, prints: seq<Print>, ppm: int, cut: int)
    requires Feasible(claims, requests, prints, ppm)
    ensures Total(claims) <= Sum(CapsAbove(requests, cut, ppm)) + VolumeBelow(prints, cut)
  {
    ClaimsCrossCut(claims, requests, prints, cut);
    SumMonotone(ClaimedAbove(claims, requests, cut), CapsAbove(requests, cut, ppm));
    SumMonotone(ClaimedBelow(claims, prints, cut), Below(prints, cut));
  }

  // ---------------------------------------------------------------- the greedy meets a cut

  ghost predicate Ordered(requests: seq<Request>, order: seq<nat>)
  {
    && (forall k :: 0 <= k < |order| ==> order[k] < |requests|)
    && (forall a, b :: 0 <= a < b < |order| ==> requests[order[a]].limit >= requests[order[b]].limit)
  }

  lemma PriorityIsOrdered(requests: seq<Request>)
    ensures Ordered(requests, Priority(requests))
  {}

  lemma FillFacts(requests: seq<Request>, i: nat, pool: seq<Print>, ppm: int)
    requires ValidRequests(requests, ppm) && ValidPrints(pool) && i < |requests|
    ensures var fill := RestingFillQuantity(requests[i], pool, ppm);
            0 <= fill <= Claimable(requests[i], ppm) <= requests[i].remaining
                && fill <= VolumeBelow(pool, requests[i].limit)
  {
    ClaimableNonNegative(requests, ppm, i);
    SumNonNegative(Below(pool, requests[i].limit));
  }

  /** A price nothing trades below. */
  function LowestPrice(prints: seq<Print>): (p: int)
    ensures forall j :: 0 <= j < |prints| ==> p <= prints[j].price
  {
    if prints == [] then 0
    else
      var rest := LowestPrice(prints[1..]);
      assert forall j :: 1 <= j < |prints| ==> prints[j] == prints[1..][j - 1];
      Min(prints[0].price, rest)
  }

  lemma GatherStep(order: seq<nat>, v: seq<int>)
    requires order != [] && forall k :: 0 <= k < |order| ==> order[k] < |v|
    ensures Sum(Gather(order, v)) == v[order[0]] + Sum(Gather(order[1..], v))
  {
    assert Gather(order, v)[1..] == Gather(order[1..], v);
  }

  /** What the greedy hands out reaches some cut. */
  lemma {:induction false} GreedyReachesCut(requests: seq<Request>, order: seq<nat>, pool: seq<Print>, ppm: int)
      returns (cut: int)
    requires ValidRequests(requests, ppm) && ValidPrints(pool) && Ordered(requests, order)
    ensures Sum(ClaimInOrder(requests, order, pool, ppm))
         >= Sum(Gather(order, CapsAbove(requests, cut, ppm))) + VolumeBelow(pool, cut)
    decreases |order|
  {
    if order == [] {
      cut := LowestPrice(pool);
      ZeroVolume(pool, cut);
    } else {
      var q := requests[order[0]];
      var fill := RestingFillQuantity(q, pool, ppm);
      FillFacts(requests, order[0], pool, ppm);
      var after := Consume(pool, q.limit, fill);
      var tail := order[1..];
      assert forall k :: 0 <= k < |tail| ==> tail[k] == order[k + 1];
      cut := GreedyReachesCut(requests, tail, after, ppm);
      ConsumedVolume(pool, q.limit, fill, cut);
      assert ClaimInOrder(requests, order, pool, ppm)[1..] == ClaimInOrder(requests, tail, after, ppm);
      CapsNonNegative(requests, tail, cut, ppm);
      if fill == Claimable(q, ppm) && cut < q.limit && VolumeBelow(after, cut) == VolumeBelow(pool, cut) {
        GatherStep(order, CapsAbove(requests, cut, ppm));
      } else {
        if cut > q.limit { VolumeMonotone(pool, q.limit, cut); }
        if cut < q.limit && fill < Claimable(q, ppm) { VolumeMonotone(after, cut, cut); }
        cut := q.limit;
        NothingAboveHead(requests, order, ppm);
      }
    }
  }

  lemma CapsNonNegative(requests: seq<Request>, order: seq<nat>, cut: int, ppm: int)
    requires ValidRequests(requests, ppm) && forall k :: 0 <= k < |order| ==> order[k] < |requests|
    ensures Sum(Gather(order, CapsAbove(requests, cut, ppm))) >= 0
  {
    var caps := CapsAbove(requests, cut, ppm);
    forall k | 0 <= k < |order| ensures Gather(order, caps)[k] >= 0 {
      ClaimableNonNegative(requests, ppm, order[k]);
    }
    SumNonNegative(Gather(order, caps));
  }

  lemma NothingAboveHead(requests: seq<Request>, order: seq<nat>, ppm: int)
    requires Ordered(requests, order) && order != []
    ensures Sum(Gather(order, CapsAbove(requests, requests[order[0]].limit, ppm))) == 0
  {
    AllZero(Gather(order, CapsAbove(requests, requests[order[0]].limit, ppm)));
  }

  /** The priority order changes nothing about totals. */
  lemma AllocateTotal(requests: seq<Request>, prints: seq<Print>, ppm: int)
    ensures Sum(Allocate(requests, prints, ppm)) == Sum(ClaimInOrder(requests, Priority(requests), prints, ppm))
  {
    var order, fills := Priority(requests), Allocate(requests, prints, ppm);
    AllocateAt(requests, prints, ppm);
    GatherSum(Limits(requests), |requests|, fills);
    assert fills[..|requests|] == fills;
    assert Gather(order, fills) == ClaimInOrder(requests, order, prints, ppm);
  }

  /** Where request `i` stands in the priority order, and the fill it is given there. */
  lemma RankOf(requests: seq<Request>, prints: seq<Print>, ppm: int, i: nat) returns (k: nat)
    requires i < |requests|
    ensures k < |requests| && Priority(requests)[k] == i
    ensures Allocate(requests, prints, ppm)[i] == ClaimInOrder(requests, Priority(requests), prints, ppm)[k]
  {
    AllocateAt(requests, prints, ppm);
    var order := Priority(requests);
    assert i in order;
    k :| 0 <= k < |order| && order[k] == i;
  }

  // ---------------------------------------------------------------- the greedy is an assignment

  /** The claims one consumption makes. */
  function ClaimsOf(i: nat, pool: seq<Print>, order: seq<nat>, limit: int, amount: int): seq<Claim>
    requires forall k :: 0 <= k < |order| ==> order[k] < |pool|
    decreases |order|
  {
    if order == [] || amount <= 0 then []
    else
      var j := order[0];
      if pool[j].price >= limit || pool[j].quantity <= 0 then ClaimsOf(i, pool, order[1..], limit, amount)
      else
        var take := Min(amount, pool[j].quantity);
        [Claim(i, j, take)] + ClaimsOf(i, Reduced(pool, j, take), order[1..], limit, amount - take)
  }

  lemma {:induction false} ClaimsOfFacts(i: nat, pool: seq<Print>, order: seq<nat>, limit: int, amount: int)
    requires forall k :: 0 <= k < |order| ==> order[k] < |pool|
    ensures var claims := ClaimsOf(i, pool, order, limit, amount);
            && (forall k :: 0 <= k < |claims| ==>
                  claims[k].order == i && claims[k].source < |pool| && claims[k].amount > 0
                      && pool[claims[k].source].price < limit)
            && (forall j :: 0 <= j < |pool| ==>
                  SourceTotal(claims, j) == pool[j].quantity - ConsumeInOrder(pool, order, limit, amount)[j].quantity)
    decreases |order|
  {
    if order != [] && amount > 0 {
      var j := order[0];
      if pool[j].price >= limit || pool[j].quantity <= 0 {
        ClaimsOfFacts(i, pool, order[1..], limit, amount);
      } else {
        var take := Min(amount, pool[j].quantity);
        ClaimsOfFacts(i, Reduced(pool, j, take), order[1..], limit, amount - take);
      }
    }
  }

  /** Claims for one order add up to the drawn amount. */
  lemma {:induction false} ClaimsOfTotal(i: nat, pool: seq<Print>, order: seq<nat>, limit: int, amount: int)
    requires Pending(pool, order, limit) && 0 <= amount <= VolumeBelow(pool, limit)
    ensures Total(ClaimsOf(i, pool, order, limit, amount)) == amount
    decreases |order|
  {
    if amount == 0 {
    } else if order == [] {
      ZeroVolume(pool, limit);
    } else {
      var j := order[0];
      if pool[j].price >= limit || pool[j].quantity <= 0 {
        PendingStep(pool, order, limit, 0);
        assert Reduced(pool, j, 0) == pool;
        ClaimsOfTotal(i, pool, order[1..], limit, amount);
      } else {
        var take := Min(amount, pool[j].quantity);
        ReduceVolume(pool, j, take, limit);
        if amount > take {
          PendingStep(pool, order, limit, take);
          ClaimsOfTotal(i, Reduced(pool, j, take), order[1..], limit, amount - take);
        }
      }
    }
  }

  lemma {:induction false} TotalsAppend(a: seq<Claim>, b: seq<Claim>, n: nat)
    ensures Total(a + b) == Total(a) + Total(b)
    ensures OrderTotal(a + b, n) == OrderTotal(a, n) + OrderTotal(b, n)
    ensures SourceTotal(a + b, n) == SourceTotal(a, n) + SourceTotal(b, n)
  {
    if a == [] {
      assert a + b == b;
    } else {
      assert (a + b)[1..] == a[1..] + b;
      TotalsAppend(a[1..], b, n);
    }
  }

  lemma {:induction false} SingleOrderTotals(claims: seq<Claim>, i: nat, n: nat)
    requires forall k :: 0 <= k < |claims| ==> claims[k].order == i
    ensures OrderTotal(claims, n) == if n == i then Total(claims) else 0
  {
    if claims != [] { SingleOrderTotals(claims[1..], i, n); }
  }

  /** All the claims of a greedy pass. */
  function GreedyClaims(requests: seq<Request>, order: seq<nat>, pool: seq<Print>, ppm: int): seq<Claim>
    requires forall k :: 0 <= k < |order| ==> order[k] < |requests|
    decreases |order|
  {
    if order == [] then []
    else
      var q := requests[order[0]];
      var fill := RestingFillQuantity(q, pool, ppm);
      ClaimsOf(order[0], pool, DescendingOrder(Prices(pool), |pool|), q.limit, fill)
      + GreedyClaims(requests, order[1..], Consume(pool, q.limit, fill), ppm)
  }

  lemma {:induction false} GreedyClaimsFacts(requests: seq<Request>, order: seq<nat>, pool: seq<Print>, ppm: int)
    requires ValidRequests(requests, ppm) && ValidPrints(pool)
    requires forall k :: 0 <= k < |order| ==> order[k] < |requests|
    requires forall a, b :: 0 <= a < b < |order| ==> order[a] != order[b]
    ensures var claims := GreedyClaims(requests, order, pool, ppm);
            && (forall k :: 0 <= k < |claims| ==> WellFormedClaim(claims[k], requests, pool))
            && (forall j :: 0 <= j < |pool| ==> SourceTotal(claims, j) <= pool[j].quantity)
            && (forall k :: 0 <= k < |order| ==>
                OrderTotal(claims, order[k]) == ClaimInOrder(requests, order, pool, ppm)[k])
            && (forall i: nat :: i !in order ==> OrderTotal(claims, i) == 0)
            && Total(claims) == Sum(ClaimInOrder(requests, order, pool, ppm))
    decreases |order|
  {
    hide ClaimsOf, ConsumeInOrder, VolumeBelow, RestingFillQuantity, Claimable, ValidRequests, Pending;
    if order != [] {
      var i := order[0];
      var q := requests[i];
      var fill := RestingFillQuantity(q, pool, ppm);
      FillFacts(requests, i, pool, ppm);
      var visit := DescendingOrder(Prices(pool), |pool|);
      var after, tail := Consume(pool, q.limit, fill), order[1..];
      assert Prices(after) == Prices(pool);
      var head := ClaimsOf(i, pool, visit, q.limit, fill);
      var rest := GreedyClaims(requests, tail, after, ppm);
      ClaimsOfFacts(i, pool, visit, q.limit, fill);
      FreshOrderIsPending(pool, q.limit);
      ClaimsOfTotal(i, pool, visit, q.limit, fill);
      GreedyClaimsFacts(requests, tail, after, ppm);
      GreedyClaimsStep(requests, order, pool, ppm, head, rest, after);
    }
  }

  /** Putting the head's claims in front of the rest's. */
  lemma GreedyClaimsStep(requests: seq<Request>, order: seq<nat>, pool: seq<Print>, ppm: int,
                         head: seq<Claim>, rest: seq<Claim>, after: seq<Print>)
    requires order != [] && forall k :: 0 <= k < |order| ==> order[k] < |requests|
    requires forall a, b :: 0 <= a < b < |order| ==> order[a] != order[b]
    requires |after| == |pool| && Prices(after) == Prices(pool)
    requires forall k :: 0 <= k < |head| ==> head[k].order == order[0] && WellFormedClaim(head[k], requests, pool)
    requires forall k :: 0 <= k < |rest| ==> WellFormedClaim(rest[k], requests, after)
    requires forall j :: 0 <= j < |pool| ==> SourceTotal(head, j) == pool[j].quantity - after[j].quantity
    requires forall j :: 0 <= j < |pool| ==> SourceTotal(rest, j) <= after[j].quantity
    requires var fills := ClaimInOrder(requests, order, pool, ppm);
             && Total(head) == fills[0]
             && (forall k :: 1 <= k < |order| ==> OrderTotal(rest, order[k]) == fills[k])
             && (forall i: nat :: i !in order[1..] ==> OrderTotal(rest, i) == 0)
             && Total(rest) == Sum(fills[1..])
    ensures var claims := head + rest;
            && (forall k :: 0 <= k < |claims| ==> WellFormedClaim(claims[k], requests, pool))
            && (forall j :: 0 <= j < |pool| ==> SourceTotal(claims, j) <= pool[j].quantity)
            && (forall k :: 0 <= k < |order| ==>
                OrderTotal(claims, order[k]) == ClaimInOrder(requests, order, pool, ppm)[k])
            && (forall i: nat :: i !in order ==> OrderTotal(claims, i) == 0)
            && Total(claims) == Sum(ClaimInOrder(requests, order, pool, ppm))
  {
    var claims := head + rest;
    var fills := ClaimInOrder(requests, order, pool, ppm);
    TotalsAppend(head, rest, 0);
    forall j | 0 <= j < |pool| ensures SourceTotal(claims, j) <= pool[j].quantity {
      TotalsAppend(head, rest, j);
    }
    forall n: nat ensures OrderTotal(claims, n) == OrderTotal(rest, n) + if n == order[0] then Total(head) else 0 {
      TotalsAppend(head, rest, n);
      SingleOrderTotals(head, order[0], n);
    }
    assert order[0] !in order[1..];
    forall k | 0 <= k < |claims| ensures WellFormedClaim(claims[k], requests, pool) {
      if k >= |head| {
        var c := rest[k - |head|];
        assert Prices(after)[c.source] == Prices(pool)[c.source];
      }
    }
  }

  // ---------------------------------------------------------------- main theorems

  /** The allocator's fills are a real assignment of recorded volume, and no assignment of that
      volume fills more contracts in total. */
  lemma AllocationIsMaximum(requests: seq<Request>, prints: seq<Print>, ppm: int)
    requires ValidRequests(requests, ppm) && ValidPrints(prints)
    ensures var fills := Allocate(requests, prints, ppm);
            && (exists claims :: && Feasible(claims, requests, prints, ppm)
                                 && (forall i :: 0 <= i < |requests| ==> OrderTotal(claims, i) == fills[i])
                                 && Total(claims) == Sum(fills))
            && (forall claims :: Feasible(claims, requests, prints, ppm) ==> Total(claims) <= Sum(fills))
  {
    hide Allocate, GreedyClaims, ClaimInOrder, VolumeBelow, Feasible, ValidRequests, Total, OrderTotal, Sum;
    var order, fills := Priority(requests), Allocate(requests, prints, ppm);
    PriorityIsOrdered(requests);
    AllocateTotal(requests, prints, ppm);
    GreedyIsFeasible(requests, prints, ppm);
    var cut := GreedyReachesCut(requests, order, prints, ppm);
    var caps := CapsAbove(requests, cut, ppm);
    GatherSum(Limits(requests), |requests|, caps);
    assert caps[..|requests|] == caps;
    forall claims | Feasible(claims, requests, prints, ppm) ensures Total(claims) <= Sum(fills) {
      FeasibleWithinCut(claims, requests, prints, ppm, cut);
    }
  }

  lemma GreedyIsFeasible(requests: seq<Request>, prints: seq<Print>, ppm: int)
    requires ValidRequests(requests, ppm) && ValidPrints(prints)
    ensures var fills := Allocate(requests, prints, ppm);
            var claims := GreedyClaims(requests, Priority(requests), prints, ppm);
            && Feasible(claims, requests, prints, ppm)
            && (forall i :: 0 <= i < |requests| ==> OrderTotal(claims, i) == fills[i])
            && Total(claims) == Sum(fills)
  {
    var order, fills := Priority(requests), Allocate(requests, prints, ppm);
    var claims := GreedyClaims(requests, order, prints, ppm);
    forall a, b | 0 <= a < b < |order| ensures order[a] != order[b] {
      assert Precedes(Limits(requests), order[a], order[b]);
    }
    GreedyClaimsFacts(requests, order, prints, ppm);
    AllocateTotal(requests, prints, ppm);
    forall i | 0 <= i < |requests| ensures OrderTotal(claims, i) == fills[i] <= Claimable(requests[i], ppm) {
      var k := RankOf(requests, prints, ppm, i);
      AllocationIsBounded(requests, prints, ppm, i);
    }
  }

  /** No fill is negative, beyond its order's size and share, or beyond the volume through its limit. */
  lemma AllocationIsBounded(requests: seq<Request>, prints: seq<Print>, ppm: int, i: nat)
    requires ValidRequests(requests, ppm) && ValidPrints(prints) && i < |requests|
    ensures var fill := Allocate(requests, prints, ppm)[i];
            && 0 <= fill <= Claimable(requests[i], ppm) <= requests[i].remaining
            && fill <= VolumeBelow(prints, requests[i].limit)
  {
    PriorityIsOrdered(requests);
    ClaimsAreBounded(requests, Priority(requests), prints, ppm);
    var k := RankOf(requests, prints, ppm, i);
  }

  lemma {:induction false} ClaimsAreBounded(requests: seq<Request>, order: seq<nat>, pool: seq<Print>, ppm: int)
    requires ValidRequests(requests, ppm) && ValidPrints(pool) && Ordered(requests, order)
    ensures forall k :: 0 <= k < |order| ==>
              var q := requests[order[k]];
              && 0 <= ClaimInOrder(requests, order, pool, ppm)[k] <= Claimable(q, ppm) <= q.remaining
              && ClaimInOrder(requests, order, pool, ppm)[k] <= VolumeBelow(pool, q.limit)
    decreases |order|
  {
    if order != [] {
      var q := requests[order[0]];
      var fill := RestingFillQuantity(q, pool, ppm);
      FillFacts(requests, order[0], pool, ppm);
      var after, tail := Consume(pool, q.limit, fill), order[1..];
      assert forall k :: 0 <= k < |tail| ==> tail[k] == order[k + 1];
      ClaimsAreBounded(requests, tail, after, ppm);
      forall k | 0 <= k < |order|
        ensures var r := requests[order[k]];
                && 0 <= ClaimInOrder(requests, order, pool, ppm)[k] <= Claimable(r, ppm) <= r.remaining
                && ClaimInOrder(requests, order, pool, ppm)[k] <= VolumeBelow(pool, r.limit)
      {
        if k > 0 {
          assert ClaimInOrder(requests, order, pool, ppm)[k] == ClaimInOrder(requests, tail, after, ppm)[k - 1];
          ConsumedVolume(pool, q.limit, fill, requests[tail[k - 1]].limit);
        }
      }
    }
  }

  /** The fills of the orders at or below a price. */
  function FillsUpTo(requests: seq<Request>, fills: seq<int>, price: int): (r: seq<int>)
    requires |fills| == |requests|
    ensures |r| == |requests| && forall i :: 0 <= i < |requests| ==>
        r[i] == if requests[i].limit <= price then fills[i] else 0
  {
    seq(|requests|, i requires 0 <= i < |requests| => if requests[i].limit <= price then fills[i] else 0)
  }

  /** No volume is claimed twice: at every price, the orders limited there or below share no
      more than what traded strictly below it. */
  lemma VolumeIsClaimedOnce(requests: seq<Request>, prints: seq<Print>, ppm: int, price: int)
    requires ValidRequests(requests, ppm) && ValidPrints(prints)
    ensures Sum(FillsUpTo(requests, Allocate(requests, prints, ppm), price)) <= VolumeBelow(prints, price)
  {
    var order, fills := Priority(requests), Allocate(requests, prints, ppm);
    PriorityIsOrdered(requests);
    AllocateAt(requests, prints, ppm);
    var upTo := FillsUpTo(requests, fills, price);
    GatherSum(Limits(requests), |requests|, upTo);
    assert upTo[..|requests|] == upTo;
    ClaimsUpTo(requests, order, prints, ppm, price, upTo);
  }

  lemma {:induction false} ClaimsUpTo(requests: seq<Request>, order: seq<nat>, pool: seq<Print>, ppm: int,
      price: int, upTo: seq<int>)
    requires ValidRequests(requests, ppm) && ValidPrints(pool) && Ordered(requests, order) && |upTo| == |requests|
    requires forall k :: 0 <= k < |order| ==>
               upTo[order[k]]
               == if requests[order[k]].limit <= price then ClaimInOrder(requests, order, pool, ppm)[k] else 0
    ensures Sum(Gather(order, upTo)) <= VolumeBelow(pool, price)
    decreases |order|
  {
    hide Consume, Claimable, Below;
    SumNonNegative(Below(pool, price));
    if order != [] {
      var q := requests[order[0]];
      var fill := RestingFillQuantity(q, pool, ppm);
      FillFacts(requests, order[0], pool, ppm);
      var after, tail := Consume(pool, q.limit, fill), order[1..];
      var fills := ClaimInOrder(requests, order, pool, ppm);
      assert ClaimInOrder(requests, tail, after, ppm) == fills[1..];
      forall k | 0 <= k < |tail|
        ensures tail[k] == order[k + 1]
        ensures upTo[tail[k]] == if requests[tail[k]].limit <= price then fills[1..][k] else 0
      {}
      ClaimsUpTo(requests, tail, after, ppm, price, upTo);
      assert Sum(Gather(tail, upTo)) <= VolumeBelow(after, price);
      ConsumedVolume(pool, q.limit, fill, price);
      GatherStep(order, upTo);
    }
  }

  /** Price-time priority: nothing reaches an order until every order ahead of it (a better
      limit, or the same limit and an earlier arrival) has all it may claim. */
  lemma PriorityIsRespected(requests: seq<Request>, prints: seq<Print>, ppm: int, i: nat, j: nat)
    requires ValidRequests(requests, ppm) && ValidPrints(prints)
    requires i < |requests| && j < |requests| && Precedes(Limits(requests), i, j)
    requires Allocate(requests, prints, ppm)[j] > 0
    ensures Allocate(requests, prints, ppm)[i] == Claimable(requests[i], ppm)
  {
    var order := Priority(requests);
    PriorityIsOrdered(requests);
    var a := RankOf(requests, prints, ppm, i);
    var b := RankOf(requests, prints, ppm, j);
    ClaimsFollowPriority(requests, order, prints, ppm, a, b);
  }

  lemma {:induction false} ClaimsFollowPriority(requests: seq<Request>, order: seq<nat>, pool: seq<Print>, ppm: int,
      a: nat, b: nat)
    requires ValidRequests(requests, ppm) && ValidPrints(pool) && Ordered(requests, order) && a < b < |order|
    requires ClaimInOrder(requests, order, pool, ppm)[b] > 0
    ensures ClaimInOrder(requests, order, pool, ppm)[a] == Claimable(requests[order[a]], ppm)
    decreases |order|
  {
    var q := requests[order[0]];
    var fill := RestingFillQuantity(q, pool, ppm);
    FillFacts(requests, order[0], pool, ppm);
    var after, tail := Consume(pool, q.limit, fill), order[1..];
    assert forall k :: 0 <= k < |tail| ==> tail[k] == order[k + 1];
    assert ClaimInOrder(requests, order, pool, ppm)[b] == ClaimInOrder(requests, tail, after, ppm)[b - 1];
    if a > 0 {
      ClaimsFollowPriority(requests, tail, after, ppm, a - 1, b - 1);
    } else {
      ClaimsAreBounded(requests, tail, after, ppm);
      ConsumedVolume(pool, q.limit, fill, requests[tail[b - 1]].limit);
    }
  }
}
