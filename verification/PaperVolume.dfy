/** Recorded volume is shared out once: per side, between the sides, and as much of it as any
    assignment could. */
module PaperVolume {
  import opened Numeric
  import opened Sums
  import opened Fees
  import opened TakerWalk
  import opened RestingAllocation
  import opened AllocationOptimality
  import opened PaperModel
  import opened PaperRules
  import opened PaperInvariant
  import opened PaperMarkets
  import opened PaperAccounting
  import opened PaperSafety
  import opened Replay

  // ---------------------------------------------------------------- one side

  /** Contracts filled on one side at limits up to a price. */
  function EmittedUpTo(fills: seq<Fill>, side: Side, price: int): int
  {
    if fills == [] then 0
    else (if fills[0].side == side && fills[0].price <= price then fills[0].quantity else 0)
         + EmittedUpTo(fills[1..], side, price)
  }

  /** The same, read off the allocation. */
  function AllocatedUpTo(orders: seq<OpenOrder>, filled: map<nat, int>, price: int): int
    requires forall o :: o in orders ==> o.id in filled
  {
    if orders == [] then 0
    else (if orders[0].price <= price then Max(filled[orders[0].id], 0) else 0)
         + AllocatedUpTo(orders[1..], filled, price)
  }

  lemma {:induction false} EmittedIsAllocated(resting: seq<OpenOrder>, filled: map<nat, int>, ticker: Ticker,
                                              step: Step, seqNo: nat, side: Side, price: int)
    requires Covers(resting, filled, ticker)
    ensures EmittedUpTo(FillOrders(resting, filled, ticker, step, seqNo).fills, side, price)
         == AllocatedUpTo(SideOrders(resting, ticker, side), filled, price)
  {
    if resting != [] {
      var o := resting[0];
      assert o in resting;
      EmittedIsAllocated(resting[1..], filled, ticker, step, NextSeq(o, filled, ticker, seqNo), side, price);
    }
  }

  lemma {:induction false} AllocatedIsSum(orders: seq<OpenOrder>, filled: map<nat, int>, fills: seq<int>, step: Step,
      price: int)
    requires |orders| == |fills|
    requires forall k :: 0 <= k < |orders| ==> orders[k].id in filled && filled[orders[k].id] == fills[k] >= 0
    ensures AllocatedUpTo(orders, filled, price) == Sum(FillsUpTo(RequestsOf(orders, step), fills, price))
  {
    if orders != [] {
      AllocatedIsSum(orders[1..], filled, fills[1..], step, price);
      var all, rest := FillsUpTo(RequestsOf(orders, step), fills, price),
          FillsUpTo(RequestsOf(orders[1..], step), fills[1..], price);
      assert all[1..] == rest;
    }
  }

  lemma SideFillAt(s: Account, ticker: Ticker, step: Step, ppm: int, side: Side, k: nat)
    requires Sound(s) && ValidStep(step) && 0 <= ppm <= PPM_DENOMINATOR && k < |SideOrders(s.resting, ticker, side)|
    ensures var orders := SideOrders(s.resting, ticker, side);
            var filled := AllocateStep(s.resting, ticker, step, ppm);
            orders[k].id in filled && filled[orders[k].id] == SideFills(orders, side, step, ppm)[k] >= 0
  {
    hide AllocateStep, SideFills, ValidStep, VolumeBelow, Claimable;
    var orders := SideOrders(s.resting, ticker, side);
    SideKeepsArrivalOrder(s.resting, ticker, side);
    assert orders[k] in orders;
    var j := StepFillOf(s.resting, ticker, step, ppm, orders[k]);
    assert j == k;
    StepFillIsBounded(s, ticker, step, ppm, orders[k]);
  }

  /** The fills of one pass on a side, limited at or below a price, fit in the volume below it. */
  lemma SideClaimsVolumeOnce(s: Account, ticker: Ticker, step: Step, ppm: int, seqNo: nat, side: Side, price: int)
    requires Sound(s) && ValidStep(step) && 0 <= ppm <= PPM_DENOMINATOR
    ensures var fills := FillOrders(s.resting, AllocateStep(s.resting, ticker, step, ppm), ticker, step, seqNo).fills;
            EmittedUpTo(fills, side, price) <= ThroughVolume(side, price, step.trades)
  {
    hide AllocateStep, FillOrders, ValidStep, VolumeBelow, ThroughVolume, Claimable, EmittedUpTo, AllocatedUpTo,
      Allocate;
    var filled := AllocateStep(s.resting, ticker, step, ppm);
    var orders := SideOrders(s.resting, ticker, side);
    var fills := SideFills(orders, side, step, ppm);
    EmittedIsAllocated(s.resting, filled, ticker, step, seqNo, side, price);
    SideAllocation(s, ticker, step, ppm, side);
    AllocatedIsSum(orders, filled, fills, step, price);
    VolumeIsClaimedOnce(RequestsOf(orders, step), BuyFramePrints(side, step.trades), ppm, price);
    VolumeIsThrough(side, price, step.trades);
  }

  /** What the dictionary holds for a side is that side's allocation, on valid inputs. */
  lemma SideAllocation(s: Account, ticker: Ticker, step: Step, ppm: int, side: Side)
    requires Sound(s) && ValidStep(step) && 0 <= ppm <= PPM_DENOMINATOR
    ensures var orders, filled := SideOrders(s.resting, ticker, side), AllocateStep(s.resting, ticker, step, ppm);
            && ValidRequests(RequestsOf(orders, step), ppm) && ValidPrints(BuyFramePrints(side, step.trades))
            && forall k :: 0 <= k < |orders| ==>
                 orders[k].id in filled && filled[orders[k].id] == SideFills(orders, side, step, ppm)[k] >= 0
  {
    hide AllocateStep, SideFills, ValidStep, ValidRequests, ValidPrints;
    var orders, filled := SideOrders(s.resting, ticker, side), AllocateStep(s.resting, ticker, step, ppm);
    forall k | 0 <= k < |orders|
      ensures orders[k].id in filled && filled[orders[k].id] == SideFills(orders, side, step, ppm)[k] >= 0
    {
      SideFillAt(s, ticker, step, ppm, side, k);
    }
    forall o | o in orders ensures o.quantity >= 0 { assert SizedOrder(o); }
    StepInputsAreValid(orders, side, step, ppm);
  }

  /** From any state inside any advance of any run, one step's fills on a side at limits up to any
      price share no more than what traded strictly below that price in that side's frame. */
  lemma StepClaimsVolumeOnce(v: Venue, ops: seq<Op>, i: nat, ticker: Ticker, step: Step, side: Side, price: int)
    requires ValidVenue(v) && ValidStep(step) && i <= |v.recording.tickers|
    ensures EmittedUpTo(StepPass(Within(v, ops, i), ticker, step, v.ppm).fills, side, price)
            <= ThroughVolume(side, price, step.trades)
  {
    hide Within, Sound, ValidStep, EmittedUpTo;
    WithinIsSound(v, ops, i);
    var s := Within(v, ops, i);
    SideClaimsVolumeOnce(s, ticker, step, v.ppm, s.fillSeq, side, price);
  }

  // ---------------------------------------------------------------- no side could fill more

  /** Contracts filled on one side. */
  function Emitted(fills: seq<Fill>, side: Side): int
  {
    if fills == [] then 0 else (if fills[0].side == side then fills[0].quantity else 0) + Emitted(fills[1..], side)
  }

  lemma {:induction false} EmittedInFull(fills: seq<Fill>, side: Side, price: int)
    requires forall f :: f in fills && f.side == side ==> f.price <= price
    ensures Emitted(fills, side) == EmittedUpTo(fills, side, price)
  {
    if fills != [] {
      assert fills[0] in fills;
      EmittedInFull(fills[1..], side, price);
    }
  }

  lemma {:induction false} HighestLimit(orders: seq<OpenOrder>) returns (price: int)
    ensures forall o :: o in orders ==> o.price <= price
  {
    price := 0;
    if orders != [] {
      price := HighestLimit(orders[1..]);
      price := Max(price, orders[0].price);
    }
  }

  lemma EmittedIsTheAllocation(s: Account, ticker: Ticker, step: Step, ppm: int, seqNo: nat, side: Side)
    requires Sound(s) && ValidStep(step) && 0 <= ppm <= PPM_DENOMINATOR
    ensures var fills := FillOrders(s.resting, AllocateStep(s.resting, ticker, step, ppm), ticker, step, seqNo).fills;
            Emitted(fills, side) == Sum(SideFills(SideOrders(s.resting, ticker, side), side, step, ppm))
  {
    hide AllocateStep, FillOrders, ValidStep, EmittedUpTo, Emitted, AllocatedUpTo, SideFills, Sum;
    var filled := AllocateStep(s.resting, ticker, step, ppm);
    var orders := SideOrders(s.resting, ticker, side);
    var fills, pass := SideFills(orders, side, step, ppm), FillOrders(s.resting, filled, ticker, step, seqNo);
    var price := HighestLimit(orders);
    forall f | f in pass.fills && f.side == side ensures f.price <= price {
      EveryFillExecutesAnOrder(s.resting, filled, ticker, step, seqNo, f);
      var o :| o in s.resting && o.ticker == ticker && Executes(f, o, filled, step);
      assert o in orders;
    }
    EmittedInFull(pass.fills, side, price);
    EmittedIsAllocated(s.resting, filled, ticker, step, seqNo, side, price);
    SideAllocation(s, ticker, step, ppm, side);
    AllocatedIsSum(orders, filled, fills, step, price);
    forall k | 0 <= k < |orders| ensures RequestsOf(orders, step)[k].limit <= price { assert orders[k] in orders; }
    assert FillsUpTo(RequestsOf(orders, step), fills, price) == fills;
  }

  /** Any assignment of a step's prints to one side's resting orders that no rule forbids: only
      prints strictly through the limit, no order beyond its size or its share of its queue, no
      print beyond its recorded size. */
  ghost predicate Permitted(claims: seq<Claim>, orders: seq<OpenOrder>, side: Side, step: Step, ppm: int)
  {
    && (forall k :: 0 <= k < |claims| ==>
          && claims[k].order < |orders| && claims[k].source < |step.trades| && claims[k].amount >= 0
          && TradesThrough(step.trades[claims[k].source], side, orders[claims[k].order].price))
    && (forall i :: 0 <= i < |orders| ==>
          && OrderTotal(claims, i) <= orders[i].quantity
          && OrderTotal(claims, i) * 1_000_000 <= QueueDepth(side, orders[i].price, step.book) * ppm)
    && (forall j :: 0 <= j < |step.trades| ==> SourceTotal(claims, j) <= step.trades[j].quantity)
  }

  lemma PermittedIsFeasible(claims: seq<Claim>, orders: seq<OpenOrder>, side: Side, step: Step, ppm: int)
    requires forall o :: o in orders ==> o.side == side
    ensures Permitted(claims, orders, side, step, ppm)
            <==> Feasible(claims, RequestsOf(orders, step), BuyFramePrints(side, step.trades), ppm)
  {
    hide OrderTotal, SourceTotal, Claimable, QueueDepth;
    var requests, prints := RequestsOf(orders, step), BuyFramePrints(side, step.trades);
    forall i | 0 <= i < |orders|
      ensures OrderTotal(claims, i) <= Claimable(requests[i], ppm)
              <==> && OrderTotal(claims, i) <= orders[i].quantity
                   && OrderTotal(claims, i) * 1_000_000 <= QueueDepth(side, orders[i].price, step.book) * ppm
    {
      assert orders[i] in orders;
      ClaimIsFull(orders[i], step, ppm);
    }
  }

  /** What a side fills is attained by a permitted assignment and exceeded by none. */
  ghost predicate IsMost(filled: int, orders: seq<OpenOrder>, side: Side, step: Step, ppm: int)
  {
    && (exists claims :: Permitted(claims, orders, side, step, ppm) && Total(claims) == filled)
    && (forall claims :: Permitted(claims, orders, side, step, ppm) ==> Total(claims) <= filled)
  }

  lemma PassFillsTheMost(s: Account, ticker: Ticker, step: Step, ppm: int, seqNo: nat, side: Side)
    requires Sound(s) && ValidStep(step) && 0 <= ppm <= PPM_DENOMINATOR
    ensures var fills := FillOrders(s.resting, AllocateStep(s.resting, ticker, step, ppm), ticker, step, seqNo).fills;
            IsMost(Emitted(fills, side), SideOrders(s.resting, ticker, side), side, step, ppm)
  {
    hide Sound, ValidStep, Emitted, Feasible, Permitted, Total, FillOrders, AllocateStep, BuyFramePrints, Sum;
    var orders := SideOrders(s.resting, ticker, side);
    EmittedIsTheAllocation(s, ticker, step, ppm, seqNo, side);
    SideAllocation(s, ticker, step, ppm, side);
    forall claims
      ensures Permitted(claims, orders, side, step, ppm)
              <==> Feasible(claims, RequestsOf(orders, step), BuyFramePrints(side, step.trades), ppm)
    {
      PermittedIsFeasible(claims, orders, side, step, ppm);
    }
    AllocationIsMaximum(RequestsOf(orders, step), BuyFramePrints(side, step.trades), ppm);
  }

  /** From any state inside any advance of any run, a step fills on each side the most contracts
      that any permitted assignment of its tape to that side's resting orders could. */
  lemma StepFillsTheMost(v: Venue, ops: seq<Op>, i: nat, ticker: Ticker, step: Step, side: Side)
    requires ValidVenue(v) && ValidStep(step) && i <= |v.recording.tickers|
    ensures var s := Within(v, ops, i);
            var filled := Emitted(StepPass(s, ticker, step, v.ppm).fills, side);
            IsMost(filled, SideOrders(s.resting, ticker, side), side, step, v.ppm)
  {
    hide Within, Sound, ValidStep, Emitted, IsMost, FillOrders, AllocateStep;
    WithinIsSound(v, ops, i);
    PassFillsTheMost(Within(v, ops, i), ticker, step, v.ppm, Within(v, ops, i).fillSeq, side);
  }

  // ---------------------------------------------------------------- both sides

  function Quantities(prints: seq<Print>): (r: seq<int>)
    ensures |r| == |prints| && forall k :: 0 <= k < |prints| ==> r[k] == prints[k].quantity
  {
    seq(|prints|, k requires 0 <= k < |prints| => prints[k].quantity)
  }

  /** Below one price for YES and its near-complement for NO, the two sides see no print twice. */
  lemma SidesSplitVolume(step: Step, yesLimit: int, noLimit: int)
    requires ValidStep(step) && yesLimit + noLimit <= COMPLEMENT_PIPS + 1
    ensures ThroughVolume(Yes, yesLimit, step.trades) + ThroughVolume(No, noLimit, step.trades)
            <= Sum(Quantities(step.trades))
  {
    DisjointSum(Through(Yes, yesLimit, step.trades), Through(No, noLimit, step.trades), Quantities(step.trades));
  }

  lemma {:induction false} DisjointSum(a: seq<int>, b: seq<int>, c: seq<int>)
    requires |a| == |b| == |c| && forall k :: 0 <= k < |a| ==> a[k] + b[k] <= c[k]
    ensures Sum(a) + Sum(b) <= Sum(c)
  {
    if a != [] { DisjointSum(a[1..], b[1..], c[1..]); }
  }

  /** Whatever the book, fills at YES and NO limits that sum to at most 10001 pips share no volume. */
  lemma SidesShareVolume(v: Venue, ops: seq<Op>, i: nat, ticker: Ticker, step: Step, yesLimit: int, noLimit: int)
    requires ValidVenue(v) && ValidStep(step) && i <= |v.recording.tickers| && yesLimit + noLimit <= COMPLEMENT_PIPS + 1
    ensures var fills := StepPass(Within(v, ops, i), ticker, step, v.ppm).fills;
            EmittedUpTo(fills, Yes, yesLimit) + EmittedUpTo(fills, No, noLimit) <= Sum(Quantities(step.trades))
  {
    hide Within, EmittedUpTo, ThroughVolume, Sum, StepPass;
    StepClaimsVolumeOnce(v, ops, i, ticker, step, Yes, yesLimit);
    StepClaimsVolumeOnce(v, ops, i, ticker, step, No, noLimit);
    SidesSplitVolume(step, yesLimit, noLimit);
  }

  /** No live bid is more than a pip above a live ask. */
  ghost predicate Uncrossed(book: Book)
  {
    forall b, a :: b in book.yesBids && a in book.yesAsks && b.quantity > 0 && a.quantity > 0 ==> b.price <= a.price + 1
  }

  lemma {:induction false} DepthNeedsLevel(levels: seq<Level>, price: int)
    requires NonNegativeLevels(levels) && DepthAtOrAbove(levels, price) > 0
    ensures exists l :: l in levels && l.quantity > 0 && l.price >= price
  {
    if levels[0].price >= price && levels[0].quantity > 0 {
      assert levels[0] in levels;
    } else {
      assert levels[0] in levels && forall l :: l in levels[1..] ==> l in levels;
      DepthNeedsLevel(levels[1..], price);
    }
  }

  /** A resting order only fills where recorded depth queues at its limit or better. */
  lemma FillNeedsQueue(s: Account, ticker: Ticker, step: Step, ppm: int, seqNo: nat, f: Fill)
    requires Sound(s) && ValidStep(step) && 0 <= ppm <= PPM_DENOMINATOR
    requires f in FillOrders(s.resting, AllocateStep(s.resting, ticker, step, ppm), ticker, step, seqNo).fills
    ensures f.side.Yes? ==> exists b :: b in step.book.yesBids && b.quantity > 0 && f.price <= b.price
    ensures f.side.No? ==> exists a :: a in step.book.yesAsks && a.quantity > 0 && f.price <= COMPLEMENT_PIPS - a.price
  {
    hide AllocateStep, FillOrders, Sound, VolumeBelow;
    var filled := AllocateStep(s.resting, ticker, step, ppm);
    EveryFillExecutesAnOrder(s.resting, filled, ticker, step, seqNo, f);
    var o :| o in s.resting && o.ticker == ticker && Executes(f, o, filled, step);
    StepFillIsBounded(s, ticker, step, ppm, o);
    var queue := QueueLevels(o.side, step.book);
    ComplementIsValid(step.book.yesAsks);
    ClaimNeedsDepth(RequestOf(o, step), ppm);
    DepthNeedsLevel(queue, o.price);
    var l :| l in queue && l.quantity > 0 && l.price >= o.price;
    if o.side.No? {
      var k :| 0 <= k < |queue| && queue[k] == l;
      assert step.book.yesAsks[k] in step.book.yesAsks;
    }
  }

  lemma ClaimNeedsDepth(q: Request, ppm: int)
    requires Claimable(q, ppm) > 0 && ppm >= 0
    ensures q.depth > 0
  {
    assert q.depth <= 0 ==> q.depth * ppm <= 0;
  }

  lemma {:induction false} SplitBySide(fills: seq<Fill>)
    ensures FillQuantity(fills) == Emitted(fills, Yes) + Emitted(fills, No)
  {
    if fills != [] { SplitBySide(fills[1..]); }
  }

  /** The highest live level, if there is one. */
  lemma {:induction false} BestLevel(levels: seq<Level>) returns (best: Option<Level>)
    ensures best.None? ==> forall l :: l in levels ==> l.quantity <= 0
    ensures best.Some? ==> best.value in levels && best.value.quantity > 0
                           && forall l :: l in levels && l.quantity > 0 ==> l.price <= best.value.price
  {
    best := None;
    if levels != [] {
      best := BestLevel(levels[1..]);
      if levels[0].quantity > 0 && (best.None? || best.value.price < levels[0].price) { best := Some(levels[0]); }
    }
  }

  /** Limits that no fill on an uncrossed book passes, and under which the sides see no print twice. */
  lemma UncrossedLimits(s: Account, ticker: Ticker, step: Step, ppm: int, seqNo: nat) returns (yes: int, no: int)
    requires Sound(s) && ValidStep(step) && 0 <= ppm <= PPM_DENOMINATOR && Uncrossed(step.book)
    ensures yes + no == COMPLEMENT_PIPS + 1
    ensures var fills := FillOrders(s.resting, AllocateStep(s.resting, ticker, step, ppm), ticker, step, seqNo).fills;
            forall f :: f in fills ==> f.price <= if f.side.Yes? then yes else no
  {
    hide FillOrders, AllocateStep, Sound;
    var best := BestLevel(step.book.yesBids);
    yes := if best.Some? then best.value.price else 1;
    no := COMPLEMENT_PIPS + 1 - yes;
    var fills := FillOrders(s.resting, AllocateStep(s.resting, ticker, step, ppm), ticker, step, seqNo).fills;
    forall f | f in fills ensures f.price <= if f.side.Yes? then yes else no {
      FillNeedsQueue(s, ticker, step, ppm, seqNo, f);
    }
  }

  lemma UncrossedShare(s: Account, ticker: Ticker, step: Step, ppm: int, seqNo: nat)
    requires Sound(s) && ValidStep(step) && 0 <= ppm <= PPM_DENOMINATOR && Uncrossed(step.book)
    ensures var fills := FillOrders(s.resting, AllocateStep(s.resting, ticker, step, ppm), ticker, step, seqNo).fills;
            FillQuantity(fills) <= Sum(Quantities(step.trades))
  {
    hide FillOrders, AllocateStep, Emitted, EmittedUpTo, ThroughVolume, Sum, FillQuantity, Sound, ValidStep,
        BuyFramePrints, Uncrossed;
    var fills := FillOrders(s.resting, AllocateStep(s.resting, ticker, step, ppm), ticker, step, seqNo).fills;
    var yes, no := UncrossedLimits(s, ticker, step, ppm, seqNo);
    SplitBySide(fills);
    EmittedInFull(fills, Yes, yes);
    EmittedInFull(fills, No, no);
    SideClaimsVolumeOnce(s, ticker, step, ppm, seqNo, Yes, yes);
    SideClaimsVolumeOnce(s, ticker, step, ppm, seqNo, No, no);
    SidesSplitVolume(step, yes, no);
  }

  /** On an uncrossed book, all of a step's fills together stay within its recorded volume,
      whatever the limits of the orders resting on both sides. */
  lemma UncrossedSidesShareVolume(v: Venue, ops: seq<Op>, i: nat, ticker: Ticker, step: Step)
    requires ValidVenue(v) && ValidStep(step) && i <= |v.recording.tickers| && Uncrossed(step.book)
    ensures FillQuantity(StepPass(Within(v, ops, i), ticker, step, v.ppm).fills) <= Sum(Quantities(step.trades))
  {
    hide Within, Sound, ValidStep, Uncrossed, FillOrders, AllocateStep, FillQuantity, Sum;
    WithinIsSound(v, ops, i);
    UncrossedShare(Within(v, ops, i), ticker, step, v.ppm, Within(v, ops, i).fillSeq);
  }

  // ---------------------------------------------------------------- what an advance appends

  /** One market's new fills in an advance keep every promise of a step: each is dated by its
      trade; each order gets at most what it has and its share of its queue; no volume is claimed
      twice, on one side or, on an uncrossed book, on both; each side fills the most that it could;
      and an order fills only if every order ahead of it gets its full claim. */
  ghost predicate KeepsPromises(fills: seq<Fill>, resting: seq<OpenOrder>, ticker: Ticker, step: Step, ppm: int)
  {
    && (forall f :: f in fills ==> f.ticker == ticker && Dated(f, step))
    && (forall o :: o in resting && o.ticker == ticker ==> WithinShare(FilledFor(fills, o.id), o, step, ppm))
    && (forall side, price :: EmittedUpTo(fills, side, price) <= ThroughVolume(side, price, step.trades))
    && (forall side :: IsMost(Emitted(fills, side), SideOrders(resting, ticker, side), side, step, ppm))
    && (Uncrossed(step.book) ==> FillQuantity(fills) <= Sum(Quantities(step.trades)))
    && (forall a, b ::
          a in resting && b in resting && b.ticker == ticker && Ahead(a, b) && FilledFor(fills, b.id) > 0 ==>
          IsFullClaim(FilledFor(fills, a.id), a, step, ppm))
  }

  ghost predicate WithinShare(fill: int, o: OpenOrder, step: Step, ppm: int)
  {
    0 <= fill <= o.quantity && fill * 1_000_000 <= QueueDepth(o.side, o.price, step.book) * ppm
  }

  lemma PassWithinShare(s: Account, ticker: Ticker, step: Step, ppm: int, seqNo: nat, o: OpenOrder)
    requires Sound(s) && ValidStep(step) && 0 <= ppm <= PPM_DENOMINATOR && o in s.resting && o.ticker == ticker
    ensures var fills := FillOrders(s.resting, AllocateStep(s.resting, ticker, step, ppm), ticker, step, seqNo).fills;
            WithinShare(FilledFor(fills, o.id), o, step, ppm)
  {
    hide AllocateStep, FillOrders, FilledFor, Claimable, RequestOf, ValidStep, VolumeBelow, BuyFramePrints, QueueDepth;
    var filled := AllocateStep(s.resting, ticker, step, ppm);
    PassFillsAllocation(s.resting, filled, ticker, step, seqNo, o);
    StepFillIsBounded(s, ticker, step, ppm, o);
    ClaimIsFull(o, step, ppm);
  }

  /** A pass emits for each order exactly what the allocation gave it. */
  lemma {:induction false} PassFillsAllocation(resting: seq<OpenOrder>, filled: map<nat, int>, ticker: Ticker,
                                               step: Step, seqNo: nat, o: OpenOrder)
    requires Covers(resting, filled, ticker) && InArrivalOrder(resting) && o in resting && o.ticker == ticker
    ensures FilledFor(FillOrders(resting, filled, ticker, step, seqNo).fills, o.id) == Max(filled[o.id], 0)
  {
    var head, rest := resting[0], resting[1..];
    assert head in resting;
    var next := NextSeq(head, filled, ticker, seqNo);
    var after := FillOrders(rest, filled, ticker, step, next).fills;
    if o == head {
      PassKeepsTerms(rest, filled, ticker, step, next);
      forall k | 0 <= k < |after| ensures after[k].orderId != Some(o.id) { assert after[k] in after; }
      NotFilled(after, o.id);
    } else {
      PassFillsAllocation(rest, filled, ticker, step, next, o);
      var j :| 0 <= j < |rest| && rest[j] == o;
      assert resting[j + 1] == o && head.id < o.id;
    }
    if next == seqNo + 1 {
      var fill := RestingFill(head, step, filled[head.id], seqNo);
      assert ([fill] + after)[1..] == after;
    }
  }

  /** Hence the emitted fills follow price-time priority. */
  lemma PassInPriority(s: Account, ticker: Ticker, step: Step, ppm: int, seqNo: nat, a: OpenOrder, b: OpenOrder)
    requires Sound(s) && ValidStep(step) && 0 <= ppm <= PPM_DENOMINATOR
    requires a in s.resting && b in s.resting && b.ticker == ticker && Ahead(a, b)
    ensures var fills := FillOrders(s.resting, AllocateStep(s.resting, ticker, step, ppm), ticker, step, seqNo).fills;
            FilledFor(fills, b.id) > 0 ==> IsFullClaim(FilledFor(fills, a.id), a, step, ppm)
  {
    hide AllocateStep, FillOrders, FilledFor, Claimable, RequestOf, ValidStep, VolumeBelow, BuyFramePrints, IsFullClaim;
    var filled := AllocateStep(s.resting, ticker, step, ppm);
    PassFillsAllocation(s.resting, filled, ticker, step, seqNo, a);
    PassFillsAllocation(s.resting, filled, ticker, step, seqNo, b);
    StepFillIsBounded(s, ticker, step, ppm, a);
    ClaimIsFull(a, step, ppm);
    if filled[b.id] > 0 { PriorityAt(s, step, ppm, a, b); }
  }

  /** Whatever the advance after `n` earlier ones appends on any market keeps the promises of that
      market's step `n`, with the book as it was before the call; a market with no step `n` gets
      nothing. */
  lemma AdvanceKeepsPromises(v: Venue, ops: seq<Op>, i: nat)
    requires ValidVenue(v) && i < |v.recording.tickers|
    ensures var t, n := v.recording.tickers[i], AdvanceCount(ops);
            var s, r := Run(v, ops), Run(v, ops + [Advance]);
            var was, now := FillsOn(s.fills, t), FillsOn(r.fills, t);
            && was <= now
            && (if n < |v.recording.sessions[t]| then
                  KeepsPromises(now[|was|..], s.resting, t, v.recording.sessions[t][n], v.ppm)
                else now == was)
  {
    hide Run, FillsOn, OnMarket, AllocateStep, FillOrders, AdvanceAll, Sound, KeepsPromises, AdvanceCount;
    var t, s := v.recording.tickers[i], Run(v, ops);
    RunIsSound(v, ops);
    RunExtends(v, ops, Advance);
    MarketsAreIndependent(v, s, i);
    CursorCountsAdvances(v, ops, t);
    if Unconsumed(v, s, t) {
      var seqNo := AdvanceAll(v, s, v.recording.tickers[..i]).fillSeq;
      var pass := MarketPass(v, s, t, seqNo);
      assert FillsOn(Run(v, ops + [Advance]).fills, t)[|FillsOn(s.fills, t)|..] == pass.fills;
      PassKeepsPromises(s, t, NextStep(v, s, t), v.ppm, seqNo);
    }
  }

  lemma PassKeepsPromises(s: Account, t: Ticker, step: Step, ppm: int, seqNo: nat)
    requires Sound(s) && ValidStep(step) && 0 <= ppm <= PPM_DENOMINATOR
    ensures var fills := FillOrders(s.resting, AllocateStep(s.resting, t, step, ppm), t, step, seqNo).fills;
            KeepsPromises(fills, s.resting, t, step, ppm)
  {
    hide AllocateStep, FillOrders, Dated, EmittedUpTo, ThroughVolume, Sound, FilledFor, IsFullClaim, Ahead,
        FillQuantity, Sum, Uncrossed, WithinShare, ValidStep, Emitted, IsMost;
    var fills := FillOrders(s.resting, AllocateStep(s.resting, t, step, ppm), t, step, seqNo).fills;
    PassFillsItsMarket(s.resting, AllocateStep(s.resting, t, step, ppm), t, step, seqNo);
    forall f | f in fills ensures Dated(f, step) { PassIsDated(s, t, step, ppm, seqNo, f); }
    forall o | o in s.resting && o.ticker == t ensures WithinShare(FilledFor(fills, o.id), o, step, ppm) {
      PassWithinShare(s, t, step, ppm, seqNo, o);
    }
    forall side, price ensures EmittedUpTo(fills, side, price) <= ThroughVolume(side, price, step.trades) {
      SideClaimsVolumeOnce(s, t, step, ppm, seqNo, side, price);
    }
    forall side ensures IsMost(Emitted(fills, side), SideOrders(s.resting, t, side), side, step, ppm) {
      PassFillsTheMost(s, t, step, ppm, seqNo, side);
    }
    if Uncrossed(step.book) { UncrossedShare(s, t, step, ppm, seqNo); }
    forall a, b | a in s.resting && b in s.resting && b.ticker == t && Ahead(a, b) && FilledFor(fills, b.id) > 0
      ensures IsFullClaim(FilledFor(fills, a.id), a, step, ppm)
    {
      PassInPriority(s, t, step, ppm, seqNo, a, b);
    }
  }

  // ---------------------------------------------------------------- a crossed book overclaims

  lemma {:induction false} LevelIsDepth(levels: seq<Level>, price: int, l: Level)
    requires NonNegativeLevels(levels) && l in levels && l.price >= price
    ensures DepthAtOrAbove(levels, price) >= l.quantity
  {
    assert levels[0] in levels && forall x :: x in levels[1..] ==> x in levels;
    DepthNonNegative(levels[1..], price);
    if levels[0] != l { LevelIsDepth(levels[1..], price, l); }
  }

  /** A quiet step with an empty book, then the given book with one contract printed at `price`. */
  function CrossedVenue(book: Book, price: int): Venue
  {
    var quiet, crossed := Step(Book([], [], 0), []), Step(book, [Print(price, 1, 1)]);
    Venue(Recording([0], map[0 := [quiet, crossed]]), FeeModel("free", 0, 0, 0), map[], 0, PPM_DENOMINATOR, 0, 0)
  }

  /** One contract on each side, resting at the crossed levels. */
  function BothSides(yesLimit: int, noLimit: int): seq<OpenOrder>
  {
    [OpenOrder(1, 0, Yes, yesLimit, 1), OpenOrder(2, 0, No, noLimit, 1)]
  }

  function BothPlaced(yesLimit: int, noLimit: int): seq<Op>
  {
    [Place(Intent(0, Yes, yesLimit, 1)), Place(Intent(0, No, noLimit, 1))]
  }

  lemma BothRest(book: Book, price: int, yesLimit: int, noLimit: int)
    ensures Run(CrossedVenue(book, price), BothPlaced(yesLimit, noLimit))
         == Account(map[0 := 0], BothSides(yesLimit, noLimit), BothSides(yesLimit, noLimit), [], 2, 0)
  {
    hide PlaceAt;
    var v := CrossedVenue(book, price);
    var yes, no := Intent(0, Yes, yesLimit, 1), Intent(0, No, noLimit, 1);
    var quiet := v.recording.sessions[0][0];
    RunExtends(v, [], Place(yes));
    assert [] + [Place(yes)] == [Place(yes)];
    BareSideRests(v, Initial(v), yes, quiet);
    RunExtends(v, [Place(yes)], Place(no));
    assert [Place(yes)] + [Place(no)] == BothPlaced(yesLimit, noLimit);
    BareSideRests(v, Run(v, [Place(yes)]), no, quiet);
  }

  /** Both fill in full from the one printed contract. */
  lemma BothFill(book: Book, b: Level, a: Level)
    requires ValidBookSide(book.yesBids) && ValidBookSide(book.yesAsks)
    requires b in book.yesBids && a in book.yesAsks && b.quantity > 0 && a.quantity > 0 && b.price > a.price + 1
    ensures var resting, step := BothSides(b.price, COMPLEMENT_PIPS - a.price), Step(book, [Print(a.price + 1, 1, 1)]);
            var filled := AllocateStep(resting, 0, step, PPM_DENOMINATOR);
            1 in filled && 2 in filled && filled[1] == 1 && filled[2] == 1
  {
    hide AllocateStep;
    var resting, step := BothSides(b.price, COMPLEMENT_PIPS - a.price), Step(book, [Print(a.price + 1, 1, 1)]);
    var yes, no := resting[0], resting[1];
    BothAlone(b.price, COMPLEMENT_PIPS - a.price);
    LevelIsDepth(book.yesBids, b.price, b);
    LoneContractFills(resting, step, yes);
    var k :| 0 <= k < |book.yesAsks| && book.yesAsks[k] == a;
    assert Complement(book.yesAsks)[k] == Level(COMPLEMENT_PIPS - a.price, a.quantity);
    ComplementIsValid(book.yesAsks);
    LevelIsDepth(Complement(book.yesAsks), COMPLEMENT_PIPS - a.price, Level(COMPLEMENT_PIPS - a.price, a.quantity));
    LoneContractFills(resting, step, no);
  }

  lemma BothAlone(yesLimit: int, noLimit: int)
    ensures var resting := BothSides(yesLimit, noLimit);
            SideOrders(resting, 0, Yes) == [resting[0]] && SideOrders(resting, 0, No) == [resting[1]]
  {
    var resting := BothSides(yesLimit, noLimit);
    var yes, no := resting[0], resting[1];
    assert [no][1..] == [] && SideOrders([], 0, Yes) == SideOrders([], 0, No) == [];
    assert SideOrders([no], 0, Yes) == [] && SideOrders([no], 0, No) == [no];
    assert resting[1..] == [no];
  }

  lemma LoneContractFills(resting: seq<OpenOrder>, step: Step, o: OpenOrder)
    requires InArrivalOrder(resting) && o in resting && SideOrders(resting, o.ticker, o.side) == [o] && o.quantity == 1
    requires DepthAtOrAbove(QueueLevels(o.side, step.book), o.price) >= 1
    requires |step.trades| == 1 && step.trades[0].quantity == 1
        && BuyFramePrints(o.side, step.trades)[0].price < o.price
    ensures AllocateStep(resting, o.ticker, step, PPM_DENOMINATOR)[o.id] == 1
  {
    hide AllocateStep;
    OnlyOrderFill(resting, o.ticker, step, PPM_DENOMINATOR, o);
    var prints := BuyFramePrints(o.side, step.trades);
    assert Below(prints, o.price) == [1] && [1][1..] == [];
    assert VolumeBelow(prints, o.price) == 1;
    var depth := DepthAtOrAbove(QueueLevels(o.side, step.book), o.price);
    assert ParticipationCap(depth, PPM_DENOMINATOR) == depth;
  }

  /** With both orders resting, the step fills two contracts out of one. */
  lemma BothPass(book: Book, b: Level, a: Level, seqNo: nat)
    requires ValidBookSide(book.yesBids) && ValidBookSide(book.yesAsks)
    requires b in book.yesBids && a in book.yesAsks && b.quantity > 0 && a.quantity > 0 && b.price > a.price + 1
    ensures var resting, step := BothSides(b.price, COMPLEMENT_PIPS - a.price), Step(book, [Print(a.price + 1, 1, 1)]);
            var filled := AllocateStep(resting, 0, step, PPM_DENOMINATOR);
            FillQuantity(FillOrders(resting, filled, 0, step, seqNo).fills) == 2
  {
    hide AllocateStep, FillOrders, FillStamp, FillQuantity, ValidBookSide;
    var resting, step := BothSides(b.price, COMPLEMENT_PIPS - a.price), Step(book, [Print(a.price + 1, 1, 1)]);
    var filled := AllocateStep(resting, 0, step, PPM_DENOMINATOR);
    BothFill(book, b, a);
    assert resting[0..] == resting && resting[2..] == [];
    PassUnfolds(resting, 0, filled, 0, step, seqNo);
    PassUnfolds(resting, 1, filled, 0, step, seqNo + 1);
    PassOverNothing(filled, 0, step, seqNo + 2);
    var fills := FillOrders(resting, filled, 0, step, seqNo).fills;
    assert fills == [RestingFill(resting[0], step, 1, seqNo), RestingFill(resting[1], step, 1, seqNo + 1)];
    PairQuantity(fills[0], fills[1]);
  }

  lemma PairQuantity(f: Fill, g: Fill)
    ensures FillQuantity([f, g]) == f.quantity + g.quantity
  {
    assert [g][1..] == [] && FillQuantity([g]) == g.quantity;
    assert [f, g][1..] == [g];
  }

  /** A quiet step moves nothing but the cursor. */
  lemma QuietStep(s: Account, ticker: Ticker, ppm: int)
    requires Sound(s) && 0 <= ppm <= PPM_DENOMINATOR
    ensures ProcessStep(s, ticker, Step(Book([], [], 0), []), ppm) == s
  {
    hide AllocateStep, FillOrders, Sound;
    var quiet := Step(Book([], [], 0), []);
    var filled := AllocateStep(s.resting, ticker, quiet, ppm);
    forall o | o in s.resting && o.ticker == ticker ensures filled[o.id] <= 0 {
      StepFillIsBounded(s, ticker, quiet, ppm, o);
      assert Below(BuyFramePrints(o.side, []), o.price) == [];
    }
    IdlePass(s.resting, filled, ticker, quiet, s.fillSeq);
    assert s.fills + [] == s.fills;
  }

  lemma {:induction false} IdlePass(resting: seq<OpenOrder>, filled: map<nat, int>, ticker: Ticker, step: Step,
      seqNo: nat)
    requires Covers(resting, filled, ticker) && forall o :: o in resting && o.ticker == ticker ==> filled[o.id] <= 0
    ensures FillOrders(resting, filled, ticker, step, seqNo) == Pass(resting, [])
  {
    if resting != [] {
      assert resting[0] in resting && resting == [resting[0]] + resting[1..];
      IdlePass(resting[1..], filled, ticker, step, seqNo);
    }
  }

  lemma CrossedVenueIsValid(book: Book, price: int)
    requires ValidBookSide(book.yesBids) && ValidBookSide(book.yesAsks)
    ensures ValidVenue(CrossedVenue(book, price)) && Sum(Quantities([Print(price, 1, 1)])) == 1
  {
    assert Quantities([Print(price, 1, 1)]) == [1] && [1][1..] == [];
    assert Sum([1]) == 1;
  }

  /** Any book with a live bid two pips above a live ask is overclaimed by a run: the two orders
      rest, one contract prints between the crossed levels, and two contracts fill. */
  lemma CrossedBookOverclaims(book: Book, b: Level, a: Level)
    requires ValidBookSide(book.yesBids) && ValidBookSide(book.yesAsks)
    requires b in book.yesBids && a in book.yesAsks && b.quantity > 0 && a.quantity > 0 && b.price > a.price + 1
    ensures var v, ops := CrossedVenue(book, a.price + 1), BothPlaced(b.price, COMPLEMENT_PIPS - a.price) + [Advance];
            var step := v.recording.sessions[0][1];
            && ValidVenue(v) && step.book == book && Sum(Quantities(step.trades)) == 1
            && Run(v, ops).fills == [] && FillQuantity(StepPass(Within(v, ops, 0), 0, step, v.ppm).fills) == 2
            && FillQuantity(Run(v, ops + [Advance]).fills) == 2
  {
    hide Run, FillOrders, AllocateStep, FillQuantity, Sum, ValidVenue, Sound, ValidBookSide;
    var v, placed := CrossedVenue(book, a.price + 1), BothPlaced(b.price, COMPLEMENT_PIPS - a.price);
    var ops, step := placed + [Advance], v.recording.sessions[0][1];
    CrossedVenueIsValid(book, a.price + 1);
    BothRest(book, a.price + 1, b.price, COMPLEMENT_PIPS - a.price);
    RunIsSound(v, placed);
    RunExtends(v, placed, Advance);
    LoneMarketAdvance(v, Run(v, placed), 0);
    QuietStep(Run(v, placed), 0, v.ppm);
    var s := Run(v, ops);
    assert s == Run(v, placed).(cursor := map[0 := 1]);
    RunExtends(v, ops, Advance);
    LoneMarketAdvance(v, s, 0);
    BothPass(book, b, a, 0);
    assert v.recording.tickers[..0] == [] && Within(v, ops, 0) == s;
    var fills := StepPass(s, 0, step, v.ppm).fills;
    assert [] + fills == fills;
  }

  /** The same for any two limits above the bound of `SidesShareVolume`: at those limits some run
      fills two contracts out of one. */
  lemma CrossedSidesOverclaim(yesLimit: int, noLimit: int)
    requires ValidPrice(yesLimit) && ValidPrice(noLimit) && yesLimit + noLimit > COMPLEMENT_PIPS + 1
    ensures var book := Book([Level(yesLimit, 1)], [Level(COMPLEMENT_PIPS - noLimit, 1)], 0);
            var v, ops := CrossedVenue(book, COMPLEMENT_PIPS + 1 - noLimit), BothPlaced(yesLimit, noLimit) + [Advance];
            var step := v.recording.sessions[0][1];
            && ValidVenue(v) && Run(v, ops).fills == [] && Sum(Quantities(step.trades)) == 1
            && FillQuantity(Run(v, ops + [Advance]).fills) == 2
  {
    hide Run, FillQuantity, Sum, ValidVenue, StepPass;
    var b, a := Level(yesLimit, 1), Level(COMPLEMENT_PIPS - noLimit, 1);
    CrossedBookOverclaims(Book([b], [a], 0), b, a);
  }

  /** Over every run and every step on this book, the fills stay within the recorded volume. */
  ghost predicate NeverOverclaims(book: Book)
  {
    forall v: Venue, ops, i: nat, ticker, trades ::
      ValidVenue(v) && ValidPrints(trades) && i <= |v.recording.tickers| ==>
        FillQuantity(StepPass(Within(v, ops, i), ticker, Step(book, trades), v.ppm).fills) <= Sum(Quantities(trades))
  }

  /** A book is safe for every run, every order and every tape exactly when it is uncrossed. */
  lemma SafeIffUncrossed(book: Book)
    requires ValidBookSide(book.yesBids) && ValidBookSide(book.yesAsks)
    ensures NeverOverclaims(book) <==> Uncrossed(book)
  {
    hide Within, StepPass, FillQuantity, Sum, ValidVenue, Run;
    if Uncrossed(book) {
      forall v: Venue, ops, i: nat, ticker, trades | ValidVenue(v) && ValidPrints(trades) && i <= |v.recording.tickers|
        ensures FillQuantity(StepPass(Within(v, ops, i), ticker, Step(book, trades), v.ppm).fills)
            <= Sum(Quantities(trades))
      {
        UncrossedSidesShareVolume(v, ops, i, ticker, Step(book, trades));
      }
    } else {
      var b, a :| b in book.yesBids && a in book.yesAsks && b.quantity > 0 && a.quantity > 0 && b.price > a.price + 1;
      CrossedBookOverclaims(book, b, a);
      var v, ops := CrossedVenue(book, a.price + 1), BothPlaced(b.price, COMPLEMENT_PIPS - a.price) + [Advance];
      var trades := [Print(a.price + 1, 1, 1)];
      assert FillQuantity(StepPass(Within(v, ops, 0), 0, Step(book, trades), v.ppm).fills) > Sum(Quantities(trades));
    }
  }
}
