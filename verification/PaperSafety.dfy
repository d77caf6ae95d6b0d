/** Guards that never trip, fills dated by their trades, and price-time priority, for every
    reachable state of the paper exchange. */
module PaperSafety {
  import opened Sorting
  import opened Fees
  import opened TakerWalk
  import opened RestingAllocation
  import opened AllocationOptimality
  import opened PaperModel
  import opened PaperRules
  import opened PaperInvariant
  import opened PaperMarkets

  // ---------------------------------------------------------------- guards

  ghost predicate FeesPriceable(v: Venue, s: Account)
  {
    && (forall o :: o in s.resting ==> MaxTradingFeeMicros(FeesFor(v, o.ticker), o.price, o.quantity).Ok?)
    && (forall f :: f in s.fills ==> MaxTradingFeeMicros(FeesFor(v, f.ticker), f.price, f.quantity).Ok?)
  }

  /** The fee schedule never refuses a size; it refuses a price only if one outside the valid
      range was placed, and never on runs that place valid limits. */
  lemma FeesNeverRefuse(v: Venue, ops: seq<Op>)
    requires ValidVenue(v)
    ensures var s := Run(v, ops);
            && (FeesPriceable(v, s) <==>
                  && (forall o :: o in s.resting ==> ValidPrice(o.price))
                  && (forall f :: f in s.fills ==> ValidPrice(f.price)))
            && (ValidOps(ops) ==> FeesPriceable(v, s))
  {
    var s := Run(v, ops);
    RunIsSound(v, ops);
    if ValidOps(ops) {
      RunIsPriced(v, ops);
      PricesAreValid(s);
    }
  }

  /** Every order of the market finds its fill, and a positive fill has a print to be dated by. */
  ghost predicate Stampable(resting: seq<OpenOrder>, filled: map<nat, int>, ticker: Ticker, step: Step)
  {
    forall o :: o in resting && o.ticker == ticker ==>
      o.id in filled && (filled[o.id] > 0 ==> TradeThroughFillTs(o.price, BuyFramePrints(o.side, step.trades)).Ok?)
  }

  lemma StepIsStampable(s: Account, ticker: Ticker, step: Step, ppm: int)
    requires Sound(s) && ValidStep(step) && 0 <= ppm <= PPM_DENOMINATOR
    ensures Stampable(s.resting, AllocateStep(s.resting, ticker, step, ppm), ticker, step)
  {
    hide AllocateStep, TradeThroughFillTs, VolumeBelow, Claimable, Sound, ValidStep;
    var filled := AllocateStep(s.resting, ticker, step, ppm);
    forall o | o in s.resting && o.ticker == ticker
      ensures o.id in filled
          && (filled[o.id] > 0 ==> TradeThroughFillTs(o.price, BuyFramePrints(o.side, step.trades)).Ok?)
    {
      StepFillIsBounded(s, ticker, step, ppm, o);
      if filled[o.id] > 0 { PositiveVolumeHasPrint(BuyFramePrints(o.side, step.trades), o.price); }
    }
  }

  /** No step, from any state inside any advance of any run, can leave an order without an entry
      or fill it without a trade through its limit. */
  lemma NoGuardTrips(v: Venue, ops: seq<Op>, i: nat, ticker: Ticker, step: Step)
    requires ValidVenue(v) && ValidStep(step) && i <= |v.recording.tickers|
    ensures var s := Within(v, ops, i);
            Stampable(s.resting, AllocateStep(s.resting, ticker, step, v.ppm), ticker, step)
  {
    WithinIsSound(v, ops, i);
    StepIsStampable(Within(v, ops, i), ticker, step, v.ppm);
  }

  lemma PositiveVolumeHasPrint(prints: seq<Print>, limit: int)
    requires VolumeBelow(prints, limit) > 0
    ensures TradeThroughFillTs(limit, prints).Ok?
  {
    TradeThroughStamp(limit, prints);
    if forall j :: 0 <= j < |prints| ==> prints[j].price >= limit {
      ZeroVolume(prints, limit);
    }
  }

  /** A touch is never a fill. */
  lemma TouchNeverFills(q: Request, prints: seq<Print>, ppm: int)
    requires forall j :: 0 <= j < |prints| ==> prints[j].price >= q.limit
    ensures RestingFillQuantity(q, prints, ppm) <= 0
  {
    ZeroVolume(prints, q.limit);
  }

  /** Every slice of a taker walk can be priced. */
  lemma WalkGuards(v: Venue, intent: Intent, step: Step)
    requires ValidVenue(v) && ValidStep(step)
    ensures forall slice :: slice in Walked(v, step, intent).consumed ==>
              MaxTradingFeeMicros(FeesFor(v, intent.ticker), slice.price, slice.quantity).Ok?
  {
    TakerLevelsAreValid(intent.side, step.book);
    var eligible := Eligible(TakerLevels(intent.side, step.book), intent.price);
    WalkTotal(eligible, Walked(v, step, intent).filled);
  }

  /** A fill of a step, traced to the order and allocation behind it. */
  ghost predicate Executes(f: Fill, o: OpenOrder, filled: map<nat, int>, step: Step)
  {
    && o.id in filled && FillOf(f, o) && f.quantity == filled[o.id] > 0
    && f.ts == FillStamp(o, step)
  }

  lemma {:induction false} EveryFillExecutesAnOrder(resting: seq<OpenOrder>, filled: map<nat, int>, ticker: Ticker,
      step: Step, seqNo: nat, f: Fill)
    requires Covers(resting, filled, ticker) && f in FillOrders(resting, filled, ticker, step, seqNo).fills
    ensures exists o :: o in resting && o.ticker == ticker && Executes(f, o, filled, step)
  {
    var o := resting[0];
    assert o in resting;
    if o.ticker == ticker && filled[o.id] > 0 && f == RestingFill(o, step, filled[o.id], seqNo) {
      assert Executes(f, o, filled, step);
    } else {
      EveryFillExecutesAnOrder(resting[1..], filled, ticker, step, NextSeq(o, filled, ticker, seqNo), f);
      var x :| x in resting[1..] && x.ticker == ticker && Executes(f, x, filled, step);
      assert x in resting;
    }
  }

  /** Dated by the last print that traded strictly through its price. */
  ghost predicate Dated(f: Fill, step: Step)
  {
    && (exists p :: p in step.trades && TradesThrough(p, f.side, f.price) && p.ts == f.ts)
    && (forall p :: p in step.trades && TradesThrough(p, f.side, f.price) ==> p.ts <= f.ts)
  }

  lemma PassIsDated(s: Account, ticker: Ticker, step: Step, ppm: int, seqNo: nat, f: Fill)
    requires Sound(s) && ValidStep(step) && 0 <= ppm <= PPM_DENOMINATOR
    requires f in FillOrders(s.resting, AllocateStep(s.resting, ticker, step, ppm), ticker, step, seqNo).fills
    ensures Dated(f, step)
  {
    hide AllocateStep, FillOrders, TradeThroughFillTs, ValidStep, Sound;
    var filled := AllocateStep(s.resting, ticker, step, ppm);
    EveryFillExecutesAnOrder(s.resting, filled, ticker, step, seqNo, f);
    var o :| o in s.resting && o.ticker == ticker && Executes(f, o, filled, step);
    StepIsStampable(s, ticker, step, ppm);
    StampIsLatest(o.side, o.price, step.trades);
  }

  lemma StampIsLatest(side: Side, limit: int, trades: seq<Print>)
    ensures var r := TradeThroughFillTs(limit, BuyFramePrints(side, trades));
            r.Ok? ==>
              && (exists p :: p in trades && TradesThrough(p, side, limit) && p.ts == r.value)
              && (forall p :: p in trades && TradesThrough(p, side, limit) ==> p.ts <= r.value)
  {
    hide TradeThroughFillTs;
    var prints, r := BuyFramePrints(side, trades), TradeThroughFillTs(limit, BuyFramePrints(side, trades));
    TradeThroughStamp(limit, prints);
    if r.Ok? {
      var j :| 0 <= j < |prints| && prints[j].price < limit && prints[j].ts == r.value;
      assert trades[j] in trades && TradesThrough(trades[j], side, limit);
      forall p | p in trades && TradesThrough(p, side, limit) ensures p.ts <= r.value {
        var k :| 0 <= k < |trades| && trades[k] == p;
        assert prints[k].price < limit;
      }
    }
  }

  /** Every resting fill carries the stamp of the last print strictly through its price. */
  lemma FillIsDatedByItsTrade(v: Venue, ops: seq<Op>, i: nat, ticker: Ticker, step: Step, f: Fill)
    requires ValidVenue(v) && ValidStep(step) && i <= |v.recording.tickers|
    requires f in StepPass(Within(v, ops, i), ticker, step, v.ppm).fills
    ensures Dated(f, step)
  {
    hide Within, Sound, ValidStep;
    WithinIsSound(v, ops, i);
    var s := Within(v, ops, i);
    PassIsDated(s, ticker, step, v.ppm, s.fillSeq, f);
  }

  // ---------------------------------------------------------------- every fill keeps to its share

  /** From any state inside any advance of any run, a step gives an order no more than it has left,
      than its share of the depth queued at its price or ahead, and than the volume that traded
      strictly through its price. */
  lemma FillKeepsToItsShare(v: Venue, ops: seq<Op>, i: nat, ticker: Ticker, step: Step, o: OpenOrder)
    requires ValidVenue(v) && ValidStep(step) && i <= |v.recording.tickers|
    requires o in Within(v, ops, i).resting && o.ticker == ticker
    ensures var fill := AllocateStep(Within(v, ops, i).resting, ticker, step, v.ppm)[o.id];
            && 0 <= fill <= o.quantity
            && fill * 1_000_000 <= QueueDepth(o.side, o.price, step.book) * v.ppm
            && fill <= ThroughVolume(o.side, o.price, step.trades)
  {
    hide Within, Sound, ValidStep, AllocateStep, Claimable, RequestOf;
    WithinIsSound(v, ops, i);
    StepFillIsBounded(Within(v, ops, i), ticker, step, v.ppm, o);
    ClaimIsFull(o, step, v.ppm);
    VolumeIsThrough(o.side, o.price, step.trades);
  }

  // ---------------------------------------------------------------- the book as each side sees it

  function DepthAtOrBelow(levels: seq<Level>, price: int): int
  {
    if levels == [] then 0
    else (if levels[0].price <= price then levels[0].quantity else 0) + DepthAtOrBelow(levels[1..], price)
  }

  /** A NO bid queues with the YES asks at or below its complement. */
  lemma {:induction false} NoQueueIsAskDepth(asks: seq<Level>, price: int)
    ensures DepthAtOrAbove(Complement(asks), price) == DepthAtOrBelow(asks, COMPLEMENT_PIPS - price)
  {
    if asks != [] {
      assert Complement(asks)[1..] == Complement(asks[1..]);
      NoQueueIsAskDepth(asks[1..], price);
    }
  }

  // ---------------------------------------------------------------- priority

  /** `a` stands ahead of `b`: a better limit, or the same limit and an earlier arrival. */
  predicate Ahead(a: OpenOrder, b: OpenOrder)
  {
    a.ticker == b.ticker && a.side == b.side && (a.price > b.price || (a.price == b.price && a.id < b.id))
  }

  lemma PriorityAt(s: Account, step: Step, ppm: int, a: OpenOrder, b: OpenOrder)
    requires Sound(s) && ValidStep(step) && 0 <= ppm <= PPM_DENOMINATOR
    requires a in s.resting && b in s.resting && Ahead(a, b)
    requires AllocateStep(s.resting, b.ticker, step, ppm)[b.id] > 0
    ensures AllocateStep(s.resting, a.ticker, step, ppm)[a.id] == Claimable(RequestOf(a, step), ppm)
  {
    hide AllocateStep, ValidStep, Claimable, Allocate, BuyFramePrints, RequestOf;
    var i := StepFillOf(s.resting, a.ticker, step, ppm, a);
    var j := StepFillOf(s.resting, b.ticker, step, ppm, b);
    var orders := SideOrders(s.resting, a.ticker, a.side);
    SideKeepsArrivalOrder(s.resting, a.ticker, a.side);
    forall x | x in orders ensures x.quantity >= 0 { assert SizedOrder(x); }
    StepInputsAreValid(orders, a.side, step, ppm);
    var requests := RequestsOf(orders, step);
    AheadPrecedes(orders, step, i, j);
    PriorityIsRespected(requests, BuyFramePrints(a.side, step.trades), ppm, i, j);
  }

  lemma AheadPrecedes(orders: seq<OpenOrder>, step: Step, i: nat, j: nat)
    requires InArrivalOrder(orders) && i < |orders| && j < |orders| && Ahead(orders[i], orders[j])
    ensures Precedes(Limits(RequestsOf(orders, step)), i, j)
  {}

  /** A step fills an order only if every order ahead of it gets its full claimable size. */
  ghost predicate FillsInPriority(resting: seq<OpenOrder>, ticker: Ticker, step: Step, ppm: int)
  {
    var filled := AllocateStep(resting, ticker, step, ppm);
    forall a, b :: a in resting && b in resting && b.ticker == ticker && Ahead(a, b) && filled[b.id] > 0 ==>
      IsFullClaim(filled[a.id], a, step, ppm)
  }

  lemma StepFillsInPriority(s: Account, ticker: Ticker, step: Step, ppm: int)
    requires Sound(s) && ValidStep(step) && 0 <= ppm <= PPM_DENOMINATOR
    ensures FillsInPriority(s.resting, ticker, step, ppm)
  {
    hide ValidStep, Sound, Claimable, RequestOf, AllocateSide, IsFullClaim;
    var filled := AllocateStep(s.resting, ticker, step, ppm);
    forall a, b | a in s.resting && b in s.resting && b.ticker == ticker && Ahead(a, b) && filled[b.id] > 0
      ensures IsFullClaim(filled[a.id], a, step, ppm)
    {
      PriorityAt(s, step, ppm, a, b);
      ClaimIsFull(a, step, ppm);
    }
  }

  /** Every step, from any state inside any advance of any run, respects price-time priority. */
  lemma PriceTimePriority(v: Venue, ops: seq<Op>, i: nat, ticker: Ticker, step: Step)
    requires ValidVenue(v) && ValidStep(step) && i <= |v.recording.tickers|
    ensures FillsInPriority(Within(v, ops, i).resting, ticker, step, v.ppm)
  {
    hide Within, Sound, ValidStep, FillsInPriority;
    WithinIsSound(v, ops, i);
    StepFillsInPriority(Within(v, ops, i), ticker, step, v.ppm);
  }

  /** The order one order keeps through a pass: later arrivals never overtake it. */
  lemma ArrivalOrderSurvives(v: Venue, ops: seq<Op>, op: Op)
    ensures var s := Run(v, ops);
            var r := Apply(v, s, op);
            && InArrivalOrder(s.resting) && InArrivalOrder(r.resting)
            && forall k :: 0 <= k < |r.resting| ==>
                 1 <= r.resting[k].id <= |r.rested| && SameTerms(r.resting[k], r.rested[r.resting[k].id - 1])
  {
    RunIsNumbered(v, ops);
    ApplyKeepsNumbered(v, Run(v, ops), op);
    var r := Apply(v, Run(v, ops), op);
    forall k | 0 <= k < |r.resting| ensures Arrived(r.rested, r.resting[k]) {
      assert r.resting[k] in r.resting;
    }
  }
}
