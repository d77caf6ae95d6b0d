/** What every call of the paper exchange keeps: numbering, arrival order, order terms, positive
    sizes and valid prices. */
module PaperInvariant {
  import opened Numeric
  import opened Fees
  import opened TakerWalk
  import opened RestingAllocation
  import opened AllocationOptimality
  import opened PaperModel

  // ---------------------------------------------------------------- numbering and order terms

  predicate SameTerms(a: OpenOrder, b: OpenOrder)
  {
    a.id == b.id && a.ticker == b.ticker && a.side == b.side && a.price == b.price
  }

  predicate FillOf(f: Fill, o: OpenOrder)
  {
    f.orderId == Some(o.id) && f.ticker == o.ticker && f.side == o.side && f.price == o.price
  }

  /** Oldest arrival first, no id twice. */
  ghost predicate InArrivalOrder(orders: seq<OpenOrder>)
  {
    forall a, b :: 0 <= a < b < |orders| ==> orders[a].id < orders[b].id
  }

  ghost predicate Arrived(rested: seq<OpenOrder>, o: OpenOrder)
  {
    1 <= o.id <= |rested| && SameTerms(o, rested[o.id - 1])
  }

  ghost predicate FillExplained(rested: seq<OpenOrder>, f: Fill)
  {
    f.orderId.Some? ==> 1 <= f.orderId.value <= |rested| && FillOf(f, rested[f.orderId.value - 1])
  }

  ghost predicate Numbered(s: Account)
  {
    && |s.rested| == s.orderSeq && |s.fills| == s.fillSeq
    && (forall k :: 0 <= k < |s.rested| ==> s.rested[k].id == k + 1)
    && (forall k :: 0 <= k < |s.fills| ==> s.fills[k].id == k + 1)
    && InArrivalOrder(s.resting)
    && (forall o :: o in s.resting ==> Arrived(s.rested, o))
    && (forall f :: f in s.fills ==> FillExplained(s.rested, f))
  }

  ghost predicate KeepsTerms(resting: seq<OpenOrder>, pass: Pass, seqNo: nat)
  {
    && (forall o :: o in pass.survivors ==> exists r :: r in resting && SameTerms(o, r))
    && (forall f :: f in pass.fills ==> exists r :: r in resting && FillOf(f, r))
    && (forall k :: 0 <= k < |pass.fills| ==> pass.fills[k].id == seqNo + k + 1)
  }

  /** What one pass over the book may do to it. */
  lemma {:induction false} PassKeepsTerms(resting: seq<OpenOrder>, filled: map<nat, int>, ticker: Ticker, step: Step,
      seqNo: nat)
    requires Covers(resting, filled, ticker)
    ensures KeepsTerms(resting, FillOrders(resting, filled, ticker, step, seqNo), seqNo)
  {
    if resting != [] {
      var o := resting[0];
      assert o in resting;
      var next := NextSeq(o, filled, ticker, seqNo);
      PassKeepsTerms(resting[1..], filled, ticker, step, next);
      var pass, rest := FillOrders(resting, filled, ticker, step, seqNo),
          FillOrders(resting[1..], filled, ticker, step, next);
      assert KeepsTerms(resting[1..], rest, next);
      forall x | x in pass.survivors ensures exists r :: r in resting && SameTerms(x, r) {
        if x in rest.survivors {
          var r :| r in resting[1..] && SameTerms(x, r);
          assert r in resting;
        } else {
          assert SameTerms(x, o);
        }
      }
      forall f | f in pass.fills ensures exists r :: r in resting && FillOf(f, r) {
        if f in rest.fills {
          var r :| r in resting[1..] && FillOf(f, r);
          assert r in resting;
        } else {
          assert FillOf(f, o);
        }
      }
    }
  }

  lemma {:induction false} PassKeepsArrivalOrder(resting: seq<OpenOrder>, filled: map<nat, int>, ticker: Ticker,
      step: Step, seqNo: nat)
    requires Covers(resting, filled, ticker)
    requires InArrivalOrder(resting)
    ensures InArrivalOrder(FillOrders(resting, filled, ticker, step, seqNo).survivors)
  {
    if resting != [] {
      var o := resting[0];
      var next := NextSeq(o, filled, ticker, seqNo);
      PassKeepsArrivalOrder(resting[1..], filled, ticker, step, next);
      PassKeepsTerms(resting[1..], filled, ticker, step, next);
      var rest := FillOrders(resting[1..], filled, ticker, step, next).survivors;
      forall k | 0 <= k < |rest| ensures o.id < rest[k].id {
        assert rest[k] in rest;
        var r :| r in resting[1..] && SameTerms(rest[k], r);
        var j :| 0 <= j < |resting[1..]| && resting[1..][j] == r;
        assert resting[j + 1] == r;
      }
    }
  }

  /** Every entry of a pass still answers to the arrival log. */
  lemma PassIsExplained(resting: seq<OpenOrder>, pass: Pass, seqNo: nat, rested: seq<OpenOrder>)
    requires KeepsTerms(resting, pass, seqNo)
    requires forall o :: o in resting ==> Arrived(rested, o)
    ensures forall o :: o in pass.survivors ==> Arrived(rested, o)
    ensures forall f :: f in pass.fills ==> FillExplained(rested, f)
  {}

  lemma ProcessStepKeepsNumbered(s: Account, ticker: Ticker, step: Step, ppm: int)
    requires Numbered(s)
    ensures Numbered(ProcessStep(s, ticker, step, ppm))
  {
    var filled := AllocateStep(s.resting, ticker, step, ppm);
    var pass := StepPass(s, ticker, step, ppm);
    PassKeepsTerms(s.resting, filled, ticker, step, s.fillSeq);
    PassKeepsArrivalOrder(s.resting, filled, ticker, step, s.fillSeq);
    PassIsExplained(s.resting, pass, s.fillSeq, s.rested);
  }

  lemma {:induction false} WithoutKeepsArrivalOrder(resting: seq<OpenOrder>, id: nat)
    requires InArrivalOrder(resting)
    ensures InArrivalOrder(RestingWithout(resting, id))
  {
    if resting != [] {
      WithoutKeepsArrivalOrder(resting[1..], id);
      var rest := RestingWithout(resting[1..], id);
      forall k | 0 <= k < |rest| ensures resting[0].id < rest[k].id {
        assert rest[k] in resting[1..];
      }
    }
  }

  lemma PlaceKeepsNumbered(v: Venue, s: Account, intent: Intent, step: Step)
    requires Numbered(s)
    ensures Numbered(PlaceAt(v, s, intent, step))
  {
    hide Take;
    var r := PlaceAt(v, s, intent, step);
    forall f | f in r.fills ensures FillExplained(r.rested, f) {
      if f in s.fills { assert FillExplained(s.rested, f); }
    }
    forall o | o in r.resting ensures Arrived(r.rested, o) {
      if o in s.resting { assert Arrived(s.rested, o); }
    }
    forall a, b | 0 <= a < b < |r.resting| ensures r.resting[a].id < r.resting[b].id {
      assert r.resting[a] in s.resting;
      assert Arrived(s.rested, r.resting[a]);
    }
  }

  lemma TickerKeepsNumbered(v: Venue, s: Account, ticker: Ticker)
    requires Numbered(s)
    ensures Numbered(AdvanceTicker(v, s, ticker))
  {
    hide ProcessStep;
    if Unconsumed(v, s, ticker) {
      ProcessStepKeepsNumbered(s, ticker, v.recording.sessions[ticker][s.cursor[ticker]], v.ppm);
    }
  }

  lemma {:induction false} AdvanceKeepsNumbered(v: Venue, s: Account, tickers: seq<Ticker>)
    requires Numbered(s)
    ensures Numbered(AdvanceAll(v, s, tickers))
  {
    if tickers != [] {
      var last := |tickers| - 1;
      AdvanceKeepsNumbered(v, s, tickers[..last]);
      TickerKeepsNumbered(v, AdvanceAll(v, s, tickers[..last]), tickers[last]);
    }
  }

  lemma ApplyKeepsNumbered(v: Venue, s: Account, op: Op)
    requires s.cursor.Keys == v.recording.sessions.Keys && Numbered(s)
    ensures Numbered(Apply(v, s, op))
  {
    match op
    case Place(intent) =>
      var step := CurrentStep(v, s, intent.ticker);
      if step.Ok? { PlaceKeepsNumbered(v, s, intent, step.value); }
    case Cancel(id) =>
      WithoutKeepsArrivalOrder(s.resting, id);
      var r := Apply(v, s, op);
      forall o | o in r.resting ensures Arrived(r.rested, o) { assert Arrived(s.rested, o); }
      forall f | f in r.fills ensures FillExplained(r.rested, f) { assert FillExplained(s.rested, f); }
    case Advance => AdvanceKeepsNumbered(v, s, v.recording.tickers);
  }

  /** In every reachable state ids are unique, both logs are numbered in order, survivors keep
      arrival order, and every resting order and resting fill keeps its arrival's terms. */
  lemma {:induction false} RunIsNumbered(v: Venue, ops: seq<Op>)
    ensures Numbered(Run(v, ops))
  {
    if ops != [] {
      RunIsNumbered(v, ops[..|ops| - 1]);
      ApplyKeepsNumbered(v, Run(v, ops[..|ops| - 1]), ops[|ops| - 1]);
    }
  }

  // ---------------------------------------------------------------- the id-keyed allocation

  lemma {:induction false} SideKeepsArrivalOrder(resting: seq<OpenOrder>, ticker: Ticker, side: Side)
    requires InArrivalOrder(resting)
    ensures InArrivalOrder(SideOrders(resting, ticker, side))
  {
    if resting != [] {
      SideKeepsArrivalOrder(resting[1..], ticker, side);
      var rest := SideOrders(resting[1..], ticker, side);
      forall k | 0 <= k < |rest| ensures resting[0].id < rest[k].id {
        assert rest[k] in resting[1..];
      }
    }
  }

  lemma {:induction false} AssignAt(orders: seq<OpenOrder>, fills: seq<int>, k: nat)
    requires InArrivalOrder(orders) && |orders| == |fills| && k < |orders|
    ensures Assign(orders, fills)[orders[k].id] == fills[k]
  {
    var last := |orders| - 1;
    var before := Assign(orders[..last], fills[..last]);
    assert Assign(orders, fills) == before[orders[last].id := fills[last]];
    if k < last {
      AssignAt(orders[..last], fills[..last], k);
      assert orders[k].id < orders[last].id && orders[..last][k] == orders[k];
    }
  }

  lemma SameIdSameOrder(resting: seq<OpenOrder>, a: OpenOrder, b: OpenOrder)
    requires InArrivalOrder(resting) && a in resting && b in resting && a.id == b.id
    ensures a == b
  {}

  /** The fill an order finds under its own id is the one its side's allocation gave it. */
  lemma StepFillOf(resting: seq<OpenOrder>, ticker: Ticker, step: Step, ppm: int, o: OpenOrder) returns (k: nat)
    requires InArrivalOrder(resting) && o in resting && o.ticker == ticker
    ensures var orders := SideOrders(resting, ticker, o.side);
            && k < |orders| && orders[k] == o
            && AllocateStep(resting, ticker, step, ppm)[o.id] == SideFills(orders, o.side, step, ppm)[k]
  {
    var orders := SideOrders(resting, ticker, o.side);
    assert o in orders;
    k :| 0 <= k < |orders| && orders[k] == o;
    SideKeepsArrivalOrder(resting, ticker, o.side);
    AssignAt(orders, SideFills(orders, o.side, step, ppm), k);
    if o.side == Yes {
      var no := AllocateSide(resting, ticker, No, step, ppm);
      if o.id in no {
        var others := SideOrders(resting, ticker, No);
        AssignedIdsAreOrders(others, SideFills(others, No, step, ppm), o.id);
        var x :| x in others && x.id == o.id;
        SameIdSameOrder(resting, x, o);
        assert false;
      }
    }
  }

  // ---------------------------------------------------------------- sizes

  predicate SizedOrder(o: OpenOrder) { o.quantity > 0 }

  predicate SizedFill(f: Fill) { f.quantity > 0 }

  ghost predicate Sound(s: Account)
  {
    && Numbered(s)
    && (forall o :: o in s.resting ==> SizedOrder(o))
    && (forall o :: o in s.rested ==> SizedOrder(o))
    && (forall f :: f in s.fills ==> SizedFill(f))
  }

  lemma ComplementIsValid(levels: seq<Level>)
    requires ValidBookSide(levels)
    ensures ValidBookSide(Complement(levels))
  {}

  lemma {:induction false} DepthNonNegative(levels: seq<Level>, price: int)
    requires NonNegativeLevels(levels)
    ensures DepthAtOrAbove(levels, price) >= 0
  {
    if levels != [] {
      assert levels[0] in levels && forall l :: l in levels[1..] ==> l in levels;
      DepthNonNegative(levels[1..], price);
    }
  }

  lemma StepInputsAreValid(orders: seq<OpenOrder>, side: Side, step: Step, ppm: int)
    requires ValidStep(step) && 0 <= ppm <= PPM_DENOMINATOR
    requires forall o :: o in orders ==> o.quantity >= 0
    ensures ValidRequests(RequestsOf(orders, step), ppm)
    ensures ValidPrints(BuyFramePrints(side, step.trades))
  {
    ComplementIsValid(step.book.yesAsks);
    var requests := RequestsOf(orders, step);
    forall k | 0 <= k < |requests| ensures requests[k].remaining >= 0 && requests[k].depth >= 0 {
      assert orders[k] in orders;
      DepthNonNegative(QueueLevels(orders[k].side, step.book), orders[k].price);
    }
  }

  /** What an order may be given this step: never negative, never more than it has left, and
      only from volume strictly through its limit. */
  lemma StepFillIsBounded(s: Account, ticker: Ticker, step: Step, ppm: int, o: OpenOrder)
    requires Sound(s) && ValidStep(step) && 0 <= ppm <= PPM_DENOMINATOR && o in s.resting && o.ticker == ticker
    ensures var fill := AllocateStep(s.resting, ticker, step, ppm)[o.id];
            && 0 <= fill <= Claimable(RequestOf(o, step), ppm) <= o.quantity
            && fill <= VolumeBelow(BuyFramePrints(o.side, step.trades), o.price)
  {
    var k := StepFillOf(s.resting, ticker, step, ppm, o);
    var orders := SideOrders(s.resting, ticker, o.side);
    forall x | x in orders ensures x.quantity >= 0 { assert SizedOrder(x); }
    StepInputsAreValid(orders, o.side, step, ppm);
    AllocationIsBounded(RequestsOf(orders, step), BuyFramePrints(o.side, step.trades), ppm, k);
  }

  /** What an order gets when no other order of its side rests on the market. */
  lemma OnlyOrderFill(resting: seq<OpenOrder>, ticker: Ticker, step: Step, ppm: int, o: OpenOrder)
    requires InArrivalOrder(resting) && o in resting && o.ticker == ticker && SideOrders(resting, ticker, o.side) == [o]
    ensures AllocateStep(resting, ticker, step, ppm)[o.id]
         == RestingFillQuantity(RequestOf(o, step), BuyFramePrints(o.side, step.trades), ppm)
  {
    hide AllocateStep, Allocate, RestingFillQuantity, RequestOf;
    var k := StepFillOf(resting, ticker, step, ppm, o);
    assert RequestsOf([o], step) == [RequestOf(o, step)];
    LoneRequest(RequestOf(o, step), BuyFramePrints(o.side, step.trades), ppm);
  }

  lemma {:induction false} PassKeepsSizes(resting: seq<OpenOrder>, filled: map<nat, int>, ticker: Ticker, step: Step,
      seqNo: nat)
    requires Covers(resting, filled, ticker)
    requires forall o :: o in resting ==> SizedOrder(o)
    ensures var pass := FillOrders(resting, filled, ticker, step, seqNo);
            (forall o :: o in pass.survivors ==> SizedOrder(o)) && (forall f :: f in pass.fills ==> SizedFill(f))
  {
    if resting != [] {
      var o := resting[0];
      assert o in resting;
      PassKeepsSizes(resting[1..], filled, ticker, step, NextSeq(o, filled, ticker, seqNo));
    }
  }

  lemma ProcessStepKeepsSound(s: Account, ticker: Ticker, step: Step, ppm: int)
    requires Sound(s)
    ensures Sound(ProcessStep(s, ticker, step, ppm))
  {
    ProcessStepKeepsNumbered(s, ticker, step, ppm);
    PassKeepsSizes(s.resting, AllocateStep(s.resting, ticker, step, ppm), ticker, step, s.fillSeq);
  }

  lemma TakerLevelsAreValid(side: Side, book: Book)
    requires ValidBookSide(book.yesBids) && ValidBookSide(book.yesAsks)
    ensures ValidBookSide(TakerLevels(side, book))
  {}

  lemma PlaceKeepsSound(v: Venue, s: Account, intent: Intent, step: Step)
    requires Sound(s)
    ensures Sound(PlaceAt(v, s, intent, step))
  {
    var r := PlaceAt(v, s, intent, step);
    PlaceKeepsNumbered(v, s, intent, step);
    var levels := TakerLevels(intent.side, step.book);
    var walk := Walked(v, step, intent);
    WalkTotal(Eligible(levels, intent.price), walk.filled);
    forall f | f in r.fills ensures SizedFill(f) {
      if f !in s.fills {
        var fills := TakerFills(intent, walk.consumed, step.book.fetchedAt, s.fillSeq);
        var k :| 0 <= k < |fills| && fills[k] == f;
        assert walk.consumed[k] in walk.consumed;
      }
    }
  }

  /** With nothing to walk into, a placement rests whole. */
  lemma BareSideRests(v: Venue, s: Account, intent: Intent, step: Step)
    requires TakerLevels(intent.side, step.book) == [] && intent.quantity >= 0
    ensures PlaceAt(v, s, intent, step) == RestRemainder(s, intent, intent.quantity)
  {
    var walk := Walked(v, step, intent);
    assert Depth([]) == 0 && Eligible([], intent.price) == [];
    assert ParticipationCap(0, v.ppm) == 0 && walk.filled == 0;
    var fills := TakerFills(intent, walk.consumed, step.book.fetchedAt, s.fillSeq);
    assert fills == [] && s.fills + [] == s.fills;
  }

  lemma CurrentStepIsValid(v: Venue, s: Account, ticker: Ticker)
    requires ValidVenue(v) && s.cursor.Keys == v.recording.sessions.Keys
    ensures CurrentStep(v, s, ticker).Ok? ==> ValidStep(CurrentStep(v, s, ticker).value)
  {}

  lemma TickerKeepsSound(v: Venue, s: Account, ticker: Ticker)
    requires Sound(s)
    ensures Sound(AdvanceTicker(v, s, ticker))
  {
    hide ProcessStep;
    if Unconsumed(v, s, ticker) {
      ProcessStepKeepsSound(s, ticker, v.recording.sessions[ticker][s.cursor[ticker]], v.ppm);
    }
  }

  lemma {:induction false} AdvanceKeepsSound(v: Venue, s: Account, tickers: seq<Ticker>)
    requires Sound(s)
    ensures Sound(AdvanceAll(v, s, tickers))
  {
    if tickers != [] {
      var last := |tickers| - 1;
      AdvanceKeepsSound(v, s, tickers[..last]);
      TickerKeepsSound(v, AdvanceAll(v, s, tickers[..last]), tickers[last]);
    }
  }

  lemma ApplyKeepsSound(v: Venue, s: Account, op: Op)
    requires s.cursor.Keys == v.recording.sessions.Keys && Sound(s)
    ensures Sound(Apply(v, s, op))
  {
    match op
    case Place(intent) =>
      var step := CurrentStep(v, s, intent.ticker);
      if step.Ok? { PlaceKeepsSound(v, s, intent, step.value); }
    case Cancel(id) => ApplyKeepsNumbered(v, s, op);
    case Advance => AdvanceKeepsSound(v, s, v.recording.tickers);
  }

  /** Every reachable state is sound, whatever was recorded and whatever was placed: on top of
      the numbering, every fill, arrival and resting order has a positive size. */
  lemma {:induction false} RunIsSound(v: Venue, ops: seq<Op>)
    ensures Sound(Run(v, ops))
  {
    if ops != [] {
      RunIsSound(v, ops[..|ops| - 1]);
      ApplyKeepsSound(v, Run(v, ops[..|ops| - 1]), ops[|ops| - 1]);
    }
  }

  // ---------------------------------------------------------------- prices

  /** Arrivals and taker fills are at valid prices; the rest follows from the order terms. */
  ghost predicate Priced(s: Account)
  {
    && (forall o :: o in s.rested ==> ValidPrice(o.price))
    && (forall f :: f in s.fills && f.orderId.None? ==> ValidPrice(f.price))
  }

  lemma PricesAreValid(s: Account)
    requires Numbered(s) && Priced(s)
    ensures forall o :: o in s.resting ==> ValidPrice(o.price)
    ensures forall f :: f in s.fills ==> ValidPrice(f.price)
  {}

  lemma PlaceKeepsPriced(v: Venue, s: Account, intent: Intent, step: Step)
    requires Priced(s) && ValidStep(step) && ValidPrice(intent.price)
    ensures Priced(PlaceAt(v, s, intent, step))
  {
    hide Take;
    var r := PlaceAt(v, s, intent, step);
    var walk := Walked(v, step, intent);
    WalkedPricesAreValid(v, step, intent);
    var fills := TakerFills(intent, walk.consumed, step.book.fetchedAt, s.fillSeq);
    forall f | f in r.fills && f.orderId.None? ensures ValidPrice(f.price) {
      if f !in s.fills {
        var k :| 0 <= k < |fills| && fills[k] == f;
        assert walk.consumed[k] in walk.consumed;
      }
    }
  }

  lemma WalkedPricesAreValid(v: Venue, step: Step, intent: Intent)
    requires ValidStep(step)
    ensures forall slice :: slice in Walked(v, step, intent).consumed ==> ValidPrice(slice.price)
  {
    TakerLevelsAreValid(intent.side, step.book);
    WalkTotal(Eligible(TakerLevels(intent.side, step.book), intent.price), Walked(v, step, intent).filled);
  }

  lemma TickerKeepsPriced(v: Venue, s: Account, ticker: Ticker)
    requires Priced(s)
    ensures Priced(AdvanceTicker(v, s, ticker))
  {
    if Unconsumed(v, s, ticker) {
      var step := v.recording.sessions[ticker][s.cursor[ticker]];
      PassKeepsTerms(s.resting, AllocateStep(s.resting, ticker, step, v.ppm), ticker, step, s.fillSeq);
    }
  }

  lemma {:induction false} AdvanceKeepsPriced(v: Venue, s: Account, tickers: seq<Ticker>)
    requires Priced(s)
    ensures Priced(AdvanceAll(v, s, tickers))
  {
    hide Priced;
    if tickers != [] {
      var last := |tickers| - 1;
      AdvanceKeepsPriced(v, s, tickers[..last]);
      TickerKeepsPriced(v, AdvanceAll(v, s, tickers[..last]), tickers[last]);
    }
  }

  /** Over a well-formed recording, runs that only place valid limits stay validly priced. */
  lemma {:induction false} RunIsPriced(v: Venue, ops: seq<Op>)
    requires ValidVenue(v) && ValidOps(ops)
    ensures Priced(Run(v, ops))
  {
    hide PlaceAt, AdvanceAll;
    if ops != [] {
      var before, op := ops[..|ops| - 1], ops[|ops| - 1];
      var s := Run(v, before);
      RunIsPriced(v, before);
      match op
      case Place(intent) =>
        var step := CurrentStep(v, s, intent.ticker);
        CurrentStepIsValid(v, s, intent.ticker);
        if step.Ok? { PlaceKeepsPriced(v, s, intent, step.value); }
      case Cancel(_) =>
      case Advance => AdvanceKeepsPriced(v, s, v.recording.tickers);
    }
  }
}
