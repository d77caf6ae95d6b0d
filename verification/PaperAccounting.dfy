/** Conservation and cash over every run of the paper exchange. */
module PaperAccounting {
  import opened Numeric
  import opened Sums
  import opened Fees
  import opened TakerWalk
  import opened RestingAllocation
  import opened PaperModel
  import opened PaperRules
  import opened PaperInvariant
  import opened PaperMarkets

  // ---------------------------------------------------------------- contracts per order

  function FilledFor(fills: seq<Fill>, id: nat): int
  {
    if fills == [] then 0
    else (if fills[0].orderId == Some(id) then fills[0].quantity else 0) + FilledFor(fills[1..], id)
  }

  function RestingFor(resting: seq<OpenOrder>, id: nat): int
  {
    if resting == [] then 0
    else (if resting[0].id == id then resting[0].quantity else 0) + RestingFor(resting[1..], id)
  }

  /** What the cancellations of a run took off order `id`. */
  function CancelledFor(v: Venue, ops: seq<Op>, id: nat): int
  {
    if ops == [] then 0
    else
      var before, op := ops[..|ops| - 1], ops[|ops| - 1];
      CancelledFor(v, before, id) + if op == Cancel(id) then RestingFor(Run(v, before).resting, id) else 0
  }

  lemma {:induction false} FilledForAppend(a: seq<Fill>, b: seq<Fill>, id: nat)
    ensures FilledFor(a + b, id) == FilledFor(a, id) + FilledFor(b, id)
  {
    if a == [] {
      assert a + b == b;
    } else {
      assert (a + b)[1..] == a[1..] + b;
      FilledForAppend(a[1..], b, id);
    }
  }

  lemma {:induction false} RestingForAppend(a: seq<OpenOrder>, b: seq<OpenOrder>, id: nat)
    ensures RestingFor(a + b, id) == RestingFor(a, id) + RestingFor(b, id)
  {
    if a == [] {
      assert a + b == b;
    } else {
      assert (a + b)[1..] == a[1..] + b;
      RestingForAppend(a[1..], b, id);
    }
  }

  lemma {:induction false} NotFilled(fills: seq<Fill>, id: nat)
    requires forall k :: 0 <= k < |fills| ==> fills[k].orderId != Some(id)
    ensures FilledFor(fills, id) == 0
  {
    if fills != [] { NotFilled(fills[1..], id); }
  }

  lemma {:induction false} NotResting(resting: seq<OpenOrder>, id: nat)
    requires forall k :: 0 <= k < |resting| ==> resting[k].id != id
    ensures RestingFor(resting, id) == 0
  {
    if resting != [] { NotResting(resting[1..], id); }
  }

  lemma {:induction false} WithoutRemoves(resting: seq<OpenOrder>, cancelled: nat, id: nat)
    ensures RestingFor(RestingWithout(resting, cancelled), id) == if id == cancelled then 0 else RestingFor(resting, id)
  {
    if resting != [] { WithoutRemoves(resting[1..], cancelled, id); }
  }

  ghost predicate FitsOrders(resting: seq<OpenOrder>, filled: map<nat, int>, ticker: Ticker)
  {
    forall o :: o in resting && o.ticker == ticker ==> o.id in filled && filled[o.id] <= o.quantity
  }

  lemma StepFits(s: Account, ticker: Ticker, step: Step, ppm: int)
    requires Sound(s) && ValidStep(step) && 0 <= ppm <= PPM_DENOMINATOR
    ensures FitsOrders(s.resting, AllocateStep(s.resting, ticker, step, ppm), ticker)
  {
    forall o | o in s.resting && o.ticker == ticker
      ensures AllocateStep(s.resting, ticker, step, ppm)[o.id] <= o.quantity
    {
      StepFillIsBounded(s, ticker, step, ppm, o);
    }
  }

  /** A pass moves contracts from resting to filled and loses none. */
  lemma {:induction false} PassConserves(resting: seq<OpenOrder>, filled: map<nat, int>, ticker: Ticker, step: Step,
      seqNo: nat, id: nat)
    requires FitsOrders(resting, filled, ticker)
    ensures var pass := FillOrders(resting, filled, ticker, step, seqNo);
            FilledFor(pass.fills, id) + RestingFor(pass.survivors, id) == RestingFor(resting, id)
  {
    if resting != [] {
      var o := resting[0];
      assert o in resting;
      PassConserves(resting[1..], filled, ticker, step, NextSeq(o, filled, ticker, seqNo), id);
    }
  }

  lemma TickerConserves(v: Venue, s: Account, ticker: Ticker, id: nat)
    requires ValidVenue(v) && Sound(s)
    ensures var r := AdvanceTicker(v, s, ticker);
            && r.rested == s.rested
            && FilledFor(r.fills, id) + RestingFor(r.resting, id) == FilledFor(s.fills, id) + RestingFor(s.resting, id)
  {
    if Unconsumed(v, s, ticker) {
      var step := v.recording.sessions[ticker][s.cursor[ticker]];
      StepFits(s, ticker, step, v.ppm);
      PassConserves(s.resting, AllocateStep(s.resting, ticker, step, v.ppm), ticker, step, s.fillSeq, id);
      FilledForAppend(s.fills, StepPass(s, ticker, step, v.ppm).fills, id);
    }
  }

  lemma {:induction false} AdvanceConserves(v: Venue, s: Account, tickers: seq<Ticker>, id: nat)
    requires ValidVenue(v) && Sound(s)
    ensures var r := AdvanceAll(v, s, tickers);
            && r.rested == s.rested
            && FilledFor(r.fills, id) + RestingFor(r.resting, id) == FilledFor(s.fills, id) + RestingFor(s.resting, id)
  {
    if tickers != [] {
      var last := |tickers| - 1;
      AdvanceConserves(v, s, tickers[..last], id);
      AdvanceKeepsSound(v, s, tickers[..last]);
      TickerConserves(v, AdvanceAll(v, s, tickers[..last]), tickers[last], id);
    }
  }

  /** What a placement adds to the books kept per order. */
  lemma PlaceAccounts(v: Venue, s: Account, intent: Intent, step: Step, id: nat)
    requires Numbered(s)
    ensures var r := PlaceAt(v, s, intent, step);
            && FilledFor(r.fills, id) == FilledFor(s.fills, id)
            && RestingFor(r.resting, id) == RestingFor(s.resting, id)
               + (if |r.rested| > |s.rested| && id == |r.rested| then r.rested[id - 1].quantity else 0)
            && s.rested <= r.rested <= s.rested + r.rested[|s.rested|..]
            && |r.rested| <= |s.rested| + 1
  {
    var walk := Walked(v, step, intent);
    var fills := TakerFills(intent, walk.consumed, step.book.fetchedAt, s.fillSeq);
    FilledForAppend(s.fills, fills, id);
    NotFilled(fills, id);
    var r := PlaceAt(v, s, intent, step);
    assert r.rested == s.rested + r.rested[|s.rested|..];
    RestingForAppend(s.resting, r.rested[|s.rested|..], id);
  }

  /** Ids not issued yet appear nowhere. */
  lemma UnissuedIsAbsent(s: Account, id: nat)
    requires Numbered(s) && id > s.orderSeq
    ensures FilledFor(s.fills, id) == 0 && RestingFor(s.resting, id) == 0
  {
    forall k | 0 <= k < |s.fills| ensures s.fills[k].orderId != Some(id) { assert FillExplained(s.rested, s.fills[k]); }
    NotFilled(s.fills, id);
    forall k | 0 <= k < |s.resting| ensures s.resting[k].id != id { assert Arrived(s.rested, s.resting[k]); }
    NotResting(s.resting, id);
  }

  lemma {:induction false} NothingCancelledEarly(v: Venue, ops: seq<Op>, id: nat)
    requires id > Run(v, ops).orderSeq
    ensures CancelledFor(v, ops, id) == 0
  {
    if ops != [] {
      var before := ops[..|ops| - 1];
      RunIsNumbered(v, before);
      OrderSeqGrows(v, Run(v, before), ops[|ops| - 1]);
      NothingCancelledEarly(v, before, id);
      UnissuedIsAbsent(Run(v, before), id);
    }
  }

  lemma OrderSeqGrows(v: Venue, s: Account, op: Op)
    requires s.cursor.Keys == v.recording.sessions.Keys
    ensures Apply(v, s, op).orderSeq >= s.orderSeq
  {
    if op.Advance? { AdvanceKeepsSeq(v, s, v.recording.tickers); }
  }

  lemma {:induction false} AdvanceKeepsSeq(v: Venue, s: Account, tickers: seq<Ticker>)
    ensures AdvanceAll(v, s, tickers).orderSeq == s.orderSeq
  {
    if tickers != [] { AdvanceKeepsSeq(v, s, tickers[..|tickers| - 1]); }
  }

  /** In every reachable state, what an order arrived with is what has filled under its id, plus
      what still rests, plus what was cancelled. */
  lemma {:induction false} OrderIsConserved(v: Venue, ops: seq<Op>, id: nat)
    requires ValidVenue(v) && 1 <= id <= |Run(v, ops).rested|
    ensures var s := Run(v, ops);
            s.rested[id - 1].quantity == FilledFor(s.fills, id) + RestingFor(s.resting, id) + CancelledFor(v, ops, id)
  {
    hide PlaceAt, AdvanceAll, RestingWithout;
    if ops != [] {
      var before, op := ops[..|ops| - 1], ops[|ops| - 1];
      var s := Run(v, before);
      RunIsSound(v, before);
      match op
      case Place(intent) =>
        var step := CurrentStep(v, s, intent.ticker);
        if step.Ok? { PlaceAccounts(v, s, intent, step.value, id); }
        if id <= |s.rested| {
          OrderIsConserved(v, before, id);
        } else {
          UnissuedIsAbsent(s, id);
          NothingCancelledEarly(v, before, id);
        }
      case Cancel(c) =>
        OrderIsConserved(v, before, id);
        WithoutRemoves(s.resting, c, id);
      case Advance =>
        AdvanceConserves(v, s, v.recording.tickers, id);
        OrderIsConserved(v, before, id);
    }
  }

  function FillQuantity(fills: seq<Fill>): int
  {
    if fills == [] then 0 else fills[0].quantity + FillQuantity(fills[1..])
  }

  lemma {:induction false} TakerFillQuantity(intent: Intent, consumed: seq<Level>, ts: int, seqNo: nat)
    ensures FillQuantity(TakerFills(intent, consumed, ts, seqNo)) == Depth(consumed)
  {
    if consumed != [] {
      assert TakerFills(intent, consumed, ts, seqNo)[1..] == TakerFills(intent, consumed[1..], ts, seqNo + 1);
      TakerFillQuantity(intent, consumed[1..], ts, seqNo + 1);
    }
  }

  /** Every placement fills the most of its size that stays within its share of the depth its limit
      reaches, and rests the remainder; each fill is a taker fill of the intent, dated by the book,
      out of a recorded level at or better than its limit. */
  lemma PlacementIsWhole(v: Venue, s: Account, intent: Intent, step: Step)
    requires ValidVenue(v) && ValidStep(step) && intent.quantity >= 0
    ensures var r := PlaceAt(v, s, intent, step);
            && s.fills <= r.fills && s.resting <= r.resting && |r.resting| <= |s.resting| + 1
            && FillQuantity(r.fills[|s.fills|..])
               + (if |r.resting| > |s.resting| then r.resting[|s.resting|].quantity else 0) == intent.quantity
            && IsCapped(FillQuantity(r.fills[|s.fills|..]), intent.quantity,
                        ReachedDepth(intent.side, intent.price, step.book), v.ppm)
            && (|r.resting| > |s.resting| ==>
                  var o := r.resting[|s.resting|];
                  o.price == intent.price && o.side == intent.side && o.ticker == intent.ticker)
            && (forall f :: f in r.fills[|s.fills|..] ==>
                  && f.ticker == intent.ticker && f.side == intent.side && f.price <= intent.price && f.quantity > 0
                  && f.ts == step.book.fetchedAt && f.orderId == None
                  && TakesFrom(f, OwnLevels(intent.side, step.book)))
  {
    hide Take, TakerFills, ReachedDepth;
    var walk := Walked(v, step, intent);
    var fills := TakerFills(intent, walk.consumed, step.book.fetchedAt, s.fillSeq);
    TakerLevelsAreValid(intent.side, step.book);
    TakerFillIsBounded(TakerLevels(intent.side, step.book), intent.price, intent.quantity, FeesFor(v, intent.ticker),
        v.haircutPpm, v.ppm);
    ReachedIsEligible(intent.side, intent.price, step.book);
    TakerFillQuantity(intent, walk.consumed, step.book.fetchedAt, s.fillSeq);
    var r := PlaceAt(v, s, intent, step);
    assert r.fills[|s.fills|..] == fills;
    forall f | f in fills
      ensures && f.ticker == intent.ticker && f.side == intent.side && f.price <= intent.price && f.quantity > 0
              && f.ts == step.book.fetchedAt && f.orderId == None && TakesFrom(f, OwnLevels(intent.side, step.book))
    {
      var k :| 0 <= k < |fills| && fills[k] == f;
      assert walk.consumed[k] in walk.consumed;
      SliceComesFromLevel(v, intent, step, walk.consumed[k]);
    }
  }

  /** A fill takes no more than some recorded level offers, at that level's price. */
  ghost predicate TakesFrom(f: Fill, levels: seq<Level>)
  {
    exists l :: l in levels && f.price == l.price && f.quantity <= l.quantity
  }

  lemma SliceComesFromLevel(v: Venue, intent: Intent, step: Step, slice: Level)
    requires slice in Walked(v, step, intent).consumed
    ensures exists l :: l in OwnLevels(intent.side, step.book) && slice.price == l.price && slice.quantity <= l.quantity
  {
    var eligible := Eligible(TakerLevels(intent.side, step.book), intent.price);
    WalkTotal(eligible, Walked(v, step, intent).filled);
    var l :| l in eligible && l.price == slice.price && slice.quantity <= l.quantity;
    TakerLevelsAreOwn(intent.side, step.book);
  }

  // ---------------------------------------------------------------- the refolded ledger

  lemma {:induction false} SpentAppend(v: Venue, a: seq<Fill>, b: seq<Fill>)
    ensures Spent(v, a + b) == Spent(v, a) + Spent(v, b)
  {
    if a == [] {
      assert a + b == b;
    } else {
      assert (a + b)[1..] == a[1..] + b;
      SpentAppend(v, a[1..], b);
    }
  }

  lemma {:induction false} ReservedAppend(v: Venue, a: seq<OpenOrder>, b: seq<OpenOrder>)
    ensures Reserved(v, a + b) == Reserved(v, a) + Reserved(v, b)
  {
    if a == [] {
      assert a + b == b;
    } else {
      assert (a + b)[1..] == a[1..] + b;
      ReservedAppend(v, a[1..], b);
    }
  }

  /** The walk's own totals, recomputed from the fill records it emitted. */
  lemma {:induction false} TakerFillsSpend(v: Venue, intent: Intent, consumed: seq<Level>, ts: int, seqNo: nat)
    ensures Spent(v, TakerFills(intent, consumed, ts, seqNo))
         == BookCost(consumed) + SliceFees(FeesFor(v, intent.ticker), consumed)
  {
    if consumed != [] {
      assert TakerFills(intent, consumed, ts, seqNo)[1..] == TakerFills(intent, consumed[1..], ts, seqNo + 1);
      TakerFillsSpend(v, intent, consumed[1..], ts, seqNo + 1);
    }
  }

  /** What every taker walk of a run charged: book cost and fee, never the haircut. */
  function WalkedCash(v: Venue, ops: seq<Op>): int
  {
    if ops == [] then 0
    else
      var before, op := ops[..|ops| - 1], ops[|ops| - 1];
      WalkedCash(v, before) +
      if !op.Place? then 0
      else match CurrentStep(v, Run(v, before), op.intent.ticker)
           case Ok(step) => var walk := Walked(v, step, op.intent); walk.bookCost + walk.fee
           case Err(_) => 0
  }

  /** The cash of the fills that executed resting orders. */
  function RestingCash(v: Venue, fills: seq<Fill>): int
  {
    if fills == [] then 0
    else (if fills[0].orderId.Some? then Cash(v, fills[0].ticker, fills[0].price, fills[0].quantity) else 0)
         + RestingCash(v, fills[1..])
  }

  lemma {:induction false} RestingCashAppend(v: Venue, a: seq<Fill>, b: seq<Fill>)
    ensures RestingCash(v, a + b) == RestingCash(v, a) + RestingCash(v, b)
  {
    if a == [] {
      assert a + b == b;
    } else {
      assert (a + b)[1..] == a[1..] + b;
      RestingCashAppend(v, a[1..], b);
    }
  }

  lemma {:induction false} OneKindOfFill(v: Venue, fills: seq<Fill>, resting: bool)
    requires forall k :: 0 <= k < |fills| ==> fills[k].orderId.Some? == resting
    ensures RestingCash(v, fills) == if resting then Spent(v, fills) else 0
  {
    if fills != [] { OneKindOfFill(v, fills[1..], resting); }
  }

  lemma TickerSpendsAsResting(v: Venue, s: Account, ticker: Ticker)
    ensures var r := AdvanceTicker(v, s, ticker);
            Spent(v, r.fills) - RestingCash(v, r.fills) == Spent(v, s.fills) - RestingCash(v, s.fills)
  {
    hide Cash, AllocateStep, FillOrders, Spent, RestingCash;
    if Unconsumed(v, s, ticker) {
      var step := v.recording.sessions[ticker][s.cursor[ticker]];
      var pass := StepPass(s, ticker, step, v.ppm);
      PassKeepsTerms(s.resting, AllocateStep(s.resting, ticker, step, v.ppm), ticker, step, s.fillSeq);
      forall k | 0 <= k < |pass.fills| ensures pass.fills[k].orderId.Some? {
        assert pass.fills[k] in pass.fills;
      }
      OneKindOfFill(v, pass.fills, true);
      SpentAppend(v, s.fills, pass.fills);
      RestingCashAppend(v, s.fills, pass.fills);
    }
  }

  lemma {:induction false} AdvanceSpendsAsResting(v: Venue, s: Account, tickers: seq<Ticker>)
    ensures var r := AdvanceAll(v, s, tickers);
            Spent(v, r.fills) - RestingCash(v, r.fills) == Spent(v, s.fills) - RestingCash(v, s.fills)
  {
    hide AdvanceTicker, Spent, RestingCash;
    if tickers != [] {
      var last := |tickers| - 1;
      AdvanceSpendsAsResting(v, s, tickers[..last]);
      TickerSpendsAsResting(v, AdvanceAll(v, s, tickers[..last]), tickers[last]);
    }
  }

  /** Cash spent, recomputed per fill, is what the taker walks charged plus each resting fill's
      own cash: the fold reproduces the walk exactly. */
  lemma {:induction false} LedgerEqualsWalk(v: Venue, ops: seq<Op>)
    ensures var s := Run(v, ops); Spent(v, s.fills) == WalkedCash(v, ops) + RestingCash(v, s.fills)
  {
    if ops != [] {
      var before, op := ops[..|ops| - 1], ops[|ops| - 1];
      var s := Run(v, before);
      LedgerEqualsWalk(v, before);
      match op
      case Place(intent) =>
        var step := CurrentStep(v, s, intent.ticker);
        if step.Ok? {
          var walk := Walked(v, step.value, intent);
          var fills := TakerFills(intent, walk.consumed, step.value.book.fetchedAt, s.fillSeq);
          TakerFillsSpend(v, intent, walk.consumed, step.value.book.fetchedAt, s.fillSeq);
          OneKindOfFill(v, fills, false);
          SpentAppend(v, s.fills, fills);
          RestingCashAppend(v, s.fills, fills);
        }
      case Cancel(_) =>
      case Advance => AdvanceSpendsAsResting(v, s, v.recording.tickers);
    }
  }

  lemma {:induction false} AdvanceIgnoresHaircut(v: Venue, haircut: int, s: Account, tickers: seq<Ticker>)
    ensures AdvanceAll(v.(haircutPpm := haircut), s, tickers) == AdvanceAll(v, s, tickers)
  {
    if tickers != [] { AdvanceIgnoresHaircut(v, haircut, s, tickers[..|tickers| - 1]); }
  }

  lemma PlaceIgnoresHaircut(v: Venue, haircut: int, s: Account, intent: Intent, step: Step)
    ensures PlaceAt(v.(haircutPpm := haircut), s, intent, step) == PlaceAt(v, s, intent, step)
  {}

  lemma ApplyIgnoresHaircut(v: Venue, haircut: int, s: Account, op: Op)
    requires s.cursor.Keys == v.recording.sessions.Keys
    ensures Apply(v.(haircutPpm := haircut), s, op) == Apply(v, s, op)
  {
    match op
    case Place(intent) =>
      var step := CurrentStep(v, s, intent.ticker);
      if step.Ok? { PlaceIgnoresHaircut(v, haircut, s, intent, step.value); }
    case Cancel(_) =>
    case Advance => AdvanceIgnoresHaircut(v, haircut, s, v.recording.tickers);
  }

  lemma {:induction false} RunIgnoresHaircut(v: Venue, haircut: int, ops: seq<Op>)
    ensures Run(v.(haircutPpm := haircut), ops) == Run(v, ops)
  {
    if ops != [] {
      RunIgnoresHaircut(v, haircut, ops[..|ops| - 1]);
      ApplyIgnoresHaircut(v, haircut, Run(v, ops[..|ops| - 1]), ops[|ops| - 1]);
    }
  }

  /** The haircut never leaks: the whole account is the same under every haircut. */
  lemma HaircutNeverLeaks(v: Venue, haircut: int, ops: seq<Op>)
    ensures var w := v.(haircutPpm := haircut);
            && Run(w, ops) == Run(v, ops)
            && TotalBalance(w, Run(w, ops)) == TotalBalance(v, Run(v, ops))
            && AvailableBalance(w, Run(w, ops)) == AvailableBalance(v, Run(v, ops))
  {
    RunIgnoresHaircut(v, haircut, ops);
    SpentIgnoresHaircut(v, haircut, Run(v, ops).fills);
    ReservedIgnoresHaircut(v, haircut, Run(v, ops).resting);
  }

  lemma {:induction false} SpentIgnoresHaircut(v: Venue, haircut: int, fills: seq<Fill>)
    ensures Spent(v.(haircutPpm := haircut), fills) == Spent(v, fills)
  {
    if fills != [] { SpentIgnoresHaircut(v, haircut, fills[1..]); }
  }

  lemma {:induction false} ReservedIgnoresHaircut(v: Venue, haircut: int, resting: seq<OpenOrder>)
    ensures Reserved(v.(haircutPpm := haircut), resting) == Reserved(v, resting)
  {
    if resting != [] { ReservedIgnoresHaircut(v, haircut, resting[1..]); }
  }

  // ---------------------------------------------------------------- how balances move

  lemma CashNonNegative(v: Venue, ticker: Ticker, price: int, quantity: int)
    requires ValidVenue(v) && ValidPrice(price) && quantity >= 0
    ensures Cash(v, ticker, price, quantity) >= 0
  {}

  lemma {:induction false} SpentNonNegative(v: Venue, fills: seq<Fill>)
    requires ValidVenue(v) && forall f :: f in fills ==> SizedFill(f) && ValidPrice(f.price)
    ensures Spent(v, fills) >= 0
  {
    if fills != [] {
      assert fills[0] in fills && forall f :: f in fills[1..] ==> f in fills;
      CashNonNegative(v, fills[0].ticker, fills[0].price, fills[0].quantity);
      SpentNonNegative(v, fills[1..]);
    }
  }

  /** Whether filling `f` of an order's contracts costs a cent more than it releases: exactly
      when the two ceilings do not fit under one cent together. */
  function Leak(v: Venue, o: OpenOrder, f: int): (r: int)
    ensures r == 0 || r == 1
    ensures f == o.quantity ==> r == 0
  {
    var w := FeeWeight(FeesFor(v, o.ticker), o.price);
    if f > 0 && Slack(w * f) + Slack(w * (o.quantity - f)) >= TRADING_CENT_DENOMINATOR then
      assert f == o.quantity ==> w * (o.quantity - f) == 0;
      1
    else 0
  }

  lemma FillCost(v: Venue, o: OpenOrder, f: int)
    requires f > 0
    ensures Cash(v, o.ticker, o.price, f) + Cash(v, o.ticker, o.price, o.quantity - f)
         == Cash(v, o.ticker, o.price, o.quantity) + Leak(v, o, f) * MICROS_PER_CENT
  {
    FeeSplit(FeesFor(v, o.ticker), o.price, f, o.quantity - f);
    assert o.price * o.quantity == o.price * f + o.price * (o.quantity - f);
  }

  /** The cents one step costs. */
  function Leaks(v: Venue, resting: seq<OpenOrder>, filled: map<nat, int>, ticker: Ticker): int
    requires Covers(resting, filled, ticker)
  {
    if resting == [] then 0
    else (if resting[0].ticker == ticker then Leak(v, resting[0], filled[resting[0].id]) else 0)
         + Leaks(v, resting[1..], filled, ticker)
  }

  /** A pass spends what it releases plus one cent per leak, and only a part-filled order leaks. */
  lemma {:induction false} PassCostsItsLeaks(v: Venue, resting: seq<OpenOrder>, filled: map<nat, int>,
      ticker: Ticker, step: Step, seqNo: nat)
    requires FitsOrders(resting, filled, ticker)
    ensures var pass := FillOrders(resting, filled, ticker, step, seqNo);
            && 0 <= Leaks(v, resting, filled, ticker) <= |pass.fills| - (|resting| - |pass.survivors|)
            && Spent(v, pass.fills) + Reserved(v, pass.survivors)
               == Reserved(v, resting) + Leaks(v, resting, filled, ticker) * MICROS_PER_CENT
  {
    if resting != [] {
      var o := resting[0];
      assert o in resting;
      hide TradingFee, Leak;
      PassCostsItsLeaks(v, resting[1..], filled, ticker, step, NextSeq(o, filled, ticker, seqNo));
      if o.ticker == ticker && filled[o.id] > 0 {
        FillCost(v, o, filled[o.id]);
        FeeFacts(FeesFor(v, ticker), o.price, 0);
      }
    }
  }

  /** The exact drop of `available` over one replayed step, from any state inside any advance of
      any run; filling is balance-neutral if and only if no order leaks. */
  lemma StepCostsItsLeaks(v: Venue, ops: seq<Op>, i: nat, ticker: Ticker, step: Step)
    requires ValidVenue(v) && ValidStep(step) && i <= |v.recording.tickers|
    ensures var s := Within(v, ops, i);
            AvailableBalance(v, s) - AvailableBalance(v, ProcessStep(s, ticker, step, v.ppm))
            == Leaks(v, s.resting, AllocateStep(s.resting, ticker, step, v.ppm), ticker) * MICROS_PER_CENT
  {
    hide Within;
    WithinIsSound(v, ops, i);
    StepCost(v, Within(v, ops, i), ticker, step);
  }

  lemma StepCost(v: Venue, s: Account, ticker: Ticker, step: Step)
    requires 0 <= v.ppm <= PPM_DENOMINATOR && ValidStep(step) && Sound(s)
    ensures AvailableBalance(v, s) - AvailableBalance(v, ProcessStep(s, ticker, step, v.ppm))
         == Leaks(v, s.resting, AllocateStep(s.resting, ticker, step, v.ppm), ticker) * MICROS_PER_CENT
  {
    hide FillOrders, AllocateStep, Cash, Leaks, ValidStep, Sound, Spent, Reserved;
    StepFits(s, ticker, step, v.ppm);
    PassCostsItsLeaks(v, s.resting, AllocateStep(s.resting, ticker, step, v.ppm), ticker, step, s.fillSeq);
    SpentAppend(v, s.fills, StepPass(s, ticker, step, v.ppm).fills);
  }

  /** Whether order `o` loses a cent in the next advance, judged before it: its market has a step
      left, and the part it will be given of its size leaves both ceilings rounding up. */
  predicate WillLeak(v: Venue, s: Account, o: OpenOrder)
    requires o in s.resting
  {
    Unconsumed(v, s, o.ticker)
    && Leak(v, o, AllocateStep(s.resting, o.ticker, NextStep(v, s, o.ticker), v.ppm)[o.id]) == 1
  }

  /** The cents one market will cost in the next advance. */
  function MarketLeaks(v: Venue, s: Account, t: Ticker): int
  {
    if Unconsumed(v, s, t) then Leaks(v, s.resting, AllocateStep(s.resting, t, NextStep(v, s, t), v.ppm), t) else 0
  }

  function AdvanceLeaks(v: Venue, s: Account, tickers: seq<Ticker>): int
  {
    if tickers == [] then 0
    else AdvanceLeaks(v, s, tickers[..|tickers| - 1]) + MarketLeaks(v, s, tickers[|tickers| - 1])
  }

  lemma {:induction false} LeaksOnMarket(v: Venue, resting: seq<OpenOrder>, filled: map<nat, int>, t: Ticker)
    requires Covers(resting, filled, t)
    ensures Covers(OnMarket(resting, t), filled, t)
    ensures Leaks(v, OnMarket(resting, t), filled, t) == Leaks(v, resting, filled, t)
  {
    if resting != [] {
      LeaksOnMarket(v, resting[1..], filled, t);
      var rest := OnMarket(resting[1..], t);
      assert ([resting[0]] + rest)[1..] == rest && [] + rest == rest;
    }
  }

  lemma MarketLeaksAlike(v: Venue, a: Account, b: Account, t: Ticker)
    requires SameMarket(a, b, t)
    ensures MarketLeaks(v, a, t) == MarketLeaks(v, b, t)
  {
    hide OnMarket, FillsOn, AllocateStep, Leaks;
    if Unconsumed(v, a, t) {
      var step := NextStep(v, a, t);
      AllocationOnMarket(a.resting, t, step, v.ppm);
      AllocationOnMarket(b.resting, t, step, v.ppm);
      LeaksOnMarket(v, a.resting, AllocateStep(a.resting, t, step, v.ppm), t);
      LeaksOnMarket(v, b.resting, AllocateStep(b.resting, t, step, v.ppm), t);
    }
  }

  lemma TickerCost(v: Venue, s: Account, ticker: Ticker)
    requires ValidVenue(v) && Sound(s)
    ensures AvailableBalance(v, s) - AvailableBalance(v, AdvanceTicker(v, s, ticker))
        == MarketLeaks(v, s, ticker) * MICROS_PER_CENT
  {
    hide ProcessStep, AllocateStep, Spent, Reserved, Leaks, Sound, ValidStep;
    if Unconsumed(v, s, ticker) {
      StepCost(v, s, ticker, NextStep(v, s, ticker));
    }
  }

  lemma {:induction false} AdvanceCost(v: Venue, s: Account, tickers: seq<Ticker>)
    requires ValidVenue(v) && Sound(s) && forall a, b :: 0 <= a < b < |tickers| ==> tickers[a] != tickers[b]
    ensures AvailableBalance(v, s) - AvailableBalance(v, AdvanceAll(v, s, tickers))
        == AdvanceLeaks(v, s, tickers) * MICROS_PER_CENT
  {
    hide AvailableBalance, Sound, ValidVenue, MarketLeaks, AdvanceTicker, SameMarket;
    if tickers != [] {
      var last := |tickers| - 1;
      var at := AdvanceAll(v, s, tickers[..last]);
      AdvanceCost(v, s, tickers[..last]);
      AdvanceKeepsSound(v, s, tickers[..last]);
      TickerCost(v, at, tickers[last]);
      AdvanceLeavesOthers(v, s, tickers[..last], tickers[last]);
      MarketLeaksAlike(v, at, s, tickers[last]);
    }
  }

  lemma {:induction false} NoLeaks(v: Venue, resting: seq<OpenOrder>, filled: map<nat, int>, t: Ticker)
    requires Covers(resting, filled, t)
    ensures Leaks(v, resting, filled, t) >= 0
    ensures Leaks(v, resting, filled, t) == 0
            <==> forall o :: o in resting && o.ticker == t ==> Leak(v, o, filled[o.id]) == 0
  {
    hide Leak;
    if resting != [] {
      NoLeaks(v, resting[1..], filled, t);
      assert resting[0] in resting && forall o :: o in resting <==> o == resting[0] || o in resting[1..];
    }
  }

  lemma {:induction false} NoMarketLeaks(v: Venue, s: Account, tickers: seq<Ticker>)
    ensures AdvanceLeaks(v, s, tickers) >= 0
    ensures AdvanceLeaks(v, s, tickers) == 0
            <==> forall o :: o in s.resting && o.ticker in tickers ==> !WillLeak(v, s, o)
  {
    hide Leak, AllocateStep, Leaks;
    if tickers != [] {
      var t, before := tickers[|tickers| - 1], tickers[..|tickers| - 1];
      NoMarketLeaks(v, s, before);
      assert forall x :: x in tickers <==> x == t || x in before by { assert tickers == before + [t]; }
      if Unconsumed(v, s, t) {
        NoLeaks(v, s.resting, AllocateStep(s.resting, t, NextStep(v, s, t), v.ppm), t);
      }
    }
  }

  /** The exact drop of `available` over `advance`, the one call that fills resting orders: one
      cent for each leak, all judged on the book before the call.  It is balance-neutral if and
      only if no resting order will leak. */
  lemma AdvanceCostsItsLeaks(v: Venue, ops: seq<Op>)
    requires ValidVenue(v)
    ensures var s := Run(v, ops);
            var drop := AvailableBalance(v, s) - AvailableBalance(v, Run(v, ops + [Advance]));
            && drop == AdvanceLeaks(v, s, v.recording.tickers) * MICROS_PER_CENT
            && drop >= 0
            && (drop == 0 <==> forall o :: o in s.resting ==> !WillLeak(v, s, o))
  {
    hide Run, AvailableBalance, Sound, AdvanceLeaks, Leak, AllocateStep, AdvanceAll;
    var s := Run(v, ops);
    RunIsSound(v, ops);
    RunExtends(v, ops, Advance);
    AdvanceCost(v, s, v.recording.tickers);
    NoMarketLeaks(v, s, v.recording.tickers);
  }

  // ---------------------------------------------------------------- a run that loses a cent

  /** One market: 80 bid at 5000, nothing offered, 20 printed at 4000, a quarter of the queue. */
  function LeakyVenue(): Venue
  {
    var step := Step(Book([Level(5_000, 80)], [], 0), [Print(4_000, 20, 1)]);
    Venue(Recording([0], map[0 := [step]]), FeeModel("quadratic", 70_000, 70_000, 0), map[], 0, 250_000, 0, 0)
  }

  const LEAKY_ORDER := OpenOrder(1, 0, Yes, 5_000, 100)

  const LEAKY_OPS := [Place(Intent(0, Yes, 5_000, 100))]

  lemma LeakyPlacement()
    ensures ValidVenue(LeakyVenue())
    ensures Run(LeakyVenue(), LEAKY_OPS) == Account(map[0 := 0], [LEAKY_ORDER], [LEAKY_ORDER], [], 1, 0)
  {
    hide PlaceAt;
    var v, intent := LeakyVenue(), Intent(0, Yes, 5_000, 100);
    RunExtends(v, [], Place(intent));
    assert [] + [Place(intent)] == LEAKY_OPS;
    BareSideRests(v, Initial(v), intent, v.recording.sessions[0][0]);
  }

  lemma LeakyAllocation()
    ensures var v := LeakyVenue();
            AllocateStep([LEAKY_ORDER], 0, v.recording.sessions[0][0], v.ppm)[1] == 20
  {
    hide AllocateStep, Allocate;
    var v, o := LeakyVenue(), LEAKY_ORDER;
    var step := v.recording.sessions[0][0];
    assert [o][1..] == [] && SideOrders([o], 0, Yes) == [o];
    OnlyOrderFill([o], 0, step, v.ppm, o);
    assert step.book.yesBids[1..] == [];
    assert DepthAtOrAbove(step.book.yesBids, 5_000) == 80 && ParticipationCap(80, 250_000) == 20;
    assert Below(step.trades, 5_000) == [20] && [20][1..] == [];
    assert VolumeBelow(step.trades, 5_000) == 20;
  }

  /** A lone order's pass is its own turn. */
  lemma LonePass(v: Venue, o: OpenOrder, filled: map<nat, int>, step: Step, seqNo: nat)
    requires o.id in filled && filled[o.id] > 0
    ensures Covers([o], filled, o.ticker)
    ensures FillOrders([o], filled, o.ticker, step, seqNo).fills == [RestingFill(o, step, filled[o.id], seqNo)]
    ensures Leaks(v, [o], filled, o.ticker) == Leak(v, o, filled[o.id])
    ensures FillQuantity([RestingFill(o, step, filled[o.id], seqNo)]) == filled[o.id]
  {
    hide Leak;
    assert [o][1..] == [];
    assert FillOrders([], filled, o.ticker, step, seqNo + 1) == Pass([], []);
    assert [RestingFill(o, step, filled[o.id], seqNo)][1..] == [];
  }

  lemma LeakyOrderLeaks()
    ensures Leak(LeakyVenue(), LEAKY_ORDER, 20) == 1
  {}

  /** A resting fill at its own limit can move `available`: on this run 20 of 100 contracts fill
      and a cent is gone. */
  lemma PartialFillCanLeak()
    ensures var v, s, r := LeakyVenue(), Run(LeakyVenue(), LEAKY_OPS), Run(LeakyVenue(), LEAKY_OPS + [Advance]);
            && ValidVenue(v) && s.resting == [LEAKY_ORDER] && FillQuantity(r.fills) == 20
            && AvailableBalance(v, r) == AvailableBalance(v, s) - MICROS_PER_CENT
  {
    hide Run, AllocateStep, ValidVenue, AvailableBalance, Leak, Sound, FillOrders, Leaks, FillQuantity;
    var v, o := LeakyVenue(), LEAKY_ORDER;
    LeakyPlacement();
    LeakyAllocation();
    LeakyOrderLeaks();
    RunIsSound(v, LEAKY_OPS);
    RunExtends(v, LEAKY_OPS, Advance);
    var s, step := Run(v, LEAKY_OPS), v.recording.sessions[0][0];
    LoneMarketAdvance(v, s, 0);
    TickerCost(v, s, 0);
    LonePass(v, o, AllocateStep([o], 0, step, v.ppm), step, s.fillSeq);
    assert [] + StepPass(s, 0, step, v.ppm).fills == StepPass(s, 0, step, v.ppm).fills;
  }

  lemma {:induction false} AdvanceIsNearNeutral(v: Venue, s: Account, tickers: seq<Ticker>)
    requires ValidVenue(v) && Sound(s) && Priced(s)
    ensures var r := AdvanceAll(v, s, tickers);
            var partial := (|r.fills| - |s.fills|) - (|s.resting| - |r.resting|);
            && partial >= 0
            && TotalBalance(v, r) <= TotalBalance(v, s)
            && 0 <= AvailableBalance(v, s) - AvailableBalance(v, r) <= partial * MICROS_PER_CENT
  {
    if tickers != [] {
      var last := |tickers| - 1;
      AdvanceIsNearNeutral(v, s, tickers[..last]);
      AdvanceKeepsSound(v, s, tickers[..last]);
      AdvanceKeepsPriced(v, s, tickers[..last]);
      TickerIsNearNeutral(v, AdvanceAll(v, s, tickers[..last]), tickers[last]);
    }
  }

  lemma TickerIsNearNeutral(v: Venue, s: Account, ticker: Ticker)
    requires ValidVenue(v) && Sound(s) && Priced(s)
    ensures var r := AdvanceTicker(v, s, ticker);
            var partial := (|r.fills| - |s.fills|) - (|s.resting| - |r.resting|);
            && partial >= 0
            && TotalBalance(v, r) <= TotalBalance(v, s)
            && 0 <= AvailableBalance(v, s) - AvailableBalance(v, r) <= partial * MICROS_PER_CENT
  {
    if Unconsumed(v, s, ticker) {
      var step := v.recording.sessions[ticker][s.cursor[ticker]];
      var filled := AllocateStep(s.resting, ticker, step, v.ppm);
      StepFits(s, ticker, step, v.ppm);
      PassCostsItsLeaks(v, s.resting, filled, ticker, step, s.fillSeq);
      PassKeepsSizes(s.resting, filled, ticker, step, s.fillSeq);
      PassIsPriced(s, ticker, step, v.ppm);
      SpentNonNegative(v, StepPass(s, ticker, step, v.ppm).fills);
      SpentAppend(v, s.fills, StepPass(s, ticker, step, v.ppm).fills);
    }
  }

  lemma PassIsPriced(s: Account, ticker: Ticker, step: Step, ppm: int)
    requires Numbered(s) && Priced(s)
    ensures forall f :: f in StepPass(s, ticker, step, ppm).fills ==> ValidPrice(f.price)
  {
    PricesAreValid(s);
    PassKeepsTerms(s.resting, AllocateStep(s.resting, ticker, step, ppm), ticker, step, s.fillSeq);
  }

  lemma PlaceOnlySpends(v: Venue, s: Account, intent: Intent, step: Step)
    requires ValidVenue(v) && Sound(s) && Priced(s) && ValidStep(step) && ValidPrice(intent.price)
    ensures var r := PlaceAt(v, s, intent, step);
            TotalBalance(v, r) <= TotalBalance(v, s) && AvailableBalance(v, r) <= AvailableBalance(v, s)
  {
    var r := PlaceAt(v, s, intent, step);
    PlaceKeepsSound(v, s, intent, step);
    PlaceKeepsPriced(v, s, intent, step);
    PricesAreValid(r);
    var fills := r.fills[|s.fills|..];
    assert r.fills == s.fills + fills;
    SpentAppend(v, s.fills, fills);
    SpentNonNegative(v, fills);
    if |r.resting| > |s.resting| {
      var order := r.resting[|s.resting|];
      assert order in r.resting && r.resting == s.resting + [order];
      ReservedAppend(v, s.resting, [order]);
      assert Reserved(v, [order]) == Cash(v, order.ticker, order.price, order.quantity) by {
        assert [order][1..] == [];
      }
      CashNonNegative(v, order.ticker, order.price, order.quantity);
    }
  }

  /** The cash withheld under one order id. */
  function ReservedFor(v: Venue, resting: seq<OpenOrder>, id: nat): int
  {
    if resting == [] then 0
    else (if resting[0].id == id then Cash(v, resting[0].ticker, resting[0].price, resting[0].quantity) else 0)
         + ReservedFor(v, resting[1..], id)
  }

  lemma {:induction false} CancelReleases(v: Venue, resting: seq<OpenOrder>, id: nat)
    ensures Reserved(v, RestingWithout(resting, id)) == Reserved(v, resting) - ReservedFor(v, resting, id)
  {
    if resting != [] { CancelReleases(v, resting[1..], id); }
  }

  /** From any reachable state: `total` never rises; only a cancel can raise `available`, by
      exactly the cancelled reservation; an advance lowers it by at most one cent for each order
      it leaves part-filled, and not at all when every fill completes its order. */
  lemma BalancesMoveAsPromised(v: Venue, ops: seq<Op>, op: Op)
    requires ValidVenue(v) && ValidOps(ops) && ValidOp(op)
    ensures var s := Run(v, ops);
            var r := Apply(v, s, op);
            && TotalBalance(v, r) <= TotalBalance(v, s)
            && (op.Cancel? ==> TotalBalance(v, r) == TotalBalance(v, s)
                               && AvailableBalance(v, r) == AvailableBalance(v, s) + ReservedFor(v, s.resting, op.id))
            && (!op.Cancel? ==> AvailableBalance(v, r) <= AvailableBalance(v, s))
            && (op.Advance? ==> var partial := (|r.fills| - |s.fills|) - (|s.resting| - |r.resting|);
                                AvailableBalance(v, s) - AvailableBalance(v, r) <= partial * MICROS_PER_CENT)
  {
    hide PlaceAt, AdvanceAll, RestingWithout, Cash;
    var s := Run(v, ops);
    RunIsSound(v, ops);
    RunIsPriced(v, ops);
    match op
    case Place(intent) =>
      var step := CurrentStep(v, s, intent.ticker);
      CurrentStepIsValid(v, s, intent.ticker);
      if step.Ok? { PlaceOnlySpends(v, s, intent, step.value); }
    case Cancel(id) => CancelReleases(v, s.resting, id);
    case Advance => AdvanceIsNearNeutral(v, s, v.recording.tickers);
  }

  // ---------------------------------------------------------------- one order's cost, slice by slice

  function SlicesFor(fills: seq<Fill>, id: nat): seq<int>
  {
    if fills == [] then []
    else (if fills[0].orderId == Some(id) then [fills[0].quantity] else []) + SlicesFor(fills[1..], id)
  }

  function PiecesFor(resting: seq<OpenOrder>, id: nat): seq<int>
  {
    if resting == [] then []
    else (if resting[0].id == id then [resting[0].quantity] else []) + PiecesFor(resting[1..], id)
  }

  /** The cash spent under one order id. */
  function CashFor(v: Venue, fills: seq<Fill>, id: nat): int
  {
    if fills == [] then 0
    else (if fills[0].orderId == Some(id) then Cash(v, fills[0].ticker, fills[0].price, fills[0].quantity) else 0)
         + CashFor(v, fills[1..], id)
  }

  lemma {:induction false} FeeOfSlicesAppend(fm: FeeModel, price: int, a: seq<int>, b: seq<int>)
    ensures FeeOfSlices(fm, price, a + b) == FeeOfSlices(fm, price, a) + FeeOfSlices(fm, price, b)
  {
    if a == [] {
      assert a + b == b;
    } else {
      assert (a + b)[1..] == a[1..] + b;
      FeeOfSlicesAppend(fm, price, a[1..], b);
    }
  }

  lemma {:induction false} CashIsSliced(v: Venue, fills: seq<Fill>, o: OpenOrder)
    requires forall f :: f in fills && f.orderId == Some(o.id) ==> FillOf(f, o)
    ensures var slices := SlicesFor(fills, o.id);
            && Sum(slices) == FilledFor(fills, o.id)
            && CashFor(v, fills, o.id) == o.price * Sum(slices) + FeeOfSlices(FeesFor(v, o.ticker), o.price, slices)
  {
    hide TradingFee;
    if fills != [] {
      CashIsSliced(v, fills[1..], o);
      if fills[0].orderId == Some(o.id) {
        var q, rest := fills[0].quantity, SlicesFor(fills[1..], o.id);
        assert fills[0] in fills;
        assert ([q] + rest)[1..] == rest;
        Distribute(o.price, q, Sum(rest));
      } else {
        assert SlicesFor(fills, o.id) == SlicesFor(fills[1..], o.id);
      }
    }
  }

  lemma {:induction false} ReservationIsSliced(v: Venue, resting: seq<OpenOrder>, o: OpenOrder)
    requires forall r :: r in resting && r.id == o.id ==> SameTerms(r, o)
    ensures var pieces := PiecesFor(resting, o.id);
            && Sum(pieces) == RestingFor(resting, o.id)
            && ReservedFor(v, resting, o.id)
                == o.price * Sum(pieces) + FeeOfSlices(FeesFor(v, o.ticker), o.price, pieces)
  {
    hide TradingFee;
    if resting != [] {
      ReservationIsSliced(v, resting[1..], o);
      if resting[0].id == o.id {
        var q, rest := resting[0].quantity, PiecesFor(resting[1..], o.id);
        assert resting[0] in resting;
        assert ([q] + rest)[1..] == rest;
        Distribute(o.price, q, Sum(rest));
      } else {
        assert PiecesFor(resting, o.id) == PiecesFor(resting[1..], o.id);
      }
    }
  }

  /** The cost of a quantity split into slices, against the cost of the whole. */
  lemma SlicedCost(v: Venue, o: OpenOrder, a: seq<int>, b: seq<int>)
    requires a + b != []
    ensures var fm := FeesFor(v, o.ticker);
            var whole := Cash(v, o.ticker, o.price, Sum(a) + Sum(b));
            whole <= (o.price * Sum(a) + FeeOfSlices(fm, o.price, a)) + (o.price * Sum(b) + FeeOfSlices(fm, o.price, b))
                  <= whole + (|a + b| - 1) * MICROS_PER_CENT
  {
    hide TradingFee, FeeOfSlices, Sum;
    var fm := FeesFor(v, o.ticker);
    var whole := TradingFee(fm, o.price, Sum(a) + Sum(b));
    assert whole <= FeeOfSlices(fm, o.price, a) + FeeOfSlices(fm, o.price, b)
        <= whole + (|a + b| - 1) * MICROS_PER_CENT by {
      SumAppend(a, b);
      FeeOfSlicesAppend(fm, o.price, a, b);
      SlicedFeeBound(fm, o.price, a + b);
    }
    Distribute(o.price, Sum(a), Sum(b));
  }

  lemma Distribute(p: int, a: int, b: int)
    ensures p * (a + b) == p * a + p * b
  {}

  lemma TermsOfOrder(s: Account, id: nat)
    requires Numbered(s) && 1 <= id <= |s.rested|
    ensures forall f :: f in s.fills && f.orderId == Some(id) ==> FillOf(f, s.rested[id - 1])
    ensures forall r :: r in s.resting && r.id == id ==> SameTerms(r, s.rested[id - 1])
  {}

  ghost predicate CostWithinSlices(v: Venue, s: Account, id: nat, cancelled: int)
    requires 1 <= id <= |s.rested|
  {
    var o := s.rested[id - 1];
    var kept := Cash(v, o.ticker, o.price, o.quantity - cancelled);
    var slices := SlicesFor(s.fills, id) + PiecesFor(s.resting, id);
    var cost := CashFor(v, s.fills, id) + ReservedFor(v, s.resting, id);
    slices != [] ==> kept <= cost <= kept + (|slices| - 1) * MICROS_PER_CENT
  }

  lemma OrderCostAt(v: Venue, s: Account, id: nat, cancelled: int)
    requires Numbered(s) && 1 <= id <= |s.rested|
    requires s.rested[id - 1].quantity == FilledFor(s.fills, id) + RestingFor(s.resting, id) + cancelled
    ensures CostWithinSlices(v, s, id, cancelled)
  {
    TermsOfOrder(s, id);
    var o := s.rested[id - 1];
    CashIsSliced(v, s.fills, o);
    ReservationIsSliced(v, s.resting, o);
    var a, b := SlicesFor(s.fills, id), PiecesFor(s.resting, id);
    if a + b != [] { SlicedCost(v, o, a, b); }
  }

  /** In every reachable state, what an order has spent and still withholds together is at least
      the reservation of the contracts it kept, and above it by at most one cent for every slice
      after the first: zero for a single slice, up to k - 1 cents for k slices. */
  lemma OrderCostIsBounded(v: Venue, ops: seq<Op>, id: nat)
    requires ValidVenue(v) && 1 <= id <= |Run(v, ops).rested|
    ensures CostWithinSlices(v, Run(v, ops), id, CancelledFor(v, ops, id))
  {
    RunIsNumbered(v, ops);
    OrderIsConserved(v, ops, id);
    OrderCostAt(v, Run(v, ops), id, CancelledFor(v, ops, id));
  }

  /** Per-order cost, order 1 first. */
  function OrderCosts(v: Venue, s: Account): (r: seq<int>)
    ensures |r| == s.orderSeq
    ensures forall k :: 0 <= k < s.orderSeq ==> r[k] == CashFor(v, s.fills, k + 1) + ReservedFor(v, s.resting, k + 1)
  {
    seq(s.orderSeq, k requires 0 <= k < s.orderSeq => CashFor(v, s.fills, k + 1) + ReservedFor(v, s.resting, k + 1))
  }

  lemma {:induction false} CostsByOrder(v: Venue, fills: seq<Fill>, resting: seq<OpenOrder>, n: nat, costs: seq<int>)
    requires forall k :: 0 <= k < |fills| && fills[k].orderId.Some? ==> 1 <= fills[k].orderId.value <= n
    requires forall k :: 0 <= k < |resting| ==> 1 <= resting[k].id <= n
    requires |costs| == n && forall k :: 0 <= k < n ==>
        costs[k] == CashFor(v, fills, k + 1) + ReservedFor(v, resting, k + 1)
    ensures Sum(costs) == RestingCash(v, fills) + Reserved(v, resting)
    decreases |fills| + |resting|
  {
    hide Cash;
    if fills != [] {
      var f, rest := fills[0], fills[1..];
      var without := seq(n, k requires 0 <= k < n => CashFor(v, rest, k + 1) + ReservedFor(v, resting, k + 1));
      CostsByOrder(v, rest, resting, n, without);
      if f.orderId.Some? {
        var i := f.orderId.value - 1;
        assert costs == without[i := costs[i]];
        SumUpdate(without, i, costs[i]);
      } else {
        assert costs == without;
      }
    } else if resting != [] {
      var o, rest := resting[0], resting[1..];
      var without := seq(n, k requires 0 <= k < n => CashFor(v, fills, k + 1) + ReservedFor(v, rest, k + 1));
      CostsByOrder(v, fills, rest, n, without);
      assert costs == without[o.id - 1 := costs[o.id - 1]];
      SumUpdate(without, o.id - 1, costs[o.id - 1]);
    } else {
      AllZero(costs);
    }
  }

  /** `available` is the opening figure less the taker walks less each order's own cost, so an
      order filled in one slice moves it exactly as its reservation already had. */
  lemma AvailableByOrder(v: Venue, ops: seq<Op>)
    ensures var s := Run(v, ops);
            AvailableBalance(v, s) == v.openingAvailable - WalkedCash(v, ops) - Sum(OrderCosts(v, s))
  {
    var s := Run(v, ops);
    RunIsNumbered(v, ops);
    LedgerEqualsWalk(v, ops);
    forall k | 0 <= k < |s.fills| && s.fills[k].orderId.Some? ensures 1 <= s.fills[k].orderId.value <= s.orderSeq {
      assert FillExplained(s.rested, s.fills[k]);
    }
    forall k | 0 <= k < |s.resting| ensures 1 <= s.resting[k].id <= s.orderSeq {
      assert Arrived(s.rested, s.resting[k]);
    }
    CostsByOrder(v, s.fills, s.resting, s.orderSeq, OrderCosts(v, s));
  }
}
