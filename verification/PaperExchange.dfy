/** The paper exchange object (windbreak/connector/paper.py): the methods that update its resting
    book, logs and cursors in place, each proved to take the step `PaperModel` specifies. */
module PaperExchanges {
  import opened Numeric
  import opened Sums
  import opened Fees
  import opened TakerWalk
  import opened RestingAllocation
  import opened PaperModel
  import opened PaperRules
  import opened PaperInvariant
  import opened PaperSafety
  import opened PaperBalances
  import opened PaperPositions
  import opened Replay

  lemma AnchoringKeepsValid(v: Venue, offset: Option<int>)
    requires ValidVenue(v)
    ensures ValidVenue(v.(recording := AnchorSessions(v.recording, offset)))
  {}

  lemma Regroup(whole: Pass, done: Pass, now: Pass, turn: Pass, rest: Pass)
    requires whole == Pass(done.survivors + now.survivors, done.fills + now.fills)
    requires now == Pass(turn.survivors + rest.survivors, turn.fills + rest.fills)
    ensures whole == Pass((done.survivors + turn.survivors) + rest.survivors, (done.fills + turn.fills) + rest.fills)
  {}

  lemma StampableAt(resting: seq<OpenOrder>, i: nat, filled: map<nat, int>, ticker: Ticker, step: Step)
    requires i < |resting| && Stampable(resting, filled, ticker, step)
    ensures resting[i].ticker == ticker ==>
              resting[i].id in filled
              && (filled[resting[i].id] > 0 ==>
                  TradeThroughFillTs(resting[i].price, BuyFramePrints(resting[i].side, step.trades)).Ok?)
  {}

  lemma ProcessStepUnfolds(s: Account, ticker: Ticker, step: Step, ppm: int)
    ensures var pass := FillOrders(s.resting, AllocateStep(s.resting, ticker, step, ppm), ticker, step, s.fillSeq);
            ProcessStep(s, ticker, step, ppm)
            == Account(s.cursor, pass.survivors, s.rested, s.fills + pass.fills, s.orderSeq, s.fillSeq + |pass.fills|)
  {}

  lemma StepsRemainAppend(v: Venue, s: Account, tickers: seq<Ticker>, t: Ticker)
    ensures StepsRemain(v, s, tickers + [t])
       <==> StepsRemain(v, s, tickers) || (Unconsumed(v, s, t) && s.cursor[t] + 1 < |v.recording.sessions[t]|)
  {}

  lemma AssignExtends(orders: seq<OpenOrder>, shares: seq<int>, k: nat)
    requires |orders| == |shares| && k < |orders|
    ensures Assign(orders[..k + 1], shares[..k + 1]) == Assign(orders[..k], shares[..k])[orders[k].id := shares[k]]
  {
    assert orders[..k + 1][..k] == orders[..k] && shares[..k + 1][..k] == shares[..k];
  }

  /** Enter each order's share under its id. */
  method AssignInto(start: map<nat, int>, orders: seq<OpenOrder>, shares: seq<int>) returns (filled: map<nat, int>)
    requires |orders| == |shares|
    ensures filled == start + Assign(orders, shares)
  {
    hide Assign;
    filled := start;
    var k := 0;
    NothingAssigned();
    while k < |orders|
      invariant 0 <= k <= |orders|
      invariant filled == start + Assign(orders[..k], shares[..k])
    {
      AssignExtends(orders, shares, k);
      filled := filled[orders[k].id := shares[k]];
      k := k + 1;
    }
    assert orders[..k] == orders && shares[..k] == shares;
  }

  lemma NothingAssigned()
    ensures Assign([], []) == map[]
  {}

  lemma AdvanceAllExtends(v: Venue, s: Account, tickers: seq<Ticker>, i: nat)
    requires i < |tickers|
    ensures AdvanceAll(v, s, tickers[..i + 1]) == AdvanceTicker(v, AdvanceAll(v, s, tickers[..i]), tickers[i])
  {
    assert tickers[..i + 1][..i] == tickers[..i];
  }

  lemma TickerUnfolds(v: Venue, s: Account, ticker: Ticker)
    ensures AdvanceTicker(v, s, ticker)
         == if !Unconsumed(v, s, ticker) then s
            else ProcessStep(s, ticker, v.recording.sessions[ticker][s.cursor[ticker]], v.ppm)
                 .(cursor := s.cursor[ticker := s.cursor[ticker] + 1])
  {}

  lemma StepOfSession(v: Venue, ticker: Ticker, index: nat)
    requires ValidVenue(v) && ticker in v.recording.sessions && index < |v.recording.sessions[ticker]|
    ensures ValidStep(v.recording.sessions[ticker][index])
  {}

  lemma NothingRemainsYet(v: Venue, s: Account)
    ensures !StepsRemain(v, s, []) && AdvanceAll(v, s, []) == s
  {}

  lemma CursorsCoverTickers(v: Venue, ops: seq<Op>)
    requires ValidVenue(v)
    ensures forall k :: 0 <= k < |v.recording.tickers| ==>
              v.recording.tickers[k] in v.recording.sessions && v.recording.tickers[k] in Run(v, ops).cursor
  {}

  class PaperExchange {
    const venue: Venue
    const markets: map<Ticker, Market>
    const exchangeTime: int
    const substantiatedUntil: Option<int>
    var cursor: map<Ticker, nat>
    var resting: seq<OpenOrder>
    var rested: seq<OpenOrder>
    var fills: seq<Fill>
    var orderSeq: nat
    var fillSeq: nat
    /** Every call made so far. */
    ghost var ops: seq<Op>

    ghost function Snapshot(): Account
      reads this
    {
      Account(cursor, resting, rested, fills, orderSeq, fillSeq)
    }

    /** The object is where the transition system says its calls lead. */
    ghost predicate Valid()
      reads this
    {
      ValidVenue(venue) && Snapshot() == Run(venue, ops)
    }

    /** A flat account on step 0 of every session, re-dated when an anchor is given. */
    constructor (recorded: Venue, recordedMarkets: map<Ticker, Market>, venueClock: int, anchor: Option<int>)
      requires ValidVenue(recorded)
      ensures Valid() && ops == []
      ensures var offset := ReplayOffset(recorded.recording, anchor);
              && venue == recorded.(recording := AnchorSessions(recorded.recording, offset))
              && markets == AnchorMarkets(recordedMarkets, offset)
              && exchangeTime == AnchorClock(venueClock, offset)
      ensures substantiatedUntil == if anchor.None? then None else RecordingEnd(venue.recording)
    {
      var offset := ReplayOffset(recorded.recording, anchor);
      var anchored := AnchorSessions(recorded.recording, offset);
      AnchoringKeepsValid(recorded, offset);
      markets := AnchorMarkets(recordedMarkets, offset);
      venue := recorded.(recording := anchored);
      exchangeTime := AnchorClock(venueClock, offset);
      substantiatedUntil := if anchor.None? then None else RecordingEnd(anchored);
      cursor := map t | t in anchored.sessions :: 0;
      resting, rested, fills := [], [], [];
      orderSeq, fillSeq := 0, 0;
      ops := [];
    }

    // -------------------------------------------------------------- placing

    method EmitFill(ticker: Ticker, side: Side, price: int, quantity: int, ts: int, orderId: Option<nat>)
        returns (fill: Fill)
      modifies this`fillSeq, this`fills
      ensures fill == Fill(old(fillSeq) + 1, ticker, side, price, quantity, ts, orderId)
      ensures fillSeq == old(fillSeq) + 1 && fills == old(fills) + [fill]
    {
      fillSeq := fillSeq + 1;
      fill := Fill(fillSeq, ticker, side, price, quantity, ts, orderId);
      fills := fills + [fill];
    }

    method EmitTakerFills(intent: Intent, consumed: seq<Level>, fetchedAt: int) returns (emitted: seq<Fill>)
      modifies this`fillSeq, this`fills
      ensures emitted == TakerFills(intent, consumed, fetchedAt, old(fillSeq))
      ensures fills == old(fills) + emitted && fillSeq == old(fillSeq) + |emitted|
    {
      emitted := [];
      var i := 0;
      while i < |consumed|
        invariant 0 <= i <= |consumed|
        invariant emitted == TakerFills(intent, consumed, fetchedAt, old(fillSeq))[..i]
        invariant fills == old(fills) + emitted && fillSeq == old(fillSeq) + i
      {
        var fill := EmitFill(intent.ticker, intent.side, consumed[i].price, consumed[i].quantity, fetchedAt, None);
        emitted := emitted + [fill];
        i := i + 1;
      }
    }

    method RestTheRemainder(intent: Intent, remainder: int) returns (order: Option<OpenOrder>)
      modifies this`resting, this`rested, this`orderSeq
      ensures Snapshot() == RestRemainder(old(Snapshot()), intent, remainder)
      ensures order.Some? <==> remainder > 0
      ensures order.None? ==> resting == old(resting)
      ensures order.Some? ==>
                && resting == old(resting) + [order.value] && rested == old(rested) + [order.value]
                && order.value.quantity == remainder
    {
      if remainder <= 0 { return None; }
      orderSeq := orderSeq + 1;
      var rest := OpenOrder(orderSeq, intent.ticker, intent.side, intent.price, remainder);
      resting := resting + [rest];
      rested := rested + [rest];
      order := Some(rest);
    }

    /** Fill the crossing part now, rest what is left; refuse an unknown or empty session. */
    method PlaceOrder(intent: Intent) returns (r: Result<Placement, PaperError>)
      requires Valid()
      modifies this
      ensures Valid() && ops == old(ops) + [Place(intent)]
      ensures r.Ok? <==> intent.ticker in venue.recording.sessions && venue.recording.sessions[intent.ticker] != []
      ensures r.Err? ==> Snapshot() == old(Snapshot())
      ensures r.Ok? ==> fills == old(fills) + r.value.fills
      ensures r.Ok? ==>
                resting == old(resting) + (if r.value.restingOrder.Some? then [r.value.restingOrder.value] else [])
    {
      hide Run, Sound, ValidStep, Take, RestRemainder;
      ghost var before := Snapshot();
      RunIsSound(venue, ops);
      CurrentStepIsValid(venue, before, intent.ticker);
      RunExtends(venue, ops, Place(intent));
      ops := ops + [Place(intent)];
      if intent.ticker !in venue.recording.sessions { return Err(UnknownMarket); }
      var steps := venue.recording.sessions[intent.ticker];
      if steps == [] { return Err(EmptySession); }
      var step := steps[Min(cursor[intent.ticker], |steps| - 1)];
      TakerLevelsAreValid(intent.side, step.book);
      var walk := WalkTakerFill(TakerLevels(intent.side, step.book), intent.price, intent.quantity,
          FeesFor(venue, intent.ticker),
                                venue.haircutPpm, venue.ppm);
      var emitted := EmitTakerFills(intent, walk.consumed, step.book.fetchedAt);
      var order := RestTheRemainder(intent, intent.quantity - walk.filled);
      r := Ok(Placement(emitted, order));
      assert Snapshot() == PlaceAt(venue, before, intent, step);
    }

    /** Drop the resting order with this id; nothing happens if there is none. */
    method CancelOrder(id: nat)
      requires Valid()
      modifies this`resting, this`ops
      ensures Valid() && ops == old(ops) + [Cancel(id)]
      ensures resting == RestingWithout(old(resting), id)
    {
      hide Run, ValidVenue, RestingWithout;
      RunExtends(venue, ops, Cancel(id));
      ops := ops + [Cancel(id)];
      resting := RestingWithout(resting, id);
    }

    // -------------------------------------------------------------- advancing

    /** One side's allocation, written into the shared dictionary. */
    method AllocateSideFills(start: map<nat, int>, ticker: Ticker, side: Side, step: Step)
        returns (filled: map<nat, int>)
      ensures filled == start + AllocateSide(resting, ticker, side, step, venue.ppm)
    {
      var orders := SideOrders(resting, ticker, side);
      var shares := AllocateRestingFills(RequestsOf(orders, step), BuyFramePrints(side, step.trades), venue.ppm);
      filled := AssignInto(start, orders, shares);
    }

    /** YES first, then NO: each side has its own frame and shares its own volume pool. */
    method AllocateFills(ticker: Ticker, step: Step) returns (filled: map<nat, int>)
      ensures filled == AllocateStep(resting, ticker, step, venue.ppm)
    {
      filled := AllocateSideFills(map[], ticker, Yes, step);
      filled := AllocateSideFills(filled, ticker, No, step);
    }

    /** Emit one order's fill; the survivor, unless it is gone. */
    method ApplyRestingFill(order: OpenOrder, step: Step, filled: int) returns (survivor: Option<OpenOrder>)
      requires filled > 0 ==> TradeThroughFillTs(order.price, BuyFramePrints(order.side, step.trades)).Ok?
      modifies this`fillSeq, this`fills
      ensures filled <= 0 ==> survivor == Some(order) && fills == old(fills) && fillSeq == old(fillSeq)
      ensures filled > 0 ==>
                && fills == old(fills) + [RestingFill(order, step, filled, old(fillSeq))]
                && fillSeq == old(fillSeq) + 1
      ensures var left := order.quantity - filled;
              filled > 0 ==> survivor == if left <= 0 then None else Some(order.(quantity := left))
    {
      if filled <= 0 { return Some(order); }
      var ts := TradeThroughFillTs(order.price, BuyFramePrints(order.side, step.trades));
      var fill := EmitFill(order.ticker, order.side, order.price, filled, ts.value, Some(order.id));
      var remaining := order.quantity - filled;
      survivor := if remaining <= 0 then None else Some(order.(quantity := remaining));
    }

    method ProcessRestingFills(ticker: Ticker, step: Step)
      requires Sound(Snapshot()) && ValidStep(step) && 0 <= venue.ppm <= PPM_DENOMINATOR
      modifies this`resting, this`fillSeq, this`fills
      ensures Snapshot() == ProcessStep(old(Snapshot()), ticker, step, venue.ppm)
    {
      hide RestingFill, AllocateStep, Sound, ValidStep, Covers, FillOrders, Stampable, ProcessStep, TradeThroughFillTs;
      ghost var before := Snapshot();
      var filled := AllocateFills(ticker, step);
      StepIsStampable(before, ticker, step, venue.ppm);
      ghost var pass := FillOrders(resting, filled, ticker, step, fillSeq);
      ghost var done := Pass([], []);
      var survivors: seq<OpenOrder> := [];
      var i := 0;
      assert resting[0..] == resting;
      while i < |resting|
        invariant 0 <= i <= |resting| && resting == before.resting && Covers(resting[i..], filled, ticker)
        invariant survivors == done.survivors && fills == before.fills + done.fills
            && fillSeq == before.fillSeq + |done.fills|
        invariant var rest := FillOrders(resting[i..], filled, ticker, step, fillSeq);
                  pass == Pass(done.survivors + rest.survivors, done.fills + rest.fills)
      {
        var order := resting[i];
        PassUnfolds(resting, i, filled, ticker, step, fillSeq);
        StampableAt(resting, i, filled, ticker, step);
        ghost var turn := TurnOf(order, if order.ticker == ticker then filled[order.id] else 0, step, fillSeq);
        Regroup(pass, done, FillOrders(resting[i..], filled, ticker, step, fillSeq), turn,
                FillOrders(resting[i + 1..], filled, ticker, step, fillSeq + |turn.fills|));
        if order.ticker != ticker {
          survivors := survivors + [order];
        } else {
          var survivor := ApplyRestingFill(order, step, filled[order.id]);
          if survivor.Some? { survivors := survivors + [survivor.value]; }
        }
        done := Pass(done.survivors + turn.survivors, done.fills + turn.fills);
        i := i + 1;
      }
      assert resting[i..] == [];
      PassOverNothing(filled, ticker, step, fillSeq);
      resting := survivors;
      ProcessStepUnfolds(before, ticker, step, venue.ppm);
    }

    /** Consume every session's current step; False once nothing is left to consume. */
    method AdvanceAllSessions() returns (anyNext: bool)
      requires Valid()
      modifies this
      ensures Valid() && ops == old(ops) + [Advance]
      ensures anyNext <==> !Consumed(venue, ops)
    {
      hide ProcessStep, Sound, StepsRemain, ValidStep, Exhausted, AdvanceTicker, AdvanceAll, Run;
      ghost var before := Snapshot();
      RunIsSound(venue, ops);
      RunExtends(venue, ops, Advance);
      ops := ops + [Advance];
      var tickers := venue.recording.tickers;
      anyNext := false;
      NothingRemainsYet(venue, before);
      var i := 0;
      while i < |tickers|
        invariant 0 <= i <= |tickers| && ops == old(ops) + [Advance]
        invariant Snapshot() == AdvanceAll(venue, before, tickers[..i]) && Sound(Snapshot())
        invariant anyNext <==> StepsRemain(venue, before, tickers[..i])
      {
        var ticker := tickers[i];
        var steps := venue.recording.sessions[ticker];
        AdvanceAllExtends(venue, before, tickers, i);
        AdvanceMovesCursors(venue, before, tickers[..i], ticker);
        StepsRemainAppend(venue, before, tickers[..i], ticker);
        assert tickers[..i + 1] == tickers[..i] + [ticker];
        ghost var mid := Snapshot();
        TickerKeepsSound(venue, mid, ticker);
        TickerUnfolds(venue, mid, ticker);
        var index := cursor[ticker];
        if index < |steps| {
          StepOfSession(venue, ticker, index);
          ProcessRestingFills(ticker, steps[index]);
          cursor := cursor[ticker := index + 1];
          anyNext := anyNext || index + 1 < |steps|;
        }
        assert Snapshot() == AdvanceTicker(venue, mid, ticker);
        i := i + 1;
      }
      assert tickers[..i] == tickers;
      AdvanceAnswersExhaustion(venue, before);
      ExhaustedAfterLongest(venue, ops);
    }

    // -------------------------------------------------------------- reading

    /** Cash moved by the fills; the schedule refuses exactly when some fill's price is invalid. */
    method CashSpent() returns (spent: Result<int, FeeError>)
      requires Valid()
      ensures spent.Ok? <==> forall f :: f in fills ==> ValidPrice(f.price)
      ensures spent.Ok? ==> spent.value == Spent(venue, fills)
    {
      hide TradingFee, Run;
      RunIsSound(venue, ops);
      var sum := 0;
      var i := |fills|;
      while i > 0
        invariant 0 <= i <= |fills| && sum == Spent(venue, fills[i..])
        invariant forall k :: i <= k < |fills| ==> ValidPrice(fills[k].price)
      {
        i := i - 1;
        var f := fills[i];
        assert f in fills && fills[i..][1..] == fills[i + 1..];
        var fee := MaxTradingFeeMicros(FeesFor(venue, f.ticker), f.price, f.quantity);
        if fee.Err? { return Err(fee.error); }
        sum := sum + f.price * f.quantity + fee.value;
      }
      spent := Ok(sum);
    }

    /** Cash withheld by the resting orders, refused likewise. */
    method ReservedCash() returns (reserved: Result<int, FeeError>)
      requires Valid()
      ensures reserved.Ok? <==> forall o :: o in resting ==> ValidPrice(o.price)
      ensures reserved.Ok? ==> reserved.value == Reserved(venue, resting)
    {
      hide TradingFee, Run;
      RunIsSound(venue, ops);
      var sum := 0;
      var i := |resting|;
      while i > 0
        invariant 0 <= i <= |resting| && sum == Reserved(venue, resting[i..])
        invariant forall k :: i <= k < |resting| ==> ValidPrice(resting[k].price)
      {
        i := i - 1;
        var o := resting[i];
        assert o in resting && resting[i..][1..] == resting[i + 1..];
        var fee := MaxTradingFeeMicros(FeesFor(venue, o.ticker), o.price, o.quantity);
        if fee.Err? { return Err(fee.error); }
        sum := sum + o.price * o.quantity + fee.value;
      }
      reserved := Ok(sum);
    }

    /** Opening balances less what is spent, and for `available` less what is pledged; never
        refused after runs that place valid limits. */
    method GetBalances() returns (r: Result<(int, int), FeeError>)
      requires Valid()
      ensures r.Ok? ==> r.value == (TotalBalance(venue, Snapshot()), AvailableBalance(venue, Snapshot()))
      ensures r.Ok? <==> FeesPriceable(venue, Snapshot())
      ensures ValidOps(ops) ==>
                r == Ok((venue.openingTotal - Sum(FillsDue(venue, fills)),
                         venue.openingAvailable - Sum(FillsDue(venue, fills)) - Sum(OrdersDue(venue, resting))))
    {
      hide MaxTradingFeeMicros, Run, FillsDue, OrdersDue, Sum;
      FeesNeverRefuse(venue, ops);
      if ValidOps(ops) { BalancesAreRefolded(venue, ops); }
      var spent := CashSpent();
      if spent.Err? { return Err(spent.error); }
      var reserved := ReservedCash();
      if reserved.Err? { return Err(reserved.error); }
      r := Ok((venue.openingTotal - spent.value, venue.openingAvailable - spent.value - reserved.value));
    }

    method GetPositions() returns (r: Result<seq<Position>, Ticker>)
      requires Valid()
      ensures IsReport(fills, r)
    {
      RunIsSound(venue, ops);
      r := PaperPositions.GetPositions(fills);
    }

    /** The venue clock: refused exactly when the recording is consumed or an anchored run has
        outlived its last book. */
    method GetExchangeTime(now: int) returns (r: Option<int>)
      requires Valid()
      ensures r.None? <==> Consumed(venue, ops) || (substantiatedUntil.Some? && now > substantiatedUntil.value)
      ensures r.Some? ==> r.value == exchangeTime
    {
      var consumed := true;
      var tickers := venue.recording.tickers;
      CursorsCoverTickers(venue, ops);
      var i := 0;
      while i < |tickers|
        invariant 0 <= i <= |tickers|
        invariant consumed <==> forall k :: 0 <= k < i ==> !Unconsumed(venue, Snapshot(), tickers[k])
      {
        consumed := consumed && cursor[tickers[i]] >= |venue.recording.sessions[tickers[i]]|;
        i := i + 1;
      }
      assert consumed <==> Exhausted(venue, Snapshot()) by {
        if consumed {
          forall t | t in venue.recording.sessions ensures !Unconsumed(venue, Snapshot(), t) {
            assert t in tickers;
          }
        } else {
          var k :| 0 <= k < |tickers| && Unconsumed(venue, Snapshot(), tickers[k]);
          assert tickers[k] in venue.recording.sessions;
        }
      }
      ExhaustedAfterLongest(venue, ops);
      if consumed { return None; }
      if substantiatedUntil.Some? && now > substantiatedUntil.value { return None; }
      r := Some(exchangeTime);
    }
  }
}
