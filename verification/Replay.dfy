/** The replay timeline: anchoring a recording, counting its steps, and the venue clock
    (windbreak/connector/paper.py). */
module Replay {
  import opened Numeric
  import opened TakerWalk
  import opened Sorting
  import opened RestingAllocation
  import opened PaperModel
  import opened PaperInvariant
  import opened PaperSafety

  // ---------------------------------------------------------------- origin and end

  function StepInstants(steps: seq<Step>): (r: seq<int>)
    ensures |r| == |steps| && forall k :: 0 <= k < |steps| ==> r[k] == steps[k].book.fetchedAt
  {
    seq(|steps|, k requires 0 <= k < |steps| => steps[k].book.fetchedAt)
  }

  /** Every recorded book instant, ticker by ticker. */
  function Instants(sessions: map<Ticker, seq<Step>>, tickers: seq<Ticker>): seq<int>
  {
    if tickers == [] then []
    else (if tickers[0] in sessions then StepInstants(sessions[tickers[0]]) else []) + Instants(sessions, tickers[1..])
  }

  function Least(s: seq<int>): (r: int)
    requires s != []
    ensures r in s && forall x :: x in s ==> r <= x
  {
    assert s == [s[0]] + s[1..];
    if |s| == 1 then s[0] else Min(s[0], Least(s[1..]))
  }

  function Greatest(s: seq<int>): (r: int)
    requires s != []
    ensures r in s && forall x :: x in s ==> x <= r
  {
    assert s == [s[0]] + s[1..];
    if |s| == 1 then s[0] else Max(s[0], Greatest(s[1..]))
  }

  function RecordingOrigin(r: Recording): Option<int>
  {
    var instants := Instants(r.sessions, r.tickers);
    if instants == [] then None else Some(Least(instants))
  }

  function RecordingEnd(r: Recording): Option<int>
  {
    var instants := Instants(r.sessions, r.tickers);
    if instants == [] then None else Some(Greatest(instants))
  }

  ghost predicate RecordsAt(r: Recording, t: int)
  {
    exists ticker, k :: ticker in r.tickers && ticker in r.sessions && 0 <= k < |r.sessions[ticker]|
                        && r.sessions[ticker][k].book.fetchedAt == t
  }

  lemma {:induction false} InstantsAreBooks(sessions: map<Ticker, seq<Step>>, tickers: seq<Ticker>, t: int)
    ensures t in Instants(sessions, tickers) <==> RecordsAt(Recording(tickers, sessions), t)
  {
    var r := Recording(tickers, sessions);
    if tickers != [] {
      var head, rest := tickers[0], tickers[1..];
      InstantsAreBooks(sessions, rest, t);
      assert tickers == [head] + rest;
      if t in Instants(sessions, tickers) {
        if t in Instants(sessions, rest) {
          var ticker, k :| ticker in rest && ticker in sessions && 0 <= k < |sessions[ticker]|
              && sessions[ticker][k].book.fetchedAt == t;
          assert ticker in tickers;
        } else {
          var own := StepInstants(sessions[head]);
          var k :| 0 <= k < |own| && own[k] == t;
          assert head in tickers && sessions[head][k].book.fetchedAt == t;
        }
      }
      if RecordsAt(r, t) {
        var ticker, k :| ticker in tickers && ticker in sessions && 0 <= k < |sessions[ticker]|
            && sessions[ticker][k].book.fetchedAt == t;
        if ticker == head {
          assert StepInstants(sessions[head])[k] == t;
        } else {
          assert ticker in rest;
        }
      }
    }
  }

  /** The origin is the earliest recorded book and the end the latest; both are absent exactly
      when nothing was recorded. */
  lemma OriginAndEnd(r: Recording)
    ensures match RecordingOrigin(r) case None => forall t :: !RecordsAt(r, t)
                                     case Some(o) => RecordsAt(r, o) && forall t :: RecordsAt(r, t) ==> o <= t
    ensures match RecordingEnd(r) case None => forall t :: !RecordsAt(r, t)
                                  case Some(e) => RecordsAt(r, e) && forall t :: RecordsAt(r, t) ==> t <= e
  {
    var instants := Instants(r.sessions, r.tickers);
    assert r == Recording(r.tickers, r.sessions);
    forall t ensures t in instants <==> RecordsAt(r, t) { InstantsAreBooks(r.sessions, r.tickers, t); }
  }

  // ---------------------------------------------------------------- anchoring

  function ReplayOffset(r: Recording, anchor: Option<int>): Option<int>
  {
    match (anchor, RecordingOrigin(r))
    case (Some(a), Some(o)) => Some(a - o)
    case _ => None
  }

  function ShiftPrints(prints: seq<Print>, offset: int): (r: seq<Print>)
    ensures |r| == |prints| && forall k :: 0 <= k < |prints| ==> r[k] == prints[k].(ts := prints[k].ts + offset)
  {
    seq(|prints|, k requires 0 <= k < |prints| => prints[k].(ts := prints[k].ts + offset))
  }

  function ShiftStep(step: Step, offset: int): Step
  {
    Step(step.book.(fetchedAt := step.book.fetchedAt + offset), ShiftPrints(step.trades, offset))
  }

  function ShiftSteps(steps: seq<Step>, offset: int): (r: seq<Step>)
    ensures |r| == |steps| && forall k :: 0 <= k < |steps| ==> r[k] == ShiftStep(steps[k], offset)
  {
    seq(|steps|, k requires 0 <= k < |steps| => ShiftStep(steps[k], offset))
  }

  function ShiftRecording(r: Recording, offset: int): (q: Recording)
    ensures q.tickers == r.tickers && q.sessions.Keys == r.sessions.Keys
    ensures forall t :: t in r.sessions ==> q.sessions[t] == ShiftSteps(r.sessions[t], offset)
  {
    Recording(r.tickers, map t | t in r.sessions :: ShiftSteps(r.sessions[t], offset))
  }

  function AnchorSessions(r: Recording, offset: Option<int>): Recording
  {
    if offset.None? then r else ShiftRecording(r, offset.value)
  }

  /** A market's calendar; the rest of the document is carried along unchanged. */
  datatype Market = Market(closeTime: int, expectedResolution: Option<int>)

  function AnchorMarkets(markets: map<Ticker, Market>, offset: Option<int>): (r: map<Ticker, Market>)
    ensures r.Keys == markets.Keys
  {
    if offset.None? then markets else map t | t in markets :: ShiftMarket(markets[t], offset.value)
  }

  function ShiftMarket(m: Market, offset: int): Market
  {
    Market(m.closeTime + offset, if m.expectedResolution.None? then None else Some(m.expectedResolution.value + offset))
  }

  lemma ShiftMovesInstants(r: Recording, offset: int, t: int)
    ensures RecordsAt(ShiftRecording(r, offset), t + offset) <==> RecordsAt(r, t)
  {}

  /** An anchored recording starts on its anchor and spans exactly what it spanned. */
  lemma AnchorLeads(r: Recording, anchor: int)
    requires RecordingOrigin(r).Some?
    ensures var q := AnchorSessions(r, ReplayOffset(r, Some(anchor)));
            && RecordingOrigin(q) == Some(anchor)
            && RecordingEnd(q) == Some(anchor + (RecordingEnd(r).value - RecordingOrigin(r).value))
  {
    hide RecordingOrigin, RecordingEnd, ShiftRecording, RecordsAt;
    var offset := anchor - RecordingOrigin(r).value;
    var q := ShiftRecording(r, offset);
    OriginAndEnd(r);
    OriginAndEnd(q);
    var o, e := RecordingOrigin(r).value, RecordingEnd(r).value;
    ShiftMovesInstants(r, offset, o);
    ShiftMovesInstants(r, offset, e);
    var o', e' := RecordingOrigin(q).value, RecordingEnd(q).value;
    ShiftMovesInstants(r, offset, o' - offset);
    ShiftMovesInstants(r, offset, e' - offset);
  }

  /** The venue clock moves with the recording. */
  function AnchorClock(venueClock: int, offset: Option<int>): int
  {
    if offset.None? then venueClock else venueClock + offset.value
  }

  /** A name for every instant a recording holds. */
  datatype Mark =
    | BookMark(ticker: Ticker, step: nat)
    | PrintMark(ticker: Ticker, step: nat, index: nat)
    | ClockMark
    | CloseMark(market: Ticker)
    | ResolutionMark(market: Ticker)

  function InstantOf(r: Recording, markets: map<Ticker, Market>, venueClock: int, mark: Mark): Option<int>
  {
    match mark
    case BookMark(t, k) =>
      if t in r.sessions && k < |r.sessions[t]| then Some(r.sessions[t][k].book.fetchedAt) else None
    case PrintMark(t, k, j) =>
      if t in r.sessions && k < |r.sessions[t]| && j < |r.sessions[t][k].trades| then
        Some(r.sessions[t][k].trades[j].ts)
      else None
    case ClockMark => Some(venueClock)
    case CloseMark(m) => if m in markets then Some(markets[m].closeTime) else None
    case ResolutionMark(m) => if m in markets then markets[m].expectedResolution else None
  }

  /** Anchoring keeps every recorded instant, and the distance between any two of them, whether
      of books, prints, the venue clock or a market's calendar. */
  lemma AnchorKeepsDistances(r: Recording, markets: map<Ticker, Market>, venueClock: int, offset: Option<int>,
      x: Mark, y: Mark)
    ensures var q, calendar := AnchorSessions(r, offset), AnchorMarkets(markets, offset);
            var clock := AnchorClock(venueClock, offset);
            var x0, y0 := InstantOf(r, markets, venueClock, x), InstantOf(r, markets, venueClock, y);
            var x1, y1 := InstantOf(q, calendar, clock, x), InstantOf(q, calendar, clock, y);
            && x1.Some? == x0.Some?
            && (x0.Some? && y0.Some? ==> y1.Some? && x1.value - y1.value == x0.value - y0.value)
  {
    MarkMoves(r, markets, venueClock, offset, x);
    MarkMoves(r, markets, venueClock, offset, y);
  }

  lemma MarkMoves(r: Recording, markets: map<Ticker, Market>, venueClock: int, offset: Option<int>, x: Mark)
    ensures var was := InstantOf(r, markets, venueClock, x);
            InstantOf(AnchorSessions(r, offset), AnchorMarkets(markets, offset), AnchorClock(venueClock, offset), x)
            == if was.None? then None else Some(was.value + if offset.None? then 0 else offset.value)
  {}

  /** Anchoring keeps every recorded price and size. */
  lemma AnchorKeepsTape(r: Recording, offset: Option<int>, t: Ticker, k: nat)
    requires t in r.sessions && k < |r.sessions[t]|
    ensures var q := AnchorSessions(r, offset);
            && q.tickers == r.tickers && q.sessions.Keys == r.sessions.Keys && |q.sessions[t]| == |r.sessions[t]|
            && var was, now := r.sessions[t][k], q.sessions[t][k];
               && now.book.yesBids == was.book.yesBids && now.book.yesAsks == was.book.yesAsks
               && |now.trades| == |was.trades|
               && forall j :: 0 <= j < |was.trades| ==>
                    now.trades[j].price == was.trades[j].price && now.trades[j].quantity == was.trades[j].quantity
  {}

  lemma {:induction false} ConsumeIgnoresTime(pool: seq<Print>, order: seq<nat>, limit: int, amount: int, offset: int)
    requires forall k :: 0 <= k < |order| ==> order[k] < |pool|
    ensures ConsumeInOrder(ShiftPrints(pool, offset), order, limit, amount)
        == ShiftPrints(ConsumeInOrder(pool, order, limit, amount), offset)
    decreases |order|
  {
    hide ConsumeInOrder;
    ConsumeDone(pool, order, limit, amount);
    ConsumeDone(ShiftPrints(pool, offset), order, limit, amount);
    if order != [] && amount > 0 {
      var i := order[0];
      ConsumeUnfold(pool, order, limit, amount);
      ConsumeUnfold(ShiftPrints(pool, offset), order, limit, amount);
      if pool[i].price >= limit || pool[i].quantity <= 0 {
        ConsumeIgnoresTime(pool, order[1..], limit, amount, offset);
      } else {
        var take := Min(amount, pool[i].quantity);
        assert Reduced(ShiftPrints(pool, offset), i, take) == ShiftPrints(Reduced(pool, i, take), offset);
        ConsumeIgnoresTime(Reduced(pool, i, take), order[1..], limit, amount - take, offset);
      }
    }
  }

  lemma {:induction false} ClaimsIgnoreTime(requests: seq<Request>, order: seq<nat>, pool: seq<Print>, ppm: int,
      offset: int)
    requires forall k :: 0 <= k < |order| ==> order[k] < |requests|
    ensures ClaimInOrder(requests, order, ShiftPrints(pool, offset), ppm) == ClaimInOrder(requests, order, pool, ppm)
    decreases |order|
  {
    if order != [] {
      var q := requests[order[0]];
      var shifted := ShiftPrints(pool, offset);
      assert Below(shifted, q.limit) == Below(pool, q.limit);
      assert Prices(shifted) == Prices(pool);
      var fill := RestingFillQuantity(q, pool, ppm);
      ConsumeIgnoresTime(pool, DescendingOrder(Prices(pool), |pool|), q.limit, fill, offset);
      ClaimsIgnoreTime(requests, order[1..], Consume(pool, q.limit, fill), ppm, offset);
    }
  }

  lemma ShiftedFrame(side: Side, trades: seq<Print>, offset: int)
    ensures BuyFramePrints(side, ShiftPrints(trades, offset)) == ShiftPrints(BuyFramePrints(side, trades), offset)
  {}

  lemma AllocationIgnoresTime(resting: seq<OpenOrder>, ticker: Ticker, step: Step, ppm: int, offset: int)
    ensures AllocateStep(resting, ticker, ShiftStep(step, offset), ppm) == AllocateStep(resting, ticker, step, ppm)
  {
    SideIgnoresTime(resting, ticker, Yes, step, ppm, offset);
    SideIgnoresTime(resting, ticker, No, step, ppm, offset);
  }

  lemma SideIgnoresTime(resting: seq<OpenOrder>, ticker: Ticker, side: Side, step: Step, ppm: int, offset: int)
    ensures AllocateSide(resting, ticker, side, ShiftStep(step, offset), ppm)
        == AllocateSide(resting, ticker, side, step, ppm)
  {
    var orders := SideOrders(resting, ticker, side);
    var requests := RequestsOf(orders, step);
    assert RequestsOf(orders, ShiftStep(step, offset)) == requests;
    ShiftedFrame(side, step.trades, offset);
    ClaimsIgnoreTime(requests, Priority(requests), BuyFramePrints(side, step.trades), ppm, offset);
  }

  lemma {:induction false} StampMovesWithPrints(limit: int, prints: seq<Print>, offset: int)
    ensures var was, now := TradeThroughFillTs(limit, prints), TradeThroughFillTs(limit, ShiftPrints(prints, offset));
            now == if was.Ok? then Ok(was.value + offset) else was
  {
    if prints != [] {
      var last := |prints| - 1;
      assert ShiftPrints(prints, offset)[..last] == ShiftPrints(prints[..last], offset);
      StampMovesWithPrints(limit, prints[..last], offset);
    }
  }

  function ShiftFills(fills: seq<Fill>, offset: int): (r: seq<Fill>)
    ensures |r| == |fills| && forall k :: 0 <= k < |fills| ==> r[k] == fills[k].(ts := fills[k].ts + offset)
  {
    seq(|fills|, k requires 0 <= k < |fills| => fills[k].(ts := fills[k].ts + offset))
  }

  function ShiftAccount(s: Account, offset: int): Account
  {
    s.(fills := ShiftFills(s.fills, offset))
  }

  lemma FillMovesWithStep(o: OpenOrder, step: Step, quantity: int, seqNo: nat, offset: int)
    requires TradeThroughFillTs(o.price, BuyFramePrints(o.side, step.trades)).Ok?
    ensures [RestingFill(o, ShiftStep(step, offset), quantity, seqNo)]
        == ShiftFills([RestingFill(o, step, quantity, seqNo)], offset)
  {
    ShiftedFrame(o.side, step.trades, offset);
    StampMovesWithPrints(o.price, BuyFramePrints(o.side, step.trades), offset);
  }

  lemma {:induction false} PassMovesWithStep(resting: seq<OpenOrder>, filled: map<nat, int>, ticker: Ticker,
      step: Step, seqNo: nat, offset: int)
    requires Stampable(resting, filled, ticker, step)
    ensures var pass := FillOrders(resting, filled, ticker, step, seqNo);
            FillOrders(resting, filled, ticker, ShiftStep(step, offset), seqNo)
                == Pass(pass.survivors, ShiftFills(pass.fills, offset))
  {
    hide RestingFill, ShiftStep;
    if resting != [] {
      var o := resting[0];
      assert o in resting;
      if o.ticker != ticker || filled[o.id] <= 0 {
        PassMovesWithStep(resting[1..], filled, ticker, step, seqNo, offset);
      } else {
        PassMovesWithStep(resting[1..], filled, ticker, step, seqNo + 1, offset);
        FillMovesWithStep(o, step, filled[o.id], seqNo, offset);
        var fill, rest := RestingFill(o, step, filled[o.id], seqNo),
            FillOrders(resting[1..], filled, ticker, step, seqNo + 1).fills;
        assert ShiftFills([fill] + rest, offset) == ShiftFills([fill], offset) + ShiftFills(rest, offset);
      }
    }
  }

  lemma ShiftFillsAppend(a: seq<Fill>, b: seq<Fill>, offset: int)
    ensures ShiftFills(a + b, offset) == ShiftFills(a, offset) + ShiftFills(b, offset)
  {}

  lemma ProcessStepMoves(s: Account, ticker: Ticker, step: Step, ppm: int, offset: int)
    requires Sound(s) && ValidStep(step) && 0 <= ppm <= PPM_DENOMINATOR
    ensures ProcessStep(ShiftAccount(s, offset), ticker, ShiftStep(step, offset), ppm)
        == ShiftAccount(ProcessStep(s, ticker, step, ppm), offset)
  {
    hide ShiftStep;
    AllocationIgnoresTime(s.resting, ticker, step, ppm, offset);
    StepIsStampable(s, ticker, step, ppm);
    PassMovesWithStep(s.resting, AllocateStep(s.resting, ticker, step, ppm), ticker, step, s.fillSeq, offset);
    ShiftFillsAppend(s.fills, StepPass(s, ticker, step, ppm).fills, offset);
  }

  function ShiftVenue(v: Venue, offset: int): (w: Venue)
    ensures w.recording.sessions.Keys == v.recording.sessions.Keys
  {
    v.(recording := ShiftRecording(v.recording, offset))
  }

  lemma TickerMoves(v: Venue, s: Account, ticker: Ticker, offset: int)
    requires ValidVenue(v) && Sound(s)
    ensures AdvanceTicker(ShiftVenue(v, offset), ShiftAccount(s, offset), ticker)
        == ShiftAccount(AdvanceTicker(v, s, ticker), offset)
  {
    hide ProcessStep;
    if Unconsumed(v, s, ticker) {
      var step := v.recording.sessions[ticker][s.cursor[ticker]];
      assert ShiftVenue(v, offset).recording.sessions[ticker][s.cursor[ticker]] == ShiftStep(step, offset);
      ProcessStepMoves(s, ticker, step, v.ppm, offset);
    }
  }

  lemma {:induction false} AdvanceMoves(v: Venue, s: Account, tickers: seq<Ticker>, offset: int)
    requires ValidVenue(v) && Sound(s)
    ensures AdvanceAll(ShiftVenue(v, offset), ShiftAccount(s, offset), tickers)
        == ShiftAccount(AdvanceAll(v, s, tickers), offset)
  {
    if tickers != [] {
      var last := |tickers| - 1;
      AdvanceMoves(v, s, tickers[..last], offset);
      AdvanceKeepsSound(v, s, tickers[..last]);
      TickerMoves(v, AdvanceAll(v, s, tickers[..last]), tickers[last], offset);
    }
  }

  lemma PlaceMoves(v: Venue, s: Account, intent: Intent, step: Step, offset: int)
    ensures PlaceAt(ShiftVenue(v, offset), ShiftAccount(s, offset), intent, ShiftStep(step, offset))
        == ShiftAccount(PlaceAt(v, s, intent, step), offset)
  {
    hide Take;
    var walk := Walked(v, step, intent);
    var fills := TakerFills(intent, walk.consumed, step.book.fetchedAt, s.fillSeq);
    assert TakerFills(intent, walk.consumed, step.book.fetchedAt + offset, s.fillSeq) == ShiftFills(fills, offset);
    ShiftFillsAppend(s.fills, fills, offset);
  }

  lemma ApplyMoves(v: Venue, s: Account, op: Op, offset: int)
    requires ValidVenue(v) && Sound(s) && s.cursor.Keys == v.recording.sessions.Keys
    ensures Apply(ShiftVenue(v, offset), ShiftAccount(s, offset), op) == ShiftAccount(Apply(v, s, op), offset)
  {
    hide PlaceAt, AdvanceAll;
    match op
    case Place(intent) =>
      var step := CurrentStep(v, s, intent.ticker);
      if step.Ok? { PlaceMoves(v, s, intent, step.value, offset); }
    case Cancel(_) =>
    case Advance => AdvanceMoves(v, s, v.recording.tickers, offset);
  }

  /** A whole run against the anchored recording trades exactly as against the recorded one;
      every fill is dated by the one offset and nothing else differs. */
  lemma {:induction false} RunMovesWithAnchor(v: Venue, ops: seq<Op>, offset: int)
    requires ValidVenue(v)
    ensures Run(ShiftVenue(v, offset), ops) == ShiftAccount(Run(v, ops), offset)
  {
    if ops != [] {
      var before := ops[..|ops| - 1];
      RunMovesWithAnchor(v, before, offset);
      RunIsSound(v, before);
      ApplyMoves(v, Run(v, before), ops[|ops| - 1], offset);
    } else {
      assert ShiftFills([], offset) == [];
    }
  }

  // ---------------------------------------------------------------- consuming the recording

  function AdvanceCount(ops: seq<Op>): nat
  {
    if ops == [] then 0 else AdvanceCount(ops[..|ops| - 1]) + if ops[|ops| - 1].Advance? then 1 else 0
  }

  lemma {:induction false} AdvanceMovesCursors(v: Venue, s: Account, tickers: seq<Ticker>, t: Ticker)
    requires s.cursor.Keys == v.recording.sessions.Keys && t in s.cursor
    requires forall a, b :: 0 <= a < b < |tickers| ==> tickers[a] != tickers[b]
    ensures AdvanceAll(v, s, tickers).cursor[t] == s.cursor[t] + if t in tickers && Unconsumed(v, s, t) then 1 else 0
  {
    hide ProcessStep;
    if tickers != [] {
      var last := |tickers| - 1;
      AdvanceMovesCursors(v, s, tickers[..last], t);
      var mid := AdvanceAll(v, s, tickers[..last]);
      assert tickers == tickers[..last] + [tickers[last]];
      TickerMovesOneCursor(v, mid, tickers[last], t);
    }
  }

  lemma TickerMovesOneCursor(v: Venue, s: Account, ticker: Ticker, t: Ticker)
    requires t in s.cursor
    ensures AdvanceTicker(v, s, ticker).cursor[t] == s.cursor[t] + if t == ticker && Unconsumed(v, s, t) then 1 else 0
  {}

  /** Only an advance moves a cursor, and only up to the end of its session. */
  lemma OpMovesCursor(v: Venue, s: Account, op: Op, t: Ticker)
    requires ValidVenue(v) && s.cursor.Keys == v.recording.sessions.Keys && t in s.cursor
    ensures Apply(v, s, op).cursor[t] == s.cursor[t] + if op.Advance? && Unconsumed(v, s, t) then 1 else 0
  {
    hide AdvanceAll, Walked, TakerFills;
    if op.Advance? { AdvanceMovesCursors(v, s, v.recording.tickers, t); }
  }

  /** A cursor is the number of advances so far, clamped to the session's length. */
  lemma {:induction false} CursorCountsAdvances(v: Venue, ops: seq<Op>, t: Ticker)
    requires ValidVenue(v) && t in v.recording.sessions
    ensures Run(v, ops).cursor[t] == Min(AdvanceCount(ops), |v.recording.sessions[t]|)
  {
    hide Apply, ValidVenue;
    if ops != [] {
      var before := ops[..|ops| - 1];
      CursorCountsAdvances(v, before, t);
      OpMovesCursor(v, Run(v, before), ops[|ops| - 1], t);
    }
  }

  ghost predicate Exhausted(v: Venue, s: Account)
  {
    forall t :: t in v.recording.sessions ==> !Unconsumed(v, s, t)
  }

  /** The advances so far have covered every session. */
  ghost predicate Consumed(v: Venue, ops: seq<Op>)
  {
    forall t :: t in v.recording.sessions ==> |v.recording.sessions[t]| <= AdvanceCount(ops)
  }

  /** The recording is consumed exactly when the advances have covered its longest session. */
  lemma ExhaustedAfterLongest(v: Venue, ops: seq<Op>)
    requires ValidVenue(v)
    ensures Exhausted(v, Run(v, ops)) <==> Consumed(v, ops)
  {
    forall t | t in v.recording.sessions
      ensures Unconsumed(v, Run(v, ops), t) <==> AdvanceCount(ops) < |v.recording.sessions[t]|
    {
      CursorCountsAdvances(v, ops, t);
    }
  }

  /** What `advance` answers: whether some session it stepped has a step left. */
  predicate StepsRemain(v: Venue, s: Account, tickers: seq<Ticker>)
  {
    exists t :: t in tickers && Unconsumed(v, s, t) && s.cursor[t] + 1 < |v.recording.sessions[t]|
  }

  /** `advance` answers False exactly when the state it leaves is exhausted. */
  lemma AdvanceAnswersExhaustion(v: Venue, s: Account)
    requires ValidVenue(v) && s.cursor.Keys == v.recording.sessions.Keys
    ensures StepsRemain(v, s, v.recording.tickers) <==> !Exhausted(v, Apply(v, s, Advance))
  {
    var r := Apply(v, s, Advance);
    forall t | t in v.recording.sessions
      ensures Unconsumed(v, r, t) <==> Unconsumed(v, s, t) && s.cursor[t] + 1 < |v.recording.sessions[t]|
    {
      AdvanceMovesCursors(v, s, v.recording.tickers, t);
    }
    if !Exhausted(v, r) {
      var t :| t in v.recording.sessions && Unconsumed(v, r, t);
      assert t in v.recording.tickers && Unconsumed(v, s, t) && s.cursor[t] + 1 < |v.recording.sessions[t]|;
    }
  }
}
