/** The paper exchange as a transition system over values: its state, and what one call of
    `place_order`, `cancel_order` and `advance` makes of it (windbreak/connector/paper.py). */
module PaperModel {
  import opened Numeric
  import opened Fees
  import opened TakerWalk
  import opened RestingAllocation

  const COMPLEMENT_PIPS := 10_000

  /** A market, named by its place in ticker order. */
  type Ticker = int

  datatype Side = Yes | No

  datatype Book = Book(yesBids: seq<Level>, yesAsks: seq<Level>, fetchedAt: int)

  datatype Step = Step(book: Book, trades: seq<Print>)

  datatype Intent = Intent(ticker: Ticker, side: Side, price: int, quantity: int)

  datatype OpenOrder = OpenOrder(id: nat, ticker: Ticker, side: Side, price: int, quantity: int)

  datatype Fill = Fill(id: nat, ticker: Ticker, side: Side, price: int, quantity: int, ts: int, orderId: Option<nat>)

  datatype Placement = Placement(fills: seq<Fill>, restingOrder: Option<OpenOrder>)

  datatype PaperError = UnknownMarket | EmptySession

  /** `tickers` is the iteration order of the session dictionary. */
  datatype Recording = Recording(tickers: seq<Ticker>, sessions: map<Ticker, seq<Step>>)

  datatype Venue = Venue(
    recording: Recording, defaultFees: FeeModel, fees: map<Ticker, FeeModel>, haircutPpm: int, ppm: int,
    openingTotal: int, openingAvailable: int)

  datatype Account = Account(
    cursor: map<Ticker, nat>, resting: seq<OpenOrder>, rested: seq<OpenOrder>, fills: seq<Fill>,
    orderSeq: nat, fillSeq: nat)

  // ---------------------------------------------------------------- the two frames

  function Complement(levels: seq<Level>): (r: seq<Level>)
    ensures |r| == |levels|
    ensures forall k :: 0 <= k < |levels| ==> r[k] == Level(COMPLEMENT_PIPS - levels[k].price, levels[k].quantity)
  {
    seq(|levels|, k requires 0 <= k < |levels| => Level(COMPLEMENT_PIPS - levels[k].price, levels[k].quantity))
  }

  function ComplementPrints(prints: seq<Print>): (r: seq<Print>)
    ensures |r| == |prints|
    ensures forall k :: 0 <= k < |prints| ==> r[k] == prints[k].(price := COMPLEMENT_PIPS - prints[k].price)
  {
    seq(|prints|, k requires 0 <= k < |prints| => prints[k].(price := COMPLEMENT_PIPS - prints[k].price))
  }

  /** The side a crossing order walks, as asks in its own frame. */
  function TakerLevels(side: Side, book: Book): seq<Level>
  {
    match side case Yes => book.yesAsks case No => Complement(book.yesBids)
  }

  /** The queue a resting order stands in, as bids in its own frame. */
  function QueueLevels(side: Side, book: Book): seq<Level>
  {
    match side case Yes => book.yesBids case No => Complement(book.yesAsks)
  }

  function BuyFramePrints(side: Side, trades: seq<Print>): seq<Print>
  {
    match side case Yes => trades case No => ComplementPrints(trades)
  }

  function DepthAtOrAbove(levels: seq<Level>, price: int): int
  {
    if levels == [] then 0
    else (if levels[0].price >= price then levels[0].quantity else 0) + DepthAtOrAbove(levels[1..], price)
  }

  // ---------------------------------------------------------------- cash

  function FeesFor(v: Venue, ticker: Ticker): FeeModel
  {
    if ticker in v.fees then v.fees[ticker] else v.defaultFees
  }

  /** Book cost plus the worst-case fee: what a fill spends and a resting order withholds. */
  function Cash(v: Venue, ticker: Ticker, price: int, quantity: int): int
  {
    price * quantity + TradingFee(FeesFor(v, ticker), price, quantity)
  }

  function Spent(v: Venue, fills: seq<Fill>): int
  {
    if fills == [] then 0
    else Cash(v, fills[0].ticker, fills[0].price, fills[0].quantity) + Spent(v, fills[1..])
  }

  function Reserved(v: Venue, resting: seq<OpenOrder>): int
  {
    if resting == [] then 0
    else Cash(v, resting[0].ticker, resting[0].price, resting[0].quantity) + Reserved(v, resting[1..])
  }

  function TotalBalance(v: Venue, s: Account): int
  {
    v.openingTotal - Spent(v, s.fills)
  }

  function AvailableBalance(v: Venue, s: Account): int
  {
    v.openingAvailable - Spent(v, s.fills) - Reserved(v, s.resting)
  }

  // ---------------------------------------------------------------- placing

  /** One fill record per consumed level, numbered after `seqNo`. */
  function TakerFills(intent: Intent, consumed: seq<Level>, ts: int, seqNo: nat): (r: seq<Fill>)
    ensures |r| == |consumed|
    ensures forall k :: 0 <= k < |consumed| ==>
      r[k] == Fill(seqNo + k + 1, intent.ticker, intent.side, consumed[k].price, consumed[k].quantity, ts, None)
  {
    seq(|consumed|, k requires 0 <= k < |consumed| =>
      Fill(seqNo + k + 1, intent.ticker, intent.side, consumed[k].price, consumed[k].quantity, ts, None))
  }

  /** The step a ticker's cursor stands on, clamped to the last one. */
  function CurrentStep(v: Venue, s: Account, ticker: Ticker): Result<Step, PaperError>
    requires s.cursor.Keys == v.recording.sessions.Keys
  {
    if ticker !in v.recording.sessions then Err(UnknownMarket)
    else
      var steps := v.recording.sessions[ticker];
      if steps == [] then Err(EmptySession)
      else Ok(steps[Min(s.cursor[ticker], |steps| - 1)])
  }

  function Walked(v: Venue, step: Step, intent: Intent): TakerFill
  {
    Take(TakerLevels(intent.side, step.book), intent.price, intent.quantity, FeesFor(v, intent.ticker), v.haircutPpm,
        v.ppm)
  }

  function RestRemainder(s: Account, intent: Intent, remainder: int): Account
  {
    if remainder <= 0 then s
    else
      var order := OpenOrder(s.orderSeq + 1, intent.ticker, intent.side, intent.price, remainder);
      s.(resting := s.resting + [order], rested := s.rested + [order], orderSeq := s.orderSeq + 1)
  }

  function PlaceAt(v: Venue, s: Account, intent: Intent, step: Step): Account
  {
    var walk := Walked(v, step, intent);
    var fills := TakerFills(intent, walk.consumed, step.book.fetchedAt, s.fillSeq);
    RestRemainder(s.(fills := s.fills + fills, fillSeq := s.fillSeq + |fills|), intent, intent.quantity - walk.filled)
  }

  // ---------------------------------------------------------------- advancing

  function SideOrders(resting: seq<OpenOrder>, ticker: Ticker, side: Side): (r: seq<OpenOrder>)
    ensures forall o :: o in r <==> o in resting && o.ticker == ticker && o.side == side
  {
    if resting == [] then []
    else if resting[0].ticker == ticker && resting[0].side == side then
      [resting[0]] + SideOrders(resting[1..], ticker, side)
    else SideOrders(resting[1..], ticker, side)
  }

  function RequestOf(order: OpenOrder, step: Step): Request
  {
    Request(order.price, order.quantity, DepthAtOrAbove(QueueLevels(order.side, step.book), order.price))
  }

  function RequestsOf(orders: seq<OpenOrder>, step: Step): (r: seq<Request>)
    ensures |r| == |orders| && forall k :: 0 <= k < |orders| ==> r[k] == RequestOf(orders[k], step)
  {
    seq(|orders|, k requires 0 <= k < |orders| => RequestOf(orders[k], step))
  }

  function SideFills(orders: seq<OpenOrder>, side: Side, step: Step, ppm: int): (r: seq<int>)
    ensures |r| == |orders|
  {
    Allocate(RequestsOf(orders, step), BuyFramePrints(side, step.trades), ppm)
  }

  /** Each order's fill entered under its id; a later order of the same id would win. */
  function Assign(orders: seq<OpenOrder>, fills: seq<int>): (r: map<nat, int>)
    requires |orders| == |fills|
    ensures forall o :: o in orders ==> o.id in r
  {
    if orders == [] then map[]
    else
      var last := |orders| - 1;
      var before := Assign(orders[..last], fills[..last]);
      assert orders == orders[..last] + [orders[last]];
      before[orders[last].id := fills[last]]
  }

  lemma {:induction false} AssignedIdsAreOrders(orders: seq<OpenOrder>, fills: seq<int>, id: nat)
    requires |orders| == |fills| && id in Assign(orders, fills)
    ensures exists o :: o in orders && o.id == id
  {
    var last := |orders| - 1;
    assert orders[last] in orders;
    if id != orders[last].id {
      AssignedIdsAreOrders(orders[..last], fills[..last], id);
      var o :| o in orders[..last] && o.id == id;
      assert o in orders;
    }
  }

  function AllocateSide(resting: seq<OpenOrder>, ticker: Ticker, side: Side, step: Step, ppm: int): map<nat, int>
  {
    var orders := SideOrders(resting, ticker, side);
    Assign(orders, SideFills(orders, side, step, ppm))
  }

  /** Every order of the ticker finds a fill under its id. */
  ghost predicate Covers(resting: seq<OpenOrder>, filled: map<nat, int>, ticker: Ticker)
  {
    forall o :: o in resting && o.ticker == ticker ==> o.id in filled
  }

  /** Each resting order's fill this step, keyed by order id. */
  function AllocateStep(resting: seq<OpenOrder>, ticker: Ticker, step: Step, ppm: int): (r: map<nat, int>)
    ensures Covers(resting, r, ticker)
  {
    var yes, no := AllocateSide(resting, ticker, Yes, step, ppm), AllocateSide(resting, ticker, No, step, ppm);
    assert forall o :: o in resting && o.ticker == ticker ==>
      o in SideOrders(resting, ticker, Yes) || o in SideOrders(resting, ticker, No);
    yes + no
  }

  datatype NoTradeThrough = NoTradeThrough

  /** The latest print strictly through the limit; refuses when there is none. */
  function TradeThroughFillTs(limit: int, prints: seq<Print>): Result<int, NoTradeThrough>
  {
    if prints == [] then Err(NoTradeThrough)
    else
      var last := |prints| - 1;
      var before := TradeThroughFillTs(limit, prints[..last]);
      if prints[last].price >= limit then before
      else Ok(if before.Ok? then Max(before.value, prints[last].ts) else prints[last].ts)
  }

  /** It refuses exactly when nothing traded through; otherwise it is the largest such stamp. */
  lemma {:induction false} TradeThroughStamp(limit: int, prints: seq<Print>)
    ensures var r := TradeThroughFillTs(limit, prints);
            && (r.Ok? <==> exists j :: 0 <= j < |prints| && prints[j].price < limit)
            && (r.Ok? ==> exists j :: 0 <= j < |prints| && prints[j].price < limit && prints[j].ts == r.value)
            && (r.Ok? ==> forall j :: 0 <= j < |prints| && prints[j].price < limit ==> prints[j].ts <= r.value)
  {
    if prints != [] {
      var last := |prints| - 1;
      TradeThroughStamp(limit, prints[..last]);
      assert forall j :: 0 <= j < last ==> prints[..last][j] == prints[j];
      if TradeThroughFillTs(limit, prints[..last]).Ok? {
        var j :| 0 <= j < last && prints[..last][j].price < limit
            && prints[..last][j].ts == TradeThroughFillTs(limit, prints[..last]).value;
        assert prints[j].price < limit;
      }
    }
  }

  /** The stamp of a resting fill.  The zero stands for the guard's refusal, which no reachable
      fill meets (`NoGuardTrips`). */
  function FillStamp(order: OpenOrder, step: Step): int
  {
    match TradeThroughFillTs(order.price, BuyFramePrints(order.side, step.trades))
    case Ok(ts) => ts
    case Err(_) => 0
  }

  function RestingFill(order: OpenOrder, step: Step, quantity: int, seqNo: nat): Fill
  {
    Fill(seqNo + 1, order.ticker, order.side, order.price, quantity, FillStamp(order, step), Some(order.id))
  }

  datatype Pass = Pass(survivors: seq<OpenOrder>, fills: seq<Fill>)

  /** The fill counter after one order's turn. */
  function NextSeq(o: OpenOrder, filled: map<nat, int>, ticker: Ticker, seqNo: nat): nat
    requires o.ticker == ticker ==> o.id in filled
  {
    if o.ticker == ticker && filled[o.id] > 0 then seqNo + 1 else seqNo
  }

  /** One pass over the resting book: fills emitted and orders left, in book order. */
  function FillOrders(resting: seq<OpenOrder>, filled: map<nat, int>, ticker: Ticker, step: Step, seqNo: nat): Pass
    requires Covers(resting, filled, ticker)
  {
    if resting == [] then Pass([], [])
    else
      var o := resting[0];
      if o.ticker != ticker || filled[o.id] <= 0 then
        var rest := FillOrders(resting[1..], filled, ticker, step, seqNo);
        Pass([o] + rest.survivors, rest.fills)
      else
        var rest := FillOrders(resting[1..], filled, ticker, step, seqNo + 1);
        var left := o.quantity - filled[o.id];
        Pass(if left <= 0 then rest.survivors else [o.(quantity := left)] + rest.survivors,
             [RestingFill(o, step, filled[o.id], seqNo)] + rest.fills)
  }

  /** What one order's turn leaves resting, and what it emits. */
  function TurnOf(o: OpenOrder, fill: int, step: Step, seqNo: nat): Pass
  {
    if fill <= 0 then Pass([o], [])
    else Pass(if o.quantity - fill <= 0 then []
        else [o.(quantity := o.quantity - fill)], [RestingFill(o, step, fill, seqNo)])
  }

  /** One turn of the pass over the resting book, put before the rest of it. */
  lemma PassUnfolds(resting: seq<OpenOrder>, i: nat, filled: map<nat, int>, ticker: Ticker, step: Step, seqNo: nat)
    requires i < |resting| && Covers(resting[i..], filled, ticker)
    ensures Covers(resting[i + 1..], filled, ticker) && (resting[i].ticker == ticker ==> resting[i].id in filled)
    ensures var o := resting[i];
            var turn := TurnOf(o, if o.ticker == ticker then filled[o.id] else 0, step, seqNo);
            var rest := FillOrders(resting[i + 1..], filled, ticker, step, seqNo + |turn.fills|);
            FillOrders(resting[i..], filled, ticker, step, seqNo)
                == Pass(turn.survivors + rest.survivors, turn.fills + rest.fills)
  {
    assert resting[i..][0] == resting[i] && resting[i..][1..] == resting[i + 1..];
    assert resting[i] in resting[i..] && forall o :: o in resting[i + 1..] ==> o in resting[i..];
  }

  lemma PassOverNothing(filled: map<nat, int>, ticker: Ticker, step: Step, seqNo: nat)
    ensures Covers([], filled, ticker) && FillOrders([], filled, ticker, step, seqNo) == Pass([], [])
  {}

  function StepPass(s: Account, ticker: Ticker, step: Step, ppm: int): Pass
  {
    FillOrders(s.resting, AllocateStep(s.resting, ticker, step, ppm), ticker, step, s.fillSeq)
  }

  function ProcessStep(s: Account, ticker: Ticker, step: Step, ppm: int): Account
  {
    var pass := StepPass(s, ticker, step, ppm);
    s.(resting := pass.survivors, fills := s.fills + pass.fills, fillSeq := s.fillSeq + |pass.fills|)
  }

  predicate Unconsumed(v: Venue, s: Account, ticker: Ticker)
  {
    ticker in v.recording.sessions && ticker in s.cursor && s.cursor[ticker] < |v.recording.sessions[ticker]|
  }

  function AdvanceTicker(v: Venue, s: Account, ticker: Ticker): (r: Account)
    ensures r.cursor.Keys == s.cursor.Keys
  {
    if !Unconsumed(v, s, ticker) then s
    else
      var index := s.cursor[ticker];
      ProcessStep(s, ticker, v.recording.sessions[ticker][index], v.ppm).(cursor := s.cursor[ticker := index + 1])
  }

  function AdvanceAll(v: Venue, s: Account, tickers: seq<Ticker>): (r: Account)
    ensures r.cursor.Keys == s.cursor.Keys
  {
    if tickers == [] then s
    else
      var last := |tickers| - 1;
      AdvanceTicker(v, AdvanceAll(v, s, tickers[..last]), tickers[last])
  }

  // ---------------------------------------------------------------- runs

  function RestingWithout(resting: seq<OpenOrder>, id: nat): (r: seq<OpenOrder>)
    ensures forall o :: o in r <==> o in resting && o.id != id
  {
    if resting == [] then []
    else if resting[0].id == id then RestingWithout(resting[1..], id)
    else [resting[0]] + RestingWithout(resting[1..], id)
  }

  datatype Op = Place(intent: Intent) | Cancel(id: nat) | Advance

  function Apply(v: Venue, s: Account, op: Op): (r: Account)
    requires s.cursor.Keys == v.recording.sessions.Keys
    ensures r.cursor.Keys == s.cursor.Keys
  {
    match op
    case Place(intent) =>
      (match CurrentStep(v, s, intent.ticker)
       case Ok(step) => PlaceAt(v, s, intent, step)
       case Err(_) => s)
    case Cancel(id) => s.(resting := RestingWithout(s.resting, id))
    case Advance => AdvanceAll(v, s, v.recording.tickers)
  }

  function Initial(v: Venue): Account
  {
    Account(map t | t in v.recording.sessions :: 0, [], [], [], 0, 0)
  }

  /** The state after any sequence of calls. */
  function Run(v: Venue, ops: seq<Op>): (s: Account)
    ensures s.cursor.Keys == v.recording.sessions.Keys
  {
    if ops == [] then Initial(v) else Apply(v, Run(v, ops[..|ops| - 1]), ops[|ops| - 1])
  }

  lemma RunExtends(v: Venue, ops: seq<Op>, op: Op)
    ensures Run(v, ops + [op]) == Apply(v, Run(v, ops), op)
  {}

  // ---------------------------------------------------------------- well-formed inputs

  ghost predicate ValidBookSide(levels: seq<Level>)
  {
    ValidLevels(levels) && NonNegativeLevels(levels)
  }

  ghost predicate ValidStep(step: Step)
  {
    ValidBookSide(step.book.yesBids) && ValidBookSide(step.book.yesAsks) && ValidPrints(step.trades)
  }

  ghost predicate ValidVenue(v: Venue)
  {
    && 0 <= v.ppm <= PPM_DENOMINATOR
    && v.defaultFees.Valid()
    && (forall t :: t in v.fees ==> v.fees[t].Valid())
    && (forall t, k :: t in v.recording.sessions && 0 <= k < |v.recording.sessions[t]| ==>
        ValidStep(v.recording.sessions[t][k]))
    && (forall k :: 0 <= k < |v.recording.tickers| ==> v.recording.tickers[k] in v.recording.sessions)
    && (forall t :: t in v.recording.sessions ==> t in v.recording.tickers)
    && (forall a, b :: 0 <= a < b < |v.recording.tickers| ==> v.recording.tickers[a] != v.recording.tickers[b])
  }

  /** A placed limit is a price; sizes are unrestricted. */
  predicate ValidOp(op: Op)
  {
    op.Place? ==> ValidPrice(op.intent.price)
  }

  ghost predicate ValidOps(ops: seq<Op>)
  {
    forall k :: 0 <= k < |ops| ==> ValidOp(ops[k])
  }
}
