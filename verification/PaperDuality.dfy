/** YES/NO duality: flipping every side and complementing the recording changes nothing but the
    side labels, over whole runs. */
module PaperDuality {
  import opened Numeric
  import opened TakerWalk
  import opened PaperModel
  import opened PaperInvariant

  function Flip(side: Side): Side { if side.Yes? then No else Yes }

  function FlipOrder(o: OpenOrder): OpenOrder { o.(side := Flip(o.side)) }

  function FlipOrders(orders: seq<OpenOrder>): (r: seq<OpenOrder>)
    ensures |r| == |orders| && forall k :: 0 <= k < |orders| ==> r[k] == FlipOrder(orders[k])
  {
    seq(|orders|, k requires 0 <= k < |orders| => FlipOrder(orders[k]))
  }

  function FlipFills(fills: seq<Fill>): (r: seq<Fill>)
    ensures |r| == |fills| && forall k :: 0 <= k < |fills| ==> r[k] == fills[k].(side := Flip(fills[k].side))
  {
    seq(|fills|, k requires 0 <= k < |fills| => fills[k].(side := Flip(fills[k].side)))
  }

  function FlipAccount(s: Account): Account
  {
    s.(resting := FlipOrders(s.resting), rested := FlipOrders(s.rested), fills := FlipFills(s.fills))
  }

  /** Bids become asks and asks bids, each at its complement. */
  function FlipBook(book: Book): Book
  {
    Book(Complement(book.yesAsks), Complement(book.yesBids), book.fetchedAt)
  }

  function FlipStep(step: Step): Step
  {
    Step(FlipBook(step.book), ComplementPrints(step.trades))
  }

  function FlipSteps(steps: seq<Step>): (r: seq<Step>)
    ensures |r| == |steps| && forall k :: 0 <= k < |steps| ==> r[k] == FlipStep(steps[k])
  {
    seq(|steps|, k requires 0 <= k < |steps| => FlipStep(steps[k]))
  }

  function FlipVenue(v: Venue): (w: Venue)
    ensures w.recording.sessions.Keys == v.recording.sessions.Keys
  {
    var flipped := map t | t in v.recording.sessions :: FlipSteps(v.recording.sessions[t]);
    v.(recording := Recording(v.recording.tickers, flipped))
  }

  function FlipIntent(intent: Intent): Intent { intent.(side := Flip(intent.side)) }

  function FlipOp(op: Op): Op
  {
    if op.Place? then Place(FlipIntent(op.intent)) else op
  }

  function FlipOps(ops: seq<Op>): (r: seq<Op>)
    ensures |r| == |ops| && forall k :: 0 <= k < |ops| ==> r[k] == FlipOp(ops[k])
  {
    seq(|ops|, k requires 0 <= k < |ops| => FlipOp(ops[k]))
  }

  /** Each side's three views of a step are the other side's views of the flipped step. */
  lemma FramesSwap(side: Side, step: Step)
    ensures TakerLevels(Flip(side), FlipBook(step.book)) == TakerLevels(side, step.book)
    ensures QueueLevels(Flip(side), FlipBook(step.book)) == QueueLevels(side, step.book)
    ensures BuyFramePrints(Flip(side), ComplementPrints(step.trades)) == BuyFramePrints(side, step.trades)
  {}

  lemma FlipOrdersAppend(a: seq<OpenOrder>, b: seq<OpenOrder>)
    ensures FlipOrders(a + b) == FlipOrders(a) + FlipOrders(b)
  {}

  lemma FlipFillsAppend(a: seq<Fill>, b: seq<Fill>)
    ensures FlipFills(a + b) == FlipFills(a) + FlipFills(b)
  {}

  // ---------------------------------------------------------------- placing

  lemma PlaceIsDual(v: Venue, s: Account, intent: Intent, step: Step)
    ensures PlaceAt(FlipVenue(v), FlipAccount(s), FlipIntent(intent), FlipStep(step))
        == FlipAccount(PlaceAt(v, s, intent, step))
  {
    hide Take, TakerLevels, RestRemainder;
    FramesSwap(intent.side, step);
    var walk := Walked(v, step, intent);
    assert Walked(FlipVenue(v), FlipStep(step), FlipIntent(intent)) == walk;
    var fills := TakerFills(intent, walk.consumed, step.book.fetchedAt, s.fillSeq);
    assert TakerFills(FlipIntent(intent), walk.consumed, step.book.fetchedAt, s.fillSeq) == FlipFills(fills);
    FlipFillsAppend(s.fills, fills);
    RestIsDual(s.(fills := s.fills + fills, fillSeq := s.fillSeq + |fills|), intent, intent.quantity - walk.filled);
  }

  lemma RestIsDual(s: Account, intent: Intent, remainder: int)
    ensures RestRemainder(FlipAccount(s), FlipIntent(intent), remainder)
        == FlipAccount(RestRemainder(s, intent, remainder))
  {}

  // ---------------------------------------------------------------- advancing

  lemma {:induction false} SideOrdersAreDual(resting: seq<OpenOrder>, ticker: Ticker, side: Side)
    ensures SideOrders(FlipOrders(resting), ticker, Flip(side)) == FlipOrders(SideOrders(resting, ticker, side))
  {
    if resting != [] {
      assert FlipOrders(resting)[1..] == FlipOrders(resting[1..]);
      SideOrdersAreDual(resting[1..], ticker, side);
      if resting[0].ticker == ticker && resting[0].side == side {
        FlipOrdersAppend([resting[0]], SideOrders(resting[1..], ticker, side));
        assert FlipOrders([resting[0]]) == [FlipOrder(resting[0])];
      }
    }
  }

  lemma SideFillsAreDual(orders: seq<OpenOrder>, side: Side, step: Step, ppm: int)
    requires forall o :: o in orders ==> o.side == side
    ensures SideFills(FlipOrders(orders), Flip(side), FlipStep(step), ppm) == SideFills(orders, side, step, ppm)
  {
    FramesSwap(side, step);
    forall k | 0 <= k < |orders|
      ensures RequestOf(FlipOrders(orders)[k], FlipStep(step)) == RequestOf(orders[k], step)
    {
      assert orders[k] in orders;
    }
    assert RequestsOf(FlipOrders(orders), FlipStep(step)) == RequestsOf(orders, step);
  }

  lemma {:induction false} AssignIsDual(orders: seq<OpenOrder>, fills: seq<int>)
    requires |orders| == |fills|
    ensures Assign(FlipOrders(orders), fills) == Assign(orders, fills)
  {
    if orders != [] {
      var last := |orders| - 1;
      assert FlipOrders(orders)[..last] == FlipOrders(orders[..last]);
      AssignIsDual(orders[..last], fills[..last]);
    }
  }

  lemma SideIsDual(resting: seq<OpenOrder>, ticker: Ticker, side: Side, step: Step, ppm: int)
    ensures AllocateSide(FlipOrders(resting), ticker, Flip(side), FlipStep(step), ppm)
        == AllocateSide(resting, ticker, side, step, ppm)
  {
    var orders := SideOrders(resting, ticker, side);
    SideOrdersAreDual(resting, ticker, side);
    SideFillsAreDual(orders, side, step, ppm);
    AssignIsDual(orders, SideFills(orders, side, step, ppm));
  }

  /** No order id is allocated on both sides. */
  lemma SidesAreDisjoint(resting: seq<OpenOrder>, ticker: Ticker, step: Step, ppm: int)
    requires InArrivalOrder(resting)
    ensures AllocateSide(resting, ticker, Yes, step, ppm).Keys !! AllocateSide(resting, ticker, No, step, ppm).Keys
  {
    hide Assign, SideFills;
    var yes, no := SideOrders(resting, ticker, Yes), SideOrders(resting, ticker, No);
    var forYes, forNo := AllocateSide(resting, ticker, Yes, step, ppm), AllocateSide(resting, ticker, No, step, ppm);
    forall id | id in forYes && id in forNo ensures false {
      AssignedIdsAreOrders(yes, SideFills(yes, Yes, step, ppm), id);
      AssignedIdsAreOrders(no, SideFills(no, No, step, ppm), id);
      var a :| a in yes && a.id == id;
      var b :| b in no && b.id == id;
      SameIdSameOrder(resting, a, b);
    }
  }

  lemma MergeCommutes(a: map<nat, int>, b: map<nat, int>)
    requires a.Keys !! b.Keys
    ensures a + b == b + a
  {}

  lemma AllocationIsDual(resting: seq<OpenOrder>, ticker: Ticker, step: Step, ppm: int)
    requires InArrivalOrder(resting)
    ensures AllocateStep(FlipOrders(resting), ticker, FlipStep(step), ppm) == AllocateStep(resting, ticker, step, ppm)
  {
    var yes, no := AllocateSide(resting, ticker, Yes, step, ppm), AllocateSide(resting, ticker, No, step, ppm);
    assert AllocateSide(FlipOrders(resting), ticker, No, FlipStep(step), ppm) == yes by {
      SideIsDual(resting, ticker, Yes, step, ppm);
    }
    assert AllocateSide(FlipOrders(resting), ticker, Yes, FlipStep(step), ppm) == no by {
      SideIsDual(resting, ticker, No, step, ppm);
    }
    SidesAreDisjoint(resting, ticker, step, ppm);
    MergeCommutes(yes, no);
  }

  lemma RestingFillIsDual(o: OpenOrder, step: Step, quantity: int, seqNo: nat)
    ensures [RestingFill(FlipOrder(o), FlipStep(step), quantity, seqNo)]
        == FlipFills([RestingFill(o, step, quantity, seqNo)])
  {
    FramesSwap(o.side, step);
  }

  lemma EveryFlippedHasFill(resting: seq<OpenOrder>, filled: map<nat, int>, ticker: Ticker)
    requires Covers(resting, filled, ticker)
    ensures Covers(FlipOrders(resting), filled, ticker)
  {}

  lemma {:induction false} PassIsDual(resting: seq<OpenOrder>, filled: map<nat, int>, ticker: Ticker, step: Step,
      seqNo: nat)
    requires Covers(resting, filled, ticker)
    ensures Covers(FlipOrders(resting), filled, ticker)
    ensures var pass := FillOrders(resting, filled, ticker, step, seqNo);
            FillOrders(FlipOrders(resting), filled, ticker, FlipStep(step), seqNo)
                == Pass(FlipOrders(pass.survivors), FlipFills(pass.fills))
  {
    hide RestingFill, FlipStep;
    EveryFlippedHasFill(resting, filled, ticker);
    if resting != [] {
      var o := resting[0];
      assert o in resting;
      assert FlipOrders(resting)[1..] == FlipOrders(resting[1..]);
      if o.ticker != ticker || filled[o.id] <= 0 {
        PassIsDual(resting[1..], filled, ticker, step, seqNo);
        var rest := FillOrders(resting[1..], filled, ticker, step, seqNo);
        FlipOrdersAppend([o], rest.survivors);
        assert FlipOrders([o]) == [FlipOrder(o)];
      } else {
        PassIsDual(resting[1..], filled, ticker, step, seqNo + 1);
        var rest := FillOrders(resting[1..], filled, ticker, step, seqNo + 1);
        RestingFillIsDual(o, step, filled[o.id], seqNo);
        FlipFillsAppend([RestingFill(o, step, filled[o.id], seqNo)], rest.fills);
        var left := o.(quantity := o.quantity - filled[o.id]);
        FlipOrdersAppend([left], rest.survivors);
        assert FlipOrders([left]) == [FlipOrder(left)];
      }
    }
  }

  lemma ProcessStepIsDual(s: Account, ticker: Ticker, step: Step, ppm: int)
    requires Numbered(s)
    ensures ProcessStep(FlipAccount(s), ticker, FlipStep(step), ppm) == FlipAccount(ProcessStep(s, ticker, step, ppm))
  {
    AllocationIsDual(s.resting, ticker, step, ppm);
    PassIsDual(s.resting, AllocateStep(s.resting, ticker, step, ppm), ticker, step, s.fillSeq);
    FlipFillsAppend(s.fills, StepPass(s, ticker, step, ppm).fills);
  }

  lemma AdvanceTickerUnfolds(v: Venue, s: Account, ticker: Ticker)
    requires Unconsumed(v, s, ticker)
    ensures AdvanceTicker(v, s, ticker)
         == ProcessStep(s, ticker, v.recording.sessions[ticker][s.cursor[ticker]], v.ppm)
            .(cursor := s.cursor[ticker := s.cursor[ticker] + 1])
  {}

  lemma TickerIsDual(v: Venue, s: Account, ticker: Ticker)
    requires Numbered(s)
    ensures AdvanceTicker(FlipVenue(v), FlipAccount(s), ticker) == FlipAccount(AdvanceTicker(v, s, ticker))
  {
    var w, d := FlipVenue(v), FlipAccount(s);
    assert Unconsumed(w, d, ticker) == Unconsumed(v, s, ticker);
    if Unconsumed(v, s, ticker) {
      var step := v.recording.sessions[ticker][s.cursor[ticker]];
      var moved := s.cursor[ticker := s.cursor[ticker] + 1];
      AdvanceTickerUnfolds(v, s, ticker);
      AdvanceTickerUnfolds(w, d, ticker);
      var after, dual := ProcessStep(s, ticker, step, v.ppm), ProcessStep(d, ticker, FlipStep(step), v.ppm);
      assert dual == FlipAccount(after) by { ProcessStepIsDual(s, ticker, step, v.ppm); }
      assert FlipAccount(after.(cursor := moved)) == FlipAccount(after).(cursor := moved);
    }
  }

  lemma {:induction false} AdvanceIsDual(v: Venue, s: Account, tickers: seq<Ticker>)
    requires Numbered(s)
    ensures AdvanceAll(FlipVenue(v), FlipAccount(s), tickers) == FlipAccount(AdvanceAll(v, s, tickers))
  {
    if tickers != [] {
      var last := |tickers| - 1;
      AdvanceIsDual(v, s, tickers[..last]);
      AdvanceKeepsNumbered(v, s, tickers[..last]);
      TickerIsDual(v, AdvanceAll(v, s, tickers[..last]), tickers[last]);
    }
  }

  lemma {:induction false} CancelIsDual(resting: seq<OpenOrder>, id: nat)
    ensures RestingWithout(FlipOrders(resting), id) == FlipOrders(RestingWithout(resting, id))
  {
    if resting != [] {
      assert FlipOrders(resting)[1..] == FlipOrders(resting[1..]);
      CancelIsDual(resting[1..], id);
      FlipOrdersAppend([resting[0]], RestingWithout(resting[1..], id));
      assert FlipOrders([resting[0]]) == [FlipOrder(resting[0])];
    }
  }

  // ---------------------------------------------------------------- runs

  lemma CurrentStepIsDual(v: Venue, s: Account, ticker: Ticker)
    requires s.cursor.Keys == v.recording.sessions.Keys
    ensures var step, dual := CurrentStep(v, s, ticker), CurrentStep(FlipVenue(v), FlipAccount(s), ticker);
            dual == if step.Ok? then Ok(FlipStep(step.value)) else step
  {}

  lemma ApplyIsDual(v: Venue, s: Account, op: Op)
    requires s.cursor.Keys == v.recording.sessions.Keys && Numbered(s)
    ensures Apply(FlipVenue(v), FlipAccount(s), FlipOp(op)) == FlipAccount(Apply(v, s, op))
  {
    match op
    case Place(intent) =>
      CurrentStepIsDual(v, s, intent.ticker);
      var step := CurrentStep(v, s, intent.ticker);
      if step.Ok? {
        PlaceIsDual(v, s, intent, step.value);
        assert Apply(v, s, op) == PlaceAt(v, s, intent, step.value);
      }
    case Cancel(id) => CancelIsDual(s.resting, id);
    case Advance => AdvanceIsDual(v, s, v.recording.tickers);
  }

  /** Any run with every side flipped, on the complemented recording, ends in the flipped state. */
  lemma {:induction false} RunIsDual(v: Venue, ops: seq<Op>)
    ensures Run(FlipVenue(v), FlipOps(ops)) == FlipAccount(Run(v, ops))
  {
    if ops != [] {
      var before := ops[..|ops| - 1];
      assert FlipOps(ops)[..|ops| - 1] == FlipOps(before);
      RunIsDual(v, before);
      RunIsNumbered(v, before);
      ApplyIsDual(v, Run(v, before), ops[|ops| - 1]);
    } else {
      assert FlipOrders([]) == [] && FlipFills([]) == [];
    }
  }

  lemma {:induction false} SpentIsDual(v: Venue, fills: seq<Fill>)
    ensures Spent(FlipVenue(v), FlipFills(fills)) == Spent(v, fills)
  {
    if fills != [] {
      assert FlipFills(fills)[1..] == FlipFills(fills[1..]);
      SpentIsDual(v, fills[1..]);
    }
  }

  lemma {:induction false} ReservedIsDual(v: Venue, resting: seq<OpenOrder>)
    ensures Reserved(FlipVenue(v), FlipOrders(resting)) == Reserved(v, resting)
  {
    if resting != [] {
      assert FlipOrders(resting)[1..] == FlipOrders(resting[1..]);
      ReservedIsDual(v, resting[1..]);
    }
  }

  /** The dual run reports the same balances. */
  lemma BalancesAreDual(v: Venue, ops: seq<Op>)
    ensures TotalBalance(FlipVenue(v), Run(FlipVenue(v), FlipOps(ops))) == TotalBalance(v, Run(v, ops))
    ensures AvailableBalance(FlipVenue(v), Run(FlipVenue(v), FlipOps(ops))) == AvailableBalance(v, Run(v, ops))
  {
    RunIsDual(v, ops);
    SpentIsDual(v, Run(v, ops).fills);
    ReservedIsDual(v, Run(v, ops).resting);
  }
}
