/** The rules of the paper exchange, stated on the recorded book and tape alone and in figures:
    how much a limit reaches, how long a queue is, what trades through, what a fill costs
    (windbreak/connector/fills.py, fees.py and paper.py).  The model is proved to follow them. */
module PaperRules {
  import opened Numeric
  import opened Sums
  import opened Fees
  import opened TakerWalk
  import opened RestingAllocation
  import opened PaperModel

  // ---------------------------------------------------------------- what a side sees

  /** A YES price in the frame of the side that trades at it. */
  function OwnPrice(side: Side, price: int): int
  {
    if side.Yes? then price else 10_000 - price
  }

  /** The recorded levels a crossing order of a side trades against. */
  function Offered(side: Side, book: Book): seq<Level>
  {
    if side.Yes? then book.yesAsks else book.yesBids
  }

  /** The same levels in that order's own frame. */
  function OwnLevels(side: Side, book: Book): (r: seq<Level>)
    ensures |r| == |Offered(side, book)|
    ensures forall k :: 0 <= k < |r| ==>
              r[k] == Level(OwnPrice(side, Offered(side, book)[k].price), Offered(side, book)[k].quantity)
  {
    var levels := Offered(side, book);
    seq(|levels|, k requires 0 <= k < |levels| => Level(OwnPrice(side, levels[k].price), levels[k].quantity))
  }

  lemma TakerLevelsAreOwn(side: Side, book: Book)
    ensures TakerLevels(side, book) == OwnLevels(side, book)
  {}

  /** The recorded levels a resting order of a side queues with. */
  function Queued(side: Side, book: Book): seq<Level>
  {
    if side.Yes? then book.yesBids else book.yesAsks
  }

  function Reached(side: Side, limit: int, levels: seq<Level>): (r: seq<int>)
    ensures |r| == |levels|
    ensures forall k :: 0 <= k < |r| ==>
              r[k] == if OwnPrice(side, levels[k].price) <= limit then levels[k].quantity else 0
  {
    seq(|levels|, k requires 0 <= k < |levels| =>
      if OwnPrice(side, levels[k].price) <= limit then levels[k].quantity else 0)
  }

  function InQueue(side: Side, price: int, levels: seq<Level>): (r: seq<int>)
    ensures |r| == |levels|
    ensures forall k :: 0 <= k < |r| ==>
              r[k] == if OwnPrice(side, levels[k].price) >= price then levels[k].quantity else 0
  {
    seq(|levels|, k requires 0 <= k < |levels| =>
      if OwnPrice(side, levels[k].price) >= price then levels[k].quantity else 0)
  }

  /** The depth a limit reaches, at or better than it. */
  function ReachedDepth(side: Side, limit: int, book: Book): int
  {
    Sum(Reached(side, limit, Offered(side, book)))
  }

  /** The depth standing at a resting price or ahead of it. */
  function QueueDepth(side: Side, price: int, book: Book): int
  {
    Sum(InQueue(side, price, Queued(side, book)))
  }

  /** Whether a print traded strictly through a limit. */
  predicate TradesThrough(p: Print, side: Side, limit: int)
  {
    OwnPrice(side, p.price) < limit
  }

  function Through(side: Side, limit: int, trades: seq<Print>): (r: seq<int>)
    ensures |r| == |trades|
    ensures forall k :: 0 <= k < |r| ==> r[k] == if TradesThrough(trades[k], side, limit) then trades[k].quantity else 0
  {
    seq(|trades|, k requires 0 <= k < |trades| =>
      if TradesThrough(trades[k], side, limit) then trades[k].quantity else 0)
  }

  /** The volume a tape printed strictly through a limit. */
  function ThroughVolume(side: Side, limit: int, trades: seq<Print>): int
  {
    Sum(Through(side, limit, trades))
  }

  /** `x` is the most of `wanted` that stays within `ppm` millionths of `depth`. */
  predicate IsCapped(x: int, wanted: int, depth: int, ppm: int)
  {
    x <= wanted && x * 1_000_000 <= depth * ppm && (x == wanted || (x + 1) * 1_000_000 > depth * ppm)
  }

  // ---------------------------------------------------------------- the model sees the same

  lemma {:induction false} EligibleDepth(levels: seq<Level>, limit: int)
    ensures Depth(Eligible(levels, limit)) == Sum(Reached(Yes, limit, levels))
  {
    if levels != [] {
      EligibleDepth(levels[1..], limit);
      var rest := Eligible(levels[1..], limit);
      assert Reached(Yes, limit, levels)[1..] == Reached(Yes, limit, levels[1..]);
      assert ([levels[0]] + rest)[1..] == rest;
    }
  }

  lemma ReachedIsEligible(side: Side, limit: int, book: Book)
    ensures Depth(Eligible(TakerLevels(side, book), limit)) == ReachedDepth(side, limit, book)
  {
    EligibleDepth(TakerLevels(side, book), limit);
    assert Reached(Yes, limit, TakerLevels(side, book)) == Reached(side, limit, Offered(side, book));
  }

  lemma {:induction false} DepthIsInQueue(levels: seq<Level>, price: int)
    ensures DepthAtOrAbove(levels, price) == Sum(InQueue(Yes, price, levels))
  {
    if levels != [] {
      DepthIsInQueue(levels[1..], price);
      assert InQueue(Yes, price, levels)[1..] == InQueue(Yes, price, levels[1..]);
    }
  }

  lemma QueueIsQueued(side: Side, price: int, book: Book)
    ensures DepthAtOrAbove(QueueLevels(side, book), price) == QueueDepth(side, price, book)
  {
    DepthIsInQueue(QueueLevels(side, book), price);
    assert InQueue(Yes, price, QueueLevels(side, book)) == InQueue(side, price, Queued(side, book));
  }

  lemma VolumeIsThrough(side: Side, limit: int, trades: seq<Print>)
    ensures VolumeBelow(BuyFramePrints(side, trades), limit) == ThroughVolume(side, limit, trades)
  {
    assert Below(BuyFramePrints(side, trades), limit) == Through(side, limit, trades);
  }

  lemma CapIsCapped(wanted: int, depth: int, ppm: int)
    ensures IsCapped(Min(wanted, ParticipationCap(depth, ppm)), wanted, depth, ppm)
    ensures forall x :: x <= Min(wanted, ParticipationCap(depth, ppm)) <==> x <= wanted && x * 1_000_000 <= depth * ppm
  {}

  /** What one resting order may claim of a step, whatever its volume: the most of its size that
      stays within its share of its own queue. */
  ghost predicate IsFullClaim(x: int, o: OpenOrder, step: Step, ppm: int)
  {
    IsCapped(x, o.quantity, QueueDepth(o.side, o.price, step.book), ppm)
  }

  lemma ClaimIsFull(o: OpenOrder, step: Step, ppm: int)
    ensures IsFullClaim(Claimable(RequestOf(o, step), ppm), o, step, ppm)
    ensures forall x :: x <= Claimable(RequestOf(o, step), ppm)
              <==> x <= o.quantity && x * 1_000_000 <= QueueDepth(o.side, o.price, step.book) * ppm
  {
    QueueIsQueued(o.side, o.price, step.book);
    CapIsCapped(o.quantity, QueueDepth(o.side, o.price, step.book), ppm);
  }

  // ---------------------------------------------------------------- cash

  /** What a size at a price costs under a market's own schedule, or the default one. */
  function Due(v: Venue, ticker: Ticker, price: int, quantity: int): int
  {
    var schedule := if ticker in v.fees then v.fees[ticker] else v.defaultFees;
    price * quantity + (match MaxTradingFeeMicros(schedule, price, quantity) case Ok(fee) => fee case Err(_) => 0)
  }

  function FillsDue(v: Venue, fills: seq<Fill>): (r: seq<int>)
    ensures |r| == |fills|
    ensures forall k :: 0 <= k < |r| ==> r[k] == Due(v, fills[k].ticker, fills[k].price, fills[k].quantity)
  {
    seq(|fills|, k requires 0 <= k < |fills| => Due(v, fills[k].ticker, fills[k].price, fills[k].quantity))
  }

  function OrdersDue(v: Venue, resting: seq<OpenOrder>): (r: seq<int>)
    ensures |r| == |resting|
    ensures forall k :: 0 <= k < |r| ==> r[k] == Due(v, resting[k].ticker, resting[k].price, resting[k].quantity)
  {
    seq(|resting|, k requires 0 <= k < |resting| => Due(v, resting[k].ticker, resting[k].price, resting[k].quantity))
  }

  lemma CashIsDue(v: Venue, ticker: Ticker, price: int, quantity: int)
    requires ValidPrice(price) && quantity > 0
    ensures Cash(v, ticker, price, quantity) == Due(v, ticker, price, quantity)
  {}

  lemma {:induction false} SpentIsDue(v: Venue, fills: seq<Fill>)
    requires forall f :: f in fills ==> ValidPrice(f.price) && f.quantity > 0
    ensures Spent(v, fills) == Sum(FillsDue(v, fills))
  {
    hide Cash, Due;
    if fills != [] {
      assert fills[0] in fills && forall f :: f in fills[1..] ==> f in fills;
      CashIsDue(v, fills[0].ticker, fills[0].price, fills[0].quantity);
      SpentIsDue(v, fills[1..]);
      assert FillsDue(v, fills)[1..] == FillsDue(v, fills[1..]);
    }
  }

  lemma {:induction false} ReservedIsDue(v: Venue, resting: seq<OpenOrder>)
    requires forall o :: o in resting ==> ValidPrice(o.price) && o.quantity > 0
    ensures Reserved(v, resting) == Sum(OrdersDue(v, resting))
  {
    hide Cash, Due;
    if resting != [] {
      assert resting[0] in resting && forall o :: o in resting[1..] ==> o in resting;
      CashIsDue(v, resting[0].ticker, resting[0].price, resting[0].quantity);
      ReservedIsDue(v, resting[1..]);
      assert OrdersDue(v, resting)[1..] == OrdersDue(v, resting[1..]);
    }
  }
}
