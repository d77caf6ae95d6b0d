/** The reported balances over every run, in figures: what each is, and what each call does to it
    (windbreak/connector/paper.py). */
module PaperBalances {
  import opened Sums
  import opened Fees
  import opened PaperModel
  import opened PaperRules
  import opened PaperInvariant
  import opened PaperAccounting

  // ---------------------------------------------------------------- what the balances are

  /** `total` is the opening figure less every taker walk's own cost and every resting fill's cash. */
  lemma TotalByWalk(v: Venue, ops: seq<Op>)
    ensures var s := Run(v, ops);
            TotalBalance(v, s) == v.openingTotal - WalkedCash(v, ops) - RestingCash(v, s.fills)
  {
    LedgerEqualsWalk(v, ops);
  }

  /** In every reachable state `total` is the opening figure less what the fills cost, each under
      its market's own schedule, and `available` the opening figure less that and less what the
      resting orders would cost. */
  lemma BalancesAreRefolded(v: Venue, ops: seq<Op>)
    requires ValidVenue(v) && ValidOps(ops)
    ensures var s := Run(v, ops);
            && TotalBalance(v, s) == v.openingTotal - Sum(FillsDue(v, s.fills))
            && AvailableBalance(v, s) == v.openingAvailable - Sum(FillsDue(v, s.fills)) - Sum(OrdersDue(v, s.resting))
  {
    RunIsSound(v, ops);
    RunIsPriced(v, ops);
    AccountIsDue(v, Run(v, ops));
  }

  lemma AccountIsDue(v: Venue, s: Account)
    requires Sound(s) && Priced(s)
    ensures Spent(v, s.fills) == Sum(FillsDue(v, s.fills)) && Reserved(v, s.resting) == Sum(OrdersDue(v, s.resting))
  {
    PricesAreValid(s);
    SpentIsDue(v, s.fills);
    ReservedIsDue(v, s.resting);
  }

  // ---------------------------------------------------------------- what a call does to them

  lemma {:induction false} AdvanceOnlyAppends(v: Venue, s: Account, tickers: seq<Ticker>)
    ensures s.fills <= AdvanceAll(v, s, tickers).fills
  {
    hide StepPass;
    if tickers != [] { AdvanceOnlyAppends(v, s, tickers[..|tickers| - 1]); }
  }

  lemma FillsOnlyGrow(v: Venue, s: Account, op: Op)
    requires s.cursor.Keys == v.recording.sessions.Keys
    ensures s.fills <= Apply(v, s, op).fills
  {
    hide AdvanceAll, Walked, TakerFills;
    if op.Advance? { AdvanceOnlyAppends(v, s, v.recording.tickers); }
  }

  lemma FillsDueAppend(v: Venue, a: seq<Fill>, b: seq<Fill>)
    ensures Sum(FillsDue(v, a + b)) == Sum(FillsDue(v, a)) + Sum(FillsDue(v, b))
  {
    assert FillsDue(v, a + b) == FillsDue(v, a) + FillsDue(v, b);
    SumAppend(FillsDue(v, a), FillsDue(v, b));
  }

  lemma OrdersDueAppend(v: Venue, a: seq<OpenOrder>, b: seq<OpenOrder>)
    ensures Sum(OrdersDue(v, a + b)) == Sum(OrdersDue(v, a)) + Sum(OrdersDue(v, b))
  {
    assert OrdersDue(v, a + b) == OrdersDue(v, a) + OrdersDue(v, b);
    SumAppend(OrdersDue(v, a), OrdersDue(v, b));
  }

  /** Whatever the call, `total` falls by what its new fills cost: nothing when there are none. */
  lemma TotalFallsByItsFills(v: Venue, ops: seq<Op>, op: Op)
    requires ValidVenue(v) && ValidOps(ops) && ValidOp(op)
    ensures var s, r := Run(v, ops), Run(v, ops + [op]);
            && s.fills <= r.fills && (op.Cancel? ==> r.fills == s.fills)
            && TotalBalance(v, s) - TotalBalance(v, r) == Sum(FillsDue(v, r.fills[|s.fills|..]))
  {
    hide Run, Apply, FillsDue, Sum, TotalBalance, ValidVenue;
    var s, r := Run(v, ops), Run(v, ops + [op]);
    RunExtends(v, ops, op);
    FillsOnlyGrow(v, s, op);
    CancelKeepsFills(v, s, op);
    BalancesAreRefolded(v, ops);
    BalancesAreRefolded(v, ops + [op]);
    assert r.fills == s.fills + r.fills[|s.fills|..];
    FillsDueAppend(v, s.fills, r.fills[|s.fills|..]);
  }

  lemma CancelKeepsFills(v: Venue, s: Account, op: Op)
    requires s.cursor.Keys == v.recording.sessions.Keys
    ensures op.Cancel? ==> Apply(v, s, op).fills == s.fills
  {}

  /** A placement lowers `available` by what its fills cost and what its remainder would. */
  lemma PlacementCosts(v: Venue, ops: seq<Op>, intent: Intent)
    requires ValidVenue(v) && ValidOps(ops) && ValidPrice(intent.price)
    ensures var s, r := Run(v, ops), Run(v, ops + [Place(intent)]);
            && s.fills <= r.fills && s.resting <= r.resting
            && AvailableBalance(v, s) - AvailableBalance(v, r)
               == Sum(FillsDue(v, r.fills[|s.fills|..])) + Sum(OrdersDue(v, r.resting[|s.resting|..]))
  {
    hide Run, FillsDue, OrdersDue, Sum, AvailableBalance, ValidVenue, Walked, TakerFills;
    var s, r := Run(v, ops), Run(v, ops + [Place(intent)]);
    RunExtends(v, ops, Place(intent));
    BalancesAreRefolded(v, ops);
    BalancesAreRefolded(v, ops + [Place(intent)]);
    assert r.fills == s.fills + r.fills[|s.fills|..] && r.resting == s.resting + r.resting[|s.resting|..];
    FillsDueAppend(v, s.fills, r.fills[|s.fills|..]);
    OrdersDueAppend(v, s.resting, r.resting[|s.resting|..]);
  }

  /** A cancel raises `available` by exactly what the cancelled order would have cost, and by
      nothing when no order has that id. */
  lemma CancelReleasesItsOrder(v: Venue, ops: seq<Op>, id: nat)
    requires ValidVenue(v) && ValidOps(ops)
    ensures var s, r := Run(v, ops), Run(v, ops + [Cancel(id)]);
            var raise := AvailableBalance(v, r) - AvailableBalance(v, s);
            && (forall o :: o in s.resting && o.id == id ==> raise == Due(v, o.ticker, o.price, o.quantity))
            && ((forall o :: o in s.resting ==> o.id != id) ==> raise == 0)
            && (forall o :: o in r.resting <==> o in s.resting && o.id != id)
  {
    hide Run, ValidVenue, Due;
    var s := Run(v, ops);
    RunExtends(v, ops, Cancel(id));
    RunIsSound(v, ops);
    RunIsPriced(v, ops);
    PricesAreValid(s);
    CancelReleases(v, s.resting, id);
    OneOrderReserves(v, s.resting, id);
    forall o | o in s.resting && o.id == id
      ensures ReservedFor(v, s.resting, id) == Due(v, o.ticker, o.price, o.quantity)
    {
      assert SizedOrder(o);
      CashIsDue(v, o.ticker, o.price, o.quantity);
    }
  }

  lemma {:induction false} OneOrderReserves(v: Venue, resting: seq<OpenOrder>, id: nat)
    requires InArrivalOrder(resting)
    ensures forall o :: o in resting && o.id == id ==>
              ReservedFor(v, resting, id) == Cash(v, o.ticker, o.price, o.quantity)
    ensures (forall o :: o in resting ==> o.id != id) ==> ReservedFor(v, resting, id) == 0
  {
    hide Cash;
    if resting != [] {
      OneOrderReserves(v, resting[1..], id);
      assert forall o :: o in resting <==> o == resting[0] || o in resting[1..];
      assert resting[0].id == id ==> forall o :: o in resting[1..] ==> o.id != id;
    }
  }
}
