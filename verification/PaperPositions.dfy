/** Positions folded from the fill log (windbreak/connector/paper.py). */
module PaperPositions {
  import opened Numeric
  import opened Sums
  import opened PaperModel
  import opened PaperInvariant
  import opened PaperDuality

  type Key = (Ticker, Side)

  datatype SideTotals = SideTotals(quantity: int, notional: int)

  datatype Position = Position(ticker: Ticker, quantity: int, averagePrice: int)

  /** Contracts and money filled on one side of one ticker. */
  function SideQuantity(fills: seq<Fill>, key: Key): int
  {
    if fills == [] then 0
    else (if (fills[0].ticker, fills[0].side) == key then fills[0].quantity else 0) + SideQuantity(fills[1..], key)
  }

  function SideNotional(fills: seq<Fill>, key: Key): int
  {
    if fills == [] then 0
    else (if (fills[0].ticker, fills[0].side) == key then fills[0].price * fills[0].quantity
        else 0) + SideNotional(fills[1..], key)
  }

  predicate Traded(fills: seq<Fill>, key: Key)
  {
    exists f :: f in fills && (f.ticker, f.side) == key
  }

  ghost predicate TwoSided(fills: seq<Fill>, ticker: Ticker)
  {
    Traded(fills, (ticker, Yes)) && Traded(fills, (ticker, No))
  }

  ghost predicate SomeTwoSided(fills: seq<Fill>)
  {
    exists t :: TwoSided(fills, t)
  }

  /** The fold's result: an entry exactly for each traded slice, holding its two sums. */
  ghost predicate IsTotals(fills: seq<Fill>, totals: map<Key, SideTotals>)
  {
    && (forall key :: key in totals <==> Traded(fills, key))
    && (forall key :: key in totals ==> totals[key] == SideTotals(SideQuantity(fills, key), SideNotional(fills, key)))
  }

  lemma {:induction false} SumsAppend(fills: seq<Fill>, f: Fill, key: Key)
    ensures SideQuantity(fills + [f], key) == SideQuantity(fills, key) + if (f.ticker, f.side) == key then f.quantity
        else 0
    ensures SideNotional(fills + [f], key) == SideNotional(fills, key) + if (f.ticker, f.side) == key then
        f.price * f.quantity else 0
  {
    if fills == [] {
      assert [f][1..] == [] && fills + [f] == [f];
    } else {
      assert (fills + [f])[1..] == fills[1..] + [f];
      SumsAppend(fills[1..], f, key);
    }
  }

  lemma {:induction false} UntradedSums(fills: seq<Fill>, key: Key)
    requires !Traded(fills, key)
    ensures SideQuantity(fills, key) == 0 && SideNotional(fills, key) == 0
  {
    if fills != [] {
      assert fills[0] in fills && forall f :: f in fills[1..] ==> f in fills;
      UntradedSums(fills[1..], key);
    }
  }

  method FillTotals(fills: seq<Fill>) returns (totals: map<Key, SideTotals>)
    ensures IsTotals(fills, totals)
  {
    totals := map[];
    var i := 0;
    while i < |fills|
      invariant 0 <= i <= |fills|
      invariant IsTotals(fills[..i], totals)
    {
      var f := fills[i];
      var key := (f.ticker, f.side);
      var entry := if key in totals then totals[key] else SideTotals(0, 0);
      ghost var before := totals;
      totals := totals[key := SideTotals(entry.quantity + f.quantity, entry.notional + f.price * f.quantity)];
      assert fills[..i + 1] == fills[..i] + [f];
      forall k ensures Traded(fills[..i + 1], k) <==> k == key || Traded(fills[..i], k)
      {
        assert f in fills[..i + 1];
      }
      forall k | k in totals
        ensures totals[k] == SideTotals(SideQuantity(fills[..i + 1], k), SideNotional(fills[..i + 1], k))
      {
        SumsAppend(fills[..i], f, k);
        if k !in before { UntradedSums(fills[..i], k); }
      }
      i := i + 1;
    }
    assert fills[..|fills|] == fills;
  }

  /** One side's totals as a YES-frame row. */
  function PositionRow(key: Key, totals: SideTotals): Position
    requires totals.quantity != 0
  {
    var average := Divide(totals.notional, totals.quantity, UnderstateEquity);
    if key.1.Yes? then Position(key.0, totals.quantity, average)
    else Position(key.0, -totals.quantity, COMPLEMENT_PIPS - average)
  }

  /** A row is signed by its side, and its price is within a pip of notional over quantity on
      the side that understates equity: the floor of a YES average, and for a NO holding a
      ceiling in the YES frame that is again the floor in its own. */
  lemma RowIsConservative(key: Key, totals: SideTotals)
    requires totals.quantity > 0
    ensures var row := PositionRow(key, totals);
            var q, n := totals.quantity, totals.notional;
            && row.quantity == (if key.1.Yes? then q else -q)
            && (key.1.Yes? ==> row.averagePrice * q <= n < (row.averagePrice + 1) * q)
            && (key.1.No? ==>
                  && (COMPLEMENT_PIPS - row.averagePrice) * q <= n < (COMPLEMENT_PIPS - row.averagePrice + 1) * q
                  && (row.averagePrice - 1) * q < COMPLEMENT_PIPS * q - n <= row.averagePrice * q)
  {}

  // ---------------------------------------------------------------- the report

  predicate KeyLess(a: Key, b: Key)
  {
    a.0 < b.0 || (a.0 == b.0 && a.1.No? && b.1.Yes?)
  }

  method LeastKey(keys: set<Key>) returns (k: Key)
    requires keys != {}
    ensures k in keys && forall x :: x in keys ==> x == k || KeyLess(k, x)
  {
    k :| k in keys;
    var rest := keys - {k};
    while rest != {}
      invariant rest <= keys && k in keys
      invariant forall x :: x in keys && x !in rest ==> x == k || KeyLess(k, x)
      decreases rest
    {
      var x :| x in rest;
      if KeyLess(x, k) { k := x; }
      rest := rest - {x};
    }
  }

  ghost predicate RowFor(fills: seq<Fill>, row: Position, key: Key)
  {
    && key.0 == row.ticker && Traded(fills, key) && SideQuantity(fills, key) != 0
    && row == PositionRow(key, SideTotals(SideQuantity(fills, key), SideNotional(fills, key)))
  }

  ghost predicate RowOf(fills: seq<Fill>, row: Position)
  {
    RowFor(fills, row, (row.ticker, Yes)) || RowFor(fills, row, (row.ticker, No))
  }

  /** What `get_positions` answers: refuse with the first two-sided ticker, or one row per traded
      ticker in ticker order. */
  ghost predicate IsReport(fills: seq<Fill>, r: Result<seq<Position>, Ticker>)
  {
    match r
    case Err(ticker) => TwoSided(fills, ticker) && forall t :: TwoSided(fills, t) ==> ticker <= t
    case Ok(rows) =>
      && (forall t :: !TwoSided(fills, t))
      && (forall i, j :: 0 <= i < j < |rows| ==> rows[i].ticker < rows[j].ticker)
      && (forall row :: row in rows ==> RowOf(fills, row))
      && (forall key :: Traded(fills, key) ==> exists row :: row in rows && row.ticker == key.0)
  }

  ghost predicate Reported(totals: map<Key, SideTotals>, rest: set<Key>, key: Key)
  {
    key in totals && key !in rest
  }

  /** Between two keys: everything reported is smaller, and no ticker was reported twice. */
  ghost predicate Progress(totals: map<Key, SideTotals>, rest: set<Key>, seen: set<Ticker>)
  {
    && rest <= totals.Keys
    && (forall a, b :: Reported(totals, rest, a) && b in rest ==> KeyLess(a, b))
    && (forall t :: t in seen <==> Reported(totals, rest, (t, Yes)) || Reported(totals, rest, (t, No)))
    && (forall t :: !(Reported(totals, rest, (t, Yes)) && Reported(totals, rest, (t, No))))
  }

  /** Rows so far: one per seen ticker, in ticker order, each faithful. */
  ghost predicate RowsFor(fills: seq<Fill>, rows: seq<Position>, seen: set<Ticker>)
  {
    && (forall t :: t in seen ==> exists row :: row in rows && row.ticker == t)
    && (forall row :: row in rows ==> row.ticker in seen && RowOf(fills, row))
    && (forall i, j :: 0 <= i < j < |rows| ==> rows[i].ticker < rows[j].ticker)
  }

  lemma ProgressStep(totals: map<Key, SideTotals>, rest: set<Key>, seen: set<Ticker>, key: Key)
    requires Progress(totals, rest, seen) && key in rest && forall x :: x in rest ==> x == key || KeyLess(key, x)
    requires key.0 !in seen
    ensures Progress(totals, rest - {key}, seen + {key.0})
    ensures forall t :: t in seen ==> t < key.0
  {
    forall t | t in seen ensures t < key.0 {
      var side := if Reported(totals, rest, (t, Yes)) then Yes else No;
      assert Reported(totals, rest, (t, side));
      assert KeyLess((t, side), key);
    }
    var left := rest - {key};
    forall k ensures Reported(totals, left, k) <==> k == key || Reported(totals, rest, k) {}
    forall t ensures t in seen + {key.0} <==> Reported(totals, left, (t, Yes)) || Reported(totals, left, (t, No)) {
      match key.1 {
        case Yes => assert key == (key.0, Yes);
        case No => assert key == (key.0, No);
      }
    }
  }

  /** Meeting a seen ticker again means both its sides traded, and no smaller ticker's did. */
  lemma SeenTwice(fills: seq<Fill>, totals: map<Key, SideTotals>, rest: set<Key>, seen: set<Ticker>, key: Key)
    requires IsTotals(fills, totals) && Progress(totals, rest, seen)
    requires key in rest && key.0 in seen && forall x :: x in rest ==> x == key || KeyLess(key, x)
    ensures IsReport(fills, Err(key.0))
  {}

  lemma AllReported(fills: seq<Fill>, totals: map<Key, SideTotals>, seen: set<Ticker>, rows: seq<Position>)
    requires IsTotals(fills, totals) && Progress(totals, {}, seen) && RowsFor(fills, rows, seen)
    ensures IsReport(fills, Ok(rows))
  {
    forall t ensures !TwoSided(fills, t) {
      var missing := if Reported(totals, {}, (t, Yes)) then (t, No) else (t, Yes);
      assert missing !in totals;
    }
    forall key | Traded(fills, key) ensures exists row :: row in rows && row.ticker == key.0 {
      assert key in totals;
      assert Reported(totals, {}, key);
      match key.1 {
        case Yes => assert key == (key.0, Yes);
        case No => assert key == (key.0, No);
      }
      assert key.0 in seen;
    }
  }

  lemma RowsStep(fills: seq<Fill>, rows: seq<Position>, seen: set<Ticker>, row: Position)
    requires RowsFor(fills, rows, seen) && RowOf(fills, row) && forall t :: t in seen ==> t < row.ticker
    ensures RowsFor(fills, rows + [row], seen + {row.ticker})
  {}

  method GetPositions(fills: seq<Fill>) returns (r: Result<seq<Position>, Ticker>)
    requires forall f :: f in fills ==> f.quantity > 0
    ensures IsReport(fills, r)
  {
    var totals := FillTotals(fills);
    var rows: seq<Position> := [];
    var seen: set<Ticker> := {};
    var rest := totals.Keys;
    while rest != {}
      invariant Progress(totals, rest, seen)
      invariant RowsFor(fills, rows, seen)
      decreases rest
    {
      var key := LeastKey(rest);
      if key.0 in seen {
        SeenTwice(fills, totals, rest, seen, key);
        return Err(key.0);
      }
      TradedIsPositive(fills, key);
      var row := PositionRow(key, totals[key]);
      assert RowFor(fills, row, key);
      ProgressStep(totals, rest, seen, key);
      RowsStep(fills, rows, seen, row);
      seen := seen + {key.0};
      rows := rows + [row];
      rest := rest - {key};
    }
    AllReported(fills, totals, seen, rows);
    r := Ok(rows);
  }

  lemma {:induction false} QuantityNonNegative(fills: seq<Fill>, key: Key)
    requires forall f :: f in fills ==> f.quantity > 0
    ensures SideQuantity(fills, key) >= 0
  {
    if fills != [] {
      assert fills[0] in fills && forall f :: f in fills[1..] ==> f in fills;
      QuantityNonNegative(fills[1..], key);
    }
  }

  lemma {:induction false} TradedIsPositive(fills: seq<Fill>, key: Key)
    requires forall f :: f in fills ==> f.quantity > 0
    requires Traded(fills, key)
    ensures SideQuantity(fills, key) > 0
  {
    assert fills[0] in fills && forall f :: f in fills[1..] ==> f in fills;
    if (fills[0].ticker, fills[0].side) == key {
      QuantityNonNegative(fills[1..], key);
    } else {
      var f :| f in fills && (f.ticker, f.side) == key;
      assert f in fills[1..];
      TradedIsPositive(fills[1..], key);
    }
  }

  /** The fold refuses exactly when some ticker filled on both sides, and every row it reports
      is the signed sum of that ticker's fills at a conservative average. */
  lemma ReportIsFaithful(v: Venue, ops: seq<Op>, r: Result<seq<Position>, Ticker>)
    requires IsReport(Run(v, ops).fills, r)
    ensures r.Err? <==> SomeTwoSided(Run(v, ops).fills)
    ensures r.Ok? ==> forall row :: row in r.value ==> RowIsFaithful(Run(v, ops).fills, row)
    ensures r.Ok? ==> forall f :: f in Run(v, ops).fills ==> exists row :: row in r.value && row.ticker == f.ticker
    ensures r.Ok? ==> forall i, j :: 0 <= i < j < |r.value| ==> r.value[i].ticker < r.value[j].ticker
  {
    RunIsSound(v, ops);
    ReportMeans(Run(v, ops).fills, r);
    if r.Ok? {
      forall f | f in Run(v, ops).fills ensures exists row :: row in r.value && row.ticker == f.ticker {
        assert Traded(Run(v, ops).fills, (f.ticker, f.side));
      }
    }
  }

  lemma ReportMeans(fills: seq<Fill>, r: Result<seq<Position>, Ticker>)
    requires forall f :: f in fills ==> SizedFill(f)
    requires IsReport(fills, r)
    ensures r.Err? <==> SomeTwoSided(fills)
    ensures r.Ok? ==> forall row :: row in r.value ==> RowIsFaithful(fills, row)
  {
    match r
    case Err(t) => assert TwoSided(fills, t);
    case Ok(rows) =>
      forall row | row in rows ensures RowIsFaithful(fills, row) {
        assert RowOf(fills, row);
        RowMeansSum(fills, row);
      }
  }

  /** What each fill adds to one side of one market: contracts, and money paid. */
  function Bought(fills: seq<Fill>, ticker: Ticker, side: Side): (r: seq<int>)
    ensures |r| == |fills|
    ensures forall k :: 0 <= k < |r| ==>
              r[k] == if fills[k].ticker == ticker && fills[k].side == side then fills[k].quantity else 0
  {
    seq(|fills|, k requires 0 <= k < |fills| =>
      if fills[k].ticker == ticker && fills[k].side == side then fills[k].quantity else 0)
  }

  function Paid(fills: seq<Fill>, ticker: Ticker): (r: seq<int>)
    ensures |r| == |fills|
    ensures forall k :: 0 <= k < |r| ==>
              r[k] == if fills[k].ticker == ticker then fills[k].price * fills[k].quantity else 0
  {
    seq(|fills|, k requires 0 <= k < |fills| =>
      if fills[k].ticker == ticker then fills[k].price * fills[k].quantity else 0)
  }

  lemma {:induction false} SumsAreBought(fills: seq<Fill>, ticker: Ticker)
    ensures SideQuantity(fills, (ticker, Yes)) == Sum(Bought(fills, ticker, Yes))
    ensures SideQuantity(fills, (ticker, No)) == Sum(Bought(fills, ticker, No))
    ensures SideNotional(fills, (ticker, Yes)) + SideNotional(fills, (ticker, No)) == Sum(Paid(fills, ticker))
  {
    if fills != [] {
      SumsAreBought(fills[1..], ticker);
      assert Bought(fills, ticker, Yes)[1..] == Bought(fills[1..], ticker, Yes);
      assert Bought(fills, ticker, No)[1..] == Bought(fills[1..], ticker, No);
      assert Paid(fills, ticker)[1..] == Paid(fills[1..], ticker);
    }
  }

  /** Signed quantity is YES minus NO contracts, and the average, in the holder's own frame, is the
      whole pip at or just below what was paid per contract. */
  ghost predicate RowIsFaithful(fills: seq<Fill>, row: Position)
  {
    var yes, no := Sum(Bought(fills, row.ticker, Yes)), Sum(Bought(fills, row.ticker, No));
    var paid := Sum(Paid(fills, row.ticker));
    var own := if row.quantity > 0 then row.averagePrice else 10_000 - row.averagePrice;
    && row.quantity == yes - no != 0
    && own * (yes + no) <= paid < (own + 1) * (yes + no)
  }

  lemma RowMeansSum(fills: seq<Fill>, row: Position)
    requires forall f :: f in fills ==> SizedFill(f)
    requires !TwoSided(fills, row.ticker) && RowOf(fills, row)
    ensures RowIsFaithful(fills, row)
  {
    var yes, no := (row.ticker, Yes), (row.ticker, No);
    var key, other := if RowFor(fills, row, yes) then yes else no, if RowFor(fills, row, yes) then no else yes;
    hide Sum;
    SumsAreBought(fills, row.ticker);
    UntradedSums(fills, other);
    TradedIsPositive(fills, key);
    RowIsConservative(key, SideTotals(SideQuantity(fills, key), SideNotional(fills, key)));
  }

  // ---------------------------------------------------------------- duality

  function FlipRow(row: Position): Position
  {
    Position(row.ticker, -row.quantity, COMPLEMENT_PIPS - row.averagePrice)
  }

  function FlipReport(r: Result<seq<Position>, Ticker>): Result<seq<Position>, Ticker>
  {
    match r case Err(t) => Err(t) case Ok(rows) => Ok(seq(|rows|, k requires 0 <= k < |rows| => FlipRow(rows[k])))
  }

  lemma {:induction false} SumsAreDual(fills: seq<Fill>, key: Key)
    ensures SideQuantity(FlipFills(fills), (key.0, Flip(key.1))) == SideQuantity(fills, key)
    ensures SideNotional(FlipFills(fills), (key.0, Flip(key.1))) == SideNotional(fills, key)
  {
    if fills != [] {
      assert FlipFills(fills)[1..] == FlipFills(fills[1..]);
      SumsAreDual(fills[1..], key);
    }
  }

  lemma TradedIsDual(fills: seq<Fill>, key: Key)
    ensures Traded(FlipFills(fills), (key.0, Flip(key.1))) == Traded(fills, key)
  {}

  lemma RowForIsDual(fills: seq<Fill>, row: Position, key: Key)
    requires RowFor(fills, row, key)
    ensures RowFor(FlipFills(fills), FlipRow(row), (key.0, Flip(key.1)))
  {
    TradedIsDual(fills, key);
    SumsAreDual(fills, key);
  }

  lemma TwoSidedIsDual(fills: seq<Fill>, t: Ticker)
    ensures TwoSided(FlipFills(fills), t) == TwoSided(fills, t)
  {
    TradedIsDual(fills, (t, Yes));
    TradedIsDual(fills, (t, No));
  }

  lemma RowOfIsDual(fills: seq<Fill>, row: Position)
    requires RowOf(fills, row)
    ensures RowOf(FlipFills(fills), FlipRow(row))
  {
    hide RowFor, FlipFills;
    var key := if RowFor(fills, row, (row.ticker, Yes)) then (row.ticker, Yes) else (row.ticker, No);
    RowForIsDual(fills, row, key);
  }

  /** The dual run's positions are the original's with sign and frame flipped. */
  lemma ReportIsDual(fills: seq<Fill>, r: Result<seq<Position>, Ticker>)
    requires IsReport(fills, r)
    ensures IsReport(FlipFills(fills), FlipReport(r))
  {
    hide FlipFills, Traded, TwoSided, RowOf;
    var flipped := FlipFills(fills);
    forall t ensures TwoSided(flipped, t) == TwoSided(fills, t) { TwoSidedIsDual(fills, t); }
    if r.Ok? {
      var rows, dual := r.value, FlipReport(r).value;
      forall row | row in dual ensures RowOf(flipped, row) {
        var k :| 0 <= k < |dual| && dual[k] == row;
        assert rows[k] in rows;
        RowOfIsDual(fills, rows[k]);
      }
      forall key | Traded(flipped, key) ensures exists row :: row in dual && row.ticker == key.0 {
        TradedIsDual(fills, (key.0, Flip(key.1)));
        assert Traded(fills, (key.0, Flip(key.1)));
        var row :| row in rows && row.ticker == key.0;
        var k :| 0 <= k < |rows| && rows[k] == row;
        assert dual[k] in dual;
      }
    }
  }

  /** Over whole runs: the flipped calls on the complemented recording report the same positions
      with every sign and frame flipped. */
  lemma PositionsAreDual(v: Venue, ops: seq<Op>, r: Result<seq<Position>, Ticker>)
    requires IsReport(Run(v, ops).fills, r)
    ensures IsReport(Run(FlipVenue(v), FlipOps(ops)).fills, FlipReport(r))
  {
    hide Run, IsReport, FlipReport;
    RunIsDual(v, ops);
    ReportIsDual(Run(v, ops).fills, r);
  }
}
