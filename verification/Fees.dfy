/** The ceiling-rounded fee schedule every fill and reservation is charged through
    (windbreak/connector/fees.py). */
module Fees {
  import opened Numeric
  import opened Sums

  const PIPS_PER_DOLLAR := 10_000
  const MICROS_PER_CENT := 10_000
  const TRADING_CENT_DENOMINATOR := 100_000_000_000_000
  const SETTLEMENT_CENT_DENOMINATOR := 1_000_000

  datatype FeeModel = FeeModel(scheduleId: string, makerPpm: int, takerPpm: int, settlementPpm: int) {
    /** What construction enforces. */
    predicate Valid() {
      scheduleId != "" && makerPpm >= 0 && takerPpm >= 0 && settlementPpm >= 0
    }
  }

  datatype FeeError = PriceOutOfRange | CountNotPositive

  predicate ValidPrice(price: int) {
    0 <= price <= PIPS_PER_DOLLAR
  }

  /** The size-independent part of the fee numerator. */
  function FeeWeight(fm: FeeModel, price: int): (w: int)
    ensures fm.Valid() && ValidPrice(price) ==> w >= 0
  {
    var rate := Max(fm.makerPpm, fm.takerPpm);
    if fm.Valid() && ValidPrice(price) then
      WeightNonNegative(rate, price);
      rate * price * (PIPS_PER_DOLLAR - price)
    else
      rate * price * (PIPS_PER_DOLLAR - price)
  }

  lemma WeightNonNegative(rate: int, price: int)
    requires rate >= 0 && ValidPrice(price)
    ensures rate * price * (PIPS_PER_DOLLAR - price) >= 0
  {}

  /** The fee arithmetic with the guards stripped. */
  function TradingFee(fm: FeeModel, price: int, count: int): int
  {
    Cents(FeeWeight(fm, price) * count) * MICROS_PER_CENT
  }

  function Cents(numerator: int): int
  {
    Divide(numerator, TRADING_CENT_DENOMINATOR, OverstateCost)
  }

  /** What the ceiling adds to an exact numerator, in units of 1e-14 cent. */
  function Slack(numerator: int): (s: int)
    ensures 0 <= s < TRADING_CENT_DENOMINATOR
  {
    Cents(numerator) * TRADING_CENT_DENOMINATOR - numerator
  }

  /** The guarded bound: refuses a price outside [0, 10000] first, then a non-positive size.  The
      fee is the least whole number of cents at or above the dearer of the two rates applied to
      price times complement times size. */
  function MaxTradingFeeMicros(fm: FeeModel, price: int, count: int): (r: Result<int, FeeError>)
    ensures r.Ok? <==> 0 <= price <= 10_000 && count > 0
    ensures r.Err? ==> r.error == if 0 <= price <= 10_000 then CountNotPositive else PriceOutOfRange
    ensures r.Ok? ==> r.value % 10_000 == 0 && (fm.Valid() ==> r.value >= 0)
    ensures r.Ok? ==>
      var rate := if fm.makerPpm >= fm.takerPpm then fm.makerPpm else fm.takerPpm;
      0 <= r.value * 10_000_000_000 - rate * price * (10_000 - price) * count < 100_000_000_000_000
  {
    if !ValidPrice(price) then Err(PriceOutOfRange)
    else if count <= 0 then Err(CountNotPositive)
    else
      FeeFacts(fm, price, count);
      Ok(TradingFee(fm, price, count))
  }

  lemma FeeFacts(fm: FeeModel, price: int, count: int)
    requires count >= 0
    ensures TradingFee(fm, price, count) % MICROS_PER_CENT == 0
    ensures fm.Valid() && ValidPrice(price) ==> TradingFee(fm, price, count) >= 0
    ensures count == 0 ==> TradingFee(fm, price, count) == 0
  {}

  /** The worst-case settlement fee over a one-dollar payout. */
  function MaxSettlementFeeMicros(fm: FeeModel, count: int): (r: Result<int, FeeError>)
    ensures r.Ok? <==> count > 0
    ensures r.Err? ==> r.error == CountNotPositive
    ensures r.Ok? ==> r.value % 10_000 == 0 && (fm.Valid() ==> r.value >= 0)
    ensures r.Ok? ==> 0 <= r.value * 100 - fm.settlementPpm * count < 1_000_000
  {
    if count <= 0 then Err(CountNotPositive)
    else
      assert fm.Valid() ==> fm.settlementPpm * count >= 0;
      Ok(Divide(fm.settlementPpm * count, SETTLEMENT_CENT_DENOMINATOR, OverstateCost) * MICROS_PER_CENT)
  }

  /** Splitting one numerator in two costs nothing or exactly one cent, and which of the two is
      decided by whether the two roundings together fit under one cent. */
  lemma CentsSplit(x: int, y: int)
    ensures Cents(x) + Cents(y) == Cents(x + y) + (if Slack(x) + Slack(y) < TRADING_CENT_DENOMINATOR then 0 else 1)
  {}

  /** A fill of `a` out of `a + b` is fee-neutral exactly when the two slacks fit. */
  lemma FeeSplit(fm: FeeModel, price: int, a: int, b: int)
    ensures var w := FeeWeight(fm, price);
            TradingFee(fm, price, a) + TradingFee(fm, price, b)
            == TradingFee(fm, price, a + b)
               + (if Slack(w * a) + Slack(w * b) < TRADING_CENT_DENOMINATOR then 0 else MICROS_PER_CENT)
  {
    var w := FeeWeight(fm, price);
    assert w * (a + b) == w * a + w * b;
    CentsSplit(w * a, w * b);
  }

  function FeeOfSlices(fm: FeeModel, price: int, slices: seq<int>): int
  {
    if slices == [] then 0 else TradingFee(fm, price, slices[0]) + FeeOfSlices(fm, price, slices[1..])
  }

  /** Ceiling fees are subadditive, with less than one cent lost per extra slice. */
  lemma {:induction false} SlicedFeeBound(fm: FeeModel, price: int, slices: seq<int>)
    requires slices != []
    ensures var whole := TradingFee(fm, price, Sum(slices));
            whole <= FeeOfSlices(fm, price, slices) <= whole + (|slices| - 1) * MICROS_PER_CENT
  {
    if |slices| == 1 {
      assert slices[1..] == [];
      assert Sum(slices) == slices[0];
    } else {
      SlicedFeeBound(fm, price, slices[1..]);
      FeeSplit(fm, price, slices[0], Sum(slices[1..]));
    }
  }
}
