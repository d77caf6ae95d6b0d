/** The pessimistic taker walk over a recorded book side (windbreak/connector/fills.py). */
module TakerWalk {
  import opened Numeric
  import opened Sums
  import opened Fees

  const PPM_DENOMINATOR := 1_000_000

  datatype Level = Level(price: int, quantity: int)

  datatype TakerFill = TakerFill(
    consumed: seq<Level>, filled: int, bookCost: int, fee: int, haircut: int, totalCost: int)

  /** The most of `depth` one order may take, floored. */
  function ParticipationCap(depth: int, ppm: int): (cap: int)
    ensures cap * PPM_DENOMINATOR <= depth * ppm < (cap + 1) * PPM_DENOMINATOR
  {
    Divide(depth * ppm, PPM_DENOMINATOR, UnderstateEquity)
  }

  /** A participation share between 0 and 100% lands between nothing and the whole depth. */
  lemma CapWithinDepth(depth: int, ppm: int)
    requires depth >= 0 && 0 <= ppm <= PPM_DENOMINATOR
    ensures 0 <= ParticipationCap(depth, ppm) <= depth
  {}

  function Eligible(levels: seq<Level>, limit: int): (r: seq<Level>)
    ensures forall l :: l in r <==> l in levels && l.price <= limit
    ensures |r| <= |levels|
  {
    if levels == [] then []
    else if levels[0].price <= limit then [levels[0]] + Eligible(levels[1..], limit)
    else Eligible(levels[1..], limit)
  }

  function Depth(levels: seq<Level>): int
  {
    if levels == [] then 0 else levels[0].quantity + Depth(levels[1..])
  }

  /** Depth counting only the levels the walk does not step over. */
  function LiveDepth(levels: seq<Level>): (d: nat)
  {
    if levels == [] then 0 else Max(levels[0].quantity, 0) + LiveDepth(levels[1..])
  }

  function BookCost(slices: seq<Level>): int
  {
    if slices == [] then 0 else slices[0].price * slices[0].quantity + BookCost(slices[1..])
  }

  function SliceFees(fm: FeeModel, slices: seq<Level>): int
  {
    if slices == [] then 0
    else TradingFee(fm, slices[0].price, slices[0].quantity) + SliceFees(fm, slices[1..])
  }

  /** What the best-first walk takes: up to `target`, stepping over non-positive levels. */
  function Walk(levels: seq<Level>, target: int): seq<Level>
  {
    if levels == [] || target <= 0 then []
    else if levels[0].quantity <= 0 then Walk(levels[1..], target)
    else
      var take := Min(target, levels[0].quantity);
      [Level(levels[0].price, take)] + Walk(levels[1..], target - take)
  }

  lemma {:induction false} AccountAppend(fm: FeeModel, a: seq<Level>, b: seq<Level>)
    ensures Depth(a + b) == Depth(a) + Depth(b)
    ensures BookCost(a + b) == BookCost(a) + BookCost(b)
    ensures SliceFees(fm, a + b) == SliceFees(fm, a) + SliceFees(fm, b)
  {
    if a == [] {
      assert a + b == b;
    } else {
      assert (a + b)[1..] == a[1..] + b;
      AccountAppend(fm, a[1..], b);
    }
  }

  ghost predicate ValidLevels(levels: seq<Level>)
  {
    forall l :: l in levels ==> ValidPrice(l.price)
  }

  ghost predicate NonNegativeLevels(levels: seq<Level>)
  {
    forall l :: l in levels ==> l.quantity >= 0
  }

  /** The loop of the walk.  Fees are priced through the guarded schedule, which never refuses
      because every slice is positive. */
  method ConsumeLevels(eligible: seq<Level>, target: int, fm: FeeModel)
    returns (consumed: seq<Level>, bookCost: int, fee: int)
    requires ValidLevels(eligible)
    ensures consumed == Walk(eligible, target)
    ensures bookCost == BookCost(consumed) && fee == SliceFees(fm, consumed)
  {
    hide TradingFee;
    consumed, bookCost, fee := [], 0, 0;
    var remaining := target;
    var i := 0;
    while i < |eligible|
      invariant 0 <= i <= |eligible|
      invariant Walk(eligible, target) == consumed + Walk(eligible[i..], remaining)
      invariant bookCost == BookCost(consumed) && fee == SliceFees(fm, consumed)
    {
      if remaining <= 0 { break; }
      var level := eligible[i];
      assert eligible[i..][0] == level && eligible[i..][1..] == eligible[i + 1..];
      i := i + 1;
      if level.quantity <= 0 { continue; }
      var take := Min(remaining, level.quantity);
      var slice := Level(level.price, take);
      assert level in eligible;
      var charged := MaxTradingFeeMicros(fm, level.price, take);
      AccountAppend(fm, consumed, [slice]);
      assert Walk(eligible, target) == (consumed + [slice]) + Walk(eligible[i..], remaining - take);
      consumed := consumed + [slice];
      bookCost := bookCost + level.price * take;
      fee := fee + charged.value;
      remaining := remaining - take;
    }
    assert Walk(eligible[i..], remaining) == [];
  }

  /** The whole taker walk as a value. */
  function Take(levels: seq<Level>, limit: int, requested: int, fm: FeeModel, haircutPpm: int, ppm: int): TakerFill
  {
    var eligible := Eligible(levels, limit);
    var filled := Min(requested, ParticipationCap(Depth(eligible), ppm));
    var consumed := Walk(eligible, filled);
    var cost, fee := BookCost(consumed), SliceFees(fm, consumed);
    var haircut := Divide(fee * haircutPpm, PPM_DENOMINATOR, OverstateCost);
    TakerFill(consumed, filled, cost, fee, haircut, cost + fee + haircut)
  }

  method WalkTakerFill(levels: seq<Level>, limit: int, requested: int, fm: FeeModel, haircutPpm: int, ppm: int)
    returns (r: TakerFill)
    requires ValidLevels(levels)
    ensures r == Take(levels, limit, requested, fm, haircutPpm, ppm)
  {
    var eligible := Eligible(levels, limit);
    var filled := Min(requested, ParticipationCap(Depth(eligible), ppm));
    var consumed, cost, fee := ConsumeLevels(eligible, filled, fm);
    var haircut := Divide(fee * haircutPpm, PPM_DENOMINATOR, OverstateCost);
    r := TakerFill(consumed, filled, cost, fee, haircut, cost + fee + haircut);
  }

  // ---------------------------------------------------------------- what the walk takes

  /** The walk lands exactly on its target, or on everything there is. */
  lemma {:induction false} WalkTotal(levels: seq<Level>, target: int)
    ensures Depth(Walk(levels, target)) == Min(Max(target, 0), LiveDepth(levels))
    ensures forall s :: s in Walk(levels, target) ==>
      s.quantity > 0 && exists l :: l in levels && l.price == s.price && s.quantity <= l.quantity
  {
    if levels != [] && target > 0 {
      var take := Min(target, Max(levels[0].quantity, 0));
      WalkTotal(levels[1..], target - take);
      assert levels[0] in levels;
      forall s | s in Walk(levels, target)
        ensures s.quantity > 0 && exists l :: l in levels && l.price == s.price && s.quantity <= l.quantity
      {
        if s in Walk(levels[1..], target - take) {
          var l :| l in levels[1..] && l.price == s.price && s.quantity <= l.quantity;
          assert l in levels;
        }
      }
    }
  }

  lemma {:induction false} LiveDepthOfNonNegative(levels: seq<Level>)
    requires NonNegativeLevels(levels)
    ensures LiveDepth(levels) == Depth(levels) >= 0
  {
    if levels != [] {
      assert forall l :: l in levels[1..] ==> l in levels;
      assert levels[0] in levels;
      LiveDepthOfNonNegative(levels[1..]);
    }
  }

  /** The slices account for `filled` exactly when neither the request nor the share is negative
      and one of the two stays within the live depth. */
  lemma FilledIsWalkedExactly(levels: seq<Level>, limit: int, requested: int, fm: FeeModel, haircutPpm: int, ppm: int)
    ensures var r := Take(levels, limit, requested, fm, haircutPpm, ppm);
            var eligible := Eligible(levels, limit);
            var depth, live := Depth(eligible), LiveDepth(eligible);
            Depth(r.consumed) == r.filled
            <==> requested >= 0 && depth * ppm >= 0 && (requested <= live || depth * ppm < (live + 1) * PPM_DENOMINATOR)
  {
    var r := Take(levels, limit, requested, fm, haircutPpm, ppm);
    WalkTotal(Eligible(levels, limit), r.filled);
  }

  /** A share above 100% reports twice what a lone level holds. */
  lemma OversizedShareOverfills(fm: FeeModel, haircutPpm: int)
    ensures var r := Take([Level(5_000, 10)], 5_000, 20, fm, haircutPpm, 2_000_000);
            r.filled == 20 && Depth(r.consumed) == 10
  {
    var levels := [Level(5_000, 10)];
    assert levels[1..] == [] && Eligible(levels, 5_000) == levels;
    assert Depth(levels) == 10 && LiveDepth(levels) == 10;
    WalkTotal(levels, 20);
  }

  /** On a recorded book: slices sum to `filled`, every slice is at or better than the limit,
      `filled` respects the request and the floored participation share, and the total is the
      slices' own cost plus a haircut rounded against the trader. */
  lemma TakerFillIsBounded(levels: seq<Level>, limit: int, requested: int, fm: FeeModel, haircutPpm: int, ppm: int)
    requires NonNegativeLevels(levels) && 0 <= ppm <= PPM_DENOMINATOR
    ensures var r := Take(levels, limit, requested, fm, haircutPpm, ppm);
            var depth := Depth(Eligible(levels, limit));
            && r.filled <= requested
            && r.filled * PPM_DENOMINATOR <= depth * ppm
            && (r.filled == requested || (r.filled + 1) * PPM_DENOMINATOR > depth * ppm)
            && r.filled <= depth
            && (requested >= 0 ==> r.filled >= 0)
            && Depth(r.consumed) == Max(r.filled, 0)
            && (forall s :: s in r.consumed ==> s.price <= limit && s.quantity > 0)
            && 0 <= r.haircut * PPM_DENOMINATOR - r.fee * haircutPpm < PPM_DENOMINATOR
            && r.totalCost - r.haircut == BookCost(r.consumed) + SliceFees(fm, r.consumed)
  {
    var r := Take(levels, limit, requested, fm, haircutPpm, ppm);
    var eligible := Eligible(levels, limit);
    LiveDepthOfNonNegative(eligible);
    CapWithinDepth(Depth(eligible), ppm);
    WalkTotal(eligible, r.filled);
  }

  // ---------------------------------------------------------------- least cost

  ghost predicate BestFirst(levels: seq<Level>)
  {
    forall a, b :: 0 <= a < b < |levels| ==> levels[a].price <= levels[b].price
  }

  lemma {:induction false} EligibleKeepsBestFirst(levels: seq<Level>, limit: int)
    requires BestFirst(levels)
    ensures BestFirst(Eligible(levels, limit))
  {
    if levels != [] {
      EligibleKeepsBestFirst(levels[1..], limit);
      var rest := Eligible(levels[1..], limit);
      forall b | 0 <= b < |rest| ensures levels[0].price <= rest[b].price {
        assert rest[b] in levels[1..];
      }
    }
  }

  /** A way of taking `total` from the levels: how much from each. */
  ghost predicate IsSelection(levels: seq<Level>, total: int, amounts: seq<int>)
  {
    && |amounts| == |levels|
    && (forall i :: 0 <= i < |levels| ==> 0 <= amounts[i] <= Max(levels[i].quantity, 0))
    && Sum(amounts) == total
  }

  function SelectionCost(levels: seq<Level>, amounts: seq<int>): int
    requires |amounts| == |levels|
  {
    if levels == [] then 0 else levels[0].price * amounts[0] + SelectionCost(levels[1..], amounts[1..])
  }

  /** The walk, read as a selection. */
  function WalkAmounts(levels: seq<Level>, target: int): (amounts: seq<int>)
    ensures |amounts| == |levels|
  {
    if levels == [] then []
    else
      var take := if target <= 0 then 0 else Min(target, Max(levels[0].quantity, 0));
      [take] + WalkAmounts(levels[1..], target - take)
  }

  lemma {:induction false} WalkIsASelection(levels: seq<Level>, target: int)
    requires 0 <= target <= LiveDepth(levels)
    ensures IsSelection(levels, target, WalkAmounts(levels, target))
    ensures SelectionCost(levels, WalkAmounts(levels, target)) == BookCost(Walk(levels, target))
  {
    if levels != [] {
      var amounts := WalkAmounts(levels, target);
      WalkIsASelection(levels[1..], target - amounts[0]);
      assert amounts[1..] == WalkAmounts(levels[1..], target - amounts[0]);
      assert Walk(levels[1..], 0) == [];
      assert forall i :: 1 <= i < |levels| ==> levels[i] == levels[1..][i - 1] && amounts[i] == amounts[1..][i - 1];
    }
  }

  lemma DearerUnits(p: int, floor: int, small: int, large: int, more: int)
    requires p >= floor && large >= small
    ensures p * large - p * small >= floor * more - floor * (more - (large - small))
  {}

  /** Asking for `more` beyond `target` costs at least the floor price per unit. */
  lemma {:induction false} WalkGrows(levels: seq<Level>, target: int, more: int, floor: int)
    requires target >= 0 && more >= 0 && target + more <= LiveDepth(levels)
    requires forall l :: l in levels ==> l.price >= floor
    ensures BookCost(Walk(levels, target + more)) >= BookCost(Walk(levels, target)) + floor * more
  {
    hide Walk, BookCost;
    if levels != [] && more > 0 {
      var q := Max(levels[0].quantity, 0);
      var small, large := Min(target, q), Min(target + more, q);
      assert forall l :: l in levels[1..] ==> l in levels;
      WalkGrows(levels[1..], target - small, more - (large - small), floor);
      assert levels[0] in levels;
      HeadCost(levels, target);
      HeadCost(levels, target + more);
      DearerUnits(levels[0].price, floor, small, large, more);
    }
  }

  lemma HeadCost(levels: seq<Level>, target: int)
    requires levels != [] && target >= 0
    ensures var take := Min(target, Max(levels[0].quantity, 0));
            BookCost(Walk(levels, target)) == levels[0].price * take + BookCost(Walk(levels[1..], target - take))
  {}

  lemma TailIsDearer(levels: seq<Level>)
    requires BestFirst(levels) && levels != []
    ensures BestFirst(levels[1..]) && forall l :: l in levels[1..] ==> l.price >= levels[0].price
  {
    var tail := levels[1..];
    assert forall i :: 0 <= i < |tail| ==> tail[i] == levels[i + 1];
  }

  lemma TailIsSelection(levels: seq<Level>, total: int, amounts: seq<int>)
    requires IsSelection(levels, total, amounts) && levels != []
    ensures amounts != [] && 0 <= amounts[0] <= Max(levels[0].quantity, 0)
    ensures IsSelection(levels[1..], total - amounts[0], amounts[1..])
    ensures SelectionCost(levels, amounts) == levels[0].price * amounts[0] + SelectionCost(levels[1..], amounts[1..])
  {
    assert forall i :: 0 <= i < |levels| - 1 ==> levels[1..][i] == levels[i + 1] && amounts[1..][i] == amounts[i + 1];
  }

  lemma NoLevelsNoCost(total: int, amounts: seq<int>)
    requires IsSelection([], total, amounts)
    ensures total == 0 && LiveDepth([]) == 0 && BookCost(Walk([], total)) == SelectionCost([], amounts) == 0
  {}

  lemma LiveDepthUnfolds(levels: seq<Level>)
    requires levels != []
    ensures LiveDepth(levels) == Max(levels[0].quantity, 0) + LiveDepth(levels[1..])
  {}

  /** On a best-first book no other way of taking the same quantity is cheaper. */
  lemma {:induction false} WalkIsLeastCost(levels: seq<Level>, total: int, amounts: seq<int>)
    requires BestFirst(levels) && IsSelection(levels, total, amounts)
    ensures 0 <= total <= LiveDepth(levels)
    ensures BookCost(Walk(levels, total)) <= SelectionCost(levels, amounts)
  {
    hide Walk, BookCost, SelectionCost, LiveDepth, IsSelection, BestFirst;
    if levels == [] {
      NoLevelsNoCost(total, amounts);
    } else {
      TailIsDearer(levels);
      TailIsSelection(levels, total, amounts);
      WalkIsLeastCost(levels[1..], total - amounts[0], amounts[1..]);
      LiveDepthUnfolds(levels);
      var p, take := levels[0].price, Min(total, Max(levels[0].quantity, 0));
      WalkGrows(levels[1..], total - take, take - amounts[0], p);
      HeadCost(levels, total);
      Distribute(p, take, amounts[0]);
    }
  }

  lemma Distribute(p: int, a: int, b: int)
    ensures p * (a - b) == p * a - p * b
  {}

  /** The book cost `walk_taker_fill` reports is the least any selection of the filled quantity
      from the eligible levels could cost, and the walk attains it. */
  lemma TakerFillIsLeastCost(levels: seq<Level>, limit: int, requested: int, fm: FeeModel, haircutPpm: int, ppm: int)
    requires BestFirst(levels) && NonNegativeLevels(levels) && 0 <= ppm <= PPM_DENOMINATOR && requested >= 0
    ensures var r := Take(levels, limit, requested, fm, haircutPpm, ppm);
            var eligible := Eligible(levels, limit);
            && (exists amounts ::
                  IsSelection(eligible, r.filled, amounts) && SelectionCost(eligible, amounts) == r.bookCost)
            && (forall amounts :: IsSelection(eligible, r.filled, amounts) ==>
                  r.bookCost <= SelectionCost(eligible, amounts))
  {
    var r := Take(levels, limit, requested, fm, haircutPpm, ppm);
    var eligible := Eligible(levels, limit);
    TakerFillIsBounded(levels, limit, requested, fm, haircutPpm, ppm);
    LiveDepthOfNonNegative(eligible);
    EligibleKeepsBestFirst(levels, limit);
    WalkIsASelection(eligible, r.filled);
    forall amounts | IsSelection(eligible, r.filled, amounts)
      ensures r.bookCost <= SelectionCost(eligible, amounts)
    {
      WalkIsLeastCost(eligible, r.filled, amounts);
    }
  }
}
