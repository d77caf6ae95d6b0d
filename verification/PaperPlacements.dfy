/** What a placement does, over every run and on the recorded book alone: how much fills, at what
    cost, and what is left to rest (windbreak/connector/paper.py, fills.py). */
module PaperPlacements {
  import opened Numeric
  import opened Sums
  import opened TakerWalk
  import opened PaperModel
  import opened PaperRules
  import opened PaperInvariant
  import opened PaperAccounting
  import opened Replay

  // ---------------------------------------------------------------- ways of taking from a book

  /** A way of taking `total` from the levels a limit reaches: how much from each. */
  ghost predicate IsTake(levels: seq<Level>, limit: int, total: int, amounts: seq<int>)
  {
    && |amounts| == |levels| && Sum(amounts) == total
    && (forall k :: 0 <= k < |levels| ==> 0 <= amounts[k] <= Max(levels[k].quantity, 0))
    && (forall k :: 0 <= k < |levels| && amounts[k] > 0 ==> levels[k].price <= limit)
  }

  function Costs(levels: seq<Level>, amounts: seq<int>): (r: seq<int>)
    requires |amounts| == |levels|
    ensures |r| == |levels| && forall k :: 0 <= k < |r| ==> r[k] == levels[k].price * amounts[k]
  {
    seq(|levels|, k requires 0 <= k < |levels| => levels[k].price * amounts[k])
  }

  /** The amounts taken from the levels within a limit. */
  function Keep(levels: seq<Level>, limit: int, amounts: seq<int>): seq<int>
    requires |amounts| == |levels|
  {
    if levels == [] then []
    else (if levels[0].price <= limit then [amounts[0]] else []) + Keep(levels[1..], limit, amounts[1..])
  }

  lemma TailIsTake(levels: seq<Level>, limit: int, total: int, amounts: seq<int>)
    requires IsTake(levels, limit, total, amounts) && levels != []
    ensures |amounts| == |levels| && 0 <= amounts[0] <= Max(levels[0].quantity, 0)
    ensures levels[0].price > limit ==> amounts[0] == 0
    ensures IsTake(levels[1..], limit, total - amounts[0], amounts[1..])
    ensures Sum(Costs(levels, amounts)) == levels[0].price * amounts[0] + Sum(Costs(levels[1..], amounts[1..]))
  {
    var tail, rest := levels[1..], amounts[1..];
    assert forall k :: 0 <= k < |tail| ==> tail[k] == levels[k + 1] && rest[k] == amounts[k + 1];
    assert Costs(levels, amounts)[1..] == Costs(tail, rest);
  }

  lemma NothingToTake(limit: int, total: int, amounts: seq<int>)
    requires IsTake([], limit, total, amounts)
    ensures IsSelection(Eligible([], limit), total, Keep([], limit, amounts))
    ensures SelectionCost(Eligible([], limit), Keep([], limit, amounts)) == Sum(Costs([], amounts))
  {}

  lemma KeepUnfolds(levels: seq<Level>, limit: int, amounts: seq<int>)
    requires levels != [] && |amounts| == |levels|
    ensures var within := levels[0].price <= limit;
            && Eligible(levels, limit) == (if within then [levels[0]] else []) + Eligible(levels[1..], limit)
            && Keep(levels, limit, amounts)
               == (if within then [amounts[0]] else []) + Keep(levels[1..], limit, amounts[1..])
  {}

  lemma {:induction false} TakeIsSelection(levels: seq<Level>, limit: int, total: int, amounts: seq<int>)
    requires IsTake(levels, limit, total, amounts)
    ensures IsSelection(Eligible(levels, limit), total, Keep(levels, limit, amounts))
    ensures SelectionCost(Eligible(levels, limit), Keep(levels, limit, amounts)) == Sum(Costs(levels, amounts))
  {
    hide IsSelection, SelectionCost, Eligible, Keep, Costs;
    if levels == [] {
      NothingToTake(limit, total, amounts);
    } else {
      var tail, rest := levels[1..], amounts[1..];
      TailIsTake(levels, limit, total, amounts);
      TakeIsSelection(tail, limit, total - amounts[0], rest);
      KeepUnfolds(levels, limit, amounts);
      if levels[0].price <= limit {
        SelectMore(levels[0], amounts[0], Eligible(tail, limit), Keep(tail, limit, rest), total - amounts[0]);
      } else {
        assert [] + Keep(tail, limit, rest) == Keep(tail, limit, rest);
        assert [] + Eligible(tail, limit) == Eligible(tail, limit);
      }
    }
  }

  lemma SelectMore(l: Level, amount: int, levels: seq<Level>, amounts: seq<int>, total: int)
    requires IsSelection(levels, total, amounts) && 0 <= amount <= Max(l.quantity, 0)
    ensures IsSelection([l] + levels, total + amount, [amount] + amounts)
    ensures SelectionCost([l] + levels, [amount] + amounts) == l.price * amount + SelectionCost(levels, amounts)
  {
    var ls, xs := [l] + levels, [amount] + amounts;
    assert ls[1..] == levels && xs[1..] == amounts;
  }

  /** Amounts for the levels within a limit, with nothing taken from the others. */
  function Spread(levels: seq<Level>, limit: int, chosen: seq<int>): (amounts: seq<int>)
    requires |chosen| == |Eligible(levels, limit)|
    ensures |amounts| == |levels|
  {
    if levels == [] then []
    else if levels[0].price <= limit then [chosen[0]] + Spread(levels[1..], limit, chosen[1..])
    else [0] + Spread(levels[1..], limit, chosen)
  }

  lemma {:induction false} SelectionIsTake(levels: seq<Level>, limit: int, total: int, chosen: seq<int>)
    requires IsSelection(Eligible(levels, limit), total, chosen)
    ensures IsTake(levels, limit, total, Spread(levels, limit, chosen))
    ensures Sum(Costs(levels, Spread(levels, limit, chosen))) == SelectionCost(Eligible(levels, limit), chosen)
  {
    if levels != [] {
      var tail := levels[1..];
      if levels[0].price <= limit {
        var eligible := Eligible(tail, limit);
        assert ([levels[0]] + eligible)[1..] == eligible;
        TailIsSelection(Eligible(levels, limit), total, chosen);
        SelectionIsTake(tail, limit, total - chosen[0], chosen[1..]);
        TakeMore(levels, limit, chosen[0], Spread(tail, limit, chosen[1..]), total - chosen[0]);
      } else {
        SelectionIsTake(tail, limit, total, chosen);
        TakeMore(levels, limit, 0, Spread(tail, limit, chosen), total);
      }
    }
  }

  lemma TakeMore(levels: seq<Level>, limit: int, amount: int, rest: seq<int>, total: int)
    requires levels != [] && IsTake(levels[1..], limit, total, rest)
    requires 0 <= amount <= Max(levels[0].quantity, 0) && (amount > 0 ==> levels[0].price <= limit)
    ensures IsTake(levels, limit, total + amount, [amount] + rest)
    ensures Sum(Costs(levels, [amount] + rest)) == levels[0].price * amount + Sum(Costs(levels[1..], rest))
  {
    var amounts := [amount] + rest;
    assert amounts[1..] == rest;
    assert Costs(levels, amounts)[1..] == Costs(levels[1..], rest);
    assert forall k :: 1 <= k < |levels| ==> levels[k] == levels[1..][k - 1] && amounts[k] == rest[k - 1];
  }

  // ---------------------------------------------------------------- the cost of a placement

  function Notional(fills: seq<Fill>): int
  {
    if fills == [] then 0 else fills[0].price * fills[0].quantity + Notional(fills[1..])
  }

  lemma {:induction false} TakerNotional(intent: Intent, consumed: seq<Level>, ts: int, seqNo: nat)
    ensures Notional(TakerFills(intent, consumed, ts, seqNo)) == BookCost(consumed)
  {
    if consumed != [] {
      assert TakerFills(intent, consumed, ts, seqNo)[1..] == TakerFills(intent, consumed[1..], ts, seqNo + 1);
      TakerNotional(intent, consumed[1..], ts, seqNo + 1);
    }
  }

  /** A recorded book: bids from the highest down, asks from the lowest up. */
  ghost predicate BestFirstBook(book: Book)
  {
    && (forall a, b :: 0 <= a < b < |book.yesBids| ==> book.yesBids[a].price >= book.yesBids[b].price)
    && BestFirst(book.yesAsks)
  }

  /** `cost` is attained by a way of taking `total` within the limit, and undercut by none. */
  ghost predicate IsLeastCost(cost: int, levels: seq<Level>, limit: int, total: int)
  {
    && (exists amounts :: IsTake(levels, limit, total, amounts) && Sum(Costs(levels, amounts)) == cost)
    && (forall amounts :: IsTake(levels, limit, total, amounts) ==> cost <= Sum(Costs(levels, amounts)))
  }

  lemma SelectionsAreTakes(levels: seq<Level>, limit: int, total: int, cost: int)
    requires var eligible := Eligible(levels, limit);
             && (exists chosen :: IsSelection(eligible, total, chosen) && SelectionCost(eligible, chosen) == cost)
             && (forall chosen :: IsSelection(eligible, total, chosen) ==> cost <= SelectionCost(eligible, chosen))
    ensures IsLeastCost(cost, levels, limit, total)
  {
    hide Eligible;
    var chosen :| IsSelection(Eligible(levels, limit), total, chosen)
                  && SelectionCost(Eligible(levels, limit), chosen) == cost;
    SelectionIsTake(levels, limit, total, chosen);
    forall amounts | IsTake(levels, limit, total, amounts) ensures cost <= Sum(Costs(levels, amounts)) {
      TakeIsSelection(levels, limit, total, amounts);
    }
  }

  lemma OwnLevelsAreBestFirst(side: Side, book: Book)
    requires BestFirstBook(book)
    ensures BestFirst(OwnLevels(side, book))
  {}

  /** Whatever the side, a placement pays the least that its filled quantity could cost on the
      recorded levels its limit reaches. */
  lemma PlacementIsLeastCost(v: Venue, s: Account, intent: Intent, step: Step)
    requires ValidVenue(v) && ValidStep(step) && BestFirstBook(step.book) && intent.quantity >= 0
    ensures var r := PlaceAt(v, s, intent, step);
            && s.fills <= r.fills
            && var fills := r.fills[|s.fills|..];
               IsLeastCost(Notional(fills), OwnLevels(intent.side, step.book), intent.price, FillQuantity(fills))
  {
    hide Take, TakerFills, IsLeastCost, BestFirstBook, BestFirst, IsSelection;
    var walk := Walked(v, step, intent);
    var levels := OwnLevels(intent.side, step.book);
    TakerLevelsAreOwn(intent.side, step.book);
    TakerLevelsAreValid(intent.side, step.book);
    OwnLevelsAreBestFirst(intent.side, step.book);
    TakerFillIsLeastCost(levels, intent.price, intent.quantity, FeesFor(v, intent.ticker), v.haircutPpm, v.ppm);
    TakerFillIsBounded(levels, intent.price, intent.quantity, FeesFor(v, intent.ticker), v.haircutPpm, v.ppm);
    SelectionsAreTakes(levels, intent.price, walk.filled, walk.bookCost);
    TakerNotional(intent, walk.consumed, step.book.fetchedAt, s.fillSeq);
    TakerFillQuantity(intent, walk.consumed, step.book.fetchedAt, s.fillSeq);
    WalkCostsItsSlices(v, step, intent);
    assert PlaceAt(v, s, intent, step).fills[|s.fills|..]
           == TakerFills(intent, walk.consumed, step.book.fetchedAt, s.fillSeq);
  }

  lemma WalkCostsItsSlices(v: Venue, step: Step, intent: Intent)
    ensures Walked(v, step, intent).bookCost == BookCost(Walked(v, step, intent).consumed)
  {}

  // ---------------------------------------------------------------- every placement of every run

  /** What a placement on a step promises, from one state to the next. */
  ghost predicate KeepsItsWord(v: Venue, intent: Intent, step: Step, s: Account, r: Account)
  {
    && s.fills <= r.fills && r.cursor == s.cursor
    && var fills := r.fills[|s.fills|..];
       var filled := FillQuantity(fills);
       && IsCapped(filled, intent.quantity, ReachedDepth(intent.side, intent.price, step.book), v.ppm)
       && (forall f :: f in fills ==>
             && f.ticker == intent.ticker && f.side == intent.side && f.price <= intent.price && f.quantity > 0
             && f.ts == step.book.fetchedAt && f.orderId == None && TakesFrom(f, OwnLevels(intent.side, step.book)))
       && (BestFirstBook(step.book) ==>
             IsLeastCost(Notional(fills), OwnLevels(intent.side, step.book), intent.price, filled))
       && var left := intent.quantity - filled;
          var order := OpenOrder(|s.rested| + 1, intent.ticker, intent.side, intent.price, left);
          var rest := if left == 0 then [] else [order];
          r.resting == s.resting + rest && r.rested == s.rested + rest
  }

  lemma PlaceRestsRemainder(v: Venue, s: Account, intent: Intent, step: Step)
    requires ValidVenue(v) && ValidStep(step) && intent.quantity >= 0 && Numbered(s)
    ensures var r := PlaceAt(v, s, intent, step);
            && s.fills <= r.fills && r.cursor == s.cursor
            && var left := intent.quantity - FillQuantity(r.fills[|s.fills|..]);
               var order := OpenOrder(|s.rested| + 1, intent.ticker, intent.side, intent.price, left);
               var rest := if left == 0 then [] else [order];
               r.resting == s.resting + rest && r.rested == s.rested + rest
  {
    hide Take, TakerFills;
    var walk := Walked(v, step, intent);
    TakerLevelsAreValid(intent.side, step.book);
    TakerFillIsBounded(TakerLevels(intent.side, step.book), intent.price, intent.quantity, FeesFor(v, intent.ticker),
        v.haircutPpm, v.ppm);
    TakerFillQuantity(intent, walk.consumed, step.book.fetchedAt, s.fillSeq);
    assert PlaceAt(v, s, intent, step).fills[|s.fills|..]
           == TakerFills(intent, walk.consumed, step.book.fetchedAt, s.fillSeq);
  }

  /** A placement after `n` advances is walked on its market's step `n`, or the last one once the
      session is consumed, and keeps that step's promises; on a market that is unknown or has no
      steps it changes nothing. */
  lemma PlacementKeepsItsWord(v: Venue, ops: seq<Op>, intent: Intent)
    requires ValidVenue(v) && intent.quantity >= 0
    ensures var s, r := Run(v, ops), Run(v, ops + [Place(intent)]);
            if intent.ticker in v.recording.sessions && v.recording.sessions[intent.ticker] != [] then
              var steps, n := v.recording.sessions[intent.ticker], AdvanceCount(ops);
              KeepsItsWord(v, intent, if n < |steps| then steps[n] else steps[|steps| - 1], s, r)
            else r == s
  {
    hide Run, PlaceAt, AdvanceCount, ReachedDepth, IsCapped, IsLeastCost, BestFirstBook, TakesFrom, FillQuantity,
      Notional;
    var s := Run(v, ops);
    RunExtends(v, ops, Place(intent));
    if intent.ticker in v.recording.sessions && v.recording.sessions[intent.ticker] != [] {
      CursorCountsAdvances(v, ops, intent.ticker);
      CurrentStepIsValid(v, s, intent.ticker);
      var step := CurrentStep(v, s, intent.ticker).value;
      RunIsNumbered(v, ops);
      PlacementIsWhole(v, s, intent, step);
      PlaceRestsRemainder(v, s, intent, step);
      if BestFirstBook(step.book) { PlacementIsLeastCost(v, s, intent, step); }
    }
  }
}
