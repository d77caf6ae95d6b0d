/** One `advance` steps the markets one after another; this module shows that they do not
    disturb each other. */
module PaperMarkets {
  import opened PaperModel
  import opened PaperInvariant

  // ---------------------------------------------------------------- inside an advance

  /** The state of a run inside its next `advance`, once the first `i` markets have stepped.
      At zero it is the state between two calls. */
  function Within(v: Venue, ops: seq<Op>, i: nat): Account
    requires i <= |v.recording.tickers|
  {
    AdvanceAll(v, Run(v, ops), v.recording.tickers[..i])
  }

  lemma WithinIsSound(v: Venue, ops: seq<Op>, i: nat)
    requires i <= |v.recording.tickers|
    ensures Sound(Within(v, ops, i))
  {
    RunIsSound(v, ops);
    AdvanceKeepsSound(v, Run(v, ops), v.recording.tickers[..i]);
  }

  // ---------------------------------------------------------------- one market's view

  function OnMarket(resting: seq<OpenOrder>, t: Ticker): (r: seq<OpenOrder>)
    ensures forall o :: o in r <==> o in resting && o.ticker == t
  {
    if resting == [] then []
    else (if resting[0].ticker == t then [resting[0]] else []) + OnMarket(resting[1..], t)
  }

  function FillsOn(fills: seq<Fill>, t: Ticker): (r: seq<Fill>)
    ensures forall f :: f in r <==> f in fills && f.ticker == t
  {
    if fills == [] then []
    else (if fills[0].ticker == t then [fills[0]] else []) + FillsOn(fills[1..], t)
  }

  lemma {:induction false} FillsOnAppend(a: seq<Fill>, b: seq<Fill>, t: Ticker)
    ensures FillsOn(a + b, t) == FillsOn(a, t) + FillsOn(b, t)
  {
    if a == [] {
      assert a + b == b;
    } else {
      assert (a + b)[1..] == a[1..] + b;
      FillsOnAppend(a[1..], b, t);
    }
  }

  lemma {:induction false} FillsOnlyOn(fills: seq<Fill>, ticker: Ticker, t: Ticker)
    requires forall f :: f in fills ==> f.ticker == ticker
    ensures FillsOn(fills, t) == if t == ticker then fills else []
  {
    if fills != [] {
      assert fills[0] in fills;
      FillsOnlyOn(fills[1..], ticker, t);
    }
  }

  lemma {:induction false} SidesOnMarket(resting: seq<OpenOrder>, t: Ticker, side: Side)
    ensures SideOrders(OnMarket(resting, t), t, side) == SideOrders(resting, t, side)
  {
    if resting != [] {
      SidesOnMarket(resting[1..], t, side);
      var rest := OnMarket(resting[1..], t);
      assert ([resting[0]] + rest)[1..] == rest && [] + rest == rest;
    }
  }

  /** A market's allocation depends on that market's orders alone. */
  lemma AllocationOnMarket(resting: seq<OpenOrder>, t: Ticker, step: Step, ppm: int)
    ensures AllocateStep(OnMarket(resting, t), t, step, ppm) == AllocateStep(resting, t, step, ppm)
  {
    hide SideFills, Assign, OnMarket, SideOrders;
    SidesOnMarket(resting, t, Yes);
    SidesOnMarket(resting, t, No);
  }

  ghost predicate SamePass(all: Pass, own: Pass, t: Ticker)
  {
    all.fills == own.fills && OnMarket(all.survivors, t) == own.survivors
  }

  lemma {:induction false} OnMarketAppend(a: seq<OpenOrder>, b: seq<OpenOrder>, t: Ticker)
    ensures OnMarket(a + b, t) == OnMarket(a, t) + OnMarket(b, t)
  {
    if a == [] {
      assert a + b == b;
    } else {
      assert (a + b)[1..] == a[1..] + b;
      OnMarketAppend(a[1..], b, t);
    }
  }

  /** An order's turn leaves at most that order, on its own market. */
  lemma TurnStaysOnMarket(o: OpenOrder, fill: int, step: Step, seqNo: nat, t: Ticker)
    ensures var left := TurnOf(o, fill, step, seqNo).survivors;
            OnMarket(left, t) == if o.ticker == t then left else []
    ensures OnMarket([o], t) == if o.ticker == t then [o] else []
  {
    var left := TurnOf(o, fill, step, seqNo).survivors;
    assert left != [] ==> left[1..] == [];
    assert [o][1..] == [];
  }

  lemma CoversOnMarket(resting: seq<OpenOrder>, filled: map<nat, int>, t: Ticker)
    requires Covers(resting, filled, t)
    ensures Covers(OnMarket(resting, t), filled, t)
  {}

  lemma JoinSame(turn: Pass, all: Pass, own: Pass, t: Ticker)
    requires SamePass(all, own, t)
    ensures OnMarket(turn.survivors, t) == turn.survivors ==>
              SamePass(Pass(turn.survivors + all.survivors, turn.fills + all.fills),
                       Pass(turn.survivors + own.survivors, turn.fills + own.fills), t)
    ensures OnMarket(turn.survivors, t) == [] && turn.fills == [] ==>
              SamePass(Pass(turn.survivors + all.survivors, turn.fills + all.fills), own, t)
  {
    OnMarketAppend(turn.survivors, all.survivors, t);
    assert [] + own.fills == own.fills && [] + own.survivors == own.survivors;
  }

  lemma FirstOnMarket(resting: seq<OpenOrder>, t: Ticker)
    requires resting != []
    ensures OnMarket(resting, t) == (if resting[0].ticker == t then [resting[0]] else []) + OnMarket(resting[1..], t)
  {}

  lemma NothingOnMarket(filled: map<nat, int>, t: Ticker, step: Step, seqNo: nat)
    ensures Covers([], filled, t) && OnMarket([], t) == []
    ensures SamePass(FillOrders([], filled, t, step, seqNo), FillOrders([], filled, t, step, seqNo), t)
  {}

  /** So does its pass over the book. */
  lemma {:induction false} PassOnMarket(resting: seq<OpenOrder>, filled: map<nat, int>, t: Ticker, step: Step,
      seqNo: nat)
    requires Covers(resting, filled, t)
    ensures Covers(OnMarket(resting, t), filled, t)
    ensures SamePass(FillOrders(resting, filled, t, step, seqNo),
        FillOrders(OnMarket(resting, t), filled, t, step, seqNo), t)
  {
    hide TurnOf, FillOrders, OnMarket, SamePass, Covers;
    CoversOnMarket(resting, filled, t);
    if resting == [] {
      NothingOnMarket(filled, t, step, seqNo);
    } else {
      var o, rest := resting[0], resting[1..];
      assert resting[0..] == resting;
      PassUnfolds(resting, 0, filled, t, step, seqNo);
      var fill := if o.ticker == t then filled[o.id] else 0;
      var turn := TurnOf(o, fill, step, seqNo);
      PassOnMarket(rest, filled, t, step, seqNo + |turn.fills|);
      var own := OnMarket(rest, t);
      FirstOnMarket(resting, t);
      TurnStaysOnMarket(o, fill, step, seqNo, t);
      JoinSame(turn, FillOrders(rest, filled, t, step, seqNo + |turn.fills|),
          FillOrders(own, filled, t, step, seqNo + |turn.fills|), t);
      if o.ticker == t {
        var mine := [o] + own;
        assert mine[0] == o && mine[0..] == mine && mine[1..] == own;
        PassUnfolds(mine, 0, filled, t, step, seqNo);
      } else {
        OtherTurnIsIdle(o, step, seqNo);
        assert [] + own == own;
      }
    }
  }

  lemma OtherTurnIsIdle(o: OpenOrder, step: Step, seqNo: nat)
    ensures TurnOf(o, 0, step, seqNo) == Pass([o], [])
  {}

  /** A pass leaves every other market's orders exactly as they were. */
  lemma {:induction false} PassOffMarket(resting: seq<OpenOrder>, filled: map<nat, int>, ticker: Ticker, step: Step,
      seqNo: nat, t: Ticker)
    requires Covers(resting, filled, ticker) && t != ticker
    ensures OnMarket(FillOrders(resting, filled, ticker, step, seqNo).survivors, t) == OnMarket(resting, t)
  {
    if resting != [] {
      hide TurnOf, FillOrders, OnMarket;
      var o, rest := resting[0], resting[1..];
      assert resting == [o] + rest && resting[0..] == resting;
      PassUnfolds(resting, 0, filled, ticker, step, seqNo);
      var fill := if o.ticker == ticker then filled[o.id] else 0;
      var turn := TurnOf(o, fill, step, seqNo);
      PassOffMarket(rest, filled, ticker, step, seqNo + |turn.fills|, t);
      OnMarketAppend([o], rest, t);
      OnMarketAppend(turn.survivors, FillOrders(rest, filled, ticker, step, seqNo + |turn.fills|).survivors, t);
      TurnStaysOnMarket(o, fill, step, seqNo, t);
      OtherTurnIsIdle(o, step, seqNo);
    }
  }

  lemma {:induction false} PassFillsItsMarket(resting: seq<OpenOrder>, filled: map<nat, int>, ticker: Ticker,
      step: Step, seqNo: nat)
    requires Covers(resting, filled, ticker)
    ensures forall f :: f in FillOrders(resting, filled, ticker, step, seqNo).fills ==> f.ticker == ticker
  {
    if resting != [] {
      var o := resting[0];
      assert o in resting;
      PassFillsItsMarket(resting[1..], filled, ticker, step, NextSeq(o, filled, ticker, seqNo));
    }
  }

  // ---------------------------------------------------------------- independence

  /** Two accounts that agree on everything about market `t`. */
  ghost predicate SameMarket(a: Account, b: Account, t: Ticker)
  {
    && OnMarket(a.resting, t) == OnMarket(b.resting, t) && FillsOn(a.fills, t) == FillsOn(b.fills, t)
    && (t in a.cursor <==> t in b.cursor) && (t in a.cursor ==> a.cursor[t] == b.cursor[t])
  }

  lemma TickerLeavesOthers(v: Venue, s: Account, ticker: Ticker, t: Ticker)
    requires t != ticker
    ensures SameMarket(AdvanceTicker(v, s, ticker), s, t)
  {
    hide AllocateStep, FillOrders, OnMarket, FillsOn;
    if Unconsumed(v, s, ticker) {
      var step := v.recording.sessions[ticker][s.cursor[ticker]];
      var filled := AllocateStep(s.resting, ticker, step, v.ppm);
      var pass := FillOrders(s.resting, filled, ticker, step, s.fillSeq);
      PassOffMarket(s.resting, filled, ticker, step, s.fillSeq, t);
      PassFillsItsMarket(s.resting, filled, ticker, step, s.fillSeq);
      FillsOnlyOn(pass.fills, ticker, t);
      FillsOnAppend(s.fills, pass.fills, t);
      assert FillsOn(s.fills, t) + [] == FillsOn(s.fills, t);
    }
  }

  lemma {:induction false} AdvanceLeavesOthers(v: Venue, s: Account, tickers: seq<Ticker>, t: Ticker)
    requires t !in tickers
    ensures SameMarket(AdvanceAll(v, s, tickers), s, t)
  {
    hide OnMarket, FillsOn, AdvanceTicker;
    if tickers != [] {
      var last := |tickers| - 1;
      AdvanceLeavesOthers(v, s, tickers[..last], t);
      TickerLeavesOthers(v, AdvanceAll(v, s, tickers[..last]), tickers[last], t);
    }
  }

  /** What an advance does to one market, it does in that market's own turn. */
  lemma {:induction false} AdvanceOneMarket(v: Venue, s: Account, tickers: seq<Ticker>, i: nat)
    requires i < |tickers| && forall a, b :: 0 <= a < b < |tickers| ==> tickers[a] != tickers[b]
    ensures SameMarket(AdvanceAll(v, s, tickers), AdvanceTicker(v, AdvanceAll(v, s, tickers[..i]), tickers[i]),
        tickers[i])
  {
    hide OnMarket, FillsOn, AdvanceTicker;
    var last := |tickers| - 1;
    if i < last {
      assert tickers[..last][..i] == tickers[..i];
      AdvanceOneMarket(v, s, tickers[..last], i);
      TickerLeavesOthers(v, AdvanceAll(v, s, tickers[..last]), tickers[last], tickers[i]);
    }
  }

  /** The step a market's next turn replays. */
  function NextStep(v: Venue, s: Account, t: Ticker): Step
    requires Unconsumed(v, s, t)
  {
    v.recording.sessions[t][s.cursor[t]]
  }

  /** The pass that market `t` gets from the book as `s` has it, with fills numbered after `seqNo`. */
  function MarketPass(v: Venue, s: Account, t: Ticker, seqNo: nat): Pass
    requires Unconsumed(v, s, t)
  {
    FillOrders(s.resting, AllocateStep(s.resting, t, NextStep(v, s, t), v.ppm), t, NextStep(v, s, t), seqNo)
  }

  /** An advance treats each market as if it were the only one: allocated and filled from the
      book as it was before the call, untouched by the markets stepped before it or after it. */
  lemma MarketsAreIndependent(v: Venue, s: Account, i: nat)
    requires ValidVenue(v) && s.cursor.Keys == v.recording.sessions.Keys && i < |v.recording.tickers|
    ensures var t, r := v.recording.tickers[i], Apply(v, s, Advance);
            if Unconsumed(v, s, t) then
              var pass := MarketPass(v, s, t, AdvanceAll(v, s, v.recording.tickers[..i]).fillSeq);
              && FillsOn(r.fills, t) == FillsOn(s.fills, t) + pass.fills
              && OnMarket(r.resting, t) == OnMarket(pass.survivors, t)
              && r.cursor[t] == s.cursor[t] + 1
            else SameMarket(r, s, t)
  {
    hide OnMarket, FillsOn, AdvanceAll, AllocateStep, FillOrders;
    var tickers := v.recording.tickers;
    var t, at := tickers[i], AdvanceAll(v, s, tickers[..i]);
    assert t !in tickers[..i];
    AdvanceLeavesOthers(v, s, tickers[..i], t);
    AdvanceOneMarket(v, s, tickers, i);
    if Unconsumed(v, s, t) {
      var step := NextStep(v, s, t);
      AllocationOnMarket(s.resting, t, step, v.ppm);
      AllocationOnMarket(at.resting, t, step, v.ppm);
      var filled := AllocateStep(s.resting, t, step, v.ppm);
      assert filled == AllocateStep(at.resting, t, step, v.ppm);
      PassOnMarket(s.resting, filled, t, step, at.fillSeq);
      PassOnMarket(at.resting, filled, t, step, at.fillSeq);
      var pass := FillOrders(at.resting, filled, t, step, at.fillSeq);
      PassFillsItsMarket(at.resting, filled, t, step, at.fillSeq);
      FillsOnlyOn(pass.fills, t, t);
      FillsOnAppend(at.fills, pass.fills, t);
    }
  }

  lemma LoneMarketAdvance(v: Venue, s: Account, t: Ticker)
    requires v.recording.tickers == [t] && s.cursor.Keys == v.recording.sessions.Keys
    ensures Apply(v, s, Advance) == AdvanceTicker(v, s, t)
  {
    var tickers := v.recording.tickers;
    assert tickers[..0] == [] && tickers[0] == t;
    assert AdvanceAll(v, s, tickers[..0]) == s;
    assert AdvanceAll(v, s, tickers) == AdvanceTicker(v, AdvanceAll(v, s, tickers[..0]), t);
  }
}
