/** Paging, re-arming and backing off across heartbeats (windbreak/main.py). */
module BeatSupervision {
  import opened Numeric

  const ESCALATION_CLEAR_RUN_BEATS := 3
  const MAX_ESCALATION_BACKOFF_DOUBLINGS := 4
  const MODE_RESEARCH := "RESEARCH"
  const MODE_TICK_FAILED := "TICK_FAILED"

  datatype Kind = BeatFailed | KernelHalt

  /** What one beat's hook did: raise, report nothing, or report a mode and a kernel verdict. */
  datatype Beat = HookRaised | NoReport | Reported(mode: string, halted: bool)

  datatype Sighting = Sighting(kind: Kind, present: bool)

  /** The kinds a beat could observe, in the order they are settled. */
  function Observed(beat: Beat): seq<Sighting>
  {
    match beat
    case HookRaised => [Sighting(BeatFailed, true)]
    case NoReport => [Sighting(BeatFailed, false)]
    case Reported(_, halted) => [Sighting(BeatFailed, false), Sighting(KernelHalt, halted)]
  }

  function ModeOf(beat: Beat): (mode: string)
    ensures mode == match beat case HookRaised => "TICK_FAILED" case NoReport => "RESEARCH" case Reported(m, _) => m
  {
    match beat case HookRaised => MODE_TICK_FAILED case NoReport => MODE_RESEARCH case Reported(mode, _) => mode
  }

  predicate Escalates(beat: Beat)
  {
    beat.HookRaised? || (beat.Reported? && beat.halted)
  }

  // ---------------------------------------------------------------- history

  /** The history of one kind: present or absent, for each beat that could tell. */
  function History(beats: seq<Beat>, kind: Kind): seq<bool>
  {
    if beats == [] then [] else History(beats[..|beats| - 1], kind) + SightingsOf(Observed(beats[|beats| - 1]), kind)
  }

  function SightingsOf(observed: seq<Sighting>, kind: Kind): seq<bool>
  {
    if observed == [] then []
    else (if observed[0].kind == kind then [observed[0].present] else []) + SightingsOf(observed[1..], kind)
  }

  predicate LastThreeAbsent(history: seq<bool>)
  {
    var n := |history|;
    n >= ESCALATION_CLEAR_RUN_BEATS && !history[n - 1] && !history[n - 2] && !history[n - 3]
  }

  /** A kind seen now is news when it was never seen, or has been gone for three sightings. */
  predicate IsNews(history: seq<bool>)
  {
    true !in history || LastThreeAbsent(history)
  }

  /** The run of escalating beats a history ends with. */
  function EscalatingRun(beats: seq<Beat>): nat
  {
    if beats == [] || !Escalates(beats[|beats| - 1]) then 0 else 1 + EscalatingRun(beats[..|beats| - 1])
  }

  function TrailingAbsences(history: seq<bool>): nat
  {
    if history == [] || history[|history| - 1] then 0 else 1 + TrailingAbsences(history[..|history| - 1])
  }

  /** What the per-kind counter means: active with the run of absences, until three in a row. */
  ghost predicate Tracks(active: map<Kind, nat>, kind: Kind, history: seq<bool>)
  {
    if IsNews(history) then kind !in active
    else kind in active && active[kind] == TrailingAbsences(history) < ESCALATION_CLEAR_RUN_BEATS
  }

  /** News is exactly a history never present or with three absences at its end. */
  lemma {:induction false} NewsByAbsences(history: seq<bool>)
    ensures LastThreeAbsent(history) <==> TrailingAbsences(history) >= ESCALATION_CLEAR_RUN_BEATS
    ensures TrailingAbsences(history) <= |history|
    ensures true !in history ==> TrailingAbsences(history) == |history|
  {
    if history != [] && !history[|history| - 1] {
      var before := history[..|history| - 1];
      NewsByAbsences(before);
      assert history == before + [false];
      var n := |history|;
      if n >= 2 && !history[n - 2] {
        assert before[..n - 2] == history[..n - 2];
        assert n >= 3 ==> history[n - 3] == before[..n - 2][n - 3];
      }
    }
  }

  lemma AppendSighting(history: seq<bool>, present: bool)
    ensures TrailingAbsences(history + [present]) == if present then 0 else TrailingAbsences(history) + 1
    ensures true in history + [present] <==> present || true in history
  {}

  // ---------------------------------------------------------------- the machine

  /** What the supervisor keeps: absences since each paged kind was last seen, the backoff
      counter, and the alerts it dispatched. */
  datatype Machine = Machine(active: map<Kind, nat>, escalatingBeats: nat, pages: seq<Kind>)

  function Cleared(active: map<Kind, nat>, kind: Kind): map<Kind, nat>
  {
    if kind !in active then active
    else if active[kind] + 1 >= ESCALATION_CLEAR_RUN_BEATS then active - {kind}
    else active[kind := active[kind] + 1]
  }

  /** An absent kind is cleared; a present one pages unless it is already active. */
  function SettleSighting(m: Machine, s: Sighting): Machine
  {
    if s.present then
      m.(active := m.active[s.kind := 0], pages := m.pages + if s.kind in m.active then [] else [s.kind])
    else m.(active := Cleared(m.active, s.kind))
  }

  function SettleAll(m: Machine, observed: seq<Sighting>): (r: Machine)
    ensures m.pages <= r.pages
  {
    if observed == [] then m else SettleSighting(SettleAll(m, observed[..|observed| - 1]), observed[|observed| - 1])
  }

  predicate AnyPresent(observed: seq<Sighting>)
  {
    exists s :: s in observed && s.present
  }

  function AfterBeat(m: Machine, beat: Beat): (r: Machine)
    ensures m.pages <= r.pages
  {
    SettleAll(m.(escalatingBeats := if AnyPresent(Observed(beat)) then m.escalatingBeats + 1 else 0), Observed(beat))
  }

  function AfterBeats(beats: seq<Beat>): Machine
  {
    if beats == [] then Machine(map[], 0, [])
    else AfterBeat(AfterBeats(beats[..|beats| - 1]), beats[|beats| - 1])
  }

  /** The alerts the machine dispatches on one beat after a history. */
  function Dispatched(before: seq<Beat>, beat: Beat): seq<Kind>
  {
    AfterBeat(AfterBeats(before), beat).pages[|AfterBeats(before).pages|..]
  }

  // ---------------------------------------------------------------- the machine refines the history

  lemma ClearTracks(active: map<Kind, nat>, kind: Kind, history: seq<bool>)
    requires Tracks(active, kind, history)
    ensures Tracks(Cleared(active, kind), kind, history + [false])
  {
    NewsByAbsences(history);
    NewsByAbsences(history + [false]);
    AppendSighting(history, false);
  }

  lemma EscalateTracks(active: map<Kind, nat>, kind: Kind, history: seq<bool>)
    requires Tracks(active, kind, history)
    ensures Tracks(active[kind := 0], kind, history + [true])
    ensures kind !in active <==> IsNews(history)
  {}

  /** A raise hides the kernel's verdict, and so does a beat with no report. */
  function Seen(beat: Beat, kind: Kind): seq<bool>
  {
    if kind.BeatFailed? then [beat.HookRaised?] else if beat.Reported? then [beat.halted] else []
  }

  lemma HistoryExtends(beats: seq<Beat>, beat: Beat, kind: Kind)
    ensures History(beats + [beat], kind) == History(beats, kind) + Seen(beat, kind)
  {
    assert (beats + [beat])[..|beats|] == beats;
    var observed := Observed(beat);
    assert SightingsOf(observed[1..], kind)
        == (if |observed| == 2 && observed[1].kind == kind then [observed[1].present] else []);
  }

  lemma BeatUnfolds(m: Machine, beat: Beat)
    ensures var first := SettleSighting(m.(escalatingBeats := if Escalates(beat) then m.escalatingBeats + 1 else 0),
                                        Sighting(BeatFailed, beat.HookRaised?));
            AfterBeat(m, beat)
            == if beat.Reported? then SettleSighting(first, Sighting(KernelHalt, beat.halted)) else first
  {
    var observed := Observed(beat);
    assert Escalates(beat) <==> AnyPresent(observed) by {
      if beat.HookRaised? { assert observed[0].present; }
      if beat.Reported? && beat.halted { assert observed[1].present; }
    }
    var start := m.(escalatingBeats := if Escalates(beat) then m.escalatingBeats + 1 else 0);
    assert SettleAll(start, observed[..1]) == SettleSighting(start, observed[0]) by { assert observed[..1][..0] == []; }
    assert beat.Reported? ==> observed[..2] == observed;
    assert !beat.Reported? ==> observed[..1] == observed;
  }

  /** One sighting moves its own kind along its history and leaves the other kind alone. */
  lemma SightingTracks(m: Machine, s: Sighting, kind: Kind, history: seq<bool>)
    requires Tracks(m.active, kind, history)
    ensures Tracks(SettleSighting(m, s).active, kind, if s.kind == kind then history + [s.present] else history)
    ensures SettleSighting(m, s).pages == m.pages + if s.present && s.kind !in m.active then [s.kind] else []
    ensures s.kind == kind ==> (s.kind !in m.active <==> IsNews(history))
  {
    hide IsNews, TrailingAbsences;
    if s.kind == kind {
      EscalateTracks(m.active, kind, history);
      ClearTracks(m.active, kind, history);
    }
  }

  ghost predicate PagesExactly(m: Machine, beat: Beat, kind: Kind, history: seq<bool>)
  {
    var sent := AfterBeat(m, beat).pages[|m.pages|..];
    && (kind in sent <==> Seen(beat, kind) == [true] && IsNews(history))
    && (forall i, j :: 0 <= i < j < |sent| ==> sent[i] != sent[j])
  }

  lemma BeatTracks(m: Machine, beat: Beat, kind: Kind, history: seq<bool>)
    requires Tracks(m.active, kind, history)
    ensures Tracks(AfterBeat(m, beat).active, kind, history + Seen(beat, kind))
    ensures PagesExactly(m, beat, kind, history)
  {
    hide IsNews, TrailingAbsences, AfterBeat, SettleSighting, Tracks;
    BeatUnfolds(m, beat);
    var start := m.(escalatingBeats := if Escalates(beat) then m.escalatingBeats + 1 else 0);
    var failed, halt := Sighting(BeatFailed, beat.HookRaised?), Sighting(KernelHalt, beat.Reported? && beat.halted);
    var first := SettleSighting(start, failed);
    SightingTracks(start, failed, kind, history);
    var own := if kind.BeatFailed? then history + [beat.HookRaised?] else history;
    assert history + [] == history;
    if beat.Reported? { SightingTracks(first, halt, kind, own); }
    assert first.pages == m.pages + if failed.present && BeatFailed !in m.active then [BeatFailed] else [];
    if beat.Reported? {
      assert !failed.present && first.pages == m.pages;
    }
  }

  /** For every history, the counter map is what that history says it should be. */
  lemma {:induction false} MachineTracks(beats: seq<Beat>, kind: Kind)
    ensures Tracks(AfterBeats(beats).active, kind, History(beats, kind))
  {
    if beats != [] {
      var before, beat := beats[..|beats| - 1], beats[|beats| - 1];
      MachineTracks(before, kind);
      assert beats == before + [beat];
      HistoryExtends(before, beat, kind);
      hide AfterBeat, Tracks;
      BeatTracks(AfterBeats(before), beat, kind, History(before, kind));
    }
  }

  /** For every history, the backoff counter is the run of escalating beats it ends with. */
  lemma {:induction false} MachineCountsRun(beats: seq<Beat>)
    ensures AfterBeats(beats).escalatingBeats == EscalatingRun(beats)
  {
    if beats != [] {
      MachineCountsRun(beats[..|beats| - 1]);
      BeatUnfolds(AfterBeats(beats[..|beats| - 1]), beats[|beats| - 1]);
    }
  }

  lemma {:induction false} HistoryGrows(beats: seq<Beat>, i: nat, j: nat, kind: Kind)
    requires i <= j <= |beats|
    ensures History(beats[..i], kind) <= History(beats[..j], kind)
    ensures |History(beats[..j], kind)| <= |History(beats[..i], kind)| + (j - i)
  {
    if i < j {
      HistoryGrows(beats, i, j - 1, kind);
      assert beats[..j] == beats[..j - 1] + [beats[j - 1]];
      HistoryExtends(beats[..j - 1], beats[j - 1], kind);
    }
  }

  /** After any history the machine dispatches a kind exactly when the beat sees it present and
      it was never present before or its last three sightings were all absent; and at most once. */
  lemma PagesIffNews(before: seq<Beat>, beat: Beat, kind: Kind)
    ensures kind in Dispatched(before, beat) <==> Seen(beat, kind) == [true] && IsNews(History(before, kind))
    ensures forall i, j :: 0 <= i < j < |Dispatched(before, beat)| ==>
        Dispatched(before, beat)[i] != Dispatched(before, beat)[j]
  {
    hide AfterBeat, AfterBeats, History;
    MachineTracks(before, kind);
    BeatTracks(AfterBeats(before), beat, kind, History(before, kind));
  }

  /** No pager storm: two alerts for one kind are separated by three sightings of it gone, hence
      by at least three beats. */
  lemma PagesAreSpaced(beats: seq<Beat>, i: nat, j: nat, kind: Kind)
    requires i < j < |beats|
    requires kind in Dispatched(beats[..i], beats[i]) && kind in Dispatched(beats[..j], beats[j])
    ensures LastThreeAbsent(History(beats[..j], kind)) && j - i > ESCALATION_CLEAR_RUN_BEATS
  {
    hide Dispatched, History;
    PagesIffNews(beats[..i], beats[i], kind);
    PagesIffNews(beats[..j], beats[j], kind);
    var past, now := History(beats[..i + 1], kind), History(beats[..j], kind);
    assert beats[..i + 1] == beats[..i] + [beats[i]];
    HistoryExtends(beats[..i], beats[i], kind);
    HistoryGrows(beats, i + 1, j, kind);
    assert past[|past| - 1] && now[|past| - 1] == past[|past| - 1];
  }

  function Doublings(n: nat): nat
  {
    if n == 0 then 1 else 2 * Doublings(n - 1)
  }

  const MULTIPLIERS := [1.0, 2.0, 4.0, 8.0, 16.0]

  /** The wait a history calls for: the interval, doubled for each beat of the escalating run it
      ends with, up to sixteen times. */
  function WaitAfter(interval: real, beats: seq<Beat>): real
  {
    var n := EscalatingRun(beats);
    interval * MULTIPLIERS[if n < 4 then n else 4]
  }

  lemma DoublingsAreMultipliers(n: nat)
    ensures Doublings(Min(n, MAX_ESCALATION_BACKOFF_DOUBLINGS)) as real == MULTIPLIERS[if n < 4 then n else 4]
  {
    assert Doublings(1) == 2 && Doublings(2) == 4;
    assert Doublings(3) == 8 && Doublings(4) == 16;
  }

  datatype StopReason = Signal | NamedSignal(name: string) | MaxBeats

  /** Whether to stop before the next beat: a set stop event wins over the beat budget. */
  function BeatStopReason(stopped: bool, signalName: Option<string>, maxBeats: Option<nat>, beatsDone: nat)
    : (r: Option<StopReason>)
    ensures r.None? <==> !stopped && (maxBeats.Some? ==> beatsDone < maxBeats.value)
    ensures r == Some(MaxBeats) <==> !stopped && r.Some?
    ensures forall name :: r == Some(NamedSignal(name)) <==> stopped && signalName == Some(name)
  {
    if stopped then Some(if signalName.Some? then NamedSignal(signalName.value) else Signal)
    else if maxBeats.Some? && beatsDone >= maxBeats.value then Some(MaxBeats)
    else None
  }

  class BeatSupervisor {
    const writesModes: bool
    var active: map<Kind, nat>
    var escalatingBeats: nat
    /** Alerts dispatched, in order. */
    var pages: seq<Kind>
    /** Beats whose failed mode was ledgered. */
    var modeRows: seq<nat>
    /** Every beat observed. */
    ghost var beats: seq<Beat>

    ghost function Value(): Machine
      reads this
    {
      Machine(active, escalatingBeats, pages)
    }

    /** The object is where its beats lead the machine. */
    ghost predicate Valid()
      reads this
    {
      Value() == AfterBeats(beats)
    }

    constructor (writesModes: bool)
      ensures Valid() && beats == [] && pages == [] && modeRows == [] && this.writesModes == writesModes
    {
      this.writesModes := writesModes;
      active, escalatingBeats, pages, modeRows, beats := map[], 0, [], [], [];
    }

    method Clear(kind: Kind)
      modifies this`active
      ensures Value() == SettleSighting(old(Value()), Sighting(kind, false))
    {
      if kind !in active { return; }
      var streak := active[kind];
      if streak + 1 >= ESCALATION_CLEAR_RUN_BEATS {
        active := active - {kind};
      } else {
        active := active[kind := streak + 1];
      }
    }

    method Escalate(kind: Kind)
      modifies this`active, this`pages
      ensures Value() == SettleSighting(old(Value()), Sighting(kind, true))
    {
      var first := kind !in active;
      active := active[kind := 0];
      if first { pages := pages + [kind]; }
    }

    /** Fold one beat's sightings into the per-kind state. */
    method Settle(beat: Beat)
      modifies this`active, this`pages, this`escalatingBeats
      ensures Value() == AfterBeat(old(Value()), beat)
    {
      hide SettleSighting;
      var observed := Observed(beat);
      escalatingBeats := if AnyPresent(observed) then escalatingBeats + 1 else 0;
      ghost var start := Value();
      var i := 0;
      while i < |observed|
        invariant 0 <= i <= |observed| && Value() == SettleAll(start, observed[..i])
      {
        var s := observed[i];
        assert observed[..i + 1][..i] == observed[..i];
        if s.present {
          assert s == Sighting(s.kind, true);
          Escalate(s.kind);
        } else {
          assert s == Sighting(s.kind, false);
          Clear(s.kind);
        }
        i := i + 1;
      }
      assert observed[..i] == observed;
    }

    /** Run one beat and report its own mode. */
    method Observe(seqNo: nat, beat: Beat) returns (mode: string)
      requires Valid()
      modifies this
      ensures Valid() && beats == old(beats) + [beat]
      ensures pages == old(pages) + Dispatched(old(beats), beat)
      ensures mode == match beat case HookRaised => "TICK_FAILED" case NoReport => "RESEARCH" case Reported(m, _) => m
      ensures modeRows == old(modeRows) + if beat.HookRaised? && writesModes then [seqNo] else []
    {
      hide AfterBeat;
      Settle(beat);
      assert (beats + [beat])[..|beats|] == beats;
      beats := beats + [beat];
      match beat
      case HookRaised =>
        if writesModes { modeRows := modeRows + [seqNo]; }
        mode := MODE_TICK_FAILED;
      case NoReport => mode := MODE_RESEARCH;
      case Reported(m, _) => mode := m;
    }

    /** The interval, doubled once per escalating beat in a row, at most four times. */
    method WaitSeconds(interval: real) returns (wait: real)
      requires Valid()
      ensures wait == WaitAfter(interval, beats)
    {
      hide Doublings, EscalatingRun, AfterBeats;
      MachineCountsRun(beats);
      DoublingsAreMultipliers(escalatingBeats);
      var doublings := Min(escalatingBeats, MAX_ESCALATION_BACKOFF_DOUBLINGS);
      wait := interval * Doublings(doublings) as real;
    }
  }

  datatype Heartbeat = Heartbeat(seqNo: nat, mode: string)

  /** The beats the first `n` turns of the loop feed the supervisor: none without a hook. */
  ghost function Fed(hook: Option<nat -> Beat>, n: nat): seq<Beat>
  {
    if hook.None? then [] else seq(n, k requires 0 <= k < n => hook.value(k + 1))
  }

  lemma FedExtends(hook: Option<nat -> Beat>, n: nat)
    ensures Fed(hook, 0) == []
    ensures Fed(hook, n + 1) == Fed(hook, n) + if hook.None? then [] else [hook.value(n + 1)]
  {}

  /** The turns whose failed mode is ledgered. */
  ghost function FailedTurns(hook: Option<nat -> Beat>, writes: bool, n: nat): seq<nat>
  {
    if n == 0 || hook.None? || !writes then []
    else FailedTurns(hook, writes, n - 1) + if hook.value(n).HookRaised? then [n] else []
  }

  function ModeOfTurn(hook: Option<nat -> Beat>, seqNo: nat): string
  {
    if hook.None? then MODE_RESEARCH else ModeOf(hook.value(seqNo))
  }

  /** How many turns the stop event, set once `stopAt` beats have run, and the budget allow. */
  function TurnsAllowed(maxBeats: Option<nat>, stopAt: Option<nat>): nat
    requires maxBeats.Some? || stopAt.Some?
  {
    if stopAt.None? then maxBeats.value else if maxBeats.None? then stopAt.value else Min(maxBeats.value, stopAt.value)
  }

  /** The loop, for a supervisor with any past: every turn is one beat of the hook, if there is
      one, and waits as the supervisor's whole history demands. */
  method RunLoop(supervisor: BeatSupervisor, interval: real, maxBeats: Option<nat>, stopAt: Option<nat>,
                 signalName: Option<string>, hook: Option<nat -> Beat>)
    returns (heartbeats: seq<Heartbeat>, waits: seq<real>, reason: StopReason)
    requires supervisor.Valid()
    requires maxBeats.Some? || stopAt.Some?
    modifies supervisor
    ensures supervisor.Valid()
    ensures |heartbeats| == |waits| == TurnsAllowed(maxBeats, stopAt)
    ensures supervisor.beats == old(supervisor.beats) + Fed(hook, |heartbeats|)
    ensures supervisor.modeRows == old(supervisor.modeRows) + FailedTurns(hook, supervisor.writesModes, |heartbeats|)
    ensures forall k :: 0 <= k < |heartbeats| ==> heartbeats[k] == Heartbeat(k + 1, ModeOfTurn(hook, k + 1))
    ensures forall k :: 0 <= k < |waits| ==> waits[k] == WaitAfter(interval, old(supervisor.beats) + Fed(hook, k + 1))
    ensures reason.MaxBeats? <==> maxBeats.Some? && (stopAt.Some? ==> maxBeats.value < stopAt.value)
    ensures !reason.MaxBeats? ==> reason == if signalName.Some? then NamedSignal(signalName.value) else Signal
    decreases TurnsAllowed(maxBeats, stopAt)
  {
    hide EscalatingRun, Doublings, AfterBeats, ModeOf, WaitAfter, Fed;
    heartbeats, waits := [], [];
    var n := 0;
    FedExtends(hook, 0);
    while true
      invariant 0 <= n <= TurnsAllowed(maxBeats, stopAt) && n == |heartbeats| == |waits| && supervisor.Valid()
      invariant supervisor.beats == old(supervisor.beats) + Fed(hook, n)
      invariant supervisor.modeRows == old(supervisor.modeRows) + FailedTurns(hook, supervisor.writesModes, n)
      invariant forall k :: 0 <= k < n ==> heartbeats[k] == Heartbeat(k + 1, ModeOfTurn(hook, k + 1))
      invariant forall k :: 0 <= k < n ==> waits[k] == WaitAfter(interval, old(supervisor.beats) + Fed(hook, k + 1))
      decreases TurnsAllowed(maxBeats, stopAt) - n
    {
      var stop := BeatStopReason(stopAt.Some? && n >= stopAt.value, signalName, maxBeats, n);
      if stop.Some? {
        reason := stop.value;
        return;
      }
      FedExtends(hook, n);
      n := n + 1;
      var mode := MODE_RESEARCH;
      if hook.Some? {
        mode := supervisor.Observe(n, hook.value(n));
      }
      assert supervisor.beats == old(supervisor.beats) + Fed(hook, n);
      heartbeats := heartbeats + [Heartbeat(n, mode)];
      var wait := supervisor.WaitSeconds(interval);
      waits := waits + [wait];
    }
  }
}
