/**
 Whole days of cycles and openings (tradalgo/engine/cycle.py): when the cycles run does not matter, and what
 a trade opened beside an older one is given.
 */
module ScheduleRuns {
  import opened Common
  import opened Positions
  import opened Lifecycle
  import opened Cursors
  import opened Schedule
  import opened Fills

  // ---------------------------------------------------------------- a day of cycles and openings

  datatype Move = CycleAt(now: int) | OpenTrade(terms: Terms, entryBar: int)

  function LatestOf(was: int, moves: seq<Move>): int
    decreases |moves|
  {
    if moves == [] then was else LatestOf(if moves[0].CycleAt? then Later(was, moves[0].now) else was, moves[1..])
  }

  /** A trade opens under a new id, on a signal whose bar is the last one the cycles have seen. */
  ghost predicate CanOpen(ts: seq<Trade>, day: seq<Bar>, was: int, k: Terms, entryBar: int) {
    && (forall j :: 0 <= j < |ts| ==> ts[j].terms.id != k.id)
    && entryBar <= was && Between(day, entryBar, was) == []
  }

  ghost predicate Allowed(c: Rules, ts: seq<Trade>, day: seq<Bar>, was: int, moves: seq<Move>)
    decreases |moves|
  {
    moves == [] ||
    match moves[0]
    case CycleAt(now) => Allowed(c, Cycle(c, ts, day, now).trades, day, Later(was, now), moves[1..])
    case OpenTrade(k, bar) => CanOpen(ts, day, was, k, bar) && Allowed(c, ts + [Opened(k, Some(bar))], day, was, moves[1..])
  }

  function Moved(c: Rules, ts: seq<Trade>, day: seq<Bar>, moves: seq<Move>): (o: Outcomes)
    ensures |o.trades| >= |ts|
    decreases |moves|
  {
    if moves == [] then Outcomes(ts, []) else
    match moves[0]
    case CycleAt(now) =>
      var a := Cycle(c, ts, day, now);
      var b := Moved(c, a.trades, day, moves[1..]);
      Outcomes(b.trades, a.events + b.events)
    case OpenTrade(k, bar) => Moved(c, ts + [Opened(k, Some(bar))], day, moves[1..])
  }

  ghost predicate AllCaughtUp(c: Rules, day: seq<Bar>, was: int, ts: seq<Trade>) {
    DistinctIds(ts) && forall j :: 0 <= j < |ts| ==> CaughtUp(c, day, was, ts[j])
  }

  lemma OpensCaughtUp(c: Rules, day: seq<Bar>, was: int, ts: seq<Trade>, k: Terms, bar: int)
    requires AllCaughtUp(c, day, was, ts) && CanOpen(ts, day, was, k, bar)
    ensures AllCaughtUp(c, day, was, ts + [Opened(k, Some(bar))])
  {
    AsNoPrices(c, Opened(k, Some(bar)));
    hide Run, AsPrices;
  }

  lemma CyclesCaughtUp(c: Rules, day: seq<Bar>, was: int, ts: seq<Trade>, now: int)
    requires Ordered(day) && AllCaughtUp(c, day, was, ts)
    ensures var o := Cycle(c, ts, day, now);
            && AllCaughtUp(c, day, Later(was, now), o.trades)
            && forall j :: 0 <= j < |ts| ==> o.trades[j].terms == ts[j].terms && o.trades[j].entryBar == ts[j].entryBar
  {
    hide CaughtUp, Cycle;
    CycleCatchesUp(c, day, was, ts, now);
  }

  /** The trades that were there keep their places, and nobody else takes their ids. */
  lemma {:induction false} MovedKeeps(c: Rules, ts: seq<Trade>, day: seq<Bar>, was: int, moves: seq<Move>)
    requires Ordered(day) && AllCaughtUp(c, day, was, ts) && Allowed(c, ts, day, was, moves)
    ensures var o := Moved(c, ts, day, moves);
            && was <= LatestOf(was, moves) && AllCaughtUp(c, day, LatestOf(was, moves), o.trades)
            && forall j :: 0 <= j < |ts| ==> o.trades[j].terms == ts[j].terms && o.trades[j].entryBar == ts[j].entryBar
    decreases |moves|
  {
    hide CaughtUp, Cycle, CanOpen, AllCaughtUp;
    if moves != [] {
      match moves[0]
      case CycleAt(now) =>
        CyclesCaughtUp(c, day, was, ts, now);
        MovedKeeps(c, Cycle(c, ts, day, now).trades, day, Later(was, now), moves[1..]);
      case OpenTrade(k, bar) =>
        OpensCaughtUp(c, day, was, ts, k, bar);
        MovedKeeps(c, ts + [Opened(k, Some(bar))], day, was, moves[1..]);
    }
  }

  /** A cycle emits nothing for a trade it does not know. */
  lemma {:induction false} ApplyBarsOthers(c: Rules, ts: seq<Trade>, bars: seq<Bar>, id: int)
    requires DistinctIds(ts) && forall j :: 0 <= j < |ts| ==> ts[j].terms.id != id
    ensures OfTrade(id, ApplyBars(c, ts, bars).events) == []
    ensures forall j :: 0 <= j < |ts| ==> ApplyBars(c, ts, bars).trades[j].terms == ts[j].terms
    decreases |bars|
  {
    hide Step, StepAll;
    if bars != [] {
      var n := |bars| - 1;
      var a, p := ApplyBars(c, ts, bars[..n]), AsPrice(bars[n]);
      ApplyBarsOthers(c, ts, bars[..n], id);
      StepAllOthers(c, a.trades, p, id);
      OfTradeAppend(id, a.events, StepAll(c, a.trades, p).events);
      forall j | 0 <= j < |ts| ensures StepAll(c, a.trades, p).trades[j].terms == ts[j].terms {
        StepAllAt(c, a.trades, p, j);
        StepNamesTrade(c, a.trades[j], p);
      }
    }
  }

  lemma CycleOthers(c: Rules, ts: seq<Trade>, day: seq<Bar>, now: int, id: int)
    requires DistinctIds(ts) && forall j :: 0 <= j < |ts| ==> ts[j].terms.id != id
    ensures OfTrade(id, Cycle(c, ts, day, now).events) == []
  {
    hide ApplyBars;
    var seen := Closed(day, now);
    if AnyOpen(ts) && seen != [] {
      ApplyBarsOthers(c, ts, Between(seen, OldestCursor(ts, seen[|seen| - 1].start).value, now), id);
    }
  }

  /** What the moves emit for the trade at one place: for one that was there, its bars since; for one opened on the way,
      all of its bars. */
  ghost predicate EmitsItsBars(c: Rules, ts: seq<Trade>, day: seq<Bar>, was: int, o: Outcomes, end: int, i: nat)
    requires i < |o.trades|
  {
    var t := o.trades[i];
    OfTrade(t.terms.id, o.events)
    == if i < |ts| then Run(c, ts[i], AsPrices(Between(day, was, end))).events
       else Run(c, Opened(t.terms, t.entryBar), AsPrices(Between(day, EntryOf(t), end))).events
  }

  lemma NothingMoved(c: Rules, ts: seq<Trade>, day: seq<Bar>, was: int, i: nat)
    requires i < |ts|
    ensures EmitsItsBars(c, ts, day, was, Outcomes(ts, []), was, i)
  {
    OfTradeAll(ts[i].terms.id, []);
    NoneBackwards(day, was, was);
    AsNoPrices(c, ts[i]);
  }

  /** One more cycle in front. */
  lemma CycleThenMoves(c: Rules, ts: seq<Trade>, day: seq<Bar>, was: int, now: int, rest: Outcomes, end: int, i: nat)
    requires Ordered(day) && AllCaughtUp(c, day, was, ts) && Later(was, now) <= end && |ts| <= |rest.trades| && i < |rest.trades|
    requires DistinctIds(rest.trades)
    requires forall j :: 0 <= j < |ts| ==> rest.trades[j].terms == ts[j].terms
    requires EmitsItsBars(c, Cycle(c, ts, day, now).trades, day, Later(was, now), rest, end, i)
    ensures EmitsItsBars(c, ts, day, was, Outcomes(rest.trades, Cycle(c, ts, day, now).events + rest.events), end, i)
  {
    hide Run, Cycle, CaughtUp, Between, AsPrices, OfTrade;
    var a, id, mid := Cycle(c, ts, day, now), rest.trades[i].terms.id, Later(was, now);
    OfTradeAppend(id, a.events, rest.events);
    if i < |ts| {
      CycleGivesUnseen(c, day, was, ts, now, i);
      NoneBackwards(day, was, was);
      if now < was {
        NoneBackwards(day, was, now);
      }
      RunInTwo(c, day, ts[i], was, mid, end);
    } else {
      assert forall j :: 0 <= j < |ts| ==> rest.trades[j].terms.id != id;
      CycleOthers(c, ts, day, now, id);
    }
  }

  /** One more opening in front. */
  lemma OpeningThenMoves(c: Rules, ts: seq<Trade>, day: seq<Bar>, was: int, k: Terms, bar: int, rest: Outcomes, end: int, i: nat)
    requires Ordered(day) && CanOpen(ts, day, was, k, bar) && was <= end && |ts| < |rest.trades| && i < |rest.trades|
    requires rest.trades[|ts|].terms == k && rest.trades[|ts|].entryBar == Some(bar)
    requires EmitsItsBars(c, ts + [Opened(k, Some(bar))], day, was, rest, end, i)
    ensures EmitsItsBars(c, ts, day, was, rest, end, i)
  {
    hide Run, Between, AsPrices, OfTrade;
    if i == |ts| {
      BetweenSplits(day, bar, was, end);
      assert [] + Between(day, was, end) == Between(day, was, end);
    }
  }

  /** Schedule independence: whatever instants the cycles run at (skipped, repeated, late, after a restart) and whenever
      trades are opened between them, each trade ends as the one in-order fold of the bars after its entry bar, and its
      events are those of that fold. */
  lemma {:induction false} ScheduleIndependence(c: Rules, day: seq<Bar>, was: int, ts: seq<Trade>, moves: seq<Move>, i: nat)
    requires Ordered(day) && AllCaughtUp(c, day, was, ts) && Allowed(c, ts, day, was, moves)
    requires i < |Moved(c, ts, day, moves).trades|
    ensures var o := Moved(c, ts, day, moves); var end := LatestOf(was, moves); var t := o.trades[i];
            && was <= end
            && t == Run(c, Opened(t.terms, t.entryBar), AsPrices(Between(day, EntryOf(t), end))).trade
            && EmitsItsBars(c, ts, day, was, o, end, i)
    decreases |moves|
  {
    hide Run, Cycle, CaughtUp, Between, AsPrices, OfTrade, CanOpen, EmitsItsBars;
    MovedKeeps(c, ts, day, was, moves);
    var o, end := Moved(c, ts, day, moves), LatestOf(was, moves);
    CaughtUpMeans(c, day, end, o.trades[i]);
    if moves == [] {
      NothingMoved(c, ts, day, was, i);
    } else {
      match moves[0]
      case CycleAt(now) =>
        var a := Cycle(c, ts, day, now);
        CyclesCaughtUp(c, day, was, ts, now);
        MovedKeeps(c, a.trades, day, Later(was, now), moves[1..]);
        ScheduleIndependence(c, day, Later(was, now), a.trades, moves[1..], i);
        CycleThenMoves(c, ts, day, was, now, Moved(c, a.trades, day, moves[1..]), end, i);
      case OpenTrade(k, bar) =>
        var ts' := ts + [Opened(k, Some(bar))];
        OpensCaughtUp(c, day, was, ts, k, bar);
        MovedKeeps(c, ts', day, was, moves[1..]);
        ScheduleIndependence(c, day, was, ts', moves[1..], i);
        OpeningThenMoves(c, ts, day, was, k, bar, o, end, i);
    }
  }

  /** In particular over a whole day that starts with no trade: each trade's events and final state are those of the one
      pass over the bars after its entry bar. */
  lemma WholeDay(c: Rules, day: seq<Bar>, was: int, moves: seq<Move>, i: nat)
    requires Ordered(day) && Allowed(c, [], day, was, moves) && i < |Moved(c, [], day, moves).trades|
    ensures var o := Moved(c, [], day, moves); var t := o.trades[i];
            Outcome(t, OfTrade(t.terms.id, o.events))
            == Run(c, Opened(t.terms, t.entryBar), AsPrices(Between(day, EntryOf(t), LatestOf(was, moves))))
  {
    hide Run, Between, AsPrices, OfTrade, Moved, Allowed;
    ScheduleIndependence(c, day, was, [], moves, i);
  }

  lemma BarPrice(b: Bar)
    ensures CloseTs(b) == b.start + 300_000_000
    ensures AsPrice(b) == Price(b.start + 300_000_000, b.high, b.low, b.close, true, Some(b.open))
  {
  }

  lemma PricesAt(bars: seq<Bar>, n: nat)
    requires n < |bars|
    ensures AsPrices(bars)[n] == AsPrice(bars[n])
  {
  }

  /** And each of those events is of a bar of the day that closed after the trade's entry bar, at its close's instant, filled by
      that bar's own open, high, low and close. */
  lemma DayEventsAreOfBars(c: Rules, day: seq<Bar>, was: int, moves: seq<Move>, i: nat, e: Event) returns (b: Bar, held: int,
                           stop: real)
    requires Ordered(day) && Allowed(c, [], day, was, moves) && i < |Moved(c, [], day, moves).trades|
    requires var o := Moved(c, [], day, moves); o.trades[i].terms.qty >= 1 && e in OfTrade(o.trades[i].terms.id, o.events)
    ensures var t := Moved(c, [], day, moves).trades[i];
            && b in day && EntryOf(t) < b.start + 300_000_000 <= LatestOf(was, moves)
            && IsFill(c, t.terms, held, stop, Price(b.start + 300_000_000, b.high, b.low, b.close, true, Some(b.open)), e)
  {
    WholeDay(c, day, was, moves, i);
    hide *;
    var t := Moved(c, [], day, moves).trades[i];
    var bars := Between(day, EntryOf(t), LatestOf(was, moves));
    var ps := AsPrices(bars);
    var n := EveryEventIsFill(c, t.terms, t.entryBar, ps, e);
    var before := Run(c, Opened(t.terms, t.entryBar), ps[..n]).trade;
    b, held, stop := bars[n], before.remaining, Judged(before, ps[n], before.changes).0;
    BetweenMembers(day, EntryOf(t), LatestOf(was, moves), b);
    BarPrice(b);
    PricesAt(bars, n);
  }

  // ---------------------------------------------------------------- whatever the other cursors

  /** Bars a trade has seen do nothing to it. */
  lemma {:induction false} SeenBarsSilent(c: Rules, t: Trade, bars: seq<Bar>)
    requires t.closed || forall i :: 0 <= i < |bars| ==> NotAfter(t.lastBar, CloseTs(bars[i]))
    ensures Run(c, t, AsPrices(bars)) == Outcome(t, [])
    decreases |bars|
  {
    hide Update, Judged, Arrive, Logged;
    if bars != [] {
      assert AsPrices(bars)[1..] == AsPrices(bars[1..]);
      SeenBarsSilent(c, t, bars[1..]);
    }
  }

  lemma NoBarsYet(c: Rules, ts: seq<Trade>, day: seq<Bar>, now: int, id: int)
    requires Closed(day, now) == []
    ensures var o := Cycle(c, ts, day, now); o.trades == ts && OfTrade(id, o.events) == []
  {
  }

  /** An open trade is given the bars since the oldest cursor. */
  lemma FromOldest(c: Rules, ts: seq<Trade>, day: seq<Bar>, now: int, i: nat)
    requires DistinctIds(ts) && i < |ts| && !ts[i].closed && Closed(day, now) != []
    ensures AnyOpen(ts)
    ensures var seen, o := Closed(day, now), Cycle(c, ts, day, now);
            var cursor := OldestCursor(ts, seen[|seen| - 1].start).value;
            Outcome(o.trades[i], OfTrade(ts[i].terms.id, o.events)) == Run(c, ts[i], AsPrices(Between(day, cursor, now)))
  {
    hide Run, ApplyBars, Between, AsPrices, OfTrade, Closed, OldestCursor;
    assert AnyOpen(ts);
    var seen := Closed(day, now);
    var cursor := OldestCursor(ts, seen[|seen| - 1].start).value;
    ClosedBetween(day, cursor, now);
    ApplyBarsProjects(c, ts, Between(day, cursor, now), i);
  }

  lemma ClosedUntouched(c: Rules, ts: seq<Trade>, day: seq<Bar>, now: int, i: nat)
    requires DistinctIds(ts) && i < |ts| && ts[i].closed
    ensures var o := Cycle(c, ts, day, now); Outcome(o.trades[i], OfTrade(ts[i].terms.id, o.events)) == Outcome(ts[i], [])
  {
    OfTradeAll(ts[i].terms.id, []);
    hide Run, ApplyBars;
    var seen := Closed(day, now);
    if AnyOpen(ts) && seen != [] {
      var bars := Between(seen, OldestCursor(ts, seen[|seen| - 1].start).value, now);
      ApplyBarsProjects(c, ts, bars, i);
      ClosedStays(c, ts[i], AsPrices(bars));
    }
  }

  /** From an older cursor: the bars up to its own last one are silent, the rest are its own. */
  lemma OlderBarsSilent(c: Rules, t: Trade, day: seq<Bar>, cursor: int, now: int)
    requires Ordered(day) && t.lastBar.Some? && cursor <= t.lastBar.value
    ensures Run(c, t, AsPrices(Between(day, cursor, now))) == Run(c, t, AsPrices(Between(day, t.lastBar.value, now)))
  {
    hide Run, AsPrices, Between;
    var own := t.lastBar.value;
    var stop := if own < now then own else now;
    if cursor <= stop {
      var early := Between(day, cursor, stop);
      forall i | 0 <= i < |early| ensures NotAfter(t.lastBar, CloseTs(early[i])) {
        BetweenMembers(day, cursor, stop, early[i]);
      }
      SeenBarsSilent(c, t, early);
      if own <= now {
        RunInTwo(c, day, t, cursor, own, now);
        assert [] + Run(c, t, AsPrices(Between(day, own, now))).events == Run(c, t, AsPrices(Between(day, own, now))).events;
      } else {
        NoneBackwards(day, own, now);
        AsNoPrices(c, t);
      }
    } else {
      NoneBackwards(day, cursor, now);
      NoneBackwards(day, own, now);
    }
  }

  lemma {:induction false} OldestIsOldest(ts: seq<Trade>, latest: int, i: nat)
    requires i < |ts| && !ts[i].closed
    ensures AnyOpen(ts) && OldestCursor(ts, latest).value <= CursorOf(ts[i], latest)
    decreases |ts|
  {
    assert AnyOpen(ts);
    if i < |ts| - 1 {
      assert ts[..|ts| - 1][i] == ts[i];
      OldestIsOldest(ts[..|ts| - 1], latest, i);
    }
  }

  /** Whatever the other trades and their cursors, a cycle gives a trade that has seen a bar exactly the bars after it. */
  lemma CycleFromOwnCursor(c: Rules, ts: seq<Trade>, day: seq<Bar>, now: int, i: nat)
    requires Ordered(day) && DistinctIds(ts) && i < |ts| && ts[i].lastBar.Some?
    ensures var o := Cycle(c, ts, day, now);
            Outcome(o.trades[i], OfTrade(ts[i].terms.id, o.events))
            == Run(c, ts[i], AsPrices(Between(day, ts[i].lastBar.value, now)))
  {
    hide Run, Between, AsPrices, OfTrade, Cycle;
    var t, own := ts[i], ts[i].lastBar.value;
    if t.closed {
      ClosedStays(c, t, AsPrices(Between(day, own, now)));
      ClosedUntouched(c, ts, day, now, i);
    } else if Closed(day, now) == [] {
      ClosedEmpty(day, own, now);
      AsNoPrices(c, t);
      NoBarsYet(c, ts, day, now, t.terms.id);
    } else {
      var latest := Closed(day, now)[|Closed(day, now)| - 1].start;
      OldestIsOldest(ts, latest, i);
      FromOldest(c, ts, day, now, i);
      OlderBarsSilent(c, t, day, OldestCursor(ts, latest).value, now);
    }
  }

  // ---------------------------------------------------------------- a trade adopted beside an older one

  /** A cycle gives an open trade every bar since the oldest cursor of its symbol; those are the bars after its own
      entry bar exactly when no bar closes between that cursor and the entry bar. */
  lemma AdoptedTradeBars(c: Rules, ts: seq<Trade>, day: seq<Bar>, now: int, i: nat)
    requires Ordered(day) && DistinctIds(ts) && i < |ts| && !ts[i].closed && Closed(day, now) != []
    requires ts[i].entryBar.Some? && ts[i].lastBar.None?
    ensures var seen := Closed(day, now);
            var cursor := OldestCursor(ts, seen[|seen| - 1].start).value;
            && cursor <= EntryOf(ts[i])
            && Cycle(c, ts, day, now).trades[i] == Run(c, ts[i], AsPrices(Between(day, cursor, now))).trade
            && (Between(day, cursor, now) == Between(day, EntryOf(ts[i]), now)
                <==> forall b :: b in day ==> !(cursor < CloseTs(b) <= EntryOf(ts[i]) && CloseTs(b) <= now))
  {
    hide Run, StepAll, ApplyBars, Between;
    var seen := Closed(day, now);
    var latest := seen[|seen| - 1].start;
    assert AnyOpen(ts);
    OldestIsOldest(ts, latest, i);
    var cursor, e := OldestCursor(ts, latest).value, EntryOf(ts[i]);
    ClosedBetween(day, cursor, now);
    ApplyBarsProjects(c, ts, Between(day, cursor, now), i);
    var given, own := Between(day, cursor, now), Between(day, e, now);
    var stop := if e < now then e else now;
    if cursor <= stop {
      BetweenSplits(day, cursor, stop, now);
      if now < e {
        NoneBackwards(day, e, now);
        NoneBackwards(day, now, now);
      }
      var early := Between(day, cursor, stop);
      assert given == early + own;
      assert given == own <==> early == [] by {
        if early != [] { assert |given| > |own|; }
      }
      forall b ensures b in early <==> b in day && cursor < CloseTs(b) <= stop {
        BetweenMembers(day, cursor, stop, b);
      }
      assert early != [] ==> early[0] in early;
    } else {
      NoneBackwards(day, cursor, now);
      NoneBackwards(day, e, now);
    }
  }

  const ADOPT_RULES: Rules := Rules(0.5, 3, DAY, 2.0, 3.0, true)
  const OLDER := Opened(Terms(1, "SBIN", "orb", Long, 80.0, 70.0, 100.0, 110.0, 10, 80.0), Some(0))
  const ADOPTED := Opened(Terms(2, "SBIN", "gap", Long, 100.0, 98.0, 104.0, 106.0, 10, 100.0), Some(2 * BAR))
  const EARLY_BAR := Bar(0, 90.0, 91.0, 89.0, 90.0)

  lemma EarlyBarStops(e: Event)
    requires e == MakeEvent(ADOPTED, StopHit, BAR, 90.0, 10, None)
    ensures Step(ADOPT_RULES, ADOPTED, AsPrice(EARLY_BAR)).events == [e]
  {
    var p := AsPrice(EARLY_BAR);
    assert Judged(ADOPTED, p, []) == (98.0, false);
    assert Touches(Long, 98.0, p, false) && StopFill(Long, 98.0, p.Open()) == 90.0;
  }

  lemma EarlyBarIsReplayed()
    ensures var ts := [OLDER, ADOPTED];
            Cycle(ADOPT_RULES, ts, [EARLY_BAR], 2 * BAR) == ApplyBars(ADOPT_RULES, ts, [EARLY_BAR])
  {
    hide ApplyBars;
    var ts := [OLDER, ADOPTED];
    assert [EARLY_BAR][1..] == [] && Closed([EARLY_BAR], 2 * BAR) == [EARLY_BAR];
    assert !ts[0].closed && ![OLDER][0].closed;
    assert ts[..1] == [OLDER] && [OLDER][..0] == [];
    assert OldestCursor([OLDER], 0) == Some(0) && OldestCursor(ts, 0) == Some(0);
    assert Between([EARLY_BAR], 0, 2 * BAR) == [EARLY_BAR];
  }

  /** An event of the last trade's step is among those one bar gives all of them. */
  lemma OneBarReaches(c: Rules, ts: seq<Trade>, b: Bar, e: Event)
    requires ts != [] && e in Step(c, ts[|ts| - 1], AsPrice(b)).events
    ensures e in ApplyBars(c, ts, [b]).events
  {
    hide Step;
    assert [b][..0] == [];
    assert ApplyBars(c, ts, [b]).events == StepAll(c, ts, AsPrice(b)).events;
  }

  /** So a trade adopted beside an older, lagging one can be stopped out by a bar that closed before its own entry bar. */
  lemma AdoptedTradeCanExitBeforeEntry()
    ensures exists e :: e in Cycle(ADOPT_RULES, [OLDER, ADOPTED], [EARLY_BAR], 2 * BAR).events
                        && e.kind.StopHit? && e.tradeId == 2 && e.ts < EntryOf(ADOPTED)
  {
    EarlyBarIsReplayed();
    var e := MakeEvent(ADOPTED, StopHit, BAR, 90.0, 10, None);
    EarlyBarStops(e);
    var ts := [OLDER, ADOPTED];
    assert e.kind.StopHit? && e.tradeId == 2 && e.ts < EntryOf(ADOPTED);
    hide Step, Cycle, ApplyBars, MakeEvent;
    OneBarReaches(ADOPT_RULES, ts, EARLY_BAR, e);
  }
}
