/**
 Bar management is independent of when the cycles run (tradalgo/engine/cycle.py, _manage_open_trades):
 each cycle replays, for one symbol, every closed bar of the day that its open trades have not seen.
 */
module Schedule {
  import opened Common
  import opened Positions
  import opened PositionManagers
  import opened Lifecycle
  import opened Cursors

  datatype Bar = Bar(start: int, open: real, high: real, low: real, close: real)

  function CloseTs(b: Bar): int { b.start + BAR }

  function AsPrice(b: Bar): Price { Price(CloseTs(b), b.high, b.low, b.close, true, Some(b.open)) }

  function AsPrices(bs: seq<Bar>): (ps: seq<Price>)
    ensures |ps| == |bs|
  {
    seq(|bs|, i requires 0 <= i < |bs| => AsPrice(bs[i]))
  }

  /** A day's candles as the data layer normalizes them: strictly increasing starts. */
  ghost predicate Ordered(day: seq<Bar>) {
    forall i, j :: 0 <= i < j < |day| ==> day[i].start < day[j].start
  }

  /** The bars that close after one instant and not after another. */
  function Between(day: seq<Bar>, after: int, upTo: int): seq<Bar> {
    if day == [] then [] else
    (if after < CloseTs(day[0]) <= upTo then [day[0]] else []) + Between(day[1..], after, upTo)
  }

  /** The bars closed at `now`. */
  function Closed(day: seq<Bar>, now: int): seq<Bar> {
    if day == [] then [] else (if CloseTs(day[0]) <= now then [day[0]] else []) + Closed(day[1..], now)
  }

  predicate AnyOpen(ts: seq<Trade>) { exists i :: 0 <= i < |ts| && !ts[i].closed }

  function CursorOf(t: Trade, latest: int): int {
    if t.lastBar.Some? then t.lastBar.value else if t.entryBar.Some? then t.entryBar.value else latest
  }

  /** The oldest cursor of the open trades. */
  function OldestCursor(ts: seq<Trade>, latest: int): (r: Option<int>)
    ensures r.None? <==> !AnyOpen(ts)
  {
    if ts == [] then None else
    var rest := OldestCursor(ts[..|ts| - 1], latest);
    var last := ts[|ts| - 1];
    assert AnyOpen(ts) <==> AnyOpen(ts[..|ts| - 1]) || !last.closed by {
      if AnyOpen(ts[..|ts| - 1]) {
        var i :| 0 <= i < |ts| - 1 && !ts[..|ts| - 1][i].closed;
        assert !ts[i].closed;
      }
      if AnyOpen(ts) && last.closed {
        var i :| 0 <= i < |ts| && !ts[i].closed;
        assert !ts[..|ts| - 1][i].closed;
      }
    }
    if last.closed then rest
    else if rest.Some? && rest.value <= CursorOf(last, latest) then rest
    else Some(CursorOf(last, latest))
  }

  function ApplyBars(c: Rules, ts: seq<Trade>, bars: seq<Bar>): (o: Outcomes)
    ensures |o.trades| == |ts|
    decreases |bars|
  {
    if bars == [] then Outcomes(ts, []) else
    var a := ApplyBars(c, ts, bars[..|bars| - 1]);
    var b := StepAll(c, a.trades, AsPrice(bars[|bars| - 1]));
    Outcomes(b.trades, a.events + b.events)
  }

  /** One cycle at `now` over the trades of one symbol. */
  function Cycle(c: Rules, ts: seq<Trade>, day: seq<Bar>, now: int): (o: Outcomes)
    ensures |o.trades| == |ts|
  {
    var seen := Closed(day, now);
    if !AnyOpen(ts) || seen == [] then Outcomes(ts, []) else
    ApplyBars(c, ts, Between(seen, OldestCursor(ts, seen[|seen| - 1].start).value, now))
  }

  // ---------------------------------------------------------------- the loop the engine runs

  method OldestOf(pm: PositionManager, latest: int) returns (r: Option<int>)
    requires pm.Valid()
    ensures r == OldestCursor(pm.Snapshots(), latest)
  {
    r := None;
    for i := 0 to |pm.order|
      invariant r == OldestCursor(pm.Snapshots()[..i], latest)
    {
      var t := pm.trades[pm.order[i]];
      assert pm.Snapshots()[..i + 1][..i] == pm.Snapshots()[..i];
      if !t.closed {
        var cursor := if t.lastBar.Some? then t.lastBar.value else if t.entryBar.Some? then t.entryBar.value else latest;
        if r.None? || r.value > cursor {
          r := Some(cursor);
        }
      }
    }
    assert pm.Snapshots()[..|pm.order|] == pm.Snapshots();
  }

  /** One symbol of _manage_open_trades: replay the closed bars its manager has not seen. */
  method ManageSymbol(pm: PositionManager, day: seq<Bar>, now: int) returns (events: seq<Event>)
    requires pm.Valid()
    modifies pm.trades.Values
    ensures pm.Valid()
    ensures Outcomes(pm.Snapshots(), events) == Cycle(pm.rules, old(pm.Snapshots()), day, now)
  {
    hide StepAll, Between, Closed, OldestCursor;
    events := [];
    ghost var was := pm.Snapshots();
    var seen := Closed(day, now);
    var cursor := OldestOf(pm, if seen == [] then 0 else seen[|seen| - 1].start);
    if cursor.None? || seen == [] { return; }
    var todo := Between(seen, cursor.value, now);
    for i := 0 to |todo|
      invariant pm.Valid()
      invariant Outcomes(pm.Snapshots(), events) == ApplyBars(pm.rules, was, todo[..i])
    {
      var es := pm.OnPrice(AsPrice(todo[i]));
      events := events + es;
      assert todo[..i + 1][..i] == todo[..i];
    }
    assert todo[..|todo|] == todo;
  }

  // ---------------------------------------------------------------- filters of an ordered day

  lemma {:induction false} ClosedBetween(day: seq<Bar>, after: int, upTo: int)
    ensures Between(Closed(day, upTo), after, upTo) == Between(day, after, upTo)
  {
    if day != [] {
      ClosedBetween(day[1..], after, upTo);
      var rest := Closed(day[1..], upTo);
      if CloseTs(day[0]) <= upTo {
        assert Closed(day, upTo) == [day[0]] + rest;
        assert ([day[0]] + rest)[1..] == rest;
      } else {
        assert Closed(day, upTo) == rest;
      }
    }
  }

  lemma {:induction false} ClosedEmpty(day: seq<Bar>, after: int, upTo: int)
    requires Closed(day, upTo) == []
    ensures Between(day, after, upTo) == []
  {
    if day != [] {
      ClosedEmpty(day[1..], after, upTo);
    }
  }

  lemma {:induction false} BetweenMembers(day: seq<Bar>, after: int, upTo: int, b: Bar)
    ensures b in Between(day, after, upTo) <==> b in day && after < CloseTs(b) <= upTo
  {
    if day != [] {
      BetweenMembers(day[1..], after, upTo, b);
      assert day == [day[0]] + day[1..];
    }
  }

  lemma {:induction false} BetweenOrdered(day: seq<Bar>, after: int, upTo: int)
    requires Ordered(day)
    ensures Ordered(Between(day, after, upTo))
  {
    if day != [] {
      BetweenOrdered(day[1..], after, upTo);
      forall b | b in Between(day[1..], after, upTo) ensures b.start > day[0].start {
        BetweenMembers(day[1..], after, upTo, b);
      }
    }
  }

  lemma {:induction false} NothingLater(day: seq<Bar>, start: int, a: int, b: int)
    requires forall i :: 0 <= i < |day| ==> day[i].start > start
    requires b < start + BAR
    ensures Between(day, a, b) == []
  {
    if day != [] {
      NothingLater(day[1..], start, a, b);
    }
  }

  function FirstIf(day: seq<Bar>, after: int, upTo: int): seq<Bar>
    requires day != []
  {
    if after < CloseTs(day[0]) <= upTo then [day[0]] else []
  }

  lemma BetweenCons(day: seq<Bar>, after: int, upTo: int)
    requires day != []
    ensures Between(day, after, upTo) == FirstIf(day, after, upTo) + Between(day[1..], after, upTo)
  {
  }

  lemma Interleave(x: seq<Bar>, y: seq<Bar>, a: seq<Bar>, b: seq<Bar>)
    requires y == [] || a == []
    ensures x + y + (a + b) == x + a + (y + b)
  {
    if y == [] {
      assert x + y == x && y + b == b && x + (a + b) == x + a + b;
    } else {
      assert a + b == b && x + a == x && x + y + b == x + (y + b);
    }
  }

  lemma FirstSplits(day: seq<Bar>, a: int, b: int, c: int)
    requires day != [] && a <= b <= c
    ensures FirstIf(day, a, c) == FirstIf(day, a, b) + FirstIf(day, b, c)
    ensures FirstIf(day, b, c) == [] || b < CloseTs(day[0])
  {
  }

  lemma {:induction false} BetweenSplits(day: seq<Bar>, a: int, b: int, c: int)
    requires Ordered(day) && a <= b <= c
    ensures Between(day, a, c) == Between(day, a, b) + Between(day, b, c)
  {
    if day != [] {
      var rest := day[1..];
      if b < CloseTs(day[0]) {
        NothingLater(rest, day[0].start, a, b);
      }
      BetweenSplits(rest, a, b, c);
      hide Between, Ordered, CloseTs;
      BetweenCons(day, a, b);
      BetweenCons(day, b, c);
      BetweenCons(day, a, c);
      FirstSplits(day, a, b, c);
      hide FirstIf;
      Interleave(FirstIf(day, a, b), FirstIf(day, b, c), Between(rest, a, b), Between(rest, b, c));
    }
  }

  // ---------------------------------------------------------------- one trade among those of its symbol

  function OfTrade(id: int, es: seq<Event>): seq<Event> {
    if es == [] then [] else (if es[0].tradeId == id then [es[0]] else []) + OfTrade(id, es[1..])
  }

  lemma {:induction false} OfTradeAppend(id: int, a: seq<Event>, b: seq<Event>)
    ensures OfTrade(id, a + b) == OfTrade(id, a) + OfTrade(id, b)
  {
    if a == [] {
      assert a + b == b;
    } else {
      assert (a + b)[1..] == a[1..] + b && (a + b)[0] == a[0];
      OfTradeAppend(id, a[1..], b);
      var head := if a[0].tradeId == id then [a[0]] else [];
      assert OfTrade(id, a + b) == head + (OfTrade(id, a[1..]) + OfTrade(id, b));
    }
  }

  lemma {:induction false} OfTradeAll(id: int, es: seq<Event>)
    ensures (forall i :: 0 <= i < |es| ==> es[i].tradeId == id) ==> OfTrade(id, es) == es
    ensures (forall i :: 0 <= i < |es| ==> es[i].tradeId != id) ==> OfTrade(id, es) == []
  {
    if es != [] {
      OfTradeAll(id, es[1..]);
      assert es == [es[0]] + es[1..];
    }
  }

  ghost predicate DistinctIds(ts: seq<Trade>) {
    forall i, j :: 0 <= i < j < |ts| ==> ts[i].terms.id != ts[j].terms.id
  }

  lemma {:induction false} StepAllOthers(c: Rules, ts: seq<Trade>, p: Price, id: int)
    requires forall i :: 0 <= i < |ts| ==> ts[i].terms.id != id
    ensures OfTrade(id, StepAll(c, ts, p).events) == []
    decreases |ts|
  {
    hide Step;
    if ts != [] {
      var n := |ts| - 1;
      StepAllOthers(c, ts[..n], p, id);
      StepNamesTrade(c, ts[n], p);
      OfTradeAppend(id, StepAll(c, ts[..n], p).events, Step(c, ts[n], p).events);
      OfTradeAll(id, Step(c, ts[n], p).events);
    }
  }

  /** The events of one id in a step over all trades are the events of that trade's own step. */
  lemma {:induction false} StepAllProjects(c: Rules, ts: seq<Trade>, p: Price, i: nat)
    requires i < |ts| && DistinctIds(ts)
    ensures OfTrade(ts[i].terms.id, StepAll(c, ts, p).events) == Step(c, ts[i], p).events
    decreases |ts|
  {
    hide Step;
    var n := |ts| - 1;
    var rest := StepAll(c, ts[..n], p);
    var last := Step(c, ts[n], p);
    StepNamesTrade(c, ts[n], p);
    OfTradeAppend(ts[i].terms.id, rest.events, last.events);
    OfTradeAll(ts[i].terms.id, last.events);
    if i < n {
      StepAllProjects(c, ts[..n], p, i);
    } else {
      StepAllOthers(c, ts[..n], p, ts[n].terms.id);
    }
  }

  lemma {:induction false} ApplyBarsProjects(c: Rules, ts: seq<Trade>, bars: seq<Bar>, i: nat)
    requires i < |ts| && DistinctIds(ts)
    ensures var o := ApplyBars(c, ts, bars);
            && Outcome(o.trades[i], OfTrade(ts[i].terms.id, o.events)) == Run(c, ts[i], AsPrices(bars))
            && (forall j :: 0 <= j < |ts| ==> o.trades[j].terms == ts[j].terms)
    decreases |bars|
  {
    hide Step, StepAll;
    if bars == [] {
    } else {
      var n := |bars| - 1;
      var a := ApplyBars(c, ts, bars[..n]);
      var p := AsPrice(bars[n]);
      ApplyBarsProjects(c, ts, bars[..n], i);
      StepAllProjects(c, a.trades, p, i);
      forall j | 0 <= j < |ts| ensures StepAll(c, a.trades, p).trades[j].terms == ts[j].terms {
        StepAllAt(c, a.trades, p, j);
        StepNamesTrade(c, a.trades[j], p);
      }
      StepAllAt(c, a.trades, p, i);
      OfTradeAppend(ts[i].terms.id, a.events, StepAll(c, a.trades, p).events);
      assert AsPrices(bars) == AsPrices(bars[..n]) + [p];
      RunAppend(c, ts[i], AsPrices(bars[..n]), [p]);
      RunSingle(c, a.trades[i], p);
    }
  }

  // ---------------------------------------------------------------- caught up to an instant

  function EntryOf(t: Trade): int { if t.entryBar.Some? then t.entryBar.value else 0 }

  /** The trade is the in-order fold of every bar of the day after its entry bar and up to `now`. */
  ghost predicate CaughtUp(c: Rules, day: seq<Bar>, now: int, t: Trade) {
    && t.entryBar.Some? && t.entryBar.value <= now
    && t == Run(c, Opened(t.terms, t.entryBar), AsPrices(Between(day, t.entryBar.value, now))).trade
  }

  lemma StepKeepsEntry(c: Rules, t: Trade, p: Price)
    ensures var t' := Step(c, t, p).trade;
            t'.entryBar == t.entryBar && (!t'.closed && p.barClosed && !NotAfter(t.lastBar, p.ts) ==> t'.lastBar == Some(p.ts))
    ensures t.closed ==> Step(c, t, p) == Outcome(t, [])
  {
    hide Update, Judged, ROf;
    if Applies(t, p) {
      var j := Judged(t, p, t.changes);
      UpdateFrame(c, Arrive(t, p), p, j.0, j.1);
    }
  }

  /** A trade still open after newer bars has the close of the last of them as its cursor. */
  lemma {:induction false} LastBarIsCursor(c: Rules, t: Trade, bars: seq<Bar>)
    requires Ordered(bars) && (forall i :: 0 <= i < |bars| ==> !NotAfter(t.lastBar, CloseTs(bars[i])))
    ensures var t' := Run(c, t, AsPrices(bars)).trade;
            && t'.entryBar == t.entryBar && t'.terms == t.terms
            && (!t'.closed ==> t'.lastBar == if bars == [] then t.lastBar else Some(CloseTs(bars[|bars| - 1])))
    decreases |bars|
  {
    hide Step;
    if bars != [] {
      var a := Step(c, t, AsPrice(bars[0]));
      StepKeepsEntry(c, t, AsPrice(bars[0]));
      StepNamesTrade(c, t, AsPrice(bars[0]));
      assert AsPrices(bars)[1..] == AsPrices(bars[1..]);
      if a.trade.closed {
        ClosedStays(c, a.trade, AsPrices(bars[1..]));
      } else {
        LastBarIsCursor(c, a.trade, bars[1..]);
      }
    }
  }

  lemma {:induction false} BetweenNone(day: seq<Bar>, after: int, upTo: int)
    requires forall x :: x in day ==> !(after < CloseTs(x) <= upTo)
    ensures Between(day, after, upTo) == []
  {
    if day != [] {
      BetweenNone(day[1..], after, upTo);
    }
  }

  /** A caught-up open trade has no unseen bar up to `now`, and its cursor is not past `now`. */
  lemma CursorHasSeenAll(c: Rules, day: seq<Bar>, now: int, t: Trade, latest: int)
    requires Ordered(day) && CaughtUp(c, day, now, t) && !t.closed
    ensures CursorOf(t, latest) <= now && Between(day, CursorOf(t, latest), now) == []
  {
    hide Run;
    var e := t.entryBar.value;
    var bars := Between(day, e, now);
    BetweenOrdered(day, e, now);
    LastBarIsCursor(c, Opened(t.terms, t.entryBar), bars);
    if bars != [] {
      var last := bars[|bars| - 1];
      BetweenMembers(day, e, now, last);
      forall x | x in day ensures !(CloseTs(last) < CloseTs(x) <= now) {
        BetweenMembers(day, e, now, x);
      }
      BetweenNone(day, CloseTs(last), now);
    }
  }

  /** The oldest cursor of caught-up trades skips nothing that is unseen and repeats nothing. */
  lemma {:induction false} OldestHasSeenAll(c: Rules, day: seq<Bar>, now: int, ts: seq<Trade>, latest: int)
    requires Ordered(day) && AnyOpen(ts) && forall i :: 0 <= i < |ts| ==> CaughtUp(c, day, now, ts[i])
    ensures var cursor := OldestCursor(ts, latest).value; cursor <= now && Between(day, cursor, now) == []
  {
    hide CaughtUp;
    var n := |ts| - 1;
    var last := ts[n];
    if !last.closed {
      CursorHasSeenAll(c, day, now, last, latest);
    }
    if AnyOpen(ts[..n]) {
      OldestHasSeenAll(c, day, now, ts[..n], latest);
    }
  }

  function Later(a: int, b: int): int { if a < b then b else a }

  lemma {:induction false} NoneBackwards(day: seq<Bar>, a: int, b: int)
    requires b <= a
    ensures Between(day, a, b) == []
  {
    if day != [] {
      NoneBackwards(day[1..], a, b);
    }
  }

  lemma CursorToUnseen(day: seq<Bar>, cursor: int, was: int, now: int)
    requires Ordered(day) && cursor <= was && Between(day, cursor, was) == []
    ensures Between(day, cursor, now) == Between(day, was, now)
  {
    if was <= now {
      BetweenSplits(day, cursor, was, now);
    } else {
      NoneBackwards(day, was, now);
      if cursor <= now {
        BetweenSplits(day, cursor, now, was);
      } else {
        NoneBackwards(day, cursor, now);
      }
    }
  }

  /** A cycle over caught-up trades gives each of them exactly its unseen bars. */
  lemma CycleGivesUnseen(c: Rules, day: seq<Bar>, was: int, ts: seq<Trade>, now: int, i: nat)
    requires Ordered(day) && DistinctIds(ts) && i < |ts|
    requires forall j :: 0 <= j < |ts| ==> CaughtUp(c, day, was, ts[j])
    ensures var o := Cycle(c, ts, day, now);
            Outcome(o.trades[i], OfTrade(ts[i].terms.id, o.events)) == Run(c, ts[i], AsPrices(Between(day, was, now)))
  {
    var seen := Closed(day, now);
    var unseen := Between(day, was, now);
    EmptyRun(c, ts[i]);
    OfTradeAll(ts[i].terms.id, []);
    hide Run, StepAll, ApplyBars, CaughtUp, Between, Closed, OldestCursor;
    if !AnyOpen(ts) {
      ClosedStays(c, ts[i], AsPrices(unseen));
    } else if seen == [] {
      ClosedEmpty(day, was, now);
    } else {
      var latest := seen[|seen| - 1].start;
      OldestHasSeenAll(c, day, was, ts, latest);
      var cursor := OldestCursor(ts, latest).value;
      ClosedBetween(day, cursor, now);
      CursorToUnseen(day, cursor, was, now);
      ApplyBarsProjects(c, ts, unseen, i);
    }
  }

  lemma AsPricesAppend(a: seq<Bar>, b: seq<Bar>)
    ensures AsPrices(a + b) == AsPrices(a) + AsPrices(b)
  {
  }

  lemma AsNoPrices(c: Rules, t: Trade)
    ensures Run(c, t, AsPrices([])) == Outcome(t, [])
  {
  }

  lemma CaughtUpMeans(c: Rules, day: seq<Bar>, now: int, t: Trade)
    requires CaughtUp(c, day, now, t)
    ensures t.entryBar.Some? && EntryOf(t) <= now
    ensures t == Run(c, Opened(t.terms, t.entryBar), AsPrices(Between(day, EntryOf(t), now))).trade
  {
  }

  /** A run over the bars of a longer interval, in two parts. */
  lemma RunInTwo(c: Rules, day: seq<Bar>, t: Trade, a: int, b: int, d: int)
    requires Ordered(day) && a <= b <= d
    ensures var x := Run(c, t, AsPrices(Between(day, a, b)));
            var y := Run(c, x.trade, AsPrices(Between(day, b, d)));
            Run(c, t, AsPrices(Between(day, a, d))) == Outcome(y.trade, x.events + y.events)
  {
    hide Run, Between, AsPrices;
    BetweenSplits(day, a, b, d);
    AsPricesAppend(Between(day, a, b), Between(day, b, d));
    RunAppend(c, t, AsPrices(Between(day, a, b)), AsPrices(Between(day, b, d)));
  }

  /** The fold up to an earlier instant, continued over the bars since, is the fold up to the later one. */
  lemma CatchUp(c: Rules, day: seq<Bar>, was: int, t: Trade, now: int)
    requires Ordered(day) && CaughtUp(c, day, was, t)
    ensures var t' := Run(c, t, AsPrices(Between(day, was, now))).trade;
            CaughtUp(c, day, Later(was, now), t') && t'.terms == t.terms && t'.entryBar == t.entryBar
  {
    hide Run, Between, AsPrices;
    if was <= now {
      var start := Opened(t.terms, t.entryBar);
      RunInTwo(c, day, start, EntryOf(t), was, now);
      BetweenOrdered(day, EntryOf(t), now);
      LastBarIsCursor(c, start, Between(day, EntryOf(t), now));
    } else {
      NoneBackwards(day, was, now);
      AsNoPrices(c, t);
    }
  }

  /** A cycle leaves every trade caught up to the cycle's instant. */
  lemma CycleCatchesUp(c: Rules, day: seq<Bar>, was: int, ts: seq<Trade>, now: int)
    requires Ordered(day) && DistinctIds(ts)
    requires forall j :: 0 <= j < |ts| ==> CaughtUp(c, day, was, ts[j])
    ensures var o := Cycle(c, ts, day, now);
            forall j :: 0 <= j < |ts| ==> CaughtUp(c, day, Later(was, now), o.trades[j])
                                          && o.trades[j].terms == ts[j].terms && o.trades[j].entryBar == ts[j].entryBar
  {
    hide Run, Between, AsPrices, Cycle, CaughtUp;
    var o := Cycle(c, ts, day, now);
    forall j | 0 <= j < |ts|
      ensures CaughtUp(c, day, Later(was, now), o.trades[j])
              && o.trades[j].terms == ts[j].terms && o.trades[j].entryBar == ts[j].entryBar
    {
      CycleGivesUnseen(c, day, was, ts, now, j);
      CatchUp(c, day, was, ts[j], now);
    }
  }
}
