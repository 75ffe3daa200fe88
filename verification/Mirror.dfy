/**
 Long and short are one machine: reflecting every price about a level turns any run of a long
 trade into the run of the reflected short trade, event for event and R for R.
 */
module Mirror {
  import opened Common
  import opened Positions

  function Flip(d: Direction): Direction { if d.Long? then Short else Long }

  function MTerms(m: real, k: Terms): Terms {
    Terms(k.id, k.symbol, k.strategy, Flip(k.dir), m - k.entry, m - k.initialStop, m - k.target2r, m - k.target3r,
          k.qty, m - k.filledPrice)
  }

  function MSeq(m: real, s: seq<real>): (r: seq<real>)
    ensures |r| == |s|
  {
    seq(|s|, i requires 0 <= i < |s| => m - s[i])
  }

  function MLog(m: real, cs: seq<Change>): (r: seq<Change>)
    ensures |r| == |cs|
  {
    seq(|cs|, i requires 0 <= i < |cs| => cs[i].(stop := m - cs[i].stop))
  }

  function MTrade(m: real, t: Trade): Trade {
    Trade(MTerms(m, t.terms), m - t.stop, t.remaining, t.partialDone, t.closed, t.lastBar, t.lastTick, t.entryBar,
          MLog(m, t.changes), t.mfe, t.mae, MSeq(m, t.lows), MSeq(m, t.highs))
  }

  function MPrice(m: real, p: Price): Price {
    Price(p.ts, m - p.low, m - p.high, m - p.close, p.barClosed, if p.open.None? then None else Some(m - p.open.value))
  }

  function MEvent(m: real, e: Event): Event {
    e.(price := m - e.price, newStop := if e.newStop.None? then None else Some(m - e.newStop.value))
  }

  function MEvents(m: real, es: seq<Event>): (r: seq<Event>)
    ensures |r| == |es|
  {
    seq(|es|, i requires 0 <= i < |es| => MEvent(m, es[i]))
  }

  function MOutcome(m: real, o: Outcome): Outcome { Outcome(MTrade(m, o.trade), MEvents(m, o.events)) }

  function MPrices(m: real, ps: seq<Price>): (r: seq<Price>)
    ensures |r| == |ps|
  {
    seq(|ps|, i requires 0 <= i < |ps| => MPrice(m, ps[i]))
  }

  lemma MEventsAppend(m: real, a: seq<Event>, b: seq<Event>)
    ensures MEvents(m, a + b) == MEvents(m, a) + MEvents(m, b)
  {
  }

  lemma {:induction false} ExtremesMirror(m: real, s: seq<real>)
    requires |s| > 0
    ensures MaxOf(MSeq(m, s)) == m - MinOf(s) && MinOf(MSeq(m, s)) == m - MaxOf(s)
  {
    if |s| > 1 {
      assert MSeq(m, s)[1..] == MSeq(m, s[1..]);
      ExtremesMirror(m, s[1..]);
    }
  }

  /** R is unchanged by the reflection. */
  lemma RMirror(m: real, k: Terms, price: real)
    ensures Rps(MTerms(m, k)) == Rps(k) && ROf(MTerms(m, k), m - price) == ROf(k, price)
  {
    assert Sign(Flip(k.dir)) * ((m - price) - (m - k.entry)) == Sign(k.dir) * (price - k.entry);
  }

  lemma LevelMirror(m: real, k: Terms, r: real)
    ensures Level(MTerms(m, k), r) == m - Level(k, r)
  {
    RMirror(m, k, k.entry);
    var d := r * Rps(k);
    assert Sign(k.dir) * r * Rps(k) == Sign(k.dir) * d;
    assert Sign(Flip(k.dir)) * r * Rps(k) == Sign(Flip(k.dir)) * d;
  }

  lemma TouchMirror(m: real, d: Direction, level: real, p: Price, favorable: bool)
    ensures Touches(Flip(d), m - level, MPrice(m, p), favorable) == Touches(d, level, p, favorable)
  {
  }

  lemma EventMirror(m: real, t: Trade, kind: Kind, ts: int, price: real, qty: int, newStop: Option<real>)
    ensures MakeEvent(MTrade(m, t), kind, ts, m - price, qty, if newStop.None? then None else Some(m - newStop.value))
         == MEvent(m, MakeEvent(t, kind, ts, price, qty, newStop))
  {
    hide ROf;
    RMirror(m, t.terms, price);
  }

  lemma ExitMirror(m: real, t: Trade, kind: Kind, ts: int, price: real)
    ensures ExitAll(MTrade(m, t), kind, ts, m - price) == MOutcome(m, ExitAll(t, kind, ts, price))
  {
    hide MakeEvent, MEvent;
    EventMirror(m, t, kind, ts, price, t.remaining, None);
  }

  lemma MoveStopMirror(m: real, t: Trade, candidate: real, ts: int, price: real)
    ensures MoveStop(MTrade(m, t), m - candidate, ts, m - price) == MOutcome(m, MoveStop(t, candidate, ts, price))
  {
    var o := MoveStop(t, candidate, ts, price);
    assert Tighter(Flip(t.terms.dir), m - t.stop, m - candidate) == m - Tighter(t.terms.dir, t.stop, candidate);
    EventMirror(m, o.trade, TrailUpdate, ts, price, 0, Some(o.trade.stop));
    hide MakeEvent, MEvent;
    assert MTrade(m, o.trade) == MTrade(m, t).(stop := m - o.trade.stop);
    assert MEvents(m, o.events) == MoveStop(MTrade(m, t), m - candidate, ts, m - price).events;
  }

  lemma TakePartialMirror(m: real, c: Rules, t: Trade, p: Price)
    ensures TakePartial(c, MTrade(m, t), MPrice(m, p)) == MOutcome(m, TakePartial(c, t, p))
  {
    hide MakeEvent, MEvent, Touches, Level, PartialSize, MoveStop;
    var level := Level(t.terms, c.partialAtR);
    LevelMirror(m, t.terms, c.partialAtR);
    TouchMirror(m, t.terms.dir, level, p, true);
    ExitMirror(m, t.(partialDone := true), PartialExit, p.ts, level);
    var q := PartialSize(c, t.terms.qty);
    EventMirror(m, t, PartialExit, p.ts, level, q, None);
    var t' := t.(partialDone := true, remaining := t.remaining - q);
    MoveStopMirror(m, t', t.terms.entry, p.ts, level);
    assert MTrade(m, t') == MTrade(m, t).(partialDone := true, remaining := t.remaining - q);
    assert MTrade(m, t.(partialDone := true)) == MTrade(m, t).(partialDone := true);
    var e := MakeEvent(t, PartialExit, p.ts, level, q, None);
    var s := MoveStop(t', t.terms.entry, p.ts, level);
    MEventsAppend(m, [e], s.events);
    assert MEvents(m, [e]) == [MEvent(m, e)];
  }

  lemma LastNMirror(m: real, s: seq<real>, x: real, n: nat)
    ensures LastN(MSeq(m, s) + [m - x], n) == MSeq(m, LastN(s + [x], n))
    ensures |LastN(s + [x], n)| == if |s| + 1 <= n then |s| + 1 else n
  {
    assert MSeq(m, s) + [m - x] == MSeq(m, s + [x]);
  }

  lemma PushedMirror(m: real, c: Rules, t: Trade, p: Price)
    requires |t.highs| == |t.lows|
    ensures var t' := Pushed(c, t, p);
            && Pushed(c, MTrade(m, t), MPrice(m, p)) == MTrade(m, t')
            && |t'.highs| == |t'.lows|
            && TrailCandidate(MTrade(m, t')) == m - TrailCandidate(t')
  {
    LastNMirror(m, t.lows, p.low, c.trailBars);
    LastNMirror(m, t.highs, p.high, c.trailBars);
    hide LastN, MSeq, MLog;
    ExtremesMirror(m, Pushed(c, t, p).lows);
    ExtremesMirror(m, Pushed(c, t, p).highs);
  }

  lemma MoveStopKeepsWindow(t: Trade, candidate: real, ts: int, price: real)
    ensures var u := MoveStop(t, candidate, ts, price).trade; u == t.(stop := u.stop)
  {
  }

  lemma NoEventsMirror(m: real)
    ensures MEvents(m, []) == []
  {
  }

  lemma TrailMirror(m: real, c: Rules, t: Trade, p: Price)
    requires |t.highs| == |t.lows|
    ensures TrailBar(c, MTrade(m, t), MPrice(m, p)) == MOutcome(m, TrailBar(c, t, p))
    ensures var b := TrailBar(c, t, p).trade; |b.highs| == |b.lows|
  {
    NoEventsMirror(m);
    hide MoveStop, Pushed, TrailCandidate, MEvents;
    if p.barClosed {
      PushedMirror(m, c, t, p);
      var t' := Pushed(c, t, p);
      MoveStopMirror(m, t', TrailCandidate(t'), p.ts, p.close);
      MoveStopKeepsWindow(t', TrailCandidate(t'), p.ts, p.close);
    }
  }

  lemma TakePartialKeepsWindow(c: Rules, t: Trade, p: Price)
    ensures var u := TakePartial(c, t, p).trade; u.highs == t.highs && u.lows == t.lows && u.terms == t.terms
  {
  }

  lemma HardExitMirror(m: real, c: Rules, t: Trade, p: Price)
    ensures HardExitDue(c, MTrade(m, t), MPrice(m, p)) == MOutcome(m, HardExitDue(c, t, p))
    ensures var u := HardExitDue(c, t, p).trade; u.highs == t.highs && u.lows == t.lows
  {
    NoEventsMirror(m);
    ExitMirror(m, t, HardExit, p.ts, p.close);
    hide MakeEvent, MEvents;
  }

  lemma MPriceTs(m: real, p: Price)
    ensures MPrice(m, p).ts == p.ts && MPrice(m, p).barClosed == p.barClosed
  {
  }

  lemma UpdateMirror(m: real, c: Rules, t: Trade, p: Price, stop: real, partial: bool)
    requires |t.highs| == |t.lows|
    ensures Update(c, MTrade(m, t), MPrice(m, p), m - stop, partial) == MOutcome(m, Update(c, t, p, stop, partial))
    ensures var u := Update(c, t, p, stop, partial).trade; |u.highs| == |u.lows|
  {
    var fill := StopFill(t.terms.dir, stop, p.Open());
    assert StopFill(Flip(t.terms.dir), m - stop, MPrice(m, p).Open()) == m - fill;
    hide MakeEvent, MEvent, Touches, Level, TakePartial, TrailBar, HardExitDue, StopFill, MEvents, MSeq, MLog, MPrice;
    TouchMirror(m, t.terms.dir, stop, p, false);
    ExitMirror(m, t, StopHit, p.ts, fill);
    TakePartialMirror(m, c, t, p);
    TakePartialKeepsWindow(c, t, p);
    var a := TakePartial(c, t, p);
    var level := Level(t.terms, c.runnerTargetR);
    LevelMirror(m, t.terms, c.runnerTargetR);
    TouchMirror(m, t.terms.dir, level, p, true);
    ExitMirror(m, a.trade, RunnerExit, p.ts, level);
    MEventsAppend(m, a.events, ExitAll(a.trade, RunnerExit, p.ts, level).events);
    TrailMirror(m, c, a.trade, p);
    var b := TrailBar(c, a.trade, p);
    HardExitMirror(m, c, b.trade, p);
    var h := HardExitDue(c, b.trade, p);
    MEventsAppend(m, a.events, b.events);
    MEventsAppend(m, a.events + b.events, h.events);
    MPriceTs(m, p);
  }

  lemma {:induction false} AfterMirror(m: real, cs: seq<Change>, ts: int)
    ensures After(MLog(m, cs), ts) == MLog(m, After(cs, ts))
  {
    if cs != [] {
      assert MLog(m, cs)[1..] == MLog(m, cs[1..]);
      AfterMirror(m, cs[1..], ts);
      var rest := After(cs[1..], ts);
      assert MLog(m, [cs[0]] + rest) == [cs[0].(stop := m - cs[0].stop)] + MLog(m, rest);
    }
  }

  lemma {:induction false} EarliestMirror(m: real, cs: seq<Change>)
    requires cs != []
    ensures Earliest(MLog(m, cs)) == Earliest(cs).(stop := m - Earliest(cs).stop)
  {
    if |cs| > 1 {
      assert MLog(m, cs)[1..] == MLog(m, cs[1..]);
      EarliestMirror(m, cs[1..]);
    }
  }

  lemma JudgedMirror(m: real, t: Trade, p: Price)
    ensures var j := Judged(t, p, t.changes);
            Judged(MTrade(m, t), MPrice(m, p), MLog(m, t.changes)) == (m - j.0, j.1)
  {
    var later := After(t.changes, p.ts - BAR);
    AfterMirror(m, t.changes, p.ts - BAR);
    if later != [] {
      EarliestMirror(m, later);
    }
  }

  lemma ArriveMirror(m: real, t: Trade, p: Price)
    ensures MTrade(m, Arrive(t, p)) == Arrive(MTrade(m, t), MPrice(m, p))
    ensures Arrive(t, p).highs == t.highs && Arrive(t, p).lows == t.lows
  {
    hide ROf;
    RMirror(m, t.terms, p.high);
    RMirror(m, t.terms, p.low);
  }

  lemma LoggedMirror(m: real, t: Trade, u: Trade, ts: int)
    ensures Logged(MTrade(m, t), MTrade(m, u), ts) == MLog(m, Logged(t, u, ts))
  {
  }

  lemma StepMirror(m: real, c: Rules, t: Trade, p: Price)
    requires |t.highs| == |t.lows|
    ensures Step(c, MTrade(m, t), MPrice(m, p)) == MOutcome(m, Step(c, t, p))
    ensures var u := Step(c, t, p).trade; |u.highs| == |u.lows|
  {
    NoEventsMirror(m);
    hide Update, MEvents, Judged, Arrive, Logged, MLog, MSeq;
    if Applies(t, p) {
      JudgedMirror(m, t, p);
      var j := Judged(t, p, t.changes);
      ArriveMirror(m, t, p);
      UpdateMirror(m, c, Arrive(t, p), p, j.0, j.1);
      var u := Update(c, Arrive(t, p), p, j.0, j.1).trade;
      var log := Logged(t, u, p.ts);
      LoggedMirror(m, t, u, p.ts);
      AfterMirror(m, log, p.ts);
    }
  }

  lemma {:induction false} RunMirror(m: real, c: Rules, t: Trade, ps: seq<Price>)
    requires |t.highs| == |t.lows|
    ensures Run(c, MTrade(m, t), MPrices(m, ps)) == MOutcome(m, Run(c, t, ps))
    decreases |ps|
  {
    NoEventsMirror(m);
    hide Step, MTrade, MEvents;
    if ps != [] {
      StepMirror(m, c, t, ps[0]);
      assert MPrices(m, ps)[1..] == MPrices(m, ps[1..]);
      var a := Step(c, t, ps[0]);
      RunMirror(m, c, a.trade, ps[1..]);
      MEventsAppend(m, a.events, Run(c, a.trade, ps[1..]).events);
    }
  }

  /** Any run of bars and ticks, reflected: the reflected events, each with the same shares and the same R. */
  lemma LongAndShortMirror(m: real, c: Rules, k: Terms, entryBar: Option<int>, ps: seq<Price>)
    ensures Run(c, Opened(MTerms(m, k), entryBar), MPrices(m, ps)) == MOutcome(m, Run(c, Opened(k, entryBar), ps))
  {
    hide Step, Run;
    RunMirror(m, c, Opened(k, entryBar), ps);
    assert MTrade(m, Opened(k, entryBar)) == Opened(MTerms(m, k), entryBar);
  }
}
