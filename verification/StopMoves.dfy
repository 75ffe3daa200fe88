/**
 The stop moves a trade announces: each strictly tighter than the last, the stop always the last one
 announced, and when one bar announces two of them.
 */
module StopMoves {
  import opened Common
  import opened Positions
  import opened Lifecycle
  import opened ExitRules

  predicate StrictlyTighter(d: Direction, a: real, b: real) {
    if d.Long? then a > b else a < b
  }

  /** The stop after the announced moves. */
  function StopAfter(stop: real, es: seq<Event>): real
    decreases |es|
  {
    if es == [] then stop
    else StopAfter(if es[0].kind.TrailUpdate? && es[0].newStop.Some? then es[0].newStop.value else stop, es[1..])
  }

  /** Every stop move names a strictly tighter stop than the one before it. */
  ghost predicate Ratchets(d: Direction, stop: real, es: seq<Event>)
    decreases |es|
  {
    es == [] ||
    if es[0].kind.TrailUpdate?
    then es[0].newStop.Some? && StrictlyTighter(d, es[0].newStop.value, stop) && Ratchets(d, es[0].newStop.value, es[1..])
    else Ratchets(d, stop, es[1..])
  }

  lemma {:induction false} RatchetsAppend(d: Direction, stop: real, a: seq<Event>, b: seq<Event>)
    ensures Ratchets(d, stop, a + b) <==> Ratchets(d, stop, a) && Ratchets(d, StopAfter(stop, a), b)
    ensures StopAfter(stop, a + b) == StopAfter(StopAfter(stop, a), b)
    decreases |a|
  {
    if a == [] {
      assert a + b == b;
    } else {
      assert (a + b)[1..] == a[1..] + b && (a + b)[0] == a[0];
      RatchetsAppend(d, if a[0].kind.TrailUpdate? && a[0].newStop.Some? then a[0].newStop.value else stop, a[1..], b);
    }
  }

  /** Later stop moves are strictly tighter than earlier ones and than the stop they started from. */
  lemma {:induction false} RatchetsOrder(d: Direction, stop: real, es: seq<Event>, j: nat)
    requires Ratchets(d, stop, es) && j < |es| && es[j].kind.TrailUpdate?
    ensures es[j].newStop.Some? && StrictlyTighter(d, es[j].newStop.value, stop)
    ensures forall i :: 0 <= i < j && es[i].kind.TrailUpdate? ==>
              es[i].newStop.Some? && StrictlyTighter(d, es[j].newStop.value, es[i].newStop.value)
    decreases |es|
  {
    var next := if es[0].kind.TrailUpdate? && es[0].newStop.Some? then es[0].newStop.value else stop;
    if j > 0 {
      RatchetsOrder(d, next, es[1..], j - 1);
      forall i | 0 <= i < j && es[i].kind.TrailUpdate?
        ensures es[i].newStop.Some? && StrictlyTighter(d, es[j].newStop.value, es[i].newStop.value)
      {
        if i > 0 {
          assert es[1..][i - 1] == es[i];
        }
      }
    }
  }

  // ---------------------------------------------------------------- one price

  /** A branch that announces exactly what it does to the stop. */
  ghost predicate Announces(t: Trade, o: Outcome) {
    o.trade.terms == t.terms && Ratchets(t.terms.dir, t.stop, o.events) && o.trade.stop == StopAfter(t.stop, o.events)
  }

  lemma AnnouncesThen(t: Trade, a: Outcome, b: Outcome)
    requires Announces(t, a) && Announces(a.trade, b)
    ensures Announces(t, Outcome(b.trade, a.events + b.events))
  {
    RatchetsAppend(t.terms.dir, t.stop, a.events, b.events);
  }

  lemma OneEvent(d: Direction, stop: real, e: Event)
    ensures Ratchets(d, stop, [e]) <==> e.kind.TrailUpdate? ==> e.newStop.Some? && StrictlyTighter(d, e.newStop.value, stop)
    ensures StopAfter(stop, [e]) == if e.kind.TrailUpdate? && e.newStop.Some? then e.newStop.value else stop
  {
    assert [e][1..] == [];
  }

  lemma MoveStopAnnounces(t: Trade, candidate: real, ts: int, price: real)
    ensures Announces(t, MoveStop(t, candidate, ts, price))
  {
    var o := MoveStop(t, candidate, ts, price);
    if o.events != [] {
      OneEvent(t.terms.dir, t.stop, o.events[0]);
      assert o.events == [o.events[0]];
    }
  }

  lemma TakePartialAnnounces(c: Rules, t: Trade, p: Price)
    ensures Announces(t, TakePartial(c, t, p))
  {
    hide Touches, Level, ROf, PartialSize, MoveStop;
    var level := Level(t.terms, c.partialAtR);
    if !t.partialDone && Touches(t.terms.dir, level, p, true) {
      if t.remaining == 1 {
        OneEvent(t.terms.dir, t.stop, TakePartial(c, t, p).events[0]);
      } else {
        var q := PartialSize(c, t.terms.qty);
        var t' := t.(partialDone := true, remaining := t.remaining - q);
        var e := MakeEvent(t, PartialExit, p.ts, level, q, None);
        OneEvent(t.terms.dir, t.stop, e);
        if c.breakevenAfterPartial {
          MoveStopAnnounces(t', t.terms.entry, p.ts, level);
          AnnouncesThen(t, Outcome(t', [e]), MoveStop(t', t.terms.entry, p.ts, level));
        }
      }
    }
  }

  lemma TrailAnnounces(c: Rules, t: Trade, p: Price)
    ensures Announces(t, TrailBar(c, t, p))
  {
    hide MoveStop, TrailCandidate;
    if p.barClosed {
      var t' := Pushed(c, t, p);
      MoveStopAnnounces(t', TrailCandidate(t'), p.ts, p.close);
    }
  }

  lemma ExitAnnounces(t: Trade, kind: Kind, ts: int, price: real)
    requires !kind.TrailUpdate?
    ensures Announces(t, ExitAll(t, kind, ts, price))
  {
    OneEvent(t.terms.dir, t.stop, ExitAll(t, kind, ts, price).events[0]);
  }

  lemma HardExitAnnounces(c: Rules, t: Trade, p: Price)
    ensures Announces(t, HardExitDue(c, t, p))
  {
    ExitAnnounces(t, HardExit, p.ts, p.close);
  }

  lemma UpdateAnnounces(c: Rules, t: Trade, p: Price, stop: real, partial: bool)
    ensures Announces(t, Update(c, t, p, stop, partial))
  {
    hide Announces, TakePartial, TrailBar, HardExitDue, ExitAll, Touches, Level, StopFill;
    ExitAnnounces(t, StopHit, p.ts, StopFill(t.terms.dir, stop, p.Open()));
    TakePartialAnnounces(c, t, p);
    var a := TakePartial(c, t, p);
    ExitAnnounces(a.trade, RunnerExit, p.ts, Level(t.terms, c.runnerTargetR));
    AnnouncesThen(t, a, ExitAll(a.trade, RunnerExit, p.ts, Level(t.terms, c.runnerTargetR)));
    TrailAnnounces(c, a.trade, p);
    var b := TrailBar(c, a.trade, p);
    AnnouncesThen(t, a, b);
    HardExitAnnounces(c, b.trade, p);
    AnnouncesThen(t, Outcome(b.trade, a.events + b.events), HardExitDue(c, b.trade, p));
  }

  lemma StepAnnounces(c: Rules, t: Trade, p: Price)
    ensures Ratchets(t.terms.dir, t.stop, Step(c, t, p).events)
    ensures Step(c, t, p).trade.stop == StopAfter(t.stop, Step(c, t, p).events)
  {
    hide Update, Judged, ROf;
    if Applies(t, p) {
      var j := Judged(t, p, t.changes);
      UpdateAnnounces(c, Arrive(t, p), p, j.0, j.1);
    }
  }

  lemma {:induction false} RunAnnounces(c: Rules, t: Trade, ps: seq<Price>)
    ensures Ratchets(t.terms.dir, t.stop, Run(c, t, ps).events)
    ensures Run(c, t, ps).trade.stop == StopAfter(t.stop, Run(c, t, ps).events)
    decreases |ps|
  {
    hide Step;
    if ps != [] {
      var a := Step(c, t, ps[0]);
      StepAnnounces(c, t, ps[0]);
      StepNamesTrade(c, t, ps[0]);
      RunAnnounces(c, a.trade, ps[1..]);
      RatchetsAppend(t.terms.dir, t.stop, a.events, Run(c, a.trade, ps[1..]).events);
    }
  }

  /** On every run the stop is the last one announced, and of any two announced the later is strictly tighter: no two stop
      moves of a trade are the same event. */
  lemma StopMovesClimb(c: Rules, k: Terms, entryBar: Option<int>, ps: seq<Price>, i: nat, j: nat)
    requires i < j < |Run(c, Opened(k, entryBar), ps).events|
    requires var es := Run(c, Opened(k, entryBar), ps).events; es[i].kind.TrailUpdate? && es[j].kind.TrailUpdate?
    ensures var o := Run(c, Opened(k, entryBar), ps);
            && o.trade.stop == StopAfter(k.initialStop, o.events)
            && o.events[i].newStop.Some? && o.events[j].newStop.Some?
            && StrictlyTighter(k.dir, o.events[j].newStop.value, o.events[i].newStop.value)
  {
    hide Run, StrictlyTighter;
    RunAnnounces(c, Opened(k, entryBar), ps);
    RatchetsOrder(k.dir, k.initialStop, Run(c, Opened(k, entryBar), ps).events, j);
  }

  // ---------------------------------------------------------------- two stop moves of one bar

  function Moves(es: seq<Event>): nat {
    if es == [] then 0 else (if es[0].kind.TrailUpdate? then 1 else 0) + Moves(es[1..])
  }

  lemma {:induction false} MovesAppend(a: seq<Event>, b: seq<Event>)
    ensures Moves(a + b) == Moves(a) + Moves(b)
  {
    if a == [] {
      assert a + b == b;
    } else {
      assert (a + b)[1..] == a[1..] + b;
      MovesAppend(a[1..], b);
    }
  }

  ghost predicate MovesToEntry(c: Rules, t: Trade, p: Price) {
    && ReachesPartial(c, t, p) && t.remaining != 1
    && c.breakevenAfterPartial && StrictlyTighter(t.terms.dir, t.terms.entry, t.stop)
  }

  /** The bar takes a partial of several shares with a breakeven move, does not reach the runner target, and completes a
      trail window whose extreme is beyond the entry. */
  ghost predicate MovesTwice(c: Rules, t: Trade, p: Price) {
    && !Stopped(t, p) && MovesToEntry(c, t, p)
    && !Touches(t.terms.dir, Level(t.terms, c.runnerTargetR), p, true)
    && p.barClosed && |Pushed(c, t, p).lows| == c.trailBars
    && StrictlyTighter(t.terms.dir, TrailCandidate(Pushed(c, t, p)), t.terms.entry)
  }

  lemma OneMove(es: seq<Event>)
    requires |es| <= 1
    ensures Moves(es) == if es != [] && es[0].kind.TrailUpdate? then 1 else 0
  {
    if es != [] {
      assert es[1..] == [];
    }
  }

  lemma MoveStopMoves(t: Trade, candidate: real, ts: int, price: real)
    ensures Moves(MoveStop(t, candidate, ts, price).events) == if StrictlyTighter(t.terms.dir, candidate, t.stop) then 1 else 0
    ensures MoveStop(t, candidate, ts, price).trade.stop
         == if StrictlyTighter(t.terms.dir, candidate, t.stop) then candidate else t.stop
  {
    OneMove(MoveStop(t, candidate, ts, price).events);
  }

  lemma MoveStopFrame(t: Trade, candidate: real, ts: int, price: real)
    ensures var u := MoveStop(t, candidate, ts, price).trade; u == t.(stop := u.stop)
  {
  }

  lemma TakePartialMoves(c: Rules, t: Trade, p: Price)
    requires !t.closed
    ensures Moves(TakePartial(c, t, p).events) == if MovesToEntry(c, t, p) then 1 else 0
    ensures MovesToEntry(c, t, p) ==>
              var u := TakePartial(c, t, p).trade;
              u.stop == t.terms.entry && u.partialDone && !u.closed && u.terms == t.terms && u.lows == t.lows && u.highs == t.highs
  {
    hide Touches, Level, ROf, PartialSize, MoveStop, StrictlyTighter;
    var o := TakePartial(c, t, p);
    if ReachesPartial(c, t, p) && t.remaining != 1 && c.breakevenAfterPartial {
      var q := PartialSize(c, t.terms.qty);
      var t' := t.(partialDone := true, remaining := t.remaining - q);
      MoveStopMoves(t', t.terms.entry, p.ts, Level(t.terms, c.partialAtR));
      MoveStopFrame(t', t.terms.entry, p.ts, Level(t.terms, c.partialAtR));
      OneMove([o.events[0]]);
      MovesAppend([o.events[0]], MoveStop(t', t.terms.entry, p.ts, Level(t.terms, c.partialAtR)).events);
    } else {
      OneMove(o.events);
    }
  }

  lemma TrailMoves(c: Rules, t: Trade, p: Price)
    ensures Moves(TrailBar(c, t, p).events)
         == if p.barClosed && t.partialDone && |Pushed(c, t, p).lows| == c.trailBars
               && StrictlyTighter(t.terms.dir, TrailCandidate(Pushed(c, t, p)), t.stop) then 1 else 0
  {
    hide MoveStop, StrictlyTighter, TrailCandidate;
    if p.barClosed {
      MoveStopMoves(Pushed(c, t, p), TrailCandidate(Pushed(c, t, p)), p.ts, p.close);
    }
  }

  lemma SameWindow(c: Rules, u: Trade, t: Trade, p: Price)
    requires u.terms == t.terms && u.lows == t.lows && u.highs == t.highs
    ensures TrailCandidate(Pushed(c, u, p)) == TrailCandidate(Pushed(c, t, p)) && Pushed(c, u, p).lows == Pushed(c, t, p).lows
  {
  }

  lemma EntryMoveReaches(c: Rules, t: Trade, p: Price)
    requires MovesToEntry(c, t, p)
    ensures Touches(t.terms.dir, Level(t.terms, c.partialAtR), p, true) && !t.partialDone
  {
  }

  lemma UpdateMoves(c: Rules, t: Trade, p: Price, stop: real, partial: bool)
    requires !t.closed
    ensures Moves(Update(c, t, p, stop, partial).events) == 2 <==>
              && !Touches(t.terms.dir, stop, p, false) && MovesToEntry(c, t, p)
              && !Touches(t.terms.dir, Level(t.terms, c.runnerTargetR), p, true)
              && p.barClosed && |Pushed(c, t, p).lows| == c.trailBars
              && StrictlyTighter(t.terms.dir, TrailCandidate(Pushed(c, t, p)), t.terms.entry)
    ensures Moves(Update(c, t, p, stop, partial).events) <= 2
  {
    hide Moves, MovesToEntry, Touches, Level, StopFill, TakePartial, TrailBar, StrictlyTighter, ROf, TrailCandidate, LastN;
    var a := TakePartial(c, t, p);
    var x := ExitAll(a.trade, RunnerExit, p.ts, Level(t.terms, c.runnerTargetR));
    TakePartialMoves(c, t, p);
    TrailMoves(c, a.trade, p);
    var b := TrailBar(c, a.trade, p);
    var h := HardExitDue(c, b.trade, p);
    OneMove(x.events);
    OneMove(h.events);
    OneMove(ExitAll(t, StopHit, p.ts, StopFill(t.terms.dir, stop, p.Open())).events);
    MovesAppend(a.events, x.events);
    MovesAppend(a.events, b.events);
    MovesAppend(a.events + b.events, h.events);
    if MovesToEntry(c, t, p) {
      assert TrailCandidate(Pushed(c, a.trade, p)) == TrailCandidate(Pushed(c, t, p)) by { SameWindow(c, a.trade, t, p); }
      assert Touches(t.terms.dir, Level(t.terms, c.partialAtR), p, true) && !t.partialDone by { EntryMoveReaches(c, t, p); }
    }
  }

  lemma ArriveAlike(c: Rules, t: Trade, p: Price)
    ensures MovesToEntry(c, Arrive(t, p), p) == MovesToEntry(c, t, p)
    ensures Pushed(c, Arrive(t, p), p).lows == Pushed(c, t, p).lows
    ensures TrailCandidate(Pushed(c, Arrive(t, p), p)) == TrailCandidate(Pushed(c, t, p))
  {
    hide ROf, Touches, Level;
    SameWindow(c, Arrive(t, p), t, p);
  }

  /** One price announces at most two stop moves, and two exactly under that condition. */
  lemma TwoStopMovesIff(c: Rules, t: Trade, p: Price)
    requires Applies(t, p)
    ensures Moves(Step(c, t, p).events) <= 2
    ensures Moves(Step(c, t, p).events) == 2 <==> MovesTwice(c, t, p)
  {
    hide Moves, MovesToEntry, Touches, Level, Judged, Update, StrictlyTighter, ROf, TrailCandidate, Pushed;
    var j := Judged(t, p, t.changes);
    UpdateMoves(c, Arrive(t, p), p, j.0, j.1);
    ArriveAlike(c, t, p);
  }

  ghost predicate AllAt(es: seq<Event>, ts: int) {
    forall e :: e in es ==> e.ts == ts
  }

  lemma MoveStopAt(t: Trade, candidate: real, ts: int, price: real)
    ensures AllAt(MoveStop(t, candidate, ts, price).events, ts)
  {
  }

  lemma TakePartialAt(c: Rules, t: Trade, p: Price)
    ensures AllAt(TakePartial(c, t, p).events, p.ts)
  {
    hide Touches, Level, ROf, PartialSize, MoveStop;
    var q := PartialSize(c, t.terms.qty);
    MoveStopAt(t.(partialDone := true, remaining := t.remaining - q), t.terms.entry, p.ts, Level(t.terms, c.partialAtR));
  }

  lemma TrailAt(c: Rules, t: Trade, p: Price)
    ensures AllAt(TrailBar(c, t, p).events, p.ts)
  {
    hide MoveStop, TrailCandidate;
    MoveStopAt(Pushed(c, t, p), TrailCandidate(Pushed(c, t, p)), p.ts, p.close);
  }

  lemma UpdateAt(c: Rules, t: Trade, p: Price, stop: real, partial: bool)
    ensures AllAt(Update(c, t, p, stop, partial).events, p.ts)
  {
    hide Touches, Level, TakePartial, TrailBar, StopFill;
    TakePartialAt(c, t, p);
    TrailAt(c, TakePartial(c, t, p).trade, p);
  }

  /** All events of a price carry its instant, so two stop moves it announces share one dedup key. */
  lemma StepEventsAtOnce(c: Rules, t: Trade, p: Price)
    ensures forall e :: e in Step(c, t, p).events ==> e.ts == p.ts
  {
    hide Update, Judged, ROf;
    var j := Judged(t, p, t.changes);
    UpdateAt(c, Arrive(t, p), p, j.0, j.1);
  }

  const TWICE_RULES: Rules := Rules(0.5, 1, DAY, 1.0, 3.0, true)
  const TWICE_TERMS: Terms := Terms(1, "SBIN", "orb", Long, 100.0, 90.0, 110.0, 130.0, 10, 100.0)
  const TWICE_BAR := Price(BAR, 115.0, 105.0, 112.0, true, Some(106.0))

  lemma TwiceLevels()
    ensures Level(TWICE_TERMS, 1.0) == 110.0 && Level(TWICE_TERMS, 3.0) == 130.0
  {
  }

  lemma TwiceWindow()
    ensures var u := Pushed(TWICE_RULES, Opened(TWICE_TERMS, None), TWICE_BAR);
            u.lows == [105.0] && u.terms == TWICE_TERMS && TrailCandidate(u) == 105.0
  {
  }

  /** Such a bar: it takes the partial at 110, moves the stop to the entry at 100, and with a trail of one bar to its own
      low at 105. */
  lemma OneBarMovesTwice()
    ensures MovesTwice(TWICE_RULES, Opened(TWICE_TERMS, None), TWICE_BAR)
    ensures Moves(Step(TWICE_RULES, Opened(TWICE_TERMS, None), TWICE_BAR).events) == 2
  {
    var t := Opened(TWICE_TERMS, None);
    TwiceLevels();
    TwiceWindow();
    hide Step, Moves, Level, Pushed, TrailCandidate, ROf;
    assert MovesTwice(TWICE_RULES, t, TWICE_BAR);
    hide MovesTwice;
    TwoStopMovesIff(TWICE_RULES, t, TWICE_BAR);
  }
}
