/**
 The bar and tick cursors: replaying what a trade has seen is silent, no trade outlives the hard
 exit of its day, and a restored partial is the live one.
 */
module Cursors {
  import opened Common
  import opened Positions
  import opened Lifecycle

  /** A cursor that is at least as far as another. */
  predicate AtLeast(a: Option<int>, b: Option<int>) {
    b.Some? ==> a.Some? && a.value >= b.value
  }

  /** A price that applies moves its own cursor to its instant; nothing moves a cursor back. */
  lemma CursorsAdvance(c: Rules, t: Trade, p: Price)
    ensures var t' := Step(c, t, p).trade;
            && AtLeast(t'.lastBar, t.lastBar) && AtLeast(t'.lastTick, t.lastTick)
            && (t.closed ==> t' == t)
            && !Applies(t', p)
  {
    hide Update, Judged, ROf;
    if Applies(t, p) {
      var j := Judged(t, p, t.changes);
      UpdateFrame(c, Arrive(t, p), p, j.0, j.1);
    }
  }

  lemma {:induction false} SeenStaysSeen(c: Rules, t: Trade, x: Price, ps: seq<Price>)
    requires !Applies(t, x)
    ensures !Applies(Run(c, t, ps).trade, x)
    decreases |ps|
  {
    hide Step;
    if ps != [] {
      CursorsAdvance(c, t, ps[0]);
      SeenStaysSeen(c, Step(c, t, ps[0]).trade, x, ps[1..]);
    }
  }

  lemma {:induction false} RunSees(c: Rules, t: Trade, ps: seq<Price>, i: nat)
    requires i < |ps|
    ensures !Applies(Run(c, t, ps).trade, ps[i])
    decreases |ps|
  {
    hide Step;
    var a := Step(c, t, ps[0]).trade;
    if i == 0 {
      CursorsAdvance(c, t, ps[0]);
      SeenStaysSeen(c, a, ps[0], ps[1..]);
    } else {
      RunSees(c, a, ps[1..], i - 1);
    }
  }

  lemma EmptyRun(c: Rules, t: Trade)
    ensures Run(c, t, []) == Outcome(t, [])
  {
  }

  lemma RunCons(c: Rules, t: Trade, ps: seq<Price>)
    requires ps != []
    ensures Run(c, t, ps) == Outcome(Run(c, Step(c, t, ps[0]).trade, ps[1..]).trade,
                                     Step(c, t, ps[0]).events + Run(c, Step(c, t, ps[0]).trade, ps[1..]).events)
  {
    hide Step;
  }

  /** Replaying any already supplied prices, in any order and number, emits nothing and changes nothing. */
  lemma {:induction false} ReplayIsSilent(c: Rules, t: Trade, ps: seq<Price>, again: seq<Price>)
    requires forall x :: x in again ==> x in ps
    ensures Run(c, Run(c, t, ps).trade, again) == Outcome(Run(c, t, ps).trade, [])
    decreases |again|
  {
    hide Run, Judged, Update, Arrive, Logged;
    var seen := Run(c, t, ps).trade;
    if again == [] {
      assert Run(c, seen, again) == Outcome(seen, []) by { EmptyRun(c, seen); }
    } else {
      assert again[0] in ps;
      var i :| 0 <= i < |ps| && ps[i] == again[0];
      RunSees(c, t, ps, i);
      ReplayIsSilent(c, t, ps, again[1..]);
      RunCons(c, seen, again);
    }
  }

  // ---------------------------------------------------------------- hard exit

  predicate SameDay(day: int, ps: seq<Price>) {
    forall i :: 0 <= i < |ps| ==> ps[i].ts / DAY == day
  }

  /** While a trade is open, every price it has seen was before the hard exit. */
  ghost predicate BeforeHardExit(c: Rules, day: int, t: Trade) {
    && Sound(c, t)
    && (!t.closed && t.lastBar.Some? ==> t.lastBar.value / DAY == day && TimeOfDay(t.lastBar.value) < c.hardExit)
    && (!t.closed && t.lastTick.Some? ==> t.lastTick.value / DAY == day && TimeOfDay(t.lastTick.value) < c.hardExit)
  }

  lemma StepBeforeHardExit(c: Rules, day: int, t: Trade, p: Price)
    requires BeforeHardExit(c, day, t) && p.ts / DAY == day
    ensures BeforeHardExit(c, day, Step(c, t, p).trade)
    ensures TimeOfDay(p.ts) >= c.hardExit ==> Step(c, t, p).trade.closed
  {
    hide Update, Judged, ROf, Sound;
    StepIsSound(c, t, p);
    if Applies(t, p) {
      var j := Judged(t, p, t.changes);
      UpdateFrame(c, Arrive(t, p), p, j.0, j.1);
    }
  }

  lemma {:induction false} ClosedStays(c: Rules, t: Trade, ps: seq<Price>)
    requires t.closed
    ensures Run(c, t, ps) == Outcome(t, [])
    decreases |ps|
  {
    hide Update, Judged, Arrive, Logged;
    if ps != [] {
      ClosedStays(c, t, ps[1..]);
    }
  }

  lemma {:induction false} RunPastHardExit(c: Rules, day: int, t: Trade, ps: seq<Price>, i: nat)
    requires BeforeHardExit(c, day, t) && SameDay(day, ps)
    requires i < |ps| && TimeOfDay(ps[i].ts) >= c.hardExit
    ensures Run(c, t, ps).trade.closed
    decreases |ps|
  {
    hide Step, BeforeHardExit;
    var a := Step(c, t, ps[0]).trade;
    assert ps[0].ts / DAY == day;
    StepBeforeHardExit(c, day, t, ps[0]);
    if i == 0 {
      ClosedStays(c, a, ps[1..]);
    } else {
      RunPastHardExit(c, day, a, ps[1..], i - 1);
    }
  }

  /** A day's run that holds one price at or past the hard exit, bar or tick, leaves the trade closed. */
  lemma NothingOutlivesHardExit(c: Rules, k: Terms, entryBar: Option<int>, day: int, ps: seq<Price>, i: nat)
    requires k.qty >= 1 && SameDay(day, ps)
    requires i < |ps| && TimeOfDay(ps[i].ts) >= c.hardExit
    ensures Run(c, Opened(k, entryBar), ps).trade.closed
  {
    RunPastHardExit(c, day, Opened(k, entryBar), ps, i);
  }

  // ---------------------------------------------------------------- crash restoration of a partial

  /** Restoring a recorded partial gives the whole trade the partial branch gives, exactly when two shares or more were held. */
  lemma RestoreIsLivePartial(c: Rules, t: Trade, p: Price)
    requires Sound(c, t) && !t.closed && !t.partialDone
    requires Touches(t.terms.dir, Level(t.terms, c.partialAtR), p, true)
    ensures TakePartial(c, t, p).trade == RestorePartial(c, t) <==> t.terms.qty >= 2
    ensures t.terms.qty >= 2 ==> Sound(c, RestorePartial(c, t))
  {
    if t.terms.qty >= 2 {
      PartialSizeInside(c, t.terms.qty);
    }
  }

  lemma UnmovedBeforePartial(c: Rules, t: Trade, p: Price, stop: real, partial: bool)
    ensures var u := Update(c, t, p, stop, partial).trade;
            (t.partialDone ==> u.partialDone) && (!u.partialDone ==> u.stop == t.stop)
  {
    hide Touches, Level, StopFill, TrailCandidate, ROf, PartialSize, Tighter;
  }

  /** Until its partial a trade has recorded no change. */
  lemma {:induction false} NoChangeBeforePartial(c: Rules, t: Trade, ps: seq<Price>)
    requires t.partialDone || t.changes == []
    ensures var u := Run(c, t, ps).trade; u.partialDone || u.changes == []
    decreases |ps|
  {
    hide Update, Judged, ROf;
    if ps != [] {
      var j := Judged(t, ps[0], t.changes);
      UnmovedBeforePartial(c, Arrive(t, ps[0]), ps[0], j.0, j.1);
      NoChangeBeforePartial(c, Step(c, t, ps[0]).trade, ps[1..]);
    }
  }

  /** A price that takes the partial of several shares and does nothing else. */
  ghost predicate OnlyTakesPartial(c: Rules, t: Trade, p: Price) {
    && Applies(t, p) && !t.partialDone && t.remaining == t.terms.qty >= 2
    && !Touches(t.terms.dir, t.stop, p, false)
    && Touches(t.terms.dir, Level(t.terms, c.partialAtR), p, true)
    && !Touches(t.terms.dir, Level(t.terms, c.runnerTargetR), p, true)
    && TimeOfDay(p.ts) < c.hardExit
    && (p.barClosed ==> |Pushed(c, t, p).lows| != c.trailBars)
  }

  lemma TakePartialFrame(c: Rules, t: Trade, p: Price)
    ensures var u := TakePartial(c, t, p).trade; u.terms == t.terms && u.highs == t.highs && u.lows == t.lows
  {
  }

  /** The update of such a price: the partial, and the bar enters the window. */
  lemma OnlyPartialUpdates(c: Rules, t: Trade, p: Price)
    requires Sound(c, t) && OnlyTakesPartial(c, t, p)
    ensures var a, left := Arrive(t, p), TakePartial(c, Arrive(t, p), p).trade;
            && Update(c, a, p, t.stop, false).trade == (if p.barClosed then Pushed(c, left, p) else left)
            && left == RestorePartial(c, a) && !left.closed && left.partialDone
  {
    PartialSizeInside(c, t.terms.qty);
    assert RestorePartial(c, Arrive(t, p)) == TakePartial(c, Arrive(t, p), p).trade by {
      hide ROf, Tighter, Level, Touches, PartialSize;
      assert Touches(t.terms.dir, Level(t.terms, c.partialAtR), p, true);
    }
    assert !TakePartial(c, Arrive(t, p), p).trade.closed by {
      hide ROf, Tighter, Level, Touches, PartialSize;
    }
    hide ROf, Tighter, Level, Touches, PartialSize, LastN, TimeOfDay, TakePartial, RestorePartial, TrailCandidate;
    TakePartialFrame(c, Arrive(t, p), p);
  }

  lemma RestoreFrame(c: Rules, t: Trade, p: Price)
    ensures var a := Arrive(t, p);
            RestorePartial(c, a) == RestorePartial(c, t).(lastBar := a.lastBar, lastTick := a.lastTick, mfe := a.mfe, mae := a.mae)
  {
    hide ROf, Tighter, PartialSize;
  }

  lemma ArriveFrame(t: Trade, p: Price)
    ensures var a := Arrive(t, p);
            a == if p.barClosed then t.(lastBar := Some(p.ts), mfe := a.mfe, mae := a.mae)
                 else t.(lastTick := Some(p.ts), mfe := a.mfe, mae := a.mae)
  {
    hide ROf;
  }

  /** The step of a trade that has recorded nothing, when its update flips the partial flag. */
  lemma FirstChange(c: Rules, t: Trade, p: Price)
    requires Applies(t, p) && t.changes == [] && !t.partialDone
    requires var u := Update(c, Arrive(t, p), p, t.stop, false).trade; u.partialDone && !u.closed
    ensures var u := Update(c, Arrive(t, p), p, t.stop, false).trade;
            Step(c, t, p).trade == u.(changes := if p.barClosed then [] else [Change(p.ts, t.stop, false)])
  {
    hide Update, Arrive;
    assert Judged(t, p, []) == (t.stop, false);
    var log := [Change(p.ts, t.stop, false)];
    assert log[1..] == [] && [] + log == log && After(log, p.ts) == [];
  }

  lemma RestoreRest(c: Rules, t: Trade)
    ensures var r := RestorePartial(c, t);
            r == t.(partialDone := r.partialDone, remaining := r.remaining, stop := r.stop)
  {
  }

  /** What a live partial leaves that a restored one does not: the cursor, the excursions, the bar in the window, and, when
      a tick took it, the recorded state before it. */
  lemma LivePartialIs(c: Rules, t: Trade, p: Price)
    requires Sound(c, t) && OnlyTakesPartial(c, t, p) && t.changes == []
    ensures var live, arrived, restored := Step(c, t, p).trade, Arrive(t, p), RestorePartial(c, t);
            live == if p.barClosed
                    then Pushed(c, restored, p).(lastBar := Some(p.ts), mfe := arrived.mfe, mae := arrived.mae)
                    else restored.(lastTick := Some(p.ts), mfe := arrived.mfe, mae := arrived.mae,
                                   changes := [Change(p.ts, t.stop, false)])
  {
    hide Update, Touches, Level, ROf, LastN, TimeOfDay, RestorePartial, TakePartial, Step, Arrive, Applies;
    OnlyPartialUpdates(c, t, p);
    RestoreFrame(c, t, p);
    RestoreRest(c, t);
    RestoreRest(c, Arrive(t, p));
    ArriveFrame(t, p);
    FirstChange(c, t, p);
  }

  /** So after a tick took it, a later bar is judged alike by the live and the restored trade exactly when the bar began
      at or after the tick. */
  lemma RestoredJudgedAlikeIff(c: Rules, t: Trade, p: Price, q: Price)
    requires Sound(c, t) && OnlyTakesPartial(c, t, p) && t.changes == [] && !p.barClosed && q.barClosed
    ensures var live, restored := Step(c, t, p).trade, RestorePartial(c, t);
            Judged(live, q, live.changes) == Judged(restored, q, restored.changes) <==> q.ts - BAR >= p.ts
  {
    LivePartialIs(c, t, p);
    hide Step, Touches, Level, ROf, PartialSize, Tighter;
    var log := [Change(p.ts, t.stop, false)];
    assert log[1..] == [] && After(log, q.ts - BAR) == if p.ts > q.ts - BAR then log else [];
  }
}
