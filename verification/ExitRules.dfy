/**
 When each exit fires, and what the trail follows: the rules of tradalgo/engine/positions.py read off the
 events of a step rather than off its branches.
 */
module ExitRules {
  import opened Common
  import opened Positions
  import opened Lifecycle

  ghost predicate Emits(es: seq<Event>, kind: Kind) {
    exists e :: e in es && e.kind == kind
  }

  /** The price touches the stop it is judged against. */
  ghost predicate Stopped(t: Trade, p: Price) {
    Touches(t.terms.dir, Judged(t, p, t.changes).0, p, false)
  }

  ghost predicate ReachesPartial(c: Rules, t: Trade, p: Price) {
    !t.partialDone && Touches(t.terms.dir, Level(t.terms, c.partialAtR), p, true)
  }

  /** The partial was there when the price began, or is taken by it. */
  ghost predicate ReachesRunner(c: Rules, t: Trade, p: Price) {
    && (ReachesPartial(c, t, p) || (t.partialDone && Judged(t, p, t.changes).1))
    && Touches(t.terms.dir, Level(t.terms, c.runnerTargetR), p, true)
  }

  ghost predicate OnlyTrails(es: seq<Event>) {
    forall e :: e in es ==> e.kind.TrailUpdate?
  }

  /** Moving the stop emits stop moves only and closes nothing. */
  lemma TrailOnly(c: Rules, t: Trade, p: Price)
    ensures forall u: Trade, x: real, r: real :: OnlyTrails(MoveStop(u, x, p.ts, r).events)
    ensures forall u: Trade, x: real, r: real :: var m := MoveStop(u, x, p.ts, r).trade;
              m.closed == u.closed && m.partialDone == u.partialDone && m.remaining == u.remaining && m.terms == u.terms
    ensures forall u: Trade :: OnlyTrails(TrailBar(c, u, p).events)
    ensures forall u: Trade :: var m := TrailBar(c, u, p).trade;
              m.closed == u.closed && m.partialDone == u.partialDone && m.remaining == u.remaining && m.terms == u.terms
  {
    hide Tighter;
  }

  lemma NoOtherStops(c: Rules, t: Trade, p: Price)
    requires Applies(t, p) && !Stopped(t, p)
    ensures !Emits(Step(c, t, p).events, StopHit)
  {
    hide Touches, Level, ROf, Judged, StopFill, PartialSize, MoveStop, TrailCandidate, Pushed;
    TrailOnly(c, t, p);
    hide TrailBar;
  }

  /** A price that touches both the stop and a target is a stop, filled at the worse of stop and open, and nothing else. */
  lemma StopComesFirst(c: Rules, t: Trade, p: Price)
    requires Sound(c, t) && Applies(t, p)
    ensures Emits(Step(c, t, p).events, StopHit) <==> Stopped(t, p)
    ensures Stopped(t, p) ==>
              && |Step(c, t, p).events| == 1
              && var e := Step(c, t, p).events[0];
              && e.qty == t.remaining && e.price == StopFill(t.terms.dir, Judged(t, p, t.changes).0, p.Open())
              && Step(c, t, p).trade.closed
  {
    if Stopped(t, p) {
      hide Touches, ROf, Judged, StopFill, Sound, TakePartial, TrailBar, HardExitDue;
      assert Step(c, t, p).events[0] in Step(c, t, p).events;
    } else {
      NoOtherStops(c, t, p);
    }
  }

  /** The partial fires when it is reached and nothing stopped the price. */
  lemma PartialIff(c: Rules, t: Trade, p: Price)
    requires Sound(c, t) && Applies(t, p)
    ensures Emits(Step(c, t, p).events, PartialExit) <==> !Stopped(t, p) && ReachesPartial(c, t, p)
  {
    hide Touches, Level, ROf, Judged, StopFill, PartialSize, MoveStop, TrailCandidate, Sound, Pushed;
    TrailOnly(c, t, p);
    var es := Step(c, t, p).events;
    hide TrailBar;
    if !Stopped(t, p) && ReachesPartial(c, t, p) {
      assert es[0].kind.PartialExit? && es[0] in es;
    }
  }

  lemma SoundFacts(c: Rules, t: Trade)
    requires Sound(c, t) && !t.closed
    ensures t.terms.qty >= 1 && (!t.partialDone ==> t.remaining == t.terms.qty)
  {
  }

  /** What taking the partial does. */
  lemma TakenIs(c: Rules, t: Trade, p: Price)
    requires !t.closed
    ensures var a := TakePartial(c, t, p);
            var reached := !t.partialDone && Touches(t.terms.dir, Level(t.terms, c.partialAtR), p, true);
            && a.trade.partialDone == (t.partialDone || reached)
            && (a.trade.closed <==> reached && t.remaining == 1)
            && a.trade.terms == t.terms
            && forall e :: e in a.events ==> e.kind.PartialExit? || e.kind.TrailUpdate?
  {
    hide Touches, Level, ROf, PartialSize, Tighter;
  }

  /** What is left sells at the runner target when the price reaches it after a partial, unless the partial was all. */
  lemma RunnerIff(c: Rules, t: Trade, p: Price)
    requires Sound(c, t) && Applies(t, p)
    ensures Emits(Step(c, t, p).events, RunnerExit) <==>
              !Stopped(t, p) && ReachesRunner(c, t, p) && !(ReachesPartial(c, t, p) && t.terms.qty == 1)
    ensures forall e :: e in Step(c, t, p).events && e.kind.RunnerExit? ==>
              e.price == Level(t.terms, c.runnerTargetR) && Step(c, t, p).trade.closed
  {
    SoundFacts(c, t);
    TakenIs(c, Arrive(t, p), p);
    hide Touches, Level, ROf, Judged, StopFill, TakePartial, MoveStop, TrailCandidate, Sound, Pushed;
    TrailOnly(c, t, p);
    hide TrailBar;
    var es := Step(c, t, p).events;
    if !Stopped(t, p) && ReachesRunner(c, t, p) && !(ReachesPartial(c, t, p) && t.terms.qty == 1) {
      assert es[|es| - 1].kind.RunnerExit? && es[|es| - 1] in es;
    }
  }

  /** The hard exit fires at the close, when it is time and nothing else closed the trade. */
  lemma HardExitIff(c: Rules, t: Trade, p: Price)
    requires Sound(c, t) && Applies(t, p)
    ensures Emits(Step(c, t, p).events, HardExit) <==>
              && TimeOfDay(p.ts) >= c.hardExit && !Stopped(t, p) && !ReachesRunner(c, t, p)
              && !(ReachesPartial(c, t, p) && t.terms.qty == 1)
    ensures forall e :: e in Step(c, t, p).events && e.kind.HardExit? ==> e.price == p.close && Step(c, t, p).trade.closed
  {
    SoundFacts(c, t);
    TakenIs(c, Arrive(t, p), p);
    hide Touches, Level, ROf, Judged, StopFill, TakePartial, MoveStop, TrailCandidate, Sound, TimeOfDay, Pushed;
    TrailOnly(c, t, p);
    hide TrailBar;
    var es := Step(c, t, p).events;
    if TimeOfDay(p.ts) >= c.hardExit && !Stopped(t, p) && !ReachesRunner(c, t, p)
       && !(ReachesPartial(c, t, p) && t.terms.qty == 1) {
      assert es[|es| - 1].kind.HardExit? && es[|es| - 1] in es;
    }
  }

  // ---------------------------------------------------------------- over a run

  /** An exit of this kind is due at the price. */
  ghost predicate Due(c: Rules, t: Trade, p: Price, kind: Kind) {
    && Applies(t, p)
    && match kind
       case StopHit => Stopped(t, p)
       case PartialExit => !Stopped(t, p) && ReachesPartial(c, t, p)
       case RunnerExit => !Stopped(t, p) && ReachesRunner(c, t, p) && !(ReachesPartial(c, t, p) && t.terms.qty == 1)
       case HardExit => && TimeOfDay(p.ts) >= c.hardExit && !Stopped(t, p) && !ReachesRunner(c, t, p)
                        && !(ReachesPartial(c, t, p) && t.terms.qty == 1)
       case TrailUpdate => false
  }

  lemma StepEmitsIff(c: Rules, t: Trade, p: Price, kind: Kind)
    requires Sound(c, t) && !kind.TrailUpdate?
    ensures Emits(Step(c, t, p).events, kind) <==> Due(c, t, p, kind)
  {
    if Applies(t, p) {
      hide Step, Stopped, ReachesPartial, ReachesRunner, Applies;
      StopComesFirst(c, t, p);
      PartialIff(c, t, p);
      RunnerIff(c, t, p);
      HardExitIff(c, t, p);
    }
  }

  lemma EmitsAppend(a: seq<Event>, b: seq<Event>, kind: Kind)
    ensures Emits(a + b, kind) <==> Emits(a, kind) || Emits(b, kind)
  {
  }

  /** Over a whole run, bars and ticks: an exit of a kind is emitted exactly when at some price it was due. */
  lemma {:induction false} RunEmitsIff(c: Rules, k: Terms, entryBar: Option<int>, ps: seq<Price>, kind: Kind)
    requires k.qty >= 1 && !kind.TrailUpdate?
    ensures Emits(Run(c, Opened(k, entryBar), ps).events, kind)
       <==> exists n :: 0 <= n < |ps| && Due(c, Run(c, Opened(k, entryBar), ps[..n]).trade, ps[n], kind)
    decreases |ps|
  {
    hide Step, Due, Sound;
    if ps != [] {
      var m := |ps| - 1;
      var start, front, p := Opened(k, entryBar), ps[..m], ps[m];
      OpenedSound(c, k, entryBar);
      RunIsSound(c, start, front);
      RunEmitsIff(c, k, entryBar, front, kind);
      assert ps == front + [p];
      RunAppend(c, start, front, [p]);
      var t := Run(c, start, front).trade;
      RunSingle(c, t, p);
      StepEmitsIff(c, t, p, kind);
      EmitsAppend(Run(c, start, front).events, Step(c, t, p).events, kind);
      hide Run, Emits;
      assert forall n :: 0 <= n < m ==> front[..n] == ps[..n] && front[n] == ps[n];
      assert ps[..m] == front;
    } else {
      assert !Emits([], kind);
    }
  }

  // ---------------------------------------------------------------- the trail window

  ghost predicate Increasing(ps: seq<Price>) {
    forall i, j :: 0 <= i < j < |ps| ==> ps[i].ts < ps[j].ts
  }

  function BarLows(ps: seq<Price>): seq<real>
    decreases |ps|
  {
    if ps == [] then [] else BarLows(ps[..|ps| - 1]) + if ps[|ps| - 1].barClosed then [ps[|ps| - 1].low] else []
  }

  function BarHighs(ps: seq<Price>): seq<real>
    decreases |ps|
  {
    if ps == [] then [] else BarHighs(ps[..|ps| - 1]) + if ps[|ps| - 1].barClosed then [ps[|ps| - 1].high] else []
  }

  lemma LastOfLast<T>(s: seq<T>, x: T, n: nat)
    ensures LastN(LastN(s, n) + [x], n) == LastN(s + [x], n)
  {
  }

  /** Cursors behind a price: it is new to the trade unless the trade is closed. */
  ghost predicate Behind(t: Trade, ts: int) {
    (t.lastBar.Some? ==> t.lastBar.value < ts) && (t.lastTick.Some? ==> t.lastTick.value < ts)
  }

  lemma StepWindow(c: Rules, t: Trade, p: Price)
    requires !t.closed && Behind(t, p.ts)
    ensures var t' := Step(c, t, p).trade;
            && (forall ts :: ts > p.ts ==> Behind(t', ts))
            && (!t'.closed ==> t'.lows == (if p.barClosed then LastN(t.lows + [p.low], c.trailBars) else t.lows)
                               && t'.highs == (if p.barClosed then LastN(t.highs + [p.high], c.trailBars) else t.highs))
            && (!t'.closed && p.barClosed && t'.partialDone && |t'.lows| == c.trailBars ==>
                  |t'.highs| > 0 && |t'.lows| > 0 && NotLooser(t.terms.dir, t'.stop, TrailCandidate(t')))
            && t'.terms == t.terms
  {
    hide Touches, Level, ROf, Judged, StopFill, PartialSize, MinOf, MaxOf;
    var j := Judged(t, p, t.changes);
    UpdateFrame(c, Arrive(t, p), p, j.0, j.1);
  }

  lemma OneMoreBar(ps: seq<Price>, n: nat)
    requires ps != []
    ensures var front, p := ps[..|ps| - 1], ps[|ps| - 1];
            var lows, highs := LastN(BarLows(front), n), LastN(BarHighs(front), n);
            && LastN(BarLows(ps), n) == (if p.barClosed then LastN(lows + [p.low], n) else lows)
            && LastN(BarHighs(ps), n) == (if p.barClosed then LastN(highs + [p.high], n) else highs)
  {
    var front, p := ps[..|ps| - 1], ps[|ps| - 1];
    LastOfLast(BarLows(front), p.low, n);
    LastOfLast(BarHighs(front), p.high, n);
    hide LastN;
    assert BarLows(front) + [] == BarLows(front) && BarHighs(front) + [] == BarHighs(front);
  }

  lemma NoWindow(n: nat)
    ensures LastN<real>([], n) == []
  {
  }

  lemma ClosedStep(c: Rules, t: Trade, p: Price)
    requires t.closed
    ensures Step(c, t, p).trade == t
  {
  }

  /** Whatever ticks come between, an open trade's window holds the lows and highs of its last closed bars. */
  lemma {:induction false} WindowIsRecentBars(c: Rules, k: Terms, entryBar: Option<int>, ps: seq<Price>)
    requires Increasing(ps)
    ensures var t := Run(c, Opened(k, entryBar), ps).trade;
            && (!t.closed ==> t.lows == LastN(BarLows(ps), c.trailBars) && t.highs == LastN(BarHighs(ps), c.trailBars))
            && (t.closed || ps == [] || forall ts :: ts > ps[|ps| - 1].ts ==> Behind(t, ts))
            && (ps == [] ==> t == Opened(k, entryBar))
    decreases |ps|
  {
    hide Step, LastN;
    if ps == [] {
      NoWindow(c.trailBars);
    } else {
      var n := |ps| - 1;
      var front, p := ps[..n], ps[n];
      WindowIsRecentBars(c, k, entryBar, front);
      assert ps == front + [p];
      RunAppend(c, Opened(k, entryBar), front, [p]);
      var t := Run(c, Opened(k, entryBar), front).trade;
      RunSingle(c, t, p);
      if t.closed {
        ClosedStep(c, t, p);
      } else {
        assert Behind(t, p.ts) by {
          if front != [] {
            assert front[n - 1].ts < p.ts;
          }
        }
        hide Behind, Increasing;
        StepWindow(c, t, p);
        OneMoreBar(ps, c.trailBars);
      }
    }
  }

  lemma {:induction false} RunNames(c: Rules, t: Trade, ps: seq<Price>)
    ensures Run(c, t, ps).trade.terms == t.terms
    decreases |ps|
  {
    hide Step;
    if ps != [] {
      StepNamesTrade(c, t, ps[0]);
      RunNames(c, Step(c, t, ps[0]).trade, ps[1..]);
    }
  }

  lemma {:induction false} TermsStay(c: Rules, k: Terms, entryBar: Option<int>, ps: seq<Price>)
    ensures Run(c, Opened(k, entryBar), ps).trade.terms == k
  {
    RunNames(c, Opened(k, entryBar), ps);
  }

  /** The stop is at least as tight as the extreme of the window. */
  ghost predicate Trails(d: Direction, stop: real, lows: seq<real>, highs: seq<real>) {
    |lows| > 0 && |highs| > 0 && NotLooser(d, stop, if d.Long? then MinOf(lows) else MaxOf(highs))
  }

  lemma CandidateTrails(t: Trade)
    requires |t.lows| > 0 && |t.highs| > 0
    ensures NotLooser(t.terms.dir, t.stop, TrailCandidate(t)) <==> Trails(t.terms.dir, t.stop, t.lows, t.highs)
  {
    hide MinOf, MaxOf, NotLooser;
  }

  lemma LastNSize(s: seq<real>, n: nat)
    requires |s| >= n
    ensures |LastN(s, n)| == n
  {
  }

  /** After a closed bar a full window bounds the stop of a trade past its partial. */
  lemma TrailAfterBar(c: Rules, k: Terms, entryBar: Option<int>, front: seq<Price>, p: Price)
    requires Increasing(front + [p]) && p.barClosed
    ensures var u := Run(c, Opened(k, entryBar), front + [p]).trade;
            !u.closed && u.partialDone && |u.lows| == c.trailBars ==> Trails(k.dir, u.stop, u.lows, u.highs)
  {
    hide Step, Judged, LastN, BarLows, BarHighs, TrailCandidate, NotLooser, Trails;
    var ps, n := front + [p], |front|;
    assert ps[..n] == front && ps[n] == p;
    assert Increasing(front) by {
      assert forall i :: 0 <= i < n ==> front[i] == ps[i];
    }
    WindowIsRecentBars(c, k, entryBar, front);
    RunAppend(c, Opened(k, entryBar), front, [p]);
    var t := Run(c, Opened(k, entryBar), front).trade;
    RunSingle(c, t, p);
    TermsStay(c, k, entryBar, front);
    if t.closed {
      ClosedStep(c, t, p);
    } else {
      assert Behind(t, p.ts) by {
        if front != [] {
          assert ps[n - 1].ts < ps[n].ts;
        }
      }
      StepWindow(c, t, p);
      var u := Step(c, t, p).trade;
      if !u.closed && u.partialDone && |u.lows| == c.trailBars {
        CandidateTrails(u);
      }
    }
  }

  /** The trail: after a closed bar an open trade past its partial has a stop at least as tight as the extreme of its last
      `trailBars` closed bars, once there are as many. */
  lemma TrailFollowsBars(c: Rules, k: Terms, entryBar: Option<int>, ps: seq<Price>)
    requires Increasing(ps) && ps != [] && ps[|ps| - 1].barClosed && |BarLows(ps)| >= c.trailBars
    ensures var t := Run(c, Opened(k, entryBar), ps).trade;
            !t.closed && t.partialDone ==> Trails(k.dir, t.stop, LastN(BarLows(ps), c.trailBars), LastN(BarHighs(ps), c.trailBars))
  {
    var n := |ps| - 1;
    hide *;
    LastNSize(BarLows(ps), c.trailBars);
    WindowIsRecentBars(c, k, entryBar, ps);
    assert ps == ps[..n] + [ps[n]];
    TrailAfterBar(c, k, entryBar, ps[..n], ps[n]);
  }

  /** The extreme of a window on the losing side. */
  function Extreme(d: Direction, lows: seq<real>, highs: seq<real>): real
    requires |lows| > 0 && |highs| > 0
  {
    if d.Long? then MinOf(lows) else MaxOf(highs)
  }

  /** Where a stop may go: nowhere, to the entry as the partial is taken, or to the extreme of a full window. */
  ghost predicate StopGoes(c: Rules, t: Trade, p: Price, u: Trade) {
    || u.stop == t.stop
    || (c.breakevenAfterPartial && !t.partialDone && u.partialDone && u.stop == t.terms.entry)
    || (p.barClosed && u.partialDone && |u.lows| == c.trailBars && |u.lows| > 0 && |u.highs| > 0
        && u.stop == Extreme(t.terms.dir, u.lows, u.highs))
  }

  lemma TakePartialStop(c: Rules, t: Trade, p: Price)
    ensures var u := TakePartial(c, t, p).trade;
            && u.terms == t.terms && (t.partialDone ==> u == t)
            && (u.stop == t.stop || (c.breakevenAfterPartial && !t.partialDone && u.partialDone && u.stop == t.terms.entry))
  {
    hide Touches, Level, ROf, PartialSize;
  }

  lemma TrailStop(c: Rules, t: Trade, p: Price)
    ensures var u := TrailBar(c, t, p).trade;
            && u.terms == t.terms && u.partialDone == t.partialDone
            && (u.stop == t.stop
                || (p.barClosed && u.partialDone && |u.lows| == c.trailBars && |u.lows| > 0 && |u.highs| > 0
                    && u.stop == Extreme(t.terms.dir, u.lows, u.highs)))
  {
    hide LastN, MinOf, MaxOf;
  }

  lemma UpdateStop(c: Rules, t: Trade, p: Price, stop: real, partial: bool)
    ensures var u := Update(c, t, p, stop, partial).trade; !u.closed ==> StopGoes(c, t, p, u)
  {
    hide Touches, Level, StopFill, ROf, TakePartial, TrailBar, Extreme, TimeOfDay;
    TakePartialStop(c, t, p);
    TrailStop(c, TakePartial(c, t, p).trade, p);
  }

  lemma StepStop(c: Rules, t: Trade, p: Price)
    ensures var u := Step(c, t, p).trade; !u.closed ==> StopGoes(c, t, p, u)
  {
    hide Update, Judged, ROf, Extreme;
    if Applies(t, p) {
      var j := Judged(t, p, t.changes);
      UpdateStop(c, Arrive(t, p), p, j.0, j.1);
    }
  }

  /** Over every run, a price moves the stop of a trade that stays open only to the entry, as the partial is taken, or, as a
      bar closes after it, to the lowest low or highest high of exactly the last `trailBars` closed bars. */
  lemma StopGoesNowhereElse(c: Rules, k: Terms, entryBar: Option<int>, front: seq<Price>, p: Price)
    requires Increasing(front + [p]) && !Run(c, Opened(k, entryBar), front + [p]).trade.closed
    ensures var t, u := Run(c, Opened(k, entryBar), front).trade, Run(c, Opened(k, entryBar), front + [p]).trade;
            var lows, highs := LastN(BarLows(front + [p]), c.trailBars), LastN(BarHighs(front + [p]), c.trailBars);
            || u.stop == t.stop
            || (c.breakevenAfterPartial && !t.partialDone && u.partialDone && u.stop == k.entry)
            || (p.barClosed && u.partialDone && |lows| == c.trailBars && |lows| > 0 && |highs| > 0
                && u.stop == Extreme(k.dir, lows, highs))
  {
    hide Step, Run, LastN, BarLows, BarHighs, Extreme, Increasing, Opened, Behind;
    WindowIsRecentBars(c, k, entryBar, front + [p]);
    RunAppend(c, Opened(k, entryBar), front, [p]);
    RunSingle(c, Run(c, Opened(k, entryBar), front).trade, p);
    StepStop(c, Run(c, Opened(k, entryBar), front).trade, p);
    TermsStay(c, k, entryBar, front);
  }
}
