/**
 What every run of the exit rules keeps: share conservation, a stop that only tightens, the event
 grammar, silence on replay, the hard exit, and crash restoration of a partial.
 Runs are arbitrary: bars and ticks in any order and at any instants.
 */
module Lifecycle {
  import opened Common
  import opened Positions

  predicate NotLooser(d: Direction, stop: real, than: real) {
    if d.Long? then stop >= than else stop <= than
  }

  /** Shares and stop of a trade are consistent with its phase. */
  ghost predicate Sound(c: Rules, t: Trade) {
    && t.terms.qty >= 1
    && 0 <= t.remaining
    && (t.closed <==> t.remaining == 0)
    && (!t.closed && !t.partialDone ==> t.remaining == t.terms.qty)
    && (!t.closed && t.partialDone ==> t.terms.qty >= 2 && t.remaining == t.terms.qty - PartialSize(c, t.terms.qty))
    && NotLooser(t.terms.dir, t.stop, t.terms.initialStop)
    && (forall i :: 0 <= i < |t.changes| ==>
          NotLooser(t.terms.dir, t.changes[i].stop, t.terms.initialStop) && NotLooser(t.terms.dir, t.stop, t.changes[i].stop))
  }

  function Sold(es: seq<Event>): int {
    if es == [] then 0 else es[0].qty + Sold(es[1..])
  }

  lemma {:induction false} SoldAppend(a: seq<Event>, b: seq<Event>)
    ensures Sold(a + b) == Sold(a) + Sold(b)
  {
    if a == [] {
      assert a + b == b;
    } else {
      assert (a + b)[1..] == a[1..] + b;
      SoldAppend(a[1..], b);
    }
  }

  /** A partial of two or more shares sells at least one and leaves at least one. */
  lemma PartialSizeInside(c: Rules, qty: int)
    requires qty >= 2
    ensures 1 <= PartialSize(c, qty) < qty
  {
    var q := qty as real;
    assert q * c.partialFraction < q * 1.0;
  }

  // ---------------------------------------------------------------- the phases an event list walks through

  datatype Phase = Holding | Runner | Done | Illegal

  function PhaseOf(t: Trade): Phase {
    if t.closed then Done else if t.partialDone then Runner else Holding
  }

  function Advance(ph: Phase, qty: int, e: Event): Phase {
    match ph
    case Holding =>
      if (e.kind.StopHit? || e.kind.HardExit?) && e.qty == qty then Done
      else if e.kind.PartialExit? && e.qty == qty then Done
      else if e.kind.PartialExit? && 0 < e.qty < qty then Runner
      else Illegal
    case Runner =>
      if e.kind.TrailUpdate? && e.qty == 0 && e.newStop.Some? then Runner
      else if (e.kind.StopHit? || e.kind.RunnerExit? || e.kind.HardExit?) && 0 < e.qty < qty then Done
      else Illegal
    case Done => Illegal
    case Illegal => Illegal
  }

  function Scan(ph: Phase, qty: int, es: seq<Event>): Phase
    decreases |es|
  {
    if es == [] then ph else Scan(Advance(ph, qty, es[0]), qty, es[1..])
  }

  lemma {:induction false} ScanAppend(ph: Phase, qty: int, a: seq<Event>, b: seq<Event>)
    ensures Scan(ph, qty, a + b) == Scan(Scan(ph, qty, a), qty, b)
    decreases |a|
  {
    if a == [] {
      assert a + b == b;
    } else {
      assert (a + b)[1..] == a[1..] + b;
      ScanAppend(Advance(ph, qty, a[0]), qty, a[1..], b);
    }
  }

  // ---------------------------------------------------------------- one update

  /** What any branch must establish when it turns `t` into an outcome. */
  ghost predicate Keeps(c: Rules, t: Trade, o: Outcome) {
    && Sound(c, o.trade)
    && o.trade.terms == t.terms
    && o.trade.changes == t.changes
    && Sold(o.events) + o.trade.remaining == t.remaining
    && NotLooser(t.terms.dir, o.trade.stop, t.stop)
    && Scan(PhaseOf(t), t.terms.qty, o.events) == PhaseOf(o.trade)
  }

  lemma KeepsThen(c: Rules, t: Trade, a: Outcome, b: Outcome)
    requires Keeps(c, t, a) && Keeps(c, a.trade, b)
    ensures Keeps(c, t, Outcome(b.trade, a.events + b.events))
  {
    SoldAppend(a.events, b.events);
    ScanAppend(PhaseOf(t), t.terms.qty, a.events, b.events);
  }

  lemma KeepsIsSound(c: Rules, t: Trade, o: Outcome)
    requires Keeps(c, t, o)
    ensures Sound(c, o.trade) && o.trade.terms == t.terms
  {
  }

  lemma ExitKeeps(c: Rules, t: Trade, kind: Kind, ts: int, price: real)
    requires Sound(c, t) && !t.closed
    requires kind.StopHit? || kind.HardExit? || (kind.RunnerExit? && t.partialDone)
    ensures Keeps(c, t, ExitAll(t, kind, ts, price)) && ExitAll(t, kind, ts, price).trade.closed
  {
    if t.partialDone {
      PartialSizeInside(c, t.terms.qty);
    }
    var e := ExitAll(t, kind, ts, price).events;
    assert e[1..] == [];
    assert Scan(PhaseOf(t), t.terms.qty, e) == Scan(Advance(PhaseOf(t), t.terms.qty, e[0]), t.terms.qty, []);
    assert Sold(e) == e[0].qty + Sold([]);
  }

  lemma MoveStopKeeps(c: Rules, t: Trade, candidate: real, ts: int, price: real)
    requires Sound(c, t) && !t.closed && t.partialDone
    ensures Keeps(c, t, MoveStop(t, candidate, ts, price))
  {
    var e := MoveStop(t, candidate, ts, price).events;
    if e != [] {
      assert e[1..] == [];
      assert Scan(PhaseOf(t), t.terms.qty, e) == Scan(Advance(PhaseOf(t), t.terms.qty, e[0]), t.terms.qty, []);
    }
  }

  lemma TakePartialKeeps(c: Rules, t: Trade, p: Price)
    requires Sound(c, t) && !t.closed
    ensures Keeps(c, t, TakePartial(c, t, p))
  {
    hide MoveStop, Touches, Level, ROf;
    var o := TakePartial(c, t, p);
    if o.events != [] {
      var qty := t.terms.qty;
      if qty >= 2 {
        PartialSizeInside(c, qty);
      }
      var e := o.events[0];
      assert Scan(Holding, qty, [e]) == Scan(Advance(Holding, qty, e), qty, [e][1..]);
      assert Sold([e]) == e.qty + Sold([e][1..]);
      if t.remaining == 1 {
        assert o.events == [e];
      } else {
        var t' := t.(partialDone := true, remaining := t.remaining - PartialSize(c, qty));
        assert Keeps(c, t, Outcome(t', [e]));
        if c.breakevenAfterPartial {
          MoveStopKeeps(c, t', t.terms.entry, p.ts, Level(t.terms, c.partialAtR));
          KeepsThen(c, t, Outcome(t', [e]), MoveStop(t', t.terms.entry, p.ts, Level(t.terms, c.partialAtR)));
        } else {
          assert o == Outcome(t', [e]);
        }
      }
    }
  }

  lemma TrailKeeps(c: Rules, t: Trade, p: Price)
    requires Sound(c, t) && !t.closed
    ensures Keeps(c, t, TrailBar(c, t, p)) && !TrailBar(c, t, p).trade.closed
  {
    var t' := if p.barClosed
    then t.(highs := LastN(t.highs + [p.high], c.trailBars), lows := LastN(t.lows + [p.low], c.trailBars)) else t;
    assert Keeps(c, t, Outcome(t', []));
    if p.barClosed && t'.partialDone && |t'.lows| == c.trailBars {
      MoveStopKeeps(c, t', if t.terms.dir.Long? then MinOf(t'.lows) else MaxOf(t'.highs), p.ts, p.close);
    }
  }

  lemma HardExitKeeps(c: Rules, t: Trade, p: Price)
    requires Sound(c, t) && !t.closed
    ensures Keeps(c, t, HardExitDue(c, t, p))
    ensures TimeOfDay(p.ts) >= c.hardExit ==> HardExitDue(c, t, p).trade.closed
  {
    if TimeOfDay(p.ts) >= c.hardExit {
      ExitKeeps(c, t, HardExit, p.ts, p.close);
    }
  }

  lemma UpdateKeeps(c: Rules, t: Trade, p: Price, stop: real, partial: bool)
    requires Sound(c, t) && !t.closed
    ensures Keeps(c, t, Update(c, t, p, stop, partial))
    ensures TimeOfDay(p.ts) >= c.hardExit ==> Update(c, t, p, stop, partial).trade.closed
  {
    hide Keeps, Sound, TakePartial, TrailBar, HardExitDue, ExitAll, Touches, Level, StopFill;
    if Touches(t.terms.dir, stop, p, false) {
      ExitKeeps(c, t, StopHit, p.ts, StopFill(t.terms.dir, stop, p.Open()));
    } else {
      TakePartialKeeps(c, t, p);
      var a := TakePartial(c, t, p);
      KeepsIsSound(c, t, a);
      if !a.trade.closed {
        var level := Level(t.terms, c.runnerTargetR);
        if (partial || (a.trade.partialDone && !t.partialDone)) && a.trade.partialDone
           && Touches(t.terms.dir, level, p, true) {
          ExitKeeps(c, a.trade, RunnerExit, p.ts, level);
          KeepsThen(c, t, a, ExitAll(a.trade, RunnerExit, p.ts, level));
        } else {
          TrailKeeps(c, a.trade, p);
          var b := TrailBar(c, a.trade, p);
          KeepsIsSound(c, a.trade, b);
          HardExitKeeps(c, b.trade, p);
          var h := HardExitDue(c, b.trade, p);
          KeepsThen(c, t, a, b);
          KeepsThen(c, t, Outcome(b.trade, a.events + b.events), h);
        }
      }
    }
  }

  // ---------------------------------------------------------------- one price, then any run

  lemma {:induction false} AfterOnly(cs: seq<Change>, ts: int, x: Change)
    ensures x in After(cs, ts) <==> x in cs && x.at > ts
  {
    if cs != [] {
      AfterOnly(cs[1..], ts, x);
      assert cs == [cs[0]] + cs[1..];
    }
  }

  ghost predicate StepKeeps(c: Rules, t: Trade, o: Outcome) {
    && Sound(c, o.trade)
    && o.trade.terms == t.terms
    && Sold(o.events) + o.trade.remaining == t.remaining
    && NotLooser(t.terms.dir, o.trade.stop, t.stop)
    && Scan(PhaseOf(t), t.terms.qty, o.events) == PhaseOf(o.trade)
  }

  lemma LoggedIsSound(c: Rules, t: Trade, u: Trade, ts: int)
    requires Sound(c, t) && Sound(c, u) && u.terms == t.terms && u.changes == t.changes
    requires NotLooser(t.terms.dir, u.stop, t.stop)
    ensures Sound(c, u.(changes := Logged(t, u, ts)))
  {
    hide PartialSize, Scan, Sold;
  }

  lemma PrunedIsSound(c: Rules, t: Trade, ts: int)
    requires Sound(c, t)
    ensures Sound(c, t.(changes := After(t.changes, ts)))
  {
    hide PartialSize;
    var kept := After(t.changes, ts);
    forall i | 0 <= i < |kept| ensures kept[i] in t.changes {
      AfterOnly(t.changes, ts, kept[i]);
    }
  }

  lemma StepIsSound(c: Rules, t: Trade, p: Price)
    requires Sound(c, t)
    ensures StepKeeps(c, t, Step(c, t, p))
    ensures Applies(t, p) && TimeOfDay(p.ts) >= c.hardExit ==> Step(c, t, p).trade.closed
  {
    assert Scan(PhaseOf(t), t.terms.qty, []) == PhaseOf(t);
    var t0 := Arrive(t, p);
    assert Sound(c, t0) && PhaseOf(t0) == PhaseOf(t);
    if Applies(t, p) {
      var j := Judged(t, p, t.changes);
      UpdateKeeps(c, t0, p, j.0, j.1);
      var u := Update(c, t0, p, j.0, j.1).trade;
      hide Update, Judged, Scan, ROf, PartialSize, Sound, Sold, Logged;
      KeepsIsSound(c, t0, Update(c, t0, p, j.0, j.1));
      LoggedIsSound(c, t, u, p.ts);
      PrunedIsSound(c, u.(changes := Logged(t, u, p.ts)), p.ts);
    }
  }

  lemma {:induction false} RunIsSound(c: Rules, t: Trade, ps: seq<Price>)
    requires Sound(c, t)
    ensures StepKeeps(c, t, Run(c, t, ps))
    decreases |ps|
  {
    hide Step, Sound;
    if ps == [] {
    } else {
      var a := Step(c, t, ps[0]);
      StepIsSound(c, t, ps[0]);
      RunIsSound(c, a.trade, ps[1..]);
      var b := Run(c, a.trade, ps[1..]);
      SoldAppend(a.events, b.events);
      ScanAppend(PhaseOf(t), t.terms.qty, a.events, b.events);
    }
  }

  lemma OpenedSound(c: Rules, k: Terms, entryBar: Option<int>)
    requires k.qty >= 1
    ensures Sound(c, Opened(k, entryBar))
  {
  }

  lemma RunSingle(c: Rules, t: Trade, p: Price)
    ensures Run(c, t, [p]) == Step(c, t, p)
  {
    hide Step;
    assert [p][1..] == [];
    assert Step(c, t, p).events + [] == Step(c, t, p).events;
  }

  /** Conservation: shares sold by the events plus shares left are the shares bought, and only an empty trade is closed. */
  lemma SharesConserved(c: Rules, k: Terms, entryBar: Option<int>, ps: seq<Price>)
    requires k.qty >= 1
    ensures var o := Run(c, Opened(k, entryBar), ps);
            && Sold(o.events) + o.trade.remaining == k.qty
            && (o.trade.closed <==> o.trade.remaining == 0)
            && (o.trade.closed <==> Sold(o.events) == k.qty)
  {
    RunIsSound(c, Opened(k, entryBar), ps);
  }

  /** The stop never loosens between any two points of a run. */
  lemma StopNeverLoosens(c: Rules, k: Terms, entryBar: Option<int>, ps: seq<Price>, qs: seq<Price>)
    requires k.qty >= 1
    ensures NotLooser(k.dir, Run(c, Opened(k, entryBar), ps).trade.stop, k.initialStop)
    ensures NotLooser(k.dir, Run(c, Opened(k, entryBar), ps + qs).trade.stop, Run(c, Opened(k, entryBar), ps).trade.stop)
  {
    hide Step;
    RunIsSound(c, Opened(k, entryBar), ps);
    RunIsSound(c, Run(c, Opened(k, entryBar), ps).trade, qs);
    RunAppend(c, Opened(k, entryBar), ps, qs);
  }

  // ---------------------------------------------------------------- event grammar

  predicate Closing(e: Event) { e.kind.StopHit? || e.kind.RunnerExit? || e.kind.HardExit? }

  /** A prefix of: stop_hit | hard_exit | whole partial | partial trail* (stop_hit | runner_exit | hard_exit). */
  ghost predicate Grammatical(qty: int, es: seq<Event>) {
    || es == []
    || (|es| == 1 && (es[0].kind.StopHit? || es[0].kind.HardExit? || es[0].kind.PartialExit?) && es[0].qty == qty)
    || (&& es[0].kind.PartialExit? && 0 < es[0].qty < qty
        && (forall i :: 0 < i < |es| - 1 ==> es[i].kind.TrailUpdate?)
        && (|es| > 1 ==> es[|es| - 1].kind.TrailUpdate? || Closing(es[|es| - 1])))
  }

  lemma {:induction false} IllegalStays(qty: int, es: seq<Event>)
    ensures Scan(Illegal, qty, es) == Illegal
  {
    if es != [] {
      IllegalStays(qty, es[1..]);
    }
  }

  lemma {:induction false} DoneIsLast(qty: int, es: seq<Event>)
    requires Scan(Done, qty, es) != Illegal
    ensures es == []
  {
    if es != [] {
      IllegalStays(qty, es[1..]);
    }
  }

  lemma {:induction false} RunnerShape(qty: int, es: seq<Event>)
    requires Scan(Runner, qty, es) != Illegal
    ensures forall i :: 0 <= i < |es| - 1 ==> es[i].kind.TrailUpdate?
    ensures es != [] ==> es[|es| - 1].kind.TrailUpdate? || Closing(es[|es| - 1])
  {
    if es != [] {
      match Advance(Runner, qty, es[0]) {
        case Runner => RunnerShape(qty, es[1..]);
        case Done => DoneIsLast(qty, es[1..]);
        case Holding =>
        case Illegal => IllegalStays(qty, es[1..]);
      }
    }
  }

  lemma {:induction false} LastDecides(qty: int, es: seq<Event>)
    requires Scan(Runner, qty, es) != Illegal
    ensures Scan(Runner, qty, es) == Done <==> es != [] && Closing(es[|es| - 1])
  {
    if es != [] {
      match Advance(Runner, qty, es[0]) {
        case Runner =>
          LastDecides(qty, es[1..]);
          if |es| == 1 { assert es[1..] == []; }
        case Done => DoneIsLast(qty, es[1..]);
        case Holding =>
        case Illegal => IllegalStays(qty, es[1..]);
      }
    }
  }

  lemma UpdatePartialRecorded(c: Rules, t: Trade, p: Price, stop: real, partial: bool)
    ensures var u := Update(c, t, p, stop, partial);
            u.trade.partialDone <==> t.partialDone || exists e :: e in u.events && e.kind.PartialExit?
  {
    var u := Update(c, t, p, stop, partial);
    if u.trade.partialDone && !t.partialDone {
      assert u.events[0] in u.events && u.events[0].kind.PartialExit?;
    }
  }

  lemma {:induction false} PartialRecorded(c: Rules, t: Trade, ps: seq<Price>)
    ensures var o := Run(c, t, ps);
            o.trade.partialDone <==> t.partialDone || exists e :: e in o.events && e.kind.PartialExit?
    decreases |ps|
  {
    hide Update, Judged;
    if ps != [] {
      var j := Judged(t, ps[0], t.changes);
      UpdatePartialRecorded(c, Arrive(t, ps[0]), ps[0], j.0, j.1);
      var a := Step(c, t, ps[0]);
      PartialRecorded(c, a.trade, ps[1..]);
      var b := Run(c, a.trade, ps[1..]);
      assert forall e :: e in a.events + b.events <==> e in a.events || e in b.events;
    }
  }

  /** The events of any run from an opening, and of nothing after a close. */
  lemma EventGrammar(c: Rules, k: Terms, entryBar: Option<int>, ps: seq<Price>)
    requires k.qty >= 1
    ensures var o := Run(c, Opened(k, entryBar), ps);
            && Grammatical(k.qty, o.events)
            && (o.trade.closed <==> o.events != [] && (Closing(o.events[|o.events| - 1]) || o.events[0].qty == k.qty))
            && (o.trade.partialDone <==> exists e :: e in o.events && e.kind.PartialExit?)
  {
    hide Step;
    var t := Opened(k, entryBar);
    RunIsSound(c, t, ps);
    var o := Run(c, t, ps);
    var es := o.events;
    PartialRecorded(c, t, ps);
    if es != [] {
      match Advance(Holding, k.qty, es[0]) {
        case Runner =>
          RunnerShape(k.qty, es[1..]);
          LastDecides(k.qty, es[1..]);
        case Done => DoneIsLast(k.qty, es[1..]);
        case Holding =>
        case Illegal => IllegalStays(k.qty, es[1..]);
      }
    }
  }

  // ---------------------------------------------------------------- whose events they are

  ghost predicate Names(t: Trade, o: Outcome) {
    o.trade.terms == t.terms && forall i :: 0 <= i < |o.events| ==> o.events[i].tradeId == t.terms.id
  }

  lemma BranchesNameTrade(c: Rules, t: Trade, p: Price, kind: Kind, price: real)
    ensures Names(t, TakePartial(c, t, p)) && Names(t, TrailBar(c, t, p)) && Names(t, ExitAll(t, kind, p.ts, price))
  {
    hide ROf, Touches, Level, PartialSize, Tighter;
  }

  lemma UpdateNamesTrade(c: Rules, t: Trade, p: Price, stop: real, partial: bool)
    ensures Names(t, Update(c, t, p, stop, partial))
  {
    hide TakePartial, TrailBar, ExitAll, Touches, Level, StopFill;
    var a := TakePartial(c, t, p);
    var b := TrailBar(c, a.trade, p);
    BranchesNameTrade(c, t, p, StopHit, StopFill(t.terms.dir, stop, p.Open()));
    BranchesNameTrade(c, a.trade, p, RunnerExit, Level(t.terms, c.runnerTargetR));
    BranchesNameTrade(c, b.trade, p, HardExit, p.close);
  }

  lemma StepNamesTrade(c: Rules, t: Trade, p: Price)
    ensures Names(t, Step(c, t, p))
  {
    hide Update, Judged, ROf;
    var j := Judged(t, p, t.changes);
    UpdateNamesTrade(c, Arrive(t, p), p, j.0, j.1);
  }
}
