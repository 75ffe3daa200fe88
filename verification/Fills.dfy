/**
 Every event of a run against the price it came from, in plain numbers: what it was filled at, how many
 shares, and which stop a late bar was held to.
 */
module Fills {
  import opened Common
  import opened Positions
  import opened Lifecycle

  // ---------------------------------------------------------------- one event

  /** The risk of one share, from the terms. */
  function RiskOf(k: Terms): real {
    if k.dir.Long? then k.entry - k.initialStop else k.initialStop - k.entry
  }

  /** The price that is `r` times the risk away from the entry, on the winning side. */
  function TargetAt(k: Terms, r: real): real {
    if k.dir.Long? then k.entry + r * (k.entry - k.initialStop) else k.entry - r * (k.initialStop - k.entry)
  }

  ghost predicate Reaches(d: Direction, p: Price, target: real) {
    if d.Long? then p.high >= target else p.low <= target
  }

  /** `n` of `qty` shares: the whole part of the fraction, at least one. */
  ghost predicate IsShare(fraction: real, qty: int, n: int) {
    && n >= 1
    && if qty as real * fraction < 1.0 then n == 1 else n as real <= qty as real * fraction < n as real + 1.0
  }

  /** What an event of a price says, given the shares held and the stop the price was held to. */
  ghost predicate IsFill(c: Rules, k: Terms, held: int, stop: real, p: Price, e: Event) {
    var open := if p.open.Some? then p.open.value else p.close;
    && e.ts == p.ts && e.tradeId == k.id && e.symbol == k.symbol && e.strategy == k.strategy
    && (match e.kind
        case StopHit =>
          && e.qty == held && e.newStop.None?
          && (if k.dir.Long? then p.low <= stop && e.price == (if open < stop then open else stop)
              else p.high >= stop && e.price == (if open > stop then open else stop))
        case PartialExit =>
          && e.price == TargetAt(k, c.partialAtR) && Reaches(k.dir, p, e.price) && e.newStop.None?
          && (if k.qty == 1 then e.qty == 1 else IsShare(c.partialFraction, k.qty, e.qty))
        case RunnerExit => e.price == TargetAt(k, c.runnerTargetR) && Reaches(k.dir, p, e.price) && e.newStop.None? && e.qty <= held
        case HardExit => e.price == p.close && p.ts % DAY >= c.hardExit && e.newStop.None? && e.qty <= held
        case TrailUpdate => e.qty == 0 && e.r == 0.0 && e.newStop.Some?)
    && (!e.kind.TrailUpdate? ==> e.r * RiskOf(k) == if k.dir.Long? then e.price - k.entry else k.entry - e.price)
  }

  ghost predicate AllFills(c: Rules, k: Terms, held: int, stop: real, p: Price, es: seq<Event>) {
    forall e :: e in es ==> IsFill(c, k, held, stop, p, e)
  }

  lemma FillsAppend(c: Rules, k: Terms, held: int, stop: real, p: Price, a: seq<Event>, b: seq<Event>)
    ensures AllFills(c, k, held, stop, p, a + b) <==> AllFills(c, k, held, stop, p, a) && AllFills(c, k, held, stop, p, b)
  {
    hide IsFill;
    assert forall e :: e in a + b <==> e in a || e in b;
  }

  lemma LevelIsTarget(k: Terms, r: real)
    ensures Level(k, r) == TargetAt(k, r)
  {
  }

  lemma ROfIs(k: Terms, price: real)
    ensures ROf(k, price) * RiskOf(k) == if k.dir.Long? then price - k.entry else k.entry - price
  {
    var x, d := Sign(k.dir) * (price - k.entry), RiskOf(k);
    assert d == Rps(k);
    assert x / d * d == x;
  }

  lemma WholePart(x: real, n: int)
    requires n == if x.Floor > 1 then x.Floor else 1
    ensures n >= 1 && if x < 1.0 then n == 1 else n as real <= x < n as real + 1.0
  {
  }

  lemma PartialSizeIs(c: Rules, qty: int)
    requires qty >= 2
    ensures IsShare(c.partialFraction, qty, PartialSize(c, qty))
  {
    var x := qty as real * c.partialFraction;
    WholePart(x, PartialSize(c, qty));
  }

  lemma StopIsFill(c: Rules, t: Trade, stop: real, p: Price)
    requires Touches(t.terms.dir, stop, p, false)
    ensures AllFills(c, t.terms, t.remaining, stop, p, ExitAll(t, StopHit, p.ts, StopFill(t.terms.dir, stop, p.Open())).events)
  {
    ROfIs(t.terms, StopFill(t.terms.dir, stop, p.Open()));
    hide ROf, RiskOf;
  }

  lemma HardExitIsFill(c: Rules, t: Trade, held: int, stop: real, p: Price)
    requires t.remaining <= held
    ensures AllFills(c, t.terms, held, stop, p, HardExitDue(c, t, p).events)
  {
    ROfIs(t.terms, p.close);
    hide ROf, RiskOf;
  }

  lemma RunnerIsFill(c: Rules, t: Trade, held: int, stop: real, p: Price)
    requires t.remaining <= held && Touches(t.terms.dir, Level(t.terms, c.runnerTargetR), p, true)
    ensures AllFills(c, t.terms, held, stop, p, ExitAll(t, RunnerExit, p.ts, Level(t.terms, c.runnerTargetR)).events)
  {
    LevelIsTarget(t.terms, c.runnerTargetR);
    ROfIs(t.terms, Level(t.terms, c.runnerTargetR));
    hide ROf, RiskOf, Level, TargetAt;
  }

  lemma MoveStopIsFill(c: Rules, t: Trade, held: int, stop: real, p: Price, candidate: real, price: real)
    ensures AllFills(c, t.terms, held, stop, p, MoveStop(t, candidate, p.ts, price).events)
    ensures var m := MoveStop(t, candidate, p.ts, price).trade; m == t.(stop := m.stop)
  {
    hide Tighter, ROf, RiskOf;
  }

  lemma PartialEvent(c: Rules, t: Trade, held: int, stop: real, p: Price, q: int)
    requires Touches(t.terms.dir, Level(t.terms, c.partialAtR), p, true)
    requires if t.terms.qty == 1 then q == 1 else IsShare(c.partialFraction, t.terms.qty, q)
    ensures AllFills(c, t.terms, held, stop, p, [MakeEvent(t, PartialExit, p.ts, Level(t.terms, c.partialAtR), q, None)])
  {
    LevelIsTarget(t.terms, c.partialAtR);
    ROfIs(t.terms, Level(t.terms, c.partialAtR));
    hide ROf, RiskOf, Level, TargetAt, IsShare;
  }

  lemma NoFills(c: Rules, k: Terms, held: int, stop: real, p: Price)
    ensures AllFills(c, k, held, stop, p, [])
  {
  }

  lemma WholePartial(c: Rules, t: Trade, p: Price)
    requires !t.partialDone && Touches(t.terms.dir, Level(t.terms, c.partialAtR), p, true) && t.remaining == 1
    ensures TakePartial(c, t, p).events == [MakeEvent(t, PartialExit, p.ts, Level(t.terms, c.partialAtR), 1, None)]
  {
    hide ROf, Touches, Level;
  }

  lemma ShareMeans(fraction: real, qty: int, n: int)
    requires IsShare(fraction, qty, n)
    ensures n >= 1 && if qty as real * fraction < 1.0 then n == 1 else n as real <= qty as real * fraction < n as real + 1.0
  {
  }

  lemma TakePartialIsFill(c: Rules, t: Trade, stop: real, p: Price)
    requires Sound(c, t) && !t.closed
    ensures AllFills(c, t.terms, t.remaining, stop, p, TakePartial(c, t, p).events)
    ensures var u := TakePartial(c, t, p).trade; u.terms == t.terms && u.remaining <= t.remaining
  {
    assert t.terms.qty >= 1 && (!t.partialDone ==> t.remaining == t.terms.qty);
    var level := Level(t.terms, c.partialAtR);
    hide Sound, Level, ROf, Touches, PartialSize, MoveStop, AllFills, MakeEvent, IsShare;
    if !t.partialDone && Touches(t.terms.dir, level, p, true) {
      if t.remaining == 1 {
        PartialEvent(c, t, t.remaining, stop, p, 1);
        assert TakePartial(c, t, p).events == [MakeEvent(t, PartialExit, p.ts, level, 1, None)] by { WholePartial(c, t, p); }
      } else {
        var q := PartialSize(c, t.terms.qty);
        PartialSizeIs(c, t.terms.qty);
        assert q >= 1 by { ShareMeans(c.partialFraction, t.terms.qty, q); }
        PartialEvent(c, t, t.remaining, stop, p, q);
        var t' := t.(partialDone := true, remaining := t.remaining - q);
        MoveStopIsFill(c, t', t.remaining, stop, p, t.terms.entry, level);
        FillsAppend(c, t.terms, t.remaining, stop, p, [MakeEvent(t, PartialExit, p.ts, level, q, None)],
                    MoveStop(t', t.terms.entry, p.ts, level).events);
      }
    } else {
      NoFills(c, t.terms, t.remaining, stop, p);
    }
  }

  lemma TrailIsFill(c: Rules, t: Trade, held: int, stop: real, p: Price)
    ensures AllFills(c, t.terms, held, stop, p, TrailBar(c, t, p).events)
    ensures var u := TrailBar(c, t, p).trade; u.terms == t.terms && u.remaining == t.remaining
  {
    NoFills(c, t.terms, held, stop, p);
    hide AllFills, MoveStop, TrailCandidate;
    if p.barClosed {
      MoveStopIsFill(c, Pushed(c, t, p), held, stop, p, TrailCandidate(Pushed(c, t, p)), p.close);
    }
  }

  lemma UpdateIsFill(c: Rules, t: Trade, p: Price, stop: real, partial: bool)
    requires Sound(c, t) && !t.closed
    ensures AllFills(c, t.terms, t.remaining, stop, p, Update(c, t, p, stop, partial).events)
  {
    if Touches(t.terms.dir, stop, p, false) {
      StopIsFill(c, t, stop, p);
    }
    TakePartialIsFill(c, t, stop, p);
    hide Sound, Touches, Level, TakePartial, TrailBar, AllFills, StopFill, HardExitDue, ExitAll, ROf;
    var k, held, a := t.terms, t.remaining, TakePartial(c, t, p);
    if Touches(k.dir, Level(k, c.runnerTargetR), p, true) {
      RunnerIsFill(c, a.trade, held, stop, p);
      FillsAppend(c, k, held, stop, p, a.events, ExitAll(a.trade, RunnerExit, p.ts, Level(k, c.runnerTargetR)).events);
    }
    TrailIsFill(c, a.trade, held, stop, p);
    var b := TrailBar(c, a.trade, p);
    HardExitIsFill(c, b.trade, held, stop, p);
    FillsAppend(c, k, held, stop, p, a.events, b.events);
    FillsAppend(c, k, held, stop, p, a.events + b.events, HardExitDue(c, b.trade, p).events);
  }

  lemma StepIsFill(c: Rules, t: Trade, p: Price)
    requires Sound(c, t)
    ensures AllFills(c, t.terms, t.remaining, Judged(t, p, t.changes).0, p, Step(c, t, p).events)
  {
    assert Sound(c, Arrive(t, p)) by {
      hide ROf, PartialSize;
    }
    NoFills(c, t.terms, t.remaining, Judged(t, p, t.changes).0, p);
    hide Sound, Update, Judged, ROf, AllFills;
    if Applies(t, p) {
      var j := Judged(t, p, t.changes);
      UpdateIsFill(c, Arrive(t, p), p, j.0, j.1);
    }
  }

  /** Every event of every run, bars and ticks: some price emitted it, at its instant; a stop is filled at the worse of the
      price's open and the stop it was held to, on all the shares held; a partial at its target for the whole part of its
      fraction, at least one share; a runner at its target; the hard exit at the close, when it is time; each with its
      profit in R. */
  lemma {:induction false} EveryEventIsFill(c: Rules, k: Terms, entryBar: Option<int>, ps: seq<Price>, e: Event) returns (n: nat)
    requires k.qty >= 1 && e in Run(c, Opened(k, entryBar), ps).events
    ensures n < |ps|
    ensures var t := Run(c, Opened(k, entryBar), ps[..n]).trade;
            e in Step(c, t, ps[n]).events && IsFill(c, k, t.remaining, Judged(t, ps[n], t.changes).0, ps[n], e)
    decreases |ps|
  {
    hide Step, IsFill, Judged;
    var m := |ps| - 1;
    var start, front, p := Opened(k, entryBar), ps[..m], ps[m];
    assert ps == front + [p];
    RunAppend(c, start, front, [p]);
    var a := Run(c, start, front);
    RunSingle(c, a.trade, p);
    if e in a.events {
      n := EveryEventIsFill(c, k, entryBar, front, e);
      assert front[..n] == ps[..n];
    } else {
      n := m;
      OpenedSound(c, k, entryBar);
      RunIsSound(c, start, front);
      StepIsFill(c, a.trade, p);
    }
  }

  lemma PartialFill(c: Rules, k: Terms, held: int, stop: real, p: Price, e: Event)
    requires IsFill(c, k, held, stop, p, e) && e.kind.PartialExit? && k.qty >= 2
    ensures IsShare(c.partialFraction, k.qty, e.qty)
  {
    hide IsShare, TargetAt, RiskOf, Reaches;
  }

  /** In particular the shares of a partial, and with it the shares left: the fraction goes, rounded down, never none. */
  lemma PartialSellsItsFraction(c: Rules, k: Terms, entryBar: Option<int>, ps: seq<Price>, e: Event)
    requires k.qty >= 2 && e in Run(c, Opened(k, entryBar), ps).events && e.kind.PartialExit?
    ensures IsShare(c.partialFraction, k.qty, e.qty)
  {
    var n := EveryEventIsFill(c, k, entryBar, ps, e);
    hide *;
    var t := Run(c, Opened(k, entryBar), ps[..n]).trade;
    PartialFill(c, k, t.remaining, Judged(t, ps[n], t.changes).0, ps[n], e);
  }

  lemma ShareAtLeastOne(c: Rules, qty: int)
    ensures PartialSize(c, qty) >= 1
  {
  }

  lemma RestoredShares(c: Rules, t: Trade)
    requires t.terms.qty >= 1 && !t.partialDone
    ensures var u := RestorePartial(c, t);
            && u.partialDone && u.remaining >= 1
            && (t.terms.qty == 1 ==> u.remaining == 1)
            && (t.terms.qty >= 2 ==> IsShare(c.partialFraction, t.terms.qty, t.terms.qty - u.remaining))
  {
    if t.terms.qty >= 2 {
      PartialSizeInside(c, t.terms.qty);
      PartialSizeIs(c, t.terms.qty);
    } else {
      ShareAtLeastOne(c, t.terms.qty);
    }
    hide PartialSize, IsShare, Tighter;
  }

  /** A restored partial leaves what a live one leaves, all but the fraction, rounded down and never none, and the stop at
      the tighter of its own and the entry. */
  lemma RestoreLeavesTheRest(c: Rules, t: Trade)
    requires t.terms.qty >= 2 && !t.partialDone
    ensures IsShare(c.partialFraction, t.terms.qty, t.terms.qty - RestorePartial(c, t).remaining)
    ensures RestorePartial(c, t).remaining >= 1 && RestorePartial(c, t).partialDone
    ensures RestorePartial(c, t).stop
         == if !c.breakevenAfterPartial then t.stop
            else if t.terms.dir.Long? then (if t.terms.entry > t.stop then t.terms.entry else t.stop)
            else if t.terms.entry < t.stop then t.terms.entry else t.stop
  {
    RestoredShares(c, t);
    hide PartialSize, IsShare;
  }

  // ---------------------------------------------------------------- excursions

  /** The prices that were new to the trade when they came. */
  ghost function NewPrices(c: Rules, t: Trade, ps: seq<Price>): set<Price>
    decreases |ps|
  {
    if ps == [] then {} else
    var n := |ps| - 1;
    NewPrices(c, t, ps[..n]) + if Applies(Run(c, t, ps[..n]).trade, ps[n]) then {ps[n]} else {}
  }

  /** Rupees a share is ahead at its best and behind at its worst at a price. */
  function Ahead(k: Terms, p: Price): real { if k.dir.Long? then p.high - k.entry else k.entry - p.low }

  function Behind(k: Terms, p: Price): real { if k.dir.Long? then p.low - k.entry else k.entry - p.high }

  /** What `r` R is in rupees a share. */
  function Rupees(k: Terms, r: real): real { r * RiskOf(k) }

  lemma RupeesOrder(k: Terms, a: real, b: real)
    ensures a <= b <==> Rupees(k, a) <= Rupees(k, b)
  {
    var d := RiskOf(k);
    assert d > 0.0;
    if a <= b {
      assert (b - a) * d >= 0.0;
    } else {
      assert (a - b) * d > 0.0;
    }
  }

  /** The most a share was ahead and behind, in R, from zero. */
  ghost predicate AreExtremes(k: Terms, ps: set<Price>, mfe: real, mae: real) {
    && mae <= 0.0 <= mfe
    && (forall p :: p in ps ==> Ahead(k, p) <= Rupees(k, mfe) && Rupees(k, mae) <= Behind(k, p))
    && (mfe == 0.0 || exists p :: p in ps && Rupees(k, mfe) == Ahead(k, p))
    && (mae == 0.0 || exists p :: p in ps && Rupees(k, mae) == Behind(k, p))
  }

  lemma ArriveExtremes(k: Terms, ps: set<Price>, p: Price, mfe: real, mae: real, best: real, worst: real)
    requires AreExtremes(k, ps, mfe, mae) && Rupees(k, best) == Ahead(k, p) && Rupees(k, worst) == Behind(k, p)
    ensures AreExtremes(k, ps + {p}, MaxReal(mfe, best), MinReal(mae, worst))
  {
    hide Ahead, Behind, RiskOf, Rupees;
    RupeesOrder(k, mfe, best);
    RupeesOrder(k, worst, mae);
    assert p in ps + {p} && forall q :: q in ps ==> q in ps + {p};
  }

  lemma ArriveIs(t: Trade, p: Price) returns (best: real, worst: real)
    ensures Rupees(t.terms, best) == Ahead(t.terms, p) && Rupees(t.terms, worst) == Behind(t.terms, p)
    ensures Arrive(t, p).mfe == MaxReal(t.mfe, best) && Arrive(t, p).mae == MinReal(t.mae, worst)
  {
    var k := t.terms;
    best, worst := ROf(k, if k.dir.Long? then p.high else p.low), ROf(k, if k.dir.Long? then p.low else p.high);
    ROfIs(k, if k.dir.Long? then p.high else p.low);
    ROfIs(k, if k.dir.Long? then p.low else p.high);
    hide ROf, RiskOf;
  }

  lemma StepExcursions(c: Rules, t: Trade, p: Price, ps: set<Price>)
    requires AreExtremes(t.terms, ps, t.mfe, t.mae)
    ensures var u := Step(c, t, p).trade; AreExtremes(t.terms, ps + if Applies(t, p) then {p} else {}, u.mfe, u.mae)
  {
    hide Update, Judged, AreExtremes, Rupees, Ahead, Behind, Arrive;
    assert ps + {} == ps;
    if Applies(t, p) {
      var best, worst := ArriveIs(t, p);
      ArriveExtremes(t.terms, ps, p, t.mfe, t.mae, best, worst);
      var j := Judged(t, p, t.changes);
      UpdateFrame(c, Arrive(t, p), p, j.0, j.1);
    }
  }

  lemma NoExcursion(k: Terms)
    ensures AreExtremes(k, {}, 0.0, 0.0)
  {
  }

  /** Over every run the trade's excursions are the running extremes in R of the prices new to it while it was open. */
  lemma {:induction false} ExcursionsAreExtremes(c: Rules, k: Terms, entryBar: Option<int>, ps: seq<Price>)
    ensures var u := Run(c, Opened(k, entryBar), ps).trade;
            u.terms == k && AreExtremes(k, NewPrices(c, Opened(k, entryBar), ps), u.mfe, u.mae)
    decreases |ps|
  {
    hide Step, AreExtremes, Applies;
    if ps == [] {
      NoExcursion(k);
    } else {
      var n := |ps| - 1;
      var t, front, p := Opened(k, entryBar), ps[..n], ps[n];
      ExcursionsAreExtremes(c, k, entryBar, front);
      assert ps == front + [p];
      RunAppend(c, t, front, [p]);
      var u := Run(c, t, front).trade;
      RunSingle(c, u, p);
      StepExcursions(c, u, p, NewPrices(c, t, front));
      StepNamesTrade(c, u, p);
    }
  }
}
