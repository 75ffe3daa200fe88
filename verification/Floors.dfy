/**
 The least a trade can book: a floor on every exit leg of any run, and the partial that a
 breakeven stop protects.
 */
module Floors {
  import opened Common
  import opened Positions
  import opened Lifecycle
  import opened Bounds

  /** Bars and ticks whose open (for a tick: its price) is no worse than `floor`, in R. */
  ghost predicate OpensFrom(k: Terms, floor: real, ps: seq<Price>) {
    forall i :: 0 <= i < |ps| ==> WellFormed(ps[i]) && ROf(k, ps[i].Open()) >= floor
  }

  ghost predicate LegsFrom(floor: real, es: seq<Event>) {
    forall i :: 0 <= i < |es| ==> (es[i].qty >= 0 && (es[i].qty > 0 ==> es[i].r >= floor))
  }

  lemma FillR(k: Terms, stop: real, open: real)
    ensures ROf(k, StopFill(k.dir, stop, open)) == MinReal(ROf(k, stop), ROf(k, open))
  {
    ROrder(k, stop, open);
    ROrder(k, open, stop);
  }

  lemma TrailLegs(c: Rules, t: Trade, p: Price, floor: real)
    ensures LegsFrom(floor, TrailBar(c, t, p).events)
  {
  }

  /** Every leg of one update, judged against a stop at or above the floor. */
  lemma UpdateLegs(c: Rules, t: Trade, p: Price, stop: real, partial: bool, floor: real)
    requires Sound(c, t) && !t.closed && WellFormed(p) && floor <= 0.0
    requires ROf(t.terms, stop) >= floor && ROf(t.terms, p.Open()) >= floor
    ensures LegsFrom(floor, Update(c, t, p, stop, partial).events)
  {
    hide ROf, Level, Touches, StopFill, PartialSize, TrailBar;
    var k := t.terms;
    FillR(k, stop, p.Open());
    TouchR(k, stop, p);
    LevelR(k, c.partialAtR);
    LevelR(k, c.runnerTargetR);
    PartialSizeWithin(c, k.qty);
    if !Touches(k.dir, stop, p, false) {
      var a := TakePartial(c, t, p);
      TakePartialKeeps(c, t, p);
      if !a.trade.closed {
        TrailKeeps(c, a.trade, p);
        var b := TrailBar(c, a.trade, p);
        TrailLegs(c, a.trade, p, floor);
      }
    }
  }

  lemma {:induction false} EarliestMember(cs: seq<Change>)
    requires cs != []
    ensures Earliest(cs) in cs
  {
    if |cs| > 1 {
      EarliestMember(cs[1..]);
    }
  }

  /** No price is judged against a stop looser than the initial one, which is at -1R. */
  lemma JudgedFromInitial(c: Rules, t: Trade, p: Price)
    requires Sound(c, t)
    ensures ROf(t.terms, Judged(t, p, t.changes).0) >= -1.0
  {
    var later := After(t.changes, p.ts - BAR);
    if later != [] {
      EarliestMember(later);
      AfterOnly(t.changes, p.ts - BAR, Earliest(later));
    }
    StopR(t.terms);
    ROrder(t.terms, Judged(t, p, t.changes).0, t.terms.initialStop);
  }

  lemma StepLegs(c: Rules, t: Trade, p: Price, floor: real)
    requires Sound(c, t) && WellFormed(p) && floor <= -1.0 && ROf(t.terms, p.Open()) >= floor
    ensures LegsFrom(floor, Step(c, t, p).events)
  {
    hide Update, ROf;
    if Applies(t, p) {
      var j := Judged(t, p, t.changes);
      JudgedFromInitial(c, t, p);
      UpdateLegs(c, Arrive(t, p), p, j.0, j.1, floor);
    }
  }

  /** The loss floor: whatever the run, if no bar opens and no tick prints below `floor` (at most -1R), no exit leg
      is booked below it. */
  lemma {:induction false} LegsHaveFloor(c: Rules, t: Trade, ps: seq<Price>, floor: real)
    requires Sound(c, t) && floor <= -1.0 && OpensFrom(t.terms, floor, ps)
    ensures LegsFrom(floor, Run(c, t, ps).events)
    decreases |ps|
  {
    hide Step, Sound, ROf;
    if ps != [] {
      var a := Step(c, t, ps[0]);
      StepIsSound(c, t, ps[0]);
      StepLegs(c, t, ps[0], floor);
      LegsHaveFloor(c, a.trade, ps[1..], floor);
    }
  }

  lemma {:induction false} LegsSum(floor: real, es: seq<Event>)
    requires LegsFrom(floor, es)
    ensures RShares(es) >= floor * Sold(es) as real
  {
    if es != [] {
      LegsSum(floor, es[1..]);
      var e := es[0];
      if e.qty > 0 {
        MulLess(e.qty as real, floor, e.r);
      }
      assert floor * Sold(es) as real == floor * e.qty as real + floor * Sold(es[1..]) as real;
    }
  }

  /** A trade loses at most its risk unless some price opened beyond the initial stop; then at most that far beyond. */
  lemma GrossRHasFloor(c: Rules, k: Terms, entryBar: Option<int>, ps: seq<Price>, floor: real)
    requires k.qty >= 1 && floor <= -1.0 && OpensFrom(k, floor, ps)
    ensures var o := Run(c, Opened(k, entryBar), ps);
            RShares(o.events) >= floor * (k.qty - o.trade.remaining) as real
  {
    hide Step, ROf;
    RunIsSound(c, Opened(k, entryBar), ps);
    LegsHaveFloor(c, Opened(k, entryBar), ps, floor);
    LegsSum(floor, Run(c, Opened(k, entryBar), ps).events);
  }

  // ---------------------------------------------------------------- what is booked while the trade is open

  function Booked(c: Rules, t: Trade): real {
    if t.partialDone then c.partialAtR * PartialSize(c, t.terms.qty) as real else 0.0
  }

  lemma TakePartialBooks(c: Rules, t: Trade, p: Price)
    requires Sound(c, t) && !t.closed
    ensures var o := TakePartial(c, t, p);
            !o.trade.closed ==> RShares(o.events) == Booked(c, o.trade) - Booked(c, t)
  {
    hide ROf, Touches, Level, PartialSize;
    var o := TakePartial(c, t, p);
    LevelR(t.terms, c.partialAtR);
    if o.events != [] {
      RSharesOne(o.events[0]);
      if |o.events| == 2 {
        RSharesOne(o.events[1]);
        assert o.events == [o.events[0]] + [o.events[1]];
        RSharesAppend([o.events[0]], [o.events[1]]);
      }
    }
  }

  lemma TrailBooks(c: Rules, t: Trade, p: Price)
    ensures RShares(TrailBar(c, t, p).events) == 0.0
    ensures TrailBar(c, t, p).trade.partialDone == t.partialDone && TrailBar(c, t, p).trade.closed == t.closed
    ensures TrailBar(c, t, p).trade.terms == t.terms
  {
    var b := TrailBar(c, t, p);
    if b.events != [] {
      RSharesOne(b.events[0]);
    }
  }

  lemma UpdateBooks(c: Rules, t: Trade, p: Price, stop: real, partial: bool)
    requires Sound(c, t) && !t.closed
    ensures var o := Update(c, t, p, stop, partial);
            !o.trade.closed ==> RShares(o.events) == Booked(c, o.trade) - Booked(c, t)
  {
    hide ROf, Touches, Level, PartialSize, TakePartial, TrailBar;
    var o := Update(c, t, p, stop, partial);
    if !o.trade.closed {
      TakePartialBooks(c, t, p);
      TakePartialKeeps(c, t, p);
      var a := TakePartial(c, t, p);
      TrailBooks(c, a.trade, p);
      var b := TrailBar(c, a.trade, p);
      RSharesAppend(a.events, b.events);
      RSharesAppend(a.events + b.events, []);
    }
  }

  lemma StepBooks(c: Rules, t: Trade, p: Price)
    requires Sound(c, t)
    ensures var o := Step(c, t, p);
            !o.trade.closed ==> RShares(o.events) == Booked(c, o.trade) - Booked(c, t)
  {
    hide Update, Judged, ROf, PartialSize;
    if Applies(t, p) {
      var j := Judged(t, p, t.changes);
      UpdateBooks(c, Arrive(t, p), p, j.0, j.1);
    }
  }

  lemma {:induction false} ClosedIsFinal(c: Rules, t: Trade, ps: seq<Price>)
    ensures t.closed ==> Run(c, t, ps).trade.closed
    decreases |ps|
  {
    hide Update, Judged, ROf;
    if ps != [] {
      ClosedIsFinal(c, Step(c, t, ps[0]).trade, ps[1..]);
    }
  }

  /** While a trade is open its events book exactly its partial, if it had one. */
  lemma {:induction false} OpenTradeBooksItsPartial(c: Rules, t: Trade, ps: seq<Price>)
    requires Sound(c, t)
    ensures var o := Run(c, t, ps);
            !o.trade.closed ==> RShares(o.events) == Booked(c, o.trade) - Booked(c, t)
    decreases |ps|
  {
    hide Update, Judged, Sound, ROf, Booked;
    if ps != [] {
      var a := Step(c, t, ps[0]);
      StepIsSound(c, t, ps[0]);
      StepBooks(c, t, ps[0]);
      OpenTradeBooksItsPartial(c, a.trade, ps[1..]);
      RSharesAppend(a.events, Run(c, a.trade, ps[1..]).events);
      ClosedIsFinal(c, a.trade, ps[1..]);
    }
  }

  lemma ArriveSound(c: Rules, t: Trade, p: Price)
    requires Sound(c, t)
    ensures Sound(c, Arrive(t, p))
  {
  }

  // ---------------------------------------------------------------- breakeven protects the partial

  /** Between bars, after the partial: the stop is at the entry or better. */
  ghost predicate Protected(c: Rules, t: Trade) {
    && Sound(c, t)
    && t.changes == []
    && (t.partialDone && !t.closed ==> ROf(t.terms, t.stop) >= 0.0)
  }

  lemma UpdateToBreakeven(c: Rules, t: Trade, p: Price, stop: real, partial: bool)
    requires c.breakevenAfterPartial && Sound(c, t) && !t.closed && !t.partialDone
    ensures var u := Update(c, t, p, stop, partial).trade;
            u.partialDone && !u.closed ==> NotLooser(t.terms.dir, u.stop, t.terms.entry)
  {
    hide ROf, Touches, Level, PartialSize, TrailBar;
    TakePartialKeeps(c, t, p);
    var a := TakePartial(c, t, p).trade;
    if !a.closed {
      TrailKeeps(c, a, p);
      TrailBooks(c, a, p);
    }
  }

  lemma StepProtected(c: Rules, t: Trade, p: Price)
    requires Protected(c, t) && c.breakevenAfterPartial && p.barClosed && WellFormed(p)
    ensures Protected(c, Step(c, t, p).trade)
    ensures t.partialDone && ROf(t.terms, p.Open()) >= 0.0 ==> LegsFrom(0.0, Step(c, t, p).events)
  {
    hide ROf, Sound, Update;
    StepIsSound(c, t, p);
    if Applies(t, p) {
      assert Judged(t, p, t.changes) == (t.stop, t.partialDone);
      var t0 := Arrive(t, p);
      ArriveSound(c, t, p);
      UpdateFrame(c, t0, p, t.stop, t.partialDone);
      UpdateKeeps(c, t0, p, t.stop, t.partialDone);
      var u := Update(c, t0, p, t.stop, t.partialDone).trade;
      assert After(Logged(t, u, p.ts), p.ts) == [] by {
        assert [Change(p.ts, t.stop, t.partialDone)][1..] == [];
      }
      StopR(t.terms);
      ROrder(t.terms, u.stop, t.stop);
      if !t.partialDone {
        UpdateToBreakeven(c, t0, p, t.stop, t.partialDone);
        ROrder(t.terms, u.stop, t.terms.entry);
      } else if ROf(t.terms, p.Open()) >= 0.0 {
        UpdateLegs(c, t0, p, t.stop, t.partialDone, 0.0);
      }
    }
  }

  lemma {:induction false} RunProtected(c: Rules, t: Trade, ps: seq<Price>)
    requires Protected(c, t) && c.breakevenAfterPartial && BarsOnly(ps)
    ensures Protected(c, Run(c, t, ps).trade)
    decreases |ps|
  {
    hide Step, Protected;
    if ps != [] {
      StepProtected(c, t, ps[0]);
      RunProtected(c, Step(c, t, ps[0]).trade, ps[1..]);
    }
  }

  lemma PartialStays(c: Rules, t: Trade, p: Price)
    ensures t.partialDone ==> Step(c, t, p).trade.partialDone
    ensures Step(c, t, p).trade.terms == t.terms
  {
    hide ROf, Judged;
  }

  lemma {:induction false} RunLegsNotNegative(c: Rules, t: Trade, ps: seq<Price>)
    requires Protected(c, t) && t.partialDone && c.breakevenAfterPartial && BarsOnly(ps) && OpensFrom(t.terms, 0.0, ps)
    ensures LegsFrom(0.0, Run(c, t, ps).events)
    decreases |ps|
  {
    hide Step, ROf, Protected;
    if ps != [] {
      var a := Step(c, t, ps[0]);
      StepProtected(c, t, ps[0]);
      PartialStays(c, t, ps[0]);
      RunLegsNotNegative(c, a.trade, ps[1..]);
    }
  }

  /** The partial is all an open trade has booked. */
  lemma OpenAfterPartial(c: Rules, k: Terms, entryBar: Option<int>, ps: seq<Price>)
    requires k.qty >= 1
    requires var t := Run(c, Opened(k, entryBar), ps).trade; t.partialDone && !t.closed
    ensures RShares(Run(c, Opened(k, entryBar), ps).events) == c.partialAtR * PartialSize(c, k.qty) as real
  {
    hide Step, ROf, PartialSize;
    RunIsSound(c, Opened(k, entryBar), ps);
    OpenTradeBooksItsPartial(c, Opened(k, entryBar), ps);
  }

  lemma LegsSumNotNegative(es: seq<Event>)
    requires LegsFrom(0.0, es)
    ensures RShares(es) >= 0.0
  {
    LegsSum(0.0, es);
    assert 0.0 * Sold(es) as real == 0.0;
  }

  /** With breakeven on and closed bars only: a trade still open after its partial keeps the partial's R, whatever
      follows, as long as no later bar opens beyond the entry. */
  lemma BreakevenKeepsPartial(c: Rules, k: Terms, entryBar: Option<int>, ps: seq<Price>, qs: seq<Price>)
    requires k.qty >= 1 && c.breakevenAfterPartial && BarsOnly(ps) && BarsOnly(qs) && OpensFrom(k, 0.0, qs)
    requires var t := Run(c, Opened(k, entryBar), ps).trade; t.partialDone && !t.closed
    ensures RShares(Run(c, Opened(k, entryBar), ps + qs).events) >= c.partialAtR * PartialSize(c, k.qty) as real
  {
    hide Step, Run, ROf, PartialSize, RShares, BarsOnly, OpensFrom, Sold, Scan;
    var t := Opened(k, entryBar);
    var mid := Run(c, t, ps);
    RunIsSound(c, t, ps);
    RunProtected(c, t, ps);
    RunAppend(c, t, ps, qs);
    RunLegsNotNegative(c, mid.trade, qs);
    LegsSumNotNegative(Run(c, mid.trade, qs).events);
    RSharesAppend(mid.events, Run(c, mid.trade, qs).events);
    OpenAfterPartial(c, k, entryBar, ps);
  }
}
