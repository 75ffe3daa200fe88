/**
 What a trade can win or lose, in R.  Prices are read through ROf, so long and short are one case.
 */
module Bounds {
  import opened Common
  import opened Positions
  import opened Lifecycle

  ghost predicate WellFormed(p: Price) { p.low <= p.close <= p.high }

  ghost predicate BarsOnly(ps: seq<Price>) {
    forall i :: 0 <= i < |ps| ==> ps[i].barClosed && WellFormed(ps[i])
  }

  /** The sum over the events of R per share times shares; divided by the quantity it is the trade's gross R. */
  function RShares(es: seq<Event>): real {
    if es == [] then 0.0 else es[0].r * es[0].qty as real + RShares(es[1..])
  }

  lemma {:induction false} RSharesAppend(a: seq<Event>, b: seq<Event>)
    ensures RShares(a + b) == RShares(a) + RShares(b)
  {
    if a == [] {
      assert a + b == b;
    } else {
      assert (a + b)[1..] == a[1..] + b;
      RSharesAppend(a[1..], b);
    }
  }

  lemma RSharesOne(e: Event)
    ensures RShares([e]) == e.r * e.qty as real
  {
    assert [e][1..] == [];
  }

  function Favorable(k: Terms, p: Price): real { if k.dir.Long? then p.high else p.low }

  function Adverse(k: Terms, p: Price): real { if k.dir.Long? then p.low else p.high }

  // ---------------------------------------------------------------- prices in R

  lemma DivOrder(a: real, b: real, d: real)
    requires d > 0.0
    ensures a / d >= b / d <==> a >= b
  {
  }

  lemma ROrder(k: Terms, a: real, b: real)
    ensures NotLooser(k.dir, a, b) <==> ROf(k, a) >= ROf(k, b)
  {
    DivOrder(Sign(k.dir) * (a - k.entry), Sign(k.dir) * (b - k.entry), Rps(k));
  }

  lemma LevelR(k: Terms, r: real)
    ensures ROf(k, Level(k, r)) == r
  {
    var rps := Rps(k);
    assert Sign(k.dir) * (Level(k, r) - k.entry) == r * rps;
    assert r * rps / rps == r;
  }

  lemma MinusSelf(d: real)
    requires d > 0.0
    ensures -d / d == -1.0
  {
    assert -d / d == -(d / d);
  }

  lemma StopR(k: Terms)
    ensures ROf(k, k.initialStop) == -1.0 && ROf(k, k.entry) == 0.0
  {
    assert Sign(k.dir) * (k.initialStop - k.entry) == -Rps(k);
    MinusSelf(Rps(k));
  }

  lemma TouchR(k: Terms, level: real, p: Price)
    ensures Touches(k.dir, level, p, true) <==> ROf(k, Favorable(k, p)) >= ROf(k, level)
    ensures Touches(k.dir, level, p, false) <==> ROf(k, Adverse(k, p)) <= ROf(k, level)
    ensures WellFormed(p) ==> ROf(k, Adverse(k, p)) <= ROf(k, p.close) <= ROf(k, Favorable(k, p))
  {
    ROrder(k, Favorable(k, p), level);
    ROrder(k, level, Adverse(k, p));
    ROrder(k, p.close, Adverse(k, p));
    ROrder(k, Favorable(k, p), p.close);
  }

  // ---------------------------------------------------------------- the most a run of bars can win

  /** The most the shares still held can bring. */
  function Cap(c: Rules, t: Trade): real {
    var n := PartialSize(c, t.terms.qty) as real;
    if t.closed then 0.0
    else if t.partialDone then t.remaining as real * c.runnerTargetR
    else n * c.partialAtR + (t.terms.qty as real - n) * c.runnerTargetR
  }

  /** Every price in the trail window is below the runner target. */
  ghost predicate WindowBelow(c: Rules, t: Trade) {
    && (forall i :: 0 <= i < |t.lows| ==> t.terms.dir.Long? ==> ROf(t.terms, t.lows[i]) < c.runnerTargetR)
    && (forall i :: 0 <= i < |t.highs| ==> t.terms.dir.Short? ==> ROf(t.terms, t.highs[i]) < c.runnerTargetR)
  }

  /** Between bars the stop and the trail window are below the runner target. */
  ghost predicate BelowTarget(c: Rules, t: Trade) {
    && Sound(c, t)
    && t.changes == []
    && (!t.closed ==>
          && ROf(t.terms, t.stop) < c.runnerTargetR
          && (!t.partialDone ==> t.stop == t.terms.initialStop)
          && WindowBelow(c, t))
  }

  lemma {:induction false} MinIsMember(s: seq<real>)
    requires |s| > 0
    ensures MinOf(s) in s && MaxOf(s) in s
  {
    if |s| > 1 { MinIsMember(s[1..]); }
  }

  lemma LastNMembers<T>(s: seq<T>, x: T, n: nat)
    ensures forall i :: 0 <= i < |LastN(s + [x], n)| ==> LastN(s + [x], n)[i] == x || LastN(s + [x], n)[i] in s
  {
    var l := LastN(s + [x], n);
    forall i | 0 <= i < |l| ensures l[i] == x || l[i] in s {
      if |s| + 1 > n {
        assert l[i] == (s + [x])[|s| + 1 - n + i];
      }
    }
  }

  lemma MulLess(n: real, a: real, b: real)
    requires n >= 0.0 && a <= b
    ensures n * a <= n * b && a * n <= b * n
  {
  }

  /** For one share or more, the partial is between one share and all of them. */
  lemma PartialSizeWithin(c: Rules, qty: int)
    requires qty >= 1
    ensures 1 <= PartialSize(c, qty) <= qty
  {
    if qty >= 2 {
      PartialSizeInside(c, qty);
    } else {
      assert (1 as real * c.partialFraction).Floor == 0;
    }
  }

  lemma SplitAbove(q: real, n: real, r: real, a: real, b: real)
    requires 0.0 <= n <= q && r <= a <= b
    ensures r * q <= n * a + (q - n) * b
  {
    MulLess(n, r, a);
    MulLess(q - n, r, b);
    assert r * q == n * r + (q - n) * r;
  }

  /** The whole position sold below the partial level is below the cap. */
  lemma WholeBelowCap(c: Rules, t: Trade, r: real)
    requires Sound(c, t) && !t.closed && !t.partialDone && r <= c.partialAtR
    ensures r * t.terms.qty as real <= Cap(c, t)
    ensures t.terms.qty == 1 ==> Cap(c, t) == c.partialAtR
  {
    hide PartialSize;
    PartialSizeWithin(c, t.terms.qty);
    SplitAbove(t.terms.qty as real, PartialSize(c, t.terms.qty) as real, r, c.partialAtR, c.runnerTargetR);
  }

  lemma TakePartialCap(c: Rules, t: Trade, p: Price)
    requires BelowTarget(c, t) && !t.closed
    ensures var o := TakePartial(c, t, p);
            && RShares(o.events) + Cap(c, o.trade) <= Cap(c, t)
            && (!o.trade.closed ==> o.trade.stop == t.stop || o.trade.stop == t.terms.entry)
            && o.trade.highs == t.highs && o.trade.lows == t.lows && (o.trade.partialDone ==> WindowBelow(c, o.trade))
  {
    hide ROf, Touches, Level;
    var o := TakePartial(c, t, p);
    var level := Level(t.terms, c.partialAtR);
    TakePartialKeeps(c, t, p);
    if o.events != [] {
      LevelR(t.terms, c.partialAtR);
      assert o.events[0].r == c.partialAtR;
      if t.remaining == 1 {
        WholeBelowCap(c, t, c.partialAtR);
        RSharesOne(o.events[0]);
      } else {
        RSharesOne(o.events[0]);
        if |o.events| == 2 {
          RSharesOne(o.events[1]);
          assert o.events == [o.events[0]] + [o.events[1]];
          RSharesAppend([o.events[0]], [o.events[1]]);
        }
      }
    }
  }

  lemma PartialWaits(c: Rules, t: Trade, p: Price)
    ensures var a := TakePartial(c, t, p).trade;
            !a.partialDone ==> a == t && !Touches(t.terms.dir, Level(t.terms, c.partialAtR), p, true)
  {
  }

  lemma CapOfPhase(c: Rules, t: Trade)
    ensures t.closed ==> Cap(c, t) == 0.0
    ensures !t.closed && t.partialDone ==> Cap(c, t) == t.remaining as real * c.runnerTargetR
  {
    hide PartialSize;
  }

  /** Selling everything left at no more than the level the phase waits for stays below the cap. */
  lemma ExitCap(c: Rules, t: Trade, kind: Kind, ts: int, price: real)
    requires Sound(c, t) && !t.closed && !kind.TrailUpdate?
    requires ROf(t.terms, price) <= if t.partialDone then c.runnerTargetR else c.partialAtR
    ensures var o := ExitAll(t, kind, ts, price); RShares(o.events) + Cap(c, o.trade) <= Cap(c, t)
  {
    hide ROf, PartialSize, Cap;
    var o := ExitAll(t, kind, ts, price);
    var r, n := ROf(t.terms, price), t.remaining as real;
    var cap := if t.partialDone then n * c.runnerTargetR else Cap(c, t);
    CapOfPhase(c, t);
    CapOfPhase(c, o.trade);
    assert r * n <= cap by {
      if t.partialDone {
        MulLess(n, r, c.runnerTargetR);
      } else {
        WholeBelowCap(c, t, r);
      }
    }
    assert o.events == [o.events[0]] && o.events[0].r == r && o.events[0].qty == t.remaining;
    RSharesOne(o.events[0]);
  }

  lemma StopBarCap(c: Rules, t: Trade, p: Price)
    requires BelowTarget(c, t) && !t.closed
    ensures var o := ExitAll(t, StopHit, p.ts, StopFill(t.terms.dir, t.stop, p.Open()));
            RShares(o.events) + Cap(c, o.trade) <= Cap(c, t)
  {
    hide ROf, PartialSize, Cap;
    var fill := StopFill(t.terms.dir, t.stop, p.Open());
    ROrder(t.terms, t.stop, fill);
    StopR(t.terms);
    ExitCap(c, t, StopHit, p.ts, fill);
  }

  lemma TrailBelow(c: Rules, t: Trade, p: Price)
    requires !t.closed && p.barClosed && WellFormed(p) && WindowBelow(c, t)
    requires ROf(t.terms, Favorable(t.terms, p)) < c.runnerTargetR && ROf(t.terms, t.stop) < c.runnerTargetR
    ensures var b := TrailBar(c, t, p);
            && WindowBelow(c, b.trade) && ROf(t.terms, b.trade.stop) < c.runnerTargetR
            && RShares(b.events) == 0.0 && (!t.partialDone ==> b.trade.stop == t.stop)
            && b.trade == t.(stop := b.trade.stop, highs := b.trade.highs, lows := b.trade.lows)
  {
    hide ROf;
    var b := TrailBar(c, t, p);
    TouchR(t.terms, t.stop, p);
    LastNMembers(t.lows, p.low, c.trailBars);
    LastNMembers(t.highs, p.high, c.trailBars);
    if b.trade.partialDone && |b.trade.lows| == c.trailBars {
      MinIsMember(b.trade.lows);
      MinIsMember(b.trade.highs);
    }
    if b.events != [] {
      RSharesOne(b.events[0]);
    }
  }

  lemma HardExitCap(c: Rules, t: Trade, p: Price)
    requires Sound(c, t) && !t.closed
    requires ROf(t.terms, p.close) <= if t.partialDone then c.runnerTargetR else c.partialAtR
    ensures var h := HardExitDue(c, t, p); RShares(h.events) + Cap(c, h.trade) <= Cap(c, t)
  {
    if TimeOfDay(p.ts) >= c.hardExit {
      ExitCap(c, t, HardExit, p.ts, p.close);
    }
  }

  /** Trail and hard exit of a bar that did not reach the level the phase waits for. */
  lemma TailCap(c: Rules, t: Trade, p: Price)
    requires Sound(c, t) && !t.closed && t.changes == [] && p.barClosed && WellFormed(p)
    requires ROf(t.terms, Favorable(t.terms, p)) < if t.partialDone then c.runnerTargetR else c.partialAtR
    requires ROf(t.terms, t.stop) < c.runnerTargetR && (!t.partialDone ==> t.stop == t.terms.initialStop)
    requires WindowBelow(c, t)
    ensures var b := TrailBar(c, t, p); var h := HardExitDue(c, b.trade, p);
            && RShares(b.events) + RShares(h.events) + Cap(c, h.trade) <= Cap(c, t)
            && BelowTarget(c, h.trade)
  {
    hide ROf, PartialSize, WindowBelow, TrailBar;
    var b := TrailBar(c, t, p);
    TrailKeeps(c, t, p);
    TrailBelow(c, t, p);
    TouchR(t.terms, t.stop, p);
    HardExitKeeps(c, b.trade, p);
    HardExitCap(c, b.trade, p);
  }

  /** One closed bar: what it books plus what is left never exceeds what could be had before it. */
  lemma BarCap(c: Rules, t: Trade, p: Price)
    requires BelowTarget(c, t) && !t.closed && p.barClosed && WellFormed(p)
    ensures var o := Update(c, t, p, t.stop, t.partialDone);
            RShares(o.events) + Cap(c, o.trade) <= Cap(c, t) && BelowTarget(c, o.trade)
  {
    hide Sound, ROf, Touches, Level, TakePartial, Cap, PartialSize, WindowBelow;
    var k := t.terms;
    var o := Update(c, t, p, t.stop, t.partialDone);
    UpdateKeeps(c, t, p, t.stop, t.partialDone);
    UpdateFrame(c, t, p, t.stop, t.partialDone);
    TouchR(k, t.stop, p);
    StopR(k);
    if Touches(k.dir, t.stop, p, false) {
      StopBarCap(c, t, p);
    } else {
      var a := TakePartial(c, t, p);
      TakePartialKeeps(c, t, p);
      TakePartialCap(c, t, p);
      if !a.trade.closed {
        var level := Level(k, c.runnerTargetR);
        TouchR(k, level, p);
        LevelR(k, c.runnerTargetR);
        if a.trade.partialDone && Touches(k.dir, level, p, true) {
          var x := ExitAll(a.trade, RunnerExit, p.ts, level);
          RSharesOne(x.events[0]);
          RSharesAppend(a.events, x.events);
          assert x.events[0].r == c.runnerTargetR;
          CapOfPhase(c, a.trade);
          CapOfPhase(c, x.trade);
        } else {
          TouchR(k, Level(k, c.partialAtR), p);
          LevelR(k, c.partialAtR);
          PartialWaits(c, t, p);
          TailCap(c, a.trade, p);
          var b := TrailBar(c, a.trade, p);
          var h := HardExitDue(c, b.trade, p);
          RSharesAppend(a.events, b.events);
          RSharesAppend(a.events + b.events, h.events);
        }
      }
    }
  }

  /** Cursors and excursions do not matter. */
  lemma ArriveCap(c: Rules, t: Trade, p: Price)
    requires BelowTarget(c, t)
    ensures var a := Arrive(t, p);
            && Cap(c, a) == Cap(c, t) && BelowTarget(c, a) && a.changes == []
            && a.closed == t.closed && a.stop == t.stop && a.partialDone == t.partialDone
  {
    hide ROf, PartialSize;
  }

  lemma StepCap(c: Rules, t: Trade, p: Price)
    requires BelowTarget(c, t) && p.barClosed && WellFormed(p)
    ensures var o := Step(c, t, p); RShares(o.events) + Cap(c, o.trade) <= Cap(c, t) && BelowTarget(c, o.trade)
  {
    ArriveCap(c, t, p);
    assert t.changes == [];
    hide Update, RShares, Cap, Arrive, BelowTarget;
    if Applies(t, p) {
      assert Judged(t, p, t.changes) == (t.stop, t.partialDone);
      BarCap(c, Arrive(t, p), p);
      var u := Update(c, Arrive(t, p), p, t.stop, t.partialDone).trade;
      UpdateFrame(c, Arrive(t, p), p, t.stop, t.partialDone);
      assert After(Logged(t, u, p.ts), p.ts) == [] by {
        assert [Change(p.ts, t.stop, t.partialDone)][1..] == [];
      }
    }
  }

  lemma {:induction false} RunCap(c: Rules, t: Trade, ps: seq<Price>)
    requires BelowTarget(c, t) && BarsOnly(ps)
    ensures RShares(Run(c, t, ps).events) + Cap(c, Run(c, t, ps).trade) <= Cap(c, t)
    ensures BelowTarget(c, Run(c, t, ps).trade)
    decreases |ps|
  {
    hide Step, BelowTarget, Cap;
    if ps != [] {
      var a := Step(c, t, ps[0]);
      StepCap(c, t, ps[0]);
      RunCap(c, a.trade, ps[1..]);
      RSharesAppend(a.events, Run(c, a.trade, ps[1..]).events);
    }
  }

  lemma CapOfOpened(c: Rules, k: Terms, entryBar: Option<int>)
    ensures var n := PartialSize(c, k.qty) as real;
            Cap(c, Opened(k, entryBar)) == n * c.partialAtR + (k.qty as real - n) * c.runnerTargetR
  {
    hide PartialSize;
  }

  lemma BelowTargetIsSound(c: Rules, t: Trade)
    requires BelowTarget(c, t)
    ensures Sound(c, t)
  {
  }

  lemma CapNotNegative(c: Rules, t: Trade)
    requires Sound(c, t)
    ensures Cap(c, t) >= 0.0
  {
    hide PartialSize;
    PartialSizeWithin(c, t.terms.qty);
    if !t.closed {
      SplitAbove(t.terms.qty as real, PartialSize(c, t.terms.qty) as real, 0.0, c.partialAtR, c.runnerTargetR);
    }
  }

  /** Over closed bars a trade never books more than the partial at its level and the rest at the runner target. */
  lemma GrossRIsCapped(c: Rules, k: Terms, entryBar: Option<int>, ps: seq<Price>)
    requires k.qty >= 1 && BarsOnly(ps)
    ensures var n := PartialSize(c, k.qty) as real;
            RShares(Run(c, Opened(k, entryBar), ps).events)
            <= n * c.partialAtR + (k.qty as real - n) * c.runnerTargetR
  {
    StopR(k);
    assert BelowTarget(c, Opened(k, entryBar));
    CapOfOpened(c, k, entryBar);
    hide Step, Run, RShares, ROf, PartialSize, BelowTarget, BarsOnly, Cap;
    RunCap(c, Opened(k, entryBar), ps);
    BelowTargetIsSound(c, Run(c, Opened(k, entryBar), ps).trade);
    CapNotNegative(c, Run(c, Opened(k, entryBar), ps).trade);
  }
}
