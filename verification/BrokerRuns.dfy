/**
 The paper broker beside the manager: it holds a trade exactly as long, its legs are the manager's, and its
 profit is the booked R less what the fill gave away.  With the size from the validator this is the loss cap.
 */
module BrokerRuns {
  import opened Common
  import opened Positions
  import opened Lifecycle
  import opened Bounds
  import opened Floors
  import opened Validator
  import opened PaperBrokers
  import Costs
  import Limits

  // ---------------------------------------------------------------- events as legs

  function LegsOf(es: seq<Event>): seq<Leg> {
    if es == [] then [] else (if es[0].qty == 0 then [] else [LegOf(es[0])]) + LegsOf(es[1..])
  }

  /** Events whose R is that of their price. */
  ghost predicate Priced(k: Positions.Terms, es: seq<Event>) {
    forall i :: 0 <= i < |es| ==> es[i].qty >= 0 && (es[i].qty != 0 ==> es[i].r == ROf(k, es[i].price))
  }

  /** Events that report the R of their price; a stop move sells nothing. */
  ghost predicate InR(k: Positions.Terms, es: seq<Event>) {
    forall e :: e in es ==> if e.kind.TrailUpdate? then e.qty == 0 else e.r == ROf(k, e.price)
  }

  lemma InRAppend(k: Positions.Terms, a: seq<Event>, b: seq<Event>)
    ensures InR(k, a + b) <==> InR(k, a) && InR(k, b)
  {
    hide ROf;
    assert forall e :: e in a + b <==> e in a || e in b;
  }

  lemma NoneInR(k: Positions.Terms)
    ensures InR(k, [])
  {
  }

  lemma ExitInR(t: Trade, kind: Kind, ts: int, price: real)
    requires !kind.TrailUpdate?
    ensures InR(t.terms, ExitAll(t, kind, ts, price).events)
  {
    hide ROf;
  }

  lemma TakePartialInR(c: Rules, t: Trade, p: Price)
    ensures InR(t.terms, TakePartial(c, t, p).events) && TakePartial(c, t, p).trade.terms == t.terms
  {
    hide Touches, Level, ROf, PartialSize, Tighter;
  }

  lemma TrailInR(c: Rules, t: Trade, p: Price)
    ensures InR(t.terms, TrailBar(c, t, p).events) && TrailBar(c, t, p).trade.terms == t.terms
  {
    hide ROf, Tighter, TrailCandidate;
  }

  lemma UpdateR(c: Rules, t: Trade, p: Price, stop: real, partial: bool)
    ensures InR(t.terms, Update(c, t, p, stop, partial).events)
  {
    hide Touches, Level, StopFill, TakePartial, TrailBar, ExitAll, InR;
    ExitInR(t, StopHit, p.ts, StopFill(t.terms.dir, stop, p.Open()));
    var a := TakePartial(c, t, p);
    TakePartialInR(c, t, p);
    var x := ExitAll(a.trade, RunnerExit, p.ts, Level(t.terms, c.runnerTargetR));
    ExitInR(a.trade, RunnerExit, p.ts, Level(t.terms, c.runnerTargetR));
    InRAppend(t.terms, a.events, x.events);
    var b := TrailBar(c, a.trade, p);
    TrailInR(c, a.trade, p);
    InRAppend(t.terms, a.events, b.events);
    ExitInR(b.trade, HardExit, p.ts, p.close);
    var h := HardExitDue(c, b.trade, p);
    assert InR(t.terms, h.events) by {
      assert InR(t.terms, []) by { NoneInR(t.terms); }
    }
    InRAppend(t.terms, a.events + b.events, h.events);
  }

  lemma {:induction false} LegalQty(ph: Phase, qty: int, es: seq<Event>)
    requires Scan(ph, qty, es) != Illegal && qty >= 1
    ensures forall i :: 0 <= i < |es| ==> es[i].qty >= 0
    decreases |es|
  {
    if es != [] {
      IllegalStays(qty, es[1..]);
      LegalQty(Advance(ph, qty, es[0]), qty, es[1..]);
    }
  }

  lemma StepPriced(c: Rules, t: Trade, p: Price)
    requires Sound(c, t)
    ensures Priced(t.terms, Step(c, t, p).events)
  {
    StepIsSound(c, t, p);
    var es := Step(c, t, p).events;
    LegalQty(PhaseOf(t), t.terms.qty, es);
    if Applies(t, p) {
      var j := Judged(t, p, t.changes);
      UpdateR(c, Arrive(t, p), p, j.0, j.1);
      hide Update, Judged, ROf, Scan;
    }
  }

  lemma {:induction false} RunPriced(c: Rules, t: Trade, ps: seq<Price>)
    requires Sound(c, t)
    ensures Priced(t.terms, Run(c, t, ps).events)
    decreases |ps|
  {
    hide Step, Sound, ROf;
    if ps != [] {
      StepIsSound(c, t, ps[0]);
      StepPriced(c, t, ps[0]);
      RunPriced(c, Step(c, t, ps[0]).trade, ps[1..]);
    }
  }

  lemma {:induction false} LegQtyAppend(a: seq<Leg>, b: seq<Leg>)
    ensures LegQty(a + b) == LegQty(a) + LegQty(b)
  {
    if a == [] {
      assert a + b == b;
    } else {
      assert (a + b)[1..] == a[1..] + b;
      LegQtyAppend(a[1..], b);
    }
  }

  lemma {:induction false} NothingSold(es: seq<Event>)
    requires forall i :: 0 <= i < |es| ==> es[i].qty >= 0
    ensures Sold(es) >= 0 && (Sold(es) == 0 ==> LegsOf(es) == [])
  {
    if es != [] {
      NothingSold(es[1..]);
    }
  }

  lemma {:induction false} SettledStays(s: Standing, es: seq<Event>, b: Pricing)
    requires s.Settled?
    ensures FedAll(s, es, b) == s
    decreases |es|
  {
    if es != [] {
      SettledStays(s, es[1..], b);
    }
  }

  lemma LegQtyOne(l: Leg)
    ensures LegQty([l]) == l.qty
  {
    assert [l][1..] == [];
  }

  lemma LegsCons(es: seq<Event>)
    requires es != []
    ensures LegsOf(es) == (if es[0].qty == 0 then [] else [LegOf(es[0])]) + LegsOf(es[1..])
    ensures Sold(es) == es[0].qty + Sold(es[1..])
  {
  }

  lemma FedCons(t: OpenTrade, es: seq<Event>, b: Pricing)
    requires t.plan.qty >= 1 && es != []
    ensures var u := t.(legs := t.legs + [LegOf(es[0])]);
            FedAll(Standing(t), es, b)
            == FedAll(if es[0].qty == 0 then Standing(t)
                      else if LegQty(u.legs) >= t.plan.qty then Settled(Closed(u, b)) else Standing(u), es[1..], b)
  {
    hide Closed, LegQty;
  }

  lemma NothingFed(t: OpenTrade, b: Pricing)
    requires t.plan.qty >= 1
    ensures LegsOf([]) == [] && Sold([]) == 0 && FedAll(Standing(t), [], b) == Standing(t) && t.legs + [] == t.legs
  {
  }

  /** Feeding a list that sells no more than the quantity: all its legs are taken, and the trade closes when they
      complete the quantity. */
  lemma {:induction false} FedAllIs(t: OpenTrade, es: seq<Event>, b: Pricing)
    requires t.plan.qty >= 1 && LegQty(t.legs) < t.plan.qty && LegQty(t.legs) + Sold(es) <= t.plan.qty
    requires forall i :: 0 <= i < |es| ==> es[i].qty >= 0
    ensures var t' := t.(legs := t.legs + LegsOf(es));
            && (LegQty(t'.legs) == t.plan.qty ==> t'.legs != [])
            && LegQty(t'.legs) == LegQty(t.legs) + Sold(es)
            && FedAll(Standing(t), es, b) == if LegQty(t'.legs) == t.plan.qty then Settled(Closed(t', b)) else Standing(t')
    decreases |es|
  {
    hide Closed, LegsOf, Sold, LegQty, Fed;
    if es == [] {
      assert t.legs + LegsOf(es) == t.legs && Sold(es) == 0 && FedAll(Standing(t), es, b) == Standing(t) by {
        NothingFed(t, b);
      }
    } else {
      var e, rest := es[0], es[1..];
      NothingSold(rest);
      LegsCons(es);
      FedCons(t, es, b);
      hide FedAll;
      if e.qty == 0 {
        FedAllIs(t, rest, b);
        assert [] + LegsOf(rest) == LegsOf(rest);
      } else {
        var u := t.(legs := t.legs + [LegOf(e)]);
        LegQtyOne(LegOf(e));
        LegQtyAppend(t.legs, [LegOf(e)]);
        assert t.legs + ([LegOf(e)] + LegsOf(rest)) == u.legs + LegsOf(rest);
        if LegQty(u.legs) == t.plan.qty {
          assert LegsOf(rest) == [] && u.legs + [] == u.legs;
          SettledStays(Settled(Closed(u, b)), rest, b);
        } else {
          FedAllIs(u, rest, b);
        }
      }
    }
  }

  // ---------------------------------------------------------------- one trade through both

  ghost function Entered(p: Plan, signalId: int, entryTs: int, fill: real): OpenTrade {
    OpenTrade(p, signalId, entryTs, fill, [], 0.0, 0.0)
  }

  /** The broker holds the trade exactly while the manager does, its legs are the manager's exits, and on the close they
      add up to the quantity. */
  lemma BrokerFollowsManager(c: Rules, p: Plan, id: int, bar: Option<int>, ps: seq<Price>, t: OpenTrade, b: Pricing)
    requires p.qty >= 1 && t.plan == p && t.legs == []
    ensures var o := Run(c, Opened(TermsOf(p, id), bar), ps);
            var s := FedAll(Standing(t), o.events, b);
            && (s.Settled? <==> o.trade.closed)
            && (s.Settled? ==> s.record.legs == LegsOf(o.events))
            && (s.Standing? ==> s.trade == t.(legs := LegsOf(o.events)))
            && LegQty(LegsOf(o.events)) == p.qty - o.trade.remaining
            && (s.Settled? ==> LegsOf(o.events) != [] && LegQty(s.record.legs) == p.qty
                               && s.record == Closed(t.(legs := LegsOf(o.events)), b))
  {
    var k := TermsOf(p, id);
    var o := Run(c, Opened(k, bar), ps);
    SharesConserved(c, k, bar, ps);
    RunIsSound(c, Opened(k, bar), ps);
    RunPriced(c, Opened(k, bar), ps);
    hide Run, Step, Sound, ROf;
    FedAllIs(t, o.events, b);
    assert t.legs + LegsOf(o.events) == LegsOf(o.events);
  }

  lemma ClosedReports(t: OpenTrade, b: Pricing)
    requires t.plan.qty >= 1 && t.legs != []
    ensures Unit(t.plan) > 0.0 && Closed(t, b).legs == t.legs
    ensures Closed(t, b).grossR == Profit(t.plan.signal.dir, t.fill, 0.0, t.legs) / Unit(t.plan)
  {
    UnitPositive(t.plan);
    hide Unit, Profit, ChargesWith, Values;
  }

  /** A forced close sells exactly what the events left. */
  lemma ForcedCloseCompletes(c: Rules, p: Plan, id: int, bar: Option<int>, ps: seq<Price>, t: OpenTrade, ts: int, price: real,
                             reason: string, b: Pricing)
    requires p.qty >= 1 && t.plan == p && t.legs == [] && !Run(c, Opened(TermsOf(p, id), bar), ps).trade.closed
    ensures var o := Run(c, Opened(TermsOf(p, id), bar), ps);
            var s := FedAll(Standing(t), o.events, b);
            && s.Standing? && s.trade.plan.qty >= 1
            && ForcedClose(s.trade, ts, price, reason, b).legs
               == LegsOf(o.events) + [Leg(Forced(reason), ts, price, o.trade.remaining)]
            && LegQty(ForcedClose(s.trade, ts, price, reason, b).legs) == p.qty
  {
    hide Run, FedAll, LegsOf, Profit, ChargesWith, Values, LegQty, Unit;
    BrokerFollowsManager(c, p, id, bar, ps, t, b);
    var o := Run(c, Opened(TermsOf(p, id), bar), ps);
    var last := Leg(Forced(reason), ts, price, o.trade.remaining);
    LegQtyAppend(LegsOf(o.events), [last]);
    LegQtyOne(last);
    hide Closed;
    ClosedReports(t.(legs := LegsOf(o.events) + [last]), b);
  }

  // ---------------------------------------------------------------- profit as R

  /** What the fill gave away against the entry, per share. */
  ghost function Given(k: Positions.Terms, fill: real): real { Sign(k.dir) * (fill - k.entry) }

  lemma OneLegProfit(k: Positions.Terms, fill: real, e: Event)
    requires e.r == ROf(k, e.price)
    ensures LegProfit(k.dir, fill, 0.0, LegOf(e))
         == Costs.Times(Rps(k), e.r * e.qty as real) - Costs.Times(Given(k, fill), e.qty as real)
  {
    var s, q, d := Sign(k.dir), e.qty as real, e.price - k.entry;
    assert e.r * Rps(k) == s * d;
    assert s * (e.price - fill) == s * d - s * (fill - k.entry);
    assert Rps(k) * (e.r * q) == s * d * q;
    assert e.price * (1.0 - s * 0.0) == e.price;
  }

  lemma Distribute(a: real, x: real, y: real)
    ensures Costs.Times(a, x + y) == Costs.Times(a, x) + Costs.Times(a, y)
    ensures Costs.Times(a, 0.0) == 0.0
  {
  }

  /** What the legs bring over the fill is the booked R in rupees, less what the fill gave away on the shares sold. */
  lemma {:induction false} ProfitIsBookedR(k: Positions.Terms, fill: real, es: seq<Event>)
    requires Priced(k, es)
    ensures Profit(k.dir, fill, 0.0, LegsOf(es))
         == Costs.Times(Rps(k), RShares(es)) - Costs.Times(Given(k, fill), Sold(es) as real)
  {
    hide ROf, Rps, Costs.Times, Given, LegProfit;
    var g := Given(k, fill);
    Distribute(g, 0.0, 0.0);
    Distribute(Rps(k), 0.0, 0.0);
    if es != [] {
      var e, rest := es[0], es[1..];
      ProfitIsBookedR(k, fill, rest);
      var x := e.r * e.qty as real;
      assert e.qty == 0 ==> x == 0.0;
      assert RShares(es) == x + RShares(rest);
      assert Sold(es) as real == e.qty as real + Sold(rest) as real;
      hide RShares, Sold;
      Distribute(g, e.qty as real, Sold(rest) as real);
      Distribute(Rps(k), x, RShares(rest));
      if e.qty != 0 {
        OneLegProfit(k, fill, e);
        var l := LegOf(e);
        assert LegsOf(es) == [l] + LegsOf(rest) && LegsOf(es)[1..] == LegsOf(rest);
      } else {
        assert LegsOf(es) == LegsOf(rest);
      }
    }
  }

  lemma RatioAlgebra(r: real, s: real, g: real, q: real)
    requires r > 0.0 && q > 0.0
    ensures Costs.Times(q, r) != 0.0 && (Costs.Times(r, s) - Costs.Times(g, q)) / Costs.Times(q, r) == s / q - g / r
  {
    var x, y := s / q, g / r;
    assert s == x * q && g == y * r && q * r > 0.0;
    assert r * s == x * (q * r) && g * q == y * (q * r);
    assert (x * (q * r) - y * (q * r)) == (x - y) * (q * r);
    assert (x - y) * (q * r) / (q * r) == x - y;
  }

  lemma TermsAgree(p: Plan, id: int, fill: real)
    ensures Rps(TermsOf(p, id)) == Risk(p.signal)
    ensures Given(TermsOf(p, id), fill) == Sign(p.signal.dir) * (fill - p.signal.entry)
  {
  }

  /** The broker's gross R is the R the engine books, less the part of an R the fill gave away. */
  lemma BrokerGrossR(c: Rules, p: Plan, id: int, bar: Option<int>, ps: seq<Price>, t: OpenTrade, b: Pricing)
    requires p.qty >= 1 && t.plan == p && t.legs == []
    ensures var o := Run(c, Opened(TermsOf(p, id), bar), ps);
            var s := FedAll(Standing(t), o.events, b);
            s.Settled? ==>
              s.record.grossR == RShares(o.events) / p.qty as real - Sign(p.signal.dir) * (t.fill - p.signal.entry) / Risk(p.signal)
  {
    hide Run, Priced, Costs.Times, RShares, Profit, LegsOf, FedAll, ChargesWith, Closed, Sold, Given, Risk, Rps, ROf, LegQty;
    var k := TermsOf(p, id);
    var o := Run(c, Opened(k, bar), ps);
    BrokerFollowsManager(c, p, id, bar, ps, t, b);
    SharesConserved(c, k, bar, ps);
    if o.trade.closed {
      ClosedReports(t.(legs := LegsOf(o.events)), b);
      OpenedSound(c, k, bar);
      RunPriced(c, Opened(k, bar), ps);
      ProfitIsBookedR(k, t.fill, o.events);
      TermsAgree(p, id, t.fill);
      RatioAlgebra(Risk(p.signal), RShares(o.events), Given(k, t.fill), p.qty as real);
    }
  }

  // ---------------------------------------------------------------- the loss cap

  lemma FillGives(s: Signal, c: Config, fill: real, k: Positions.Terms)
    requires Band(s, c).0 <= fill <= Band(s, c).1 && k.dir == s.dir && k.entry == s.entry
    ensures 0.0 <= Given(k, fill) <= c.bandFractionR * Risk(s)
  {
  }

  lemma QuotientWithin(g: real, f: real, r: real)
    requires 0.0 <= g <= f * r && r > 0.0
    ensures 0.0 <= g / r <= f
  {
    assert g / r * r == g;
  }

  /** However a trade of an accepted plan runs, the broker's gross R is within the band of the R the engine books. */
  lemma BrokerWithinBand(c: Rules, v: Config, s: Signal, date: int, capital: real, lev: Option<real>, levels: seq<real>,
                         limits: Limits.RiskState, nextOpen: real, id: int, bar: Option<int>, ps: seq<Price>, t: OpenTrade,
                         b: Pricing)
    requires Validate(s, date, capital, lev, levels, limits, v).Accept?
    requires var p := Validate(s, date, capital, lev, levels, limits, v).plan;
             FillPrice(p, nextOpen) == Some(t.fill) && t.plan == p && t.legs == []
    ensures t.plan.qty >= 1
    ensures var o := Run(c, Opened(TermsOf(t.plan, id), bar), ps);
            var st := FedAll(Standing(t), o.events, b);
            st.Settled? ==> 0.0 <= RShares(o.events) / t.plan.qty as real - st.record.grossR <= v.bandFractionR
  {
    hide Validate, Band, Risk, Run, FedAll, RShares;
    AcceptedFields(s, date, capital, lev, levels, limits, v);
    BrokerGrossR(c, t.plan, id, bar, ps, t, b);
    FillGives(s, v, t.fill, TermsOf(t.plan, id));
    QuotientWithin(Given(TermsOf(t.plan, id), t.fill), v.bandFractionR, Risk(s));
  }

  /** Gross profit so far when nothing opened beyond `floor` R: at worst that on every share, and the band on top. */
  lemma ProfitFloor(rps: real, rShares: real, floor: real, given: real, band: real, sold: int, qty: int)
    requires rps > 0.0 && floor <= -1.0 && 0.0 <= given <= band && 0 <= sold <= qty && rShares >= floor * sold as real
    ensures Costs.Times(rps, rShares) - Costs.Times(given, sold as real) >= -Costs.Times(qty as real, band - floor * rps)
  {
    var n, m := sold as real, qty as real;
    assert rps * rShares >= rps * (floor * n);
    assert given * n <= band * n;
    var w := band - floor * rps;
    assert floor * rps <= 0.0;
    assert n * w <= m * w;
    assert rps * (floor * n) - band * n == -(n * w);
  }

  /** The profit of every leg a run has filled so far, over the fill. */
  ghost function RunProfit(c: Rules, p: Plan, id: int, bar: Option<int>, ps: seq<Price>, fill: real): real {
    Profit(p.signal.dir, fill, 0.0, LegsOf(Run(c, Opened(TermsOf(p, id), bar), ps).events))
  }

  /** The band and `floor` R, per share. */
  function LossPerShare(v: Config, s: Signal, floor: real): real { v.bandFractionR * Risk(s) - floor * Risk(s) }

  lemma RemainingNotNegative(c: Rules, k: Positions.Terms, bar: Option<int>, ps: seq<Price>)
    requires k.qty >= 1
    ensures 0 <= Run(c, Opened(k, bar), ps).trade.remaining <= k.qty
  {
    hide Step;
    OpenedSound(c, k, bar);
    RunIsSound(c, Opened(k, bar), ps);
    var o := Run(c, Opened(k, bar), ps);
    RunPriced(c, Opened(k, bar), ps);
    NothingSold(o.events);
  }

  lemma GapLossOf(c: Rules, v: Config, p: Plan, fill: real, id: int, bar: Option<int>, ps: seq<Price>, floor: real)
    requires p.qty >= 1 && floor <= -1.0 && OpensFrom(TermsOf(p, id), floor, ps)
    requires 0.0 <= Given(TermsOf(p, id), fill) <= v.bandFractionR * Risk(p.signal)
    ensures RunProfit(c, p, id, bar, ps, fill)
            >= -Costs.Times(p.qty as real, LossPerShare(v, p.signal, floor))
  {
    hide Run, RShares, ROf, Costs.Times, Priced, OpensFrom, Profit, Sold, Given, Sound, Rps, Risk, LegsOf;
    var k := TermsOf(p, id);
    var o := Run(c, Opened(k, bar), ps);
    OpenedSound(c, k, bar);
    RunPriced(c, Opened(k, bar), ps);
    ProfitIsBookedR(k, fill, o.events);
    SharesConserved(c, k, bar, ps);
    GrossRHasFloor(c, k, bar, ps, floor);
    TermsAgree(p, id, fill);
    RemainingNotNegative(c, k, bar, ps);
    assert Sold(o.events) == p.qty - o.trade.remaining;
    var rps := Risk(p.signal);
    var band := v.bandFractionR * rps;
    assert LossPerShare(v, p.signal, floor) == band - floor * rps;
    assert RunProfit(c, p, id, bar, ps, fill)
        == Costs.Times(rps, RShares(o.events)) - Costs.Times(Given(k, fill), Sold(o.events) as real);
    ProfitFloor(rps, RShares(o.events), floor, Given(k, fill), band, Sold(o.events), p.qty);
  }

  /** End to end, with gaps: an accepted plan filled in its band, then any bars and ticks none of which opens below
      `floor` R.  At every point what the legs lost is at most that many R and the band, on every share. */
  lemma GapLoss(c: Rules, v: Config, s: Signal, date: int, capital: real, lev: Option<real>, levels: seq<real>,
                limits: Limits.RiskState, nextOpen: real, fill: real, id: int, bar: Option<int>, ps: seq<Price>, floor: real)
    requires Validate(s, date, capital, lev, levels, limits, v).Accept? && floor <= -1.0
    requires var p := Validate(s, date, capital, lev, levels, limits, v).plan;
             FillPrice(p, nextOpen) == Some(fill) && OpensFrom(TermsOf(p, id), floor, ps)
    ensures var p := Validate(s, date, capital, lev, levels, limits, v).plan;
            RunProfit(c, p, id, bar, ps, fill)
            >= -Costs.Times(p.qty as real, LossPerShare(v, s, floor))
  {
    hide Validate, Band, OpensFrom, Risk, Given, Costs.Times, RunProfit, LossPerShare, SizeOf, WorstFill,
         EffectiveLeverage, MarginRequired;
    AcceptedFields(s, date, capital, lev, levels, limits, v);
    var p := Validate(s, date, capital, lev, levels, limits, v).plan;
    FillGives(s, v, fill, TermsOf(p, id));
    GapLossOf(c, v, p, fill, id, bar, ps, floor);
  }

  /** The loss cap: a signal the validator accepts, filled anywhere in its band and managed over any bars and ticks none
      of which opens beyond the initial stop, never loses more than the configured share of the capital, gross. */
  lemma LossCap(c: Rules, v: Config, s: Signal, date: int, capital: real, lev: Option<real>, levels: seq<real>,
                limits: Limits.RiskState, nextOpen: real, fill: real, id: int, bar: Option<int>, ps: seq<Price>)
    requires Validate(s, date, capital, lev, levels, limits, v).Accept?
    requires var p := Validate(s, date, capital, lev, levels, limits, v).plan;
             FillPrice(p, nextOpen) == Some(fill) && OpensFrom(TermsOf(p, id), -1.0, ps)
    ensures var p := Validate(s, date, capital, lev, levels, limits, v).plan;
            RunProfit(c, p, id, bar, ps, fill) >= -(capital * v.maxRiskPct)
  {
    var p := Validate(s, date, capital, lev, levels, limits, v).plan;
    hide Validate, Costs.Times, OpensFrom, RunProfit, FillPrice, WorstFill, Risk;
    GapLoss(c, v, s, date, capital, lev, levels, limits, nextOpen, fill, id, bar, ps, -1.0);
    AcceptedFields(s, date, capital, lev, levels, limits, v);
    AcceptedSize(s, date, capital, lev, levels, limits, v, p.qty);
    WorstRisk(s, v);
    assert v.bandFractionR * Risk(s) - -1.0 * Risk(s) == Abs(WorstFill(s, v) - s.stop);
  }

  /** The profit of a closed trade is what its record reports. */
  lemma RecordReportsProfit(c: Rules, p: Plan, id: int, bar: Option<int>, ps: seq<Price>, t: OpenTrade, b: Pricing)
    requires p.qty >= 1 && t.plan == p && t.legs == []
    ensures var st := FedAll(Standing(t), Run(c, Opened(TermsOf(p, id), bar), ps).events, b);
            st.Settled? ==> st.record.grossR * Unit(p) == RunProfit(c, p, id, bar, ps, t.fill)
  {
    hide Run, FedAll, LegsOf, Profit, Closed, Unit, LegQty;
    BrokerFollowsManager(c, p, id, bar, ps, t, b);
    var o := Run(c, Opened(TermsOf(p, id), bar), ps);
    if o.trade.closed {
      ClosedReports(t.(legs := LegsOf(o.events)), b);
      var x := Profit(p.signal.dir, t.fill, 0.0, LegsOf(o.events));
      assert x / Unit(p) * Unit(p) == x;
    }
  }
}
