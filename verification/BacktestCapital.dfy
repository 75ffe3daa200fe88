/** What a closed trade's record says in rupees, and what the days of a backtest make of the capital. */
module BacktestCapital {
  import opened Common
  import opened Positions
  import opened Validator
  import opened PaperBrokers
  import opened Slippage
  import Costs
  import BrokerRuns

  /** What the legs traded for at their own prices. */
  function Turnover(legs: seq<Leg>): real {
    if legs == [] then 0.0 else Costs.Times(legs[0].price, legs[0].qty as real) + Turnover(legs[1..])
  }

  /** A price after slippage: `slip` of it worse for a buyer, or for a seller. */
  function Bought(price: real, slip: real): real { Costs.Times(1.0 + slip, price) }

  function Sold(price: real, slip: real): real { Costs.Times(1.0 - slip, price) }

  /** The entry and each exit as orders, after slippage. */
  function EntryOrder(t: OpenTrade, slip: real): real {
    var value := Costs.Times(t.fill, t.plan.qty as real);
    if t.plan.signal.dir.Long? then Bought(value, slip) else Sold(value, slip)
  }

  function ExitOrders(d: Direction, legs: seq<Leg>, slip: real): seq<real> {
    if legs == [] then [] else
    var value := Costs.Times(legs[0].price, legs[0].qty as real);
    [if d.Long? then Sold(value, slip) else Bought(value, slip)] + ExitOrders(d, legs[1..], slip)
  }

  /** Rupees between what was bought and what was sold, at the raw prices. */
  function RawProfit(t: OpenTrade): real {
    var entry, exits := Costs.Times(t.fill, t.plan.qty as real), Turnover(t.legs);
    if t.plan.signal.dir.Long? then exits - entry else entry - exits
  }

  /** Slippage takes its rate of everything traded. */
  function SlippageCost(t: OpenTrade, slip: real): real {
    Costs.Times(slip, Turnover(t.legs) + Costs.Times(t.fill, t.plan.qty as real))
  }

  /** The charges on the orders after slippage, buys and sells on their own side. */
  function SlippedCharges(t: OpenTrade, slip: real, costs: Costs.Config): real {
    var entry, exits := [EntryOrder(t, slip)], ExitOrders(t.plan.signal.dir, t.legs, slip);
    if t.plan.signal.dir.Long? then Costs.Charges(entry, exits, costs) else Costs.Charges(exits, entry, costs)
  }

  // ---------------------------------------------------------------- one record

  lemma LegValue(d: Direction, slip: real, l: Leg)
    ensures var value := Costs.Times(l.price, l.qty as real);
            Value(d, slip, l) == if d.Long? then Sold(value, slip) else Bought(value, slip)
  {
    var p, q := l.price, l.qty as real;
    if d.Long? {
      assert p * (1.0 - slip) * q == (1.0 - slip) * (p * q);
    } else {
      assert 1.0 - Sign(d) * slip == 1.0 + slip;
      assert p * (1.0 + slip) * q == (1.0 + slip) * (p * q);
    }
  }

  lemma {:induction false} ExitOrdersAre(d: Direction, slip: real, legs: seq<Leg>)
    ensures Values(d, slip, legs) == ExitOrders(d, legs, slip)
  {
    hide Value, Bought, Sold, Costs.Times;
    if legs != [] {
      LegValue(d, slip, legs[0]);
      ExitOrdersAre(d, slip, legs[1..]);
    }
  }

  lemma EntryOrderIs(t: OpenTrade, slip: real)
    ensures EntryValue(t.plan.signal.dir, t.fill, slip, t.plan.qty) == EntryOrder(t, slip)
    ensures EntryPrice(t.plan.signal.dir, t.fill, slip)
         == if t.plan.signal.dir.Long? then Bought(t.fill, slip) else Sold(t.fill, slip)
  {
    var f, q, d := t.fill, t.plan.qty as real, t.plan.signal.dir;
    if d.Long? {
      assert f * (1.0 + slip) * q == (1.0 + slip) * (f * q);
      assert EntryPrice(d, f, slip) == f * (1.0 + slip);
    } else {
      assert f * (1.0 - slip) * q == (1.0 - slip) * (f * q);
      assert EntryPrice(d, f, slip) == f * (1.0 - slip);
    }
  }

  lemma ScaledSum(a: real, x: real, y: real)
    ensures Costs.Times(a, x + y) == Costs.Times(a, x) + Costs.Times(a, y) && Costs.Times(a, 0.0) == 0.0
  {
  }

  /** The exits together: their turnover, `slip` of it better or worse. */
  lemma {:induction false} ExitsTogether(d: Direction, slip: real, legs: seq<Leg>)
    ensures Costs.Sum(Values(d, slip, legs)) == if d.Long? then Sold(Turnover(legs), slip) else Bought(Turnover(legs), slip)
  {
    hide Value, Costs.Times;
    ScaledSum(1.0 - slip, 0.0, 0.0);
    ScaledSum(1.0 + slip, 0.0, 0.0);
    if legs != [] {
      var l, rest := legs[0], legs[1..];
      LegValue(d, slip, l);
      ExitsTogether(d, slip, rest);
      ScaledSum(1.0 - slip, Costs.Times(l.price, l.qty as real), Turnover(rest));
      ScaledSum(1.0 + slip, Costs.Times(l.price, l.qty as real), Turnover(rest));
      assert Values(d, slip, legs) == [Value(d, slip, l)] + Values(d, slip, rest);
      assert ([Value(d, slip, l)] + Values(d, slip, rest))[1..] == Values(d, slip, rest);
    }
  }

  lemma RawLeg(d: Direction, fill: real, l: Leg)
    ensures LegProfit(d, fill, 0.0, l)
         == Sign(d) * (Costs.Times(l.price, l.qty as real) - Costs.Times(fill, l.qty as real))
  {
    var p, q := l.price, l.qty as real;
    assert p * (1.0 - Sign(d) * 0.0) == p;
    assert (p - fill) * q == p * q - fill * q;
    assert Sign(d) * (p - fill) * q == Sign(d) * ((p - fill) * q);
  }

  lemma Regroup(s: real, a: real, b: real, c: real, d: real)
    ensures s * (a - b) + s * (c - d) == s * ((a + c) - (b + d))
  {
  }

  lemma {:induction false} RawProfitOf(d: Direction, fill: real, legs: seq<Leg>)
    ensures Profit(d, fill, 0.0, legs) == Sign(d) * (Turnover(legs) - Costs.Times(fill, LegQty(legs) as real))
  {
    hide LegProfit, Costs.Times;
    FillSum(fill, 0, 0);
    if legs != [] {
      RawLeg(d, fill, legs[0]);
      RawProfitOf(d, fill, legs[1..]);
      FillSum(fill, legs[0].qty, LegQty(legs[1..]));
      Regroup(Sign(d), Costs.Times(legs[0].price, legs[0].qty as real), Costs.Times(fill, legs[0].qty as real),
              Turnover(legs[1..]), Costs.Times(fill, LegQty(legs[1..]) as real));
    }
  }

  lemma NoSlipSum(x: real)
    ensures Bought(x, 0.0) == x && Sold(x, 0.0) == x
  {
  }

  lemma ProfitIs(t: OpenTrade, slip: real)
    requires LegQty(t.legs) == t.plan.qty
    ensures var d := t.plan.signal.dir;
            && Profit(d, t.fill, 0.0, t.legs) == RawProfit(t)
            && Profit(d, EntryPrice(d, t.fill, slip), slip, t.legs) == RawProfit(t) - SlippageCost(t, slip)
  {
    var d := t.plan.signal.dir;
    RawProfitOf(d, t.fill, t.legs);
    ProfitSlip(d, t.fill, slip, t.legs);
    ExitsTogether(d, 0.0, t.legs);
    ScaledSum(slip, Turnover(t.legs), Costs.Times(t.fill, t.plan.qty as real));
    NoSlipSum(Turnover(t.legs));
    hide Profit, Values, Costs.Sum, Costs.Times, Turnover, EntryPrice, LegQty, Bought, Sold;
  }

  lemma ChargesAre(t: OpenTrade, slip: real, costs: Costs.Config)
    ensures ChargesWith(t, slip, costs) == SlippedCharges(t, slip, costs)
  {
    EntryOrderIs(t, slip);
    ExitOrdersAre(t.plan.signal.dir, slip, t.legs);
    SidesOf(t, slip, costs);
    hide EntryValue, Values, Costs.Charges, EntryOrder, ExitOrders, ChargesWith;
  }

  lemma Undivide(x: real, d: real)
    requires d > 0.0
    ensures Costs.Times(x / d, d) == x
  {
  }

  lemma UnitIs(p: Plan)
    ensures Unit(p) == Costs.Times(p.qty as real, Risk(p.signal))
  {
  }

  /** The record of a complete trade, in rupees: net is the raw profit less slippage less the charges on the slipped orders;
      each R figure is its rupees over the position's risk; entry and exit price are the slipped turnovers a share; time and
      reason are those of the leg that completed it. */
  lemma RecordIs(t: OpenTrade, b: Pricing)
    requires t.plan.qty >= 1 && t.legs != [] && LegQty(t.legs) == t.plan.qty
    ensures var r := Closed(t, b);
            var risk := Costs.Times(t.plan.qty as real, Risk(t.plan.signal));
            var last := t.legs[|t.legs| - 1];
            && risk > 0.0
            && r.netRupees == RawProfit(t) - SlippageCost(t, b.slip) - SlippedCharges(t, b.slip, b.costs)
            && Costs.Times(r.netR, risk) == r.netRupees
            && Costs.Times(r.grossR, risk) == RawProfit(t)
            && Costs.Times(r.netRNoSlippage, risk) == RawProfit(t) - SlippedCharges(t, 0.0, b.costs)
            && r.slippageRupees == SlippageCost(t, b.slip)
            && Costs.Times(r.exitPrice, t.plan.qty as real)
               == (if t.plan.signal.dir.Long? then Sold(Turnover(t.legs), b.slip) else Bought(Turnover(t.legs), b.slip))
            && r.entryPrice == (if t.plan.signal.dir.Long? then Bought(t.fill, b.slip) else Sold(t.fill, b.slip))
            && r.exitTs == last.ts && r.exitReason == last.kind && r.entryTs == t.entryTs && r.legs == t.legs
            && r.signalId == t.signalId && r.plan == t.plan && r.mfe == t.mfe && r.mae == t.mae
  {
    UnitPositive(t.plan);
    ProfitIs(t, b.slip);
    ChargesAre(t, b.slip, b.costs);
    ChargesAre(t, 0.0, b.costs);
    ExitsTogether(t.plan.signal.dir, b.slip, t.legs);
    EntryOrderIs(t, b.slip);
    hide Unit, Profit, ChargesWith, Values, Costs.Sum, EntryPrice, RawProfit, SlippageCost, SlippedCharges, Costs.Times,
         LegQty, Risk, Turnover, Bought, Sold;
    var r, unit := Closed(t, b), Unit(t.plan);
    assert unit == Costs.Times(t.plan.qty as real, Risk(t.plan.signal)) by { UnitIs(t.plan); }
    Undivide(r.netRupees, unit);
    Undivide(RawProfit(t), unit);
    Undivide(RawProfit(t) - SlippedCharges(t, 0.0, b.costs), unit);
    Undivide(Costs.Sum(Values(t.plan.signal.dir, b.slip, t.legs)), t.plan.qty as real);
  }

  /** An event closes its trade exactly when its shares complete the quantity; the record then ends with it. */
  lemma CompletedBy(t: OpenTrade, e: Event, b: Pricing)
    requires t.plan.qty >= 1
    ensures var after := Fed(Standing(t), e, b);
            && (after.Settled? <==> e.qty != 0 && LegQty(t.legs) + e.qty >= t.plan.qty)
            && (after.Settled? ==>
                  && after.record.exitTs == e.ts && after.record.exitReason == FromEvent(e.kind)
                  && after.record.legs == t.legs + [Leg(FromEvent(e.kind), e.ts, e.price, e.qty)])
  {
    BrokerRuns.LegQtyAppend(t.legs, [LegOf(e)]);
    BrokerRuns.LegQtyOne(LegOf(e));
    hide LegQty, Unit, Profit, ChargesWith, Values, Costs.Sum;
  }

  /** A forced close completes the quantity, at its own time and reason. */
  lemma CompletedByForce(t: OpenTrade, ts: int, price: real, reason: string, b: Pricing)
    requires t.plan.qty >= 1
    ensures var r := ForcedClose(t, ts, price, reason, b);
            && r.exitTs == ts && r.exitReason == Forced(reason) && LegQty(r.legs) == t.plan.qty
            && r.legs == t.legs + [Leg(Forced(reason), ts, price, t.plan.qty - LegQty(t.legs))]
  {
    var l := Leg(Forced(reason), ts, price, t.plan.qty - LegQty(t.legs));
    BrokerRuns.LegQtyAppend(t.legs, [l]);
    BrokerRuns.LegQtyOne(l);
    hide LegQty, Unit, Profit, ChargesWith, Values, Costs.Sum;
  }

  // ---------------------------------------------------------------- the capital over the days

  function NetOf(rs: seq<Record>): real
    decreases |rs|
  {
    if rs == [] then 0.0 else NetOf(rs[..|rs| - 1]) + rs[|rs| - 1].netRupees
  }

  method SumNet(rs: seq<Record>) returns (net: real)
    ensures net == NetOf(rs)
  {
    net := 0.0;
    var i := 0;
    while i < |rs|
      invariant 0 <= i <= |rs| && net == NetOf(rs[..i])
    {
      assert rs[..i + 1][..i] == rs[..i];
      net := net + rs[i].netRupees;
      i := i + 1;
    }
    assert rs[..i] == rs;
  }

  /** The capital each day starts from, and the one the backtest ends with. */
  method RunCapital(initial: real, days: seq<seq<Record>>) returns (starts: seq<real>, capital: real)
    ensures |starts| == |days|
    ensures forall i :: 0 <= i < |days| ==>
              starts[i] == (if i == 0 then initial else starts[i - 1] + NetOf(days[i - 1]))
    ensures capital == if days == [] then initial else starts[|days| - 1] + NetOf(days[|days| - 1])
  {
    capital, starts := initial, [];
    var i := 0;
    while i < |days|
      invariant 0 <= i <= |days| && |starts| == i
      invariant forall k :: 0 <= k < i ==> starts[k] == (if k == 0 then initial else starts[k - 1] + NetOf(days[k - 1]))
      invariant capital == if i == 0 then initial else starts[i - 1] + NetOf(days[i - 1])
    {
      starts := starts + [capital];
      var net := SumNet(days[i]);
      capital := capital + net;
      i := i + 1;
    }
  }

  /** What a complete trade made after slippage and charges. */
  function Proceeds(t: OpenTrade, b: Pricing): real {
    RawProfit(t) - SlippageCost(t, b.slip) - SlippedCharges(t, b.slip, b.costs)
  }

  function ProceedsOf(ts: seq<OpenTrade>, b: Pricing): real
    decreases |ts|
  {
    if ts == [] then 0.0 else ProceedsOf(ts[..|ts| - 1], b) + Proceeds(ts[|ts| - 1], b)
  }

  ghost predicate RecordsOf(rs: seq<Record>, ts: seq<OpenTrade>, b: Pricing) {
    |rs| == |ts| && forall i :: 0 <= i < |ts| ==>
      ts[i].plan.qty >= 1 && ts[i].legs != [] && LegQty(ts[i].legs) == ts[i].plan.qty && rs[i] == Closed(ts[i], b)
  }

  /** A day moves the capital by what its trades made: bought and sold at their own prices, less slippage and charges. */
  lemma {:induction false} DayMakes(rs: seq<Record>, ts: seq<OpenTrade>, b: Pricing)
    requires RecordsOf(rs, ts, b)
    ensures NetOf(rs) == ProceedsOf(ts, b)
    decreases |ts|
  {
    if ts != [] {
      var n := |ts| - 1;
      var t, r := ts[n], rs[n];
      assert RecordsOf(rs[..n], ts[..n], b) by {
        hide Closed, LegQty;
      }
      DayMakes(rs[..n], ts[..n], b);
      RecordIs(t, b);
      hide Closed, LegQty, RawProfit, SlippageCost, SlippedCharges, Costs.Times, Turnover, Bought, Sold, Risk;
    }
  }
}
