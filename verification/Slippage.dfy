/** What slippage costs in the paper broker, and where the broker and the engine price a close alike. */
module Slippage {
  import opened Common
  import opened Positions
  import opened Lifecycle
  import opened Bounds
  import opened Validator
  import opened PaperBrokers
  import opened BrokerRuns
  import Costs
  import Slots

  lemma LegSlip(d: Direction, fill: real, slip: real, l: Leg)
    ensures LegProfit(d, fill, 0.0, l) - LegProfit(d, EntryPrice(d, fill, slip), slip, l)
         == Costs.Times(slip, Value(d, 0.0, l)) + Costs.Times(slip, Costs.Times(fill, l.qty as real))
  {
    var p, q := l.price, l.qty as real;
    if d.Long? {
      assert LegProfit(d, fill, 0.0, l) == p * q - fill * q;
      assert (p * (1.0 - slip) - fill * (1.0 + slip)) * q == p * q - fill * q - slip * (p * q) - slip * (fill * q);
    } else {
      assert LegProfit(d, fill, 0.0, l) == fill * q - p * q;
      assert -1.0 * (p * (1.0 + slip) - fill * (1.0 - slip)) * q == fill * q - p * q - slip * (p * q) - slip * (fill * q);
    }
  }

  lemma RawValue(d: Direction, l: Leg)
    ensures Value(d, 0.0, l) == Costs.Times(l.price, l.qty as real)
  {
  }

  lemma ScaleSum(a: real, x: real, y: real)
    ensures Costs.Times(a, x + y) == Costs.Times(a, x) + Costs.Times(a, y) && Costs.Times(a, 0.0) == 0.0
  {
  }

  lemma FillSum(fill: real, n: int, m: int)
    ensures Costs.Times(fill, (n + m) as real) == Costs.Times(fill, n as real) + Costs.Times(fill, m as real)
    ensures Costs.Times(fill, 0 as real) == 0.0
  {
    assert (n + m) as real == n as real + m as real;
  }

  /** What the first leg adds to the lists over legs. */
  lemma FirstLeg(d: Direction, entry: real, slip: real, legs: seq<Leg>)
    requires legs != []
    ensures Values(d, slip, legs)[1..] == Values(d, slip, legs[1..]) && Values(d, slip, legs)[0] == Value(d, slip, legs[0])
    ensures Costs.Sum(Values(d, slip, legs)) == Value(d, slip, legs[0]) + Costs.Sum(Values(d, slip, legs[1..]))
    ensures Profit(d, entry, slip, legs) == LegProfit(d, entry, slip, legs[0]) + Profit(d, entry, slip, legs[1..])
    ensures LegQty(legs) == legs[0].qty + LegQty(legs[1..])
  {
    hide Value, LegProfit;
  }

  /** Slippage costs its rate on every rupee traded, on the way in and on the way out. */
  lemma {:induction false} ProfitSlip(d: Direction, fill: real, slip: real, legs: seq<Leg>)
    ensures Profit(d, fill, 0.0, legs) - Profit(d, EntryPrice(d, fill, slip), slip, legs)
         == Costs.Times(slip, Costs.Sum(Values(d, 0.0, legs))) + Costs.Times(slip, Costs.Times(fill, LegQty(legs) as real))
  {
    hide LegProfit, Costs.Times, Value, EntryPrice;
    ScaleSum(slip, 0.0, 0.0);
    FillSum(fill, 0, 0);
    if legs != [] {
      hide Profit, Values, LegQty, Costs.Sum;
      var l, rest := legs[0], legs[1..];
      ProfitSlip(d, fill, slip, rest);
      LegSlip(d, fill, slip, l);
      FirstLeg(d, fill, 0.0, legs);
      FirstLeg(d, EntryPrice(d, fill, slip), slip, legs);
      FillSum(fill, l.qty, LegQty(rest));
      ScaleSum(slip, Value(d, 0.0, l), Costs.Sum(Values(d, 0.0, rest)));
      ScaleSum(slip, Costs.Times(fill, l.qty as real), Costs.Times(fill, LegQty(rest) as real));
    }
  }

  /** The slippage a record reports: the rate on the entry turnover and on the exit turnover. */
  lemma SlippageRupees(t: OpenTrade, b: Pricing)
    requires t.plan.qty >= 1 && t.legs != [] && LegQty(t.legs) == t.plan.qty
    ensures var d := t.plan.signal.dir;
            Closed(t, b).slippageRupees
            == Costs.Times(b.slip, Costs.Sum(Values(d, 0.0, t.legs))) + Costs.Times(b.slip, Costs.Times(t.fill, t.plan.qty as real))
  {
    ProfitSlip(t.plan.signal.dir, t.fill, b.slip, t.legs);
    hide Profit, ChargesWith, Values, Costs.Times, LegQty, Costs.Sum, EntryPrice;
  }

  // ---------------------------------------------------------------- slippage never helps

  lemma ValueSlip(d: Direction, slip: real, l: Leg)
    requires slip >= 0.0 && l.price >= 0.0 && l.qty >= 0
    ensures Value(d, 0.0, l) >= 0.0
    ensures d.Long? ==>
              && Value(d, slip, l) <= Value(d, 0.0, l)
              && Value(d, 0.0, l) - Value(d, slip, l) == Costs.Times(slip, Value(d, 0.0, l))
    ensures d.Short? ==> Value(d, slip, l) >= Value(d, 0.0, l)
  {
    var p, q := l.price, l.qty as real;
    RawValue(d, l);
    var v := p * q;
    assert v >= 0.0 && slip * v >= 0.0;
    assert p * (1.0 - slip) * q == v - slip * v && p * (1.0 + slip) * q == v + slip * v;
    assert 1.0 - Sign(d) * slip == if d.Long? then 1.0 - slip else 1.0 + slip;
  }

  ghost predicate Tradable(legs: seq<Leg>) {
    forall i :: 0 <= i < |legs| ==> legs[i].price >= 0.0 && legs[i].qty >= 0
  }

  lemma Consed(a: seq<real>, b: seq<real>)
    requires a != [] && b != []
    ensures Costs.NoDearer(a, b) <==> a[0] <= b[0] && Costs.NoDearer(a[1..], b[1..])
  {
    if Costs.NoDearer(a[1..], b[1..]) && a[0] <= b[0] {
      forall i | 0 <= i < |a| ensures a[i] <= b[i] {
        if i > 0 {
          assert a[1..][i - 1] <= b[1..][i - 1];
        }
      }
    }
  }

  lemma {:induction false} ValuesSlip(d: Direction, slip: real, legs: seq<Leg>)
    requires slip >= 0.0 && Tradable(legs)
    ensures var raw, worse := Values(d, 0.0, legs), Values(d, slip, legs);
            && (d.Long? ==> Costs.NoDearer(worse, raw) && Costs.Sum(raw) - Costs.Sum(worse) == Costs.Times(slip, Costs.Sum(raw)))
            && (d.Short? ==> Costs.NoDearer(raw, worse))
            && Costs.Sum(raw) >= 0.0
  {
    hide Costs.Times, Value;
    ScaleSum(slip, 0.0, 0.0);
    if legs != [] {
      var rest := legs[1..];
      ValuesSlip(d, slip, rest);
      ValueSlip(d, slip, legs[0]);
      FirstLeg(d, 0.0, 0.0, legs);
      FirstLeg(d, 0.0, slip, legs);
      ScaleSum(slip, Value(d, 0.0, legs[0]), Costs.Sum(Values(d, 0.0, rest)));
      var raw, worse := Values(d, 0.0, legs), Values(d, slip, legs);
      hide Values, Costs.Sum;
      Consed(raw, worse);
      Consed(worse, raw);
    }
  }

  lemma EntrySlip(d: Direction, fill: real, slip: real, qty: int)
    requires fill >= 0.0 && slip >= 0.0 && qty >= 0
    ensures var v := Costs.Times(fill, qty as real);
            && EntryValue(d, fill, 0.0, qty) == v >= 0.0 && Costs.Times(slip, v) >= 0.0
            && (d.Long? ==> EntryValue(d, fill, slip, qty) >= v)
            && (d.Short? ==> v - EntryValue(d, fill, slip, qty) == Costs.Times(slip, v))
  {
    var q := qty as real;
    var v := fill * q;
    assert v >= 0.0 && slip * v >= 0.0;
    assert fill * (1.0 + slip) * q == v + slip * v && fill * (1.0 - slip) * q == v - slip * v;
    assert EntryPrice(d, fill, 0.0) == fill;
    assert EntryPrice(d, fill, slip) == if d.Long? then fill * (1.0 + slip) else fill * (1.0 - slip);
  }

  lemma AtMost(rate: real, x: real, total: real)
    requires rate <= 1.0 && 0.0 <= x <= total
    ensures Costs.Times(rate, x) <= total
  {
    assert rate * x <= 1.0 * x;
  }

  lemma SumOne(x: real)
    ensures Costs.Sum([x]) == x
  {
    assert [x][1..] == [];
  }

  lemma NotNegativeTimes(a: real, b: real)
    requires a >= 0.0 && b >= 0.0
    ensures Costs.Times(a, b) >= 0.0
  {
  }

  lemma SidesOf(t: OpenTrade, slip: real, costs: Costs.Config)
    ensures var d := t.plan.signal.dir;
            var entry := EntryValue(d, t.fill, slip, t.plan.qty);
            ChargesWith(t, slip, costs) == if d.Long? then Costs.Charges([entry], Values(d, slip, t.legs), costs)
                                           else Costs.Charges(Values(d, slip, t.legs), [entry], costs)
  {
    hide EntryValue, Values, Costs.Charges;
  }

  /** The charges slippage saves are no more than what it costs. */
  lemma SavedCharges(t: OpenTrade, b: Pricing)
    requires t.plan.qty >= 1 && Tradable(t.legs)
    requires b.slip >= 0.0 && t.fill >= 0.0 && Costs.MarginalSellRate(b.costs) <= 1.0
    ensures var d := t.plan.signal.dir;
            ChargesWith(t, 0.0, b.costs) - ChargesWith(t, b.slip, b.costs)
            <= Costs.Times(b.slip, Costs.Sum(Values(d, 0.0, t.legs))) + Costs.Times(b.slip, Costs.Times(t.fill, t.plan.qty as real))
  {
    hide Costs.Charges, Costs.Times, Costs.MarginalSellRate, Values, Tradable, EntryValue, ChargesWith, Costs.Sum;
    var d := t.plan.signal.dir;
    var raw, worse := Values(d, 0.0, t.legs), Values(d, b.slip, t.legs);
    ValuesSlip(d, b.slip, t.legs);
    EntrySlip(d, t.fill, b.slip, t.plan.qty);
    NotNegativeTimes(b.slip, Costs.Sum(raw));
    SidesOf(t, 0.0, b.costs);
    SidesOf(t, b.slip, b.costs);
    var in0, in1 := EntryValue(d, t.fill, 0.0, t.plan.qty), EntryValue(d, t.fill, b.slip, t.plan.qty);
    var total := Costs.Times(b.slip, Costs.Sum(raw)) + Costs.Times(b.slip, Costs.Times(t.fill, t.plan.qty as real));
    if d.Long? {
      Costs.SavingIsBounded([in0], [in1], raw, worse, b.costs);
      AtMost(Costs.MarginalSellRate(b.costs), Costs.Sum(raw) - Costs.Sum(worse), total);
    } else {
      SumOne(in0);
      SumOne(in1);
      Costs.SavingIsBounded(raw, worse, [in0], [in1], b.costs);
      AtMost(Costs.MarginalSellRate(b.costs), in0 - in1, total);
    }
  }

  lemma NetParts(t: OpenTrade, b: Pricing)
    requires t.plan.qty >= 1 && t.legs != []
    ensures var d := t.plan.signal.dir;
            && Unit(t.plan) > 0.0
            && Closed(t, b).netR
               == (Profit(d, EntryPrice(d, t.fill, b.slip), b.slip, t.legs) - ChargesWith(t, b.slip, b.costs)) / Unit(t.plan)
            && Closed(t, b).netRNoSlippage == (Profit(d, t.fill, 0.0, t.legs) - ChargesWith(t, 0.0, b.costs)) / Unit(t.plan)
            && Closed(t, b).grossR == Profit(d, t.fill, 0.0, t.legs) / Unit(t.plan)
  {
    UnitPositive(t.plan);
    hide Unit, Profit, ChargesWith, Values, EntryPrice;
  }

  /** While a rupee sold costs at most a rupee in charges, slippage never makes the net R better. */
  lemma SlippageNeverHelps(t: OpenTrade, b: Pricing)
    requires t.plan.qty >= 1 && t.legs != [] && LegQty(t.legs) == t.plan.qty && Tradable(t.legs)
    requires b.slip >= 0.0 && t.fill >= 0.0 && Costs.MarginalSellRate(b.costs) <= 1.0
    ensures Closed(t, b).netR <= Closed(t, b).netRNoSlippage
  {
    hide Profit, ChargesWith, Values, Costs.Times, LegQty, Unit, Costs.Sum, EntryPrice, Closed, Tradable, Costs.MarginalSellRate;
    SavedCharges(t, b);
    ProfitSlip(t.plan.signal.dir, t.fill, b.slip, t.legs);
    NetParts(t, b);
    var d := t.plan.signal.dir;
    var x := Profit(d, EntryPrice(d, t.fill, b.slip), b.slip, t.legs) - ChargesWith(t, b.slip, b.costs);
    var y := Profit(d, t.fill, 0.0, t.legs) - ChargesWith(t, 0.0, b.costs);
    assert x <= y;
    DivOrder(y, x, Unit(t.plan));
  }

  /** A complete trade at real prices whose net R a slippage of at most the whole price makes better. */
  ghost predicate IsHelped(t: OpenTrade, slip: real, costs: Costs.Config) {
    && t.plan.qty >= 1 && t.legs != [] && LegQty(t.legs) == t.plan.qty
    && Tradable(t.legs) && t.fill >= 0.0 && 0.0 <= slip <= 1.0
    && Closed(t, Pricing(slip, costs)).netR > Closed(t, Pricing(slip, costs)).netRNoSlippage
  }

  lemma ShareKept(d: Direction, price: real, slip: real, qty: real)
    requires 0.0 <= slip <= 1.0 && price >= 0.0 && qty >= 0.0
    ensures price * (1.0 - Sign(d) * slip) * qty >= 0.0
  {
    var kept := 1.0 - Sign(d) * slip;
    assert kept >= 0.0;
    NotNegativeTimes(price, kept);
    NotNegativeTimes(price * kept, qty);
  }

  lemma {:induction false} ValuesNotNegative(d: Direction, slip: real, legs: seq<Leg>)
    requires 0.0 <= slip <= 1.0 && Tradable(legs)
    ensures Costs.NotNegativeAll(Values(d, slip, legs))
  {
    if legs != [] {
      ShareKept(d, legs[0].price, slip, legs[0].qty as real);
      hide Value;
      ValuesNotNegative(d, slip, legs[1..]);
    }
  }

  lemma EntryNotNegative(d: Direction, fill: real, slip: real, qty: int)
    requires 0.0 <= slip <= 1.0 && fill >= 0.0 && qty >= 0
    ensures Costs.NotNegativeAll([EntryValue(d, fill, slip, qty)])
  {
    var kept := 1.0 + Sign(d) * slip;
    NotNegativeTimes(fill, kept);
    NotNegativeTimes(fill * kept, qty as real);
  }

  /** No order of such a trade is worth less than nothing, so an idle brokerage percentage charges nothing. */
  lemma EffectiveWith(t: OpenTrade, slip: real, costs: Costs.Config)
    requires t.plan.qty >= 1 && Tradable(t.legs) && t.fill >= 0.0 && 0.0 <= slip <= 1.0
    ensures ChargesWith(t, slip, costs) == ChargesWith(t, slip, Costs.Effective(costs))
    ensures Costs.MarginalSellRate(Costs.Effective(costs)) == Costs.SellRate(costs)
  {
    var d := t.plan.signal.dir;
    hide Values, EntryValue, Costs.Charges, ChargesWith, Tradable, Costs.Effective, Costs.SellRate, Costs.MarginalSellRate,
         Costs.NotNegativeAll;
    var entry, legs := [EntryValue(d, t.fill, slip, t.plan.qty)], Values(d, slip, t.legs);
    EntryNotNegative(d, t.fill, slip, t.plan.qty);
    ValuesNotNegative(d, slip, t.legs);
    Costs.EffectiveCharges(entry, legs, costs);
    Costs.EffectiveCharges(legs, entry, costs);
    SidesOf(t, slip, costs);
    SidesOf(t, slip, Costs.Effective(costs));
  }

  /** One share bought at `fill` and sold at `price`. */
  function OneShare(plan: Plan, fill: real, price: real): OpenTrade {
    OpenTrade(plan, 0, 0, fill, [Leg(FromEvent(HardExit), 0, price, 1)], 0.0, 0.0)
  }

  ghost predicate LongShare(p: Plan) {
    p.qty == 1 && p.signal.dir.Long?
  }

  lemma ShareSides(p: Plan, fill: real, price: real, slip: real, c: Costs.Config)
    requires LongShare(p)
    ensures var t := OneShare(p, fill, price);
            && LegQty(t.legs) == 1
            && Profit(Long, EntryPrice(Long, fill, slip), slip, t.legs) == price * (1.0 - slip) - fill * (1.0 + slip)
            && ChargesWith(t, slip, c) == Costs.Charges([fill * (1.0 + slip)], [price * (1.0 - slip)], c)
  {
    var legs := OneShare(p, fill, price).legs;
    assert legs[1..] == [];
    assert Value(Long, slip, legs[0]) == price * (1.0 - slip);
    assert Values(Long, slip, legs) == [Value(Long, slip, legs[0])];
    assert EntryValue(Long, fill, slip, 1) == fill * (1.0 + slip);
    assert Profit(Long, EntryPrice(Long, fill, slip), slip, legs) == LegProfit(Long, EntryPrice(Long, fill, slip), slip, legs[0]);
    hide Costs.Charges;
  }

  lemma Halves(buy: real, fill: real, sell: real, price: real)
    requires Costs.Times(1.0 + buy, fill) < Costs.Times(sell - 1.0, price)
    ensures Costs.Times(buy, 1.5 * fill - fill) + 0.5 * fill < Costs.Times(sell, price - 0.5 * price) - 0.5 * price
  {
    assert buy * (1.5 * fill - fill) == 0.5 * (buy * fill) && sell * (price - 0.5 * price) == 0.5 * (sell * price);
    assert (1.0 + buy) * fill == fill + buy * fill && (sell - 1.0) * price == sell * price - price;
  }

  lemma Strictly(a: real, b: real, d: real)
    requires a < b && d > 0.0
    ensures a / d < b / d
  {
  }

  /** What half a price of slippage saves in charges and what it costs. */
  lemma HalfSlip(p: Plan, fill: real, price: real, c: Costs.Config)
    requires LongShare(p) && fill > 0.0 && price > 0.0 && c.brokeragePct * price <= c.brokerageCap
    requires Costs.Times(1.0 + Costs.MarginalBuyRate(c), fill) < Costs.Times(Costs.MarginalSellRate(c) - 1.0, price)
    ensures IsHelped(OneShare(p, fill, price), 0.5, c)
  {
    var t, b := OneShare(p, fill, price), Pricing(0.5, c);
    var out, cost := 0.5 * price, 1.5 * fill;
    var x := Profit(Long, EntryPrice(Long, fill, 0.5), 0.5, t.legs) - ChargesWith(t, 0.5, c);
    var y := Profit(Long, fill, 0.0, t.legs) - ChargesWith(t, 0.0, c);
    assert EntryPrice(Long, fill, 0.0) == fill && fill * (1.0 + 0.0) == fill && price * (1.0 - 0.0) == price;
    assert fill * (1.0 + 0.5) == cost && price * (1.0 - 0.5) == out;
    ShareSides(p, fill, price, 0.5, c);
    ShareSides(p, fill, price, 0.0, c);
    hide Costs.Charges, Costs.MarginalSellRate, Costs.MarginalBuyRate, Profit, ChargesWith, EntryPrice, Closed, Unit, LegQty;
    Costs.SellSaving([fill], price, out, c);
    Costs.BuyGrowth(fill, cost, [out], c);
    Halves(Costs.MarginalBuyRate(c), fill, Costs.MarginalSellRate(c), price);
    hide Costs.Times;
    NetParts(t, b);
    assert x > y;
    Strictly(y, x, Unit(p));
  }

  /** A price whose brokerage is below the cap, when there is any brokerage. */
  lemma PriceBelowCap(c: Costs.Config) returns (price: real)
    requires c.brokerageCap > 0.0 || c.brokeragePct == 0.0
    ensures price > 0.0 && c.brokeragePct * price <= c.brokerageCap
  {
    price := if c.brokeragePct == 0.0 then 1.0 else c.brokerageCap / c.brokeragePct;
  }

  lemma Positive(a: real, b: real)
    requires a > 0.0 && b > 0.0
    ensures a * b > 0.0
  {
  }

  /** A fill cheap enough to leave half of a gain. */
  lemma CheapFill(rate: real, gain: real, price: real) returns (fill: real)
    requires rate >= 0.0 && gain > 0.0 && price > 0.0
    ensures fill > 0.0 && Costs.Times(1.0 + rate, fill) < Costs.Times(gain, price)
  {
    var whole := gain * price;
    Positive(gain, price);
    fill := whole / (2.0 * (1.0 + rate));
    assert (1.0 + rate) * fill == whole / 2.0;
  }

  const SHARE := Plan(Signal("SBIN", "orb", Long, 0, 1.0, 0.5), 1, 1.0, 1.0, 0.5, 1.5, 2.0, 0.0, 1.0, 1.0, 1.0, 1.0, 0)

  lemma SameHelp(t: OpenTrade, slip: real, costs: Costs.Config)
    ensures IsHelped(t, slip, costs) == IsHelped(t, slip, Costs.Effective(costs))
  {
    hide LegQty, Profit, ChargesWith, Tradable, Unit, Closed, EntryPrice, Costs.Effective;
    if t.plan.qty >= 1 && t.legs != [] && Tradable(t.legs) && t.fill >= 0.0 && 0.0 <= slip <= 1.0 {
      EffectiveWith(t, slip, costs);
      EffectiveWith(t, 0.0, costs);
      NetParts(t, Pricing(slip, costs));
      NetParts(t, Pricing(slip, Costs.Effective(costs)));
    }
  }

  lemma Helped(costs: Costs.Config) returns (t: OpenTrade)
    requires Costs.SellRate(costs) > 1.0
    ensures IsHelped(t, 0.5, costs)
  {
    var c: Costs.Config := Costs.Effective(costs);
    var price := PriceBelowCap(c);
    assert Costs.MarginalSellRate(c) == Costs.SellRate(costs);
    Costs.BuyRateNotNegative(c);
    hide Costs.MarginalBuyRate, Costs.MarginalSellRate, Costs.SellRate, Costs.Effective;
    var fill := CheapFill(Costs.MarginalBuyRate(c), Costs.MarginalSellRate(c) - 1.0, price);
    hide Costs.Times;
    HalfSlip(SHARE, fill, price, c);
    t := OneShare(SHARE, fill, price);
    SameHelp(t, 0.5, costs);
  }

  lemma NotHelped(t: OpenTrade, slip: real, costs: Costs.Config)
    requires Costs.SellRate(costs) <= 1.0
    ensures !IsHelped(t, slip, costs)
  {
    hide Costs.SellRate, Costs.MarginalSellRate, Costs.Effective, Closed, Tradable, LegQty;
    SameHelp(t, slip, costs);
    if IsHelped(t, slip, Costs.Effective(costs)) {
      EffectiveWith(t, slip, costs);
      SlippageNeverHelps(t, Pricing(slip, Costs.Effective(costs)));
    }
  }

  /** For every configuration: some trade is better off with slippage if and only if a rupee sold costs more than a rupee. */
  lemma SlippageHelpsIff(costs: Costs.Config)
    ensures (exists t, slip :: IsHelped(t, slip, costs)) <==> Costs.SellRate(costs) > 1.0
  {
    hide Costs.SellRate, Costs.MarginalSellRate, Costs.Effective;
    if Costs.SellRate(costs) > 1.0 {
      var t := Helped(costs);
    } else if t, slip :| IsHelped(t, slip, costs) {
      NotHelped(t, slip, costs);
    }
  }

  // ---------------------------------------------------------------- the engine's own cost of a close

  ghost function BookAll(m: Slots.Meta, es: seq<Event>): Slots.Meta
    decreases |es|
  {
    if es == [] then m else BookAll(Slots.BookLeg(m, es[0]), es[1..])
  }

  ghost predicate SameTrade(a: Slots.Meta, b: Slots.Meta) {
    a.qty == b.qty && a.rps == b.rps && a.dir == b.dir && a.entry == b.entry
  }

  lemma BookOne(m: Slots.Meta, e: Event)
    ensures var m' := Slots.BookLeg(m, e);
            && m'.exitQty == m.exitQty + e.qty
            && m'.exitOrders == m.exitOrders + (if e.qty == 0 then [] else [Value(m.dir, 0.0, LegOf(e))])
            && m'.grossR == m.grossR + e.r * e.qty as real / m.qty as real
            && SameTrade(m, m')
  {
    if e.qty != 0 {
      RawValue(m.dir, LegOf(e));
    } else {
      assert m.exitOrders + [] == m.exitOrders;
    }
  }

  lemma QuotientSum(a: real, b: real, q: real)
    requires q != 0.0
    ensures (a + b) / q == a / q + b / q && (a - b) / q == a / q - b / q
  {
  }

  lemma LegsValues(d: Direction, es: seq<Event>)
    requires es != []
    ensures Values(d, 0.0, LegsOf(es))
         == (if es[0].qty == 0 then [] else [Value(d, 0.0, LegOf(es[0]))]) + Values(d, 0.0, LegsOf(es[1..]))
  {
    hide Value;
    var rest := LegsOf(es[1..]);
    if es[0].qty == 0 {
      assert LegsOf(es) == rest && [] + Values(d, 0.0, rest) == Values(d, 0.0, rest);
    } else {
      assert LegsOf(es) == [LegOf(es[0])] + rest && LegsOf(es)[1..] == rest;
    }
  }

  lemma NoLegs(d: Direction)
    ensures LegsOf([]) == [] && Values(d, 0.0, []) == []
  {
  }

  /** The engine's books after the events: every leg at its value, every share, and the R of the legs. */
  lemma {:induction false} BookAllIs(m: Slots.Meta, es: seq<Event>)
    ensures var m' := BookAll(m, es);
            && m'.exitQty == m.exitQty + Sold(es)
            && m'.exitOrders == m.exitOrders + Values(m.dir, 0.0, LegsOf(es))
            && m'.grossR == m.grossR + RShares(es) / m.qty as real
            && SameTrade(m, m')
    decreases |es|
  {
    hide Value, Values, LegsOf, Slots.BookLeg;
    if es == [] {
      assert m.exitOrders + [] == m.exitOrders && LegsOf(es) == [] && Values(m.dir, 0.0, []) == [] by {
        NoLegs(m.dir);
      }
    } else {
      var e, rest := es[0], es[1..];
      var m1 := Slots.BookLeg(m, e);
      BookOne(m, e);
      BookAllIs(m1, rest);
      LegsValues(m.dir, es);
      var x := e.r * e.qty as real;
      assert RShares(es) == x + RShares(rest);
      assert Sold(es) == e.qty + Sold(rest);
      hide RShares, Sold;
      QuotientSum(x, RShares(rest), m.qty as real);
      var l := if e.qty == 0 then [] else [Value(m.dir, 0.0, LegOf(e))];
      assert m.exitOrders + (l + Values(m.dir, 0.0, LegsOf(rest))) == m.exitOrders + l + Values(m.dir, 0.0, LegsOf(rest));
    }
  }

  /** What the engine keeps about a fresh position of a plan. */
  ghost function MetaOf(p: Plan, key: Slots.SignalKey): Slots.Meta
    requires p.qty >= 1
  {
    Slots.Meta(p.signal.symbol, p.signal.strategy, key, p.qty, Risk(p.signal), 0.0, false, Some(p.signal.entry), p.signal.dir,
               Some(p.validUntil), [], 0)
  }

  /** On a close the engine finds no unbooked share, so its charges are those of the actual legs. */
  lemma EngineBooksEveryShare(c: Rules, p: Plan, key: Slots.SignalKey, id: int, bar: Option<int>, ps: seq<Price>)
    requires p.qty >= 1
    ensures var o := Run(c, Opened(TermsOf(p, id), bar), ps);
            var m := BookAll(MetaOf(p, key), o.events);
            && m.exitQty == p.qty - o.trade.remaining
            && m.exitOrders == Values(p.signal.dir, 0.0, LegsOf(o.events))
            && m.grossR == RShares(o.events) / p.qty as real
            && m.qty == p.qty && m.rps == Risk(p.signal) && m.dir == p.signal.dir && m.entry == Some(p.signal.entry)
  {
    hide Run, LegsOf, Values, RShares, Sold, BookAll, Risk;
    var o := Run(c, Opened(TermsOf(p, id), bar), ps);
    BookAllIs(MetaOf(p, key), o.events);
    SharesConserved(c, TermsOf(p, id), bar, ps);
    assert [] + Values(p.signal.dir, 0.0, LegsOf(o.events)) == Values(p.signal.dir, 0.0, LegsOf(o.events));
  }

  lemma NoSlippageNet(t: OpenTrade, b: Pricing)
    requires t.plan.qty >= 1 && t.legs != []
    ensures Unit(t.plan) > 0.0
    ensures Closed(t, b).netRNoSlippage
         == Closed(t, b).grossR
            - Costs.TradeCharges(t.plan.signal.dir, Costs.Times(t.fill, t.plan.qty as real),
                                 Values(t.plan.signal.dir, 0.0, t.legs), b.costs)
              / Unit(t.plan)
  {
    NetParts(t, b);
    var d := t.plan.signal.dir;
    assert EntryPrice(d, t.fill, 0.0) == t.fill;
    assert ChargesWith(t, 0.0, b.costs)
        == Costs.TradeCharges(d, Costs.Times(t.fill, t.plan.qty as real), Values(d, 0.0, t.legs), b.costs);
    hide Unit, Profit, Values, Costs.TradeCharges, Closed, ChargesWith;
    QuotientSum(Profit(d, t.fill, 0.0, t.legs), ChargesWith(t, 0.0, b.costs), Unit(t.plan));
  }

  lemma EngineNet(p: Plan, m: Slots.Meta, costs: Costs.Config)
    requires p.qty >= 1 && m.exitQty == m.qty == p.qty && m.rps == Risk(p.signal) && m.dir == p.signal.dir
    requires m.entry == Some(p.signal.entry)
    ensures Unit(p) > 0.0
    ensures Slots.NetR(costs, m)
         == m.grossR - Costs.TradeCharges(p.signal.dir, Costs.Times(p.signal.entry, p.qty as real), m.exitOrders, costs) / Unit(p)
  {
    UnitPositive(p);
    hide Costs.TradeCharges, Risk, Costs.Times;
    assert m.exitOrders + [] == m.exitOrders;
  }

  /** A close restored without its legs costs what it would if the rest had been sold at the entry. */
  lemma UnbookedAtEntry(costs: Costs.Config, m: Slots.Meta, e: Event)
    requires m.entry.Some? && m.exitQty < m.qty && e.qty == m.qty - m.exitQty && e.price == m.entry.value && e.r == 0.0
    ensures Slots.NetR(costs, m) == Slots.NetR(costs, Slots.BookLeg(m, e))
  {
    assert e.r * e.qty as real / m.qty as real == 0.0;
    var booked := Slots.BookLeg(m, e);
    assert booked.exitOrders + [] == booked.exitOrders;
    hide Costs.TradeCharges;
  }

  /** When the fill is the signal's entry, the engine's net R of a closed trade is exactly the broker's without slippage. */
  lemma EngineAndBrokerAgree(c: Rules, p: Plan, key: Slots.SignalKey, id: int, bar: Option<int>, ps: seq<Price>,
                             t: OpenTrade, b: Pricing)
    requires p.qty >= 1 && t.plan == p && t.legs == [] && t.fill == p.signal.entry
    requires Run(c, Opened(TermsOf(p, id), bar), ps).trade.closed
    ensures var o := Run(c, Opened(TermsOf(p, id), bar), ps);
            var s := FedAll(Standing(t), o.events, b);
            s.Settled? && Slots.NetR(b.costs, BookAll(MetaOf(p, key), o.events)) == s.record.netRNoSlippage
  {
    hide Run, FedAll, LegsOf, Profit, Closed, Unit, LegQty, Values, RShares, Slots.NetR, BookAll, Risk, Costs.TradeCharges;
    var o := Run(c, Opened(TermsOf(p, id), bar), ps);
    var m := BookAll(MetaOf(p, key), o.events);
    EngineBooksEveryShare(c, p, key, id, bar, ps);
    SharesConserved(c, TermsOf(p, id), bar, ps);
    BrokerFollowsManager(c, p, id, bar, ps, t, b);
    BrokerGrossR(c, p, id, bar, ps, t, b);
    NoSlippageNet(t.(legs := LegsOf(o.events)), b);
    EngineNet(p, m, b.costs);
    assert Sign(p.signal.dir) * (t.fill - p.signal.entry) == 0.0;
  }
}
