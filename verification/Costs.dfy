/** Modeled intraday charges (tradalgo/risk/costs.py), in rupees. */
module Costs {
  import opened Common

  const CRORE: real := 10000000.0

  datatype CostsValue = CostsConfig(brokeragePct: real, brokerageCap: real, sttSell: real, exchangeTxn: real,
                                    sebiPerCrore: real, stampBuy: real, gst: real, ipftPerCrore: real)
  {
    predicate NotNegative() {
      && brokeragePct >= 0.0 && brokerageCap >= 0.0 && sttSell >= 0.0 && exchangeTxn >= 0.0
      && sebiPerCrore >= 0.0 && stampBuy >= 0.0 && gst >= 0.0 && ipftPerCrore >= 0.0
    }
  }
  type Config = c: CostsValue | c.NotNegative() witness CostsConfig(0.0, 0.0, 0.0, 0.0, 0.0, 0.0, 0.0, 0.0)

  function OrderBrokerage(value: real, c: Config): real {
    MinReal(c.brokeragePct * value, c.brokerageCap)
  }

  function Sum(vs: seq<real>): real {
    if vs == [] then 0.0 else vs[0] + Sum(vs[1..])
  }

  function Brokerage(vs: seq<real>, c: Config): real {
    if vs == [] then 0.0 else OrderBrokerage(vs[0], c) + Brokerage(vs[1..], c)
  }

  /** Brokerage, exchange, SEBI, IPFT, securities tax on sells, stamp duty on buys, and GST on the first three. */
  function ChargesOf(brokerage: real, buy: real, sell: real, c: Config): real {
    var turnover := buy + sell;
    var exchange := c.exchangeTxn * turnover;
    var sebi := c.sebiPerCrore * turnover / CRORE;
    var ipft := c.ipftPerCrore * turnover / CRORE;
    brokerage + exchange + sebi + ipft + c.sttSell * sell + c.stampBuy * buy + c.gst * (brokerage + exchange + sebi)
  }

  function Charges(buys: seq<real>, sells: seq<real>, c: Config): real {
    ChargesOf(Brokerage(buys + sells, c), Sum(buys), Sum(sells), c)
  }

  /** (buy orders, sell orders) of a trade: the entry is one order, each exit leg its own. */
  function SplitSides(d: Direction, entryValue: real, exits: seq<real>): (seq<real>, seq<real>) {
    if d.Long? then ([entryValue], exits) else (exits, [entryValue])
  }

  function TradeCharges(d: Direction, entryValue: real, exits: seq<real>, c: Config): real {
    var sides := SplitSides(d, entryValue, exits);
    Charges(sides.0, sides.1, c)
  }

  // ---------------------------------------------------------------- the charge as rates

  /** What a rupee of turnover costs on each side besides brokerage, tax on it included. */
  function TurnoverRate(c: Config): real {
    c.exchangeTxn * (1.0 + c.gst) + c.sebiPerCrore / CRORE * (1.0 + c.gst) + c.ipftPerCrore / CRORE
  }

  /** The most one more rupee sold can add to the charge. */
  function MarginalSellRate(c: Config): real {
    c.brokeragePct * (1.0 + c.gst) + (TurnoverRate(c) + c.sttSell)
  }

  /** A product the solver need not expand. */
  function Times(a: real, b: real): real { a * b }

  lemma UnitPositive(qty: int, rps: real)
    requires qty >= 1 && rps > 0.0
    ensures Times(qty as real, rps) > 0.0
  {
  }

  lemma TimesMonotone(rate: real, a: real, b: real)
    requires rate >= 0.0 && a <= b
    ensures Times(rate, a) <= Times(rate, b)
  {
  }

  lemma TimesMinus(rate: real, a: real, b: real)
    ensures Times(rate, a) - Times(rate, b) == Times(rate, a - b)
  {
    assert rate * (a - b) == rate * a - rate * b;
  }

  /** The charge is linear in brokerage and in each side's turnover. */
  function AsRates(brokerage: real, buy: real, sell: real, c: Config): real {
    Times(1.0 + c.gst, brokerage) + Times(TurnoverRate(c) + c.stampBuy, buy) + Times(TurnoverRate(c) + c.sttSell, sell)
  }

  lemma RatesAlgebra(g: real, k: real, x: real, e: real, i: real, stt: real, st: real, b: real, s: real)
    ensures k + x * (b + s) + e * (b + s) + i * (b + s) + stt * s + st * b + g * (k + x * (b + s) + e * (b + s))
         == (1.0 + g) * k + (x * (1.0 + g) + e * (1.0 + g) + i + st) * b + (x * (1.0 + g) + e * (1.0 + g) + i + stt) * s
  {
  }

  lemma ChargesAreRates(k: real, buy: real, sell: real, c: Config)
    ensures ChargesOf(k, buy, sell, c) == AsRates(k, buy, sell, c)
  {
    var g, x, e, i := c.gst, c.exchangeTxn, c.sebiPerCrore / CRORE, c.ipftPerCrore / CRORE;
    var t := buy + sell;
    assert c.sebiPerCrore * t / CRORE == e * t && c.ipftPerCrore * t / CRORE == i * t;
    RatesAlgebra(g, k, x, e, i, c.sttSell, c.stampBuy, buy, sell);
  }

  lemma {:induction false} BrokerageAppend(a: seq<real>, b: seq<real>, c: Config)
    ensures Brokerage(a + b, c) == Brokerage(a, c) + Brokerage(b, c)
    ensures Sum(a + b) == Sum(a) + Sum(b)
  {
    if a == [] {
      assert a + b == b;
    } else {
      assert (a + b)[1..] == a[1..] + b;
      BrokerageAppend(a[1..], b, c);
    }
  }

  lemma ChargesAsRates(buys: seq<real>, sells: seq<real>, c: Config)
    ensures Charges(buys, sells, c) == AsRates(Brokerage(buys, c) + Brokerage(sells, c), Sum(buys), Sum(sells), c)
  {
    hide ChargesOf, AsRates;
    BrokerageAppend(buys, sells, c);
    ChargesAreRates(Brokerage(buys + sells, c), Sum(buys), Sum(sells), c);
  }

  lemma ScaleUp(rate: real, a: real, b: real)
    requires rate >= 0.0 && a <= b
    ensures rate * a <= rate * b
  {
  }

  lemma RateNotNegative(c: Config)
    ensures TurnoverRate(c) >= 0.0 && MarginalSellRate(c) >= 0.0
  {
    ScaleUp(c.exchangeTxn, 0.0, 1.0 + c.gst);
    ScaleUp(c.sebiPerCrore / CRORE, 0.0, 1.0 + c.gst);
    ScaleUp(c.brokeragePct, 0.0, 1.0 + c.gst);
  }

  /** No part of the charge falls when brokerage or either side's turnover grows. */
  lemma RatesMonotone(k: real, k': real, b: real, b': real, s: real, s': real, c: Config)
    requires k <= k' && b <= b' && s <= s'
    ensures AsRates(k, b, s, c) <= AsRates(k', b', s', c)
  {
    RateNotNegative(c);
    hide TurnoverRate, Times;
    TimesMonotone(1.0 + c.gst, k, k');
    TimesMonotone(TurnoverRate(c) + c.stampBuy, b, b');
    TimesMonotone(TurnoverRate(c) + c.sttSell, s, s');
  }

  // ---------------------------------------------------------------- dearer orders, split orders

  ghost predicate NoDearer(a: seq<real>, b: seq<real>) {
    |a| == |b| && forall i :: 0 <= i < |a| ==> a[i] <= b[i]
  }

  lemma CappedGrowth(x: real, y: real, cap: real)
    requires x <= y
    ensures 0.0 <= MinReal(y, cap) - MinReal(x, cap) <= y - x
  {
  }

  /** Brokerage grows with an order, by at most its percentage of the growth. */
  lemma OrderGrowth(a: real, b: real, c: Config)
    requires a <= b
    ensures 0.0 <= OrderBrokerage(b, c) - OrderBrokerage(a, c) <= c.brokeragePct * (b - a)
  {
    var p := c.brokeragePct;
    var x, y, d := p * a, p * b, p * (b - a);
    assert d == y - x;
    ScaleUp(p, a, b);
    assert OrderBrokerage(a, c) == MinReal(x, c.brokerageCap) && OrderBrokerage(b, c) == MinReal(y, c.brokerageCap);
    CappedGrowth(x, y, c.brokerageCap);
  }

  lemma {:induction false} SideGrowth(a: seq<real>, b: seq<real>, c: Config)
    requires NoDearer(a, b)
    ensures Sum(a) <= Sum(b)
    ensures 0.0 <= Brokerage(b, c) - Brokerage(a, c) <= c.brokeragePct * (Sum(b) - Sum(a))
  {
    hide OrderBrokerage;
    if a != [] {
      SideGrowth(a[1..], b[1..], c);
      OrderGrowth(a[0], b[0], c);
      var p, x, y := c.brokeragePct, Sum(b[1..]) - Sum(a[1..]), b[0] - a[0];
      assert Sum(b) - Sum(a) == x + y;
      assert p * (x + y) == p * x + p * y;
    }
  }

  /** Raising any order values, on either side, never lowers the charge. */
  lemma ChargesMonotone(buys: seq<real>, buys': seq<real>, sells: seq<real>, sells': seq<real>, c: Config)
    requires NoDearer(buys, buys') && NoDearer(sells, sells')
    ensures Charges(buys, sells, c) <= Charges(buys', sells', c)
  {
    ChargesAsRates(buys, sells, c);
    ChargesAsRates(buys', sells', c);
    hide Charges, AsRates;
    SideGrowth(buys, buys', c);
    SideGrowth(sells, sells', c);
    RatesMonotone(Brokerage(buys, c) + Brokerage(sells, c), Brokerage(buys', c) + Brokerage(sells', c),
                  Sum(buys), Sum(buys'), Sum(sells), Sum(sells'), c);
  }

  /** Capped brokerage is subadditive. */
  lemma BrokerageSubadditive(a: real, b: real, c: Config)
    requires a >= 0.0 && b >= 0.0
    ensures OrderBrokerage(a + b, c) <= OrderBrokerage(a, c) + OrderBrokerage(b, c)
  {
    ScaleUp(c.brokeragePct, 0.0, a);
    ScaleUp(c.brokeragePct, 0.0, b);
    assert c.brokeragePct * (a + b) == c.brokeragePct * a + c.brokeragePct * b;
  }

  lemma SideOf(a: seq<real>, b: seq<real>, d: seq<real>, c: Config)
    ensures Brokerage(a + b + d, c) == Brokerage(a, c) + Brokerage(b, c) + Brokerage(d, c)
    ensures Sum(a + b + d) == Sum(a) + Sum(b) + Sum(d)
  {
    BrokerageAppend(a + b, d, c);
    BrokerageAppend(a, b, c);
  }

  /** Executing one order as two on the same side, among any others, never lowers the charge. */
  lemma SplittingNeverCheaper(before: seq<real>, a: real, b: real, rest: seq<real>, other: seq<real>, c: Config)
    requires a >= 0.0 && b >= 0.0
    ensures Charges(before + [a + b] + rest, other, c) <= Charges(before + [a, b] + rest, other, c)
    ensures Charges(other, before + [a + b] + rest, c) <= Charges(other, before + [a, b] + rest, c)
  {
    hide Charges, OrderBrokerage, AsRates;
    var whole, halves := before + [a + b] + rest, before + [a, b] + rest;
    BrokerageSubadditive(a, b, c);
    SideOf(before, [a + b], rest, c);
    SideOf(before, [a, b], rest, c);
    assert [a, b][1..] == [b] && [b][1..] == [] && [a + b][1..] == [];
    assert Sum(whole) == Sum(halves) && Brokerage(whole, c) <= Brokerage(halves, c);
    ChargesAsRates(whole, other, c);
    ChargesAsRates(halves, other, c);
    ChargesAsRates(other, whole, c);
    ChargesAsRates(other, halves, c);
    var k, k', o := Brokerage(whole, c), Brokerage(halves, c), Brokerage(other, c);
    RatesMonotone(k + o, k' + o, Sum(whole), Sum(halves), Sum(other), Sum(other), c);
    RatesMonotone(o + k, o + k', Sum(other), Sum(other), Sum(whole), Sum(halves), c);
  }

  lemma LipschitzAlgebra(g: real, p: real, t: real, dk: real, d: real)
    requires g >= 0.0 && dk <= p * d
    ensures Times(g, dk) + Times(t, d) <= Times(p * g + t, d)
  {
    ScaleUp(g, dk, p * d);
    assert (p * g + t) * d == g * (p * d) + t * d;
  }

  /** Cheaper sells lower the linear form by at most the marginal rate. */
  lemma RatesLipschitz(k: real, k': real, b: real, s: real, s': real, c: Config)
    requires k - k' <= c.brokeragePct * (s - s')
    ensures AsRates(k, b, s, c) - AsRates(k', b, s', c) <= Times(MarginalSellRate(c), s - s')
  {
    LipschitzAlgebra(1.0 + c.gst, c.brokeragePct, TurnoverRate(c) + c.sttSell, k - k', s - s');
    hide TurnoverRate, Times;
    TimesMinus(1.0 + c.gst, k, k');
    TimesMinus(TurnoverRate(c) + c.sttSell, s, s');
  }

  /** Dearer buys and cheaper sells save at most the marginal sell rate on what the sells lost. */
  lemma SavingIsBounded(buys: seq<real>, buys': seq<real>, sells: seq<real>, sells': seq<real>, c: Config)
    requires NoDearer(buys, buys') && NoDearer(sells', sells)
    ensures Charges(buys, sells, c) - Charges(buys', sells', c) <= Times(MarginalSellRate(c), Sum(sells) - Sum(sells'))
  {
    hide Charges, AsRates, MarginalSellRate, Times, Sum, Brokerage, NoDearer;
    ChargesAsRates(buys, sells, c);
    ChargesAsRates(buys', sells', c);
    SideGrowth(buys, buys', c);
    SideGrowth(sells', sells, c);
    var k, k1, k2 := Brokerage(buys, c) + Brokerage(sells, c), Brokerage(buys, c) + Brokerage(sells', c),
                     Brokerage(buys', c) + Brokerage(sells', c);
    RatesLipschitz(k, k1, Sum(buys), Sum(sells), Sum(sells'), c);
    RatesMonotone(k1, k2, Sum(buys), Sum(buys'), Sum(sells'), Sum(sells'), c);
  }

  // ---------------------------------------------------------------- the exact marginal rate

  /** The most one more rupee sold adds to the charge: a brokerage capped at nothing adds nothing. */
  function SellRate(c: Config): real {
    (if c.brokerageCap > 0.0 then c.brokeragePct * (1.0 + c.gst) else 0.0) + (TurnoverRate(c) + c.sttSell)
  }

  /** The configuration without a percentage that the cap makes idle. */
  function Effective(c: Config): Config {
    if c.brokerageCap > 0.0 then c else c.(brokeragePct := 0.0)
  }

  ghost predicate NotNegativeAll(vs: seq<real>) {
    forall i :: 0 <= i < |vs| ==> vs[i] >= 0.0
  }

  lemma IdleBrokerage(v: real, c: Config)
    requires v >= 0.0
    ensures OrderBrokerage(v, c) == OrderBrokerage(v, Effective(c))
  {
    ScaleUp(c.brokeragePct, 0.0, v);
  }

  lemma {:induction false} IdleBrokerages(vs: seq<real>, c: Config)
    requires NotNegativeAll(vs)
    ensures Brokerage(vs, c) == Brokerage(vs, Effective(c))
  {
    hide OrderBrokerage;
    if vs != [] {
      IdleBrokerage(vs[0], c);
      IdleBrokerages(vs[1..], c);
    }
  }

  lemma ChargesIs(buys: seq<real>, sells: seq<real>, c: Config)
    ensures Charges(buys, sells, c) == ChargesOf(Brokerage(buys + sells, c), Sum(buys), Sum(sells), c)
  {
    hide ChargesOf, Brokerage, Sum;
  }

  lemma SameRates(k: real, buy: real, sell: real, c: Config, e: Config)
    requires e == c.(brokeragePct := e.brokeragePct)
    ensures ChargesOf(k, buy, sell, e) == ChargesOf(k, buy, sell, c) && TurnoverRate(e) == TurnoverRate(c)
  {
  }

  /** Nothing else of the configuration changes. */
  lemma EffectiveRates(k: real, buy: real, sell: real, c: Config)
    ensures ChargesOf(k, buy, sell, Effective(c)) == ChargesOf(k, buy, sell, c)
    ensures MarginalSellRate(Effective(c)) == SellRate(c)
  {
    if c.brokerageCap <= 0.0 {
      SameRates(k, buy, sell, c, c.(brokeragePct := 0.0));
      hide ChargesOf, TurnoverRate;
      assert 0.0 * (1.0 + c.gst) == 0.0;
    }
  }

  /** Orders of no negative value are charged as if that percentage were not there. */
  lemma EffectiveCharges(buys: seq<real>, sells: seq<real>, c: Config)
    requires NotNegativeAll(buys) && NotNegativeAll(sells)
    ensures Charges(buys, sells, c) == Charges(buys, sells, Effective(c))
    ensures MarginalSellRate(Effective(c)) == SellRate(c)
  {
    assert NotNegativeAll(buys + sells);
    IdleBrokerages(buys + sells, c);
    EffectiveRates(Brokerage(buys + sells, c), Sum(buys), Sum(sells), c);
    hide *;
    hide Effective, SellRate, MarginalSellRate, ChargesOf, Brokerage, Sum;
    ChargesIs(buys, sells, c);
    ChargesIs(buys, sells, Effective(c));
  }

  /** The most one more rupee bought adds to the charge. */
  function MarginalBuyRate(c: Config): real {
    c.brokeragePct * (1.0 + c.gst) + (TurnoverRate(c) + c.stampBuy)
  }

  lemma BuyRateNotNegative(c: Config)
    ensures MarginalBuyRate(c) >= 0.0
  {
    RateNotNegative(c);
    ScaleUp(c.brokeragePct, 0.0, 1.0 + c.gst);
    hide TurnoverRate;
  }

  lemma One(v: real, c: Config)
    ensures Sum([v]) == v && Brokerage([v], c) == OrderBrokerage(v, c)
  {
    assert [v][1..] == [];
  }

  lemma ExactAlgebra(g: real, p: real, t: real, d: real)
    ensures Times(g, p * d) + Times(t, d) == Times(p * g + t, d)
  {
    assert (p * g + t) * d == g * (p * d) + t * d;
  }

  lemma BelowCap(v: real, v': real, c: Config)
    requires v' <= v && c.brokeragePct * v <= c.brokerageCap
    ensures Times(1.0 + c.gst, OrderBrokerage(v, c) - OrderBrokerage(v', c)) + Times(TurnoverRate(c) + c.sttSell, v - v')
         == Times(MarginalSellRate(c), v - v')
  {
    ScaleUp(c.brokeragePct, v', v);
    var p := c.brokeragePct;
    var x, y := p * v, p * v';
    assert OrderBrokerage(v, c) == x && OrderBrokerage(v', c) == y;
    assert x - y == p * (v - v');
    hide OrderBrokerage, TurnoverRate;
    ExactAlgebra(1.0 + c.gst, p, TurnoverRate(c) + c.sttSell, v - v');
  }

  /** A sale below the cap is charged at the marginal rate, rupee for rupee. */
  lemma SellSaving(buys: seq<real>, v: real, v': real, c: Config)
    requires v' <= v && c.brokeragePct * v <= c.brokerageCap
    ensures Charges(buys, [v], c) - Charges(buys, [v'], c) == Times(MarginalSellRate(c), v - v')
  {
    BelowCap(v, v', c);
    ChargesAsRates(buys, [v], c);
    ChargesAsRates(buys, [v'], c);
    One(v, c);
    One(v', c);
    hide Charges, OrderBrokerage, TurnoverRate, Times, Sum, Brokerage, MarginalSellRate;
    TimesMinus(1.0 + c.gst, Brokerage(buys, c) + OrderBrokerage(v, c), Brokerage(buys, c) + OrderBrokerage(v', c));
    TimesMinus(TurnoverRate(c) + c.sttSell, v, v');
  }

  lemma BuyRate(v: real, v': real, c: Config)
    requires v <= v'
    ensures Times(1.0 + c.gst, OrderBrokerage(v', c) - OrderBrokerage(v, c)) + Times(TurnoverRate(c) + c.stampBuy, v' - v)
         <= Times(MarginalBuyRate(c), v' - v)
  {
    hide OrderBrokerage, TurnoverRate;
    OrderGrowth(v, v', c);
    LipschitzAlgebra(1.0 + c.gst, c.brokeragePct, TurnoverRate(c) + c.stampBuy, OrderBrokerage(v', c) - OrderBrokerage(v, c),
                v' - v);
  }

  /** A dearer buy is charged at most the marginal buy rate on the difference. */
  lemma BuyGrowth(v: real, v': real, sells: seq<real>, c: Config)
    requires v <= v'
    ensures Charges([v'], sells, c) - Charges([v], sells, c) <= Times(MarginalBuyRate(c), v' - v)
  {
    BuyRate(v, v', c);
    ChargesAsRates([v'], sells, c);
    ChargesAsRates([v], sells, c);
    One(v, c);
    One(v', c);
    hide Charges, OrderBrokerage, TurnoverRate, Times, Sum, Brokerage, MarginalBuyRate;
    TimesMinus(1.0 + c.gst, OrderBrokerage(v', c) + Brokerage(sells, c), OrderBrokerage(v, c) + Brokerage(sells, c));
    TimesMinus(TurnoverRate(c) + c.stampBuy, v', v);
  }

  // ---------------------------------------------------------------- the cap of an order

  /** No order pays more brokerage than the cap: its percentage up to there, and exactly the cap beyond. */
  lemma BrokerageIsCapped(value: real, c: Config)
    ensures OrderBrokerage(value, c) <= c.brokerageCap
    ensures c.brokeragePct * value <= c.brokerageCap ==> OrderBrokerage(value, c) == c.brokeragePct * value
    ensures c.brokeragePct * value >= c.brokerageCap ==> OrderBrokerage(value, c) == c.brokerageCap
  {
    var x := c.brokeragePct * value;
    assert OrderBrokerage(value, c) == MinReal(x, c.brokerageCap);
  }

  lemma OneOrderMore(n: nat, cap: real)
    ensures Times((n + 1) as real, cap) == Times(n as real, cap) + cap && Times(0 as real, cap) == 0.0
  {
    assert (n + 1) as real == n as real + 1.0;
  }

  /** So any orders together pay at most the cap on each, and at least nothing. */
  lemma {:induction false} BrokerageWithinCaps(vs: seq<real>, c: Config)
    requires NotNegativeAll(vs)
    ensures 0.0 <= Brokerage(vs, c) <= Times(|vs| as real, c.brokerageCap)
  {
    hide OrderBrokerage, Times;
    OneOrderMore(0, c.brokerageCap);
    if vs != [] {
      BrokerageWithinCaps(vs[1..], c);
      OneOrderMore(|vs| - 1, c.brokerageCap);
      BrokerageIsCapped(vs[0], c);
      ScaleUp(c.brokeragePct, 0.0, vs[0]);
    }
  }
}
