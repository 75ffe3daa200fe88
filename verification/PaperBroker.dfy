/**
 Simulated fills for backtest trades (tradalgo/backtest/paper_broker.py).  Exits come from the manager's
 events; the broker prices them with slippage and charges.
 */
module PaperBrokers {
  import opened Common
  import opened Positions
  import opened Validator
  import Costs

  datatype LegKind = FromEvent(kind: Kind) | Forced(reason: string)

  datatype Leg = Leg(kind: LegKind, ts: int, price: real, qty: int)

  datatype OpenTrade = OpenTrade(plan: Plan, signalId: int, entryTs: int, fill: real, legs: seq<Leg>, mfe: real, mae: real)

  datatype Missed = Missed(plan: Plan, signalId: int, nextOpen: Option<real>)

  datatype Record = Record(signalId: int, plan: Plan, entryTs: int, entryPrice: real, exitTs: int, exitPrice: real,
                           exitReason: LegKind, mfe: real, mae: real, grossR: real, netRNoSlippage: real, netR: real,
                           netRupees: real, slippageRupees: real, legs: seq<Leg>)

  datatype Pricing = Pricing(slip: real, costs: Costs.Config)

  /** A fill inside the band at the next open, or none. */
  function FillPrice(p: Plan, nextOpen: real): Option<real> {
    if p.limitLow <= nextOpen <= p.limitHigh then Some(nextOpen) else None
  }

  function LegQty(legs: seq<Leg>): int {
    if legs == [] then 0 else legs[0].qty + LegQty(legs[1..])
  }

  /** What a leg trades for, its price worsened by `slip` of itself. */
  function Value(d: Direction, slip: real, l: Leg): real { l.price * (1.0 - Sign(d) * slip) * l.qty as real }

  function Values(d: Direction, slip: real, legs: seq<Leg>): seq<real> {
    if legs == [] then [] else [Value(d, slip, legs[0])] + Values(d, slip, legs[1..])
  }

  function LegProfit(d: Direction, entry: real, slip: real, l: Leg): real {
    Sign(d) * (l.price * (1.0 - Sign(d) * slip) - entry) * l.qty as real
  }

  /** Profit of the legs over an entry price, each leg's price worsened by `slip` of itself. */
  function Profit(d: Direction, entry: real, slip: real, legs: seq<Leg>): real {
    if legs == [] then 0.0 else LegProfit(d, entry, slip, legs[0]) + Profit(d, entry, slip, legs[1..])
  }

  function Unit(p: Plan): real { Costs.Times(p.qty as real, Risk(p.signal)) }

  lemma UnitPositive(p: Plan)
    requires p.qty >= 1
    ensures Unit(p) > 0.0
  {
    assert p.qty as real >= 1.0;
  }

  /** The entry, worsened the other way. */
  function EntryPrice(d: Direction, fill: real, slip: real): real { fill * (1.0 + Sign(d) * slip) }

  function EntryValue(d: Direction, fill: real, slip: real, qty: int): real { Costs.Times(EntryPrice(d, fill, slip), qty as real) }

  function ChargesWith(t: OpenTrade, slip: real, costs: Costs.Config): real {
    var d := t.plan.signal.dir;
    Costs.TradeCharges(d, EntryValue(d, t.fill, slip, t.plan.qty), Values(d, slip, t.legs), costs)
  }

  /** The trade record a close writes. */
  function Closed(t: OpenTrade, b: Pricing): Record
    requires t.plan.qty >= 1 && t.legs != []
  {
    UnitPositive(t.plan);
    var d := t.plan.signal.dir;
    var entry := EntryPrice(d, t.fill, b.slip);
    var gross := Profit(d, t.fill, 0.0, t.legs);
    var slipped := Profit(d, entry, b.slip, t.legs);
    var net := slipped - ChargesWith(t, b.slip, b.costs);
    var last := t.legs[|t.legs| - 1];
    Record(t.signalId, t.plan, t.entryTs, entry, last.ts, Costs.Sum(Values(d, b.slip, t.legs)) / t.plan.qty as real, last.kind,
           t.mfe, t.mae, gross / Unit(t.plan), (gross - ChargesWith(t, 0.0, b.costs)) / Unit(t.plan), net / Unit(t.plan), net,
           gross - slipped, t.legs)
  }

  datatype Standing = Standing(trade: OpenTrade) | Settled(record: Record)

  function LegOf(e: Event): Leg { Leg(FromEvent(e.kind), e.ts, e.price, e.qty) }

  /** One event on one trade: the leg that completes the quantity closes it; a closed trade ignores the rest. */
  function Fed(s: Standing, e: Event, b: Pricing): Standing
    requires s.Standing? ==> s.trade.plan.qty >= 1
  {
    if s.Settled? || e.qty == 0 then s else
    var t := s.trade.(legs := s.trade.legs + [LegOf(e)]);
    if LegQty(t.legs) >= t.plan.qty then Settled(Closed(t, b)) else Standing(t)
  }

  function FedAll(s: Standing, es: seq<Event>, b: Pricing): Standing
    requires s.Standing? ==> s.trade.plan.qty >= 1
    decreases |es|
  {
    if es == [] then s else FedAll(Fed(s, es[0], b), es[1..], b)
  }

  function ForcedClose(t: OpenTrade, ts: int, price: real, reason: string, b: Pricing): Record
    requires t.plan.qty >= 1
  {
    Closed(t.(legs := t.legs + [Leg(Forced(reason), ts, price, t.plan.qty - LegQty(t.legs))]), b)
  }

  /** Excursions of a bar not before the entry, from the raw fill. */
  function Seen(t: OpenTrade, start: int, high: real, low: real): OpenTrade {
    if start < t.entryTs then t else
    var sign, rps := Sign(t.plan.signal.dir), Risk(t.plan.signal);
    var best, worst := if sign == 1.0 then high else low, if sign == 1.0 then low else high;
    t.(mfe := MaxReal(t.mfe, sign * (best - t.fill) / rps), mae := MinReal(t.mae, sign * (worst - t.fill) / rps))
  }

  class PaperBroker {
    const slip: real
    const costs: Costs.Config
    var missed: seq<Missed>
    var openTrades: map<int, OpenTrade>
    var nextId: int

    ghost predicate Valid()
      reads this
    {
      forall id :: id in openTrades ==> id < nextId && openTrades[id].plan.qty >= 1
    }

    constructor (slippagePct: real, costs: Costs.Config)
      ensures Valid() && slip == slippagePct / 100.0 && this.costs == costs && missed == [] && openTrades == map[]
    {
      slip, this.costs, missed, openTrades, nextId := slippagePct / 100.0, costs, [], map[], 1;
    }

    method Miss(plan: Plan, signalId: int, nextOpen: Option<real>)
      modifies this`missed
      ensures missed == old(missed) + [Missed(plan, signalId, nextOpen)]
    {
      missed := missed + [Missed(plan, signalId, nextOpen)];
    }

    method Open(plan: Plan, signalId: int, entryTs: int, fill: real) returns (id: int)
      requires Valid() && plan.qty >= 1
      modifies this`openTrades, this`nextId
      ensures Valid() && id !in old(openTrades) && id == old(nextId) && nextId == id + 1
      ensures openTrades == old(openTrades)[id := OpenTrade(plan, signalId, entryTs, fill, [], 0.0, 0.0)]
    {
      id := nextId;
      nextId := nextId + 1;
      openTrades := openTrades[id := OpenTrade(plan, signalId, entryTs, fill, [], 0.0, 0.0)];
    }

    method OnBar(id: int, start: int, high: real, low: real)
      requires Valid()
      modifies this`openTrades
      ensures Valid()
      ensures openTrades == if id in old(openTrades) then old(openTrades)[id := Seen(old(openTrades)[id], start, high, low)]
                            else old(openTrades)
    {
      if id !in openTrades || start < openTrades[id].entryTs {
        assert id in openTrades ==> openTrades == openTrades[id := openTrades[id]];
        return;
      }
      var t := openTrades[id];
      var sign := Sign(t.plan.signal.dir);
      var best, worst := low, high;
      if sign == 1.0 {
        best, worst := high, low;
      }
      var rps := Risk(t.plan.signal);
      t := t.(mfe := MaxReal(t.mfe, sign * (best - t.fill) / rps));
      t := t.(mae := MinReal(t.mae, sign * (worst - t.fill) / rps));
      openTrades := openTrades[id := t];
    }

    method OnEvent(e: Event) returns (closed: Option<Record>)
      requires Valid()
      modifies this`openTrades
      ensures Valid()
      ensures e.tradeId !in old(openTrades) ==> closed.None? && openTrades == old(openTrades)
      ensures e.tradeId in old(openTrades) ==>
                var after := Fed(Standing(old(openTrades)[e.tradeId]), e, Pricing(slip, costs));
                && (after.Standing? ==> closed.None? && openTrades == old(openTrades)[e.tradeId := after.trade])
                && (after.Settled? ==> closed == Some(after.record) && openTrades == old(openTrades) - {e.tradeId})
    {
      hide Closed;
      closed := None;
      if e.tradeId !in openTrades || e.qty == 0 {
        assert e.tradeId in openTrades ==> openTrades == openTrades[e.tradeId := openTrades[e.tradeId]];
        return;
      }
      var t := openTrades[e.tradeId];
      t := t.(legs := t.legs + [LegOf(e)]);
      openTrades := openTrades[e.tradeId := t];
      if LegQty(t.legs) >= t.plan.qty {
        var r := Close(e.tradeId);
        closed := Some(r);
      }
    }

    method ForceClose(id: int, ts: int, price: real, reason: string) returns (record: Record)
      requires Valid() && id in openTrades
      modifies this`openTrades
      ensures Valid() && openTrades == old(openTrades) - {id}
      ensures record == ForcedClose(old(openTrades)[id], ts, price, reason, Pricing(slip, costs))
    {
      hide Closed;
      var t := openTrades[id];
      var remaining := t.plan.qty - LegQty(t.legs);
      openTrades := openTrades[id := t.(legs := t.legs + [Leg(Forced(reason), ts, price, remaining)])];
      record := Close(id);
    }

    /** Take the trade out and price its legs. */
    method Close(id: int) returns (record: Record)
      requires Valid() && id in openTrades && openTrades[id].legs != []
      modifies this`openTrades
      ensures Valid() && openTrades == old(openTrades) - {id}
      ensures record == Closed(old(openTrades)[id], Pricing(slip, costs))
    {
      var t := openTrades[id];
      openTrades := openTrades - {id};
      record := Closed(t, Pricing(slip, costs));
    }
  }

  // ---------------------------------------------------------------- excursions

  datatype Bar = Bar(start: int, high: real, low: real)

  /** Bars and events that reach one trade at the broker. */
  datatype Happening = Saw(bar: Bar) | Got(event: Event)

  /** A trade after them; once settled it changes no more. */
  function Lived(s: Standing, hs: seq<Happening>, b: Pricing): (s': Standing)
    requires s.Standing? ==> s.trade.plan.qty >= 1
    ensures s'.Standing? ==> s'.trade.plan.qty >= 1
    decreases |hs|
  {
    if hs == [] then s else
    var before := Lived(s, hs[..|hs| - 1], b);
    match hs[|hs| - 1]
    case Saw(bar) => if before.Standing? then Standing(Seen(before.trade, bar.start, bar.high, bar.low)) else before
    case Got(e) => Fed(before, e, b)
  }

  /** The bars since its entry that a trade saw while it was open. */
  ghost function BarsSeen(t: OpenTrade, hs: seq<Happening>, b: Pricing): set<Bar>
    requires t.plan.qty >= 1
    decreases |hs|
  {
    if hs == [] then {} else
    var h, front := hs[|hs| - 1], hs[..|hs| - 1];
    BarsSeen(t, front, b) + if h.Saw? && Lived(Standing(t), front, b).Standing? && h.bar.start >= t.entryTs then {h.bar} else {}
  }

  /** A price in R from the raw fill. */
  function InR(t: OpenTrade, price: real): real { Sign(t.plan.signal.dir) * (price - t.fill) / Risk(t.plan.signal) }

  function Best(t: OpenTrade, bar: Bar): real { if t.plan.signal.dir.Long? then bar.high else bar.low }

  function Worst(t: OpenTrade, bar: Bar): real { if t.plan.signal.dir.Long? then bar.low else bar.high }

  /** The most favourable and most adverse R of some bars, from zero. */
  ghost predicate Extremes(t: OpenTrade, bars: set<Bar>, mfe: real, mae: real) {
    && mae <= 0.0 <= mfe
    && (forall bar :: bar in bars ==> InR(t, Best(t, bar)) <= mfe && mae <= InR(t, Worst(t, bar)))
    && (mfe == 0.0 || exists bar :: bar in bars && mfe == InR(t, Best(t, bar)))
    && (mae == 0.0 || exists bar :: bar in bars && mae == InR(t, Worst(t, bar)))
  }

  ghost predicate Reports(t: OpenTrade, s: Standing, mfe: real, mae: real) {
    if s.Standing? then && s.trade.plan == t.plan && s.trade.fill == t.fill && s.trade.entryTs == t.entryTs
                        && s.trade.mfe == mfe && s.trade.mae == mae
    else s.record.mfe == mfe && s.record.mae == mae
  }

  function MfeOf(s: Standing): real { if s.Standing? then s.trade.mfe else s.record.mfe }

  function MaeOf(s: Standing): real { if s.Standing? then s.trade.mae else s.record.mae }

  lemma ExtremesGrow(t: OpenTrade, bars: set<Bar>, bar: Bar, mfe: real, mae: real)
    requires Extremes(t, bars, mfe, mae)
    ensures Extremes(t, bars + {bar}, MaxReal(mfe, InR(t, Best(t, bar))), MinReal(mae, InR(t, Worst(t, bar))))
  {
    hide InR, Best, Worst;
    var all := bars + {bar};
    assert bar in all && forall x :: x in bars ==> x in all;
  }

  lemma SeenIs(t: OpenTrade, u: OpenTrade, bar: Bar)
    requires u.plan == t.plan && u.fill == t.fill && u.entryTs == t.entryTs && bar.start >= t.entryTs
    ensures Seen(u, bar.start, bar.high, bar.low)
         == u.(mfe := MaxReal(u.mfe, InR(t, Best(t, bar))), mae := MinReal(u.mae, InR(t, Worst(t, bar))))
  {
  }

  lemma FedKeepsExcursions(t: OpenTrade, s: Standing, e: Event, b: Pricing, mfe: real, mae: real)
    requires (s.Standing? ==> s.trade.plan.qty >= 1) && Reports(t, s, mfe, mae)
    ensures Reports(t, Fed(s, e, b), mfe, mae)
  {
  }

  lemma SeenEarlier(t: OpenTrade, bar: Bar)
    requires bar.start < t.entryTs
    ensures Seen(t, bar.start, bar.high, bar.low) == t
  {
  }

  /** Whatever bars and events reach a trade, its excursions, open or in its record, are the running extremes in R of the
      bars it saw from its entry to its close: never below zero the one, never above the other. */
  lemma {:induction false} ExcursionsAreExtremes(t: OpenTrade, hs: seq<Happening>, b: Pricing)
    requires t.plan.qty >= 1 && t.mfe == t.mae == 0.0
    ensures var s := Lived(Standing(t), hs, b);
            Extremes(t, BarsSeen(t, hs, b), MfeOf(s), MaeOf(s)) && Reports(t, s, MfeOf(s), MaeOf(s))
    decreases |hs|
  {
    hide Seen, Fed, InR;
    if hs != [] {
      var h, front := hs[|hs| - 1], hs[..|hs| - 1];
      ExcursionsAreExtremes(t, front, b);
      var s, bars := Lived(Standing(t), front, b), BarsSeen(t, front, b);
      hide Extremes;
      match h
      case Got(e) => FedKeepsExcursions(t, s, e, b, MfeOf(s), MaeOf(s));
        assert bars + {} == bars;
      case Saw(bar) =>
        if s.Standing? && bar.start >= t.entryTs {
          SeenIs(t, s.trade, bar);
          ExtremesGrow(t, bars, bar, MfeOf(s), MaeOf(s));
        } else {
          assert bars + {} == bars;
          if s.Standing? {
            SeenEarlier(s.trade, bar);
          }
        }
    }
  }
}
