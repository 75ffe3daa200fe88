/** What a whole day can lose: the cap on the trades and the cap on each of them together. */
module DayLoss {
  import opened Common
  import opened Positions
  import opened Floors
  import opened Validator
  import opened PaperBrokers
  import opened BrokerRuns
  import Costs
  import Limits
  import Slots
  import SlotRuns
  import SlotCap

  /** How a trade came to be and what it saw: the signal and what it was judged by, its fill, the prices managed. */
  datatype Position = Position(signal: Signal, date: int, lev: Option<real>, levels: seq<real>, limits: Limits.RiskState,
                               nextOpen: real, fill: real, entryBar: Option<int>, prices: seq<Price>)

  /** Accepted, filled in its band, and no price opened beyond its initial stop. */
  ghost predicate Orderly(v: Config, capital: real, id: int, x: Position) {
    var d := Validate(x.signal, x.date, capital, x.lev, x.levels, x.limits, v);
    d.Accept? && FillPrice(d.plan, x.nextOpen) == Some(x.fill) && OpensFrom(TermsOf(d.plan, id), -1.0, x.prices)
  }

  /** Rupees its legs made so far, before charges. */
  ghost function Gross(c: Rules, v: Config, capital: real, id: int, x: Position): real {
    var d := Validate(x.signal, x.date, capital, x.lev, x.levels, x.limits, v);
    if d.Accept? then RunProfit(c, d.plan, id, x.entryBar, x.prices, x.fill) else 0.0
  }

  ghost function GrossOf(c: Rules, v: Config, capital: real, ids: set<int>, xs: map<int, Position>): real
    requires ids <= xs.Keys
  {
    if ids == {} then 0.0 else
    var id := Slots.PickId(ids);
    GrossOf(c, v, capital, ids - {id}, xs) + Gross(c, v, capital, id, xs[id])
  }

  lemma Multiples(n: nat, cap: real)
    ensures Costs.Times(0 as real, cap) == 0.0
    ensures n > 0 ==> Costs.Times(n as real, cap) == Costs.Times((n - 1) as real, cap) + cap
  {
    assert n as real * cap == (n - 1) as real * cap + cap;
  }

  lemma OneLoss(c: Rules, v: Config, capital: real, id: int, x: Position)
    requires Orderly(v, capital, id, x)
    ensures Gross(c, v, capital, id, x) >= -(capital * v.maxRiskPct)
  {
    hide Validate, FillPrice, OpensFrom, RunProfit;
    LossCap(c, v, x.signal, x.date, capital, x.lev, x.levels, x.limits, x.nextOpen, x.fill, id, x.entryBar, x.prices);
  }

  lemma {:induction false} GrossOfFloor(c: Rules, v: Config, capital: real, ids: set<int>, xs: map<int, Position>)
    requires ids <= xs.Keys && forall id :: id in ids ==> Orderly(v, capital, id, xs[id])
    ensures GrossOf(c, v, capital, ids, xs) >= -Costs.Times(|ids| as real, capital * v.maxRiskPct)
  {
    hide Orderly, Gross, Costs.Times;
    Multiples(|ids|, capital * v.maxRiskPct);
    if ids != {} {
      var id := Slots.PickId(ids);
      GrossOfFloor(c, v, capital, ids - {id}, xs);
      OneLoss(c, v, capital, id, xs[id]);
    }
  }

  lemma Swap(a: real, b: real)
    ensures Costs.Times(a, b) == Costs.Times(b, a)
  {
  }

  /** At any point of a day on which each Taken finds its reservation, crashes included, the taken trades together have lost
      no more, gross, than the cap on trades times the configured share of the capital. */
  lemma DayLossCap(c: Rules, day: SlotRuns.Config, v: Config, capital: real, date: int, steps: seq<SlotRuns.Step>,
                   s: SlotRuns.Session, xs: map<int, Position>)
    requires day.maxTrades >= 0 && SlotRuns.Runs(day, date, SlotRuns.Session(Slots.NewBook(date), None), steps, s)
    requires SlotCap.AlwaysOnTime(day, date, SlotRuns.Session(Slots.NewBook(date), None), steps)
    requires capital >= 0.0 && s.memory.taken <= xs.Keys
    requires forall id :: id in s.memory.taken ==> Orderly(v, capital, id, xs[id])
    ensures GrossOf(c, v, capital, s.memory.taken, xs) >= -Costs.Times(day.maxTrades as real, capital * v.maxRiskPct)
  {
    hide Orderly, SlotRuns.Runs, SlotCap.AlwaysOnTime, Costs.Times;
    SlotCap.CapAndIndependence(day, date, steps, s, "");
    SlotRuns.SlotAccounting(day, date, steps, s);
    var n := |s.memory.taken|;
    assert n <= day.maxTrades;
    GrossOfFloor(c, v, capital, s.memory.taken, xs);
    Costs.TimesMonotone(capital * v.maxRiskPct, n as real, day.maxTrades as real);
    Swap(n as real, capital * v.maxRiskPct);
    Swap(day.maxTrades as real, capital * v.maxRiskPct);
    assert capital * v.maxRiskPct >= 0.0;
  }
}
