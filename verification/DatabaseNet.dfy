/** The net R a flush writes to the database is the net R the engine counts toward the day. */
module DatabaseNet {
  import opened Common
  import opened Positions
  import opened Lifecycle
  import opened Bounds
  import opened LiveSinks
  import opened CrashProtocol
  import CrashSafety
  import Costs
  import Slippage
  import Slots
  import BrokerRuns
  import PaperBrokers

  lemma {:induction false} GrossIsRShares(qty: int, es: seq<Event>)
    requires qty >= 1
    ensures GrossOf(qty, es) == RShares(es) / qty as real
    decreases |es|
  {
    if es != [] {
      var front, e := es[..|es| - 1], es[|es| - 1];
      assert es == front + [e];
      GrossIsRShares(qty, front);
      GrossOneMore(qty, front, e);
      RSharesAppend(front, [e]);
      RSharesOne(e);
      Slippage.QuotientSum(RShares(front), e.r * e.qty as real, qty as real);
    }
  }

  lemma {:induction false} LegValuesAppend(a: seq<Event>, b: seq<Event>)
    ensures LegValues(a + b) == LegValues(a) + LegValues(b)
    decreases |b|
  {
    if b == [] {
      assert a + b == a;
    } else {
      var n := |b| - 1;
      assert (a + b)[..|a + b| - 1] == a + b[..n];
      LegValuesAppend(a, b[..n]);
    }
  }

  lemma {:induction false} LegValuesAreValues(d: Direction, es: seq<Event>)
    ensures LegValues(es) == PaperBrokers.Values(d, 0.0, BrokerRuns.LegsOf(es))
    decreases |es|
  {
    if es != [] {
      var e, rest := es[0], es[1..];
      assert es == [e] + rest;
      LegValuesAppend([e], rest);
      LegValuesAreValues(d, rest);
      Slippage.LegsValues(d, es);
      Slippage.RawValue(d, PaperBrokers.LegOf(e));
      assert [e][..0] == [];
    }
  }

  /** The engine's books of a position whose events sold every share have the net R of those events. */
  lemma EngineNet(costs: Costs.Config, k: Terms, unbooked: Slots.Meta, es: seq<Event>)
    requires k.qty >= 1 && Sold(es) == k.qty
    requires unbooked.qty == k.qty && unbooked.rps == Rps(k) && unbooked.dir == k.dir && unbooked.entry == Some(k.entry)
    requires unbooked.grossR == 0.0 && unbooked.exitOrders == [] && unbooked.exitQty == 0
    ensures Slots.NetR(costs, Slippage.BookAll(unbooked, es)) == NetOf(costs, k, es)
  {
    hide GrossOf, RShares, LegValues, PaperBrokers.Values, BrokerRuns.LegsOf, Costs.TradeCharges, Sold, Rps, Costs.Times,
         Slippage.BookAll;
    var m := Slippage.BookAll(unbooked, es);
    Slippage.BookAllIs(unbooked, es);
    GrossIsRShares(k.qty, es);
    LegValuesAreValues(k.dir, es);
    assert [] + LegValues(es) == LegValues(es);
    assert m.exitOrders + [] == LegValues(es);
  }

  /** After a completed flush the net R of every closed trade in the database is exactly the net R of the engine's books
      of the same events: what the day's realized R counts is what the database reports. */
  lemma DatabaseNetIsEngineNet(c: Config, actions: seq<Action>, s: State, id: int, unbooked: Slots.Meta)
    requires Runs(c, START, actions, s) && s.phase.Flushing? && s.memory.pending == []
    requires id in s.memory.trades && s.memory.trades[id].trade.closed
    requires var k := s.memory.trades[id].trade.terms;
             && unbooked.qty == k.qty && unbooked.rps == Rps(k) && unbooked.dir == k.dir && unbooked.entry == Some(k.entry)
             && unbooked.grossR == 0.0 && unbooked.exitOrders == [] && unbooked.exitQty == 0
    ensures id in s.db.rows
    ensures s.db.rows[id].netR == Some(Slots.NetR(c.costs, Slippage.BookAll(unbooked, EventsOf(s.memory.log, id))))
  {
    hide Runs, NetOf, Slots.NetR, Slippage.BookAll, Inv, EventsOf, Sold;
    CrashSafety.FlushedDatabaseAgrees(c, actions, s, id);
    StartInv(c);
    var legs, queued := Reachable(c, START, actions, s, 0, 0);
    CrashSafety.WholeLog(c, s, legs, queued);
    HeldOf(c.rules, s.memory, s.db.rows, id);
    CrashSafety.ClosedSoldAll(c.rules, s.memory.trades[id], EventsOf(s.memory.log, id));
    EngineNet(c.costs, s.memory.trades[id].trade.terms, unbooked, EventsOf(s.memory.log, id));
  }
}
