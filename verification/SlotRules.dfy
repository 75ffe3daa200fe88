/** What the day's rules keep for good: an expired alert loses its slot, a settled trade stays on the books. */
module SlotRules {
  import opened Common
  import opened Positions
  import opened Limits
  import opened Slots
  import opened SlotRuns
  import SlotCap
  import Costs

  // ---------------------------------------------------------------- expiry

  lemma {:induction false} ExpiredIdsAre(b: Book, ids: seq<int>, now: int, id: int)
    requires forall i :: 0 <= i < |ids| ==> ids[i] in b.trades
    ensures id in SlotCap.ExpiredIds(b, ids, now) <==> id in ids && Expired(b.trades[id], now)
    decreases |ids|
  {
    if ids != [] {
      ExpiredIdsAre(b, ids[..|ids| - 1], now, id);
      assert ids == ids[..|ids| - 1] + [ids[|ids| - 1]];
    }
  }

  /** Going through all reservations keeps exactly those whose alert is still valid. */
  lemma ExpiryIff(b: Book, ids: seq<int>, now: int, id: int)
    requires b.reserved <= b.trades.Keys
    requires (forall i :: 0 <= i < |ids| ==> ids[i] in b.trades) && forall x :: x in b.reserved ==> x in ids
    ensures id in ReleaseExpired(b, ids, now).reserved
       <==> id in b.reserved && b.trades[id].validUntil.Some? && b.trades[id].validUntil.value >= now
    ensures ReleaseExpired(b, ids, now).taken == b.taken
  {
    SlotCap.ExpireSlots(b, ids, now);
    if id in b.reserved {
      ExpiredIdsAre(b, ids, now, id);
    }
  }

  // ---------------------------------------------------------------- settled entries stay

  /** Every closed entry of the first list is in the second, unchanged. */
  ghost predicate ClosedKept(a: seq<Entry>, b: seq<Entry>) {
    forall e :: e in a && e.closed ==> e in b
  }

  lemma RegisterKeeps(r: RiskState, symbol: string, strategy: string)
    ensures ClosedKept(r.taken, Registered(r, symbol, strategy).taken)
  {
  }

  lemma ReleaseKeeps(r: RiskState, symbol: string)
    ensures ClosedKept(r.taken, Released(r, symbol).taken)
  {
    var i := LastOpen(r.taken, symbol);
    if i >= 0 {
      forall e | e in r.taken && e.closed ensures e in Released(r, symbol).taken {
        var k :| 0 <= k < |r.taken| && r.taken[k] == e;
        assert k != i;
        assert e == Released(r, symbol).taken[if k < i then k else k - 1];
      }
    }
  }

  lemma ExitKeeps(r: RiskState, symbol: string, netR: real)
    ensures ClosedKept(r.taken, Exited(r, symbol, netR).taken)
  {
    var i := FirstOpen(r.taken, symbol);
    forall e | e in r.taken && e.closed ensures e in Exited(r, symbol, netR).taken {
      var k :| 0 <= k < |r.taken| && r.taken[k] == e;
      assert k != i;
      assert e == Exited(r, symbol, netR).taken[k];
    }
  }

  lemma TakeKeeps(b: Book, id: int, costs: Option<Costs.Config>)
    requires id in b.trades
    ensures ClosedKept(b.risk.taken, Take(b, id, costs).risk.taken)
  {
    hide NetR, Registered, Exited;
    if id !in b.taken {
      var m := b.trades[id];
      RegisterKeeps(b.risk, m.symbol, m.strategy);
      var r := if id in b.reserved then b.risk else Registered(b.risk, m.symbol, m.strategy);
      if m.closed && costs.Some? {
        ExitKeeps(r, m.symbol, NetR(costs.value, m));
      }
    }
  }

  lemma {:induction false} BookEventsKeep(b: Book, es: seq<Event>, t: set<int>)
    requires forall i :: 0 <= i < |es| ==> es[i].tradeId in b.trades
    ensures ClosedKept(b.risk.taken, BookEvents(b, es, t).risk.taken)
    decreases |es|
  {
    hide BookLeg, Take;
    if es != [] {
      var n := |es| - 1;
      var a, e := BookEvents(b, es[..n], t), es[n];
      BookEventsKeep(b, es[..n], t);
      TakeKeeps(a.(trades := a.trades[e.tradeId := BookLeg(a.trades[e.tradeId], e)]), e.tradeId, None);
    }
  }

  lemma {:induction false} CloseIdsKeep(b: Book, ids: seq<int>, costs: Costs.Config)
    requires forall i :: 0 <= i < |ids| ==> ids[i] in b.trades
    ensures ClosedKept(b.risk.taken, CloseIds(b, ids, costs).risk.taken)
    decreases |ids|
  {
    hide NetR, Exited;
    if ids != [] {
      var n := |ids| - 1;
      var a := CloseIds(b, ids[..n], costs);
      CloseIdsKeep(b, ids[..n], costs);
      var m := a.trades[ids[n]];
      ExitKeeps(a.risk, m.symbol, NetR(costs, m.(closed := true)));
    }
  }

  lemma {:induction false} ExpireKeeps(b: Book, ids: seq<int>, now: int)
    requires b.reserved <= b.trades.Keys && forall i :: 0 <= i < |ids| ==> ids[i] in b.trades
    ensures ClosedKept(b.risk.taken, ReleaseExpired(b, ids, now).risk.taken)
    decreases |ids|
  {
    hide Released;
    if ids != [] {
      var n := |ids| - 1;
      ExpireKeeps(b, ids[..n], now);
      ReleaseKeeps(ReleaseExpired(b, ids[..n], now).risk, b.trades[ids[n]].symbol);
    }
  }

  lemma EnterKeeps(b: Book, id: int, m: Meta, t: bool)
    ensures ClosedKept(b.risk.taken, Slots.Enter(b, id, m, t).risk.taken)
  {
    hide Registered, Take;
    var o := OpenPosition(b, id, m);
    RegisterKeeps(b.risk, m.symbol, m.strategy);
    TakeKeeps(Reserve(o, id), id, None);
  }

  lemma RecoverKeeps(b: Book, id: int, g: real, t: bool, costs: Costs.Config)
    requires id in b.trades
    ensures ClosedKept(b.risk.taken, RecoverClose(b, id, g, t, costs).risk.taken)
  {
    hide NetR, Exited, Take;
    var m := b.trades[id].(grossR := g, closed := true);
    ExitKeeps(b.risk, m.symbol, NetR(costs, m));
    TakeKeeps(b.(trades := b.trades[id := m], open := b.open - {id}), id, Some(costs));
  }

  lemma Reflexive(a: seq<Entry>)
    ensures ClosedKept(a, a)
  {
  }

  lemma Transitive(a: seq<Entry>, b: seq<Entry>, d: seq<Entry>)
    requires ClosedKept(a, b) && ClosedKept(b, d)
    ensures ClosedKept(a, d)
  {
  }

  /** No action of the session drops or changes a settled entry. */
  lemma DoKeepsClosed(c: Config, b: Book, a: Action)
    requires Linked(b) && Enabled(c, b, a)
    ensures ClosedKept(b.risk.taken, Do(c, b, a).risk.taken)
  {
    hide NetR, BookEvents, CloseIds, ReleaseExpired, Registered, Released, Take, RecoverClose, ClosedKept, Slots.Enter,
         CheckLimits, DistinctSeq;
    Reflexive(b.risk.taken);
    match a
    case Refuse(_) =>
    case Enter(id, m, _, t) => EnterKeeps(b, id, m, t);
    case Tap(id) => TakeKeeps(b, id, Some(c.costs));
    case Skip(id) => ReleaseKeeps(b.risk, b.trades[id].symbol);
    case Expire(ids, now) => ExpireKeeps(b, ids, now);
    case RouteEvents(es, closers, t) =>
      BookEventsKeep(b, es, t);
      CloseIdsKeep(BookEvents(b, es, t), closers, c.costs);
      Transitive(b.risk.taken, BookEvents(b, es, t).risk.taken, CloseIds(BookEvents(b, es, t), closers, c.costs).risk.taken);
    case AdoptTrade(id, m, t) => if t { TakeKeeps(OpenPosition(b, id, m), id, Some(c.costs)); }
    case RecoverLegs(_, _) =>
    case RecoverExit(id, g, t) => RecoverKeeps(b, id, g, t, c.costs);
  }

  lemma {:induction false} PerformKeepsClosed(c: Config, b: Book, day: seq<Action>)
    requires Balanced(c.costs, b) && Performable(c, b, day)
    ensures ClosedKept(b.risk.taken, Perform(c, b, day).risk.taken)
    decreases |day|
  {
    hide Balanced, Do, Enabled, ClosedKept;
    Reflexive(b.risk.taken);
    if day != [] {
      DoBalanced(c, b, day[0]);
      DoKeepsClosed(c, b, day[0]);
      PerformKeepsClosed(c, Do(c, b, day[0]), day[1..]);
      Transitive(b.risk.taken, Do(c, b, day[0]).risk.taken, Perform(c, b, day).risk.taken);
    }
  }

  /** Once a strategy has lost a full R, or a symbol's trade has settled, no later state of the day accepts that strategy
      or that symbol again, whatever happens in between. */
  lemma RefusedForTheDay(c: Config, b: Book, day: seq<Action>, date: int, symbol: string, strategy: string)
    requires Balanced(c.costs, b) && Performable(c, b, day)
    requires LostWith(b.risk.taken, strategy) || exists e :: e in b.risk.taken && e.closed && e.symbol == symbol
    ensures CheckLimits(Perform(c, b, day).risk, date, symbol, strategy, c.maxTrades, c.lossLimit).Some?
  {
    hide Balanced, Perform, Performable;
    PerformKeepsClosed(c, b, day);
    var after := Perform(c, b, day).risk.taken;
    if LostWith(b.risk.taken, strategy) {
      var i :| 0 <= i < |b.risk.taken| && b.risk.taken[i].closed && b.risk.taken[i].netR.Some?
               && b.risk.taken[i].netR.value <= -1.0 + EPS && b.risk.taken[i].strategy == strategy;
      assert b.risk.taken[i] in after;
      var k :| 0 <= k < |after| && after[k] == b.risk.taken[i];
      assert LostWith(after, strategy);
    } else {
      var e :| e in b.risk.taken && e.closed && e.symbol == symbol;
      assert e in after;
      var k :| 0 <= k < |after| && after[k] == e;
      SymbolsOfIn(after, symbol);
    }
  }

  // ---------------------------------------------------------------- the loss limit

  /** In every reachable state, crashes included: while the net R of the taken trades that closed sums to the limit's loss or
      more, nothing is entered, whatever the signal. */
  lemma LossLimitStopsTheDay(c: Config, date: int, steps: seq<Step>, s: Session, id: int, m: Meta, today: int, t: bool)
    requires Runs(c, date, Session(NewBook(date), None), steps, s)
    ensures Settled(s.memory) <= s.memory.trades.Keys
    ensures NetSum(Settled(s.memory), s.memory.trades, c.costs) <= -c.lossLimit ==> !Enabled(c, s.memory, Enter(id, m, today, t))
  {
    SlotAccounting(c, date, steps, s);
    AllowedIff(s.memory.risk, today, m.symbol, m.strategy, c.maxTrades, c.lossLimit);
    hide Runs, CheckLimits;
  }

  // ---------------------------------------------------------------- a close the state missed

  /** A recovered close keeps the row's gross R, and settles its net R at once if the trade is taken. */
  lemma RecoveredCloseCounts(c: Config, b: Book, id: int, g: real, t: bool)
    requires Balanced(c.costs, b) && Enabled(c, b, RecoverExit(id, g, t))
    ensures Linked(b)
    ensures var after := Do(c, b, RecoverExit(id, g, t));
            && id in after.trades && after.trades[id] == b.trades[id].(grossR := g, closed := true) && id !in after.open
            && after.risk.realizedR == b.risk.realizedR + if id in b.taken || t then NetR(c.costs, after.trades[id]) else 0.0
  {
    hide Balanced, NetR;
    BalancedShape(c.costs, b);
  }
}
