/**
 Slot accounting over whole days: every interleaving of entries, taps, expiries, price events,
 crash adoptions and recovered closes.
 */
module SlotRuns {
  import opened Common
  import opened Positions
  import opened Limits
  import opened Slots
  import Costs

  datatype Config = Config(maxTrades: int, lossLimit: real, costs: Costs.Config)

  datatype Action =
    | Refuse(key: SignalKey)                                          // a signal that does not become a trade
    | Enter(id: int, meta: Meta, date: int, dbTaken: bool)            // an accepted plan, its alert about to go out
    | Tap(id: int)                                                    // the user's Taken, read at the next cycle
    | Skip(id: int)
    | Expire(ids: seq<int>, now: int)
    | RouteEvents(events: seq<Event>, closers: seq<int>, taken: set<int>)
    | AdoptTrade(id: int, meta: Meta, dbTaken: bool)                  // reconcile: a database trade the state missed
    | RecoverLegs(id: int, grossR: real)                              // reconcile: a partial the state missed
    | RecoverExit(id: int, grossR: real, dbTaken: bool)               // reconcile: a close the state missed

  ghost predicate DistinctSeq(ids: seq<int>) {
    forall i, j :: 0 <= i < j < |ids| ==> ids[i] != ids[j]
  }

  /** When the session performs the action.  A trade row belongs to one signal row, so an id names one key. */
  ghost predicate Enabled(c: Config, b: Book, a: Action) {
    match a
    case Refuse(_) => true
    case Enter(id, m, date, _) =>
      && m.key !in b.seen && (id in b.trades ==> b.trades[id].key == m.key) && !m.closed
      && CheckLimits(b.risk, date, m.symbol, m.strategy, c.maxTrades, c.lossLimit) == None
    case Tap(id) => id in b.trades
    case Skip(id) => id in b.trades
    case Expire(ids, _) => forall i :: 0 <= i < |ids| ==> ids[i] in b.trades
    case RouteEvents(es, closers, _) =>
      && (forall i :: 0 <= i < |es| ==> es[i].tradeId in b.open)
      && (forall i :: 0 <= i < |closers| ==> closers[i] in b.open)
      && DistinctSeq(closers)
    case AdoptTrade(id, m, _) => id !in b.trades && !m.closed
    case RecoverLegs(id, _) => id in b.open
    case RecoverExit(id, _, _) => id in b.open
  }

  ghost predicate Linked(b: Book) {
    b.open <= b.trades.Keys && b.reserved <= b.trades.Keys
  }

  ghost function Do(c: Config, b: Book, a: Action): Book
    requires Linked(b) && Enabled(c, b, a)
  {
    match a
    case Refuse(key) => b.(seen := b.seen + {key})
    case Enter(id, m, _, t) => Slots.Enter(b, id, m, t)
    case Tap(id) => Take(b, id, Some(c.costs))
    case Skip(id) => Release(b, id)
    case Expire(ids, now) => ReleaseExpired(b, ids, now)
    case RouteEvents(es, closers, t) => Route(b, es, closers, t, c.costs)
    case AdoptTrade(id, m, t) => Adopt(b, id, m, t, c.costs)
    case RecoverLegs(id, g) => b.(trades := b.trades[id := b.trades[id].(grossR := g)])
    case RecoverExit(id, g, t) => RecoverClose(b, id, g, t, c.costs)
  }

  // ---------------------------------------------------------------- the invariant

  ghost function Unsettled(b: Book): set<int> { set id | id in b.taken && id in b.trades && !b.trades[id].closed }

  ghost function Settled(b: Book): set<int> { set id | id in b.taken && id in b.trades && b.trades[id].closed }

  /** Reserved and taken ids are disjoint and counted; the slots held are those of reserved and of open taken trades;
      the realized R is that of the closed taken trades, each counted once. */
  ghost predicate Balanced(costs: Costs.Config, b: Book) {
    && b.reserved !! b.taken
    && b.reserved <= b.trades.Keys && b.taken <= b.trades.Keys && b.open <= b.trades.Keys
    && (forall id :: id in b.trades ==> (id in b.open <==> !b.trades[id].closed))
    && (forall id :: id in b.trades ==> b.trades[id].key in b.seen)
    && Ledger(b.risk, b.reserved + Unsettled(b), Settled(b), b.trades, costs)
  }

  /** The same but for the ledger, which counts the given holders and settled trades. */
  ghost predicate Shaped(b: Book) {
    && b.reserved !! b.taken
    && b.reserved <= b.trades.Keys && b.taken <= b.trades.Keys && b.open <= b.trades.Keys
    && (forall id :: id in b.trades ==> (id in b.open <==> !b.trades[id].closed))
    && (forall id :: id in b.trades ==> b.trades[id].key in b.seen)
  }

  lemma BalancedBy(costs: Costs.Config, b: Book, holders: set<int>, settled: set<int>)
    requires Shaped(b) && Ledger(b.risk, holders, settled, b.trades, costs)
    requires holders == b.reserved + Unsettled(b) && settled == Settled(b)
    ensures Balanced(costs, b)
  {
  }

  lemma ReserveBalanced(costs: Costs.Config, b: Book, id: int)
    requires Balanced(costs, b) && id in b.trades
    ensures Balanced(costs, Reserve(b, id))
  {
    hide Ledger;
    if id !in b.taken && id !in b.reserved {
      var h, s, b' := b.reserved + Unsettled(b), Settled(b), Reserve(b, id);
      LedgerRegister(b.risk, h, s, b.trades, costs, id);
      assert h + {id} == b'.reserved + Unsettled(b') && s == Settled(b');
      BalancedBy(costs, b', h + {id}, s);
    }
  }

  lemma ReleaseBalanced(costs: Costs.Config, b: Book, id: int)
    requires Balanced(costs, b)
    ensures Balanced(costs, Release(b, id))
  {
    hide Ledger;
    if id in b.reserved {
      var h, s, b' := b.reserved + Unsettled(b), Settled(b), Release(b, id);
      LedgerRelease(b.risk, h, s, b.trades, costs, id);
      assert h - {id} == b'.reserved + Unsettled(b') && s == Settled(b');
      BalancedBy(costs, b', h - {id}, s);
    }
  }

  lemma {:induction false} ExpireBalanced(costs: Costs.Config, b: Book, ids: seq<int>, now: int)
    requires Balanced(costs, b) && forall i :: 0 <= i < |ids| ==> ids[i] in b.trades
    ensures Balanced(costs, ReleaseExpired(b, ids, now))
    decreases |ids|
  {
    if ids != [] {
      ExpireBalanced(costs, b, ids[..|ids| - 1], now);
      ReleaseBalanced(costs, ReleaseExpired(b, ids[..|ids| - 1], now), ids[|ids| - 1]);
    }
  }

  /** Counting a trade as taken: its reservation or a new slot becomes real, and a known close is settled at once. */
  lemma TakeBalanced(costs: Costs.Config, b: Book, id: int, withCosts: Option<Costs.Config>)
    requires Balanced(costs, b) && id in b.trades
    requires withCosts == Some(costs) || (withCosts.None? && !b.trades[id].closed)
    ensures Balanced(costs, Take(b, id, withCosts)) && Take(b, id, withCosts).taken == b.taken + {id}
  {
    hide Ledger, NetR;
    if id !in b.taken {
      var h, s, b' := b.reserved + Unsettled(b), Settled(b), Take(b, id, withCosts);
      var m := b.trades[id];
      if id !in b.reserved {
        LedgerRegister(b.risk, h, s, b.trades, costs, id);
      }
      var r := if id in b.reserved then b.risk else Registered(b.risk, m.symbol, m.strategy);
      var h' := h + {id};
      assert id in b.reserved ==> h' == h;
      assert Ledger(r, h', s, b.trades, costs);
      if m.closed {
        LedgerExit(r, h', s, b.trades, costs, id);
        assert h' - {id} == b'.reserved + Unsettled(b') && s + {id} == Settled(b');
        BalancedBy(costs, b', h' - {id}, s + {id});
      } else {
        assert h' == b'.reserved + Unsettled(b') && s == Settled(b');
        BalancedBy(costs, b', h', s);
      }
    } else {
      assert b.taken + {id} == b.taken;
    }
  }

  /** Changing what is kept about an open trade, not its symbol or key. */
  lemma AmendBalanced(costs: Costs.Config, b: Book, id: int, m: Meta)
    requires Balanced(costs, b) && id in b.open
    requires m.symbol == b.trades[id].symbol && m.key == b.trades[id].key && !m.closed
    ensures Balanced(costs, b.(trades := b.trades[id := m]))
  {
    hide Ledger;
    var h, s, b' := b.reserved + Unsettled(b), Settled(b), b.(trades := b.trades[id := m]);
    assert Unsettled(b') == Unsettled(b) && Settled(b') == s;
    LedgerFrame(b.risk, h, s, b.trades, b'.trades, costs);
    BalancedBy(costs, b', h, s);
  }

  lemma BalancedShape(costs: Costs.Config, b: Book)
    requires Balanced(costs, b)
    ensures Shaped(b) && Ledger(b.risk, b.reserved + Unsettled(b), Settled(b), b.trades, costs)
  {
  }

  lemma BookLegKeeps(m: Meta, e: Event)
    ensures var m' := BookLeg(m, e); m'.symbol == m.symbol && m'.key == m.key && m'.closed == m.closed && m'.qty == m.qty
  {
  }

  lemma {:induction false} BookEventsBalanced(costs: Costs.Config, b: Book, es: seq<Event>, dbTaken: set<int>)
    requires Balanced(costs, b) && forall i :: 0 <= i < |es| ==> es[i].tradeId in b.open
    ensures Balanced(costs, BookEvents(b, es, dbTaken))
    decreases |es|
  {
    hide Balanced, BookLeg, Take;
    BalancedShape(costs, b);
    if es != [] {
      var n := |es| - 1;
      var a, e := BookEvents(b, es[..n], dbTaken), es[n];
      BookEventsBalanced(costs, b, es[..n], dbTaken);
      BalancedShape(costs, a);
      var m := BookLeg(a.trades[e.tradeId], e);
      BookLegKeeps(a.trades[e.tradeId], e);
      AmendBalanced(costs, a, e.tradeId, m);
      if e.tradeId in dbTaken {
        TakeBalanced(costs, a.(trades := a.trades[e.tradeId := m]), e.tradeId, None);
      }
    }
  }

  /** Whose slot an open trade's close frees: only its own, and only when it is taken. */
  lemma ShutSets(b: Book, id: int, m: Meta)
    requires Shaped(b) && id in b.open && m.key == b.trades[id].key && m.closed
    ensures var c := b.(trades := b.trades[id := m], open := b.open - {id});
            && Shaped(c) && id !in Settled(b)
            && Unsettled(c) == Unsettled(b) - {id}
            && (id !in b.taken ==> Unsettled(c) == Unsettled(b) && Settled(c) == Settled(b))
            && (id in b.taken ==> id !in b.reserved && id in Unsettled(b) && Settled(c) == Settled(b) + {id})
  {
    var c := b.(trades := b.trades[id := m], open := b.open - {id});
    assert Unsettled(c) == Unsettled(b) - {id};
    if id in b.taken {
      assert Settled(c) == Settled(b) + {id};
    } else {
      assert Unsettled(c) == Unsettled(b) && Settled(c) == Settled(b);
    }
  }

  /** Reserved, taken, open, and the trades' closed flags do not mention the risk state. */
  lemma RiskApart(b: Book, risk: RiskState)
    ensures var c := b.(risk := risk); Shaped(c) == Shaped(b) && Unsettled(c) == Unsettled(b) && Settled(c) == Settled(b)
  {
  }

  lemma HoldersExist(b: Book)
    requires Shaped(b)
    ensures b.reserved + Unsettled(b) <= b.trades.Keys && Settled(b) <= b.trades.Keys
  {
  }

  /** Closing an open trade: if it is taken its net R is settled, once. */
  function Shut(b: Book, id: int, m: Meta, costs: Costs.Config): Book {
    var c := b.(trades := b.trades[id := m], open := b.open - {id});
    if id in b.taken then c.(risk := Exited(c.risk, m.symbol, NetR(costs, m))) else c
  }

  lemma ShutBalanced(costs: Costs.Config, b: Book, id: int, m: Meta)
    requires Balanced(costs, b) && id in b.open && id in b.trades
    requires m.symbol == b.trades[id].symbol && m.key == b.trades[id].key && m.closed
    ensures Balanced(costs, Shut(b, id, m, costs))
  {
    hide Balanced, Ledger, NetR, Unsettled, Settled, Shaped, Exited;
    BalancedShape(costs, b);
    var h, s := b.reserved + Unsettled(b), Settled(b);
    var c := b.(trades := b.trades[id := m], open := b.open - {id});
    var d := c.(risk := Exited(c.risk, m.symbol, NetR(costs, m)));
    ShutSets(b, id, m);
    HoldersExist(b);
    LedgerFrame(b.risk, h, s, b.trades, c.trades, costs);
    if id in b.taken {
      LedgerExit(b.risk, h, s, c.trades, costs, id);
      RiskApart(c, d.risk);
      assert h - {id} == d.reserved + Unsettled(d);
      BalancedBy(costs, d, h - {id}, s + {id});
    } else {
      BalancedBy(costs, c, h, s);
    }
  }

  lemma CloseOneIsShut(b: Book, id: int, costs: Costs.Config)
    requires id in b.trades
    ensures CloseOne(b, id, costs) == Shut(b, id, b.trades[id].(closed := true), costs)
    ensures CloseOne(b, id, costs).open == b.open - {id}
  {
  }

  lemma {:induction false} CloseIdsBalanced(costs: Costs.Config, b: Book, ids: seq<int>)
    requires Balanced(costs, b) && DistinctSeq(ids) && forall i :: 0 <= i < |ids| ==> ids[i] in b.open && ids[i] in b.trades
    ensures var b' := CloseIds(b, ids, costs);
            Balanced(costs, b') && forall id :: id in b.open && id !in ids ==> id in b'.open
    decreases |ids|
  {
    hide Balanced, NetR, CloseOne, Shut;
    if ids != [] {
      var n := |ids| - 1;
      CloseIdsBalanced(costs, b, ids[..n]);
      var a := CloseIds(b, ids[..n], costs);
      assert ids[n] !in ids[..n];
      CloseOneIsShut(a, ids[n], costs);
      ShutBalanced(costs, a, ids[n], a.trades[ids[n]].(closed := true));
      assert ids == ids[..n] + [ids[n]];
    }
  }

  lemma OpenBalanced(costs: Costs.Config, b: Book, id: int, m: Meta)
    requires Balanced(costs, b) && id !in b.trades && !m.closed
    ensures Balanced(costs, OpenPosition(b, id, m))
  {
    hide Ledger;
    var h, s, b' := b.reserved + Unsettled(b), Settled(b), OpenPosition(b, id, m);
    assert Unsettled(b') == Unsettled(b) && Settled(b') == s;
    LedgerFrame(b.risk, h, s, b.trades, b'.trades, costs);
    BalancedBy(costs, b', h, s);
  }

  lemma SeenBalanced(costs: Costs.Config, b: Book, key: SignalKey)
    requires Balanced(costs, b)
    ensures Balanced(costs, b.(seen := b.seen + {key}))
  {
    var b' := b.(seen := b.seen + {key});
    assert Unsettled(b') == Unsettled(b) && Settled(b') == Settled(b);
  }

  lemma ReserveKeepsTrades(b: Book, id: int)
    requires id in b.trades
    ensures Reserve(b, id).trades == b.trades
  {
  }

  /** Every action the session can take keeps the accounts balanced. */
  lemma DoBalanced(c: Config, b: Book, a: Action)
    requires Balanced(c.costs, b) && Enabled(c, b, a)
    ensures Linked(b) && Balanced(c.costs, Do(c, b, a))
  {
    BalancedShape(c.costs, b);
    hide Balanced, Take, NetR, BookEvents, CloseIds, ReleaseExpired, Release, Reserve, Ledger;
    match a
    case Refuse(key) => SeenBalanced(c.costs, b, key);
    case Enter(id, m, _, t) =>
      assert id !in b.trades;
      var o := OpenPosition(b, id, m);
      OpenBalanced(c.costs, b, id, m);
      ReserveBalanced(c.costs, o, id);
      if t {
        ReserveKeepsTrades(o, id);
        TakeBalanced(c.costs, Reserve(o, id), id, None);
      }
    case Tap(id) => TakeBalanced(c.costs, b, id, Some(c.costs));
    case Skip(id) => ReleaseBalanced(c.costs, b, id);
    case Expire(ids, now) => ExpireBalanced(c.costs, b, ids, now);
    case RouteEvents(es, closers, t) =>
      BookEventsBalanced(c.costs, b, es, t);
      BalancedShape(c.costs, BookEvents(b, es, t));
      CloseIdsBalanced(c.costs, BookEvents(b, es, t), closers);
    case AdoptTrade(id, m, t) =>
      OpenBalanced(c.costs, b, id, m);
      if t {
        TakeBalanced(c.costs, OpenPosition(b, id, m), id, Some(c.costs));
      }
    case RecoverLegs(id, g) => AmendBalanced(c.costs, b, id, b.trades[id].(grossR := g));
    case RecoverExit(id, g, t) =>
      var m := b.trades[id].(grossR := g, closed := true);
      ShutBalanced(c.costs, b, id, m);
      if id !in b.taken && t {
        TakeBalanced(c.costs, b.(trades := b.trades[id := m], open := b.open - {id}), id, Some(c.costs));
      }
  }

  // ---------------------------------------------------------------- every reachable state

  /** A day: each action is enabled where it is performed. */
  ghost predicate Performable(c: Config, b: Book, day: seq<Action>)
    decreases |day|
  {
    day == [] || (Linked(b) && Enabled(c, b, day[0]) && Performable(c, Do(c, b, day[0]), day[1..]))
  }

  ghost function Perform(c: Config, b: Book, day: seq<Action>): Book
    requires Performable(c, b, day)
    decreases |day|
  {
    if day == [] then b else Perform(c, Do(c, b, day[0]), day[1..])
  }

  lemma NewBookBalanced(costs: Costs.Config, date: int)
    ensures Balanced(costs, NewBook(date))
  {
    var b := NewBook(date);
    assert Unsettled(b) == {} && Settled(b) == {} && b.reserved + Unsettled(b) == {};
    assert multiset(b.risk.openSymbols) == multiset{};
  }

  // ---------------------------------------------------------------- saving and crashing

  /** The state in memory and the copy in the state file. */
  datatype Session = Session(memory: Book, file: Option<Book>)

  datatype Step = Act(action: Action) | Save | Crash

  ghost predicate CanStep(c: Config, s: Session, step: Step) {
    step.Act? ==> Linked(s.memory) && Enabled(c, s.memory, step.action)
  }

  /** A crash loses the memory; the restart reads the file, or starts the day afresh when there is none. */
  ghost function After(c: Config, date: int, s: Session, step: Step): Session
    requires CanStep(c, s, step)
  {
    match step
    case Act(a) => s.(memory := Do(c, s.memory, a))
    case Save => s.(file := Some(s.memory))
    case Crash => s.(memory := if s.file.Some? then s.file.value else NewBook(date))
  }

  ghost predicate Runs(c: Config, date: int, s: Session, steps: seq<Step>, s': Session)
    decreases |steps|
  {
    if steps == [] then s' == s else CanStep(c, s, steps[0]) && Runs(c, date, After(c, date, s, steps[0]), steps[1..], s')
  }

  /** The accounts balance in memory and in the file, wherever crashes fall between the actions and the saves. */
  lemma {:induction false} BalancedAcrossCrashes(c: Config, date: int, s: Session, steps: seq<Step>, s': Session)
    requires Balanced(c.costs, s.memory) && (s.file.Some? ==> Balanced(c.costs, s.file.value))
    requires Runs(c, date, s, steps, s')
    ensures Balanced(c.costs, s'.memory) && (s'.file.Some? ==> Balanced(c.costs, s'.file.value))
    decreases |steps|
  {
    hide Balanced, Do, Enabled, Linked;
    if steps != [] {
      NewBookBalanced(c.costs, date);
      if steps[0].Act? {
        DoBalanced(c, s.memory, steps[0].action);
      }
      BalancedAcrossCrashes(c, date, After(c, date, s, steps[0]), steps[1..], s');
    }
  }

  /** On every reachable state of a day, crashes included: reserved and taken are disjoint; the count is the entries is
      reserved plus taken; the open symbols are those of the open entries; the realized R is that of the closed entries
      and equals the net R of exactly the taken trades that closed, each once, whichever of Taken and close came first. */
  lemma SlotAccounting(c: Config, date: int, steps: seq<Step>, s: Session)
    requires Runs(c, date, Session(NewBook(date), None), steps, s)
    ensures var b := s.memory;
            && b.reserved !! b.taken
            && b.risk.tradesTaken == |b.risk.taken| == |b.reserved| + |b.taken|
            && multiset(b.risk.openSymbols) == OpenBag(b.risk.taken)
            && b.taken <= b.trades.Keys
            && b.risk.realizedR == ClosedSum(b.risk.taken) == NetSum(Settled(b), b.trades, c.costs)
            && ClosedCount(b.risk.taken) == |Settled(b)|
  {
    NewBookBalanced(c.costs, date);
    BalancedAcrossCrashes(c, date, Session(NewBook(date), None), steps, s);
    var b := s.memory;
    assert b.taken == Unsettled(b) + Settled(b);
    assert |b.reserved + Unsettled(b)| == |b.reserved| + |Unsettled(b)|;
  }
}
