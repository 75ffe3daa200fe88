/**
 The entries of the risk state are the day's trades: each reserved or taken trade has exactly its own entry,
 with its symbol, its strategy and, once it is settled, its net R.  So the rules of the day can be read off
 the trades.
 */
module SlotTrades {
  import opened Common
  import opened Positions
  import opened Limits
  import opened Slots
  import opened SlotRuns
  import opened SlotCap
  import Costs

  // ---------------------------------------------------------------- entries and trades, one to one

  /** The entries are those of the ids, whose symbols differ. */
  ghost predicate Pairs(of: map<int, Entry>, es: seq<Entry>) {
    && Distinct(es)
    && (forall x, y :: x in of && y in of && x != y ==> of[x].symbol != of[y].symbol)
    && (forall id :: id in of ==> of[id] in es)
    && (forall e :: e in es ==> exists id :: id in of && of[id] == e)
  }

  lemma PairsRegister(of: map<int, Entry>, r: RiskState, id: int, symbol: string, strategy: string)
    requires Pairs(of, r.taken) && id !in of && forall e :: e in r.taken ==> e.symbol != symbol
    ensures Pairs(of[id := Entry(symbol, strategy, false, None)], Registered(r, symbol, strategy).taken)
  {
    var e, es := Entry(symbol, strategy, false, None), Registered(r, symbol, strategy).taken;
    var of' := of[id := e];
    var n := |r.taken|;
    assert es[n] == e && forall i :: 0 <= i < n ==> es[i] == r.taken[i] && es[i] in r.taken;
    forall x | x in es ensures exists i :: i in of' && of'[i] == x {
      if x in r.taken {
        var i :| i in of && of[i] == x;
        assert of'[i] == x;
      } else {
        assert of'[id] == x;
      }
    }
  }

  /** Where the one entry of a symbol is. */
  lemma PlaceOf(of: map<int, Entry>, es: seq<Entry>, id: int) returns (i: nat)
    requires Pairs(of, es) && id in of && !of[id].closed
    ensures i < |es| && es[i] == of[id] && FirstOpen(es, of[id].symbol) == i == LastOpen(es, of[id].symbol)
  {
    i :| 0 <= i < |es| && es[i] == of[id];
    FirstOpenIs(es, of[id].symbol, i);
    LastOpenIs(es, of[id].symbol, i);
  }

  lemma OnlyOne(of: map<int, Entry>, es: seq<Entry>, id: int, i: nat, x: Entry)
    requires Pairs(of, es) && id in of && i < |es| && es[i] == of[id]
    ensures x in es[..i] + es[i + 1..] <==> x in es && x != of[id]
  {
    var rest := es[..i] + es[i + 1..];
    assert forall j :: 0 <= j < |rest| ==> rest[j] == es[if j < i then j else j + 1];
    if x in es && x != of[id] {
      var j :| 0 <= j < |es| && es[j] == x;
      assert rest[if j < i then j else j - 1] == x;
    }
  }

  lemma PairsRelease(of: map<int, Entry>, r: RiskState, id: int)
    requires Pairs(of, r.taken) && id in of && !of[id].closed
    ensures Pairs(of - {id}, Released(r, of[id].symbol).taken)
  {
    var i := PlaceOf(of, r.taken, id);
    var es, of' := r.taken[..i] + r.taken[i + 1..], of - {id};
    assert Released(r, of[id].symbol).taken == es;
    ReleaseDistinct(r, of[id].symbol);
    forall x ensures x in es <==> x in r.taken && x != of[id] {
      OnlyOne(of, r.taken, id, i, x);
    }
    hide Distinct;
    forall e | e in es ensures exists j :: j in of' && of'[j] == e {
      var j :| j in of && of[j] == e;
      assert j in of' && of'[j] == e;
    }
  }

  lemma OthersDiffer(es: seq<Entry>, i: nat)
    requires Distinct(es) && i < |es|
    ensures forall j :: 0 <= j < |es| && j != i ==> es[j].symbol != es[i].symbol
  {
  }

  lemma PairsExit(of: map<int, Entry>, r: RiskState, id: int, net: real)
    requires Pairs(of, r.taken) && id in of && !of[id].closed
    ensures var e := of[id]; Pairs(of[id := Entry(e.symbol, e.strategy, true, Some(net))], Exited(r, e.symbol, net).taken)
  {
    var e := of[id];
    var i := PlaceOf(of, r.taken, id);
    var done := Entry(e.symbol, e.strategy, true, Some(net));
    var es, of' := r.taken[i := done], of[id := done];
    assert Exited(r, e.symbol, net).taken == es;
    OthersDiffer(r.taken, i);
    ExitSymbols(r, e.symbol, net);
    SameSet(es, r.taken);
    hide Distinct, Exited, SymbolsOf;
    forall x | x in of' ensures of'[x] in es {
      if x != id {
        var j :| 0 <= j < |r.taken| && r.taken[j] == of[x];
        assert es[j] == of[x];
      } else {
        assert es[i] == done;
      }
    }
    forall x | x in es ensures exists j :: j in of' && of'[j] == x {
      var j :| 0 <= j < |es| && es[j] == x;
      if j == i {
        assert of'[id] == x;
      } else {
        assert r.taken[j] in r.taken;
        var y :| y in of && of[y] == r.taken[j];
        assert of'[y] == x;
      }
    }
  }

  // ---------------------------------------------------------------- the entries of a book

  ghost function Held(b: Book): set<int> { b.reserved + b.taken }

  /** What the risk state holds about a reserved or taken trade. */
  ghost function EntryOf(costs: Costs.Config, b: Book, id: int): Entry
    requires id in b.trades
  {
    var m := b.trades[id];
    if id in b.taken && m.closed then Entry(m.symbol, m.strategy, true, Some(NetR(costs, m)))
    else Entry(m.symbol, m.strategy, false, None)
  }

  ghost function EntriesOf(costs: Costs.Config, b: Book): map<int, Entry>
    requires Held(b) <= b.trades.Keys
  {
    map id | id in Held(b) :: EntryOf(costs, b, id)
  }

  ghost predicate Paired(costs: Costs.Config, b: Book) {
    Held(b) <= b.trades.Keys && b.reserved !! b.taken && Pairs(EntriesOf(costs, b), b.risk.taken)
  }

  /** The same entries, the same trades behind them. */
  lemma SameEntries(costs: Costs.Config, b: Book, b': Book)
    requires Paired(costs, b) && Held(b') == Held(b) && b'.reserved !! b'.taken && b'.risk == b.risk && Held(b) <= b'.trades.Keys
    requires forall id :: id in Held(b) ==> EntryOf(costs, b', id) == EntryOf(costs, b, id)
    ensures Paired(costs, b')
  {
    hide Pairs, EntryOf;
    assert EntriesOf(costs, b') == EntriesOf(costs, b);
  }

  lemma EnterPaired(costs: Costs.Config, b: Book, id: int, m: Meta, t: bool)
    requires Paired(costs, b) && id !in b.trades && !m.closed && forall e :: e in b.risk.taken ==> e.symbol != m.symbol
    ensures Paired(costs, Slots.Enter(b, id, m, t))
  {
    hide Pairs, NetR, Registered;
    var b' := Slots.Enter(b, id, m, t);
    PairsRegister(EntriesOf(costs, b), b.risk, id, m.symbol, m.strategy);
    assert b'.risk == Registered(b.risk, m.symbol, m.strategy);
    assert EntriesOf(costs, b') == EntriesOf(costs, b)[id := Entry(m.symbol, m.strategy, false, None)];
  }

  /** A Taken on time moves the reservation, and settles a close that was known. */
  lemma TakePaired(costs: Costs.Config, b: Book, id: int, withCosts: Option<Costs.Config>)
    requires Paired(costs, b) && id in Held(b)
    requires withCosts == Some(costs) || (withCosts.None? && !b.trades[id].closed)
    ensures Paired(costs, Take(b, id, withCosts))
  {
    hide Pairs, NetR, Exited, Registered;
    if id !in b.taken {
      var m, b' := b.trades[id], Take(b, id, withCosts);
      assert Held(b') == Held(b);
      if m.closed {
        PairsExit(EntriesOf(costs, b), b.risk, id, NetR(costs, m));
        assert EntriesOf(costs, b')
            == EntriesOf(costs, b)[id := Entry(m.symbol, m.strategy, true, Some(NetR(costs, m)))];
      } else {
        SameEntries(costs, b, b');
      }
    }
  }

  lemma ReleasePaired(costs: Costs.Config, b: Book, id: int)
    requires Paired(costs, b)
    ensures b.reserved <= b.trades.Keys && Paired(costs, Release(b, id))
  {
    hide Pairs, NetR, Released;
    if id in b.reserved {
      PairsRelease(EntriesOf(costs, b), b.risk, id);
      assert EntriesOf(costs, Release(b, id)) == EntriesOf(costs, b) - {id};
    }
  }

  lemma {:induction false} ExpirePaired(costs: Costs.Config, b: Book, ids: seq<int>, now: int)
    requires Paired(costs, b) && forall i :: 0 <= i < |ids| ==> ids[i] in b.trades
    ensures b.reserved <= b.trades.Keys && Paired(costs, ReleaseExpired(b, ids, now))
    decreases |ids|
  {
    hide Pairs, Release;
    if ids != [] {
      ExpirePaired(costs, b, ids[..|ids| - 1], now);
      ReleasePaired(costs, ReleaseExpired(b, ids[..|ids| - 1], now), ids[|ids| - 1]);
    }
  }

  /** Changing what is kept about a trade that is not settled. */
  lemma AmendPaired(costs: Costs.Config, b: Book, id: int, m: Meta)
    requires Paired(costs, b) && id in b.trades && !b.trades[id].closed && !m.closed
    requires m.symbol == b.trades[id].symbol && m.strategy == b.trades[id].strategy
    ensures Paired(costs, b.(trades := b.trades[id := m]))
  {
    hide Pairs, NetR;
    SameEntries(costs, b, b.(trades := b.trades[id := m]));
  }

  lemma LegKeepsTrade(m: Meta, e: Event)
    ensures var m' := BookLeg(m, e); m'.symbol == m.symbol && m'.strategy == m.strategy && m'.closed == m.closed
  {
  }

  lemma HeldByTake(b: Book, id: int, withCosts: Option<Costs.Config>)
    requires id in b.trades && id in Held(b)
    ensures Held(Take(b, id, withCosts)) == Held(b)
  {
    hide NetR, Exited;
  }

  lemma {:induction false} BookEventsPaired(costs: Costs.Config, b: Book, es: seq<Event>, t: set<int>)
    requires Paired(costs, b) && forall i :: 0 <= i < |es| ==> es[i].tradeId in b.trades && !b.trades[es[i].tradeId].closed
    requires EventIds(es) * t <= Held(b)
    ensures var b' := BookEvents(b, es, t);
            Paired(costs, b') && Held(b') == Held(b) && b'.trades.Keys == b.trades.Keys
            && forall id :: id in b.trades ==> b'.trades[id].closed == b.trades[id].closed
    decreases |es|
  {
    hide Paired, BookLeg;
    if es != [] {
      var n := |es| - 1;
      var a, e := BookEvents(b, es[..n], t), es[n];
      assert EventIds(es) == EventIds(es[..n]) + {e.tradeId};
      BookEventsPaired(costs, b, es[..n], t);
      LegKeepsTrade(a.trades[e.tradeId], e);
      AmendPaired(costs, a, e.tradeId, BookLeg(a.trades[e.tradeId], e));
      var d := a.(trades := a.trades[e.tradeId := BookLeg(a.trades[e.tradeId], e)]);
      if e.tradeId in t {
        assert e.tradeId in Held(d);
        TakePaired(costs, d, e.tradeId, None);
        HeldByTake(d, e.tradeId, None);
      }
    }
  }

  /** Closing an open trade settles it if it was taken. */
  lemma ShutPaired(costs: Costs.Config, b: Book, id: int, m: Meta)
    requires Paired(costs, b) && id in b.trades && !b.trades[id].closed && m.closed
    requires m.symbol == b.trades[id].symbol && m.strategy == b.trades[id].strategy
    ensures Paired(costs, Shut(b, id, m, costs)) && Held(Shut(b, id, m, costs)) == Held(b)
  {
    hide Pairs, NetR, Exited;
    var b' := Shut(b, id, m, costs);
    if id in b.taken {
      PairsExit(EntriesOf(costs, b), b.risk, id, NetR(costs, m));
      assert EntriesOf(costs, b') == EntriesOf(costs, b)[id := Entry(m.symbol, m.strategy, true, Some(NetR(costs, m)))];
    } else {
      SameEntries(costs, b, b');
    }
  }

  /** Ids of trades that are not closed. */
  ghost predicate AllOpen(b: Book, ids: seq<int>) {
    forall i {:trigger ids[i]} :: 0 <= i < |ids| ==> ids[i] in b.trades && !b.trades[ids[i]].closed
  }

  lemma ShutTrades(b: Book, id: int, m: Meta, costs: Costs.Config)
    ensures Shut(b, id, m, costs).trades == b.trades[id := m]
  {
    hide NetR, Exited;
  }

  lemma {:induction false} CloseIdsPaired(costs: Costs.Config, b: Book, ids: seq<int>)
    requires Paired(costs, b) && DistinctSeq(ids) && AllOpen(b, ids)
    ensures var b' := CloseIds(b, ids, costs);
            Paired(costs, b') && b'.trades.Keys == b.trades.Keys
            && forall id :: id in b.trades && id !in ids ==> b'.trades[id] == b.trades[id]
    decreases |ids|
  {
    hide Paired, NetR, CloseOne, Shut;
    if ids != [] {
      var n := |ids| - 1;
      assert ids == ids[..n] + [ids[n]];
      CloseIdsPaired(costs, b, ids[..n]);
      var a := CloseIds(b, ids[..n], costs);
      assert ids[n] !in ids[..n];
      CloseOneIsShut(a, ids[n], costs);
      ShutPaired(costs, a, ids[n], a.trades[ids[n]].(closed := true));
      ShutTrades(a, ids[n], a.trades[ids[n]].(closed := true), costs);
    }
  }

  // ---------------------------------------------------------------- every action, every run

  lemma OpenClosed(costs: Costs.Config, b: Book)
    requires Balanced(costs, b)
    ensures b.open <= b.trades.Keys && forall id :: id in b.open ==> !b.trades[id].closed
  {
  }

  lemma OnTimeHeld(b: Book, es: seq<Event>, closers: seq<int>, t: set<int>)
    requires Late(b, RouteEvents(es, closers, t)) == {}
    ensures EventIds(es) * t <= Held(b)
  {
    forall id | id in EventIds(es) * t ensures id in Held(b) {
      assert id !in Late(b, RouteEvents(es, closers, t));
    }
  }

  lemma RouteStays(costs: Costs.Config, b: Book, es: seq<Event>, closers: seq<int>, t: set<int>)
    requires Paired(costs, b) && EventIds(es) * t <= Held(b) && DistinctSeq(closers) && AllOpen(b, closers)
    requires forall i :: 0 <= i < |es| ==> es[i].tradeId in b.trades && !b.trades[es[i].tradeId].closed
    ensures forall i :: 0 <= i < |closers| ==> closers[i] in b.trades
    ensures Paired(costs, Route(b, es, closers, t, costs))
  {
    hide Paired, BookEvents, CloseIds, EventIds, DistinctSeq, Held;
    BookEventsPaired(costs, b, es, t);
    var a := BookEvents(b, es, t);
    forall i | 0 <= i < |closers| ensures closers[i] in a.trades && !a.trades[closers[i]].closed {
      var id := closers[i];
      assert id in b.trades && !b.trades[id].closed;
    }
    CloseIdsPaired(costs, BookEvents(b, es, t), closers);
  }

  lemma RouteOpen(c: Config, b: Book, es: seq<Event>, closers: seq<int>, t: set<int>)
    requires Balanced(c.costs, b) && Enabled(c, b, RouteEvents(es, closers, t))
    ensures AllOpen(b, closers) && DistinctSeq(closers)
    ensures forall i :: 0 <= i < |es| ==> es[i].tradeId in b.trades && !b.trades[es[i].tradeId].closed
  {
    OpenClosed(c.costs, b);
    hide Balanced;
    forall i | 0 <= i < |closers| ensures closers[i] in b.trades && !b.trades[closers[i]].closed {
      var id := closers[i];
      assert id in b.open;
    }
  }

  lemma RoutePaired(c: Config, b: Book, es: seq<Event>, closers: seq<int>, t: set<int>)
    requires Balanced(c.costs, b) && Paired(c.costs, b) && Linked(b) && Enabled(c, b, RouteEvents(es, closers, t))
    requires Late(b, RouteEvents(es, closers, t)) == {}
    ensures Paired(c.costs, Do(c, b, RouteEvents(es, closers, t)))
  {
    OnTimeHeld(b, es, closers, t);
    RouteOpen(c, b, es, closers, t);
    hide Balanced, Paired, Route, Late, EventIds, DistinctSeq, AllOpen, Held;
    RouteStays(c.costs, b, es, closers, t);
  }

  lemma RecoverPaired(c: Config, b: Book, id: int, g: real, t: bool)
    requires Balanced(c.costs, b) && Paired(c.costs, b) && id in b.open && (t ==> id in Held(b))
    ensures id in b.trades && Paired(c.costs, RecoverClose(b, id, g, t, c.costs))
  {
    OpenClosed(c.costs, b);
    var m: Meta := b.trades[id].(grossR := g, closed := true);
    ShutPaired(c.costs, b, id, m);
    hide Balanced, Paired, NetR, Take, Exited;
    if id !in b.taken && t {
      var d := b.(trades := b.trades[id := m], open := b.open - {id});
      assert Shut(b, id, m, c.costs) == d;
      TakePaired(c.costs, d, id, Some(c.costs));
    }
  }

  lemma AdoptPaired(c: Config, b: Book, id: int, m: Meta)
    requires Paired(c.costs, b) && id !in b.trades
    ensures Paired(c.costs, OpenPosition(b, id, m))
  {
    hide Pairs, NetR;
    SameEntries(c.costs, b, OpenPosition(b, id, m));
  }

  lemma TapHeld(b: Book, id: int)
    requires Late(b, Tap(id)) == {}
    ensures id in Held(b)
  {
    assert id !in Late(b, Tap(id));
  }

  lemma RecoverHeld(b: Book, id: int, g: real)
    requires Late(b, RecoverExit(id, g, true)) == {}
    ensures id in Held(b)
  {
    assert id !in Late(b, RecoverExit(id, g, true));
  }

  lemma NeverLateAdoption(c: Config, b: Book, id: int, m: Meta)
    requires Balanced(c.costs, b) && Enabled(c, b, AdoptTrade(id, m, true))
    ensures Late(b, AdoptTrade(id, m, true)) != {}
  {
    assert id in Late(b, AdoptTrade(id, m, true));
  }

  lemma EntryAllowed(c: Config, b: Book, id: int, m: Meta, date: int, t: bool)
    requires Balanced(c.costs, b) && Enabled(c, b, Enter(id, m, date, t))
    ensures id !in b.trades && !m.closed && forall e :: e in b.risk.taken ==> e.symbol != m.symbol
  {
    AllowedIff(b.risk, date, m.symbol, m.strategy, c.maxTrades, c.lossLimit);
    hide CheckLimits, Ledger;
  }

  lemma SameButSeen(costs: Costs.Config, b: Book, b': Book)
    requires Paired(costs, b) && b' == b.(seen := b'.seen)
    ensures Paired(costs, b')
  {
    hide Pairs, NetR;
    SameEntries(costs, b, b');
  }

  /** An action whose Takens are on time keeps each entry its trade's. */
  lemma ActionPaired(c: Config, b: Book, a: Action)
    requires Balanced(c.costs, b) && Paired(c.costs, b) && Enabled(c, b, a) && Late(b, a) == {}
    ensures Linked(b) && Paired(c.costs, Do(c, b, a))
  {
    BookShape(c.costs, b);
    OpenClosed(c.costs, b);
    hide Balanced, Paired, NetR, BookEvents, CloseIds, ReleaseExpired, Registered, Released, Exited, Take, RecoverClose, Route,
         Release, EventIds, CheckLimits, DistinctSeq, Late, Slots.Enter;
    match a
    case Refuse(_) => SameButSeen(c.costs, b, Do(c, b, a));
    case Enter(id, m, date, t) =>
      EntryAllowed(c, b, id, m, date, t);
      EnterPaired(c.costs, b, id, m, t);
    case Tap(id) =>
      TapHeld(b, id);
      TakePaired(c.costs, b, id, Some(c.costs));
    case Skip(id) => ReleasePaired(c.costs, b, id);
    case Expire(ids, now) => ExpirePaired(c.costs, b, ids, now);
    case RouteEvents(es, closers, t) => RoutePaired(c, b, es, closers, t);
    case AdoptTrade(id, m, t) =>
      AdoptPaired(c, b, id, m);
      if t {
        NeverLateAdoption(c, b, id, m);
      }
    case RecoverLegs(id, g) => AmendPaired(c.costs, b, id, b.trades[id].(grossR := g));
    case RecoverExit(id, g, t) =>
      if t {
        RecoverHeld(b, id, g);
      }
      RecoverPaired(c, b, id, g, t);
  }

  lemma NewBookPaired(costs: Costs.Config, date: int)
    ensures Paired(costs, NewBook(date))
  {
    assert EntriesOf(costs, NewBook(date)) == map[];
  }

  ghost predicate Good(c: Config, b: Book) {
    Balanced(c.costs, b) && Paired(c.costs, b)
  }

  lemma {:induction false} RunPaired(c: Config, date: int, s: Session, steps: seq<Step>, s': Session)
    requires Runs(c, date, s, steps, s') && AlwaysOnTime(c, date, s, steps)
    requires Good(c, s.memory) && (s.file.Some? ==> Good(c, s.file.value))
    ensures Good(c, s'.memory)
    decreases |steps|
  {
    hide Balanced, Paired, Do, Enabled, Late, Linked;
    if steps != [] {
      NewBookBalanced(c.costs, date);
      NewBookPaired(c.costs, date);
      if steps[0].Act? {
        DoBalanced(c, s.memory, steps[0].action);
        ActionPaired(c, s.memory, steps[0].action);
      }
      RunPaired(c, date, SlotRuns.After(c, date, s, steps[0]), steps[1..], s');
    }
  }

  /** On every run without late Takens, saves and crashes anywhere: the entries of the risk state are exactly those of the
      reserved and taken trades, each with its trade's symbol and strategy and, once settled, its net R; and no two of those
      trades share a symbol. */
  lemma EntriesAreTrades(c: Config, date: int, steps: seq<Step>, s: Session)
    requires Runs(c, date, Session(NewBook(date), None), steps, s)
    requires AlwaysOnTime(c, date, Session(NewBook(date), None), steps)
    ensures var b := s.memory;
            && Held(b) <= b.trades.Keys
            && (forall id :: id in Held(b) ==> EntryOf(c.costs, b, id) in b.risk.taken)
            && (forall e :: e in b.risk.taken ==> exists id :: id in Held(b) && e == EntryOf(c.costs, b, id))
            && (forall x, y :: x in Held(b) && y in Held(b) && x != y ==> b.trades[x].symbol != b.trades[y].symbol)
  {
    NewBookBalanced(c.costs, date);
    NewBookPaired(c.costs, date);
    RunPaired(c, date, Session(NewBook(date), None), steps, s);
    hide Balanced, NetR, Distinct;
    var b := s.memory;
    var of := EntriesOf(c.costs, b);
    assert forall id :: id in Held(b) ==> of[id] == EntryOf(c.costs, b, id) && of[id].symbol == b.trades[id].symbol;
  }

  // ---------------------------------------------------------------- the gate, read off the trades

  /** A slot is left, nothing of the symbol is reserved or taken, and no settled trade of the strategy lost a full R. */
  ghost predicate RoomFor(c: Config, b: Book, symbol: string, strategy: string)
    requires Held(b) <= b.trades.Keys
  {
    && |b.reserved| + |b.taken| < c.maxTrades
    && (forall id :: id in Held(b) ==> b.trades[id].symbol != symbol)
    && (forall id :: id in Settled(b) ==> !(b.trades[id].strategy == strategy && NetR(c.costs, b.trades[id]) <= -0.999999999))
  }

  lemma OpenSymbolsAreHeld(r: RiskState, symbol: string)
    requires multiset(r.openSymbols) == OpenBag(r.taken) && symbol in r.openSymbols
    ensures exists e :: e in r.taken && e.symbol == symbol
  {
    assert symbol in multiset(r.openSymbols);
    OpenBagMembers(r.taken, symbol);
    assert OpenFor(r.taken[FirstOpen(r.taken, symbol)], symbol);
    assert r.taken[FirstOpen(r.taken, symbol)] in r.taken;
  }

  lemma RulesAreTrades(c: Config, b: Book, symbol: string, strategy: string)
    requires Held(b) <= b.trades.Keys && b.reserved !! b.taken
    requires forall id :: id in Held(b) ==> EntryOf(c.costs, b, id) in b.risk.taken
    requires forall e :: e in b.risk.taken ==> exists id :: id in Held(b) && e == EntryOf(c.costs, b, id)
    ensures (forall e :: e in b.risk.taken ==> e.symbol != symbol)
      <==> (forall id :: id in Held(b) ==> b.trades[id].symbol != symbol)
    ensures (forall e :: e in b.risk.taken ==>
               !(e.strategy == strategy && e.closed && e.netR.Some? && e.netR.value <= -0.999999999))
       <==> (forall id :: id in Settled(b) ==> !(b.trades[id].strategy == strategy && NetR(c.costs, b.trades[id]) <= -0.999999999))
  {
    hide NetR;
    if id :| id in Held(b) && b.trades[id].symbol == symbol {
      assert EntryOf(c.costs, b, id).symbol == symbol;
    }
    if id :| id in Settled(b) && b.trades[id].strategy == strategy && NetR(c.costs, b.trades[id]) <= -0.999999999 {
      assert id in Held(b);
      var e := EntryOf(c.costs, b, id);
      assert e in b.risk.taken && e.strategy == strategy && e.closed && e.netR.Some? && e.netR.value <= -0.999999999;
    }
  }

  /** On every run without late Takens, saves and crashes anywhere: a signal passes the day's rules if and only if it is of
      the day, the settled trades together have not lost the limit, fewer trades than allowed are reserved or taken, none of
      those is of its symbol, and none of its strategy was settled at a full R's loss. */
  lemma GateIff(c: Config, date: int, steps: seq<Step>, s: Session, today: int, symbol: string, strategy: string)
    requires Runs(c, date, Session(NewBook(date), None), steps, s)
    requires AlwaysOnTime(c, date, Session(NewBook(date), None), steps)
    ensures var b := s.memory;
            && Held(b) <= b.trades.Keys
            && (CheckLimits(b.risk, today, symbol, strategy, c.maxTrades, c.lossLimit).None?
                <==> && b.risk.date == today
                     && NetSum(Settled(b), b.trades, c.costs) > -c.lossLimit + 0.000000001
                     && RoomFor(c, b, symbol, strategy))
  {
    var b := s.memory;
    SlotAccounting(c, date, steps, s);
    EntriesAreTrades(c, date, steps, s);
    hide Runs, AlwaysOnTime, CheckLimits, NetSum, OpenBag, ClosedSum, ClosedCount;
    AllowedIff(b.risk, today, symbol, strategy, c.maxTrades, c.lossLimit);
    RulesAreTrades(c, b, symbol, strategy);
    if symbol in b.risk.openSymbols {
      OpenSymbolsAreHeld(b.risk, symbol);
    }
  }
}
