/**
 The daily cap and the independence of the slots.  Only a Taken that finds no reservation can push the
 count past the cap or repeat a symbol; the exact step at which that happens is stated.
 */
module SlotCap {
  import opened Common
  import opened Positions
  import opened Limits
  import opened Slots
  import opened SlotRuns
  import Costs

  // ---------------------------------------------------------------- what an action takes and frees

  ghost function EventIds(es: seq<Event>): set<int>
    decreases |es|
  {
    if es == [] then {} else EventIds(es[..|es| - 1]) + {es[|es| - 1].tradeId}
  }

  /** The trades an action counts as taken, were they not already. */
  ghost function Takes(b: Book, a: Action): set<int> {
    match a
    case Refuse(_) => {}
    case Enter(id, _, _, t) => if t then {id} else {}
    case Tap(id) => {id}
    case Skip(_) => {}
    case Expire(_, _) => {}
    case RouteEvents(es, _, t) => EventIds(es) * t
    case AdoptTrade(id, _, t) => if t then {id} else {}
    case RecoverLegs(_, _) => {}
    case RecoverExit(id, _, t) => if t then {id} else {}
  }

  ghost function ExpiredIds(b: Book, ids: seq<int>, now: int): set<int>
    requires forall i :: 0 <= i < |ids| ==> ids[i] in b.trades
    decreases |ids|
  {
    if ids == [] then {} else
    ExpiredIds(b, ids[..|ids| - 1], now) + if Expired(b.trades[ids[|ids| - 1]], now) then {ids[|ids| - 1]} else {}
  }

  /** The reservations an action gives back. */
  ghost function Frees(c: Config, b: Book, a: Action): set<int>
    requires Enabled(c, b, a)
  {
    match a
    case Refuse(_) => {}
    case Enter(_, _, _, _) => {}
    case Tap(_) => {}
    case Skip(id) => {id} * b.reserved
    case Expire(ids, now) => ExpiredIds(b, ids, now) * b.reserved
    case RouteEvents(_, _, _) => {}
    case AdoptTrade(_, _, _) => {}
    case RecoverLegs(_, _) => {}
    case RecoverExit(_, _, _) => {}
  }

  /** The trades taken without a slot: the reservation was released before, or there never was one. */
  ghost function Late(b: Book, a: Action): set<int> {
    if a.Enter? then {} else Takes(b, a) - b.taken - b.reserved
  }

  lemma TakeSlots(b: Book, id: int)
    requires id in b.trades
    ensures var b' := Take(b, id, None);
            && b'.taken == b.taken + {id} && b'.reserved == b.reserved - ({id} - b.taken)
            && (id in b.taken + b.reserved ==> b'.risk == b.risk)
  {
    if id in b.taken {
      assert {id} - b.taken == {} && b.taken + {id} == b.taken;
    } else {
      assert {id} - b.taken == {id};
    }
  }

  lemma OneMore(r: set<int>, t: set<int>, s: set<int>, id: int)
    ensures (t + s) + {id} == t + (s + {id})
    ensures r - (s - t) - ({id} - (t + s)) == r - (s + {id} - t)
  {
  }

  lemma {:induction false} BookEventsSlots(b: Book, es: seq<Event>, t: set<int>)
    requires forall i :: 0 <= i < |es| ==> es[i].tradeId in b.trades
    ensures var b' := BookEvents(b, es, t);
            && b'.taken == b.taken + EventIds(es) * t && b'.reserved == b.reserved - (EventIds(es) * t - b.taken)
            && (EventIds(es) * t <= b.taken + b.reserved ==> b'.risk == b.risk)
    decreases |es|
  {
    hide BookLeg, Take;
    if es == [] {
      assert EventIds(es) * t == {} && EventIds(es) * t - b.taken == {};
    } else {
      var n := |es| - 1;
      var a, id := BookEvents(b, es[..n], t), es[n].tradeId;
      var was, now := EventIds(es[..n]) * t, EventIds(es) * t;
      BookEventsSlots(b, es[..n], t);
      if id in t {
        assert now == was + {id};
        TakeSlots(a.(trades := a.trades[id := BookLeg(a.trades[id], es[n])]), id);
        OneMore(b.reserved, b.taken, was, id);
      } else {
        assert now == was;
      }
    }
  }

  ghost predicate SameSymbols(a: seq<Entry>, b: seq<Entry>) {
    |a| == |b| && forall i :: 0 <= i < |a| ==> a[i].symbol == b[i].symbol
  }

  lemma {:induction false} CloseIdsSlots(b: Book, ids: seq<int>, costs: Costs.Config)
    requires forall i :: 0 <= i < |ids| ==> ids[i] in b.trades
    ensures var b' := CloseIds(b, ids, costs);
            && b'.taken == b.taken && b'.reserved == b.reserved && b'.risk.tradesTaken == b.risk.tradesTaken
            && SameSymbols(b'.risk.taken, b.risk.taken)
    decreases |ids|
  {
    hide NetR;
    if ids != [] {
      CloseIdsSlots(b, ids[..|ids| - 1], costs);
    }
  }

  ghost predicate Distinct(es: seq<Entry>) {
    forall i, j :: 0 <= i < j < |es| ==> es[i].symbol != es[j].symbol
  }

  lemma ReleaseDistinct(r: RiskState, symbol: string)
    requires Distinct(r.taken)
    ensures Distinct(Released(r, symbol).taken)
  {
    var i := LastOpen(r.taken, symbol);
    if i >= 0 {
      var es := r.taken[..i] + r.taken[i + 1..];
      assert forall j :: 0 <= j < |es| ==> es[j] == r.taken[if j < i then j else j + 1];
    }
  }

  lemma {:induction false} ExpireSlots(b: Book, ids: seq<int>, now: int)
    requires b.reserved <= b.trades.Keys && forall i :: 0 <= i < |ids| ==> ids[i] in b.trades
    ensures var b' := ReleaseExpired(b, ids, now);
            && b'.taken == b.taken && b'.reserved == b.reserved - ExpiredIds(b, ids, now)
            && (Distinct(b.risk.taken) ==> Distinct(b'.risk.taken))
    decreases |ids|
  {
    hide Released, Distinct;
    if ids != [] {
      var n := |ids| - 1;
      ExpireSlots(b, ids[..n], now);
      var a := ReleaseExpired(b, ids[..n], now);
      if Distinct(a.risk.taken) {
        ReleaseDistinct(a.risk, a.trades[ids[n]].symbol);
      }
    }
  }

  lemma TapMoves(b: Book, id: int, costs: Costs.Config)
    requires id in b.trades
    ensures var b' := Take(b, id, Some(costs));
            b'.taken == b.taken + ({id} - b.taken) && b'.reserved == b.reserved - ({id} - b.taken) - {}
  {
    hide NetR, Exited, Registered;
    if id in b.taken {
      assert {id} - b.taken == {};
    } else {
      assert {id} - b.taken == {id};
    }
  }

  lemma RecoverMoves(b: Book, id: int, g: real, t: bool, costs: Costs.Config)
    requires id in b.trades && b.reserved !! b.taken
    ensures var b', takes := RecoverClose(b, id, g, t, costs), (if t then {id} else {}) - b.taken;
            b'.taken == b.taken + takes && b'.reserved == b.reserved - takes - {}
  {
    var m := b.trades[id].(grossR := g, closed := true);
    var c := b.(trades := b.trades[id := m], open := b.open - {id});
    hide NetR, Exited, Take;
    if id !in b.taken && t {
      TapMoves(c, id, costs);
    } else if t {
      assert {id} - b.taken == {};
    } else {
      assert {} - b.taken == {};
    }
  }

  lemma Anew(r: set<int>, t: set<int>, s: set<int>)
    ensures t + (s - t) == t + s && r - (s - t) - {} == r - (s - t)
  {
  }

  lemma Within(r: set<int>, x: set<int>)
    ensures r - {} - x * r == r - x
  {
  }

  lemma SkipMoves(b: Book, id: int)
    requires b.reserved <= b.trades.Keys
    ensures var b' := Release(b, id); b'.taken == b.taken && b'.reserved == b.reserved - {} - {id} * b.reserved
  {
    hide Released;
    Within(b.reserved, {id});
    assert id !in b.reserved ==> b.reserved - {id} == b.reserved;
  }

  lemma RouteMoves(b: Book, es: seq<Event>, closers: seq<int>, t: set<int>, costs: Costs.Config)
    requires forall i :: 0 <= i < |es| ==> es[i].tradeId in b.trades
    requires forall i :: 0 <= i < |closers| ==> closers[i] in b.trades
    ensures var b', takes := Route(b, es, closers, t, costs), EventIds(es) * t - b.taken;
            b'.taken == b.taken + takes && b'.reserved == b.reserved - takes - {}
  {
    hide BookEvents, CloseIds, EventIds, SameSymbols;
    BookEventsSlots(b, es, t);
    CloseIdsSlots(BookEvents(b, es, t), closers, costs);
    Anew(b.reserved, b.taken, EventIds(es) * t);
  }

  lemma BookShape(costs: Costs.Config, b: Book)
    requires Balanced(costs, b)
    ensures b.reserved !! b.taken && b.reserved <= b.trades.Keys && b.taken <= b.trades.Keys && b.open <= b.trades.Keys
  {
  }

  /** Where every action leaves the two id sets. */
  lemma SlotsMove(c: Config, b: Book, a: Action)
    requires Balanced(c.costs, b) && Enabled(c, b, a) && !a.Enter?
    ensures Linked(b)
    ensures Do(c, b, a).reserved == b.reserved - (Takes(b, a) - b.taken) - Frees(c, b, a)
    ensures Do(c, b, a).taken == b.taken + (Takes(b, a) - b.taken)
  {
    hide Balanced, NetR, Ledger, BookEvents, CloseIds, ReleaseExpired, Registered, Released, Exited, Take, RecoverClose,
         Release, Route, EventIds, CheckLimits, DistinctSeq, Shaped, BookLeg, ExpiredIds;
    BookShape(c.costs, b);
    assert {} - b.taken == {} && b.reserved - {} == b.reserved && b.taken + {} == b.taken;
    match a
    case Refuse(_) =>
    case Enter(_, _, _, _) => assert false;
    case Tap(id) => TapMoves(b, id, c.costs);
    case Skip(id) => SkipMoves(b, id);
    case Expire(ids, now) =>
      ExpireSlots(b, ids, now);
      Within(b.reserved, ExpiredIds(b, ids, now));
    case RouteEvents(es, closers, t) => RouteMoves(b, es, closers, t, c.costs);
    case AdoptTrade(id, m, t) => if t { TapMoves(OpenPosition(b, id, m), id, c.costs); }
    case RecoverLegs(_, _) =>
    case RecoverExit(id, g, t) => RecoverMoves(b, id, g, t, c.costs);
  }

  lemma SetCounts(r: set<int>, t: set<int>, takes: set<int>, frees: set<int>)
    requires r !! t && takes !! t && frees <= r && takes !! frees
    ensures |r - takes - frees| + |t + takes| == |r| + |t| + |takes - r| - |frees|
  {
    assert takes == (takes - r) + takes * r;
    assert r == (r - takes - frees) + takes * r + frees;
    assert |r| == |(r - takes - frees) + takes * r| + |frees|;
    assert |t + takes| == |t| + |takes|;
  }

  lemma BalancedCount(costs: Costs.Config, b: Book)
    requires Balanced(costs, b)
    ensures b.reserved !! b.taken && b.risk.tradesTaken == |b.risk.taken| == |b.reserved| + |b.taken|
  {
    assert b.taken == Unsettled(b) + Settled(b);
    assert |b.reserved + Unsettled(b)| == |b.reserved| + |Unsettled(b)|;
  }

  lemma FreesApart(c: Config, b: Book, a: Action)
    requires Enabled(c, b, a)
    ensures Frees(c, b, a) <= b.reserved && Takes(b, a) !! Frees(c, b, a)
  {
    hide EventIds, ExpiredIds, CheckLimits, DistinctSeq;
  }

  /** How an action other than an entry moves the count: one up for every late Taken, one down for every slot freed. */
  lemma CountMoves(c: Config, b: Book, a: Action)
    requires Balanced(c.costs, b) && Enabled(c, b, a) && !a.Enter?
    ensures Linked(b)
    ensures Do(c, b, a).risk.tradesTaken == b.risk.tradesTaken + |Late(b, a)| - |Frees(c, b, a)|
  {
    hide Do, Balanced, Enabled, Takes, Frees;
    SlotsMove(c, b, a);
    DoBalanced(c, b, a);
    BalancedCount(c.costs, b);
    BalancedCount(c.costs, Do(c, b, a));
    var takes := Takes(b, a) - b.taken;
    assert takes - b.reserved == Late(b, a);
    FreesApart(c, b, a);
    SetCounts(b.reserved, b.taken, takes, Frees(c, b, a));
  }

  lemma EnterCounts(c: Config, b: Book, a: Action)
    requires Balanced(c.costs, b) && Enabled(c, b, a) && a.Enter?
    ensures Linked(b)
    ensures Do(c, b, a).risk == Registered(b.risk, a.meta.symbol, a.meta.strategy)
  {
    BalancedShape(c.costs, b);
    hide Ledger, Registered;
    assert a.id !in b.trades;
  }

  /** From within the cap a step passes it exactly when its late Takens, less the slots it frees, do not fit;
      in particular an entry never does. */
  lemma CapBrokenIff(c: Config, b: Book, a: Action)
    requires Balanced(c.costs, b) && Enabled(c, b, a) && b.risk.tradesTaken <= c.maxTrades
    ensures Linked(b)
    ensures Do(c, b, a).risk.tradesTaken > c.maxTrades
            <==> b.risk.tradesTaken + |Late(b, a)| - |Frees(c, b, a)| > c.maxTrades
  {
    hide Do;
    if a.Enter? {
      EnterCounts(c, b, a);
    } else {
      CountMoves(c, b, a);
    }
  }

  // ---------------------------------------------------------------- distinct symbols

  ghost function SymbolSet(es: seq<Entry>): set<string> { set s | s in SymbolsOf(es) }

  lemma {:induction false} AppendSymbols(es: seq<Entry>, e: Entry)
    ensures SymbolsOf(es + [e]) == SymbolsOf(es) + [e.symbol]
  {
    if es == [] {
      assert [e][1..] == [] && es + [e] == [e];
    } else {
      assert (es + [e])[1..] == es[1..] + [e];
      AppendSymbols(es[1..], e);
    }
  }

  /** A registration keeps the symbols distinct exactly when its symbol is not there yet. */
  lemma RegisterDistinct(r: RiskState, symbol: string, strategy: string)
    ensures var es := Registered(r, symbol, strategy).taken;
            && (Distinct(es) <==> Distinct(r.taken) && symbol !in SymbolSet(r.taken))
            && SymbolSet(es) == SymbolSet(r.taken) + {symbol}
  {
    var es := Registered(r, symbol, strategy).taken;
    var n := |r.taken|;
    SymbolsOfIn(r.taken, symbol);
    assert forall i :: 0 <= i < n ==> es[i] == r.taken[i];
    assert es[n].symbol == symbol;
    if i :| 0 <= i < n && r.taken[i].symbol == symbol {
      assert es[i].symbol == es[n].symbol;
    }
    AppendSymbols(r.taken, es[n]);
    hide SymbolsOf;
    assert SymbolSet(es) == SymbolSet(r.taken) + {symbol};
  }

  lemma ExitSymbols(r: RiskState, symbol: string, netR: real)
    ensures SameSymbols(Exited(r, symbol, netR).taken, r.taken)
  {
  }

  lemma {:induction false} SameSet(a: seq<Entry>, b: seq<Entry>)
    requires SameSymbols(a, b)
    ensures Distinct(a) <==> Distinct(b)
    ensures SymbolsOf(a) == SymbolsOf(b)
  {
    if a != [] {
      assert a[0].symbol == b[0].symbol;
      assert SameSymbols(a[1..], b[1..]);
      SameSet(a[1..], b[1..]);
    }
  }

  ghost function LateSymbols(late: set<int>, trades: map<int, Meta>): set<string>
    requires late <= trades.Keys
  {
    set id | id in late :: trades[id].symbol
  }

  /** A late id whose symbol already has an entry, or two late ids of one symbol. */
  ghost predicate Repeats(taken: seq<Entry>, late: set<int>, trades: map<int, Meta>)
    requires late <= trades.Keys
  {
    || (exists id :: id in late && trades[id].symbol in SymbolsOf(taken))
    || (exists x, y :: x in late && y in late && x != y && trades[x].symbol == trades[y].symbol)
  }

  lemma RepeatsGrow(taken: seq<Entry>, late: set<int>, trades: map<int, Meta>, id: int)
    requires late <= trades.Keys && id in trades && id !in late
    ensures Repeats(taken, late + {id}, trades)
       <==> Repeats(taken, late, trades) || trades[id].symbol in SymbolSet(taken) + LateSymbols(late, trades)
    ensures LateSymbols(late + {id}, trades) == LateSymbols(late, trades) + {trades[id].symbol}
  {
    hide SymbolsOf;
    if trades[id].symbol in SymbolSet(taken) + LateSymbols(late, trades) {
      assert id in late + {id};
      if trades[id].symbol in LateSymbols(late, trades) {
        var x :| x in late && trades[x].symbol == trades[id].symbol;
        assert x in late + {id} && x != id;
      }
    }
  }

  lemma NothingRepeats(taken: seq<Entry>, trades: map<int, Meta>)
    ensures !Repeats(taken, {}, trades) && LateSymbols({}, trades) == {}
  {
  }

  /** What late Takens of some ids, from a state of distinct symbols, leave behind. */
  ghost predicate TookLate(b: Book, late: set<int>, after: seq<Entry>)
    requires late <= b.trades.Keys
  {
    && (Distinct(after) <==> !Repeats(b.risk.taken, late, b.trades))
    && SymbolSet(after) == SymbolSet(b.risk.taken) + LateSymbols(late, b.trades)
  }

  lemma TookNothing(b: Book, after: seq<Entry>)
    requires Distinct(after) && SymbolSet(after) == SymbolSet(b.risk.taken)
    ensures TookLate(b, {}, after)
  {
    NothingRepeats(b.risk.taken, b.trades);
  }

  lemma TookOneMore(b: Book, late: set<int>, r: RiskState, id: int, strategy: string)
    requires late <= b.trades.Keys && TookLate(b, late, r.taken) && id in b.trades && id !in late
    ensures TookLate(b, late + {id}, Registered(r, b.trades[id].symbol, strategy).taken)
  {
    hide Distinct, SymbolsOf, Repeats, LateSymbols, Registered, SymbolSet;
    RegisterDistinct(r, b.trades[id].symbol, strategy);
    RepeatsGrow(b.risk.taken, late, b.trades, id);
  }

  /** A Taken adds an entry exactly when it is late; a close settled at once keeps the symbols. */
  lemma TakeEntries(b: Book, id: int, costs: Option<Costs.Config>)
    requires id in b.trades
    ensures var after := Take(b, id, costs).risk.taken;
            if id in b.taken + b.reserved then SameSymbols(after, b.risk.taken)
            else SameSymbols(after, Registered(b.risk, b.trades[id].symbol, b.trades[id].strategy).taken)
  {
    hide NetR, Exited, Registered;
    var m := b.trades[id];
    if costs.Some? {
      ExitSymbols(b.risk, m.symbol, NetR(costs.value, m));
      ExitSymbols(Registered(b.risk, m.symbol, m.strategy), m.symbol, NetR(costs.value, m));
    }
  }

  ghost predicate SymbolsStay(a: map<int, Meta>, b: map<int, Meta>) {
    a.Keys == b.Keys && forall id :: id in a ==> b[id].symbol == a[id].symbol
  }

  lemma TakeRegisters(b: Book, id: int)
    requires id in b.trades && id !in b.taken + b.reserved
    ensures Take(b, id, None).risk == Registered(b.risk, b.trades[id].symbol, b.trades[id].strategy)
  {
  }

  lemma {:induction false} BookEventsSymbols(b: Book, es: seq<Event>, t: set<int>)
    requires (forall i :: 0 <= i < |es| ==> es[i].tradeId in b.trades) && Distinct(b.risk.taken)
    ensures var late := EventIds(es) * t - b.taken - b.reserved;
            && late <= b.trades.Keys && SymbolsStay(b.trades, BookEvents(b, es, t).trades)
            && TookLate(b, late, BookEvents(b, es, t).risk.taken)
    decreases |es|
  {
    hide BookLeg, Take, Distinct, Registered, TookLate;
    if es == [] {
      assert EventIds(es) * t - b.taken - b.reserved == {};
      TookNothing(b, b.risk.taken);
    } else {
      var n := |es| - 1;
      var a, e := BookEvents(b, es[..n], t), es[n];
      var was, now := EventIds(es[..n]) * t - b.taken - b.reserved, EventIds(es) * t - b.taken - b.reserved;
      BookEventsSymbols(b, es[..n], t);
      BookEventsSlots(b, es[..n], t);
      BookLegKeeps(a.trades[e.tradeId], e);
      var d := a.(trades := a.trades[e.tradeId := BookLeg(a.trades[e.tradeId], e)]);
      if e.tradeId in now - was {
        assert now == was + {e.tradeId};
        TookOneMore(b, was, a.risk, e.tradeId, d.trades[e.tradeId].strategy);
        TakeRegisters(d, e.tradeId);
      } else {
        assert now == was;
        if e.tradeId in t {
          TakeSlots(d, e.tradeId);
        }
      }
    }
  }

  lemma TookAlike(b: Book, late: set<int>, x: seq<Entry>, y: seq<Entry>)
    requires late <= b.trades.Keys && SameSymbols(y, x)
    ensures TookLate(b, late, x) <==> TookLate(b, late, y)
  {
    hide Distinct, SymbolsOf, Repeats, LateSymbols;
    SameSet(y, x);
  }

  /** The trades an action's late Takens are looked up in. */
  ghost function TradesFor(b: Book, a: Action): map<int, Meta> {
    if a.AdoptTrade? then b.trades[a.id := a.meta] else b.trades
  }

  lemma {:induction false} EventsKnown(es: seq<Event>, ids: set<int>)
    requires forall i :: 0 <= i < |es| ==> es[i].tradeId in ids
    ensures EventIds(es) <= ids
    decreases |es|
  {
    if es != [] {
      EventsKnown(es[..|es| - 1], ids);
    }
  }

  lemma LateKnown(c: Config, b: Book, a: Action)
    requires Linked(b) && Enabled(c, b, a)
    ensures Late(b, a) <= TradesFor(b, a).Keys
  {
    hide CheckLimits, DistinctSeq;
    if a.RouteEvents? {
      EventsKnown(a.events, b.trades.Keys);
    }
  }

  lemma TakeRepeats(b: Book, id: int, costs: Option<Costs.Config>)
    requires id in b.trades && Distinct(b.risk.taken)
    ensures TookLate(b, {id} - b.taken - b.reserved, Take(b, id, costs).risk.taken)
  {
    hide NetR, Take, Distinct, Registered, SymbolsOf, Repeats, TookLate;
    var m, after := b.trades[id], Take(b, id, costs).risk.taken;
    TakeEntries(b, id, costs);
    TookNothing(b, b.risk.taken);
    if id in b.taken + b.reserved {
      assert {id} - b.taken - b.reserved == {};
      TookAlike(b, {}, b.risk.taken, after);
    } else {
      assert {id} - b.taken - b.reserved == {id} == {} + {id};
      TookOneMore(b, {}, b.risk, id, m.strategy);
      TookAlike(b, {id}, Registered(b.risk, m.symbol, m.strategy).taken, after);
    }
  }

  lemma RouteRepeats(b: Book, es: seq<Event>, closers: seq<int>, t: set<int>, costs: Costs.Config)
    requires (forall i :: 0 <= i < |es| ==> es[i].tradeId in b.trades) && Distinct(b.risk.taken)
    requires forall i :: 0 <= i < |closers| ==> closers[i] in b.trades
    ensures EventIds(es) * t - b.taken - b.reserved <= b.trades.Keys
    ensures TookLate(b, EventIds(es) * t - b.taken - b.reserved, Route(b, es, closers, t, costs).risk.taken)
  {
    hide BookEvents, CloseIds, EventIds, TookLate, SameSymbols, SymbolsStay, Distinct;
    BookEventsSymbols(b, es, t);
    var a := BookEvents(b, es, t);
    CloseIdsSlots(a, closers, costs);
    TookAlike(b, EventIds(es) * t - b.taken - b.reserved, a.risk.taken, CloseIds(a, closers, costs).risk.taken);
  }

  lemma SameLookup(b: Book, d: Book, late: set<int>, after: seq<Entry>)
    requires late <= b.trades.Keys && SymbolsStay(b.trades, d.trades) && d.risk == b.risk
    ensures TookLate(b, late, after) <==> TookLate(d, late, after)
  {
    hide Distinct, SymbolsOf;
    assert LateSymbols(late, b.trades) == LateSymbols(late, d.trades);
  }

  lemma RecoverRepeats(b: Book, id: int, g: real, t: bool, costs: Costs.Config)
    requires id in b.trades && Distinct(b.risk.taken)
    ensures TookLate(b, (if t then {id} else {}) - b.taken - b.reserved, RecoverClose(b, id, g, t, costs).risk.taken)
  {
    hide NetR, Exited, Take, TookLate, Distinct, SameSymbols;
    var m: Meta := b.trades[id].(grossR := g, closed := true);
    var d := b.(trades := b.trades[id := m], open := b.open - {id});
    TookNothing(b, b.risk.taken);
    if id in b.taken {
      assert (if t then {id} else {}) - b.taken - b.reserved == {};
      ExitSymbols(b.risk, m.symbol, NetR(costs, m));
      TookAlike(b, {}, b.risk.taken, Exited(b.risk, m.symbol, NetR(costs, m)).taken);
    } else if t {
      TakeRepeats(d, id, Some(costs));
      SameLookup(b, d, {id} - b.taken - b.reserved, Take(d, id, Some(costs)).risk.taken);
    } else {
      assert {} - b.taken - b.reserved == {};
    }
  }

  lemma SkipDistinct(b: Book, id: int)
    requires b.reserved <= b.trades.Keys && Distinct(b.risk.taken)
    ensures Distinct(Release(b, id).risk.taken)
  {
    hide Distinct, Released;
    if id in b.reserved {
      ReleaseDistinct(b.risk, b.trades[id].symbol);
    }
  }

  /** Every action but an entry leaves the symbols of its late Takens added to those there. */
  lemma ActionTakes(c: Config, b: Book, a: Action)
    requires Balanced(c.costs, b) && Enabled(c, b, a) && Distinct(b.risk.taken) && !a.Enter?
    ensures Linked(b) && Late(b, a) <= TradesFor(b, a).Keys
    ensures !Distinct(Do(c, b, a).risk.taken) <==> Repeats(b.risk.taken, Late(b, a), TradesFor(b, a))
  {
    BookShape(c.costs, b);
    LateKnown(c, b, a);
    NothingRepeats(b.risk.taken, TradesFor(b, a));
    assert {} - b.taken - b.reserved == {};
    hide Balanced, NetR, BookEvents, CloseIds, ReleaseExpired, Registered, Released, Exited, Take, RecoverClose, Route,
         Release, EventIds, CheckLimits, DistinctSeq, Distinct, SymbolsOf, SymbolSet, LateSymbols, Repeats;
    match a
    case Refuse(_) =>
    case Enter(_, _, _, _) => assert false;
    case Tap(id) => TakeRepeats(b, id, Some(c.costs));
    case Skip(id) => SkipDistinct(b, id);
    case Expire(ids, now) => ExpireSlots(b, ids, now);
    case RouteEvents(es, closers, t) => RouteRepeats(b, es, closers, t, c.costs);
    case AdoptTrade(id, m, t) => if t { TakeRepeats(OpenPosition(b, id, m), id, Some(c.costs)); }
    case RecoverLegs(_, _) =>
    case RecoverExit(id, g, t) => RecoverRepeats(b, id, g, t, c.costs);
  }

  lemma EnterDistinct(c: Config, b: Book, a: Action)
    requires Balanced(c.costs, b) && Enabled(c, b, a) && Distinct(b.risk.taken) && a.Enter?
    ensures Linked(b) && Distinct(Do(c, b, a).risk.taken)
  {
    EnterCounts(c, b, a);
    RegisterDistinct(b.risk, a.meta.symbol, a.meta.strategy);
  }

  /** From distinct symbols, an action repeats one exactly when a late Taken's symbol already has an entry or two late
      Takens share one; in particular an entry never does. */
  lemma RepeatsIff(c: Config, b: Book, a: Action)
    requires Balanced(c.costs, b) && Enabled(c, b, a) && Distinct(b.risk.taken)
    ensures Linked(b) && Late(b, a) <= TradesFor(b, a).Keys
    ensures !Distinct(Do(c, b, a).risk.taken) <==> Repeats(b.risk.taken, Late(b, a), TradesFor(b, a))
  {
    hide Do, Balanced, Distinct, Repeats, Enabled;
    if a.Enter? {
      EnterDistinct(c, b, a);
      NothingRepeats(b.risk.taken, TradesFor(b, a));
    } else {
      ActionTakes(c, b, a);
    }
  }

  // ---------------------------------------------------------------- whole days

  /** Every Taken of the run finds its reservation. */
  ghost predicate AlwaysOnTime(c: Config, date: int, s: Session, steps: seq<Step>)
    decreases |steps|
  {
    steps == [] ||
    (&& CanStep(c, s, steps[0]) && (steps[0].Act? ==> Late(s.memory, steps[0].action) == {})
     && AlwaysOnTime(c, date, SlotRuns.After(c, date, s, steps[0]), steps[1..]))
  }

  ghost predicate Capped(c: Config, b: Book) {
    Balanced(c.costs, b) && b.risk.tradesTaken <= c.maxTrades && Distinct(b.risk.taken)
  }

  lemma OnTimeAction(c: Config, b: Book, a: Action)
    requires Capped(c, b) && Enabled(c, b, a) && Late(b, a) == {}
    ensures Linked(b) && Capped(c, Do(c, b, a))
  {
    hide Balanced, Do, Enabled, Distinct, Late;
    DoBalanced(c, b, a);
    CapBrokenIff(c, b, a);
    RepeatsIff(c, b, a);
    NothingRepeats(b.risk.taken, TradesFor(b, a));
  }

  lemma NewBookCapped(c: Config, date: int)
    requires c.maxTrades >= 0
    ensures Capped(c, NewBook(date))
  {
    NewBookBalanced(c.costs, date);
    hide Balanced;
  }

  lemma {:induction false} OnTimeRun(c: Config, date: int, s: Session, steps: seq<Step>, s': Session)
    requires c.maxTrades >= 0 && Runs(c, date, s, steps, s') && AlwaysOnTime(c, date, s, steps)
    requires Capped(c, s.memory) && (s.file.Some? ==> Capped(c, s.file.value))
    ensures Capped(c, s'.memory) && (s'.file.Some? ==> Capped(c, s'.file.value))
    decreases |steps|
  {
    hide Capped, Do, Enabled, Late, Linked;
    if steps != [] {
      NewBookCapped(c, date);
      if steps[0].Act? {
        OnTimeAction(c, s.memory, steps[0].action);
      }
      OnTimeRun(c, date, SlotRuns.After(c, date, s, steps[0]), steps[1..], s');
    }
  }

  /** On every run of a day, saves and crashes anywhere, on which each Taken finds its reservation: the cap holds, the symbols
      taken are pairwise distinct, and so the back scan of a release and the front scan of an exit find the same entry. */
  lemma CapAndIndependence(c: Config, date: int, steps: seq<Step>, s: Session, symbol: string)
    requires c.maxTrades >= 0 && Runs(c, date, Session(NewBook(date), None), steps, s)
    requires AlwaysOnTime(c, date, Session(NewBook(date), None), steps)
    ensures var r := s.memory.risk;
            && r.tradesTaken <= c.maxTrades
            && (forall i, j :: 0 <= i < j < |r.taken| ==> r.taken[i].symbol != r.taken[j].symbol)
            && LastOpen(r.taken, symbol) == if FirstOpen(r.taken, symbol) < |r.taken| then FirstOpen(r.taken, symbol) else -1
  {
    NewBookCapped(c, date);
    OnTimeRun(c, date, Session(NewBook(date), None), steps, s);
    ScansAgree(s.memory.risk.taken, symbol);
  }

  /** Entering a trade and giving its slot back leaves the risk state exactly as it was, order and all. */
  lemma SkipUndoesEnter(c: Config, b: Book, id: int, m: Meta, date: int)
    requires Balanced(c.costs, b) && Enabled(c, b, Enter(id, m, date, false))
    ensures var e := Slots.Enter(b, id, m, false);
            && e.reserved <= e.trades.Keys && Release(e, id).risk == b.risk && Release(e, id).reserved == b.reserved
  {
    BalancedShape(c.costs, b);
    BalancedCount(c.costs, b);
    hide Ledger, Registered, Released, SymbolsOf, LostWith, Balanced;
    assert id !in b.trades;
    var e := Slots.Enter(b, id, m, false);
    ReleaseUndoesRegister(b.risk, m.symbol, m.strategy);
    assert b.reserved + {id} - {id} == b.reserved;
  }

  /** From an empty risk state: one entry. */
  lemma FirstEntry(c: Config, b: Book, id: int, m: Meta, date: int)
    requires b.risk == NewDay(date) && id !in b.trades && id !in b.taken + b.reserved && m.key !in b.seen && !m.closed
    requires b.open <= b.trades.Keys && b.reserved <= b.trades.Keys && c.maxTrades >= 1 && c.lossLimit > EPS
    ensures Linked(b) && Enabled(c, b, Enter(id, m, date, false))
    ensures Do(c, b, Enter(id, m, date, false))
            == Book(Registered(b.risk, m.symbol, m.strategy), b.taken, b.reserved + {id}, b.trades[id := m],
                    b.open + {id}, b.seen + {m.key})
  {
  }

  lemma PerformCons(c: Config, b: Book, a: Action, day: seq<Action>)
    requires Linked(b) && Enabled(c, b, a) && Performable(c, Do(c, b, a), day)
    ensures Performable(c, b, [a] + day) && Perform(c, b, [a] + day) == Perform(c, Do(c, b, a), day)
  {
    hide Do, Enabled;
    assert ([a] + day)[1..] == day;
  }

  lemma SkippedBook(c: Config, m: Meta, date: int)
    requires c.maxTrades >= 1 && c.lossLimit > EPS && !m.closed
    ensures var b := NewBook(date);
            && Linked(b) && Enabled(c, b, Enter(1, m, date, false))
            && var e := Do(c, b, Enter(1, m, date, false));
            Linked(e) && Enabled(c, e, Skip(1)) && Do(c, e, Skip(1)) == Book(NewDay(date), {}, {}, map[1 := m], {1}, {m.key})
  {
    var b := NewBook(date);
    NewBookBalanced(c.costs, date);
    FirstEntry(c, b, 1, m, date);
    SkipUndoesEnter(c, b, 1, m, date);
    hide Registered, Released, Balanced, CheckLimits;
    var e := Do(c, b, Enter(1, m, date, false));
    assert e.reserved == {1} && e.open == {1} && e.seen == {m.key} && e.trades == map[1 := m];
    assert {1} - {1} == {};
  }

  /** The cap is not a law without that: with a cap of one, skip the first alert, let a second one in, then tap Taken on
      both.  The second Taken makes two. */
  lemma LateTakenPassesTheCap(c: Config, m1: Meta, m2: Meta, date: int)
    requires c.maxTrades == 1 && c.lossLimit > EPS && m1.symbol != m2.symbol && m1.key != m2.key && !m1.closed && !m2.closed
    ensures var day := [Enter(1, m1, date, false)] + ([Skip(1)] + ([Enter(2, m2, date, false)] + ([Tap(2)] + ([Tap(1)] + []))));
            Performable(c, NewBook(date), day) && Perform(c, NewBook(date), day).risk.tradesTaken == 2
  {
    SkippedBook(c, m1, date);
    var b0 := NewBook(date);
    var b1 := Do(c, b0, Enter(1, m1, date, false));
    var b2 := Do(c, b1, Skip(1));
    FirstEntry(c, b2, 2, m2, date);
    var b3 := Do(c, b2, Enter(2, m2, date, false));
    var r3 := Registered(NewDay(date), m2.symbol, m2.strategy);
    assert b3.risk == r3 && b3.reserved == {2} && b3.taken == {} && Linked(b3);
    var b4 := Do(c, b3, Tap(2));
    assert b4.risk == r3 && b4.reserved == {} && b4.taken == {2} && Linked(b4);
    var b5 := Do(c, b4, Tap(1));
    assert b5.risk.tradesTaken == 2;
    hide Do, Enabled;
    PerformCons(c, b4, Tap(1), []);
    PerformCons(c, b3, Tap(2), [Tap(1)] + []);
    PerformCons(c, b2, Enter(2, m2, date, false), [Tap(2)] + ([Tap(1)] + []));
    PerformCons(c, b1, Skip(1), [Enter(2, m2, date, false)] + ([Tap(2)] + ([Tap(1)] + [])));
    PerformCons(c, b0, Enter(1, m1, date, false), [Skip(1)] + ([Enter(2, m2, date, false)] + ([Tap(2)] + ([Tap(1)] + []))));
  }
}
