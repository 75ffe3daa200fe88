/**
 The slots of a trading day (tradalgo/engine/cycle.py and the calls tradalgo/engine/session.py makes):
 an entry alert reserves one, Skipped or expiry releases it, Taken makes it real, and the close of a
 taken trade is counted once.
 */
module Slots {
  import opened Common
  import opened Positions
  import opened Limits
  import Costs

  datatype SignalKey = SignalKey(symbol: string, strategy: string, ts: int)

  /** What the session keeps about a trade besides its manager. */
  datatype MetaValue = Meta(symbol: string, strategy: string, key: SignalKey, qty: int, rps: real, grossR: real, closed: bool,
                            entry: Option<real>, dir: Direction, validUntil: Option<int>, exitOrders: seq<real>, exitQty: int)
  type Meta = m: MetaValue | m.qty >= 1 && m.rps > 0.0
    witness Meta("", "", SignalKey("", "", 0), 1, 1.0, 0.0, false, None, Long, None, [], 0)

  /** Charges in R; a close restored without its legs prices the rest at the entry. */
  function CostR(costs: Costs.Config, m: Meta): real {
    if m.entry.None? then 0.0 else
    var unbooked := m.qty - m.exitQty;
    var exits := m.exitOrders + if unbooked > 0 then [Costs.Times(m.entry.value, unbooked as real)] else [];
    var unit := Costs.Times(m.qty as real, m.rps);
    Costs.TradeCharges(m.dir, Costs.Times(m.entry.value, m.qty as real), exits, costs) / unit
  }

  function NetR(costs: Costs.Config, m: Meta): real { m.grossR - CostR(costs, m) }

  /** The session state; `open` are the ids its position managers hold open. */
  datatype Book = Book(risk: RiskState, taken: set<int>, reserved: set<int>, trades: map<int, Meta>,
                       open: set<int>, seen: set<SignalKey>)

  function NewBook(date: int): Book { Book(NewDay(date), {}, {}, map[], {}, {}) }

  // ---------------------------------------------------------------- the operations

  function Reserve(b: Book, id: int): Book
    requires id in b.trades
  {
    if id in b.taken || id in b.reserved then b else
    b.(reserved := b.reserved + {id}, risk := Registered(b.risk, b.trades[id].symbol, b.trades[id].strategy))
  }

  function Release(b: Book, id: int): Book
    requires b.reserved <= b.trades.Keys
  {
    if id !in b.reserved then b else
    b.(reserved := b.reserved - {id}, risk := Released(b.risk, b.trades[id].symbol))
  }

  /** `costs` is present when the close of an already closed trade is to be counted too. */
  function Take(b: Book, id: int, costs: Option<Costs.Config>): (b': Book)
    requires id in b.trades
    ensures b'.trades == b.trades && b'.open == b.open && b'.seen == b.seen
  {
    if id in b.taken then b else
    var m := b.trades[id];
    var c := if id in b.reserved then b.(reserved := b.reserved - {id}, taken := b.taken + {id})
             else b.(taken := b.taken + {id}, risk := Registered(b.risk, m.symbol, m.strategy));
    if m.closed && costs.Some? then c.(risk := Exited(c.risk, m.symbol, NetR(costs.value, m))) else c
  }

  function BookLeg(m: Meta, e: Event): Meta {
    var g := m.(grossR := m.grossR + e.r * e.qty as real / m.qty as real);
    if e.qty == 0 then g else g.(exitOrders := g.exitOrders + [Costs.Times(e.price, e.qty as real)], exitQty := g.exitQty + e.qty)
  }

  function BookEvents(b: Book, es: seq<Event>, dbTaken: set<int>): (b': Book)
    requires forall i :: 0 <= i < |es| ==> es[i].tradeId in b.trades
    ensures b'.trades.Keys == b.trades.Keys && b'.open == b.open && b'.seen == b.seen
    decreases |es|
  {
    if es == [] then b else
    var a := BookEvents(b, es[..|es| - 1], dbTaken);
    var e := es[|es| - 1];
    var c := a.(trades := a.trades[e.tradeId := BookLeg(a.trades[e.tradeId], e)]);
    if e.tradeId in dbTaken then Take(c, e.tradeId, None) else c
  }

  function CloseOne(b: Book, id: int, costs: Costs.Config): (b': Book)
    requires id in b.trades
    ensures b'.trades.Keys == b.trades.Keys
  {
    var m := b.trades[id];
    var c := b.(trades := b.trades[id := m.(closed := true)], open := b.open - {id});
    if id in b.taken then c.(risk := Exited(c.risk, m.symbol, NetR(costs, m.(closed := true)))) else c
  }

  function CloseIds(b: Book, ids: seq<int>, costs: Costs.Config): (b': Book)
    requires forall i :: 0 <= i < |ids| ==> ids[i] in b.trades
    ensures b'.trades.Keys == b.trades.Keys
    decreases |ids|
  {
    if ids == [] then b else CloseOne(CloseIds(b, ids[..|ids| - 1], costs), ids[|ids| - 1], costs)
  }

  /** route_events: book the legs, count trades the database has as taken, then close the trades that left the managers. */
  function Route(b: Book, es: seq<Event>, closers: seq<int>, dbTaken: set<int>, costs: Costs.Config): Book
    requires forall i :: 0 <= i < |es| ==> es[i].tradeId in b.trades
    requires forall i :: 0 <= i < |closers| ==> closers[i] in b.trades
  {
    CloseIds(BookEvents(b, es, dbTaken), closers, costs)
  }

  function OpenPosition(b: Book, id: int, m: Meta): Book {
    b.(trades := b.trades[id := m], open := b.open + {id}, seen := b.seen + {m.key})
  }

  function Enter(b: Book, id: int, m: Meta, dbTaken: bool): Book {
    var r := Reserve(OpenPosition(b, id, m), id);
    if dbTaken then Take(r, id, None) else r
  }

  function Adopt(b: Book, id: int, m: Meta, dbTaken: bool, costs: Costs.Config): Book {
    var r := OpenPosition(b, id, m);
    if dbTaken then Take(r, id, Some(costs)) else r
  }

  /** A close the database holds and the state missed. */
  function RecoverClose(b: Book, id: int, grossR: real, dbTaken: bool, costs: Costs.Config): Book
    requires id in b.trades
  {
    var m := b.trades[id].(grossR := grossR, closed := true);
    var c := b.(trades := b.trades[id := m], open := b.open - {id});
    if id in b.taken then c.(risk := Exited(c.risk, m.symbol, NetR(costs, m)))
    else if dbTaken then Take(c, id, Some(costs)) else c
  }

  predicate Expired(m: Meta, now: int) { m.validUntil.None? || m.validUntil.value < now }

  /** Release, in order, the reservations whose alert ran out. */
  function ReleaseExpired(b: Book, ids: seq<int>, now: int): (b': Book)
    requires b.reserved <= b.trades.Keys && forall i :: 0 <= i < |ids| ==> ids[i] in b.trades
    ensures b'.trades == b.trades && b'.reserved <= b.reserved
    decreases |ids|
  {
    if ids == [] then b else
    var a := ReleaseExpired(b, ids[..|ids| - 1], now);
    if Expired(b.trades[ids[|ids| - 1]], now) then Release(a, ids[|ids| - 1]) else a
  }

  // ---------------------------------------------------------------- ids, symbols and net R

  lemma SomeId(ids: set<int>)
    ensures ids == {} || exists id :: id in ids
  {
    if !(exists id :: id in ids) {
      assert ids == {};
    }
  }

  ghost function PickId(ids: set<int>): (x: int)
    requires ids != {}
    ensures x in ids
  {
    SomeId(ids);
    var x :| x in ids;
    x
  }

  ghost function Bag(ids: set<int>, trades: map<int, Meta>): multiset<string>
    requires ids <= trades.Keys
  {
    if ids == {} then multiset{} else
    var x := PickId(ids);
    Bag(ids - {x}, trades) + multiset{trades[x].symbol}
  }

  ghost function NetSum(ids: set<int>, trades: map<int, Meta>, costs: Costs.Config): real
    requires ids <= trades.Keys
  {
    if ids == {} then 0.0 else
    var x := PickId(ids);
    NetSum(ids - {x}, trades, costs) + NetR(costs, trades[x])
  }

  lemma {:induction false} BagWith(ids: set<int>, trades: map<int, Meta>, id: int)
    requires ids <= trades.Keys && id in ids
    ensures Bag(ids, trades) == Bag(ids - {id}, trades) + multiset{trades[id].symbol}
  {
    var x := PickId(ids);
    if x != id {
      BagWith(ids - {x}, trades, id);
      BagWith(ids - {id}, trades, x);
      assert ids - {x} - {id} == ids - {id} - {x};
    }
  }

  lemma {:induction false} NetSumWith(ids: set<int>, trades: map<int, Meta>, costs: Costs.Config, id: int)
    requires ids <= trades.Keys && id in ids
    ensures NetSum(ids, trades, costs) == NetSum(ids - {id}, trades, costs) + NetR(costs, trades[id])
  {
    hide NetR;
    var x := PickId(ids);
    if x != id {
      NetSumWith(ids - {x}, trades, costs, id);
      NetSumWith(ids - {id}, trades, costs, x);
      assert ids - {x} - {id} == ids - {id} - {x};
    }
  }

  lemma {:induction false} BagFrame(ids: set<int>, a: map<int, Meta>, b: map<int, Meta>)
    requires ids <= a.Keys && ids <= b.Keys && forall id :: id in ids ==> a[id].symbol == b[id].symbol
    ensures Bag(ids, a) == Bag(ids, b) && |Bag(ids, a)| == |ids|
  {
    if ids != {} {
      var x := PickId(ids);
      BagWith(ids, a, x);
      BagWith(ids, b, x);
      BagFrame(ids - {x}, a, b);
    }
  }

  lemma {:induction false} NetSumFrame(ids: set<int>, a: map<int, Meta>, b: map<int, Meta>, costs: Costs.Config)
    requires ids <= a.Keys && ids <= b.Keys && forall id :: id in ids ==> a[id] == b[id]
    ensures NetSum(ids, a, costs) == NetSum(ids, b, costs)
  {
    hide NetR;
    if ids != {} {
      var x := PickId(ids);
      NetSumWith(ids, a, costs, x);
      NetSumWith(ids, b, costs, x);
      NetSumFrame(ids - {x}, a, b, costs);
    }
  }

  // ---------------------------------------------------------------- the ledger of the risk state

  ghost function OpenBag(es: seq<Entry>): multiset<string> {
    if es == [] then multiset{} else (if es[0].closed then multiset{} else multiset{es[0].symbol}) + OpenBag(es[1..])
  }

  ghost function ClosedSum(es: seq<Entry>): real {
    if es == [] then 0.0 else (if es[0].closed && es[0].netR.Some? then es[0].netR.value else 0.0) + ClosedSum(es[1..])
  }

  ghost function ClosedCount(es: seq<Entry>): nat {
    if es == [] then 0 else (if es[0].closed then 1 else 0) + ClosedCount(es[1..])
  }

  lemma {:induction false} EntriesAppend(a: seq<Entry>, b: seq<Entry>)
    ensures OpenBag(a + b) == OpenBag(a) + OpenBag(b)
    ensures ClosedSum(a + b) == ClosedSum(a) + ClosedSum(b) && ClosedCount(a + b) == ClosedCount(a) + ClosedCount(b)
  {
    if a == [] {
      assert a + b == b;
    } else {
      assert (a + b)[1..] == a[1..] + b;
      EntriesAppend(a[1..], b);
    }
  }

  /** What an entry adds to the open bag, the sum and the count, and what the rest of the list adds. */
  lemma EntriesAround(es: seq<Entry>, i: nat, e: Entry)
    requires i < |es|
    ensures var rest := es[..i] + es[i + 1..];
            && OpenBag(es) == OpenBag(rest) + OpenBag([es[i]]) && OpenBag(es[i := e]) == OpenBag(rest) + OpenBag([e])
            && ClosedSum(es) == ClosedSum(rest) + ClosedSum([es[i]]) && ClosedSum(es[i := e]) == ClosedSum(rest) + ClosedSum([e])
            && ClosedCount(es) == ClosedCount(rest) + ClosedCount([es[i]])
            && ClosedCount(es[i := e]) == ClosedCount(rest) + ClosedCount([e])
  {
    var a, d := es[..i], es[i + 1..];
    assert es == a + [es[i]] + d && es[i := e] == a + [e] + d;
    hide OpenBag, ClosedSum, ClosedCount;
    EntriesAppend(a, d);
    EntriesAppend(a + [es[i]], d);
    EntriesAppend(a, [es[i]]);
    EntriesAppend(a + [e], d);
    EntriesAppend(a, [e]);
  }

  lemma OneEntry(e: Entry)
    ensures OpenBag([e]) == if e.closed then multiset{} else multiset{e.symbol}
    ensures ClosedSum([e]) == if e.closed && e.netR.Some? then e.netR.value else 0.0
    ensures ClosedCount([e]) == if e.closed then 1 else 0
  {
    assert [e][1..] == [];
  }

  lemma {:induction false} OpenBagMembers(es: seq<Entry>, symbol: string)
    ensures symbol in OpenBag(es) <==> FirstOpen(es, symbol) < |es|
    ensures symbol in OpenBag(es) <==> LastOpen(es, symbol) >= 0
    ensures |OpenBag(es)| + ClosedCount(es) == |es|
  {
    if es != [] {
      OpenBagMembers(es[1..], symbol);
      if FirstOpen(es, symbol) < |es| {
        var i := FirstOpen(es, symbol);
        assert OpenFor(es[i], symbol);
      } else {
        NoLastOpen(es, symbol);
      }
    }
  }

  /** The risk state counts exactly the holders of open slots and the settled trades. */
  ghost predicate Ledger(r: RiskState, holders: set<int>, settled: set<int>, trades: map<int, Meta>, costs: Costs.Config) {
    && holders <= trades.Keys && settled <= trades.Keys
    && r.tradesTaken == |r.taken| == |holders| + |settled|
    && multiset(r.openSymbols) == OpenBag(r.taken) == Bag(holders, trades)
    && r.realizedR == ClosedSum(r.taken) == NetSum(settled, trades, costs)
    && ClosedCount(r.taken) == |settled|
  }

  lemma LedgerRegister(r: RiskState, holders: set<int>, settled: set<int>, trades: map<int, Meta>, costs: Costs.Config, id: int)
    requires Ledger(r, holders, settled, trades, costs) && id in trades && id !in holders
    ensures Ledger(Registered(r, trades[id].symbol, trades[id].strategy), holders + {id}, settled, trades, costs)
  {
    hide NetSum, NetR;
    var e := Entry(trades[id].symbol, trades[id].strategy, false, None);
    EntriesAppend(r.taken, [e]);
    OneEntry(e);
    BagWith(holders + {id}, trades, id);
    assert holders + {id} - {id} == holders;
  }

  lemma LedgerRelease(r: RiskState, holders: set<int>, settled: set<int>, trades: map<int, Meta>, costs: Costs.Config, id: int)
    requires Ledger(r, holders, settled, trades, costs) && id in holders
    ensures Ledger(Released(r, trades[id].symbol), holders - {id}, settled, trades, costs)
  {
    hide NetSum, NetR, OpenBag, ClosedSum, ClosedCount, Bag;
    var symbol := trades[id].symbol;
    BagWith(holders, trades, id);
    OpenBagMembers(r.taken, symbol);
    var i := LastOpen(r.taken, symbol);
    assert i >= 0;
    EntriesAround(r.taken, i, r.taken[i]);
    OneEntry(r.taken[i]);
    RemoveBag(r.openSymbols, symbol);
    var rest := r.taken[..i] + r.taken[i + 1..];
    assert OpenBag(rest) == OpenBag(r.taken) - multiset{symbol};
    assert Bag(holders - {id}, trades) == Bag(holders, trades) - multiset{symbol};
    assert |holders - {id}| == |holders| - 1;
  }

  /** What settling an open entry of a symbol does to the counts and sums. */
  lemma ExitCounts(r: RiskState, symbol: string, net: real)
    requires symbol in OpenBag(r.taken)
    ensures var x := Exited(r, symbol, net);
            && OpenBag(x.taken) == OpenBag(r.taken) - multiset{symbol} && ClosedSum(x.taken) == ClosedSum(r.taken) + net
            && ClosedCount(x.taken) == ClosedCount(r.taken) + 1 && |x.taken| == |r.taken|
            && multiset(x.openSymbols) == multiset(r.openSymbols) - multiset{symbol}
            && x.realizedR == r.realizedR + net && x.tradesTaken == r.tradesTaken
  {
    OpenBagMembers(r.taken, symbol);
    RemoveBag(r.openSymbols, symbol);
    var i := FirstOpen(r.taken, symbol);
    var e := r.taken[i].(closed := true, netR := Some(net));
    assert Exited(r, symbol, net).taken == r.taken[i := e];
    hide OpenBag, ClosedSum, ClosedCount, FirstOpen;
    EntriesAround(r.taken, i, e);
    OneEntry(r.taken[i]);
    OneEntry(e);
    assert OpenBag(r.taken[i := e]) == OpenBag(r.taken) - multiset{symbol};
  }

  lemma LedgerExit(r: RiskState, holders: set<int>, settled: set<int>, trades: map<int, Meta>, costs: Costs.Config, id: int)
    requires Ledger(r, holders, settled, trades, costs) && id in holders && id !in settled
    ensures Ledger(Exited(r, trades[id].symbol, NetR(costs, trades[id])), holders - {id}, settled + {id}, trades, costs)
  {
    hide NetSum, NetR, OpenBag, ClosedSum, ClosedCount, Bag, Exited;
    var symbol := trades[id].symbol;
    BagWith(holders, trades, id);
    ExitCounts(r, symbol, NetR(costs, trades[id]));
    assert Bag(holders - {id}, trades) == Bag(holders, trades) - multiset{symbol};
    assert |holders - {id}| == |holders| - 1;
    NetSumWith(settled + {id}, trades, costs, id);
    assert settled + {id} - {id} == settled;
  }

  lemma LedgerFrame(r: RiskState, holders: set<int>, settled: set<int>, a: map<int, Meta>, b: map<int, Meta>, costs: Costs.Config)
    requires Ledger(r, holders, settled, a, costs) && holders <= b.Keys && settled <= b.Keys
    requires forall id :: id in holders ==> a[id].symbol == b[id].symbol
    requires forall id :: id in settled ==> a[id] == b[id]
    ensures Ledger(r, holders, settled, b, costs)
  {
    BagFrame(holders, a, b);
    NetSumFrame(settled, a, b, costs);
  }
}
