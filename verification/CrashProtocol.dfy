/**
 The save-then-alert protocol of the live session (tradalgo/engine/session.py and live_sink.py).
 Memory, the state file and the database change one write at a time, and the process may die between any
 two of them.  `log` is a history variable: every event the state has ever emitted.
 */
module CrashProtocol {
  import opened Common
  import opened Positions
  import opened Lifecycle
  import opened LiveSinks
  import opened StopMoves
  import Costs

  datatype Held = Held(trade: Trade, gross: real)

  datatype Saved = Saved(trades: map<int, Held>, log: seq<Note>, pending: seq<Note>)

  /** Flushing(0) stands before the head of the pending events, 1 after its leg, 2 after its alert. */
  datatype Phase = Working | Flushing(at: nat)

  datatype State = State(memory: Saved, file: Saved, db: Db, phase: Phase)

  datatype Config = Config(rules: Rules, alertsEnabled: bool, costs: Costs.Config)

  datatype Action =
    | Accept(terms: Terms, entryBar: Option<int>)         // the row of a new trade
    | Open(id: int)                                       // the state learns of it
    | Apply(id: int, price: Price, taken: seq<bool>)      // a bar or tick on one trade, its events routed
    | Persist
    | Leg | Queue | Pop                                   // the three parts of one flush iteration
    | CrashAndRestart                                     // read the file back and reconcile

  const EMPTY: Saved := Saved(map[], [], [])
  const START: State := State(EMPTY, EMPTY, Db(map[], []), Working)

  // ---------------------------------------------------------------- the steps

  function Notes(es: seq<Event>, taken: seq<bool>): (ns: seq<Note>)
    requires |es| == |taken|
    ensures |ns| == |es| && forall i :: 0 <= i < |es| ==> ns[i] == Note(es[i], taken[i])
    decreases |es|
  {
    if es == [] then [] else Notes(es[..|es| - 1], taken[..|es| - 1]) + [Note(es[|es| - 1], taken[|es| - 1])]
  }

  /** Gross R of the events of one trade, each leg weighed by its share of the quantity. */
  function GrossOf(qty: int, es: seq<Event>): real
    requires qty != 0
    decreases |es|
  {
    if es == [] then 0.0 else
    GrossOf(qty, es[..|es| - 1]) + Weighed(es[|es| - 1], qty)
  }

  /** What a restart makes of one database row, given what the file knows of the trade. */
  function Reconciled(c: Rules, known: Option<Held>, row: Row): Held {
    if known.None? then
      var t := Opened(row.terms, row.entryBar);
      if row.partial then Held(RestorePartial(c, t), row.gross) else Held(t, 0.0)
    else
      var h := known.value;
      if row.exit then if h.trade.closed then h else Held(Abandoned(h.trade), row.gross)
      else if row.partial && !h.trade.partialDone then Held(RestorePartial(c, h.trade), row.gross)
      else h
  }

  /** Trades the state knows, and open rows it does not. */
  function Restarted(c: Rules, file: Saved, db: Db): Saved {
    Saved(map id | id in file.trades.Keys + db.rows.Keys && (id in file.trades || (id in db.rows && !db.rows[id].exit)) ::
            if id !in file.trades then Reconciled(c, None, db.rows[id])
            else if id in db.rows then Reconciled(c, Some(file.trades[id]), db.rows[id])
            else file.trades[id],
          file.log, file.pending)
  }

  predicate Enabled(c: Config, s: State, a: Action) {
    match a
    case Accept(k, _) => k.id !in s.db.rows && k.qty >= 1
    case Open(id) => id in s.db.rows && id !in s.memory.trades
    case Apply(id, p, taken) =>
      id in s.memory.trades && |taken| == |Step(c.rules, s.memory.trades[id].trade, p).events|
      && s.memory.trades[id].trade.terms.qty >= 1
    case Persist => true
    case Leg => s.phase == Flushing(0) && s.memory.pending != []
    case Queue => s.phase == Flushing(1) && s.memory.pending != []
    case Pop => s.phase == Flushing(2) && s.memory.pending != []
    case CrashAndRestart => true
  }

  function Applied(c: Rules, m: Saved, id: int, p: Price, taken: seq<bool>): Saved
    requires id in m.trades && |taken| == |Step(c, m.trades[id].trade, p).events| && m.trades[id].trade.terms.qty >= 1
  {
    var h := m.trades[id];
    var o := Step(c, h.trade, p);
    var ns := Notes(o.events, taken);
    Saved(m.trades[id := Held(o.trade, h.gross + GrossOf(h.trade.terms.qty, o.events))], m.log + ns, m.pending + ns)
  }

  function Next(c: Config, s: State, a: Action): State
    requires Enabled(c, s, a)
  {
    var m := s.memory;
    match a
    case Accept(k, bar) => s.(db := s.db.(rows := s.db.rows[k.id := Row(k, bar, 0.0, false, false, None, None)]))
    case Open(id) =>
      var row := s.db.rows[id];
      s.(memory := m.(trades := m.trades[id := Held(Opened(row.terms, row.entryBar), 0.0)]), phase := Working)
    case Apply(id, p, taken) => s.(memory := Applied(c.rules, m, id, p, taken), phase := Working)
    case Persist => s.(file := m, phase := Flushing(0))
    case Leg => s.(db := Recorded(c.costs, s.db, m.pending[0].event), phase := Flushing(1))
    case Queue => s.(db := Alerted(c.alertsEnabled, s.db, m.pending[0]), phase := Flushing(2))
    case Pop => s.(memory := m.(pending := m.pending[1..]), phase := Flushing(0))
    case CrashAndRestart => s.(memory := Restarted(c.rules, s.file, s.db), phase := Working)
  }

  ghost predicate Runs(c: Config, s: State, actions: seq<Action>, s': State)
    decreases |actions|
  {
    if actions == [] then s' == s else Enabled(c, s, actions[0]) && Runs(c, Next(c, s, actions[0]), actions[1..], s')
  }

  // ---------------------------------------------------------------- the reference: plain sums over the log

  function EventsOf(log: seq<Note>, id: int): seq<Event>
    decreases |log|
  {
    if log == [] then [] else
    EventsOf(log[..|log| - 1], id) + if log[|log| - 1].event.tradeId == id then [log[|log| - 1].event] else []
  }

  ghost predicate HasPartial(es: seq<Event>) {
    exists e :: e in es && e.kind.PartialExit?
  }

  /** The price of the partial among the events, if there is one. */
  function PartialPrice(es: seq<Event>): Option<real>
    decreases |es|
  {
    if es == [] then None
    else if es[|es| - 1].kind.PartialExit? then Some(es[|es| - 1].price)
    else PartialPrice(es[..|es| - 1])
  }

  /** What each leg traded for, in order. */
  function LegValues(es: seq<Event>): seq<real>
    decreases |es|
  {
    if es == [] then [] else
    LegValues(es[..|es| - 1]) + if es[|es| - 1].qty == 0 then [] else [Costs.Times(es[|es| - 1].price, es[|es| - 1].qty as real)]
  }

  /** Gross R less the charges of the actual legs, each its own order. */
  function NetOf(costs: Costs.Config, k: Terms, es: seq<Event>): real
    requires k.qty >= 1
  {
    GrossOf(k.qty, es) - Costs.TradeCharges(k.dir, Costs.Times(k.entry, k.qty as real), LegValues(es), costs) / Unit(k)
  }

  /** A row that holds exactly the given legs, each added once, and on the close their net R. */
  ghost predicate RowHolds(costs: Costs.Config, row: Row, es: seq<Event>) {
    && row.terms.qty >= 1
    && row.gross == GrossOf(row.terms.qty, es)
    && row.partial == HasPartial(es)
    && row.exit == Scan(Holding, row.terms.qty, es).Done?
    && row.partialPrice == PartialPrice(es)
    && row.netR == if row.exit then Some(NetOf(costs, row.terms, es)) else None
  }

  /** A trade whose phase and gross R are those of the events it emitted. */
  ghost predicate HeldHolds(c: Rules, h: Held, es: seq<Event>) {
    && Sound(c, h.trade)
    && h.gross == GrossOf(h.trade.terms.qty, es)
    && h.trade.partialDone == HasPartial(es)
    && Sold(es) + h.trade.remaining == h.trade.terms.qty
    && Ratchets(h.trade.terms.dir, h.trade.terms.initialStop, es)
    && h.trade.stop == StopAfter(h.trade.terms.initialStop, es)
    && PhaseOf(h.trade) == Scan(Holding, h.trade.terms.qty, es)
  }

  ghost predicate LogOk(c: Rules, m: Saved, rows: map<int, Row>) {
    && m.trades.Keys <= rows.Keys
    && (forall id :: id in m.trades ==>
          m.trades[id].trade.terms == rows[id].terms && HeldHolds(c, m.trades[id], EventsOf(m.log, id)))
    && (forall i :: 0 <= i < |m.log| ==> m.log[i].event.tradeId in m.trades)
  }

  ghost predicate Suffix(m: Saved) {
    |m.pending| <= |m.log| && m.pending == m.log[|m.log| - |m.pending|..]
  }

  ghost predicate RowsAre(costs: Costs.Config, rows: map<int, Row>, log: seq<Note>) {
    forall id :: id in rows ==> rows[id].terms.id == id && RowHolds(costs, rows[id], EventsOf(log, id))
  }

  /** The alerts of a log: of its taken events, in order, the first with each dedup key. */
  function AlertsOf(enabled: bool, log: seq<Note>): seq<Alert>
    decreases |log|
  {
    if log == [] then [] else
    var front := AlertsOf(enabled, log[..|log| - 1]);
    var n := log[|log| - 1];
    if n.taken && enabled then Enqueued(front, n.event) else front
  }

  /** Exactly the taken events of the log, one alert for each dedup key. */
  ghost predicate AlertsAre(enabled: bool, alerts: seq<Alert>, log: seq<Note>) {
    && alerts == AlertsOf(enabled, log)
    && (forall i, j :: 0 <= i < j < |alerts| ==> alerts[i].key != alerts[j].key)
    && (forall i :: 0 <= i < |alerts| ==>
          alerts[i].key == KeyOf(alerts[i].event) && enabled && Note(alerts[i].event, true) in log)
    && (forall i :: 0 <= i < |log| && log[i].taken && enabled ==> HasKey(alerts, KeyOf(log[i].event)))
  }

  // ---------------------------------------------------------------- the invariant

  /** The rows hold the first `legs` events of the saved log and the alerts the first `queued`. */
  ghost predicate Inv(c: Config, s: State, legs: nat, queued: nat) {
    && Suffix(s.memory) && Suffix(s.file)
    && s.file.log <= s.memory.log
    && |s.file.log| - |s.file.pending| <= |s.memory.log| - |s.memory.pending| <= queued <= legs <= |s.file.log|
    && LogOk(c.rules, s.memory, s.db.rows) && LogOk(c.rules, s.file, s.db.rows)
    && RowsAre(c.costs, s.db.rows, s.file.log[..legs])
    && AlertsAre(c.alertsEnabled, s.db.alerts, s.file.log[..queued])
    && (s.phase.Flushing? ==>
          && s.memory.trades == s.file.trades && s.memory.log == s.file.log
          && (s.phase.at >= 1 ==> |s.memory.log| - |s.memory.pending| < legs)
          && (s.phase.at >= 2 ==> |s.memory.log| - |s.memory.pending| < queued))
  }

  // ---------------------------------------------------------------- events of a trade in a log

  lemma {:induction false} EventsOfAppend(a: seq<Note>, b: seq<Note>, id: int)
    ensures EventsOf(a + b, id) == EventsOf(a, id) + EventsOf(b, id)
    decreases |b|
  {
    if b == [] {
      assert a + b == a;
    } else {
      assert (a + b)[..|a + b| - 1] == a + b[..|b| - 1];
      EventsOfAppend(a, b[..|b| - 1], id);
    }
  }

  lemma {:induction false} NoEventsOf(log: seq<Note>, id: int)
    requires forall i :: 0 <= i < |log| ==> log[i].event.tradeId != id
    ensures EventsOf(log, id) == []
    decreases |log|
  {
    if log != [] {
      NoEventsOf(log[..|log| - 1], id);
    }
  }

  lemma {:induction false} AllEventsOf(es: seq<Event>, taken: seq<bool>, id: int)
    requires |es| == |taken| && forall i :: 0 <= i < |es| ==> es[i].tradeId == id
    ensures EventsOf(Notes(es, taken), id) == es
    ensures forall other :: other != id ==> EventsOf(Notes(es, taken), other) == []
    decreases |es|
  {
    if es != [] {
      var n := |es| - 1;
      AllEventsOf(es[..n], taken[..n], id);
      assert Notes(es, taken)[..n] == Notes(es[..n], taken[..n]);
      assert es == es[..n] + [es[n]];
    }
  }

  lemma {:induction false} GrossAppend(qty: int, a: seq<Event>, b: seq<Event>)
    requires qty != 0
    ensures GrossOf(qty, a + b) == GrossOf(qty, a) + GrossOf(qty, b)
    decreases |b|
  {
    if b == [] {
      assert a + b == a;
    } else {
      assert (a + b)[..|a + b| - 1] == a + b[..|b| - 1];
      GrossAppend(qty, a, b[..|b| - 1]);
    }
  }

  lemma HasPartialAppend(a: seq<Event>, b: seq<Event>)
    ensures HasPartial(a + b) == (HasPartial(a) || HasPartial(b))
  {
    assert forall e :: e in a + b <==> e in a || e in b;
  }

  // ---------------------------------------------------------------- one leg, applied once

  lemma ScanOne(ph: Lifecycle.Phase, qty: int, e: Event)
    ensures Scan(ph, qty, [e]) == Advance(ph, qty, e)
  {
    assert [e][1..] == [];
    assert Scan(Advance(ph, qty, e), qty, []) == Advance(ph, qty, e);
  }

  lemma {:induction false} RunnerNeverHolding(qty: int, es: seq<Event>)
    ensures Scan(Runner, qty, es) != Holding
  {
    if es != [] {
      match Advance(Runner, qty, es[0]) {
        case Runner => RunnerNeverHolding(qty, es[1..]);
        case Done => if Scan(Done, qty, es[1..]) == Holding { DoneIsLast(qty, es[1..]); }
        case Holding =>
        case Illegal => IllegalStays(qty, es[1..]);
      }
    }
  }

  /** Only an empty list leaves a trade holding. */
  lemma {:induction false} HoldingIsEmpty(qty: int, es: seq<Event>)
    requires Scan(Holding, qty, es) == Holding
    ensures es == []
  {
    if es != [] {
      match Advance(Holding, qty, es[0]) {
        case Runner => RunnerNeverHolding(qty, es[1..]);
        case Done => DoneIsLast(qty, es[1..]);
        case Holding =>
        case Illegal => IllegalStays(qty, es[1..]);
      }
    }
  }

  lemma GrossOneMore(qty: int, es: seq<Event>, e: Event)
    requires qty >= 1
    ensures GrossOf(qty, es + [e]) == GrossOf(qty, es) + Weighed(e, qty)
  {
    var all := es + [e];
    assert all[..|all| - 1] == es && all[|all| - 1] == e;
  }

  /** What one more event adds to the plain sums. */
  lemma OneMoreEvent(qty: int, es: seq<Event>, e: Event)
    requires qty >= 1
    ensures GrossOf(qty, es + [e]) == GrossOf(qty, es) + Weighed(e, qty)
    ensures HasPartial(es + [e]) == (HasPartial(es) || e.kind.PartialExit?)
    ensures Scan(Holding, qty, es + [e]) == Advance(Scan(Holding, qty, es), qty, e)
    ensures Scan(Holding, qty, es).Holding? ==> es == [] && !HasPartial(es)
  {
    hide Weighed;
    GrossOneMore(qty, es, e);
    HasPartialAppend(es, [e]);
    assert HasPartial([e]) == e.kind.PartialExit? by {
      assert e in [e];
    }
    ScanAppend(Holding, qty, es, [e]);
    ScanOne(Scan(Holding, qty, es), qty, e);
    if Scan(Holding, qty, es).Holding? {
      HoldingIsEmpty(qty, es);
    }
  }

  lemma OneMoreLeg(es: seq<Event>, e: Event)
    ensures PartialPrice(es + [e]) == if e.kind.PartialExit? then Some(e.price) else PartialPrice(es)
    ensures LegValues(es + [e]) == LegValues(es) + if e.qty == 0 then [] else [Costs.Times(e.price, e.qty as real)]
    ensures Sold(es + [e]) == Sold(es) + e.qty
  {
    var all := es + [e];
    assert all[..|all| - 1] == es && all[|all| - 1] == e;
    SoldAppend(es, [e]);
    assert [e][1..] == [];
  }

  lemma NoLegs()
    ensures LegValues([]) == [] && PartialPrice([]) == None && Sold([]) == 0
  {
  }

  /** A runner has exactly one leg behind it, its partial. */
  lemma {:induction false} RunnerLegs(qty: int, es: seq<Event>)
    requires qty >= 1 && Scan(Holding, qty, es).Runner?
    ensures PartialPrice(es).Some? && LegValues(es) == [Costs.Times(PartialPrice(es).value, Sold(es) as real)]
    decreases |es|
  {
    var front, e := es[..|es| - 1], es[|es| - 1];
    assert es == front + [e];
    OneMoreEvent(qty, front, e);
    OneMoreLeg(front, e);
    hide Scan, GrossOf, Weighed, Sold, HasPartial;
    if Scan(Holding, qty, front).Holding? {
      NoLegs();
    } else {
      RunnerLegs(qty, front);
      assert LegValues(front) + [] == LegValues(front);
    }
  }

  /** The charges a close books are those of the actual legs. */
  lemma ClosingLegs(costs: Costs.Config, row: Row, es: seq<Event>, e: Event)
    requires row.terms.qty >= 1 && row.partialPrice == PartialPrice(es)
    requires Advance(Scan(Holding, row.terms.qty, es), row.terms.qty, e).Done? && Sold(es + [e]) == row.terms.qty
    ensures ClosingCharges(costs, row, e)
         == Costs.TradeCharges(row.terms.dir, Costs.Times(row.terms.entry, row.terms.qty as real), LegValues(es + [e]), costs)
  {
    var qty := row.terms.qty;
    OneMoreEvent(qty, es, e);
    OneMoreLeg(es, e);
    NoLegs();
    var ph := Scan(Holding, qty, es);
    hide Scan, GrossOf, Weighed, Sold, HasPartial, LegValues, PartialPrice, Costs.TradeCharges, Costs.Times;
    if ph.Holding? {
      assert [] + [Costs.Times(e.price, e.qty as real)] == [Costs.Times(e.price, qty as real)];
    } else {
      RunnerLegs(qty, es);
      var k := Sold(es);
      assert k == qty - e.qty && k != 0;
      assert [Costs.Times(PartialPrice(es).value, k as real)] + [Costs.Times(e.price, e.qty as real)]
          == [Costs.Times(PartialPrice(es).value, k as real), Costs.Times(e.price, e.qty as real)];
    }
  }

  /** The next event of a legal list is booked exactly as the plain sum says. */
  lemma NextLeg(costs: Costs.Config, row: Row, es: seq<Event>, e: Event)
    requires RowHolds(costs, row, es) && Scan(Holding, row.terms.qty, es + [e]) != Illegal
    requires Scan(Holding, row.terms.qty, es + [e]).Done? ==> Sold(es + [e]) == row.terms.qty
    ensures RowHolds(costs, if e.kind.TrailUpdate? then row else Booked(costs, row, e), es + [e])
  {
    hide Scan, GrossOf, HasPartial, PartialPrice, LegValues, ClosingCharges, Sold, Costs.TradeCharges, Unit;
    OneMoreEvent(row.terms.qty, es, e);
    OneMoreLeg(es, e);
    if e.kind.TrailUpdate? {
      assert e.qty == 0;
      assert e.r * 0.0 / row.terms.qty as real == 0.0;
      assert LegValues(es) + [] == LegValues(es);
    } else {
      hide Weighed;
      assert !Already(row, e);
      if Closes(row.terms.qty, e) {
        ClosingLegs(costs, row, es, e);
      }
    }
  }

  /** A closing event of a legal list closes it. */
  lemma ClosingIsDone(qty: int, es: seq<Event>, i: nat)
    requires Scan(Holding, qty, es) != Illegal && i < |es| && !es[i].kind.TrailUpdate? && Closes(qty, es[i])
    ensures Scan(Holding, qty, es).Done?
  {
    var e := es[i];
    assert es == es[..i] + ([e] + es[i + 1..]);
    ScanAppend(Holding, qty, es[..i], [e] + es[i + 1..]);
    var ph := Scan(Holding, qty, es[..i]);
    ScanAppend(ph, qty, [e], es[i + 1..]);
    ScanOne(ph, qty, e);
    IllegalStays(qty, es[i + 1..]);
    hide Scan;
    assert Advance(ph, qty, e).Done?;
    DoneIsLast(qty, es[i + 1..]);
  }

  /** An event already in a legal list is not booked again. */
  lemma OldLeg(costs: Costs.Config, row: Row, es: seq<Event>, i: nat)
    requires RowHolds(costs, row, es) && Scan(Holding, row.terms.qty, es) != Illegal && i < |es| && !es[i].kind.TrailUpdate?
    ensures Booked(costs, row, es[i]) == row
  {
    hide Scan, GrossOf, Weighed;
    if Closes(row.terms.qty, es[i]) {
      ClosingIsDone(row.terms.qty, es, i);
    } else {
      assert es[i] in es && es[i].kind.PartialExit?;
    }
  }

  // ---------------------------------------------------------------- one trade's events within a log

  lemma {:induction false} EventAt(log: seq<Note>, i: nat) returns (j: nat)
    requires i < |log|
    ensures var es := EventsOf(log, log[i].event.tradeId); j < |es| && es[j] == log[i].event
    decreases |log|
  {
    var n := |log| - 1;
    if i == n {
      j := |EventsOf(log[..n], log[i].event.tradeId)|;
    } else {
      j := EventAt(log[..n], i);
    }
  }

  /** A prefix of a legal list is legal. */
  lemma PrefixLegal(qty: int, log: seq<Note>, n: nat, id: int)
    requires n <= |log| && Scan(Holding, qty, EventsOf(log, id)) != Illegal
    ensures Scan(Holding, qty, EventsOf(log[..n], id)) != Illegal
  {
    assert log == log[..n] + log[n..];
    EventsOfAppend(log[..n], log[n..], id);
    ScanAppend(Holding, qty, EventsOf(log[..n], id), EventsOf(log[n..], id));
    IllegalStays(qty, EventsOf(log[n..], id));
  }

  lemma PrefixFacts(qty: int, log: seq<Note>, n: nat, id: int)
    requires n <= |log| && Scan(Holding, qty, EventsOf(log, id)) != Illegal
    ensures Scan(Holding, qty, EventsOf(log[..n], id)).Done? ==> Scan(Holding, qty, EventsOf(log, id)).Done?
    ensures HasPartial(EventsOf(log[..n], id)) ==> HasPartial(EventsOf(log, id))
  {
    assert log == log[..n] + log[n..];
    var a, b := EventsOf(log[..n], id), EventsOf(log[n..], id);
    EventsOfAppend(log[..n], log[n..], id);
    ScanAppend(Holding, qty, a, b);
    HasPartialAppend(a, b);
    if Scan(Holding, qty, a).Done? {
      DoneIsLast(qty, b);
      assert a + b == a;
    }
  }

  /** Every trade of a saved state has a legal event list, of the row's quantity. */
  lemma LegalOf(c: Rules, m: Saved, rows: map<int, Row>, id: int)
    requires LogOk(c, m, rows) && id in rows
    ensures Scan(Holding, rows[id].terms.qty, EventsOf(m.log, id)) != Illegal
  {
    if id !in m.trades {
      NoEventsOf(m.log, id);
    }
  }

  // ---------------------------------------------------------------- the database follows the log

  /** A prefix that closes a trade is all of its events, and sells all of its shares. */
  lemma WholeWhenDone(c: Rules, m: Saved, rows: map<int, Row>, n: nat, id: int)
    requires LogOk(c, m, rows) && id in rows && n <= |m.log|
    ensures var es := EventsOf(m.log[..n], id); Scan(Holding, rows[id].terms.qty, es).Done? ==> Sold(es) == rows[id].terms.qty
  {
    var qty := rows[id].terms.qty;
    var a, b := EventsOf(m.log[..n], id), EventsOf(m.log[n..], id);
    if Scan(Holding, qty, a).Done? {
      if id in m.trades {
        assert m.log == m.log[..n] + m.log[n..];
        EventsOfAppend(m.log[..n], m.log[n..], id);
        ScanAppend(Holding, qty, a, b);
        assert HeldHolds(c, m.trades[id], EventsOf(m.log, id));
        DoneIsLast(qty, b);
        assert a + b == a;
      } else {
        NoEventsOf(m.log[..n], id);
      }
    }
  }

  lemma RecordedRow(costs: Costs.Config, db: Db, e: Event, id: int)
    requires id in db.rows
    ensures Recorded(costs, db, e).rows.Keys == db.rows.Keys
    ensures Recorded(costs, db, e).rows[id]
            == if e.kind.TrailUpdate? || e.tradeId != id then db.rows[id] else Booked(costs, db.rows[id], e)
  {
  }

  lemma LastOf(log: seq<Note>, n: nat, id: int)
    requires n < |log|
    ensures EventsOf(log[..n + 1], id)
            == EventsOf(log[..n], id) + if log[n].event.tradeId == id then [log[n].event] else []
  {
    assert log[..n + 1][..|log[..n + 1]| - 1] == log[..n];
  }

  lemma RowForward(costs: Costs.Config, log: seq<Note>, n: nat, db: Db, id: int)
    requires n < |log| && id in db.rows && RowHolds(costs, db.rows[id], EventsOf(log[..n], id)) && db.rows[id].terms.id == id
    requires Scan(Holding, db.rows[id].terms.qty, EventsOf(log, id)) != Illegal
    requires var es := EventsOf(log[..n + 1], id);
             Scan(Holding, db.rows[id].terms.qty, es).Done? ==> Sold(es) == db.rows[id].terms.qty
    ensures id in Recorded(costs, db, log[n].event).rows
    ensures var row := Recorded(costs, db, log[n].event).rows[id];
            row.terms.id == id && RowHolds(costs, row, EventsOf(log[..n + 1], id))
  {
    hide Scan, RowHolds, Booked, Recorded, EventsOf;
    var e, row, es := log[n].event, db.rows[id], EventsOf(log[..n], id);
    PrefixLegal(row.terms.qty, log, n + 1, id);
    LastOf(log, n, id);
    RecordedRow(costs, db, e, id);
    if id == e.tradeId {
      NextLeg(costs, row, es, e);
      BookedTerms(costs, row, e);
    } else {
      assert es + [] == es;
    }
  }

  lemma LegForward(c: Rules, costs: Costs.Config, m: Saved, db: Db, n: nat)
    requires LogOk(c, m, db.rows) && n < |m.log| && RowsAre(costs, db.rows, m.log[..n])
    ensures RowsAre(costs, Recorded(costs, db, m.log[n].event).rows, m.log[..n + 1])
  {
    var db' := Recorded(costs, db, m.log[n].event);
    forall id | id in db'.rows
      ensures db'.rows[id].terms.id == id && RowHolds(costs, db'.rows[id], EventsOf(m.log[..n + 1], id))
    {
      LegalOf(c, m, db.rows, id);
      WholeWhenDone(c, m, db.rows, n + 1, id);
      hide LogOk, RowsAre, Recorded;
      RowForward(costs, m.log, n, db, id);
    }
  }

  lemma LegAgain(c: Rules, costs: Costs.Config, m: Saved, db: Db, n: nat, i: nat)
    requires LogOk(c, m, db.rows) && i < n <= |m.log| && RowsAre(costs, db.rows, m.log[..n])
    ensures Recorded(costs, db, m.log[i].event) == db
  {
    var e := m.log[i].event;
    if !e.kind.TrailUpdate? && e.tradeId in db.rows {
      hide Scan, RowHolds, Booked, HeldHolds;
      var row := db.rows[e.tradeId];
      LegalOf(c, m, db.rows, e.tradeId);
      PrefixLegal(row.terms.qty, m.log, n, e.tradeId);
      var j := EventAt(m.log[..n], i);
      OldLeg(costs, row, EventsOf(m.log[..n], e.tradeId), j);
      assert db.rows[e.tradeId := row] == db.rows;
    }
  }

  lemma AlertForward(enabled: bool, db: Db, log: seq<Note>, n: nat)
    requires n < |log| && AlertsAre(enabled, db.alerts, log[..n])
    ensures AlertsAre(enabled, Alerted(enabled, db, log[n]).alerts, log[..n + 1])
  {
    var was, now, x := db.alerts, Alerted(enabled, db, log[n]).alerts, log[n];
    var a, b := log[..n], log[..n + 1];
    assert b == a + [x];
    assert forall y :: y in a ==> y in b;
    assert x == b[n] && x in b;
    forall i | 0 <= i < |b| && b[i].taken && enabled ensures HasKey(now, KeyOf(b[i].event)) {
      if i < n {
        assert b[i] == a[i] && HasKey(was, KeyOf(a[i].event));
        var k :| 0 <= k < |was| && was[k].key == KeyOf(b[i].event);
        assert now[k] == was[k];
      } else if !HasKey(was, KeyOf(x.event)) {
        assert now[|was|].key == KeyOf(x.event);
      }
    }
  }

  lemma AlertAgain(enabled: bool, db: Db, log: seq<Note>, n: nat, i: nat)
    requires i < n <= |log| && AlertsAre(enabled, db.alerts, log[..n])
    ensures Alerted(enabled, db, log[i]) == db
  {
    assert log[i] == log[..n][i];
  }

  // ---------------------------------------------------------------- the state follows the trades

  /** The events of a price name their trade, and record a partial exactly when the trade turns partial. */
  lemma StepEvents(c: Rules, t: Trade, p: Price)
    ensures var o := Step(c, t, p);
            && (forall i :: 0 <= i < |o.events| ==> o.events[i].tradeId == t.terms.id)
            && o.trade.partialDone == (t.partialDone || HasPartial(o.events))
  {
    StepNamesTrade(c, t, p);
    if Applies(t, p) {
      var j := Judged(t, p, t.changes);
      UpdatePartialRecorded(c, Arrive(t, p), p, j.0, j.1);
      hide Update, Judged, ROf;
    }
  }

  lemma ApplyHeld(c: Rules, h: Held, p: Price, es: seq<Event>)
    requires HeldHolds(c, h, es) && h.trade.terms.qty >= 1
    ensures var o := Step(c, h.trade, p);
            HeldHolds(c, Held(o.trade, h.gross + GrossOf(h.trade.terms.qty, o.events)), es + o.events)
            && o.trade.terms == h.trade.terms
  {
    var o := Step(c, h.trade, p);
    StepIsSound(c, h.trade, p);
    StepEvents(c, h.trade, p);
    hide Step, Sound, GrossOf, Scan, Sold, Ratchets, StopAfter, HasPartial;
    GrossAppend(h.trade.terms.qty, es, o.events);
    HasPartialAppend(es, o.events);
    SoldAppend(es, o.events);
    StepAnnounces(c, h.trade, p);
    RatchetsAppend(h.trade.terms.dir, h.trade.terms.initialStop, es, o.events);
    ScanAppend(Holding, h.trade.terms.qty, es, o.events);
  }

  lemma LogGrows(log: seq<Note>, es: seq<Event>, taken: seq<bool>, id: int, x: int)
    requires |es| == |taken| && forall i :: 0 <= i < |es| ==> es[i].tradeId == id
    ensures EventsOf(log + Notes(es, taken), x) == if x == id then EventsOf(log, x) + es else EventsOf(log, x)
  {
    AllEventsOf(es, taken, id);
    EventsOfAppend(log, Notes(es, taken), x);
    assert EventsOf(log, x) + [] == EventsOf(log, x);
  }

  lemma LogOkWith(c: Rules, m: Saved, rows: map<int, Row>, id: int, h: Held, es: seq<Event>, taken: seq<bool>, pending: seq<Note>)
    requires LogOk(c, m, rows) && id in m.trades && h.trade.terms == rows[id].terms
    requires |taken| == |es| && (forall i :: 0 <= i < |es| ==> es[i].tradeId == id) && HeldHolds(c, h, EventsOf(m.log, id) + es)
    ensures LogOk(c, Saved(m.trades[id := h], m.log + Notes(es, taken), pending), rows)
  {
    hide HeldHolds, Notes, EventsOf;
    var m' := Saved(m.trades[id := h], m.log + Notes(es, taken), pending);
    forall x | x in m'.trades
      ensures m'.trades[x].trade.terms == rows[x].terms && HeldHolds(c, m'.trades[x], EventsOf(m'.log, x))
    {
      LogGrows(m.log, es, taken, id, x);
    }
    forall i | 0 <= i < |m'.log| ensures m'.log[i].event.tradeId in m'.trades {
      if i < |m.log| {
        assert m'.log[i] == m.log[i];
      } else {
        assert m'.log[i] == Notes(es, taken)[i - |m.log|];
      }
    }
  }

  lemma HeldOf(c: Rules, m: Saved, rows: map<int, Row>, id: int)
    requires LogOk(c, m, rows) && id in m.trades
    ensures id in rows && m.trades[id].trade.terms == rows[id].terms && HeldHolds(c, m.trades[id], EventsOf(m.log, id))
  {
  }

  lemma ApplyOk(c: Rules, m: Saved, rows: map<int, Row>, id: int, p: Price, taken: seq<bool>)
    requires LogOk(c, m, rows) && id in m.trades && rows[id].terms.id == id
    requires |taken| == |Step(c, m.trades[id].trade, p).events| && m.trades[id].trade.terms.qty >= 1
    ensures LogOk(c, Applied(c, m, id, p, taken), rows)
  {
    hide LogOk, Step, HeldHolds, GrossOf, Notes, EventsOf;
    HeldOf(c, m, rows, id);
    var h := m.trades[id];
    var o := Step(c, h.trade, p);
    StepEvents(c, h.trade, p);
    ApplyHeld(c, h, p, EventsOf(m.log, id));
    var h' := Held(o.trade, h.gross + GrossOf(h.trade.terms.qty, o.events));
    LogOkWith(c, m, rows, id, h', o.events, taken, m.pending + Notes(o.events, taken));
  }

  lemma OpenedHolds(c: Rules, k: Terms, entryBar: Option<int>)
    requires k.qty >= 1
    ensures HeldHolds(c, Held(Opened(k, entryBar), 0.0), [])
  {
  }

  /** A row no saved event names is as it was inserted. */
  lemma FreshRow(costs: Costs.Config, rows: map<int, Row>, log: seq<Note>, n: nat, id: int)
    requires n <= |log| && RowsAre(costs, rows, log[..n]) && id in rows
    requires forall i :: 0 <= i < |log| ==> log[i].event.tradeId != id
    ensures var r := rows[id]; r.terms.qty >= 1 && r.gross == 0.0 && !r.partial && !r.exit
  {
    NoEventsOf(log[..n], id);
  }

  lemma OpenOk(c: Rules, m: Saved, rows: map<int, Row>, id: int)
    requires LogOk(c, m, rows) && id in rows && id !in m.trades && rows[id].terms.qty >= 1
    ensures LogOk(c, m.(trades := m.trades[id := Held(Opened(rows[id].terms, rows[id].entryBar), 0.0)]), rows)
  {
    hide HeldHolds;
    NoEventsOf(m.log, id);
    OpenedHolds(c, rows[id].terms, rows[id].entryBar);
  }

  lemma RowsChange(c: Rules, m: Saved, rows: map<int, Row>, rows': map<int, Row>)
    requires LogOk(c, m, rows) && rows.Keys <= rows'.Keys && forall id :: id in rows ==> rows'[id].terms == rows[id].terms
    ensures LogOk(c, m, rows')
  {
    hide HeldHolds;
  }

  // ---------------------------------------------------------------- restarts

  /** While the state file survives, no database row is ahead of it: a restart only reopens rows the file does not know,
      and its branches that restore a partial or a close do not fire. */
  lemma RestartOnlyReopens(c: Rules, costs: Costs.Config, file: Saved, db: Db, legs: nat, id: int)
    requires LogOk(c, file, db.rows) && legs <= |file.log| && RowsAre(costs, db.rows, file.log[..legs])
    ensures id in Restarted(c, file, db).trades <==> id in db.rows
    ensures id in file.trades ==> Restarted(c, file, db).trades[id] == file.trades[id]
    ensures id in db.rows && id !in file.trades ==>
              Restarted(c, file, db).trades[id] == Held(Opened(db.rows[id].terms, db.rows[id].entryBar), 0.0)
              && db.rows[id].terms.qty >= 1
  {
    hide RestorePartial, Abandoned, Opened;
    if id in file.trades {
      var row, qty := db.rows[id], db.rows[id].terms.qty;
      LegalOf(c, file, db.rows, id);
      PrefixFacts(qty, file.log, legs, id);
      assert HeldHolds(c, file.trades[id], EventsOf(file.log, id));
      assert row.exit ==> file.trades[id].trade.closed;
    } else if id in db.rows {
      FreshRow(costs, db.rows, file.log, legs, id);
    }
  }

  lemma RestartKeepsLog(c: Rules, file: Saved, db: Db)
    ensures Restarted(c, file, db).log == file.log && Restarted(c, file, db).pending == file.pending
  {
  }

  lemma RestartOk(c: Rules, costs: Costs.Config, file: Saved, db: Db, legs: nat)
    requires LogOk(c, file, db.rows) && legs <= |file.log| && RowsAre(costs, db.rows, file.log[..legs])
    ensures LogOk(c, Restarted(c, file, db), db.rows)
  {
    var m := Restarted(c, file, db);
    hide HeldHolds, Restarted, RowsAre;
    RestartKeepsLog(c, file, db);
    forall id | id in m.trades.Keys ensures id in db.rows.Keys {
      RestartOnlyReopens(c, costs, file, db, legs, id);
    }
    forall id | id in m.trades
      ensures id in db.rows && m.trades[id].trade.terms == db.rows[id].terms && HeldHolds(c, m.trades[id], EventsOf(m.log, id))
    {
      RestartOnlyReopens(c, costs, file, db, legs, id);
      if id !in file.trades {
        NoEventsOf(file.log, id);
        OpenedHolds(c, db.rows[id].terms, db.rows[id].entryBar);
      }
    }
    forall i | 0 <= i < |m.log| ensures m.log[i].event.tradeId in m.trades {
      RestartOnlyReopens(c, costs, file, db, legs, file.log[i].event.tradeId);
    }
  }

  // ---------------------------------------------------------------- every step

  lemma RowInserted(costs: Costs.Config, rows: map<int, Row>, log: seq<Note>, k: Terms, bar: Option<int>)
    requires RowsAre(costs, rows, log) && k.qty >= 1 && EventsOf(log, k.id) == []
    ensures RowsAre(costs, rows[k.id := Row(k, bar, 0.0, false, false, None, None)], log)
  {
    assert RowHolds(costs, Row(k, bar, 0.0, false, false, None, None), []);
    hide RowHolds;
  }

  lemma KeysWithin(c: Rules, m: Saved, rows: map<int, Row>)
    requires LogOk(c, m, rows)
    ensures m.trades.Keys <= rows.Keys && forall id :: id in m.trades ==> id in rows && m.trades[id].trade.terms == rows[id].terms
  {
  }

  lemma Unnamed(c: Rules, m: Saved, rows: map<int, Row>, n: nat, id: int)
    requires LogOk(c, m, rows) && id !in m.trades && n <= |m.log|
    ensures EventsOf(m.log[..n], id) == []
  {
    NoEventsOf(m.log[..n], id);
  }

  lemma InsertKeeps(c: Config, s: State, k: Terms, bar: Option<int>, legs: nat, queued: nat)
    requires Inv(c, s, legs, queued) && Enabled(c, s, Accept(k, bar))
    ensures Inv(c, Next(c, s, Accept(k, bar)), legs, queued)
  {
    var s' := Next(c, s, Accept(k, bar));
    hide LogOk, AlertsAre, HeldHolds, RowsAre, RowHolds;
    RowsChange(c.rules, s.memory, s.db.rows, s'.db.rows);
    RowsChange(c.rules, s.file, s.db.rows, s'.db.rows);
    assert k.id !in s.file.trades by {
      KeysWithin(c.rules, s.file, s.db.rows);
    }
    Unnamed(c.rules, s.file, s.db.rows, legs, k.id);
    RowInserted(c.costs, s.db.rows, s.file.log[..legs], k, bar);
  }

  lemma RowId(costs: Costs.Config, rows: map<int, Row>, log: seq<Note>, id: int)
    requires RowsAre(costs, rows, log) && id in rows
    ensures rows[id].terms.id == id && rows[id].terms.qty >= 1
  {
  }

  lemma OpenKeeps(c: Config, s: State, id: int, legs: nat, queued: nat)
    requires Inv(c, s, legs, queued) && Enabled(c, s, Open(id))
    ensures Inv(c, Next(c, s, Open(id)), legs, queued)
  {
    hide LogOk, AlertsAre, RowsAre;
    RowId(c.costs, s.db.rows, s.file.log[..legs], id);
    OpenOk(c.rules, s.memory, s.db.rows, id);
  }

  lemma ApplyKeeps(c: Config, s: State, id: int, p: Price, taken: seq<bool>, legs: nat, queued: nat)
    requires Inv(c, s, legs, queued) && Enabled(c, s, Apply(id, p, taken))
    ensures Inv(c, Next(c, s, Apply(id, p, taken)), legs, queued)
  {
    hide LogOk, AlertsAre, RowsAre, Step, Notes, GrossOf;
    HeldOf(c.rules, s.memory, s.db.rows, id);
    assert s.db.rows[id].terms.id == id by {
      RowId(c.costs, s.db.rows, s.file.log[..legs], id);
    }
    ApplyOk(c.rules, s.memory, s.db.rows, id, p, taken);
    var m, m' := s.memory, Applied(c.rules, s.memory, id, p, taken);
    assert m'.log[|m'.log| - |m'.pending|..] == m'.pending;
  }

  /** The head of the pending events, as an index of the saved log. */
  lemma HeadIs(c: Config, s: State, legs: nat, queued: nat)
    requires Inv(c, s, legs, queued) && s.phase.Flushing? && s.memory.pending != []
    ensures var i := |s.memory.log| - |s.memory.pending|;
            0 <= i < |s.file.log| && s.memory.pending[0] == s.file.log[i] && s.memory.pending[1..] == s.memory.log[i + 1..]
  {
    hide LogOk, RowsAre, AlertsAre;
  }

  lemma RecordedTerms(costs: Costs.Config, db: Db, e: Event)
    ensures Recorded(costs, db, e).rows.Keys == db.rows.Keys && Recorded(costs, db, e).alerts == db.alerts
    ensures forall id :: id in db.rows ==> Recorded(costs, db, e).rows[id].terms == db.rows[id].terms
  {
  }

  lemma LegKeeps(c: Config, s: State, legs: nat, queued: nat) returns (legs': nat)
    requires Inv(c, s, legs, queued) && Enabled(c, s, Leg)
    ensures Inv(c, Next(c, s, Leg), legs', queued)
  {
    hide LogOk, AlertsAre, RowsAre, HeldHolds, Recorded;
    HeadIs(c, s, legs, queued);
    var i, s' := |s.memory.log| - |s.memory.pending|, Next(c, s, Leg);
    if i < legs {
      LegAgain(c.rules, c.costs, s.file, s.db, legs, i);
      legs' := legs;
    } else {
      LegForward(c.rules, c.costs, s.file, s.db, i);
      legs' := i + 1;
    }
    RecordedTerms(c.costs, s.db, s.memory.pending[0].event);
    RowsChange(c.rules, s.memory, s.db.rows, s'.db.rows);
    RowsChange(c.rules, s.file, s.db.rows, s'.db.rows);
  }

  lemma AlertedRows(enabled: bool, db: Db, n: Note)
    ensures Alerted(enabled, db, n).rows == db.rows
  {
  }

  lemma QueueKeeps(c: Config, s: State, legs: nat, queued: nat) returns (queued': nat)
    requires Inv(c, s, legs, queued) && Enabled(c, s, Queue)
    ensures Inv(c, Next(c, s, Queue), legs, queued')
  {
    hide LogOk, AlertsAre, RowsAre, HeldHolds, Alerted;
    HeadIs(c, s, legs, queued);
    AlertedRows(c.alertsEnabled, s.db, s.memory.pending[0]);
    var i := |s.memory.log| - |s.memory.pending|;
    if i < queued {
      AlertAgain(c.alertsEnabled, s.db, s.file.log, queued, i);
      queued' := queued;
    } else {
      AlertForward(c.alertsEnabled, s.db, s.file.log, i);
      queued' := i + 1;
    }
  }

  lemma RestartNext(c: Config, s: State)
    ensures Enabled(c, s, CrashAndRestart)
    ensures Next(c, s, CrashAndRestart) == s.(memory := Restarted(c.rules, s.file, s.db), phase := Working)
  {
    hide Restarted;
  }

  lemma RestartKeeps(c: Config, s: State, legs: nat, queued: nat)
    requires Inv(c, s, legs, queued)
    ensures Inv(c, s.(memory := Restarted(c.rules, s.file, s.db), phase := Working), legs, queued)
  {
    hide LogOk, AlertsAre, RowsAre, Restarted;
    RestartOk(c.rules, c.costs, s.file, s.db, legs);
    RestartKeepsLog(c.rules, s.file, s.db);
  }

  lemma PersistKeeps(c: Config, s: State, legs: nat, queued: nat)
    requires Inv(c, s, legs, queued)
    ensures Inv(c, Next(c, s, Persist), legs, queued)
  {
    hide LogOk, AlertsAre, RowsAre;
    assert s.memory.log[..legs] == s.file.log[..legs] && s.memory.log[..queued] == s.file.log[..queued];
  }

  lemma PopKeeps(c: Config, s: State, legs: nat, queued: nat)
    requires Inv(c, s, legs, queued) && Enabled(c, s, Pop)
    ensures Inv(c, Next(c, s, Pop), legs, queued)
  {
    hide AlertsAre, RowsAre, HeldHolds;
    HeadIs(c, s, legs, queued);
  }

  /** Every write and every crash keeps the invariant. */
  lemma StepKeepsInv(c: Config, s: State, a: Action, legs: nat, queued: nat) returns (legs': nat, queued': nat)
    requires Inv(c, s, legs, queued) && Enabled(c, s, a)
    ensures Inv(c, Next(c, s, a), legs', queued')
  {
    hide Inv, Next, Enabled;
    legs', queued' := legs, queued;
    match a
    case Accept(k, bar) => InsertKeeps(c, s, k, bar, legs, queued);
    case Open(id) => OpenKeeps(c, s, id, legs, queued);
    case Apply(id, p, taken) => ApplyKeeps(c, s, id, p, taken, legs, queued);
    case Persist => PersistKeeps(c, s, legs, queued);
    case Leg => legs' := LegKeeps(c, s, legs, queued);
    case Queue => queued' := QueueKeeps(c, s, legs, queued);
    case Pop => PopKeeps(c, s, legs, queued);
    case CrashAndRestart =>
      RestartKeeps(c, s, legs, queued);
      RestartNext(c, s);
  }

  lemma EmptyOk(c: Config)
    ensures LogOk(c.rules, EMPTY, map[]) && RowsAre(c.costs, map[], []) && AlertsAre(c.alertsEnabled, [], [])
  {
  }

  lemma StartInv(c: Config)
    ensures Inv(c, START, 0, 0)
  {
    assert START.file.log[..0] == [] && START.memory.pending == START.memory.log[0..];
    EmptyOk(c);
    hide LogOk, RowsAre, AlertsAre;
  }

  lemma {:induction false} Reachable(c: Config, s: State, actions: seq<Action>, s': State, legs: nat, queued: nat)
    returns (legs': nat, queued': nat)
    requires Inv(c, s, legs, queued) && Runs(c, s, actions, s')
    ensures Inv(c, s', legs', queued')
    decreases |actions|
  {
    hide Inv, Next, Enabled;
    if actions == [] {
      legs', queued' := legs, queued;
    } else {
      legs', queued' := StepKeepsInv(c, s, actions[0], legs, queued);
      legs', queued' := Reachable(c, Next(c, s, actions[0]), actions[1..], s', legs', queued');
    }
  }
}
