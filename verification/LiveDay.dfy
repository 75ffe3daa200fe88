/**
 The session's books and its writes together: a live day of entries, prices, answers, saves, single
 database writes and crashes, and what its realized R is in terms of the database.
 */
module LiveDay {
  import opened Common
  import opened Positions
  import opened Lifecycle
  import opened LiveSinks
  import C = CrashProtocol
  import S = SlotRuns
  import CrashSafety
  import Costs
  import Slots
  import Limits

  datatype Config = Config(live: C.Config, slots: S.Config)

  /** The protocol's state, the session's books in memory and the books in the state file. */
  datatype Day = Day(live: C.State, book: Slots.Book, saved: Slots.Book)

  /** A row the state did not know, as a restart adopts it. */
  datatype Adoption = Adoption(id: int, meta: Slots.Meta, taken: bool)

  datatype Step =
    | Write(write: C.Action)                                             // a row, or one part of a flush
    | Enter(id: int, meta: Slots.Meta, date: int, taken: bool)           // an accepted plan whose row exists
    | Routed(id: int, price: Price, marks: seq<bool>, dbTaken: set<int>) // a bar or tick on one trade
    | Answer(action: S.Action)                                         // Taken, Skipped, expiry or a refused signal
    | Save
    | CrashRestart(adopted: seq<Adoption>)

  function Start(date: int): Day { Day(C.START, Slots.NewBook(date), Slots.NewBook(date)) }

  /** The books of a trade of these terms before any event. */
  ghost predicate Fresh(m: Slots.Meta, k: Terms) {
    && m.qty == k.qty && m.rps == Rps(k) && m.dir == k.dir && m.entry == Some(k.entry)
    && m.grossR == 0.0 && m.exitOrders == [] && m.exitQty == 0 && !m.closed
  }

  function Closers(c: Rules, t: Trade, p: Price): seq<int> {
    if !t.closed && Positions.Step(c, t, p).trade.closed then [t.terms.id] else []
  }

  ghost predicate CanAdopt(c: S.Config, b: Slots.Book, adopted: seq<Adoption>)
    decreases |adopted|
  {
    adopted == [] ||
    var x := adopted[0];
    var a := S.AdoptTrade(x.id, x.meta, x.taken);
    S.Linked(b) && S.Enabled(c, b, a) && CanAdopt(c, S.Do(c, b, a), adopted[1..])
  }

  ghost function Adopted(c: S.Config, b: Slots.Book, adopted: seq<Adoption>): Slots.Book
    requires CanAdopt(c, b, adopted)
    decreases |adopted|
  {
    if adopted == [] then b else
    var x := adopted[0];
    Adopted(c, S.Do(c, b, S.AdoptTrade(x.id, x.meta, x.taken)), adopted[1..])
  }

  /** Exactly the rows that the file does not know. */
  ghost predicate AdoptsMissing(file: C.Saved, db: Db, adopted: seq<Adoption>) {
    && (forall x :: x in adopted ==> x.id in db.rows && x.id !in file.trades && Fresh(x.meta, db.rows[x.id].terms))
    && (forall id :: id in db.rows && id !in file.trades && !db.rows[id].exit ==> exists x :: x in adopted && x.id == id)
  }

  function RouteAction(c: Config, d: Day, id: int, p: Price, taken: set<int>): S.Action
    requires id in d.live.memory.trades
  {
    var t := d.live.memory.trades[id].trade;
    S.RouteEvents(Positions.Step(c.live.rules, t, p).events, Closers(c.live.rules, t, p), taken)
  }

  ghost predicate CanAct(c: Config, d: Day, a: S.Action) {
    S.Linked(d.book) && S.Enabled(c.slots, d.book, a)
  }

  ghost predicate CanStep(c: Config, d: Day, step: Step) {
    match step
    case Write(a) => (a.Accept? || a.Leg? || a.Queue? || a.Pop?) && C.Enabled(c.live, d.live, a)
    case Enter(id, m, date, t) =>
      && C.Enabled(c.live, d.live, C.Open(id)) && Fresh(m, d.live.db.rows[id].terms)
      && CanAct(c, d, S.Enter(id, m, date, t))
    case Routed(id, p, marks, t) =>
      C.Enabled(c.live, d.live, C.Apply(id, p, marks)) && CanAct(c, d, RouteAction(c, d, id, p, t))
    case Answer(a) => (a.Tap? || a.Skip? || a.Expire? || a.Refuse?) && CanAct(c, d, a)
    case Save => true
    case CrashRestart(adopted) => CanAdopt(c.slots, d.saved, adopted) && AdoptsMissing(d.live.file, d.live.db, adopted)
  }

  ghost function After(c: Config, d: Day, step: Step): Day
    requires CanStep(c, d, step)
  {
    match step
    case Write(a) => d.(live := C.Next(c.live, d.live, a))
    case Enter(id, m, date, t) =>
      d.(live := C.Next(c.live, d.live, C.Open(id)), book := S.Do(c.slots, d.book, S.Enter(id, m, date, t)))
    case Routed(id, p, marks, t) =>
      d.(live := C.Next(c.live, d.live, C.Apply(id, p, marks)), book := S.Do(c.slots, d.book, RouteAction(c, d, id, p, t)))
    case Answer(a) => d.(book := S.Do(c.slots, d.book, a))
    case Save => d.(live := C.Next(c.live, d.live, C.Persist), saved := d.book)
    case CrashRestart(adopted) =>
      d.(live := C.Next(c.live, d.live, C.CrashAndRestart), book := Adopted(c.slots, d.saved, adopted))
  }

  ghost predicate Runs(c: Config, d: Day, steps: seq<Step>, d': Day)
    decreases |steps|
  {
    if steps == [] then d' == d else CanStep(c, d, steps[0]) && Runs(c, After(c, d, steps[0]), steps[1..], d')
  }

  // ---------------------------------------------------------------- the books follow the events

  ghost predicate Totals(m: Slots.Meta, es: seq<Event>) {
    m.grossR == C.GrossOf(m.qty, es) && m.exitOrders == C.LegValues(es) && m.exitQty == Sold(es)
  }

  /** What is kept about a trade is what its events add up to. */
  ghost predicate Books(m: Slots.Meta, t: Trade, es: seq<Event>) {
    && m.qty == t.terms.qty && m.rps == Rps(t.terms) && m.dir == t.terms.dir && m.entry == Some(t.terms.entry)
    && m.closed == t.closed && Totals(m, es)
  }

  ghost predicate Matches(b: Slots.Book, m: C.Saved) {
    && b.trades.Keys == m.trades.Keys
    && forall id :: id in m.trades ==> Books(b.trades[id], m.trades[id].trade, C.EventsOf(m.log, id))
  }

  lemma NoTotals(m: Slots.Meta)
    requires m.grossR == 0.0 && m.exitOrders == [] && m.exitQty == 0
    ensures Totals(m, [])
  {
  }

  /** All but the running totals. */
  ghost predicate SameTrade(a: Slots.Meta, b: Slots.Meta) {
    b == a.(grossR := b.grossR, exitOrders := b.exitOrders, exitQty := b.exitQty)
  }

  lemma TotalsGrow(m: Slots.Meta, es: seq<Event>, e: Event)
    requires Totals(m, es)
    ensures var m' := Slots.BookLeg(m, e); Totals(m', es + [e]) && SameTrade(m, m')
  {
    var all := es + [e];
    assert all[..|all| - 1] == es && all[|all| - 1] == e;
    C.GrossOneMore(m.qty, es, e);
    SoldAppend(es, [e]);
    assert [e][1..] == [];
    assert C.LegValues(es) + [] == C.LegValues(es);
  }

  /** Booking one trade's events adds them to its books and touches no other trade's. */
  lemma {:induction false} BookEventsTotals(b: Slots.Book, id: int, past: seq<Event>, es: seq<Event>, taken: set<int>)
    requires id in b.trades && Totals(b.trades[id], past) && forall i :: 0 <= i < |es| ==> es[i].tradeId == id
    ensures var b' := Slots.BookEvents(b, es, taken);
            && Totals(b'.trades[id], past + es) && SameTrade(b.trades[id], b'.trades[id])
            && b'.trades == b.trades[id := b'.trades[id]]
    decreases |es|
  {
    hide Slots.BookLeg, Slots.Take, Totals;
    if es == [] {
      assert past + es == past && b.trades == b.trades[id := b.trades[id]];
    } else {
      var n := |es| - 1;
      var a := Slots.BookEvents(b, es[..n], taken);
      BookEventsTotals(b, id, past, es[..n], taken);
      TotalsGrow(a.trades[id], past + es[..n], es[n]);
      assert past + es[..n] + [es[n]] == past + es;
      assert b.trades[id := a.trades[id]][id := Slots.BookLeg(a.trades[id], es[n])]
          == b.trades[id := Slots.BookLeg(a.trades[id], es[n])];
    }
  }

  lemma OneCloser(b: Slots.Book, id: int, costs: Costs.Config)
    requires id in b.trades
    ensures Slots.CloseIds(b, [id], costs).trades == b.trades[id := b.trades[id].(closed := true)]
  {
    hide Slots.NetR, Limits.Exited;
    assert [id][..0] == [];
    assert Slots.CloseIds(b, [id], costs) == Slots.CloseOne(b, id, costs);
  }

  // ---------------------------------------------------------------- every step

  ghost predicate Consistent(c: Config, d: Day) {
    && S.Balanced(c.slots.costs, d.book) && S.Balanced(c.slots.costs, d.saved)
    && Matches(d.book, d.live.memory) && Matches(d.saved, d.live.file)
  }

  lemma NoCloser(b: Slots.Book, costs: Costs.Config)
    ensures Slots.CloseIds(b, [], costs) == b
  {
  }

  lemma ClosedForGood(c: Rules, t: Trade, p: Price)
    ensures t.closed ==> Positions.Step(c, t, p) == Outcome(t, [])
  {
  }

  lemma TotalsOfClosed(m: Slots.Meta, es: seq<Event>)
    ensures var m': Slots.Meta := m.(closed := true); Totals(m', es) == Totals(m, es)
  {
  }

  /** The books after a price on one trade. */
  lemma RoutedBooks(c: Config, d: Day, id: int, p: Price, taken: set<int>)
    requires id in d.live.memory.trades && id in d.book.trades && d.live.memory.trades[id].trade.terms.id == id
    requires CanAct(c, d, RouteAction(c, d, id, p, taken))
    requires Books(d.book.trades[id], d.live.memory.trades[id].trade, C.EventsOf(d.live.memory.log, id))
    ensures var t := d.live.memory.trades[id].trade;
            var o := Positions.Step(c.live.rules, t, p);
            var trades := S.Do(c.slots, d.book, RouteAction(c, d, id, p, taken)).trades;
            && id in trades && trades == d.book.trades[id := trades[id]]
            && Books(trades[id], o.trade, C.EventsOf(d.live.memory.log, id) + o.events)
  {
    hide Totals, Positions.Step, Slots.NetR, C.EventsOf, Slots.BookEvents, Slots.CloseIds, Slots.Take;
    var t := d.live.memory.trades[id].trade;
    var o := Positions.Step(c.live.rules, t, p);
    var past := C.EventsOf(d.live.memory.log, id);
    C.StepEvents(c.live.rules, t, p);
    StepNamesTrade(c.live.rules, t, p);
    ClosedForGood(c.live.rules, t, p);
    BookEventsTotals(d.book, id, past, o.events, taken);
    var a := Slots.BookEvents(d.book, o.events, taken);
    OneCloser(a, id, c.slots.costs);
    NoCloser(a, c.slots.costs);
    TotalsOfClosed(a.trades[id], past + o.events);
  }

  /** The log after it: this trade's events grow by its own, the others' stay. */
  lemma RoutedLog(c: Rules, m: C.Saved, id: int, p: Price, marks: seq<bool>)
    requires id in m.trades && m.trades[id].trade.terms.id == id && m.trades[id].trade.terms.qty >= 1
    requires |marks| == |Positions.Step(c, m.trades[id].trade, p).events|
    ensures var o, m' := Positions.Step(c, m.trades[id].trade, p), C.Applied(c, m, id, p, marks);
            && m'.trades.Keys == m.trades.Keys && m'.trades[id].trade == o.trade
            && (forall other :: other in m.trades && other != id ==> m'.trades[other] == m.trades[other])
            && forall other :: C.EventsOf(m'.log, other) == C.EventsOf(m.log, other) + if other == id then o.events else []
  {
    hide Positions.Step, C.EventsOf, C.GrossOf;
    var o := Positions.Step(c, m.trades[id].trade, p);
    C.StepEvents(c, m.trades[id].trade, p);
    C.AllEventsOf(o.events, marks, id);
    forall other ensures C.EventsOf(m.log + C.Notes(o.events, marks), other)
                      == C.EventsOf(m.log, other) + if other == id then o.events else []
    {
      C.EventsOfAppend(m.log, C.Notes(o.events, marks), other);
    }
  }

  /** The books kept about the other trades, and the events of the others, stay. */
  lemma RoutedMatches(c: Config, d: Day, id: int, p: Price, marks: seq<bool>, taken: set<int>)
    requires Consistent(c, d) && CanStep(c, d, Routed(id, p, marks, taken))
    requires d.live.memory.trades[id].trade.terms.id == id
    ensures Matches(After(c, d, Routed(id, p, marks, taken)).book, After(c, d, Routed(id, p, marks, taken)).live.memory)
  {
    hide S.Balanced, Positions.Step, C.EventsOf, S.Do, RouteAction, CanAct, C.Applied, Books;
    var m := d.live.memory;
    assert Books(d.book.trades[id], m.trades[id].trade, C.EventsOf(m.log, id));
    RoutedBooks(c, d, id, p, taken);
    RoutedLog(c.live.rules, m, id, p, marks);
    assert forall other :: C.EventsOf(m.log, other) + [] == C.EventsOf(m.log, other);
  }

  /** A new trade has fresh books and no events. */
  lemma OpensMatching(b: Slots.Book, m: C.Saved, b': Slots.Book, m': C.Saved, id: int, x: Slots.Meta, h: C.Held)
    requires Matches(b, m) && id !in m.trades && b'.trades == b.trades[id := x]
    requires m'.trades == m.trades[id := h] && m'.log == m.log && C.EventsOf(m.log, id) == []
    requires Fresh(x, h.trade.terms) && !h.trade.closed
    ensures Matches(b', m')
  {
    NoTotals(x);
    hide Totals, C.EventsOf;
  }

  lemma NoEventsYet(c: Rules, m: C.Saved, rows: map<int, Row>, id: int)
    requires C.LogOk(c, m, rows) && id !in m.trades
    ensures C.EventsOf(m.log, id) == []
  {
    C.NoEventsOf(m.log, id);
  }

  lemma EnterTrades(b: Slots.Book, id: int, m: Slots.Meta, taken: bool)
    requires id !in b.trades
    ensures Slots.Enter(b, id, m, taken).trades == b.trades[id := m]
  {
    hide Limits.Registered;
  }

  lemma AnswerTrades(c: Config, d: Day, a: S.Action)
    requires CanStep(c, d, Answer(a))
    ensures S.Do(c.slots, d.book, a).trades == d.book.trades
  {
    hide Slots.NetR, Slots.Take, Limits.Released, Slots.ReleaseExpired;
  }

  lemma AdoptTrades(c: S.Config, b: Slots.Book, x: Adoption)
    requires S.Linked(b) && S.Enabled(c, b, S.AdoptTrade(x.id, x.meta, x.taken))
    ensures S.Do(c, b, S.AdoptTrade(x.id, x.meta, x.taken)).trades == b.trades[x.id := x.meta]
  {
    hide Slots.Take;
  }

  lemma AdoptNew(c: S.Config, b: Slots.Book, x: Adoption)
    requires S.Enabled(c, b, S.AdoptTrade(x.id, x.meta, x.taken))
    ensures x.id !in b.trades
  {
  }

  /** Adopting keeps the accounts, adds exactly the adopted books and keeps those there were. */
  lemma {:induction false} AdoptedBooks(c: S.Config, b: Slots.Book, adopted: seq<Adoption>)
    requires S.Balanced(c.costs, b) && CanAdopt(c, b, adopted)
    ensures var b' := Adopted(c, b, adopted);
            && S.Balanced(c.costs, b')
            && (forall id :: id in b'.trades <==> id in b.trades || exists x :: x in adopted && x.id == id)
            && (forall id :: id in b.trades ==> b'.trades[id] == b.trades[id])
            && (forall id :: id in b'.trades && id !in b.trades ==> exists x ::
              x in adopted && x.id == id && b'.trades[id] == x.meta)
    decreases |adopted|
  {
    hide S.Balanced, S.Do, S.Enabled;
    if adopted != [] {
      var x := adopted[0];
      var b1 := S.Do(c, b, S.AdoptTrade(x.id, x.meta, x.taken));
      S.DoBalanced(c, b, S.AdoptTrade(x.id, x.meta, x.taken));
      AdoptTrades(c, b, x);
      AdoptNew(c, b, x);
      AdoptedBooks(c, b1, adopted[1..]);
      assert adopted == [x] + adopted[1..];
      assert forall y :: y in adopted <==> y == x || y in adopted[1..];
    }
  }

  lemma FreshBooks(x: Slots.Meta, t: Trade)
    requires Fresh(x, t.terms) && !t.closed
    ensures Books(x, t, [])
  {
    NoTotals(x);
  }

  lemma InvFile(c: C.Config, s: C.State, legs: nat, queued: nat)
    requires C.Inv(c, s, legs, queued)
    ensures C.LogOk(c.rules, s.file, s.db.rows) && legs <= |s.file.log| && C.RowsAre(c.costs, s.db.rows, s.file.log[..legs])
    ensures C.LogOk(c.rules, s.memory, s.db.rows)
  {
  }

  lemma KnownHasRow(c: Rules, m: C.Saved, rows: map<int, Row>, id: int)
    requires C.LogOk(c, m, rows)
    ensures id in m.trades ==> id in rows
  {
  }

  /** A row the file does not know has no leg yet. */
  lemma MissingIsOpen(c: C.Config, file: C.Saved, db: Db, legs: nat, id: int)
    requires C.LogOk(c.rules, file, db.rows) && legs <= |file.log| && C.RowsAre(c.costs, db.rows, file.log[..legs])
    ensures id in db.rows && id !in file.trades ==> !db.rows[id].exit
  {
    if id in db.rows && id !in file.trades {
      C.FreshRow(c.costs, db.rows, file.log, legs, id);
    }
  }

  lemma CrashMatches(c: Config, d: Day, adopted: seq<Adoption>, legs: nat, queued: nat)
    requires Consistent(c, d) && CanStep(c, d, CrashRestart(adopted)) && C.Inv(c.live, d.live, legs, queued)
    ensures var d' := After(c, d, CrashRestart(adopted));
            S.Balanced(c.slots.costs, d'.book) && Matches(d'.book, d'.live.memory)
  {
    hide S.Balanced, C.Inv, C.Restarted, Books, Fresh, C.LogOk, C.RowsAre, C.EventsOf;
    var file, db := d.live.file, d.live.db;
    var m := C.Restarted(c.live.rules, file, db);
    AdoptedBooks(c.slots, d.saved, adopted);
    var b := Adopted(c.slots, d.saved, adopted);
    InvFile(c.live, d.live, legs, queued);
    C.RestartKeepsLog(c.live.rules, file, db);
    forall id ensures id in b.trades.Keys <==> id in m.trades.Keys {
      C.RestartOnlyReopens(c.live.rules, c.live.costs, file, db, legs, id);
      MissingIsOpen(c.live, file, db, legs, id);
      KnownHasRow(c.live.rules, file, db.rows, id);
    }
    assert b.trades.Keys == m.trades.Keys;
    forall id | id in m.trades ensures Books(b.trades[id], m.trades[id].trade, C.EventsOf(m.log, id)) {
      C.RestartOnlyReopens(c.live.rules, c.live.costs, file, db, legs, id);
      if id !in file.trades {
        var x :| x in adopted && x.id == id && b.trades[id] == x.meta;
        NoEventsYet(c.live.rules, file, db.rows, id);
        FreshBooks(x.meta, Opened(db.rows[id].terms, db.rows[id].entryBar));
      }
    }
  }

  lemma AlwaysEnabled(c: C.Config, s: C.State)
    ensures C.Enabled(c, s, C.Persist) && C.Enabled(c, s, C.CrashAndRestart)
  {
  }

  lemma SameMatches(b: Slots.Book, b': Slots.Book, m: C.Saved, m': C.Saved)
    requires Matches(b, m) && b'.trades == b.trades && m'.trades == m.trades && m'.log == m.log
    ensures Matches(b', m')
  {
  }

  lemma WriteMatches(c: Config, d: Day, a: C.Action)
    requires Matches(d.book, d.live.memory) && CanStep(c, d, Write(a))
    ensures Matches(d.book, C.Next(c.live, d.live, a).memory) && C.Next(c.live, d.live, a).file == d.live.file
  {
    hide Matches;
    SameMatches(d.book, d.book, d.live.memory, C.Next(c.live, d.live, a).memory);
  }

  lemma EnterMatches(c: Config, d: Day, id: int, m: Slots.Meta, date: int, t: bool, legs: nat, queued: nat)
    requires Consistent(c, d) && CanStep(c, d, Enter(id, m, date, t)) && C.Inv(c.live, d.live, legs, queued)
    ensures Matches(After(c, d, Enter(id, m, date, t)).book, After(c, d, Enter(id, m, date, t)).live.memory)
  {
    hide S.Balanced, C.Inv, C.LogOk, Slots.Enter, C.EventsOf, Limits.CheckLimits;
    var s := d.live;
    InvFile(c.live, s, legs, queued);
    NoEventsYet(c.live.rules, s.memory, s.db.rows, id);
    EnterTrades(d.book, id, m, t);
    var d' := After(c, d, Enter(id, m, date, t));
    OpensMatching(d.book, s.memory, d'.book, d'.live.memory, id, m, C.Held(Opened(s.db.rows[id].terms, s.db.rows[id].entryBar),
                 0.0));
  }

  lemma KnownId(c: C.Config, s: C.State, legs: nat, queued: nat, id: int, p: Price, marks: seq<bool>)
    requires C.Inv(c, s, legs, queued) && C.Enabled(c, s, C.Apply(id, p, marks))
    ensures id in s.memory.trades && s.memory.trades[id].trade.terms.id == id
  {
    InvFile(c, s, legs, queued);
    hide C.Inv;
    C.HeldOf(c.rules, s.memory, s.db.rows, id);
  }

  /** Every step keeps the accounts balanced and the books those of the logs. */
  lemma StepConsistent(c: Config, d: Day, step: Step, legs: nat, queued: nat) returns (legs': nat, queued': nat)
    requires c.slots.costs == c.live.costs
    requires Consistent(c, d) && CanStep(c, d, step) && C.Inv(c.live, d.live, legs, queued)
    ensures Consistent(c, After(c, d, step)) && C.Inv(c.live, After(c, d, step).live, legs', queued')
  {
    hide S.Balanced, C.Inv, Matches, S.Do, S.Enabled, C.Enabled, CanAdopt, Adopted, AdoptsMissing, Fresh, RouteAction;
    legs', queued' := legs, queued;
    match step
    case Write(a) =>
      legs', queued' := C.StepKeepsInv(c.live, d.live, a, legs, queued);
      WriteMatches(c, d, a);
    case Enter(id, m, date, t) =>
      legs', queued' := C.StepKeepsInv(c.live, d.live, C.Open(id), legs, queued);
      S.DoBalanced(c.slots, d.book, S.Enter(id, m, date, t));
      EnterMatches(c, d, id, m, date, t, legs, queued);
    case Routed(id, p, marks, t) =>
      legs', queued' := C.StepKeepsInv(c.live, d.live, C.Apply(id, p, marks), legs, queued);
      KnownId(c.live, d.live, legs, queued, id, p, marks);
      S.DoBalanced(c.slots, d.book, RouteAction(c, d, id, p, t));
      RoutedMatches(c, d, id, p, marks, t);
    case Answer(a) =>
      S.DoBalanced(c.slots, d.book, a);
      AnswerTrades(c, d, a);
      SameMatches(d.book, S.Do(c.slots, d.book, a), d.live.memory, d.live.memory);
    case Save =>
      AlwaysEnabled(c.live, d.live);
      legs', queued' := C.StepKeepsInv(c.live, d.live, C.Persist, legs, queued);
    case CrashRestart(adopted) =>
      AlwaysEnabled(c.live, d.live);
      legs', queued' := C.StepKeepsInv(c.live, d.live, C.CrashAndRestart, legs, queued);
      CrashMatches(c, d, adopted, legs, queued);
  }

  lemma StartConsistent(c: Config, date: int)
    ensures Consistent(c, Start(date))
  {
    S.NewBookBalanced(c.slots.costs, date);
  }

  /** On every run, crashes anywhere, the accounts balance and the books are those of the logs. */
  lemma {:induction false} RunConsistent(c: Config, d: Day, steps: seq<Step>, d': Day, legs: nat, queued: nat)
    returns (legs': nat, queued': nat)
    requires c.slots.costs == c.live.costs
    requires Consistent(c, d) && C.Inv(c.live, d.live, legs, queued) && Runs(c, d, steps, d')
    ensures Consistent(c, d') && C.Inv(c.live, d'.live, legs', queued')
    decreases |steps|
  {
    hide Consistent, C.Inv, CanStep, After;
    legs', queued' := legs, queued;
    if steps != [] {
      legs', queued' := StepConsistent(c, d, steps[0], legs', queued');
      legs', queued' := RunConsistent(c, After(c, d, steps[0]), steps[1..], d', legs', queued');
    }
  }

  // ---------------------------------------------------------------- the realized R is the database's

  /** The net R the database reports for some trades. */
  ghost function ReportedNet(ids: set<int>, rows: map<int, Row>): real
    requires ids <= rows.Keys
  {
    if ids == {} then 0.0 else
    var x := Slots.PickId(ids);
    ReportedNet(ids - {x}, rows) + if rows[x].netR.Some? then rows[x].netR.value else 0.0
  }

  lemma {:induction false} SumsAgree(ids: set<int>, trades: map<int, Slots.Meta>, rows: map<int, Row>, costs: Costs.Config)
    requires ids <= trades.Keys && ids <= rows.Keys
    requires forall id :: id in ids ==> rows[id].netR == Some(Slots.NetR(costs, trades[id]))
    ensures Slots.NetSum(ids, trades, costs) == ReportedNet(ids, rows)
  {
    hide Slots.NetR;
    if ids != {} {
      SumsAgree(ids - {Slots.PickId(ids)}, trades, rows, costs);
    }
  }

  lemma NetOfBooks(costs: Costs.Config, m: Slots.Meta, t: Trade, es: seq<Event>)
    requires Books(m, t, es) && Sold(es) == t.terms.qty && t.terms.qty >= 1
    ensures Slots.NetR(costs, m) == C.NetOf(costs, t.terms, es)
  {
    hide Costs.TradeCharges, Rps, Costs.Times, C.GrossOf, C.LegValues, Sold;
    assert m.exitOrders + [] == m.exitOrders;
  }

  /** After a completed flush: the row of a closed trade reports the net R of its books. */
  lemma RowReports(c: Config, d: Day, legs: nat, queued: nat, id: int)
    requires Consistent(c, d) && C.Inv(c.live, d.live, legs, queued) && d.live.phase.Flushing? && d.live.memory.pending == []
    requires id in d.book.trades && d.book.trades[id].closed
    ensures id in d.live.db.rows && d.live.db.rows[id].netR == Some(Slots.NetR(c.live.costs, d.book.trades[id]))
  {
    hide S.Balanced, C.Inv, C.EventsOf, C.NetOf, Slots.NetR, C.LogOk, Totals, Sold;
    var m := d.live.memory;
    var es := C.EventsOf(m.log, id);
    CrashSafety.InvFlushed(c.live, d.live, legs, queued, id);
    InvFile(c.live, d.live, legs, queued);
    C.HeldOf(c.live.rules, m, d.live.db.rows, id);
    CrashSafety.ClosedSoldAll(c.live.rules, m.trades[id], es);
    NetOfBooks(c.live.costs, d.book.trades[id], m.trades[id].trade, es);
  }

  lemma SettledSum(c: Config, d: Day)
    requires Consistent(c, d)
    ensures S.Settled(d.book) <= d.book.trades.Keys
    ensures d.book.risk.realizedR == Slots.NetSum(S.Settled(d.book), d.book.trades, c.slots.costs)
  {
    S.BalancedShape(c.slots.costs, d.book);
  }

  /** On every run of the live day, crashes between any two writes included: after a completed flush the realized R that stops
      the day is the sum of the net R the database reports for exactly the taken trades that closed. */
  lemma RealizedIsReported(c: Config, date: int, steps: seq<Step>, d: Day)
    requires c.slots.costs == c.live.costs && Runs(c, Start(date), steps, d)
    requires d.live.phase.Flushing? && d.live.memory.pending == []
    ensures S.Settled(d.book) <= d.live.db.rows.Keys
    ensures d.book.risk.realizedR == ReportedNet(S.Settled(d.book), d.live.db.rows)
    ensures forall id :: id in S.Settled(d.book) ==> d.live.db.rows[id].netR.Some?
  {
    hide Runs, Consistent, C.Inv, Slots.NetR;
    StartConsistent(c, date);
    C.StartInv(c.live);
    var legs, queued := RunConsistent(c, Start(date), steps, d, 0, 0);
    var ids := S.Settled(d.book);
    forall id | id in ids
      ensures id in d.live.db.rows && d.live.db.rows[id].netR == Some(Slots.NetR(c.live.costs, d.book.trades[id]))
    {
      RowReports(c, d, legs, queued, id);
    }
    assert forall id :: id in ids ==> id in d.live.db.rows.Keys;
    SettledSum(c, d);
    SumsAgree(ids, d.book.trades, d.live.db.rows, c.live.costs);
  }

  /** So once the database reports the limit's loss, nothing more is entered. */
  lemma ReportedLossStopsTheDay(c: Config, date: int, steps: seq<Step>, d: Day, id: int, m: Slots.Meta, today: int, t: bool)
    requires c.slots.costs == c.live.costs && Runs(c, Start(date), steps, d)
    requires d.live.phase.Flushing? && d.live.memory.pending == []
    ensures S.Settled(d.book) <= d.live.db.rows.Keys
    ensures ReportedNet(S.Settled(d.book), d.live.db.rows) <= -c.slots.lossLimit ==> !CanStep(c, d, Enter(id, m, today, t))
  {
    hide Runs, Limits.CheckLimits;
    RealizedIsReported(c, date, steps, d);
    Limits.AllowedIff(d.book.risk, today, m.symbol, m.strategy, c.slots.maxTrades, c.slots.lossLimit);
  }
}
