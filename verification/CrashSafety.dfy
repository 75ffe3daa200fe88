/** What the save-then-alert protocol guarantees in every reachable state, wherever the process dies. */
module CrashSafety {
  import opened Common
  import opened Positions
  import opened Lifecycle
  import opened LiveSinks
  import opened CrashProtocol
  import opened StopMoves
  import Costs

  /** Each leg in the database belongs to an event the state file already holds, and every row is the plain sum of
      its legs, each added once; a leg of the file that is not in the database yet is still pending there. */
  lemma LegsAreSavedAndBookedOnce(c: Config, actions: seq<Action>, s: State) returns (n: nat)
    requires Runs(c, START, actions, s)
    ensures |s.file.log| - |s.file.pending| <= n <= |s.file.log|
    ensures forall id :: id in s.db.rows ==>
              var es := EventsOf(s.file.log[..n], id);
              && s.db.rows[id].terms.qty >= 1
              && s.db.rows[id].gross == GrossOf(s.db.rows[id].terms.qty, es)
              && s.db.rows[id].partial == HasPartial(es)
              && s.db.rows[id].exit == Scan(Holding, s.db.rows[id].terms.qty, es).Done?
              && s.db.rows[id].netR == (if s.db.rows[id].exit then Some(NetOf(c.costs, s.db.rows[id].terms, es)) else None)
  {
    StartInv(c);
    var queued;
    n, queued := Reachable(c, START, actions, s, 0, 0);
    hide Scan, GrossOf, HasPartial, NetOf;
  }

  /** A row agrees with the state's trade, its net R with the legs the state has emitted. */
  ghost predicate Agrees(costs: Costs.Config, h: Held, row: Row, es: seq<Event>) {
    && h.gross == row.gross && h.trade.partialDone == row.partial && h.trade.closed == row.exit
    && h.trade.terms.qty >= 1
    && row.netR == if h.trade.closed then Some(NetOf(costs, h.trade.terms, es)) else None
  }

  lemma InvFlushed(c: Config, s: State, legs: nat, queued: nat, id: int)
    requires Inv(c, s, legs, queued) && s.phase.Flushing? && s.memory.pending == [] && id in s.memory.trades
    ensures id in s.db.rows && Agrees(c.costs, s.memory.trades[id], s.db.rows[id], EventsOf(s.memory.log, id))
  {
    HeldOf(c.rules, s.memory, s.db.rows, id);
    assert s.file.log[..legs] == s.memory.log;
    assert RowHolds(c.costs, s.db.rows[id], EventsOf(s.memory.log, id));
  }

  lemma ClosedSoldAll(c: Rules, h: Held, es: seq<Event>)
    requires HeldHolds(c, h, es) && h.trade.closed
    ensures Sold(es) == h.trade.terms.qty && h.trade.terms.qty >= 1
  {
  }

  /** After a completed flush the database agrees with the state about every trade. */
  lemma FlushedDatabaseAgrees(c: Config, actions: seq<Action>, s: State, id: int)
    requires Runs(c, START, actions, s) && s.phase.Flushing? && s.memory.pending == [] && id in s.memory.trades
    ensures id in s.db.rows && Agrees(c.costs, s.memory.trades[id], s.db.rows[id], EventsOf(s.memory.log, id))
  {
    StartInv(c);
    var legs, queued := Reachable(c, START, actions, s, 0, 0);
    InvFlushed(c, s, legs, queued, id);
  }

  /** A whole flush is its steps. */
  lemma {:induction false} DrainKeeps(c: Config, s: State, legs: nat, queued: nat) returns (legs': nat, queued': nat)
    requires Inv(c, s, legs, queued) && s.phase == Flushing(0)
    ensures Inv(c, State(s.memory.(pending := []), s.file, Flushed(c.costs, c.alertsEnabled, s.db, s.memory.pending), Flushing(0)),
                legs', queued')
    decreases |s.memory.pending|
  {
    hide Inv, Recorded, Alerted;
    legs', queued' := legs, queued;
    if s.memory.pending != [] {
      legs', queued' := StepKeepsInv(c, s, Leg, legs', queued');
      var s1 := Next(c, s, Leg);
      legs', queued' := StepKeepsInv(c, s1, Queue, legs', queued');
      var s2 := Next(c, s1, Queue);
      legs', queued' := StepKeepsInv(c, s2, Pop, legs', queued');
      legs', queued' := DrainKeeps(c, Next(c, s2, Pop), legs', queued');
    }
  }

  /** The state after a crash, a restart, the save and the whole flush. */
  ghost function Recovered(c: Config, s: State): State {
    var m := Restarted(c.rules, s.file, s.db);
    State(m.(pending := []), m, Flushed(c.costs, c.alertsEnabled, s.db, m.pending), Flushing(0))
  }

  lemma RecoveredInv(c: Config, actions: seq<Action>, s: State) returns (legs: nat, queued: nat)
    requires Runs(c, START, actions, s)
    ensures Inv(c, Recovered(c, s), legs, queued)
  {
    hide Inv, Runs, Restarted, Flushed;
    StartInv(c);
    legs, queued := Reachable(c, START, actions, s, 0, 0);
    legs, queued := StepKeepsInv(c, s, CrashAndRestart, legs, queued);
    var s1 := Next(c, s, CrashAndRestart);
    legs, queued := StepKeepsInv(c, s1, Persist, legs, queued);
    legs, queued := DrainKeeps(c, Next(c, s1, Persist), legs, queued);
  }

  /** While the state file survives, a restart finds no partial and no close the state missed. */
  lemma RecoveryIsIdle(c: Config, actions: seq<Action>, s: State, id: int)
    requires Runs(c, START, actions, s)
    ensures var m := Restarted(c.rules, s.file, s.db);
            && (id in m.trades <==> id in s.db.rows)
            && (id in s.file.trades ==> id in s.db.rows && m.trades[id] == s.file.trades[id])
            && (id in s.db.rows && id !in s.file.trades ==>
                  m.trades[id] == Held(Opened(s.db.rows[id].terms, s.db.rows[id].entryBar), 0.0))
  {
    StartInv(c);
    var legs, queued := Reachable(c, START, actions, s, 0, 0);
    hide LogOk, RowsAre, AlertsAre, Restarted;
    RestartOnlyReopens(c.rules, c.costs, s.file, s.db, legs, id);
    KeysWithin(c.rules, s.file, s.db.rows);
  }

  lemma RestartKeys(c: Config, actions: seq<Action>, s: State)
    requires Runs(c, START, actions, s)
    ensures Restarted(c.rules, s.file, s.db).trades.Keys == s.db.rows.Keys
  {
    forall id ensures id in Restarted(c.rules, s.file, s.db).trades.Keys <==> id in s.db.rows.Keys {
      RecoveryIsIdle(c, actions, s, id);
    }
  }

  lemma {:induction false} FlushedKeys(costs: Costs.Config, enabled: bool, db: Db, pending: seq<Note>)
    ensures Flushed(costs, enabled, db, pending).rows.Keys == db.rows.Keys
    decreases |pending|
  {
    hide Booked, Enqueued;
    if pending != [] {
      RecordedTerms(costs, db, pending[0].event);
      FlushedKeys(costs, enabled, Alerted(enabled, Recorded(costs, db, pending[0].event), pending[0]), pending[1..]);
    }
  }

  /** Once the database holds the whole log, applying any later part of it again changes nothing. */
  lemma {:induction false} FlushTwice(c: Config, m: Saved, db: Db, pending: seq<Note>)
    requires LogOk(c.rules, m, db.rows) && RowsAre(c.costs, db.rows, m.log[..|m.log|])
    requires AlertsAre(c.alertsEnabled, db.alerts, m.log[..|m.log|])
    requires |pending| <= |m.log| && pending == m.log[|m.log| - |pending|..]
    ensures Flushed(c.costs, c.alertsEnabled, db, pending) == db
    decreases |pending|
  {
    hide LogOk, RowsAre, AlertsAre, Recorded, Alerted;
    if pending != [] {
      var i := |m.log| - |pending|;
      assert m.log[i] == pending[0];
      LegAgain(c.rules, c.costs, m, db, |m.log|, i);
      AlertAgain(c.alertsEnabled, db, m.log, |m.log|, i);
      FlushTwice(c, m, db, pending[1..]);
    }
  }

  lemma WholeLog(c: Config, s: State, legs: nat, queued: nat)
    requires Inv(c, s, legs, queued) && s.phase.Flushing? && s.memory.pending == []
    ensures legs == queued == |s.file.log| && LogOk(c.rules, s.file, s.db.rows) && Suffix(s.file)
    ensures s.memory.log == s.file.log && LogOk(c.rules, s.memory, s.db.rows)
    ensures RowsAre(c.costs, s.db.rows, s.file.log[..legs]) && AlertsAre(c.alertsEnabled, s.db.alerts, s.file.log[..queued])
  {
    hide LogOk, RowsAre, AlertsAre;
  }

  /** Wherever the process died: restarting, saving and flushing brings every row of the database into agreement with
      the state, and a second flush would change nothing. */
  lemma RecoveryCompletes(c: Config, actions: seq<Action>, s: State, id: int)
    requires Runs(c, START, actions, s)
    ensures var m := Restarted(c.rules, s.file, s.db);
            var db := Flushed(c.costs, c.alertsEnabled, s.db, m.pending);
            && m.trades.Keys == s.db.rows.Keys == db.rows.Keys
            && (id in m.trades ==> Agrees(c.costs, m.trades[id], db.rows[id], EventsOf(m.log, id)))
            && Flushed(c.costs, c.alertsEnabled, db, m.pending) == db
  {
    hide Inv, Runs, Restarted, Flushed, Agrees;
    var legs, queued := RecoveredInv(c, actions, s);
    var m := Restarted(c.rules, s.file, s.db);
    RestartKeys(c, actions, s);
    FlushedKeys(c.costs, c.alertsEnabled, s.db, m.pending);
    if id in m.trades {
      InvFlushed(c, Recovered(c, s), legs, queued, id);
    }
    WholeLog(c, Recovered(c, s), legs, queued);
    FlushTwice(c, m, Recovered(c, s).db, m.pending);
  }

  // ---------------------------------------------------------------- alerts

  /** In every reachable state no dedup key has two alerts, so no once-only event of a trade is alerted twice; no alert
      leaves for an event the state file does not hold, or for a trade that was not taken. */
  lemma AlertsAtMostOnce(c: Config, actions: seq<Action>, s: State)
    requires Runs(c, START, actions, s)
    ensures forall i, j :: 0 <= i < j < |s.db.alerts| ==>
              && s.db.alerts[i].key != s.db.alerts[j].key
              && (s.db.alerts[i].event.tradeId != s.db.alerts[j].event.tradeId
                  || s.db.alerts[i].event.kind != s.db.alerts[j].event.kind || s.db.alerts[i].event.kind.TrailUpdate?)
    ensures forall i :: 0 <= i < |s.db.alerts| ==> Note(s.db.alerts[i].event, true) in s.file.log
  {
    StartInv(c);
    var legs, queued := Reachable(c, START, actions, s, 0, 0);
    assert forall n :: n in s.file.log[..queued] ==> n in s.file.log;
    hide LogOk, RowsAre;
  }

  /** An event list of a trade has each kind of leg at most once. */
  lemma LegKindOnce(qty: int, es: seq<Event>, i: nat, j: nat)
    requires Scan(Holding, qty, es) != Illegal && i < j < |es| && es[i].kind == es[j].kind
    ensures es[i].kind.TrailUpdate?
  {
    var a, b := es[..i], es[i + 1..j];
    assert es == a + ([es[i]] + (b + ([es[j]] + es[j + 1..])));
    ScanAppend(Holding, qty, a, [es[i]] + (b + ([es[j]] + es[j + 1..])));
    var p1 := Scan(Holding, qty, a);
    ScanAppend(p1, qty, [es[i]], b + ([es[j]] + es[j + 1..]));
    ScanOne(p1, qty, es[i]);
    var p2 := Advance(p1, qty, es[i]);
    ScanAppend(p2, qty, b, [es[j]] + es[j + 1..]);
    var p3 := Scan(p2, qty, b);
    ScanAppend(p3, qty, [es[j]], es[j + 1..]);
    ScanOne(p3, qty, es[j]);
    IllegalStays(qty, es[j + 1..]);
    IllegalStays(qty, b + ([es[j]] + es[j + 1..]));
    if p2.Done? {
      DoneIsLast(qty, b + ([es[j]] + es[j + 1..]));
    } else if p1.Holding? {
      RunnerNeverHolding(qty, b);
    }
  }

  lemma LegIsItsKey(c: Rules, m: Saved, rows: map<int, Row>, i: nat, j: nat)
    requires LogOk(c, m, rows) && i < |m.log| && j < |m.log|
    requires KeyOf(m.log[i].event) == KeyOf(m.log[j].event) && !m.log[i].event.kind.TrailUpdate?
    ensures m.log[i].event == m.log[j].event
  {
    hide HeldHolds;
    var id := m.log[i].event.tradeId;
    var a := EventAt(m.log, i);
    var b := EventAt(m.log, j);
    LegalOf(c, m, rows, id);
    if a < b {
      LegKindOnce(rows[id].terms.qty, EventsOf(m.log, id), a, b);
    } else if b < a {
      LegKindOnce(rows[id].terms.qty, EventsOf(m.log, id), b, a);
    }
  }

  lemma AllAlerted(c: Config, m: Saved, db: Db, i: nat)
    requires LogOk(c.rules, m, db.rows) && AlertsAre(true, db.alerts, m.log[..|m.log|]) && i < |m.log| && m.log[i].taken
    ensures HasKey(db.alerts, KeyOf(m.log[i].event))
    ensures !m.log[i].event.kind.TrailUpdate? ==> Alert(KeyOf(m.log[i].event), m.log[i].event) in db.alerts
  {
    hide LogOk;
    assert m.log[..|m.log|] == m.log;
    var e := m.log[i].event;
    var k :| 0 <= k < |db.alerts| && db.alerts[k].key == KeyOf(e);
    var a := db.alerts[k];
    var j :| 0 <= j < |m.log| && m.log[j] == Note(a.event, true);
    if !e.kind.TrailUpdate? {
      LegIsItsKey(c.rules, m, db.rows, i, j);
      assert a == Alert(KeyOf(e), e);
    }
  }

  /** After a completed flush every taken exit leg has its own alert, and every taken stop move an alert with its key. */
  lemma FlushedAlertsComplete(c: Config, actions: seq<Action>, s: State, i: nat)
    requires Runs(c, START, actions, s) && s.phase.Flushing? && s.memory.pending == [] && c.alertsEnabled
    requires i < |s.memory.log| && s.memory.log[i].taken
    ensures HasKey(s.db.alerts, KeyOf(s.memory.log[i].event))
    ensures !s.memory.log[i].event.kind.TrailUpdate? ==> Alert(KeyOf(s.memory.log[i].event), s.memory.log[i].event) in s.db.alerts
  {
    hide Inv, Runs, LogOk, AlertsAre, RowsAre;
    StartInv(c);
    var legs, queued := Reachable(c, START, actions, s, 0, 0);
    WholeLog(c, s, legs, queued);
    AllAlerted(c, s.memory, s.db, i);
  }

  // ---------------------------------------------------------------- which stop moves are alerted

  /** A taken event that no taken event before it shares its key with. */
  ghost predicate FirstWithKey(log: seq<Note>, j: nat)
    requires j < |log|
  {
    log[j].taken && forall i :: 0 <= i < j && log[i].taken ==> KeyOf(log[i].event) != KeyOf(log[j].event)
  }

  ghost predicate IsFirst(log: seq<Note>, a: Alert) {
    exists j :: 0 <= j < |log| && FirstWithKey(log, j) && a == Alert(KeyOf(log[j].event), log[j].event)
  }

  ghost predicate KeyTaken(log: seq<Note>, key: AlertKey) {
    exists j :: 0 <= j < |log| && log[j].taken && KeyOf(log[j].event) == key
  }

  lemma KeyGrows(log: seq<Note>, key: AlertKey)
    requires log != []
    ensures var n := log[|log| - 1];
            KeyTaken(log, key) <==> KeyTaken(log[..|log| - 1], key) || (n.taken && KeyOf(n.event) == key)
  {
    var front := log[..|log| - 1];
    if KeyTaken(front, key) {
      var j :| 0 <= j < |front| && front[j].taken && KeyOf(front[j].event) == key;
      assert log[j] == front[j];
    }
    if KeyTaken(log, key) {
      var j :| 0 <= j < |log| && log[j].taken && KeyOf(log[j].event) == key;
      assert j < |front| ==> front[j] == log[j];
    }
  }

  lemma FirstGrows(log: seq<Note>, a: Alert)
    requires log != []
    ensures var front, n := log[..|log| - 1], log[|log| - 1];
            IsFirst(log, a)
            <==> IsFirst(front, a) || (n.taken && !KeyTaken(front, KeyOf(n.event)) && a == Alert(KeyOf(n.event), n.event))
  {
    var m := |log| - 1;
    var front, n := log[..m], log[m];
    assert forall i :: 0 <= i < m ==> front[i] == log[i];
    if IsFirst(front, a) {
      var j :| 0 <= j < m && FirstWithKey(front, j) && a == Alert(KeyOf(front[j].event), front[j].event);
      assert FirstWithKey(log, j);
    }
    if IsFirst(log, a) {
      var j :| 0 <= j < |log| && FirstWithKey(log, j) && a == Alert(KeyOf(log[j].event), log[j].event);
      if j < m {
        assert FirstWithKey(front, j);
      }
    }
    if n.taken && !KeyTaken(front, KeyOf(n.event)) && a == Alert(KeyOf(n.event), n.event) {
      assert FirstWithKey(log, m);
    }
  }

  lemma NothingFirst(a: Alert, key: AlertKey)
    ensures !IsFirst([], a) && !KeyTaken([], key)
  {
  }

  lemma HasKeyAppend(alerts: seq<Alert>, a: Alert, key: AlertKey)
    ensures HasKey(alerts + [a], key) <==> HasKey(alerts, key) || a.key == key
  {
    var all := alerts + [a];
    assert all[|alerts|] == a;
    if HasKey(alerts, key) {
      var i :| 0 <= i < |alerts| && alerts[i].key == key;
      assert all[i].key == key;
    }
  }

  /** The alerts of a log are exactly its taken events that come first with their key. */
  lemma {:induction false} AlertsOfAre(log: seq<Note>, a: Alert, key: AlertKey)
    ensures a in AlertsOf(true, log) <==> IsFirst(log, a)
    ensures HasKey(AlertsOf(true, log), key) <==> KeyTaken(log, key)
    decreases |log|
  {
    hide IsFirst, KeyTaken;
    if log == [] {
      NothingFirst(a, key);
    } else {
      var m := |log| - 1;
      var n, front := log[m], AlertsOf(true, log[..m]);
      AlertsOfAre(log[..m], a, key);
      AlertsOfAre(log[..m], a, KeyOf(n.event));
      FirstGrows(log, a);
      KeyGrows(log, key);
      if n.taken && !HasKey(front, KeyOf(n.event)) {
        HasKeyAppend(front, Alert(KeyOf(n.event), n.event), key);
      }
    }
  }

  /** Two events of one trade in a log, in the trade's own list, in the same order. */
  lemma {:induction false} EventPair(log: seq<Note>, i: nat, j: nat) returns (a: nat, b: nat)
    requires i < j < |log| && log[i].event.tradeId == log[j].event.tradeId
    ensures var es := EventsOf(log, log[i].event.tradeId); a < b < |es| && es[a] == log[i].event && es[b] == log[j].event
    decreases |log|
  {
    var n := |log| - 1;
    if j == n {
      a := EventAt(log[..n], i);
      b := |EventsOf(log[..n], log[i].event.tradeId)|;
    } else {
      a, b := EventPair(log[..n], i, j);
    }
  }

  /** No two stop moves of a log are the same event. */
  lemma StopMovesDiffer(c: Rules, m: Saved, rows: map<int, Row>, i: nat, j: nat)
    requires LogOk(c, m, rows) && i < j < |m.log| && m.log[j].event.kind.TrailUpdate?
    ensures m.log[i].event != m.log[j].event
  {
    if m.log[i].event == m.log[j].event {
      var id := m.log[i].event.tradeId;
      var a, b := EventPair(m.log, i, j);
      HeldOf(c, m, rows, id);
      var k := m.trades[id].trade.terms;
      RatchetsOrder(k.dir, k.initialStop, EventsOf(m.log, id), b);
      assert false;
    }
  }

  /** The stop moves one price announces have one dedup key between them. */
  lemma OnePriceOneKey(c: Rules, t: Trade, p: Price, i: nat, j: nat)
    requires i < |Step(c, t, p).events| && j < |Step(c, t, p).events|
    requires Step(c, t, p).events[i].kind.TrailUpdate? && Step(c, t, p).events[j].kind.TrailUpdate?
    ensures KeyOf(Step(c, t, p).events[i]) == KeyOf(Step(c, t, p).events[j])
  {
    hide Step;
    var es := Step(c, t, p).events;
    StepEventsAtOnce(c, t, p);
    StepNamesTrade(c, t, p);
    assert es[i] in es && es[j] in es;
  }

  /** An earlier taken stop move of the same trade at the same instant. */
  ghost predicate EarlierMove(log: seq<Note>, i: nat)
    requires i < |log|
  {
    exists j :: 0 <= j < i && log[j].taken && log[j].event.kind.TrailUpdate?
                && log[j].event.tradeId == log[i].event.tradeId && log[j].event.ts == log[i].event.ts
  }

  lemma FoldOf(alerts: seq<Alert>, log: seq<Note>)
    requires AlertsAre(true, alerts, log)
    ensures alerts == AlertsOf(true, log)
  {
  }

  /** After a completed flush a taken stop move has its own alert if and only if no earlier taken stop move of its trade has
      the same instant. */
  lemma StopMoveAlertedIff(c: Config, actions: seq<Action>, s: State, i: nat)
    requires Runs(c, START, actions, s) && s.phase.Flushing? && s.memory.pending == [] && c.alertsEnabled
    requires i < |s.memory.log| && s.memory.log[i].taken && s.memory.log[i].event.kind.TrailUpdate?
    ensures var e := s.memory.log[i].event;
            Alert(KeyOf(e), e) in s.db.alerts
            <==> !EarlierMove(s.memory.log, i)
  {
    hide Inv, Runs, LogOk, AlertsAre, RowsAre, AlertsOf;
    StartInv(c);
    var legs, queued := Reachable(c, START, actions, s, 0, 0);
    WholeLog(c, s, legs, queued);
    var log, e := s.memory.log, s.memory.log[i].event;
    assert s.db.alerts == AlertsOf(true, log) by {
      FoldOf(s.db.alerts, s.file.log[..queued]);
      assert s.file.log[..queued] == log;
    }
    AlertsOfAre(log, Alert(KeyOf(e), e), KeyOf(e));
    if IsFirst(log, Alert(KeyOf(e), e)) {
      var j :| 0 <= j < |log| && FirstWithKey(log, j) && Alert(KeyOf(e), e) == Alert(KeyOf(log[j].event), log[j].event);
      if j < i {
        StopMovesDiffer(c.rules, s.memory, s.db.rows, j, i);
      }
    } else {
      assert !FirstWithKey(log, i);
    }
  }

  /** So the second of two taken stop moves of a trade at one instant, such as one bar can give, never has its own. */
  lemma StopMovesShareAKey(c: Config, actions: seq<Action>, s: State, i: nat, j: nat)
    requires Runs(c, START, actions, s) && s.phase.Flushing? && s.memory.pending == [] && c.alertsEnabled
    requires i < j < |s.memory.log| && s.memory.log[i].taken && s.memory.log[j].taken
    requires var a, b := s.memory.log[i].event, s.memory.log[j].event;
             a.kind.TrailUpdate? && b.kind.TrailUpdate? && a.tradeId == b.tradeId && a.ts == b.ts
    ensures Alert(KeyOf(s.memory.log[j].event), s.memory.log[j].event) !in s.db.alerts
    ensures HasKey(s.db.alerts, KeyOf(s.memory.log[j].event))
  {
    hide Runs;
    StopMoveAlertedIff(c, actions, s, j);
    FlushedAlertsComplete(c, actions, s, j);
  }

  // ---------------------------------------------------------------- without the state file

  /** What a database row alone gives back of an open trade. */
  lemma RowGivesTrade(c: Rules, h: Held, row: Row)
    requires Sound(c, h.trade) && !h.trade.closed && row.terms == h.trade.terms && row.partial == h.trade.partialDone
    requires row.gross == h.gross && (!h.trade.partialDone ==> h.gross == 0.0)
    ensures var r := Reconciled(c, None, row);
            && r.gross == h.gross && r.trade.remaining == h.trade.remaining && r.trade.partialDone == h.trade.partialDone
            && !r.trade.closed && r.trade.terms == h.trade.terms
            && (r.trade.stop == h.trade.terms.initialStop
                || (c.breakevenAfterPartial && h.trade.partialDone && r.trade.stop == h.trade.terms.entry))
  {
    if h.trade.partialDone {
      PartialSizeInside(c, h.trade.terms.qty);
    }
    hide PartialSize;
  }

  lemma NoPartialNoGross(c: Rules, h: Held, es: seq<Event>)
    requires HeldHolds(c, h, es) && !h.trade.closed && !h.trade.partialDone
    ensures h.gross == 0.0
  {
    HoldingIsEmpty(h.trade.terms.qty, es);
  }

  lemma HeldIsSound(c: Rules, h: Held, es: seq<Event>)
    requires HeldHolds(c, h, es)
    ensures Sound(c, h.trade)
  {
  }

  /** Even when the state file is lost after a completed flush, a restart knows exactly the trades that were open, each with its
      shares, its partial and its gross R; only the stop starts again, from the initial one or, past a partial, the entry. */
  lemma RestartWithoutFile(c: Config, actions: seq<Action>, s: State, id: int)
    requires Runs(c, START, actions, s) && s.phase.Flushing? && s.memory.pending == [] && id in s.memory.trades
    ensures var m, h := Restarted(c.rules, EMPTY, s.db), s.memory.trades[id];
            && (id in m.trades <==> !h.trade.closed)
            && (id in m.trades ==>
                  var r := m.trades[id];
                  && r.gross == h.gross && r.trade.remaining == h.trade.remaining && r.trade.partialDone == h.trade.partialDone
                  && !r.trade.closed && r.trade.terms == h.trade.terms
                  && (r.trade.stop == h.trade.terms.initialStop
                      || (c.rules.breakevenAfterPartial && h.trade.partialDone && r.trade.stop == h.trade.terms.entry)))
  {
    hide Inv, Runs, HeldHolds, EventsOf, RestorePartial, NetOf, GrossOf, Scan, Sold, LogOk, Reconciled, Sound;
    StartInv(c);
    var legs, queued := Reachable(c, START, actions, s, 0, 0);
    InvFlushed(c, s, legs, queued, id);
    WholeLog(c, s, legs, queued);
    var h, es := s.memory.trades[id], EventsOf(s.memory.log, id);
    HeldOf(c.rules, s.memory, s.db.rows, id);
    if !h.trade.closed {
      if !h.trade.partialDone {
        NoPartialNoGross(c.rules, h, es);
      }
      assert Sound(c.rules, h.trade) by { HeldIsSound(c.rules, h, es); }
      RowGivesTrade(c.rules, h, s.db.rows[id]);
    }
  }
}
