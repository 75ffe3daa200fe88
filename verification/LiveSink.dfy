/**
 The live sink (tradalgo/engine/live_sink.py): exit legs and alerts wait in memory until the session
 has saved the state that produced them, and are then applied to the database one at a time.
 */
module LiveSinks {
  import opened Common
  import opened Positions
  import Costs

  /** An event and whether its trade was taken when it was emitted. */
  datatype Note = Note(event: Event, taken: bool)

  /** A paper trade as the database holds it. */
  datatype Row = Row(terms: Terms, entryBar: Option<int>, gross: real, partial: bool, exit: bool, partialPrice: Option<real>,
                     netR: Option<real>)

  /** The dedup key of an event alert: a trail update may repeat at another instant, the others may not. */
  datatype AlertKey = Once(kind: Kind, tradeId: int) | Each(kind: Kind, tradeId: int, ts: int)

  datatype Alert = Alert(key: AlertKey, event: Event)

  datatype Db = Db(rows: map<int, Row>, alerts: seq<Alert>)

  function KeyOf(e: Event): AlertKey {
    if e.kind.TrailUpdate? then Each(e.kind, e.tradeId, e.ts) else Once(e.kind, e.tradeId)
  }

  predicate HasKey(alerts: seq<Alert>, key: AlertKey) {
    exists i :: 0 <= i < |alerts| && alerts[i].key == key
  }

  /** The unique-key insert. */
  function Enqueued(alerts: seq<Alert>, e: Event): seq<Alert> {
    if HasKey(alerts, KeyOf(e)) then alerts else alerts + [Alert(KeyOf(e), e)]
  }

  predicate Closes(qty: int, e: Event) { !e.kind.PartialExit? || e.qty >= qty }

  predicate Already(row: Row, e: Event) {
    if Closes(row.terms.qty, e) then row.exit else row.partial
  }

  /** An event's R, weighed by its share of the quantity. */
  function Weighed(e: Event, qty: int): real
    requires qty != 0
  {
    e.r * e.qty as real / qty as real
  }

  /** The charges of a close: a partial's shares are those the closing event does not sell. */
  function ClosingCharges(costs: Costs.Config, row: Row, e: Event): real {
    var partialQty := if row.partialPrice.Some? && !e.kind.PartialExit? then row.terms.qty - e.qty else 0;
    var exits := if partialQty != 0
                 then [Costs.Times(row.partialPrice.value, partialQty as real), Costs.Times(e.price, e.qty as real)]
                 else [Costs.Times(e.price, row.terms.qty as real)];
    Costs.TradeCharges(row.terms.dir, Costs.Times(row.terms.entry, row.terms.qty as real), exits, costs)
  }

  /** One R of a position, in rupees. */
  function Unit(k: Terms): (r: real)
    requires k.qty >= 1
    ensures r > 0.0
  {
    Costs.UnitPositive(k.qty, Rps(k));
    Costs.Times(k.qty as real, Rps(k))
  }

  /** A leg whose row was written before is skipped. */
  function Booked(costs: Costs.Config, row: Row, e: Event): Row {
    if row.terms.qty < 1 || Already(row, e) then row else
    var gross := row.gross + Weighed(e, row.terms.qty);
    var closes := Closes(row.terms.qty, e);
    row.(gross := gross, partial := row.partial || e.kind.PartialExit?, exit := row.exit || closes,
         partialPrice := if e.kind.PartialExit? then Some(e.price) else row.partialPrice,
         netR := if closes then Some(gross - ClosingCharges(costs, row, e) / Unit(row.terms)) else row.netR)
  }

  function Recorded(costs: Costs.Config, db: Db, e: Event): Db {
    if e.kind.TrailUpdate? || e.tradeId !in db.rows then db else
    db.(rows := db.rows[e.tradeId := Booked(costs, db.rows[e.tradeId], e)])
  }

  function Alerted(enabled: bool, db: Db, n: Note): Db {
    if n.taken && enabled then db.(alerts := Enqueued(db.alerts, n.event)) else db
  }

  function Flushed(costs: Costs.Config, enabled: bool, db: Db, pending: seq<Note>): Db
    decreases |pending|
  {
    if pending == [] then db else
    Flushed(costs, enabled, Alerted(enabled, Recorded(costs, db, pending[0].event), pending[0]), pending[1..])
  }

  /** One write, of the session or of its sink, and the database after it. */
  datatype Write = SavedFile | WroteLeg | WroteAlert | Dropped

  datatype Moment = Moment(write: Write, db: Db)

  /** The writes of a flush: for each pending event its leg, then its alert, and only then the event is dropped. */
  ghost function FlushTrace(costs: Costs.Config, enabled: bool, db: Db, pending: seq<Note>): seq<Moment>
    decreases |pending|
  {
    if pending == [] then [] else
    var legged := Recorded(costs, db, pending[0].event);
    var alerted := Alerted(enabled, legged, pending[0]);
    [Moment(WroteLeg, legged), Moment(WroteAlert, alerted), Moment(Dropped, alerted)]
    + FlushTrace(costs, enabled, alerted, pending[1..])
  }

  lemma Grouped(t: seq<Moment>, a: Moment, b: Moment, d: Moment, rest: seq<Moment>)
    ensures t + [a] + [b] + [d] + rest == t + ([a, b, d] + rest)
  {
  }

  lemma BookedTerms(costs: Costs.Config, row: Row, e: Event)
    ensures Booked(costs, row, e).terms == row.terms && Booked(costs, row, e).entryBar == row.entryBar
  {
  }

  class LiveSink {
    var db: Db
    var pending: seq<Note>
    ghost var trace: seq<Moment>
    const alertsEnabled: bool
    const costs: Costs.Config

    constructor (db: Db, alertsEnabled: bool, costs: Costs.Config)
      ensures this.db == db && pending == [] && this.alertsEnabled == alertsEnabled && this.costs == costs && trace == []
    {
      this.db, pending, this.alertsEnabled, this.costs, trace := db, [], alertsEnabled, costs, [];
    }

    method EmitEvent(event: Event, taken: bool)
      modifies this`pending
      ensures pending == old(pending) + [Note(event, taken)]
    {
      pending := pending + [Note(event, taken)];
    }

    method RestorePending(items: seq<Note>)
      modifies this`pending
      ensures pending == items
    {
      pending := items;
    }

    method RecordExitLeg(event: Event)
      requires !event.kind.TrailUpdate? && event.tradeId in db.rows && db.rows[event.tradeId].terms.qty >= 1
      modifies this`db
      ensures db == Recorded(costs, old(db), event)
    {
      hide ClosingCharges, Weighed, Unit;
      var t := db.rows[event.tradeId];
      var closes := !event.kind.PartialExit? || event.qty >= t.terms.qty;
      var already := if closes then t.exit else t.partial;
      if already {
        assert db.rows[event.tradeId := t] == db.rows;
        return;
      }
      var gross := t.gross + Weighed(event, t.terms.qty);
      var values := t.(gross := gross);
      if event.kind.PartialExit? {
        values := values.(partial := true, partialPrice := Some(event.price));
      }
      if closes {
        var riskRupees := Unit(t.terms);
        values := values.(exit := true, netR := Some(gross - ClosingCharges(costs, t, event) / riskRupees));
      }
      db := db.(rows := db.rows[event.tradeId := values]);
    }

    method EnqueueEventAlert(event: Event)
      modifies this`db
      ensures db == old(db).(alerts := Enqueued(old(db).alerts, event))
    {
      var key := KeyOf(event);
      var i := 0;
      while i < |db.alerts|
        invariant 0 <= i <= |db.alerts|
        invariant forall j :: 0 <= j < i ==> db.alerts[j].key != key
      {
        if db.alerts[i].key == key {
          return;
        }
        i := i + 1;
      }
      db := db.(alerts := db.alerts + [Alert(key, event)]);
    }

    /** Apply the buffered legs and queue the alerts, popping each event only once both are done. */
    method FlushEventAlerts() returns (count: nat)
      requires forall i :: 0 <= i < |pending| ==>
                 pending[i].event.tradeId in db.rows && db.rows[pending[i].event.tradeId].terms.qty >= 1
      modifies this
      ensures pending == [] && count == |old(pending)|
      ensures db == Flushed(costs, alertsEnabled, old(db), old(pending))
      ensures trace == old(trace) + FlushTrace(costs, alertsEnabled, old(db), old(pending))
    {
      hide Booked, Enqueued;
      count := 0;
      while pending != []
        invariant count + |pending| == |old(pending)|
        invariant forall i :: 0 <= i < |pending| ==>
                    pending[i].event.tradeId in db.rows && db.rows[pending[i].event.tradeId].terms.qty >= 1
        invariant Flushed(costs, alertsEnabled, db, pending) == Flushed(costs, alertsEnabled, old(db), old(pending))
        invariant trace + FlushTrace(costs, alertsEnabled, db, pending)
               == old(trace) + FlushTrace(costs, alertsEnabled, old(db), old(pending))
        decreases |pending|
      {
        var n := pending[0];
        ghost var db0, trace0 := db, trace;
        if !n.event.kind.TrailUpdate? {
          RecordExitLeg(n.event);
          BookedTerms(costs, db0.rows[n.event.tradeId], n.event);
        }
        trace := trace + [Moment(WroteLeg, db)];
        if n.taken && alertsEnabled {
          EnqueueEventAlert(n.event);
        }
        trace := trace + [Moment(WroteAlert, db)];
        assert db == Alerted(alertsEnabled, Recorded(costs, db0, n.event), n);
        pending := pending[1..];
        trace := trace + [Moment(Dropped, db)];
        count := count + 1;
        Grouped(trace0, trace[|trace0|], trace[|trace0| + 1], trace[|trace0| + 2],
                FlushTrace(costs, alertsEnabled, db, pending));
      }
    }
  }
}
