/** The live session's writes in order (tradalgo/engine/session.py): act on memory, save the file, flush. */
module LiveSessions {
  import opened Common
  import opened Positions
  import opened LiveSinks
  import opened CrashProtocol

  lemma Grown(qty: int, es: seq<Event>, taken: seq<bool>, i: nat)
    requires qty != 0 && |es| == |taken| && i < |es|
    ensures GrossOf(qty, es[..i + 1]) == GrossOf(qty, es[..i]) + Weighed(es[i], qty)
    ensures Notes(es[..i + 1], taken[..i + 1]) == Notes(es[..i], taken[..i]) + [Note(es[i], taken[i])]
  {
    hide Weighed;
    var a, t := es[..i + 1], taken[..i + 1];
    assert a[..|a| - 1] == es[..i] && t[..|t| - 1] == taken[..i] && a[|a| - 1] == es[i];
  }

  class LiveSession {
    const rules: Rules
    const sink: LiveSink
    var trades: map<int, Held>
    var log: seq<Note>
    var file: Saved

    ghost function Memory(): Saved
      reads this, sink
    {
      Saved(trades, log, sink.pending)
    }

    /** Every pending event names a row the flush can find. */
    ghost predicate Flushable()
      reads this, sink
    {
      forall i :: 0 <= i < |sink.pending| ==>
        sink.pending[i].event.tradeId in sink.db.rows && sink.db.rows[sink.pending[i].event.tradeId].terms.qty >= 1
    }

    constructor (rules: Rules, sink: LiveSink, file: Saved)
      ensures this.rules == rules && this.sink == sink && this.file == file && trades == map[] && log == []
    {
      this.rules, this.sink, this.file, trades, log := rules, sink, file, map[], [];
    }

    method Persist()
      modifies this`file, sink`trace
      ensures file == Memory() && sink.trace == old(sink.trace) + [Moment(SavedFile, sink.db)]
    {
      file := Saved(trades, log, sink.pending);
      sink.trace := sink.trace + [Moment(SavedFile, sink.db)];
    }

    /** The file is written before the first leg or alert, and each event is dropped only after both of its own. */
    method AfterChange()
      requires Flushable()
      modifies this`file, sink
      ensures file == old(Memory())
      ensures sink.db == Flushed(sink.costs, sink.alertsEnabled, old(sink.db), old(sink.pending)) && sink.pending == []
      ensures sink.trace == old(sink.trace) + [Moment(SavedFile, old(sink.db))]
                            + FlushTrace(sink.costs, sink.alertsEnabled, old(sink.db), old(sink.pending))
    {
      Persist();
      var n := sink.FlushEventAlerts();
    }

    /** One price on one trade: book each event into the state and leave it pending. */
    method Route(id: int, p: Price, taken: seq<bool>)
      requires id in trades && |taken| == |Step(rules, trades[id].trade, p).events| && trades[id].trade.terms.qty >= 1
      modifies this`trades, this`log, sink`pending
      ensures Memory() == Applied(rules, old(Memory()), id, p, taken)
    {
      hide Step, Weighed;
      var h := trades[id];
      var o := Step(rules, h.trade, p);
      var qty := h.trade.terms.qty;
      var gross := h.gross;
      ghost var was, seen := sink.pending, log;
      var i := 0;
      while i < |o.events|
        invariant 0 <= i <= |o.events| && trades == old(trades)
        invariant gross == h.gross + GrossOf(qty, o.events[..i])
        invariant sink.pending == was + Notes(o.events[..i], taken[..i])
        invariant log == seen + Notes(o.events[..i], taken[..i])
      {
        Grown(qty, o.events, taken, i);
        gross := gross + Weighed(o.events[i], qty);
        log := log + [Note(o.events[i], taken[i])];
        sink.EmitEvent(o.events[i], taken[i]);
        i := i + 1;
      }
      assert o.events[..i] == o.events && taken[..i] == taken;
      trades := trades[id := Held(o.trade, gross)];
    }

    /** Read the file back, then go through the database's rows in order. */
    method Restart(ids: seq<int>)
      requires forall id :: id in sink.db.rows <==> id in ids
      requires forall i, j :: 0 <= i < j < |ids| ==> ids[i] != ids[j]
      modifies this`trades, this`log, sink`pending
      ensures Memory() == Restarted(rules, file, sink.db)
    {
      trades, log := file.trades, file.log;
      sink.RestorePending(file.pending);
      var i := 0;
      while i < |ids|
        invariant 0 <= i <= |ids| && log == file.log && sink.pending == file.pending
        invariant forall id :: id in trades <==> id in file.trades || (id in ids[..i] && !sink.db.rows[id].exit)
        invariant forall id :: id in trades && id !in ids[..i] ==> trades[id] == file.trades[id]
        invariant forall id :: id in trades && id in ids[..i] ==>
                    trades[id] == Reconciled(rules, if id in file.trades then Some(file.trades[id]) else None, sink.db.rows[id])
      {
        hide Reconciled;
        var id := ids[i];
        var row := sink.db.rows[id];
        assert id !in ids[..i];
        assert ids[..i + 1] == ids[..i] + [id];
        if id in trades {
          trades := trades[id := Reconciled(rules, Some(trades[id]), row)];
        } else if !row.exit {
          trades := trades[id := Reconciled(rules, None, row)];
        }
        i := i + 1;
      }
      hide Reconciled;
      assert ids[..i] == ids;
      ghost var want := Restarted(rules, file, sink.db).trades;
      assert forall id :: id in want.Keys <==> id in trades.Keys;
      assert want.Keys == trades.Keys;
      assert forall id :: id in want ==> trades[id] == want[id];
      assert trades == want;
    }
  }

  // ---------------------------------------------------------------- the writes are the protocol's

  function AsActions(writes: seq<Moment>): (a: seq<Action>)
    ensures |a| == |writes|
  {
    seq(|writes|, i requires 0 <= i < |writes| =>
      match writes[i].write
      case SavedFile => Persist
      case WroteLeg => Leg
      case WroteAlert => Queue
      case Dropped => Pop)
  }

  lemma {:induction false} RunsAppend(c: Config, s: State, a: seq<Action>, mid: State, b: seq<Action>, end: State)
    requires Runs(c, s, a, mid) && Runs(c, mid, b, end)
    ensures Runs(c, s, a + b, end)
    decreases |a|
  {
    hide Enabled, Next;
    if a == [] {
      assert a + b == b;
    } else {
      assert (a + b)[1..] == a[1..] + b && (a + b)[0] == a[0];
      RunsAppend(c, Next(c, s, a[0]), a[1..], mid, b, end);
    }
  }

  lemma OneRun(c: Config, s: State, a: Action)
    requires Enabled(c, s, a)
    ensures Runs(c, s, [a], Next(c, s, a))
  {
    hide Next, Enabled;
    assert [a][1..] == [];
    assert Runs(c, Next(c, s, a), [], Next(c, s, a));
  }

  lemma ActionsAppend(a: seq<Moment>, b: seq<Moment>)
    ensures AsActions(a + b) == AsActions(a) + AsActions(b)
  {
  }

  /** After the first `k` writes of a flush. */
  lemma {:induction false} FlushRuns(c: Config, s: State, k: nat) returns (s': State)
    requires s.phase == Flushing(0) && k <= |FlushTrace(c.costs, c.alertsEnabled, s.db, s.memory.pending)|
    ensures var t := FlushTrace(c.costs, c.alertsEnabled, s.db, s.memory.pending);
            && Runs(c, s, AsActions(t[..k]), s')
            && s'.file == s.file && s'.memory.trades == s.memory.trades && s'.memory.log == s.memory.log
            && s'.db == if k == 0 then s.db else t[k - 1].db
    decreases |s.memory.pending|
  {
    hide Recorded, Alerted;
    var t := FlushTrace(c.costs, c.alertsEnabled, s.db, s.memory.pending);
    if k == 0 {
      s' := s;
      assert AsActions(t[..0]) == [];
    } else {
      var s1 := Next(c, s, Leg);
      var s2 := Next(c, s1, Queue);
      var s3 := Next(c, s2, Pop);
      OneRun(c, s, Leg);
      OneRun(c, s1, Queue);
      OneRun(c, s2, Pop);
      RunsAppend(c, s, [Leg], s1, [Queue], s2);
      RunsAppend(c, s, [Leg] + [Queue], s2, [Pop], s3);
      if k < 3 {
        s' := if k == 1 then s1 else s2;
        assert AsActions(t[..k]) == if k == 1 then [Leg] else [Leg] + [Queue];
      } else {
        var rest := FlushTrace(c.costs, c.alertsEnabled, s3.db, s3.memory.pending);
        s' := FlushRuns(c, s3, k - 3);
        assert t[3..] == rest && t[..k] == t[..3] + rest[..k - 3];
        assert AsActions(t[..3]) == [Leg] + [Queue] + [Pop];
        ActionsAppend(t[..3], rest[..k - 3]);
        RunsAppend(c, s, [Leg] + [Queue] + [Pop], s3, AsActions(rest[..k - 3]), s');
      }
    }
  }

  /** After any number of the writes AfterChange makes, the file and the database are those of a state of the protocol
      reached by the same writes, so the process may die anywhere in it. */
  lemma WritesAreProtocolSteps(c: Config, s: State, k: nat) returns (s': State)
    requires k <= |FlushTrace(c.costs, c.alertsEnabled, s.db, s.memory.pending)|
    ensures var t := [Moment(SavedFile, s.db)] + FlushTrace(c.costs, c.alertsEnabled, s.db, s.memory.pending);
            && Runs(c, s, AsActions(t[..k + 1]), s')
            && s'.file == s.memory && s'.db == t[k].db
  {
    hide Recorded, Alerted;
    var rest := FlushTrace(c.costs, c.alertsEnabled, s.db, s.memory.pending);
    var t := [Moment(SavedFile, s.db)] + rest;
    var s1 := Next(c, s, Persist);
    OneRun(c, s, Persist);
    s' := FlushRuns(c, s1, k);
    assert t[..k + 1] == [Moment(SavedFile, s.db)] + rest[..k];
    ActionsAppend([Moment(SavedFile, s.db)], rest[..k]);
    assert AsActions([Moment(SavedFile, s.db)]) == [Persist];
    RunsAppend(c, s, [Persist], s1, AsActions(rest[..k]), s');
  }
}
