/**
 The exit state machine in the form the engine runs it: trade objects whose fields are updated in
 place by a manager that holds them by id (tradalgo/engine/positions.py).  Every method is proved
 against the functions of module Positions.
 */
module PositionManagers {
  import opened Common
  import opened Positions

  class ManagedTrade {
    const terms: Terms
    var stop: real
    var remaining: int
    var partialDone: bool
    var closed: bool
    var lastBar: Option<int>
    var lastTick: Option<int>
    var entryBar: Option<int>
    var changes: seq<Change>
    var mfe: real
    var mae: real
    var highs: seq<real>
    var lows: seq<real>

    function Snapshot(): Trade
      reads this
    {
      Trade(terms, stop, remaining, partialDone, closed, lastBar, lastTick, entryBar, changes, mfe, mae, highs, lows)
    }

    constructor (terms: Terms, entryBar: Option<int>)
      ensures Snapshot() == Opened(terms, entryBar)
    {
      this.terms := terms;
      stop, remaining := terms.initialStop, terms.qty;
      partialDone, closed := false, false;
      lastBar, lastTick, this.entryBar := None, None, entryBar;
      changes, mfe, mae, highs, lows := [], 0.0, 0.0, [], [];
    }
  }

  class PositionManager {
    const rules: Rules
    var order: seq<int>                     // ids in insertion order
    var trades: map<int, ManagedTrade>

    ghost predicate Valid()
      reads this, trades.Values
    {
      && (forall i :: 0 <= i < |order| ==> order[i] in trades)
      && (forall id :: id in trades ==> id in order && trades[id].terms.id == id)
      && (forall i, j :: 0 <= i < j < |order| ==> order[i] != order[j])
    }

    ghost function Snapshots(): (ss: seq<Trade>)
      requires Valid()
      reads this, trades.Values
      ensures |ss| == |order|
    {
      seq(|order|, i requires 0 <= i < |order| && order[i] in trades reads this, trades.Values =>
                     trades[order[i]].Snapshot())
    }

    constructor (rules: Rules)
      ensures Valid() && this.rules == rules && Snapshots() == []
    {
      this.rules := rules;
      order, trades := [], map[];
    }

    /** A new id goes last; re-opening an id replaces the trade in its place. */
    method Open(k: Terms, entryBar: Option<int>)
      requires Valid()
      modifies this
      ensures Valid() && k.id in trades && fresh(trades[k.id])
      ensures order == if k.id in old(order) then old(order) else old(order) + [k.id]
      ensures forall i :: 0 <= i < |order| ==>
                Snapshots()[i] == if order[i] == k.id then Opened(k, entryBar) else old(Snapshots())[i]
    {
      var t := new ManagedTrade(k, entryBar);
      if k.id !in trades {
        order := order + [k.id];
      }
      trades := trades[k.id := t];
    }

    method RestorePartialOf(id: int)
      requires Valid() && id in trades
      modifies trades[id]
      ensures Valid() && trades[id].Snapshot() == RestorePartial(rules, old(trades[id].Snapshot()))
    {
      var t := trades[id];
      if t.partialDone { return; }
      t.partialDone := true;
      var left := t.terms.qty - PartialSize(rules, t.terms.qty);
      t.remaining := if left > 1 then left else 1;
      if rules.breakevenAfterPartial {
        var _ := Tighten(t, t.terms.entry);
      }
    }

    method Close(id: int)
      requires Valid() && id in trades
      modifies trades[id]
      ensures Valid() && trades[id].Snapshot() == Abandoned(old(trades[id].Snapshot()))
      ensures trades[id].Snapshot() == old(trades[id].Snapshot()).(remaining := 0, closed := true)
    {
      trades[id].remaining, trades[id].closed := 0, true;
    }

    method Tighten(t: ManagedTrade, candidate: real) returns (moved: bool)
      modifies t`stop
      ensures t.stop == Tighter(t.terms.dir, old(t.stop), candidate)
      ensures moved <==> t.stop != old(t.stop)
    {
      var tightened := if t.terms.dir.Long? then MaxReal(t.stop, candidate) else MinReal(t.stop, candidate);
      if tightened == t.stop { return false; }
      assert if t.terms.dir.Long? then tightened > t.stop else tightened < t.stop;
      t.stop := tightened;
      return true;
    }

    method Exit(t: ManagedTrade, kind: Kind, ts: int, price: real) returns (e: Event)
      modifies t`remaining, t`closed
      ensures Outcome(t.Snapshot(), [e]) == ExitAll(old(t.Snapshot()), kind, ts, price)
    {
      e := MakeEvent(t.Snapshot(), kind, ts, price, t.remaining, None);
      t.remaining, t.closed := 0, true;
    }

    /** The partial branch: true in `done` when a one-share trade left whole. */
    method SellPartial(t: ManagedTrade, p: Price) returns (partialNow: bool, done: bool, events: seq<Event>)
      requires !t.closed
      modifies t
      ensures Outcome(t.Snapshot(), events) == TakePartial(rules, old(t.Snapshot()), p)
      ensures partialNow <==> t.partialDone && !old(t.partialDone)
      ensures done <==> t.closed
    {
      events, partialNow, done := [], false, false;
      var level := Level(t.terms, rules.partialAtR);
      if !t.partialDone && Touches(t.terms.dir, level, p, true) {
        t.partialDone, partialNow := true, true;
        if t.remaining == 1 {
          var e := Exit(t, PartialExit, p.ts, level);
          return true, true, [e];
        }
        var qty := PartialSize(rules, t.terms.qty);
        events := [MakeEvent(t.Snapshot(), PartialExit, p.ts, level, qty, None)];
        t.remaining := t.remaining - qty;
        if rules.breakevenAfterPartial {
          var moved := Tighten(t, t.terms.entry);
          if moved {
            events := events + [MakeEvent(t.Snapshot(), TrailUpdate, p.ts, level, 0, Some(t.stop))];
          }
        }
      }
    }

    /** The trail branch of a closed bar. */
    method TrailStop(t: ManagedTrade, p: Price) returns (events: seq<Event>)
      modifies t
      ensures Outcome(t.Snapshot(), events) == TrailBar(rules, old(t.Snapshot()), p)
    {
      events := [];
      if p.barClosed {
        t.highs := LastN(t.highs + [p.high], rules.trailBars);
        t.lows := LastN(t.lows + [p.low], rules.trailBars);
        if t.partialDone && |t.lows| == rules.trailBars {
          var candidate := if t.terms.dir.Long? then MinOf(t.lows) else MaxOf(t.highs);
          var moved := Tighten(t, candidate);
          if moved {
            events := [MakeEvent(t.Snapshot(), TrailUpdate, p.ts, p.close, 0, Some(t.stop))];
          }
        }
      }
    }

    method UpdateTrade(t: ManagedTrade, p: Price, effStop: real, effPartial: bool) returns (events: seq<Event>)
      requires !t.closed
      modifies t
      ensures Outcome(t.Snapshot(), events) == Update(rules, old(t.Snapshot()), p, effStop, effPartial)
    {
      hide TakePartial, TrailBar, ExitAll, Level, Touches;
      ghost var was := t.Snapshot();
      if Touches(t.terms.dir, effStop, p, false) {
        var e := Exit(t, StopHit, p.ts, StopFill(t.terms.dir, effStop, p.Open()));
        return [e];
      }
      var partialNow, done, sold := SellPartial(t, p);
      if done { return sold; }
      events := sold;

      var runnerLevel := Level(t.terms, rules.runnerTargetR);
      if (effPartial || partialNow) && t.partialDone && Touches(t.terms.dir, runnerLevel, p, true) {
        var e := Exit(t, RunnerExit, p.ts, runnerLevel);
        return events + [e];
      }
      var trailed := TrailStop(t, p);
      events := events + trailed;
      if TimeOfDay(p.ts) >= rules.hardExit {
        var e := Exit(t, HardExit, p.ts, p.close);
        events := events + [e];
      }
    }

    /** The stop and partial status a price is judged against. */
    method JudgedBy(t: ManagedTrade, p: Price) returns (effStop: real, effPartial: bool)
      ensures (effStop, effPartial) == Judged(t.Snapshot(), p, t.changes)
    {
      effStop, effPartial := t.stop, t.partialDone;
      if p.barClosed {
        var later := After(t.changes, p.ts - BAR);
        if later != [] {
          var first := Earliest(later);
          effStop, effPartial := first.stop, first.partial;
        }
      }
    }

    method ApplyPrice(t: ManagedTrade, p: Price) returns (events: seq<Event>)
      modifies t
      ensures Outcome(t.Snapshot(), events) == Step(rules, old(t.Snapshot()), p)
    {
      hide Update, Judged;
      if t.closed || NotAfter(t.lastBar, p.ts) { return []; }
      if p.barClosed {
        t.lastBar := Some(p.ts);
      } else {
        if NotAfter(t.lastTick, p.ts) { return []; }
        t.lastTick := Some(p.ts);
      }
      var effStop, effPartial := JudgedBy(t, p);
      JudgedFrame(old(t.Snapshot()), t.Snapshot(), p, t.changes);
      var fav, adv := if t.terms.dir.Long? then p.high else p.low, if t.terms.dir.Long? then p.low else p.high;
      t.mfe, t.mae := MaxReal(t.mfe, ROf(t.terms, fav)), MinReal(t.mae, ROf(t.terms, adv));
      assert t.Snapshot() == Arrive(old(t.Snapshot()), p);
      var before := (t.stop, t.partialDone);
      UpdateFrame(rules, t.Snapshot(), p, effStop, effPartial);
      events := UpdateTrade(t, p, effStop, effPartial);
      if !t.closed && (t.stop, t.partialDone) != before {
        t.changes := t.changes + [Change(p.ts, before.0, before.1)];
      }
      if p.barClosed {
        t.changes := After(t.changes, p.ts);
      }
    }

    /** One price on the i-th trade; the others keep their values. */
    method ApplyAt(i: nat, p: Price) returns (events: seq<Event>)
      requires Valid() && i < |order|
      modifies trades[order[i]]
      ensures Valid()
      ensures Outcome(Snapshots()[i], events) == Step(rules, old(Snapshots()[i]), p)
      ensures Snapshots() == old(Snapshots())[i := Snapshots()[i]]
    {
      hide Step;
      var t := trades[order[i]];
      assert forall j :: 0 <= j < |order| && j != i ==> trades[order[j]] != t;
      events := ApplyPrice(t, p);
    }

    /** on_price: one price on every open trade, events in trade order. */
    method OnPrice(p: Price) returns (events: seq<Event>)
      requires Valid()
      modifies trades.Values
      ensures Valid()
      ensures Outcomes(Snapshots(), events) == StepAll(rules, old(Snapshots()), p)
    {
      events := [];
      ghost var was, now := Snapshots(), Snapshots();
      assert Outcomes([], []) == StepAll(rules, was[..0], p);
      assert forall i :: 0 <= i < |order| ==> order[i] in trades;
      hide Step, StepAll, Valid, Snapshots;
      for i := 0 to |order|
        invariant Valid() && now == Snapshots() && |now| == |order|
        invariant Outcomes(now[..i], events) == StepAll(rules, was[..i], p)
        invariant forall j :: i <= j < |order| ==> now[j] == was[j]
      {
        var applied := ApplyAt(i, p);
        events := events + applied;
        ghost var next := Snapshots();
        assert next[..i + 1] == now[..i] + [next[i]];
        StepAllSnoc(rules, was[..i], was[i], p);
        assert was[..i + 1] == was[..i] + [was[i]];
        now := next;
      }
      assert was[..|order|] == was && now[..|order|] == now;
    }
  }
}
