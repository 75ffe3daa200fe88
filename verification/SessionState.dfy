/** The session state as the engine updates it in place (tradalgo/engine/cycle.py:108-121 and 165-271). */
module SessionStates {
  import opened Common
  import opened Positions
  import opened Limits
  import opened Slots
  import SlotRules
  import Costs

  /** sorted(ids) of a set. */
  ghost predicate IsSorted(s: seq<int>, ids: set<int>) {
    (forall i, j :: 0 <= i < j < |s| ==> s[i] < s[j]) && forall id :: id in s <==> id in ids
  }

  lemma LeastId(ids: set<int>)
    ensures ids == {} || exists x :: x in ids && forall y :: y in ids ==> x <= y
  {
    if ids != {} {
      var x := PickId(ids);
      LeastId(ids - {x});
      if ids - {x} == {} {
        assert ids == {x};
      } else {
        var m :| m in ids - {x} && forall y :: y in ids - {x} ==> m <= y;
        var least := if m < x then m else x;
        assert least in ids && forall y :: y in ids ==> y == x || y in ids - {x};
      }
    }
  }

  method SortIds(ids: set<int>) returns (s: seq<int>)
    ensures IsSorted(s, ids)
  {
    s := [];
    var rest := ids;
    while rest != {}
      invariant rest <= ids && IsSorted(s, ids - rest)
      invariant forall i, y :: 0 <= i < |s| && y in rest ==> s[i] < y
      decreases |rest|
    {
      LeastId(rest);
      var x :| x in rest && forall y :: y in rest ==> x <= y;
      s := s + [x];
      rest := rest - {x};
    }
    assert ids - rest == ids;
  }

  lemma OpenHas(b: Book, id: int, m: Meta)
    ensures id in OpenPosition(b, id, m).trades
  {
  }

  lemma ReserveHas(b: Book, id: int)
    requires id in b.trades
    ensures id in Reserve(b, id).trades
  {
  }

  class SessionState {
    var risk: RiskState
    var takenTradeIds: set<int>
    var reservedTradeIds: set<int>
    var trades: map<int, Meta>
    var openIds: set<int>
    var seenSignals: set<SignalKey>

    ghost function Snapshot(): Book
      reads this
    {
      Book(risk, takenTradeIds, reservedTradeIds, trades, openIds, seenSignals)
    }

    constructor (date: int)
      ensures Snapshot() == NewBook(date)
    {
      risk := NewDay(date);
      takenTradeIds, reservedTradeIds, trades, openIds, seenSignals := {}, {}, map[], {}, {};
    }

    method ReserveSlot(id: int)
      requires id in trades
      modifies this`reservedTradeIds, this`risk
      ensures Snapshot() == Reserve(old(Snapshot()), id)
    {
      if id in takenTradeIds || id in reservedTradeIds {
        return;
      }
      var meta := trades[id];
      reservedTradeIds := reservedTradeIds + {id};
      risk := Registered(risk, meta.symbol, meta.strategy);
    }

    method ReleaseSlot(id: int)
      requires reservedTradeIds <= trades.Keys
      modifies this`reservedTradeIds, this`risk
      ensures Snapshot() == Release(old(Snapshot()), id)
    {
      if id !in reservedTradeIds {
        return;
      }
      reservedTradeIds := reservedTradeIds - {id};
      risk := ReleaseEntry(risk, trades[id].symbol);
    }

    method RegisterTaken(id: int, costs: Option<Costs.Config>)
      requires id in trades
      modifies this`reservedTradeIds, this`takenTradeIds, this`risk
      ensures Snapshot() == Take(old(Snapshot()), id, costs)
    {
      hide NetR, Exited, Registered;
      if id in takenTradeIds {
        return;
      }
      var meta := trades[id];
      if id in reservedTradeIds {
        reservedTradeIds := reservedTradeIds - {id};
        takenTradeIds := takenTradeIds + {id};
      } else {
        takenTradeIds := takenTradeIds + {id};
        risk := Registered(risk, meta.symbol, meta.strategy);
      }
      if meta.closed && costs.Some? {
        risk := RegisterExit(risk, meta.symbol, NetR(costs.value, meta));
      }
    }

    /** Book each leg, count what the database has as taken, then close, in order of their ids, the trades with an event that
        their managers no longer hold open. */
    method RouteEvents(events: seq<Event>, stillOpen: set<int>, dbTaken: set<int>, costs: Costs.Config)
      returns (ghost closers: seq<int>)
      requires forall i :: 0 <= i < |events| ==> events[i].tradeId in trades
      modifies this
      ensures IsSorted(closers, (set e | e in events :: e.tradeId) - stillOpen)
      ensures forall i :: 0 <= i < |closers| ==> closers[i] in old(trades)
      ensures Snapshot() == Route(old(Snapshot()), events, closers, dbTaken, costs)
    {
      hide NetR, Exited, Registered, Take, BookLeg;
      ghost var b := Snapshot();
      var i := 0;
      while i < |events|
        invariant 0 <= i <= |events|
        invariant Snapshot() == BookEvents(b, events[..i], dbTaken)
      {
        var ev := events[i];
        assert events[..i + 1][..|events[..i + 1]| - 1] == events[..i];
        assert trades.Keys == Snapshot().trades.Keys;
        trades := trades[ev.tradeId := BookLeg(trades[ev.tradeId], ev)];
        if ev.tradeId in dbTaken {
          RegisterTaken(ev.tradeId, None);
        }
        i := i + 1;
      }
      assert events[..i] == events;
      var gone := SortIds((set e | e in events :: e.tradeId) - stillOpen);
      closers := gone;
      assert forall k :: 0 <= k < |gone| ==> gone[k] in gone;
      CloseAll(gone, costs);
    }

    method CloseAll(ids: seq<int>, costs: Costs.Config)
      requires forall i :: 0 <= i < |ids| ==> ids[i] in trades
      modifies this`trades, this`openIds, this`risk
      ensures Snapshot() == CloseIds(old(Snapshot()), ids, costs)
    {
      ghost var b := Snapshot();
      var i := 0;
      while i < |ids|
        invariant 0 <= i <= |ids|
        invariant Snapshot() == CloseIds(b, ids[..i], costs)
        invariant trades.Keys == b.trades.Keys
      {
        assert ids[..i + 1][..|ids[..i + 1]| - 1] == ids[..i];
        CloseTrade(ids[i], costs);
        i := i + 1;
      }
      assert ids[..i] == ids;
    }

    method CloseTrade(id: int, costs: Costs.Config)
      requires id in trades
      modifies this`trades, this`openIds, this`risk
      ensures Snapshot() == CloseOne(old(Snapshot()), id, costs)
    {
      hide NetR, Exited;
      var meta: Meta := trades[id].(closed := true);
      trades := trades[id := meta];
      openIds := openIds - {id};
      if id in takenTradeIds {
        risk := RegisterExit(risk, meta.symbol, NetR(costs, meta));
      }
    }

    method OpenTrade(id: int, meta: Meta)
      modifies this`trades, this`openIds, this`seenSignals
      ensures Snapshot() == OpenPosition(old(Snapshot()), id, meta)
    {
      trades := trades[id := meta];
      openIds := openIds + {id};
      seenSignals := seenSignals + {meta.key};
    }

    method EnterTrade(id: int, meta: Meta, dbTaken: bool)
      modifies this
      ensures Snapshot() == Enter(old(Snapshot()), id, meta, dbTaken)
    {
      hide OpenPosition, Reserve, Take;
      OpenTrade(id, meta);
      assert id in trades by { OpenHas(old(Snapshot()), id, meta); }
      ReserveSlot(id);
      assert id in trades by { ReserveHas(OpenPosition(old(Snapshot()), id, meta), id); }
      if dbTaken {
        RegisterTaken(id, None);
      }
    }

    /** An entry alert nobody answered before it ran out gives its slot back: every reservation is looked at, in order of
        the ids, and exactly those whose alert is still valid stay. */
    method ReleaseExpiredReservations(now: int) returns (ghost looked: seq<int>)
      requires reservedTradeIds <= trades.Keys
      modifies this`reservedTradeIds, this`risk
      ensures IsSorted(looked, old(reservedTradeIds)) && forall i :: 0 <= i < |looked| ==> looked[i] in trades
      ensures Snapshot() == ReleaseExpired(old(Snapshot()), looked, now)
      ensures forall id :: id in reservedTradeIds <==> id in old(reservedTradeIds) && !Expired(trades[id], now)
    {
      hide Released;
      ghost var b := Snapshot();
      var ids := SortIds(reservedTradeIds);
      looked := ids;
      assert forall k :: 0 <= k < |ids| ==> ids[k] in ids;
      var i := 0;
      while i < |ids|
        invariant 0 <= i <= |ids|
        invariant trades == b.trades && reservedTradeIds <= b.reserved
        invariant Snapshot() == ReleaseExpired(b, ids[..i], now)
      {
        assert ids[..i + 1][..|ids[..i + 1]| - 1] == ids[..i];
        if Expired(trades[ids[i]], now) {
          ReleaseSlot(ids[i]);
        }
        i := i + 1;
      }
      assert ids[..i] == ids;
      forall id ensures id in reservedTradeIds <==> id in b.reserved && !Expired(trades[id], now) {
        SlotRules.ExpiryIff(b, ids, now, id);
      }
    }
  }
}
