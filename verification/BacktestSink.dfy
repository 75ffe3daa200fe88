/** The sink of a backtest day (tradalgo/backtest/replay.py:84-178): fills from the next open, exits to the broker, records. */
module BacktestSinks {
  import opened Common
  import opened CandleCaches
  import opened PaperBrokers
  import P = Positions
  import R = Replays
  import V = Validator

  /** The last bar of the day a forced close uses: its close instant and price. */
  datatype LastBar = LastBar(ts: int, price: real)

  /** The record of a trade forced out at the last bar of its symbol. */
  ghost function RecordAt(t: OpenTrade, last: map<string, LastBar>, b: Pricing): Record
    requires t.plan.qty >= 1 && t.plan.signal.symbol in last
  {
    var bar := last[t.plan.signal.symbol];
    ForcedClose(t, bar.ts, bar.price, "eod_no_data", b)
  }

  /** The records there were, and after them those of trades that were open, forced out. */
  ghost predicate AllForced(open: map<int, OpenTrade>, last: map<string, LastBar>, before: seq<Record>, owned: seq<int>,
                            records: seq<Record>, owners: seq<int>, b: Pricing) {
    && |before| == |owned| && |records| == |owners| && before <= records && owned <= owners
    && forall k :: |before| <= k < |records| ==>
         && owners[k] in open && open[owners[k]].plan.qty >= 1 && open[owners[k]].plan.signal.symbol in last
         && records[k] == RecordAt(open[owners[k]], last, b)
  }

  lemma NoneForced(open: map<int, OpenTrade>, last: map<string, LastBar>, records: seq<Record>, owners: seq<int>, b: Pricing)
    requires |records| == |owners|
    ensures AllForced(open, last, records, owners, records, owners, b)
  {
  }

  lemma OneMoreForced(open: map<int, OpenTrade>, last: map<string, LastBar>, before: seq<Record>, owned: seq<int>,
                      records: seq<Record>, owners: seq<int>, id: int, b: Pricing)
    requires AllForced(open, last, before, owned, records, owners, b)
    requires id in open && open[id].plan.qty >= 1 && open[id].plan.signal.symbol in last
    ensures AllForced(open, last, before, owned, records + [RecordAt(open[id], last, b)], owners + [id], b)
  {
    hide RecordAt;
  }

  /** A record names the signal of its trade. */
  lemma FedReports(t: OpenTrade, e: P.Event, b: Pricing)
    requires t.plan.qty >= 1
    ensures var after := Fed(Standing(t), e, b);
            if after.Settled? then after.record.signalId == t.signalId else after.trade.signalId == t.signalId
  {
  }

  lemma ForcedReports(t: OpenTrade, ts: int, price: real, reason: string, b: Pricing)
    requires t.plan.qty >= 1
    ensures ForcedClose(t, ts, price, reason, b).signalId == t.signalId
  {
  }

  lemma Amended(m: map<int, OpenTrade>, id: int, t: OpenTrade)
    requires id in m
    ensures m[id := t].Keys == m.Keys && |m[id := t]| == |m|
  {
    assert |m[id := t]| == |m[id := t].Keys| && |m| == |m.Keys|;
  }

  lemma SomeKey(m: map<int, OpenTrade>)
    ensures m.Keys == {} || exists id :: id in m
  {
    if !(exists id :: id in m) {
      assert m.Keys == {};
    }
  }

  lemma Added<V>(m: map<int, V>, id: int, v: V)
    requires id !in m
    ensures |m[id := v]| == |m| + 1
  {
    assert m[id := v].Keys == m.Keys + {id};
    assert |m[id := v]| == |m[id := v].Keys| && |m| == |m.Keys|;
  }

  lemma Removed(m: map<int, OpenTrade>, id: int)
    requires id in m
    ensures (m - {id}).Keys == m.Keys - {id} && |m - {id}| == |m| - 1
  {
    assert m.Keys == (m - {id}).Keys + {id};
    assert |m| == |m.Keys| && |m - {id}| == |(m - {id}).Keys|;
  }

  /** Every trade is open or owns exactly one record, and both name its signal. */
  ghost predicate Accounted(trades: map<int, int>, open: map<int, OpenTrade>, records: seq<Record>, owners: seq<int>) {
    && open.Keys <= trades.Keys && (forall id :: id in open ==> open[id].signalId == trades[id])
    && |owners| == |records| && |trades| == |records| + |open|
    && (forall k :: 0 <= k < |owners| ==>
          owners[k] in trades && owners[k] !in open && records[k].signalId == trades[owners[k]])
    && (forall j, k :: 0 <= j < k < |owners| ==> owners[j] != owners[k])
    && (forall id :: id in trades && id !in open ==> id in owners)
  }

  lemma AccountedOpens(trades: map<int, int>, open: map<int, OpenTrade>, records: seq<Record>, owners: seq<int>,
                       id: int, t: OpenTrade)
    requires Accounted(trades, open, records, owners) && id !in trades
    ensures Accounted(trades[id := t.signalId], open[id := t], records, owners)
  {
    Added(open, id, t);
    Added(trades, id, t.signalId);
  }

  lemma AccountedStays(trades: map<int, int>, open: map<int, OpenTrade>, records: seq<Record>, owners: seq<int>,
                       id: int, t: OpenTrade)
    requires Accounted(trades, open, records, owners) && id in open && t.signalId == open[id].signalId
    ensures Accounted(trades, open[id := t], records, owners)
  {
    Amended(open, id, t);
  }

  lemma AccountedCloses(trades: map<int, int>, open: map<int, OpenTrade>, records: seq<Record>, owners: seq<int>,
                        id: int, r: Record)
    requires Accounted(trades, open, records, owners) && id in open && r.signalId == open[id].signalId
    ensures Accounted(trades, open - {id}, records + [r], owners + [id])
  {
    Removed(open, id);
    var all, rs := owners + [id], records + [r];
    assert forall k :: 0 <= k < |owners| ==> all[k] == owners[k] && rs[k] == records[k];
    assert all[|owners|] == id;
    forall x | x in trades && x !in open - {id} ensures x in all {
      assert x == id || x in owners;
    }
  }

  class BacktestSink {
    const broker: PaperBroker
    const bars: map<string, seq<Candle>>
    var records: seq<Record>
    var trades: map<int, int>                   // the signal of every trade the day opened
    ghost var owners: seq<int>                  // whose record is at each place

    /** Every trade the day opened is either still open at the broker or has exactly one record, its own. */
    ghost predicate Valid()
      reads this, broker
    {
      && broker.Valid()
      && (forall id :: id in trades ==> id < broker.nextId)
      && Accounted(trades, broker.openTrades, records, owners)
    }

    constructor (broker: PaperBroker, bars: map<string, seq<Candle>>)
      requires broker.Valid() && broker.openTrades == map[]
      ensures Valid() && this.broker == broker && this.bars == bars && records == [] && trades == map[]
    {
      this.broker, this.bars, records, trades, owners := broker, bars, [], map[], [];
    }

    /** Filled at the open after the signal's candle if that is inside the band, else missed. */
    method Accept(plan: V.Plan, signalId: int) returns (id: Option<int>)
      requires Valid() && plan.signal.symbol in bars && plan.qty >= 1
      modifies this`trades, broker`openTrades, broker`nextId, broker`missed
      ensures Valid()
      ensures var open := R.OpenAt(bars[plan.signal.symbol], plan.signal.ts + BAR);
              && (id.Some? <==> open.Some? && plan.limitLow <= open.value <= plan.limitHigh)
              && (id.None? ==> trades == old(trades) && broker.openTrades == old(broker.openTrades)
                               && broker.missed == old(broker.missed) + [Missed(plan, signalId, open)])
              && (id.Some? ==> id.value !in old(trades) && trades == old(trades)[id.value := signalId]
                               && broker.missed == old(broker.missed)
                               && broker.openTrades == old(broker.openTrades)[id.value :=
                                    OpenTrade(plan, signalId, plan.signal.ts + BAR, open.value, [], 0.0, 0.0)])
    {
      var start := plan.signal.ts + BAR;
      var nextOpen := R.OpenAt(bars[plan.signal.symbol], start);
      var fill := if nextOpen.None? then None else FillPrice(plan, nextOpen.value);
      if fill.None? {
        broker.Miss(plan, signalId, nextOpen);
        return None;
      }
      var tradeId := broker.Open(plan, signalId, start, fill.value);
      assert tradeId !in trades;
      ghost var t := broker.openTrades[tradeId];
      assert broker.openTrades == old(broker.openTrades)[tradeId := t];
      AccountedOpens(trades, old(broker.openTrades), records, owners, tradeId, t);
      hide Accounted;
      trades := trades[tradeId := signalId];
      return Some(tradeId);
    }

    /** The event that sells the last share closes its trade, and that trade's record is added; no other event adds one. */
    method EmitEvent(e: P.Event)
      requires Valid()
      modifies this`records, this`owners, broker`openTrades
      ensures Valid()
      ensures e.tradeId !in old(broker.openTrades) ==>
                records == old(records) && owners == old(owners) && broker.openTrades == old(broker.openTrades)
      ensures e.tradeId in old(broker.openTrades) ==>
                var after := Fed(Standing(old(broker.openTrades)[e.tradeId]), e, Pricing(broker.slip, broker.costs));
                if after.Settled?
                then && records == old(records) + [after.record] && owners == old(owners) + [e.tradeId]
                     && broker.openTrades == old(broker.openTrades) - {e.tradeId}
                else && records == old(records) && owners == old(owners)
                     && broker.openTrades == old(broker.openTrades)[e.tradeId := after.trade]
    {
      ghost var was, b := broker.openTrades, Pricing(broker.slip, broker.costs);
      assert broker.Valid() && Accounted(trades, was, records, owners) && forall id :: id in trades ==> id < broker.nextId;
      assert e.tradeId in was ==> was[e.tradeId].plan.qty >= 1;
      hide *;
      var record := broker.OnEvent(e);
      if e.tradeId in was {
        FedReports(was[e.tradeId], e, b);
      }
      if record.Some? {
        AccountedCloses(trades, was, records, owners, e.tradeId, record.value);
        records := records + [record.value];
        owners := owners + [e.tradeId];
      } else if e.tradeId in was {
        AccountedStays(trades, was, records, owners, e.tradeId, broker.openTrades[e.tradeId]);
      }
      ValidBy();
    }

    lemma ValidBy()
      requires broker.Valid() && (forall id :: id in trades ==> id < broker.nextId)
      requires Accounted(trades, broker.openTrades, records, owners)
      ensures Valid()
    {
    }

    /** What the data's end leaves open is closed at the day's last bar: nothing stays open, every trade of the day has
        its one record, and each one added is that of a trade that was open, forced out. */
    method CloseRemaining(last: map<string, LastBar>)
      requires Valid()
      requires forall id :: id in broker.openTrades ==> broker.openTrades[id].plan.signal.symbol in last
      modifies this`records, this`owners, broker`openTrades
      ensures Valid() && broker.openTrades == map[] && |records| == |trades|
      ensures forall id :: id in trades ==> exists k :: 0 <= k < |owners| && owners[k] == id
      ensures AllForced(old(broker.openTrades), last, old(records), old(owners), records, owners, Pricing(broker.slip,
                broker.costs))
    {
      assert |records| == |owners| && forall id :: id in broker.openTrades ==> broker.openTrades[id].plan.qty >= 1;
      hide AllForced, BacktestSink.Valid;
      NoneForced(broker.openTrades, last, records, owners, Pricing(broker.slip, broker.costs));
      while broker.openTrades.Keys != {}
        invariant Valid()
        invariant forall id :: id in broker.openTrades ==>
                    id in old(broker.openTrades) && broker.openTrades[id] == old(broker.openTrades)[id]
        invariant AllForced(old(broker.openTrades), last, old(records), old(owners), records, owners,
                            Pricing(broker.slip, broker.costs))
        decreases |broker.openTrades.Keys|
      {
        SomeKey(broker.openTrades);
        var id :| id in broker.openTrades;
        OneMoreForced(old(broker.openTrades), last, old(records), old(owners), records, owners, id,
                      Pricing(broker.slip, broker.costs));
        Removed(broker.openTrades, id);
        CloseAt(id, last);
      }
      assert broker.openTrades == map[];
      AllRecorded();
    }

    lemma AllRecorded()
      requires Valid() && broker.openTrades == map[]
      ensures |records| == |trades| && forall id :: id in trades ==> exists k :: 0 <= k < |owners| && owners[k] == id
    {
    }

    /** Force one trade out at its symbol's last bar and add its record. */
    method CloseAt(id: int, last: map<string, LastBar>)
      requires Valid() && id in broker.openTrades && broker.openTrades[id].plan.signal.symbol in last
      requires broker.openTrades[id].plan.qty >= 1
      modifies this`records, this`owners, broker`openTrades
      ensures Valid() && broker.openTrades == old(broker.openTrades) - {id}
      ensures owners == old(owners) + [id]
      ensures records == old(records) + [RecordAt(old(broker.openTrades)[id], last, Pricing(broker.slip, broker.costs))]
    {
      hide ForcedClose, Closed, Accounted;
      var bar := last[broker.openTrades[id].plan.signal.symbol];
      ForcedReports(broker.openTrades[id], bar.ts, bar.price, "eod_no_data", Pricing(broker.slip, broker.costs));
      ghost var was := broker.openTrades;
      var record := broker.ForceClose(id, bar.ts, bar.price, "eod_no_data");
      AccountedCloses(trades, was, records, owners, id, record);
      records := records + [record];
      owners := owners + [id];
    }
  }
}
