/**
 A day of cycles on cached history (tradalgo/backtest/replay.py:58-65 and 121-151, tradalgo/engine/cycle.py:274-313).
 Detectors, regimes, levels, sizing and the managers are any functions of what the cycle hands them; the
 question is only which bars that is.
 */
module Replays {
  import opened Common
  import opened CandleCaches
  import opened Frames
  import V = Validator

  /** The history of a symbol. */
  datatype History = History(bars: seq<Candle>, daily: seq<Candle>)

  /** The shortlist in order, with a history each, and the index. */
  datatype Data = Data(symbols: seq<string>, of: map<string, History>, index: seq<Candle>)

  datatype View = View(five: seq<Candle>, fifteen: seq<Candle>, daily: seq<Candle>)

  datatype Context<R> = Context(symbol: string, now: int, view: View, index15: seq<Candle>, regime: R, market: R)

  /** The parts of the engine that see no history but what they are given; S is all their state together. */
  datatype Engine<!S, !R> = Engine(
    feed: (S, map<string, Option<Candle>>) -> S,                     // excursions of the bar that just closed
    manage: (S, map<string, View>, int) -> S,                        // exits of the open trades
    classify: (seq<Candle>, seq<Candle>) -> R,
    detect: Context<R> -> seq<V.Signal>,
    levels: (seq<Candle>, seq<Candle>, int) -> seq<real>,
    decide: (S, V.Signal, seq<real>) -> V.Decision,
    enter: (S, V.Plan, real) -> S,
    miss: (S, V.Plan, Option<real>) -> S,
    sessions: nat, regimeSessions: nat)

  datatype Happening = Signaled(signal: V.Signal) | Decided(decision: V.Decision) | Filled(plan: V.Plan, fill: real)
    | Missed(plan: V.Plan, nextOpen: Option<real>)

  /** The engine's state, the signals already seen, and everything that happened. */
  datatype State<S> = State(core: S, seen: set<(string, string, int)>, log: seq<Happening>)

  // ---------------------------------------------------------------- what is read of a history

  function BarAt(cs: seq<Candle>, ts: int): Option<Candle> {
    if cs == [] then None else if cs[0].ts == ts then Some(cs[0]) else BarAt(cs[1..], ts)
  }

  function OpenAt(cs: seq<Candle>, ts: int): Option<real> {
    var b := BarAt(cs, ts);
    if b.None? then None else Some(b.value.open)
  }

  function DailyBefore(cs: seq<Candle>, day: int): seq<Candle> {
    if cs == [] then [] else (if Day(cs[0]) < day then [cs[0]] else []) + DailyBefore(cs[1..], day)
  }

  ghost function ViewOf(h: History, now: int, sessions: nat): View {
    View(FiveMinutes(h.bars, now, sessions), FifteenMinutes(h.bars, now, sessions), DailyBefore(h.daily, now / DAY))
  }

  // ---------------------------------------------------------------- one cycle

  ghost function Views(d: Data, now: int, sessions: nat): map<string, View> {
    map s | s in d.symbols && s in d.of :: ViewOf(d.of[s], now, sessions)
  }

  ghost function LastBars(d: Data, now: int): map<string, Option<Candle>> {
    map s | s in d.symbols && s in d.of :: BarAt(d.of[s].bars, now - BAR)
  }

  /** The entry of an accepted plan: filled at the next bar's open if that is inside the band. */
  function Entered<S, R>(e: Engine<S, R>, st: State<S>, p: V.Plan, nextOpen: Option<real>): State<S> {
    if nextOpen.Some? && p.limitLow <= nextOpen.value <= p.limitHigh
    then st.(core := e.enter(st.core, p, nextOpen.value), log := st.log + [Filled(p, nextOpen.value)])
    else st.(core := e.miss(st.core, p, nextOpen), log := st.log + [Missed(p, nextOpen)])
  }

  /** One signal of a symbol; the bars are read only for the open after the signal's candle. */
  function Take<S, R>(e: Engine<S, R>, st: State<S>, s: V.Signal, levels: seq<real>, bars: seq<Candle>): State<S> {
    var key := (s.symbol, s.strategy, s.ts);
    if key in st.seen then st else
    var decision := e.decide(st.core, s, levels);
    var st' := State(st.core, st.seen + {key}, st.log + [Signaled(s), Decided(decision)]);
    if decision.Accept? then Entered(e, st', decision.plan, OpenAt(bars, s.ts + BAR)) else st'
  }

  function TakeAll<S, R>(e: Engine<S, R>, st: State<S>, ss: seq<V.Signal>, levels: seq<real>, bars: seq<Candle>): State<S>
    decreases |ss|
  {
    if ss == [] then st else
    Take(e, TakeAll(e, st, ss[..|ss| - 1], levels, bars), ss[|ss| - 1], levels, bars)
  }

  ghost function ContextOf<S, R>(e: Engine<S, R>, d: Data, sym: string, now: int): Context<R>
    requires sym in d.of
  {
    var h := d.of[sym];
    var regime := e.classify(FifteenMinutes(h.bars, now, e.regimeSessions), FiveMinutes(h.bars, now, e.regimeSessions));
    var market := e.classify(FifteenMinutes(d.index, now, e.regimeSessions), FiveMinutes(d.index, now, e.regimeSessions));
    Context(sym, now, ViewOf(h, now, e.sessions), FifteenMinutes(d.index, now, e.sessions), regime, market)
  }

  ghost function Symbols<S, R>(e: Engine<S, R>, d: Data, now: int, symbols: seq<string>, st: State<S>): State<S>
    requires forall s :: s in symbols ==> s in d.of
    decreases |symbols|
  {
    if symbols == [] then st else
    var before := Symbols(e, d, now, symbols[..|symbols| - 1], st);
    var sym := symbols[|symbols| - 1];
    var c := ContextOf(e, d, sym, now);
    TakeAll(e, before, e.detect(c), e.levels(c.view.daily, c.view.five, now), d.of[sym].bars)
  }

  ghost function Cycle<S, R>(e: Engine<S, R>, d: Data, now: int, st: State<S>): State<S>
    requires forall s :: s in d.symbols ==> s in d.of
  {
    var managed := st.(core := e.manage(e.feed(st.core, LastBars(d, now)), Views(d, now, e.sessions), now));
    Symbols(e, d, now, d.symbols, managed)
  }

  ghost function RunDay<S, R>(e: Engine<S, R>, d: Data, times: seq<int>, st: State<S>): State<S>
    requires forall s :: s in d.symbols ==> s in d.of
    decreases |times|
  {
    if times == [] then st else Cycle(e, d, times[|times| - 1], RunDay(e, d, times[..|times| - 1], st))
  }

  /** The instants of a day's cycles: every bar close from the first to the market's close. */
  method CycleTimes(open: int, close: int) returns (times: seq<int>)
    ensures forall i :: 0 <= i < |times| ==> times[i] == open + (i + 1) * BAR && times[i] <= close
    ensures open + (|times| + 1) * BAR > close
  {
    var t := open + BAR;
    times := [];
    while t <= close
      invariant t == open + (|times| + 1) * BAR
      invariant forall i :: 0 <= i < |times| ==> times[i] == open + (i + 1) * BAR && times[i] <= close
      decreases close - t
    {
      times := times + [t];
      t := t + BAR;
    }
  }

  // ---------------------------------------------------------------- agreement up to an instant

  ghost predicate SortedData(d: Data) {
    && (forall s :: s in d.symbols ==> s in d.of)
    && (forall s :: s in d.of ==> Sorted(d.of[s].bars) && Sorted(d.of[s].daily))
    && Sorted(d.index)
  }

  /** The same closed bars, the same opens of the bars that have begun, the same daily candles before the day. */
  ghost predicate SameHistory(a: History, b: History, now: int) {
    && AgreeClosed(a.bars, b.bars, now)
    && (forall ts :: ts <= now ==> OpenAt(a.bars, ts) == OpenAt(b.bars, ts))
    && (forall c :: Day(c) < now / DAY ==> (c in a.daily <==> c in b.daily))
  }

  ghost predicate Agree(a: Data, b: Data, now: int) {
    && a.symbols == b.symbols && a.of.Keys == b.of.Keys
    && (forall s :: s in a.of ==> SameHistory(a.of[s], b.of[s], now))
    && AgreeClosed(a.index, b.index, now)
  }

  /** A detector's signal is about a candle that has closed. */
  ghost predicate Timely<S(!new), R(!new)>(e: Engine<S, R>) {
    forall c: Context<R>, i :: 0 <= i < |e.detect(c)| ==> e.detect(c)[i].ts + BAR <= c.now
  }

  lemma {:induction false} BarAtIs(cs: seq<Candle>, ts: int)
    requires Sorted(cs)
    ensures BarAt(cs, ts).Some? ==> BarAt(cs, ts).value in cs && BarAt(cs, ts).value.ts == ts
    ensures BarAt(cs, ts).None? ==> forall c :: c in cs ==> c.ts != ts
  {
    if cs != [] {
      BarAtIs(cs[1..], ts);
      assert cs == [cs[0]] + cs[1..];
    }
  }

  lemma LastBarAgrees(a: seq<Candle>, b: seq<Candle>, now: int)
    requires Sorted(a) && Sorted(b) && AgreeClosed(a, b, now)
    ensures BarAt(a, now - BAR) == BarAt(b, now - BAR)
  {
    BarAtIs(a, now - BAR);
    BarAtIs(b, now - BAR);
    var x, y := BarAt(a, now - BAR), BarAt(b, now - BAR);
    assert y.Some? ==> y.value in a;
    if x.Some? {
      assert x.value in b;
      SameTsSame(b, x.value, y.value);
    }
  }

  lemma {:induction false} DailyBeforeIs(cs: seq<Candle>, day: int)
    ensures Sorted(cs) ==> Sorted(DailyBefore(cs, day))
    ensures forall c :: c in DailyBefore(cs, day) <==> c in cs && Day(c) < day
  {
    if cs != [] {
      DailyBeforeIs(cs[1..], day);
      assert cs == [cs[0]] + cs[1..];
      if Sorted(cs) {
        var r := DailyBefore(cs[1..], day);
        forall j | 0 <= j < |r| ensures cs[0].ts < r[j].ts {
          assert r[j] in cs[1..];
          var k :| 0 <= k < |cs[1..]| && cs[1..][k] == r[j];
          assert cs[0].ts < cs[k + 1].ts;
        }
      }
    }
  }

  lemma ViewsAgree(a: History, b: History, now: int, sessions: nat)
    requires Sorted(a.bars) && Sorted(b.bars) && Sorted(a.daily) && Sorted(b.daily) && SameHistory(a, b, now)
    ensures ViewOf(a, now, sessions) == ViewOf(b, now, sessions)
  {
    FramesNeverLookAhead(a.bars, b.bars, now, sessions);
    DailyBeforeIs(a.daily, now / DAY);
    DailyBeforeIs(b.daily, now / DAY);
    SortedUnique(DailyBefore(a.daily, now / DAY), DailyBefore(b.daily, now / DAY));
  }

  lemma {:induction false} TakeAllAgrees<S, R>(e: Engine<S, R>, st: State<S>, ss: seq<V.Signal>, levels: seq<real>,
                                               a: History, b: History, now: int)
    requires SameHistory(a, b, now) && forall i :: 0 <= i < |ss| ==> ss[i].ts + BAR <= now
    ensures TakeAll(e, st, ss, levels, a.bars) == TakeAll(e, st, ss, levels, b.bars)
    decreases |ss|
  {
    if ss != [] {
      TakeAllAgrees(e, st, ss[..|ss| - 1], levels, a, b, now);
      assert OpenAt(a.bars, ss[|ss| - 1].ts + BAR) == OpenAt(b.bars, ss[|ss| - 1].ts + BAR);
    }
  }

  lemma ContextsAgree<S, R>(e: Engine<S, R>, a: Data, b: Data, sym: string, now: int)
    requires SortedData(a) && SortedData(b) && Agree(a, b, now) && sym in a.of
    ensures ContextOf(e, a, sym, now) == ContextOf(e, b, sym, now)
  {
    assert SameHistory(a.of[sym], b.of[sym], now);
    ViewsAgree(a.of[sym], b.of[sym], now, e.sessions);
    FramesNeverLookAhead(a.of[sym].bars, b.of[sym].bars, now, e.regimeSessions);
    FramesNeverLookAhead(a.index, b.index, now, e.regimeSessions);
    FramesNeverLookAhead(a.index, b.index, now, e.sessions);
    hide FiveMinutes, FifteenMinutes, ViewOf;
  }

  lemma ContextNow<S, R>(e: Engine<S, R>, d: Data, sym: string, now: int)
    requires sym in d.of
    ensures ContextOf(e, d, sym, now).now == now
  {
  }

  lemma {:induction false} SymbolsAgree<S(!new), R(!new)>(e: Engine<S, R>, a: Data, b: Data, now: int, symbols: seq<string>,
                                                          st: State<S>)
    requires SortedData(a) && SortedData(b) && Agree(a, b, now) && Timely(e)
    requires forall s :: s in symbols ==> s in a.of && s in b.of
    ensures Symbols(e, a, now, symbols, st) == Symbols(e, b, now, symbols, st)
    decreases |symbols|
  {
    hide ContextOf, TakeAll, SameHistory;
    if symbols != [] {
      var sym := symbols[|symbols| - 1];
      assert sym in symbols;
      var front := symbols[..|symbols| - 1];
      assert forall s :: s in front ==> s in symbols;
      SymbolsAgree(e, a, b, now, front, st);
      ContextsAgree(e, a, b, sym, now);
      var c := ContextOf(e, a, sym, now);
      assert c.now == now by { ContextNow(e, a, sym, now); }
      var before := Symbols(e, a, now, front, st);
      TakeAllAgrees(e, before, e.detect(c), e.levels(c.view.daily, c.view.five, now), a.of[sym], b.of[sym], now);
    }
  }

  lemma HistoryClosed(a: History, b: History, now: int)
    requires SameHistory(a, b, now)
    ensures AgreeClosed(a.bars, b.bars, now)
  {
  }

  lemma CycleAgrees<S(!new), R(!new)>(e: Engine<S, R>, a: Data, b: Data, now: int, st: State<S>)
    requires SortedData(a) && SortedData(b) && Agree(a, b, now) && Timely(e)
    ensures Cycle(e, a, now, st) == Cycle(e, b, now, st)
  {
    hide Symbols, ViewOf, BarAt, SameHistory, Timely;
    forall s | s in a.symbols && s in a.of
      ensures ViewOf(a.of[s], now, e.sessions) == ViewOf(b.of[s], now, e.sessions)
      ensures BarAt(a.of[s].bars, now - BAR) == BarAt(b.of[s].bars, now - BAR)
    {
      ViewsAgree(a.of[s], b.of[s], now, e.sessions);
      HistoryClosed(a.of[s], b.of[s], now);
      LastBarAgrees(a.of[s].bars, b.of[s].bars, now);
    }
    assert Views(a, now, e.sessions) == Views(b, now, e.sessions);
    assert LastBars(a, now) == LastBars(b, now);
    var managed := st.(core := e.manage(e.feed(st.core, LastBars(a, now)), Views(a, now, e.sessions), now));
    SymbolsAgree(e, a, b, now, a.symbols, managed);
  }

  lemma AgreeEarlier(a: Data, b: Data, now: int, earlier: int)
    requires Agree(a, b, now) && earlier <= now
    ensures Agree(a, b, earlier)
  {
    forall s | s in a.of ensures SameHistory(a.of[s], b.of[s], earlier) {
      assert SameHistory(a.of[s], b.of[s], now);
    }
  }

  lemma HasHistories(d: Data)
    requires SortedData(d)
    ensures forall s :: s in d.symbols ==> s in d.of
  {
  }

  /** No lookahead: two histories with the same bars closed by `now`, and the same opens of the bars begun by then, give the
      same signals, decisions, fills, misses and engine state after every cycle up to `now`, whatever comes later in either. */
  lemma {:induction false} NoLookahead<S(!new), R(!new)>(e: Engine<S, R>, a: Data, b: Data, times: seq<int>, now: int, st: State<S>)
    requires SortedData(a) && SortedData(b) && Agree(a, b, now) && Timely(e)
    requires forall i :: 0 <= i < |times| ==> times[i] <= now
    ensures RunDay(e, a, times, st) == RunDay(e, b, times, st)
    decreases |times|
  {
    hide Cycle, Agree, SortedData, Timely;
    assert (forall s :: s in a.symbols ==> s in a.of) && (forall s :: s in b.symbols ==> s in b.of) by {
      HasHistories(a);
      HasHistories(b);
    }
    if times != [] {
      var t, front := times[|times| - 1], times[..|times| - 1];
      NoLookahead(e, a, b, front, now, st);
      AgreeEarlier(a, b, now, t);
      CycleAgrees(e, a, b, t, RunDay(e, a, front, st));
    }
  }

  /** What a detector is told of the market comes from the index alone, and the rest from its own symbol alone: the regime from
      the longer window, the frames from the shorter, the daily candles from before the day. */
  lemma ContextReads<S, R>(e: Engine<S, R>, a: Data, b: Data, x: string, y: string, now: int)
    requires x in a.of && y in b.of
    ensures a.index == b.index ==> ContextOf(e, a, x, now).market == ContextOf(e, b, y, now).market
                                   && ContextOf(e, a, x, now).index15 == ContextOf(e, b, y, now).index15
    ensures a.of[x] == b.of[y] ==> ContextOf(e, a, x, now).regime == ContextOf(e, b, y, now).regime
                                   && ContextOf(e, a, x, now).view == ContextOf(e, b, y, now).view
    ensures a.of[x].bars == a.index ==> ContextOf(e, a, x, now).regime == ContextOf(e, a, x, now).market
                                        && ContextOf(e, a, x, now).view.fifteen == ContextOf(e, a, x, now).index15
    ensures ContextOf(e, a, x, now).symbol == x && ContextOf(e, a, x, now).now == now
    ensures forall c :: c in ContextOf(e, a, x, now).view.daily <==> c in a.of[x].daily && c.ts / DAY < now / DAY
  {
    DailyBeforeIs(a.of[x].daily, now / DAY);
    hide FiveMinutes, FifteenMinutes, DailyBefore;
  }

  // ---------------------------------------------------------------- what a day's log holds

  function KeyOf(s: V.Signal): (string, string, int) { (s.symbol, s.strategy, s.ts) }

  ghost predicate InBand(p: V.Plan, open: Option<real>) {
    open.Some? && p.limitLow <= open.value <= p.limitHigh
  }

  /** A signal is decided at once; an accepted plan is then filled inside its band, or missed, and a fill or a miss is always
      that of the plan just accepted. */
  ghost predicate InPlace(log: seq<Happening>, i: nat)
    requires i < |log|
  {
    match log[i]
    case Signaled(s) => i + 1 < |log| && log[i + 1].Decided?
    case Decided(d) =>
      && i > 0 && log[i - 1].Signaled?
      && (d.Accept? ==> i + 1 < |log| && ((log[i + 1].Filled? && log[i + 1].plan == d.plan)
                                          || (log[i + 1].Missed? && log[i + 1].plan == d.plan)))
    case Filled(p, fill) => i > 0 && log[i - 1] == Decided(V.Accept(p)) && InBand(p, Some(fill))
    case Missed(p, open) => i > 0 && log[i - 1] == Decided(V.Accept(p)) && !InBand(p, open)
  }

  ghost predicate WellLogged(log: seq<Happening>) {
    forall i :: 0 <= i < |log| ==> InPlace(log, i)
  }

  /** No signal is in the log twice, and the ones seen are those in the log. */
  ghost predicate EachOnce<S(!new)>(st: State<S>) {
    && (forall i, j :: 0 <= i < j < |st.log| && st.log[i].Signaled? && st.log[j].Signaled? ==>
          KeyOf(st.log[i].signal) != KeyOf(st.log[j].signal))
    && (forall i :: 0 <= i < |st.log| && st.log[i].Signaled? ==> KeyOf(st.log[i].signal) in st.seen)
    && (forall key :: key in st.seen ==> exists i :: 0 <= i < |st.log| && st.log[i].Signaled? && KeyOf(st.log[i].signal) == key)
  }

  lemma StaysInPlace(log: seq<Happening>, more: seq<Happening>, i: nat)
    requires i < |log| && InPlace(log, i)
    ensures InPlace(log + more, i)
  {
    var all := log + more;
    assert all[i] == log[i] && (i > 0 ==> all[i - 1] == log[i - 1]) && (i + 1 < |log| ==> all[i + 1] == log[i + 1]);
  }

  lemma BlockWellLogged(log: seq<Happening>, s: V.Signal, d: V.Decision, open: Option<real>)
    requires WellLogged(log)
    ensures d.Reject? ==> WellLogged(log + [Signaled(s), Decided(d)])
    ensures d.Accept? && InBand(d.plan, open) ==> WellLogged(log + [Signaled(s), Decided(d), Filled(d.plan, open.value)])
    ensures d.Accept? && !InBand(d.plan, open) ==> WellLogged(log + [Signaled(s), Decided(d), Missed(d.plan, open)])
  {
    var last := if d.Reject? then [] else if InBand(d.plan, open) then [Filled(d.plan, open.value)] else [Missed(d.plan, open)];
    var more := [Signaled(s), Decided(d)] + last;
    var all, n := log + more, |log|;
    forall i | 0 <= i < |all| ensures InPlace(all, i) {
      if i < n {
        StaysInPlace(log, more, i);
      } else {
        assert all[n] == Signaled(s) && all[n + 1] == Decided(d) && (last != [] ==> all[n + 2] == last[0]);
      }
    }
    assert last == [] ==> more == [Signaled(s), Decided(d)];
    assert last != [] ==> more == [Signaled(s), Decided(d), last[0]];
  }

  /** What a new signal adds to the log. */
  ghost predicate Adds(log: seq<Happening>, after: seq<Happening>, s: V.Signal) {
    && |after| > |log| && after[..|log|] == log && after[|log|] == Signaled(s)
    && forall i :: |log| < i < |after| ==> !after[i].Signaled?
  }

  lemma OneSignalMore<S(!new)>(st: State<S>, st': State<S>, s: V.Signal)
    requires EachOnce(st) && KeyOf(s) !in st.seen && Adds(st.log, st'.log, s) && st'.seen == st.seen + {KeyOf(s)}
    ensures EachOnce(st')
  {
    var n := |st.log|;
    assert forall i :: 0 <= i < n ==> st'.log[i] == st'.log[..n][i] == st.log[i];
    forall key | key in st'.seen ensures exists i :: 0 <= i < |st'.log| && st'.log[i].Signaled? && KeyOf(st'.log[i].signal) == key {
      if key == KeyOf(s) {
        assert st'.log[n] == Signaled(s);
      } else {
        var i :| 0 <= i < |st.log| && st.log[i].Signaled? && KeyOf(st.log[i].signal) == key;
        assert st'.log[i] == st.log[i];
      }
    }
  }

  ghost predicate Logged<S(!new)>(st: State<S>) {
    WellLogged(st.log) && EachOnce(st)
  }

  lemma TakeLogs<S(!new), R>(e: Engine<S, R>, st: State<S>, s: V.Signal, levels: seq<real>, bars: seq<Candle>)
    requires Logged(st)
    ensures var st' := Take(e, st, s, levels, bars); Logged(st') && st.seen <= st'.seen && KeyOf(s) in st'.seen
  {
    hide WellLogged, EachOnce;
    if KeyOf(s) !in st.seen {
      var st' := Take(e, st, s, levels, bars);
      var d, open := e.decide(st.core, s, levels), OpenAt(bars, s.ts + BAR);
      BlockWellLogged(st.log, s, d, open);
      var block := [Signaled(s), Decided(d)];
      if d.Accept? {
        var last := if InBand(d.plan, open) then Filled(d.plan, open.value) else Missed(d.plan, open);
        assert st'.log == st.log + block + [last] == st.log + [Signaled(s), Decided(d), last];
      } else {
        assert st'.log == st.log + block;
      }
      assert Adds(st.log, st'.log, s);
      OneSignalMore(st, st', s);
    }
  }

  lemma {:induction false} TakeAllLogs<S(!new), R>(e: Engine<S, R>, st: State<S>, ss: seq<V.Signal>, levels: seq<real>,
                                         bars: seq<Candle>)
    requires Logged(st)
    ensures var st' := TakeAll(e, st, ss, levels, bars);
            Logged(st') && st.seen <= st'.seen && forall s :: s in ss ==> KeyOf(s) in st'.seen
    decreases |ss|
  {
    hide Take, Logged;
    if ss != [] {
      var n := |ss| - 1;
      TakeAllLogs(e, st, ss[..n], levels, bars);
      TakeLogs(e, TakeAll(e, st, ss[..n], levels, bars), ss[n], levels, bars);
      assert ss == ss[..n] + [ss[n]];
    }
  }

  lemma {:induction false} SymbolsLog<S(!new), R>(e: Engine<S, R>, d: Data, now: int, symbols: seq<string>, st: State<S>)
    requires Logged(st) && forall s :: s in symbols ==> s in d.of
    ensures var st' := Symbols(e, d, now, symbols, st);
            && Logged(st') && st.seen <= st'.seen
            && forall sym, s :: sym in symbols && s in e.detect(ContextOf(e, d, sym, now)) ==> KeyOf(s) in st'.seen
    decreases |symbols|
  {
    hide TakeAll, Logged, ContextOf;
    if symbols != [] {
      var n := |symbols| - 1;
      var front, sym := symbols[..n], symbols[n];
      assert symbols == front + [sym];
      SymbolsLog(e, d, now, front, st);
      var c := ContextOf(e, d, sym, now);
      TakeAllLogs(e, Symbols(e, d, now, front, st), e.detect(c), e.levels(c.view.daily, c.view.five, now), d.of[sym].bars);
    }
  }

  lemma CycleLogs<S(!new), R>(e: Engine<S, R>, d: Data, now: int, st: State<S>)
    requires Logged(st) && forall s :: s in d.symbols ==> s in d.of
    ensures var st' := Cycle(e, d, now, st);
            && Logged(st') && st.seen <= st'.seen
            && forall sym, s :: sym in d.symbols && s in e.detect(ContextOf(e, d, sym, now)) ==> KeyOf(s) in st'.seen
  {
    hide Symbols, ContextOf, Views, LastBars, WellLogged;
    var managed := st.(core := e.manage(e.feed(st.core, LastBars(d, now)), Views(d, now, e.sessions), now));
    SymbolsLog(e, d, now, d.symbols, managed);
  }

  lemma EachOnceIs<S(!new)>(st: State<S>)
    requires Logged(st)
    ensures WellLogged(st.log)
    ensures forall i, j :: 0 <= i < j < |st.log| && st.log[i].Signaled? && st.log[j].Signaled? ==>
              KeyOf(st.log[i].signal) != KeyOf(st.log[j].signal)
    ensures forall key :: key in st.seen ==>
              exists i :: 0 <= i < |st.log| && st.log[i].Signaled? && KeyOf(st.log[i].signal) == key
  {
  }

  /** Over a whole day, whatever the parts of the engine do: every signal any of its cycles detected is decided, none is decided
      twice, and every accepted plan is filled inside its band or missed outside it, once. */
  lemma {:induction false} EverySignalOnce<S(!new), R>(e: Engine<S, R>, d: Data, times: seq<int>, core: S)
    requires forall s :: s in d.symbols ==> s in d.of
    ensures var st := RunDay(e, d, times, State(core, {}, []));
            && WellLogged(st.log)
            && (forall i, j :: 0 <= i < j < |st.log| && st.log[i].Signaled? && st.log[j].Signaled? ==>
                  KeyOf(st.log[i].signal) != KeyOf(st.log[j].signal))
            && (forall k, sym, s :: 0 <= k < |times| && sym in d.symbols && s in e.detect(ContextOf(e, d, sym, times[k])) ==>
                  KeyOf(s) in st.seen)
            && (forall key :: key in st.seen ==>
                  exists i :: 0 <= i < |st.log| && st.log[i].Signaled? && KeyOf(st.log[i].signal) == key)
            && Logged(st)
    decreases |times|
  {
    hide Cycle, ContextOf;
    if times != [] {
      var n := |times| - 1;
      EverySignalOnce(e, d, times[..n], core);
      hide Logged;
      CycleLogs(e, d, times[n], RunDay(e, d, times[..n], State(core, {}, [])));
      EachOnceIs(RunDay(e, d, times, State(core, {}, [])));
      assert forall k :: 0 <= k < n ==> times[..n][k] == times[k];
    }
  }
}
