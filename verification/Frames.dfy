/**
 The frames a cycle may look at (tradalgo/engine/cycle.py:36-51): closed five-minute bars of today and of the
 last sessions, and the fifteen-minute candles made of them.
 */
module Frames {
  import opened Common
  import opened CandleCaches

  const BAR_15: int := 900_000_000

  function Bin(c: Candle): int { c.ts - c.ts % BAR_15 }

  // ---------------------------------------------------------------- selections

  /** The bars that have closed. */
  function Closed(cs: seq<Candle>, now: int): seq<Candle> {
    if cs == [] then [] else (if cs[0].ts + BAR <= now then [cs[0]] else []) + Closed(cs[1..], now)
  }

  function OnDays(cs: seq<Candle>, days: set<int>): seq<Candle> {
    if cs == [] then [] else (if Day(cs[0]) in days then [cs[0]] else []) + OnDays(cs[1..], days)
  }

  function FromDay(cs: seq<Candle>, d: int): seq<Candle> {
    if cs == [] then [] else (if Day(cs[0]) >= d then [cs[0]] else []) + FromDay(cs[1..], d)
  }

  function InBin(cs: seq<Candle>, start: int): seq<Candle> {
    if cs == [] then [] else (if Bin(cs[0]) == start then [cs[0]] else []) + InBin(cs[1..], start)
  }

  /** A sublist: some members, in order. */
  ghost predicate Thinned(a: seq<Candle>, cs: seq<Candle>) {
    (forall c :: c in a ==> c in cs) && (Sorted(cs) ==> Sorted(a))
  }

  lemma ThinnedCons(head: seq<Candle>, a: seq<Candle>, cs: seq<Candle>)
    requires cs != [] && Thinned(a, cs[1..]) && (head == [] || head == [cs[0]])
    ensures Thinned(head + a, cs) && forall c :: c in head + a <==> c in head || c in a
  {
    assert cs == [cs[0]] + cs[1..];
    if Sorted(cs) {
      forall j | 0 <= j < |a| ensures cs[0].ts < a[j].ts {
        assert a[j] in cs[1..];
        var k :| 0 <= k < |cs[1..]| && cs[1..][k] == a[j];
        assert cs[0].ts < cs[k + 1].ts;
      }
    }
  }

  lemma NothingThinned()
    ensures Thinned([], [])
  {
  }

  lemma {:induction false} ClosedIs(cs: seq<Candle>, now: int)
    ensures Thinned(Closed(cs, now), cs) && forall c :: c in Closed(cs, now) <==> c in cs && c.ts + BAR <= now
  {
    hide Thinned;
    if cs == [] {
      NothingThinned();
    } else {
      ClosedIs(cs[1..], now);
      ThinnedCons(if cs[0].ts + BAR <= now then [cs[0]] else [], Closed(cs[1..], now), cs);
      assert cs == [cs[0]] + cs[1..];
    }
  }

  lemma {:induction false} OnDaysIs(cs: seq<Candle>, days: set<int>)
    ensures Thinned(OnDays(cs, days), cs) && forall c :: c in OnDays(cs, days) <==> c in cs && Day(c) in days
  {
    hide Thinned;
    if cs == [] {
      NothingThinned();
    } else {
      OnDaysIs(cs[1..], days);
      ThinnedCons(if Day(cs[0]) in days then [cs[0]] else [], OnDays(cs[1..], days), cs);
      assert cs == [cs[0]] + cs[1..];
    }
  }

  lemma {:induction false} FromDayIs(cs: seq<Candle>, d: int)
    ensures Thinned(FromDay(cs, d), cs) && forall c :: c in FromDay(cs, d) <==> c in cs && Day(c) >= d
  {
    hide Thinned;
    if cs == [] {
      NothingThinned();
    } else {
      FromDayIs(cs[1..], d);
      ThinnedCons(if Day(cs[0]) >= d then [cs[0]] else [], FromDay(cs[1..], d), cs);
      assert cs == [cs[0]] + cs[1..];
    }
  }

  lemma {:induction false} InBinIs(cs: seq<Candle>, start: int)
    ensures Thinned(InBin(cs, start), cs) && forall c :: c in InBin(cs, start) <==> c in cs && Bin(c) == start
  {
    hide Thinned, Bin;
    if cs == [] {
      NothingThinned();
    } else {
      InBinIs(cs[1..], start);
      ThinnedCons(if Bin(cs[0]) == start then [cs[0]] else [], InBin(cs[1..], start), cs);
      assert cs == [cs[0]] + cs[1..];
    }
  }

  // ---------------------------------------------------------------- the last sessions

  ghost predicate IsMax(days: set<int>, m: int) {
    m in days && forall d :: d in days ==> d <= m
  }

  lemma SomeDay(days: set<int>)
    ensures days == {} || exists d :: d in days
  {
    if !(exists d :: d in days) {
      assert days == {};
    }
  }

  lemma {:induction false} HasMax(days: set<int>)
    requires days != {}
    ensures exists m :: IsMax(days, m)
    decreases |days|
  {
    SomeDay(days);
    var d :| d in days;
    var rest := days - {d};
    assert days == rest + {d};
    if rest == {} {
      assert IsMax(days, d);
    } else {
      HasMax(rest);
      var m :| IsMax(rest, m);
      assert IsMax(days, if m > d then m else d);
    }
  }

  /** The `n` greatest days. */
  ghost function LastDays(days: set<int>, n: nat): set<int> {
    if n == 0 || days == {} then {} else
    HasMax(days);
    var m :| IsMax(days, m);
    {m} + LastDays(days - {m}, n - 1)
  }

  lemma MaxUnique(a: set<int>, b: set<int>, m: int, k: int)
    requires IsMax(a, m) && IsMax(b, k) && k in a && m in b
    ensures m == k
  {
  }

  lemma LastDaysStep(days: set<int>, n: nat, m: int)
    requires n > 0 && IsMax(days, m)
    ensures LastDays(days, n) == {m} + LastDays(days - {m}, n - 1)
  {
    var k :| IsMax(days, k) && LastDays(days, n) == {k} + LastDays(days - {k}, n - 1);
    MaxUnique(days, days, m, k);
  }

  /** The last days are at most `n`, the greatest ones, and all of the days unless there are more than `n`. */
  lemma {:induction false} LastDaysAre(days: set<int>, n: nat)
    ensures LastDays(days, n) <= days && |LastDays(days, n)| == if |days| < n then |days| else n
    ensures forall d, e :: d in LastDays(days, n) && e in days && e > d ==> e in LastDays(days, n)
    decreases n
  {
    if n > 0 && days != {} {
      HasMax(days);
      var m :| IsMax(days, m);
      LastDaysStep(days, n, m);
      LastDaysAre(days - {m}, n - 1);
      assert |days - {m}| == |days| - 1;
    }
  }

  /** Days before the first of them do not matter. */
  lemma {:induction false} LastDaysForget(days: set<int>, recent: set<int>, n: nat, d: int)
    requires recent == (set x | x in days && x >= d) && forall x :: x in LastDays(days, n) ==> x >= d
    ensures LastDays(recent, n) == LastDays(days, n)
    decreases n
  {
    if n > 0 && days != {} {
      HasMax(days);
      var m :| IsMax(days, m);
      LastDaysStep(days, n, m);
      assert m in LastDays(days, n) && m in recent;
      assert IsMax(recent, m);
      LastDaysStep(recent, n, m);
      assert recent - {m} == set x | x in days - {m} && x >= d;
      LastDaysForget(days - {m}, recent - {m}, n - 1, d);
    } else {
      assert days == {} ==> recent == {};
    }
  }

  // ---------------------------------------------------------------- the frames

  ghost function SessionsBefore(cs: seq<Candle>, today: int): set<int> {
    set c | c in cs && Day(c) < today :: Day(c)
  }

  ghost function Window(cs: seq<Candle>, now: int, sessions: nat): set<int> {
    LastDays(SessionsBefore(Closed(cs, now), now / DAY), sessions) + {now / DAY}
  }

  ghost function FiveMinutes(cs: seq<Candle>, now: int, sessions: nat): seq<Candle> {
    OnDays(Closed(cs, now), Window(cs, now, sessions))
  }

  function First(cs: seq<Candle>, start: int): nat {
    if cs == [] || Bin(cs[0]) != start then 0 else 1 + First(cs[1..], start)
  }

  function MaxHigh(cs: seq<Candle>): real
    requires cs != []
  {
    if |cs| == 1 then cs[0].high else MaxReal(cs[0].high, MaxHigh(cs[1..]))
  }

  function MinLow(cs: seq<Candle>): real
    requires cs != []
  {
    if |cs| == 1 then cs[0].low else MinReal(cs[0].low, MinLow(cs[1..]))
  }

  function Volume(cs: seq<Candle>): real {
    if cs == [] then 0.0 else cs[0].volume + Volume(cs[1..])
  }

  /** First open, greatest high, least low, last close, total volume. */
  function Aggregate(start: int, cs: seq<Candle>): Candle
    requires cs != []
  {
    Candle(start, cs[0].open, MaxHigh(cs), MinLow(cs), cs[|cs| - 1].close, Volume(cs))
  }

  lemma BinOrder(a: Candle, b: Candle)
    requires a.ts <= b.ts
    ensures Bin(a) <= Bin(b)
  {
  }

  lemma {:induction false} NoneInBin(cs: seq<Candle>, start: int)
    requires forall i :: 0 <= i < |cs| ==> Bin(cs[i]) > start
    ensures InBin(cs, start) == []
  {
    hide Bin;
    if cs != [] {
      NoneInBin(cs[1..], start);
    }
  }

  lemma {:induction false} FirstIs(cs: seq<Candle>, start: int)
    requires Sorted(cs) && forall i :: 0 <= i < |cs| ==> Bin(cs[i]) >= start
    ensures First(cs, start) <= |cs| && cs[..First(cs, start)] == InBin(cs, start)
    ensures forall i :: First(cs, start) <= i < |cs| ==> Bin(cs[i]) > start
  {
    if cs != [] {
      var rest := cs[1..];
      assert forall i :: 0 <= i < |rest| ==> rest[i] == cs[i + 1];
      if Bin(cs[0]) == start {
        FirstIs(rest, start);
        assert cs[..First(cs, start)] == [cs[0]] + rest[..First(rest, start)];
      } else {
        forall i | 0 <= i < |cs| ensures Bin(cs[i]) > start {
          if i > 0 {
            BinOrder(cs[0], cs[i]);
          }
        }
        NoneInBin(cs, start);
      }
    }
  }

  function Resampled(cs: seq<Candle>): seq<Candle>
    decreases |cs|
  {
    if cs == [] then [] else
    var n := First(cs, Bin(cs[0]));
    if n < 1 || n > |cs| then [] else [Aggregate(Bin(cs[0]), cs[..n])] + Resampled(cs[n..])
  }

  /** The fifteen-minute candles whose time is over. */
  function Over(cs: seq<Candle>, now: int): seq<Candle> {
    if cs == [] then [] else (if cs[0].ts + BAR_15 <= now then [cs[0]] else []) + Over(cs[1..], now)
  }

  ghost function FifteenMinutes(cs: seq<Candle>, now: int, sessions: nat): seq<Candle> {
    Over(Resampled(FiveMinutes(cs, now, sessions)), now)
  }

  lemma {:induction false} OverIs(cs: seq<Candle>, now: int)
    ensures forall c :: c in Over(cs, now) <==> c in cs && c.ts + BAR_15 <= now
  {
    if cs != [] {
      OverIs(cs[1..], now);
      assert cs == [cs[0]] + cs[1..];
    }
  }

  lemma AggregateTs(start: int, cs: seq<Candle>)
    requires cs != []
    ensures Aggregate(start, cs).ts == start
  {
  }

  lemma {:induction false} OtherBin(cs: seq<Candle>, s: int, t: int)
    requires s != t && forall c :: c in cs ==> Bin(c) == s
    ensures InBin(cs, t) == []
  {
    hide Bin;
    if cs != [] {
      assert cs[0] in cs;
      OtherBin(cs[1..], s, t);
    }
  }

  lemma {:induction false} InBinAppend(a: seq<Candle>, b: seq<Candle>, t: int)
    ensures InBin(a + b, t) == InBin(a, t) + InBin(b, t)
  {
    hide Bin;
    if a == [] {
      assert a + b == b;
    } else {
      var rest := a[1..];
      assert (a + b)[1..] == rest + b && (a + b)[0] == a[0];
      InBinAppend(rest, b, t);
      var head := if Bin(a[0]) == t then [a[0]] else [];
      hide InBin;
      assert head + (InBin(rest, t) + InBin(b, t)) == head + InBin(rest, t) + InBin(b, t);
    }
  }

  lemma {:induction false} BinSplits(cs: seq<Candle>, n: nat, s: int, t: int)
    requires n <= |cs| && cs[..n] == InBin(cs, s) && t != s
    ensures InBin(cs, t) == InBin(cs[n..], t)
  {
    hide Bin;
    InBinAppend(cs[..n], cs[n..], t);
    assert cs == cs[..n] + cs[n..];
    InBinIs(cs, s);
    OtherBin(cs[..n], s, t);
  }

  /** A resampled candle is the aggregate of all the bars of its quarter hour, and there is one for every bar. */
  lemma {:induction false} ResampledIs(cs: seq<Candle>, k: Candle)
    requires Sorted(cs)
    ensures k in Resampled(cs) <==> InBin(cs, k.ts) != [] && k == Aggregate(k.ts, InBin(cs, k.ts))
    decreases |cs|
  {
    if cs != [] {
      var s := Bin(cs[0]);
      forall i | 0 <= i < |cs| ensures Bin(cs[i]) >= s {
        if i > 0 {
          BinOrder(cs[0], cs[i]);
        }
      }
      hide Bin, Aggregate;
      FirstIs(cs, s);
      var n := First(cs, s);
      assert n >= 1;
      var rest := cs[n..];
      ResampledIs(rest, k);
      if k.ts != s {
        BinSplits(cs, n, s, k.ts);
        assert InBin(cs, k.ts) == InBin(rest, k.ts);
        AggregateTs(s, cs[..n]);
      } else {
        NoneInBin(rest, s);
      }
    }
  }

  // ---------------------------------------------------------------- no lookahead

  /** Two histories with the same closed bars. */
  ghost predicate AgreeClosed(a: seq<Candle>, b: seq<Candle>, now: int) {
    forall c: Candle :: c.ts + BAR <= now ==> (c in a <==> c in b)
  }

  /** Bars that have not closed do not reach any frame. */
  lemma FramesNeverLookAhead(a: seq<Candle>, b: seq<Candle>, now: int, sessions: nat)
    requires Sorted(a) && Sorted(b) && AgreeClosed(a, b, now)
    ensures Closed(a, now) == Closed(b, now)
    ensures FiveMinutes(a, now, sessions) == FiveMinutes(b, now, sessions)
    ensures FifteenMinutes(a, now, sessions) == FifteenMinutes(b, now, sessions)
  {
    ClosedIs(a, now);
    ClosedIs(b, now);
    SortedUnique(Closed(a, now), Closed(b, now));
  }

  lemma FiveMinutesIs(cs: seq<Candle>, now: int, sessions: nat, c: Candle)
    ensures c in FiveMinutes(cs, now, sessions) <==> c in cs && c.ts + BAR <= now && Day(c) in Window(cs, now, sessions)
    ensures Sorted(cs) ==> Sorted(FiveMinutes(cs, now, sessions))
  {
    ClosedIs(cs, now);
    OnDaysIs(Closed(cs, now), Window(cs, now, sessions));
  }

  lemma SessionsFrom(cs: seq<Candle>, now: int, d: int)
    ensures SessionsBefore(Closed(FromDay(cs, d), now), now / DAY)
         == set x | x in SessionsBefore(Closed(cs, now), now / DAY) && x >= d
  {
    hide Day;
    var today := now / DAY;
    var a, b := Closed(cs, now), Closed(FromDay(cs, d), now);
    FromDayIs(cs, d);
    ClosedIs(cs, now);
    ClosedIs(FromDay(cs, d), now);
    var all, few := SessionsBefore(a, today), SessionsBefore(b, today);
    forall x ensures x in few <==> x in all && x >= d {
      if x in all && x >= d {
        var c :| c in a && Day(c) < today && Day(c) == x;
        assert c in b;
      }
    }
    assert few == set x | x in all && x >= d;
  }

  /** Sessions older than the window do not reach any frame. */
  lemma FramesForgetOlderSessions(cs: seq<Candle>, now: int, sessions: nat, d: int)
    requires Sorted(cs) && forall x :: x in Window(cs, now, sessions) ==> x >= d
    ensures FiveMinutes(FromDay(cs, d), now, sessions) == FiveMinutes(cs, now, sessions)
    ensures FifteenMinutes(FromDay(cs, d), now, sessions) == FifteenMinutes(cs, now, sessions)
  {
    var recent := FromDay(cs, d);
    SessionsFrom(cs, now, d);
    forall x | x in LastDays(SessionsBefore(Closed(cs, now), now / DAY), sessions) ensures x >= d {
      assert x in Window(cs, now, sessions);
    }
    hide SessionsBefore, FromDay, LastDays, Day;
    LastDaysForget(SessionsBefore(Closed(cs, now), now / DAY), SessionsBefore(Closed(recent, now), now / DAY), sessions, d);
    assert Window(recent, now, sessions) == Window(cs, now, sessions);
    hide Window, FiveMinutes, Sorted;
    FromDayIs(cs, d);
    assert Sorted(recent);
    FiveMinutesIs(cs, now, sessions, Candle(0, 0.0, 0.0, 0.0, 0.0, 0.0));
    FiveMinutesIs(recent, now, sessions, Candle(0, 0.0, 0.0, 0.0, 0.0, 0.0));
    forall c ensures c in FiveMinutes(recent, now, sessions) <==> c in FiveMinutes(cs, now, sessions) {
      FiveMinutesIs(cs, now, sessions, c);
      FiveMinutesIs(recent, now, sessions, c);
    }
    SortedUnique(FiveMinutes(recent, now, sessions), FiveMinutes(cs, now, sessions));
  }

  ghost predicate OnGrid(cs: seq<Candle>) {
    forall c :: c in cs ==> c.ts % BAR == 0
  }

  lemma QuarterOfDay(t: int, d: int)
    requires d == t * BAR_15 / DAY
    ensures d * DAY <= t * BAR_15 && t * BAR_15 + BAR_15 <= (d + 1) * DAY
  {
    assert d * 96 <= t < d * 96 + 96;
  }

  lemma QuarterHour(c: Candle, start: int, now: int)
    requires c.ts % BAR == 0 && Bin(c) == start && start + BAR_15 <= now
    ensures c.ts + BAR <= now && Day(c) == start / DAY && Day(c) <= now / DAY
  {
    var q := c.ts / BAR;
    assert c.ts == q * BAR;
    var t := c.ts / BAR_15;
    assert start == t * BAR_15 && 3 * t <= q < 3 * t + 3;
    var d := start / DAY;
    assert DAY == 96 * BAR_15;
    QuarterOfDay(t, d);
  }

  /** A bar of an earlier day on the grid has closed by today. */
  lemma EarlierDayClosed(c: Candle, now: int)
    requires Day(c) < now / DAY && c.ts % BAR == 0
    ensures c.ts + BAR <= now
  {
    var bars, days := c.ts / BAR, Day(c) + 1;
    assert c.ts == bars * BAR && days * DAY == 288 * days * BAR;
    assert c.ts < days * DAY <= now;
    assert bars + 1 <= 288 * days;
  }

  lemma WindowGrows(cs: seq<Candle>, now: int, later: int, sessions: nat)
    requires now <= later && now / DAY == later / DAY && OnGrid(cs)
    ensures Window(cs, now, sessions) == Window(cs, later, sessions)
  {
    ClosedIs(cs, now);
    ClosedIs(cs, later);
    var a, b := SessionsBefore(Closed(cs, now), now / DAY), SessionsBefore(Closed(cs, later), now / DAY);
    forall d ensures d in a <==> d in b {
      if d in a {
        var c :| c in Closed(cs, now) && Day(c) < now / DAY && Day(c) == d;
        assert c in Closed(cs, later);
      }
      if d in b {
        var c :| c in Closed(cs, later) && Day(c) < now / DAY && Day(c) == d;
        EarlierDayClosed(c, now);
        assert c in Closed(cs, now);
      }
    }
    assert a == b;
  }

  lemma KeptAre(cs: seq<Candle>, now: int, sessions: nat, k: Candle)
    requires Sorted(cs)
    ensures var a := FiveMinutes(cs, now, sessions);
            k in FifteenMinutes(cs, now, sessions)
            <==> k.ts + BAR_15 <= now && InBin(a, k.ts) != [] && k == Aggregate(k.ts, InBin(a, k.ts))
  {
    var a := FiveMinutes(cs, now, sessions);
    FiveMinutesIs(cs, now, sessions, k);
    hide FiveMinutes, Aggregate;
    OverIs(Resampled(a), now);
    ResampledIs(a, k);
  }

  /** A kept fifteen-minute candle is made of closed bars only, of all the bars its quarter hour will ever have on that
      grid, so it is the same candle at every later cycle of the day. */
  lemma KeptCandleIsFinal(cs: seq<Candle>, now: int, later: int, sessions: nat, k: Candle)
    requires Sorted(cs) && OnGrid(cs) && now <= later && now / DAY == later / DAY
    requires k in FifteenMinutes(cs, now, sessions)
    ensures forall c :: c in cs && Bin(c) == k.ts ==> c.ts + BAR <= now
    ensures InBin(cs, k.ts) != [] && k == Aggregate(k.ts, InBin(cs, k.ts))
    ensures k in FifteenMinutes(cs, later, sessions)
  {
    var a, b := FiveMinutes(cs, now, sessions), FiveMinutes(cs, later, sessions);
    hide FifteenMinutes, FiveMinutes, Bin, Day, Window, Aggregate;
    KeptAre(cs, now, sessions, k);
    KeptAre(cs, later, sessions, k);
    WindowGrows(cs, now, later, sessions);
    var first := InBin(a, k.ts)[0];
    InBinIs(a, k.ts);
    InBinIs(b, k.ts);
    InBinIs(cs, k.ts);
    assert first in InBin(a, k.ts);
    FiveMinutesIs(cs, now, sessions, first);
    forall c ensures c in InBin(cs, k.ts) <==> c in InBin(a, k.ts) ensures c in InBin(cs, k.ts) <==> c in InBin(b, k.ts)
      ensures c in cs && Bin(c) == k.ts ==> c.ts + BAR <= now
    {
      FiveMinutesIs(cs, now, sessions, c);
      FiveMinutesIs(cs, later, sessions, c);
      if c in cs && Bin(c) == k.ts {
        QuarterHour(c, k.ts, now);
        QuarterHour(first, k.ts, now);
      }
    }
    FiveMinutesIs(cs, now, sessions, k);
    FiveMinutesIs(cs, later, sessions, k);
    SortedUnique(InBin(cs, k.ts), InBin(a, k.ts));
    SortedUnique(InBin(cs, k.ts), InBin(b, k.ts));
  }

  // ---------------------------------------------------------------- which bars, in so many words

  lemma {:induction false} LastDaysRank(days: set<int>, n: nat, d: int)
    ensures d in LastDays(days, n) <==> d in days && |set x | x in days && x > d| < n
    decreases n
  {
    var above := set x | x in days && x > d;
    if n == 0 || days == {} {
      assert LastDays(days, n) == {};
    } else {
      HasMax(days);
      var m :| IsMax(days, m);
      LastDaysStep(days, n, m);
      LastDaysRank(days - {m}, n - 1, d);
      var below := set x | x in days - {m} && x > d;
      if d < m {
        assert above == below + {m};
      } else {
        assert above == {};
      }
    }
  }

  /** The earlier sessions that closed a bar. */
  ghost function EarlierSessions(cs: seq<Candle>, now: int): set<int> {
    set c | c in cs && c.ts + 300_000_000 <= now && c.ts / DAY < now / DAY :: c.ts / DAY
  }

  /** The frame of a cycle: in order, exactly the bars that have closed, of today or of a session with fewer than `sessions`
      others between it and today. */
  lemma FrameIs(cs: seq<Candle>, now: int, sessions: nat, c: Candle)
    ensures Sorted(cs) ==> Sorted(FiveMinutes(cs, now, sessions))
    ensures c in FiveMinutes(cs, now, sessions)
       <==> && c in cs && c.ts + 300_000_000 <= now
            && (c.ts / DAY == now / DAY
                || (c.ts / DAY < now / DAY && |set x | x in EarlierSessions(cs, now) && x > c.ts / DAY| < sessions))
  {
    FiveMinutesIs(cs, now, sessions, c);
    ClosedIs(cs, now);
    var days := SessionsBefore(Closed(cs, now), now / DAY);
    assert days == EarlierSessions(cs, now) by {
      assert forall x :: x in days <==> x in EarlierSessions(cs, now);
    }
    hide FiveMinutes, Closed, SessionsBefore, LastDays;
    LastDaysRank(days, sessions, c.ts / DAY);
    if c in cs && c.ts + BAR <= now && c.ts / DAY < now / DAY {
      assert c.ts / DAY in EarlierSessions(cs, now);
    }
  }

  // ---------------------------------------------------------------- a quarter hour's candle, in so many words

  /** The bars that begin in the quarter hour from `start`. */
  ghost predicate InQuarter(cs: seq<Candle>, start: int, c: Candle) {
    c in cs && start <= c.ts < start + 900_000_000
  }

  /** The volume of the bar that begins at an instant, nothing without one. */
  function VolumeAt(cs: seq<Candle>, ts: int): real {
    if cs == [] then 0.0 else if cs[0].ts == ts then cs[0].volume else VolumeAt(cs[1..], ts)
  }

  /** It opens with its first bar, closes with its last, spans their highs and lows, and adds up their volume. */
  ghost predicate IsQuarter(cs: seq<Candle>, k: Candle) {
    && (exists c :: InQuarter(cs, k.ts, c) && k.open == c.open && forall x :: InQuarter(cs, k.ts, x) ==> c.ts <= x.ts)
    && (exists c :: InQuarter(cs, k.ts, c) && k.close == c.close && forall x :: InQuarter(cs, k.ts, x) ==> x.ts <= c.ts)
    && (exists c :: InQuarter(cs, k.ts, c) && k.high == c.high) && (forall x :: InQuarter(cs, k.ts, x) ==> x.high <= k.high)
    && (exists c :: InQuarter(cs, k.ts, c) && k.low == c.low) && (forall x :: InQuarter(cs, k.ts, x) ==> k.low <= x.low)
    && k.volume == VolumeAt(cs, k.ts) + VolumeAt(cs, k.ts + 300_000_000) + VolumeAt(cs, k.ts + 600_000_000)
  }

  lemma {:induction false} HighIs(cs: seq<Candle>)
    requires cs != []
    ensures (exists c :: c in cs && MaxHigh(cs) == c.high) && (forall c :: c in cs ==> c.high <= MaxHigh(cs))
  {
    assert cs == [cs[0]] + cs[1..] && cs[0] in cs;
    if |cs| > 1 {
      HighIs(cs[1..]);
      var c :| c in cs[1..] && MaxHigh(cs[1..]) == c.high;
      assert c in cs;
    }
  }

  lemma {:induction false} LowIs(cs: seq<Candle>)
    requires cs != []
    ensures (exists c :: c in cs && MinLow(cs) == c.low) && (forall c :: c in cs ==> MinLow(cs) <= c.low)
  {
    assert cs == [cs[0]] + cs[1..] && cs[0] in cs;
    if |cs| > 1 {
      LowIs(cs[1..]);
      var c :| c in cs[1..] && MinLow(cs[1..]) == c.low;
      assert c in cs;
    }
  }

  lemma {:induction false} VolumeAtIs(cs: seq<Candle>, ts: int)
    requires Sorted(cs)
    ensures forall c :: c in cs && c.ts == ts ==> VolumeAt(cs, ts) == c.volume
    ensures (forall c :: c in cs ==> c.ts != ts) ==> VolumeAt(cs, ts) == 0.0
  {
    if cs != [] {
      VolumeAtIs(cs[1..], ts);
      assert cs == [cs[0]] + cs[1..] && cs[0] in cs;
      forall c | c in cs && c.ts == ts ensures VolumeAt(cs, ts) == c.volume {
        if cs[0].ts == ts {
          SameTsSame(cs, cs[0], c);
        }
      }
    }
  }

  lemma NoVolumeBefore(cs: seq<Candle>)
    requires Sorted(cs) && cs != []
    ensures VolumeAt(cs[1..], cs[0].ts) == 0.0
  {
    var rest := cs[1..];
    VolumeAtIs(rest, cs[0].ts);
    forall c | c in rest ensures c.ts != cs[0].ts {
      var i :| 0 <= i < |rest| && rest[i] == c;
      assert cs[0].ts < cs[i + 1].ts;
    }
  }

  /** Bars at some of three instants: their volumes are those of the instants. */
  lemma {:induction false} VolumeOfThree(cs: seq<Candle>, start: int)
    requires Sorted(cs)
    requires forall i :: 0 <= i < |cs| ==> cs[i].ts == start || cs[i].ts == start + BAR || cs[i].ts == start + 2 * BAR
    ensures Volume(cs) == VolumeAt(cs, start) + VolumeAt(cs, start + BAR) + VolumeAt(cs, start + 2 * BAR)
  {
    if cs != [] {
      VolumeOfThree(cs[1..], start);
      NoVolumeBefore(cs);
    }
  }

  lemma SameVolumeAt(a: seq<Candle>, b: seq<Candle>, ts: int)
    requires Sorted(a) && Sorted(b) && forall c: Candle :: c.ts == ts ==> (c in a <==> c in b)
    ensures VolumeAt(a, ts) == VolumeAt(b, ts)
  {
    VolumeAtIs(a, ts);
    VolumeAtIs(b, ts);
    if c :| c in a && c.ts == ts {
      assert c in b;
    } else if c :| c in b && c.ts == ts {
      assert c in a;
    }
  }

  lemma BinMeans(c: Candle, start: int)
    requires start % BAR_15 == 0
    ensures Bin(c) == start <==> start <= c.ts < start + BAR_15
    ensures c.ts % BAR == 0 && Bin(c) == start ==> c.ts == start || c.ts == start + BAR || c.ts == start + 2 * BAR
  {
    var q := start / BAR_15;
    assert start == q * BAR_15;
    assert Bin(c) == c.ts / BAR_15 * BAR_15;
    var bars := c.ts / BAR;
    assert c.ts % BAR == 0 ==> c.ts == bars * BAR;
    assert q * BAR_15 == 3 * q * BAR;
  }

  lemma BinOnGrid(c: Candle)
    ensures Bin(c) % BAR_15 == 0
  {
  }

  lemma QuarterMembers(cs: seq<Candle>, start: int, c: Candle)
    requires OnGrid(cs) && start % BAR_15 == 0
    ensures c in InBin(cs, start) <==> InQuarter(cs, start, c)
    ensures c in InBin(cs, start) ==> c.ts == start || c.ts == start + BAR || c.ts == start + 2 * BAR
  {
    InBinIs(cs, start);
    BinMeans(c, start);
    hide Bin, InBin;
  }

  lemma QuarterVolume(cs: seq<Candle>, start: int)
    requires Sorted(cs) && OnGrid(cs) && start % BAR_15 == 0
    ensures Volume(InBin(cs, start)) == VolumeAt(cs, start) + VolumeAt(cs, start + BAR) + VolumeAt(cs, start + 2 * BAR)
  {
    var q := InBin(cs, start);
    InBinIs(cs, start);
    assert Sorted(q);
    hide InBin, Volume, VolumeAt, Sorted, Bin;
    forall i | 0 <= i < |q| ensures q[i].ts == start || q[i].ts == start + BAR || q[i].ts == start + 2 * BAR {
      assert q[i] in q;
      QuarterMembers(cs, start, q[i]);
    }
    VolumeOfThree(q, start);
    forall c: Candle ensures c.ts == start || c.ts == start + BAR || c.ts == start + 2 * BAR ==> (c in q <==> c in cs) {
      QuarterMembers(cs, start, c);
    }
    SameVolumeAt(q, cs, start);
    SameVolumeAt(q, cs, start + BAR);
    SameVolumeAt(q, cs, start + 2 * BAR);
  }

  lemma EndsOf(q: seq<Candle>, x: Candle)
    requires Sorted(q) && x in q
    ensures q[0] in q && q[|q| - 1] in q && q[0].ts <= x.ts <= q[|q| - 1].ts
  {
    var i :| 0 <= i < |q| && q[i] == x;
  }

  /** The aggregate of a quarter hour's bars, of a sorted list on the grid. */
  lemma AggregateIsQuarter(cs: seq<Candle>, k: Candle)
    requires Sorted(cs) && OnGrid(cs) && k.ts % BAR_15 == 0
    requires InBin(cs, k.ts) != [] && k == Aggregate(k.ts, InBin(cs, k.ts))
    ensures IsQuarter(cs, k)
  {
    var q := InBin(cs, k.ts);
    InBinIs(cs, k.ts);
    assert Sorted(q);
    hide InBin, Bin, InQuarter, MaxHigh, MinLow, Volume, VolumeAt, OnGrid, Sorted;
    forall c ensures c in q <==> InQuarter(cs, k.ts, c) {
      QuarterMembers(cs, k.ts, c);
    }
    HighIs(q);
    LowIs(q);
    QuarterVolume(cs, k.ts);
    EndsOf(q, q[0]);
    forall x | x in q ensures q[0].ts <= x.ts <= q[|q| - 1].ts {
      EndsOf(q, x);
    }
    assert InQuarter(cs, k.ts, q[0]) && InQuarter(cs, k.ts, q[|q| - 1]);
  }

  /** Every fifteen-minute candle a cycle sees is over and is its quarter hour's: first open, greatest high, least low, last
      close, total volume of all the bars there; and every quarter hour that is over and has a bar in the frame has one. */
  lemma QuartersAre(cs: seq<Candle>, now: int, sessions: nat, k: Candle, c: Candle)
    requires Sorted(cs) && OnGrid(cs)
    ensures k in FifteenMinutes(cs, now, sessions) ==>
              k.ts % 900_000_000 == 0 && k.ts + 900_000_000 <= now && IsQuarter(cs, k)
    ensures c in FiveMinutes(cs, now, sessions) && c.ts - c.ts % 900_000_000 + 900_000_000 <= now ==>
              exists q :: q in FifteenMinutes(cs, now, sessions) && q.ts == c.ts - c.ts % 900_000_000
  {
    var a := FiveMinutes(cs, now, sessions);
    if k in FifteenMinutes(cs, now, sessions) {
      KeptAre(cs, now, sessions, k);
      KeptCandleIsFinal(cs, now, now, sessions, k);
      InBinIs(a, k.ts);
      assert InBin(a, k.ts)[0] in InBin(a, k.ts);
      BinOnGrid(InBin(a, k.ts)[0]);
      AggregateIsQuarter(cs, k);
    }
    if c in a && Bin(c) + BAR_15 <= now {
      InBinIs(a, Bin(c));
      assert c in InBin(a, Bin(c));
      FrameIs(cs, now, sessions, c);
      var q := Aggregate(Bin(c), InBin(a, Bin(c)));
      KeptAre(cs, now, sessions, q);
    }
  }
}
