/**
 The candle cache of one symbol and resolution (tradalgo/data/candle_cache.py) and the normal form of its
 frames (tradalgo/data/base.py).  A source is the strictly sorted list of the candles a provider has; it may
 grow between requests, but only from its last stored day on.
 */
module CandleCaches {
  import opened Common

  datatype Candle = Candle(ts: int, open: real, high: real, low: real, close: real, volume: real)

  function Day(c: Candle): int { c.ts / DAY }

  // ---------------------------------------------------------------- normal form

  /** Strictly ascending in time: sorted and free of duplicates. */
  ghost predicate Sorted(s: seq<Candle>) {
    forall i, j :: 0 <= i < j < |s| ==> s[i].ts < s[j].ts
  }

  predicate HasTs(s: seq<Candle>, ts: int) {
    exists i :: 0 <= i < |s| && s[i].ts == ts
  }

  function KeepLast(s: seq<Candle>): seq<Candle> {
    if s == [] then [] else (if HasTs(s[1..], s[0].ts) then [] else [s[0]]) + KeepLast(s[1..])
  }

  function Insert(c: Candle, s: seq<Candle>): seq<Candle> {
    if s == [] || c.ts <= s[0].ts then [c] + s else [s[0]] + Insert(c, s[1..])
  }

  function Sort(s: seq<Candle>): seq<Candle> {
    if s == [] then [] else Insert(s[0], Sort(s[1..]))
  }

  /** Duplicates keep their last row; then by time. */
  function Normalize(s: seq<Candle>): seq<Candle> { Sort(KeepLast(s)) }

  /** The row that wins at its instant. */
  ghost predicate Wins(s: seq<Candle>, c: Candle) {
    exists i :: 0 <= i < |s| && s[i] == c && forall j :: i < j < |s| ==> s[j].ts != c.ts
  }

  lemma WinsCons(s: seq<Candle>, c: Candle)
    requires s != []
    ensures Wins(s, c) <==> Wins(s[1..], c) || (c == s[0] && !HasTs(s[1..], c.ts))
  {
    var rest := s[1..];
    if Wins(rest, c) {
      var i :| 0 <= i < |rest| && rest[i] == c && forall j :: i < j < |rest| ==> rest[j].ts != c.ts;
      assert s[i + 1] == c;
      forall j | i + 1 < j < |s| ensures s[j].ts != c.ts {
        assert s[j] == rest[j - 1];
      }
    }
    if Wins(s, c) {
      var i :| 0 <= i < |s| && s[i] == c && forall j :: i < j < |s| ==> s[j].ts != c.ts;
      if i > 0 {
        assert rest[i - 1] == c;
        forall j | i - 1 < j < |rest| ensures rest[j].ts != c.ts {
          assert rest[j] == s[j + 1];
        }
      } else {
        forall j | 0 <= j < |rest| ensures rest[j].ts != c.ts {
          assert rest[j] == s[j + 1];
        }
      }
    }
    if c == s[0] && !HasTs(rest, c.ts) {
      forall j | 0 < j < |s| ensures s[j].ts != c.ts {
        assert s[j] == rest[j - 1];
      }
    }
  }

  lemma {:induction false} KeepLastIs(s: seq<Candle>)
    ensures forall c :: c in KeepLast(s) <==> Wins(s, c)
    ensures forall i, j :: 0 <= i < j < |KeepLast(s)| ==> KeepLast(s)[i].ts != KeepLast(s)[j].ts
  {
    if s != [] {
      var rest := s[1..];
      KeepLastIs(rest);
      forall c ensures c in KeepLast(s) <==> Wins(s, c) {
        WinsCons(s, c);
      }
      if !HasTs(rest, s[0].ts) {
        forall j | 0 <= j < |KeepLast(rest)| ensures KeepLast(rest)[j].ts != s[0].ts {
          assert KeepLast(rest)[j] in KeepLast(rest);
          assert Wins(rest, KeepLast(rest)[j]);
        }
      }
    }
  }

  lemma {:induction false} InsertIs(c: Candle, s: seq<Candle>)
    requires Sorted(s) && forall x :: x in s ==> x.ts != c.ts
    ensures Sorted(Insert(c, s)) && forall x :: x in Insert(c, s) <==> x == c || x in s
  {
    if s != [] && c.ts > s[0].ts {
      var rest := s[1..];
      assert forall x :: x in s <==> x == s[0] || x in rest by {
        assert s == [s[0]] + rest;
      }
      InsertIs(c, rest);
      var r := Insert(c, rest);
      forall j | 0 <= j < |r| ensures s[0].ts < r[j].ts {
        assert r[j] in r;
        if r[j] in rest {
          var k :| 0 <= k < |rest| && rest[k] == r[j];
          assert s[0].ts < s[k + 1].ts;
        }
      }
    } else if s != [] {
      assert c.ts < s[0].ts by {
        assert s[0] in s;
      }
      forall j | 0 <= j < |s| ensures c.ts < s[j].ts {
        if j > 0 {
          assert s[0].ts < s[j].ts;
        }
      }
    }
  }

  lemma {:induction false} SortIs(s: seq<Candle>)
    requires forall i, j :: 0 <= i < j < |s| ==> s[i].ts != s[j].ts
    ensures Sorted(Sort(s)) && forall x :: x in Sort(s) <==> x in s
  {
    if s != [] {
      var rest := s[1..];
      SortIs(rest);
      forall x | x in Sort(rest) ensures x.ts != s[0].ts {
        var k :| 0 <= k < |rest| && rest[k] == x;
        assert s[0].ts != s[k + 1].ts;
      }
      InsertIs(s[0], Sort(rest));
      assert s == [s[0]] + rest;
    }
  }

  /** The normal form is strictly sorted and holds, of each instant, the last row. */
  lemma NormalizeIs(s: seq<Candle>)
    ensures Sorted(Normalize(s)) && forall c :: c in Normalize(s) <==> Wins(s, c)
  {
    KeepLastIs(s);
    SortIs(KeepLast(s));
  }

  lemma SomeMember(s: seq<Candle>)
    ensures s == [] || exists c :: c in s
  {
    if s != [] {
      assert s[0] in s;
    }
  }

  lemma HeadIsLeast(a: seq<Candle>, b: seq<Candle>)
    requires Sorted(a) && Sorted(b) && a != [] && b != [] && forall x :: x in a <==> x in b
    ensures a[0].ts <= b[0].ts && (a[0].ts == b[0].ts ==> a[0] == b[0])
  {
    assert b[0] in a;
    var i :| 0 <= i < |a| && a[i] == b[0];
    if i > 0 {
      assert a[0].ts < a[i].ts;
    }
  }

  lemma TailMembers(a: seq<Candle>, x: Candle)
    requires Sorted(a) && a != []
    ensures x in a[1..] <==> x in a && x != a[0]
  {
    assert a == [a[0]] + a[1..];
    if x in a[1..] {
      var k :| 0 <= k < |a[1..]| && a[1..][k] == x;
      assert a[0].ts < a[k + 1].ts;
    }
  }

  /** Strictly sorted lists with the same members are equal. */
  lemma {:induction false} SortedUnique(a: seq<Candle>, b: seq<Candle>)
    requires Sorted(a) && Sorted(b) && forall x :: x in a <==> x in b
    ensures a == b
  {
    if a == [] {
      SomeMember(b);
    } else {
      assert a[0] in b && b != [];
      HeadIsLeast(a, b);
      HeadIsLeast(b, a);
      assert a[0] == b[0];
      var ra, rb := a[1..], b[1..];
      forall x ensures x in ra <==> x in rb {
        TailMembers(a, x);
        TailMembers(b, x);
      }
      SortedUnique(ra, rb);
      assert a == [a[0]] + ra && b == [b[0]] + rb;
    }
  }

  // ---------------------------------------------------------------- ranges of days

  function Slice(s: seq<Candle>, a: int, b: int): seq<Candle> {
    if s == [] then [] else (if a <= Day(s[0]) <= b then [s[0]] else []) + Slice(s[1..], a, b)
  }

  lemma {:induction false} SliceIs(s: seq<Candle>, a: int, b: int)
    ensures forall c :: c in Slice(s, a, b) <==> c in s && a <= Day(c) <= b
    ensures Sorted(s) ==> Sorted(Slice(s, a, b))
  {
    if s != [] {
      SliceIs(s[1..], a, b);
      assert s == [s[0]] + s[1..];
      if Sorted(s) {
        var r := Slice(s[1..], a, b);
        forall j | 0 <= j < |r| ensures s[0].ts < r[j].ts {
          assert r[j] in s[1..];
          var k :| 0 <= k < |s[1..]| && s[1..][k] == r[j];
          assert s[0].ts < s[k + 1].ts;
        }
      }
    }
  }

  lemma DaysOrdered(s: seq<Candle>, c: Candle)
    requires Sorted(s) && c in s
    ensures Day(s[0]) <= Day(c) <= Day(s[|s| - 1])
  {
    var i :| 0 <= i < |s| && s[i] == c;
    assert s[0].ts <= c.ts <= s[|s| - 1].ts;
  }

  // ---------------------------------------------------------------- the cache against its source

  /** No hole: from the first stored day to the day before the last, exactly the source's candles; on the last day only
      instants the source has, possibly with older rows. */
  ghost predicate Follows(stored: seq<Candle>, src: seq<Candle>) {
    && Sorted(stored)
    && (stored != [] ==>
          var first, last := Day(stored[0]), Day(stored[|stored| - 1]);
          && (forall c :: first <= Day(c) < last ==> (c in stored <==> c in src))
          && (forall c :: c in stored && Day(c) == last ==> HasTs(src, c.ts)))
  }

  /** The last stored day is complete too. */
  ghost predicate Complete(stored: seq<Candle>, src: seq<Candle>) {
    stored != [] ==> forall c :: Day(c) == Day(stored[|stored| - 1]) ==> (c in stored <==> c in src)
  }

  /** A later source: the same before `today`, and on it no instant is lost. */
  ghost predicate Grew(src: seq<Candle>, later: seq<Candle>, today: int) {
    && (forall c :: Day(c) < today ==> (c in src <==> c in later))
    && (forall c :: c in src && Day(c) == today ==> HasTs(later, c.ts))
  }

  function Fetched(src: seq<Candle>, missing: seq<(int, int)>): seq<Candle> {
    if missing == [] then [] else
    Fetched(src, missing[..|missing| - 1]) + Slice(src, missing[|missing| - 1].0, missing[|missing| - 1].1)
  }

  function Missing(cached: seq<Candle>, start: int, end: int): seq<(int, int)> {
    if cached == [] then [(start, end)] else
    var first, last := Day(cached[0]), Day(cached[|cached| - 1]);
    (if start < first then [(start, first - 1)] else []) + (if end > last then [(last, end)] else [])
  }

  lemma MissingOutside(cached: seq<Candle>, start: int, end: int)
    ensures Missing(cached, start, end) == [] <==> cached != [] && Day(cached[0]) <= start && end <= Day(cached[|cached| - 1])
    ensures cached != [] ==>
              forall m :: m in Missing(cached, start, end) ==> m.1 < Day(cached[0]) || m.0 == Day(cached[|cached| - 1])
  {
  }

  ghost function Merged(cached: seq<Candle>, src: seq<Candle>, start: int, end: int): seq<Candle> {
    Normalize(cached + Fetched(src, Missing(cached, start, end)))
  }

  /** What a request leaves stored: nothing new when nothing was missing or the data is degraded. */
  ghost function StoredAfter(cached: seq<Candle>, src: seq<Candle>, degraded: bool, start: int, end: int): seq<Candle> {
    if degraded || Missing(cached, start, end) == [] then cached else Merged(cached, src, start, end)
  }

  /** What it returns. */
  ghost function Answer(cached: seq<Candle>, src: seq<Candle>, start: int, end: int): seq<Candle> {
    Slice(if Missing(cached, start, end) == [] then cached else Merged(cached, src, start, end), start, end)
  }

  lemma AfterGet(cached: seq<Candle>, src: seq<Candle>, degraded: bool, start: int, end: int)
    ensures var merged := Normalize(cached + Fetched(src, Missing(cached, start, end)));
            if Missing(cached, start, end) == []
            then StoredAfter(cached, src, degraded, start, end) == cached &&
                    Answer(cached, src, start, end) == Slice(cached, start, end)
            else && StoredAfter(cached, src, degraded, start, end) == (if degraded then cached else merged)
                 && Answer(cached, src, start, end) == Slice(merged, start, end)
  {
    hide Slice, Normalize, Fetched;
  }

  /** The answer is right whenever the last stored day need not be fresh, is fetched again, or was complete. */
  ghost predicate RightAnswer(cached: seq<Candle>, src: seq<Candle>, start: int, end: int) {
    cached == [] || end != Day(cached[|cached| - 1]) || start > end || Complete(cached, src)
  }

  /** A day some missing range covers. */
  ghost predicate Refetched(cached: seq<Candle>, start: int, end: int, day: int) {
    if cached == [] then start <= day <= end else
    var first, last := Day(cached[0]), Day(cached[|cached| - 1]);
    (start <= day < first) || (end > last && last <= day <= end)
  }

  lemma NothingMissing(cached: seq<Candle>, start: int, end: int)
    requires Missing(cached, start, end) == []
    ensures cached != [] && Day(cached[0]) <= start && end <= Day(cached[|cached| - 1])
    ensures forall day :: !Refetched(cached, start, end, day)
  {
  }

  lemma SameSlices(m: seq<Candle>, src: seq<Candle>, start: int, end: int)
    requires Sorted(m) && Sorted(src)
    ensures Slice(m, start, end) == Slice(src, start, end) <==> forall c :: start <= Day(c) <= end ==> (c in m <==> c in src)
  {
    SliceIs(m, start, end);
    SliceIs(src, start, end);
    hide Slice, Sorted;
    if forall c :: start <= Day(c) <= end ==> (c in m <==> c in src) {
      SortedUnique(Slice(m, start, end), Slice(src, start, end));
    } else {
      var c :| start <= Day(c) <= end && !(c in m <==> c in src);
      assert c in Slice(m, start, end) <==> !(c in Slice(src, start, end));
    }
  }

  lemma RightThere(cached: seq<Candle>, src: seq<Candle>, start: int, end: int, c: Candle)
    requires Follows(cached, src) && RightAnswer(cached, src, start, end) && start <= Day(c) <= end
    ensures c in (if Refetched(cached, start, end, Day(c)) then src else cached) <==> c in src
  {
    hide HasTs, Sorted;
    if cached != [] && !Refetched(cached, start, end, Day(c)) {
      var first, last := Day(cached[0]), Day(cached[|cached| - 1]);
      hide Day;
      assert first <= Day(c) <= last;
    }
  }

  lemma WrongThere(cached: seq<Candle>, src: seq<Candle>, start: int, end: int) returns (c: Candle)
    requires Follows(cached, src) && !RightAnswer(cached, src, start, end)
    ensures start <= Day(c) <= end && !Refetched(cached, start, end, Day(c)) && !(c in cached <==> c in src)
  {
    var last := Day(cached[|cached| - 1]);
    c :| Day(c) == last && !(c in cached <==> c in src);
    DaysOrdered(cached, cached[0]);
  }

  /** The merged frame agrees with the source over the request exactly when the answer can be right. */
  lemma RightMembers(cached: seq<Candle>, src: seq<Candle>, start: int, end: int, m: seq<Candle>)
    requires Sorted(src) && Follows(cached, src)
    requires forall c :: c in m <==> c in if Refetched(cached, start, end, Day(c)) then src else cached
    ensures RightAnswer(cached, src, start, end) <==> forall c :: start <= Day(c) <= end ==> (c in m <==> c in src)
  {
    hide Follows, RightAnswer, Refetched, Day, Sorted;
    if RightAnswer(cached, src, start, end) {
      forall c | start <= Day(c) <= end ensures c in m <==> c in src {
        RightThere(cached, src, start, end, c);
      }
    } else {
      var c := WrongThere(cached, src, start, end);
      assert c in m <==> c in cached;
    }
  }

  lemma CoveredAlready(cached: seq<Candle>, src: seq<Candle>, start: int, end: int)
    requires Sorted(src) && Follows(cached, src) && Missing(cached, start, end) == []
    ensures RightAnswer(cached, src, start, end) <==> Slice(cached, start, end) == Slice(src, start, end)
  {
    NothingMissing(cached, start, end);
    RightMembers(cached, src, start, end, cached);
    hide Follows, RightAnswer, Missing;
    SameSlices(cached, src, start, end);
  }

  lemma {:induction false} FetchedIs(src: seq<Candle>, missing: seq<(int, int)>, c: Candle)
    ensures c in Fetched(src, missing) <==> c in src && exists m :: m in missing && m.0 <= Day(c) <= m.1
  {
    if missing != [] {
      var n := |missing| - 1;
      FetchedIs(src, missing[..n], c);
      SliceIs(src, missing[n].0, missing[n].1);
      assert missing == missing[..n] + [missing[n]];
    }
  }

  /** The last row of its instant, at an index. */
  ghost predicate LastAt(s: seq<Candle>, i: int, c: Candle) {
    0 <= i < |s| && s[i] == c && !HasTs(s[i + 1..], c.ts)
  }

  lemma WinsAt(s: seq<Candle>, c: Candle)
    ensures Wins(s, c) <==> exists i :: LastAt(s, i, c)
  {
    if Wins(s, c) {
      var i :| 0 <= i < |s| && s[i] == c && forall j :: i < j < |s| ==> s[j].ts != c.ts;
      assert LastAt(s, i, c);
    }
    if i :| LastAt(s, i, c) {
      forall j | i < j < |s| ensures s[j].ts != c.ts {
        assert s[i + 1..][j - i - 1] == s[j];
      }
    }
  }

  lemma HasTsAppend(a: seq<Candle>, b: seq<Candle>, ts: int)
    ensures HasTs(a + b, ts) <==> HasTs(a, ts) || HasTs(b, ts)
  {
    var s := a + b;
    if HasTs(a, ts) {
      var i :| 0 <= i < |a| && a[i].ts == ts;
      assert s[i].ts == ts;
    }
    if HasTs(b, ts) {
      var i :| 0 <= i < |b| && b[i].ts == ts;
      assert s[|a| + i].ts == ts;
    }
    if HasTs(s, ts) {
      var i :| 0 <= i < |s| && s[i].ts == ts;
      assert i < |a| ==> a[i].ts == ts;
      assert i >= |a| ==> b[i - |a|].ts == ts;
    }
  }

  /** In a concatenation a row of the second part wins over all, one of the first where the second has none. */
  lemma WinsAppend(a: seq<Candle>, b: seq<Candle>, c: Candle)
    ensures Wins(a + b, c) <==> Wins(b, c) || (Wins(a, c) && !HasTs(b, c.ts))
  {
    hide Wins, HasTs;
    var s := a + b;
    WinsAt(s, c);
    WinsAt(a, c);
    WinsAt(b, c);
    if i :| LastAt(s, i, c) {
      if i < |a| {
        assert s[i + 1..] == a[i + 1..] + b;
        HasTsAppend(a[i + 1..], b, c.ts);
        assert LastAt(a, i, c);
      } else {
        assert s[i + 1..] == b[i - |a| + 1..];
        assert LastAt(b, i - |a|, c);
      }
    }
    if i :| LastAt(b, i, c) {
      assert s[|a| + i + 1..] == b[i + 1..];
      assert LastAt(s, |a| + i, c);
    }
    if i :| LastAt(a, i, c) {
      assert s[i + 1..] == a[i + 1..] + b;
      HasTsAppend(a[i + 1..], b, c.ts);
      assert !HasTs(b, c.ts) ==> LastAt(s, i, c);
    }
  }

  /** Where rows of one instant are equal, every row wins. */
  lemma {:induction false} AllWin(s: seq<Candle>, c: Candle)
    requires forall i, j :: 0 <= i < |s| && 0 <= j < |s| && s[i].ts == s[j].ts ==> s[i] == s[j]
    ensures Wins(s, c) <==> c in s
  {
    if s != [] {
      var rest := s[1..];
      assert forall j :: 0 <= j < |rest| ==> rest[j] == s[j + 1];
      AllWin(rest, c);
      WinsCons(s, c);
      assert s == [s[0]] + rest;
      if c == s[0] && HasTs(rest, c.ts) {
        var j :| 0 <= j < |rest| && rest[j].ts == c.ts;
        assert rest[j] == s[j + 1] == s[0];
      }
    }
  }

  lemma SameTsSame(src: seq<Candle>, a: Candle, b: Candle)
    requires Sorted(src) && a in src && b in src && a.ts == b.ts
    ensures a == b
  {
    var i :| 0 <= i < |src| && src[i] == a;
    var j :| 0 <= j < |src| && src[j] == b;
  }

  lemma FetchedAllWin(src: seq<Candle>, missing: seq<(int, int)>, c: Candle)
    requires Sorted(src)
    ensures Wins(Fetched(src, missing), c) <==> c in Fetched(src, missing)
  {
    hide Wins, Fetched;
    var f := Fetched(src, missing);
    forall i, j | 0 <= i < |f| && 0 <= j < |f| && f[i].ts == f[j].ts ensures f[i] == f[j] {
      FetchedIs(src, missing, f[i]);
      FetchedIs(src, missing, f[j]);
      assert f[i] in f && f[j] in f;
      SameTsSame(src, f[i], f[j]);
    }
    AllWin(f, c);
  }

  lemma MissingCovers(cached: seq<Candle>, start: int, end: int, day: int)
    ensures (exists m :: m in Missing(cached, start, end) && m.0 <= day <= m.1) <==> Refetched(cached, start, end, day)
  {
    var ms := Missing(cached, start, end);
    if cached == [] {
      assert ms[0] in ms;
    } else {
      var first, last := Day(cached[0]), Day(cached[|cached| - 1]);
      if start < first {
        assert ms[0] == (start, first - 1) && ms[0] in ms;
      }
      if end > last {
        assert ms[|ms| - 1] == (last, end) && ms[|ms| - 1] in ms;
      }
    }
  }

  /** A stored row of a day fetched again meets a fetched row of its instant. */
  lemma RefetchedHas(cached: seq<Candle>, src: seq<Candle>, start: int, end: int, c: Candle)
    requires Sorted(src) && Follows(cached, src) && c in cached && Refetched(cached, start, end, Day(c))
    ensures HasTs(Fetched(src, Missing(cached, start, end)), c.ts)
  {
    hide Fetched, Missing;
    DaysOrdered(cached, c);
    var i :| 0 <= i < |src| && src[i].ts == c.ts;
    assert src[i] in src;
    var ms := Missing(cached, start, end);
    FetchedIs(src, ms, src[i]);
    MissingCovers(cached, start, end, Day(src[i]));
    assert src[i] in Fetched(src, ms);
  }

  /** The merged frame holds the source's candles on the days fetched, and the stored ones elsewhere. */
  lemma MergedHas(cached: seq<Candle>, src: seq<Candle>, start: int, end: int, c: Candle)
    requires Sorted(src) && Follows(cached, src)
    ensures c in Merged(cached, src, start, end) <==> c in if Refetched(cached, start, end, Day(c)) then src else cached
  {
    hide Wins, Fetched, Normalize, Missing;
    var ms := Missing(cached, start, end);
    var f := Fetched(src, ms);
    NormalizeIs(cached + f);
    WinsAppend(cached, f, c);
    FetchedAllWin(src, ms, c);
    AllWin(cached, c);
    FetchedIs(src, ms, c);
    MissingCovers(cached, start, end, Day(c));
    if HasTs(f, c.ts) {
      var i :| 0 <= i < |f| && f[i].ts == c.ts;
      assert f[i] in f;
      FetchedIs(src, ms, f[i]);
    }
    if c in cached && Refetched(cached, start, end, Day(c)) {
      RefetchedHas(cached, src, start, end, c);
    }
    hide Sorted, Follows, Refetched;
  }

  /** Inside the merged frame's days, before its last, the source's candles; on the last its instants. */
  lemma MergedDay(cached: seq<Candle>, src: seq<Candle>, start: int, end: int, from: int, to: int, c: Candle)
    requires Follows(cached, src) && cached != []
    requires var first, last := Day(cached[0]), Day(cached[|cached| - 1]);
             (from < first ==> start <= from) && to >= last && (to > last ==> end >= to)
    ensures var there := c in if Refetched(cached, start, end, Day(c)) then src else cached;
            && (from <= Day(c) < to ==> (there <==> c in src))
            && (there && Day(c) == to ==> HasTs(src, c.ts))
            && (from <= Day(c) <= to && Complete(cached, src) ==> (there <==> c in src))
  {
    if c in src {
      var i :| 0 <= i < |src| && src[i] == c;
    }
  }

  lemma FollowsByDay(cached: seq<Candle>, src: seq<Candle>, start: int, end: int, m: seq<Candle>)
    requires Follows(cached, src) && cached != [] && Sorted(m) && m != []
    requires var first, last, from, to := Day(cached[0]), Day(cached[|cached| - 1]), Day(m[0]), Day(m[|m| - 1]);
             (from < first ==> start <= from) && to >= last && (to > last ==> end >= to)
    requires forall c :: c in m <==> c in if Refetched(cached, start, end, Day(c)) then src else cached
    ensures Follows(m, src) && (Complete(cached, src) ==> Complete(m, src))
  {
    hide HasTs, Refetched;
    var from, to := Day(m[0]), Day(m[|m| - 1]);
    assert from <= to by {
      DaysOrdered(m, m[0]);
    }
    hide Day, Sorted;
    forall c
      ensures from <= Day(c) < to ==> (c in m <==> c in src)
      ensures c in m && Day(c) == to ==> HasTs(src, c.ts)
      ensures Complete(cached, src) && Day(c) == to ==> (c in m <==> c in src)
    {
      MergedDay(cached, src, start, end, from, to, c);
    }
  }

  lemma EndsWithin(cached: seq<Candle>, src: seq<Candle>, start: int, end: int, m: seq<Candle>, c: Candle)
    requires Sorted(cached) && cached != [] && c in m
    requires c in if Refetched(cached, start, end, Day(c)) then src else cached
    ensures var first, last := Day(cached[0]), Day(cached[|cached| - 1]);
            (Day(c) < first ==> start <= Day(c)) && (Day(c) > last ==> last < Day(c) <= end)
  {
    if !Refetched(cached, start, end, Day(c)) {
      DaysOrdered(cached, c);
    }
  }

  /** The merged frame reaches at least to the last stored day. */
  lemma LastStays(cached: seq<Candle>, src: seq<Candle>, start: int, end: int, m: seq<Candle>)
    requires Sorted(src) && Follows(cached, src) && Sorted(m) && cached != [] && m != []
    requires forall c :: c in m <==> c in if Refetched(cached, start, end, Day(c)) then src else cached
    ensures Day(m[|m| - 1]) >= Day(cached[|cached| - 1])
  {
    var c := cached[|cached| - 1];
    assert c in cached;
    if Refetched(cached, start, end, Day(c)) {
      var i :| 0 <= i < |src| && src[i].ts == c.ts;
      assert src[i] in src && src[i] in m;
      DaysOrdered(m, src[i]);
    } else {
      DaysOrdered(m, c);
    }
  }

  lemma MergedIsFollowing(cached: seq<Candle>, src: seq<Candle>, start: int, end: int, m: seq<Candle>)
    requires Sorted(src) && Follows(cached, src) && Sorted(m)
    requires forall c :: c in m <==> c in if Refetched(cached, start, end, Day(c)) then src else cached
    ensures Follows(m, src) && (Complete(cached, src) ==> Complete(m, src))
  {
    if m != [] {
      var from, to := Day(m[0]), Day(m[|m| - 1]);
      assert m[0] in m && m[|m| - 1] in m;
      if cached != [] {
        LastStays(cached, src, start, end, m);
        EndsWithin(cached, src, start, end, m, m[0]);
        EndsWithin(cached, src, start, end, m, m[|m| - 1]);
        FollowsByDay(cached, src, start, end, m);
      } else {
        forall c | from <= Day(c) <= to ensures c in m <==> c in src {
        }
        forall c | c in m ensures HasTs(src, c.ts) {
          var i :| 0 <= i < |src| && src[i] == c;
        }
      }
    }
  }

  /** What the stored frame and the answer are after a fetch. */
  lemma MergedFollows(cached: seq<Candle>, src: seq<Candle>, start: int, end: int, missing: seq<(int, int)>)
    requires Sorted(src) && Follows(cached, src) && missing == Missing(cached, start, end)
    ensures var m := Normalize(cached + Fetched(src, missing));
            && Follows(m, src)
            && (Complete(cached, src) ==> Complete(m, src))
            && (RightAnswer(cached, src, start, end) <==> Slice(m, start, end) == Slice(src, start, end))
  {
    var m := Merged(cached, src, start, end);
    NormalizeIs(cached + Fetched(src, missing));
    hide Normalize, Fetched, Missing, Wins;
    forall c ensures c in m <==> c in if Refetched(cached, start, end, Day(c)) then src else cached {
      MergedHas(cached, src, start, end, c);
    }
    hide Merged;
    MergedIsFollowing(cached, src, start, end, m);
    hide RightAnswer, Follows, Complete;
    RightMembers(cached, src, start, end, m);
    SameSlices(m, src, start, end);
  }

  class CandleCache {
    var stored: seq<Candle>

    constructor ()
      ensures stored == []
    {
      stored := [];
    }

    /** Fetch what the stored days do not cover, and the last of them again in case it was partial. */
    method Get(src: seq<Candle>, degraded: bool, start: int, end: int) returns (result: seq<Candle>, missing: seq<(int, int)>)
      requires Sorted(src) && Follows(stored, src)
      modifies this
      ensures stored == StoredAfter(old(stored), src, degraded, start, end)
      ensures result == Answer(old(stored), src, start, end)
      ensures degraded || missing == [] ==> stored == old(stored)
      ensures missing == [] <==> old(stored) != [] && Day(old(stored)[0]) <= start && end <= Day(old(stored)[|old(stored)| - 1])
      ensures !degraded ==> result == Slice(stored, start, end)
      ensures Follows(stored, src)
      ensures !degraded && Complete(old(stored), src) ==> Complete(stored, src)
      ensures RightAnswer(old(stored), src, start, end) <==> result == Slice(src, start, end)
      ensures old(stored) != [] ==>
                forall m :: m in missing ==> m.1 < Day(old(stored)[0]) || m.0 == Day(old(stored)[|old(stored)| - 1])
    {
      hide *;
      hide StoredAfter, Answer;
      var cached := stored;
      AfterGet(cached, src, degraded, start, end);
      missing := MissingRanges(cached, start, end);
      MissingOutside(cached, start, end);
      if missing != [] {
        var all := FetchAll(src, cached, missing);
        MergedFollows(cached, src, start, end, missing);
        cached := Normalize(all);
        if !degraded {
          stored := cached;
        }
      } else {
        CoveredAlready(cached, src, start, end);
      }
      result := Slice(cached, start, end);
    }

    /** Any requests, on a source that stays the same: each answer is exactly the source's. */
    method GetEach(src: seq<Candle>, requests: seq<(int, int)>) returns (answers: seq<seq<Candle>>)
      requires Sorted(src) && Follows(stored, src) && Complete(stored, src)
      modifies this
      ensures Follows(stored, src) && Complete(stored, src) && |answers| == |requests|
      ensures forall k :: 0 <= k < |requests| ==> answers[k] == Slice(src, requests[k].0, requests[k].1)
    {
      hide Sorted, Follows, Complete, Slice;
      answers := [];
      var k := 0;
      while k < |requests|
        invariant 0 <= k <= |requests| && |answers| == k && Follows(stored, src) && Complete(stored, src)
        invariant forall j :: 0 <= j < k ==> answers[j] == Slice(src, requests[j].0, requests[j].1)
      {
        var r, m := Get(src, false, requests[k].0, requests[k].1);
        answers := answers + [r];
        k := k + 1;
      }
    }

    static method MissingRanges(cached: seq<Candle>, start: int, end: int) returns (missing: seq<(int, int)>)
      ensures missing == Missing(cached, start, end)
    {
      missing := [];
      if cached == [] {
        missing := [(start, end)];
      } else {
        var first, last := Day(cached[0]), Day(cached[|cached| - 1]);
        if start < first {
          missing := missing + [(start, first - 1)];
        }
        if end > last {
          missing := missing + [(last, end)];
        }
      }
    }

    /** The cached rows and then those of every missing range. */
    static method FetchAll(src: seq<Candle>, cached: seq<Candle>, missing: seq<(int, int)>) returns (all: seq<Candle>)
      ensures all == cached + Fetched(src, missing)
    {
      all := cached;
      var k := 0;
      while k < |missing|
        invariant 0 <= k <= |missing|
        invariant all == cached + Fetched(src, missing[..k])
      {
        assert missing[..k + 1][..|missing[..k + 1]| - 1] == missing[..k];
        all := all + Slice(src, missing[k].0, missing[k].1);
        k := k + 1;
      }
      assert missing[..k] == missing;
    }
  }

  // ---------------------------------------------------------------- over time

  /** A cache that follows a source still follows what the source grows into. */
  lemma FollowsLater(stored: seq<Candle>, src: seq<Candle>, later: seq<Candle>, today: int)
    requires Follows(stored, src) && Grew(src, later, today) && (stored != [] ==> Day(stored[|stored| - 1]) <= today)
    ensures Follows(stored, later)
  {
    if stored != [] {
      var last := Day(stored[|stored| - 1]);
      forall c | c in stored && Day(c) == last ensures HasTs(later, c.ts) {
        var i :| 0 <= i < |src| && src[i].ts == c.ts;
        var d := src[i];
        assert d in src && Day(d) == last;
        if last < today {
          assert d in later;
          var k :| 0 <= k < |later| && later[k] == d;
        }
      }
    }
  }

  /** What a request returns and leaves stored, as one statement. */
  lemma RequestIs(cached: seq<Candle>, src: seq<Candle>, degraded: bool, start: int, end: int)
    requires Sorted(src) && Follows(cached, src)
    ensures RightAnswer(cached, src, start, end) <==> Answer(cached, src, start, end) == Slice(src, start, end)
    ensures var after := StoredAfter(cached, src, degraded, start, end);
            Follows(after, src) && (Complete(cached, src) ==> Complete(after, src))
  {
    hide *;
    AfterGet(cached, src, degraded, start, end);
    if Missing(cached, start, end) == [] {
      CoveredAlready(cached, src, start, end);
    } else {
      MergedFollows(cached, src, start, end, Missing(cached, start, end));
    }
  }

  /** A source that has another volume in the last row the cache holds. */
  ghost function Revised(cached: seq<Candle>): seq<Candle>
    requires cached != []
  {
    var n := |cached| - 1;
    cached[n := cached[n].(volume := cached[n].volume + 1.0)]
  }

  lemma RevisedFollowed(cached: seq<Candle>)
    requires Sorted(cached) && cached != []
    ensures Sorted(Revised(cached)) && Follows(cached, Revised(cached)) && !Complete(cached, Revised(cached))
  {
    var src, n := Revised(cached), |cached| - 1;
    assert forall i :: 0 <= i < |cached| ==> src[i].ts == cached[i].ts;
    forall c | Day(c) < Day(cached[n]) ensures c in cached <==> c in src {
      if c in cached {
        var i :| 0 <= i < |cached| && cached[i] == c;
        assert src[i] == c;
      }
      if c in src {
        var i :| 0 <= i < |src| && src[i] == c;
        assert cached[i] == c;
      }
    }
    forall c | c in cached ensures HasTs(src, c.ts) {
      var i :| 0 <= i < |cached| && cached[i] == c;
      assert src[i].ts == c.ts;
    }
    assert src[n] in src && Day(src[n]) == Day(cached[n]);
    forall i | 0 <= i < |cached| ensures cached[i] != src[n] {
      assert i < n ==> cached[i].ts < cached[n].ts;
    }
  }

  /** A caller who knows only what is stored can rely on the answer, whatever the source, exactly when the request does not
      end on the last stored day. */
  lemma ReliableIff(cached: seq<Candle>, start: int, end: int)
    requires Sorted(cached)
    ensures (forall src :: Sorted(src) && Follows(cached, src) ==> Answer(cached, src, start, end) == Slice(src, start, end))
       <==> cached == [] || end != Day(cached[|cached| - 1]) || start > end
  {
    hide Sorted, Follows, Answer, Slice, Complete;
    forall src | Sorted(src) && Follows(cached, src)
      ensures RightAnswer(cached, src, start, end) <==> Answer(cached, src, start, end) == Slice(src, start, end)
    {
      RequestIs(cached, src, false, start, end);
    }
    if cached != [] {
      RevisedFollowed(cached);
      assert RightAnswer(cached, Revised(cached), start, end) <==>
          Answer(cached, Revised(cached), start, end) == Slice(Revised(cached), start, end);
    }
  }

  // ---------------------------------------------------------------- the live session's requests

  /** A request made on `today`, when the source is `src`. */
  datatype Fetch = Fetch(src: seq<Candle>, today: int, degraded: bool, start: int, end: int)

  /** Requests in time, each for days before its own, on a source that only grows. */
  ghost predicate Live(fs: seq<Fetch>) {
    && (forall k :: 0 <= k < |fs| ==> Sorted(fs[k].src) && fs[k].end < fs[k].today)
    && (forall k :: 0 < k < |fs| ==> fs[k - 1].today <= fs[k].today && Grew(fs[k - 1].src, fs[k].src, fs[k - 1].today))
  }

  /** What a cache that started empty holds after the requests. */
  ghost function StoredBy(fs: seq<Fetch>): seq<Candle>
    decreases |fs|
  {
    if fs == [] then [] else
    var f := fs[|fs| - 1];
    StoredAfter(StoredBy(fs[..|fs| - 1]), f.src, f.degraded, f.start, f.end)
  }

  ghost predicate Before(stored: seq<Candle>, day: int) {
    forall c :: c in stored ==> Day(c) < day
  }

  /** A request keeps everything stored before a day, when it ends before it. */
  lemma StaysBefore(cached: seq<Candle>, src: seq<Candle>, degraded: bool, start: int, end: int, day: int)
    requires Sorted(src) && Follows(cached, src) && Before(cached, day) && end < day
    ensures Before(StoredAfter(cached, src, degraded, start, end), day)
  {
    var after := StoredAfter(cached, src, degraded, start, end);
    if after != cached {
      forall c | c in after ensures Day(c) < day {
        hide Sorted, Follows, Merged, Day;
        MergedHas(cached, src, start, end, c);
        if cached != [] {
          assert cached[0] in cached;
        }
      }
    }
  }

  /** Days before the last are complete for good, so a cache that ends before `today` stays complete. */
  lemma CompleteLater(stored: seq<Candle>, src: seq<Candle>, later: seq<Candle>, today: int)
    requires Complete(stored, src) && Grew(src, later, today) && Before(stored, today)
    ensures Complete(stored, later)
  {
    if stored != [] {
      assert stored[|stored| - 1] in stored;
    }
  }

  /** Nothing stored is a complete cache of anything. */
  lemma EmptyCache(src: seq<Candle>, day: int)
    ensures Follows([], src) && Complete([], src) && Before([], day)
  {
  }

  lemma FollowsOn(stored: seq<Candle>, src: seq<Candle>, later: seq<Candle>, today: int)
    requires Follows(stored, src) && Grew(src, later, today) && Before(stored, today)
    ensures Follows(stored, later)
  {
    if stored != [] {
      assert stored[|stored| - 1] in stored;
    }
    hide Follows, Grew;
    FollowsLater(stored, src, later, today);
  }

  lemma BeforeLater(stored: seq<Candle>, day: int, later: int)
    requires Before(stored, day) && day <= later
    ensures Before(stored, later)
  {
  }

  /** What is stored when the next request comes. */
  lemma Carried(was: seq<Candle>, g: Fetch, f: Fetch)
    requires Follows(was, g.src) && Complete(was, g.src) && Before(was, g.today)
    requires Grew(g.src, f.src, g.today) && g.today <= f.today
    ensures Follows(was, f.src) && Complete(was, f.src) && Before(was, f.today)
  {
    hide Follows, Complete, Before, Grew;
    FollowsOn(was, g.src, f.src, g.today);
    CompleteLater(was, g.src, f.src, g.today);
    BeforeLater(was, g.today, f.today);
  }

  lemma LiveAt(fs: seq<Fetch>, n: nat)
    requires Live(fs) && n < |fs|
    ensures Sorted(fs[n].src) && fs[n].end < fs[n].today && Live(fs[..n])
    ensures n > 0 ==> fs[n - 1].today <= fs[n].today && Grew(fs[n - 1].src, fs[n].src, fs[n - 1].today)
  {
    hide Sorted, Grew;
  }

  lemma {:induction false} LiveStored(fs: seq<Fetch>)
    requires Live(fs) && fs != []
    ensures var f := fs[|fs| - 1];
            var was := StoredBy(fs[..|fs| - 1]);
            && Follows(was, f.src) && Complete(was, f.src) && Before(was, f.today)
            && Follows(StoredBy(fs), f.src) && Complete(StoredBy(fs), f.src) && Before(StoredBy(fs), f.today)
    decreases |fs|
  {
    var n := |fs| - 1;
    var f, front := fs[n], fs[..n];
    hide Sorted, Follows, Complete, Before, Grew, StoredAfter, Live;
    LiveAt(fs, n);
    if n == 0 {
      EmptyCache(f.src, f.today);
    } else {
      LiveStored(front);
      Carried(StoredBy(front), fs[n - 1], f);
    }
    RequestIs(StoredBy(front), f.src, f.degraded, f.start, f.end);
    StaysBefore(StoredBy(front), f.src, f.degraded, f.start, f.end, f.today);
  }

  /** Over any requests for days before their own, while the source grows: every answer is exactly the source's range. */
  lemma LiveIsExact(fs: seq<Fetch>, k: nat)
    requires Live(fs) && k < |fs|
    ensures var f := fs[k]; Answer(StoredBy(fs[..k]), f.src, f.start, f.end) == Slice(f.src, f.start, f.end)
  {
    var f, upTo := fs[k], fs[..k + 1];
    assert upTo[..k] == fs[..k] && Live(upTo);
    LiveStored(upTo);
    hide Follows, Complete, Answer, Slice, Live, StoredBy;
    RequestIs(StoredBy(fs[..k]), f.src, f.degraded, f.start, f.end);
  }
}
