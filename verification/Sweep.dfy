/**
 The walk-forward sweep (tradalgo/backtest/sweep.py:182-217 and 309-365): scores, the top k, and a
 checkpoint file that an interruption may cut anywhere.
 */
module Sweeps {
  import opened Common

  const GATE_MIN_TRADES: int := 100
  const GATE_DD_MULT: real := 5.0
  const OVERFIT_DECAY_R: real := 0.3

  datatype Metrics = Metrics(trades: int, expectancyR: real, maxDrawdownR: real)

  datatype Phase = Train | Test

  /** A sweep: how many combinations, what each run reports, and the grid's settings.  `rounded` is round(x, 4). */
  datatype Job = Job(n: nat, train: nat -> Metrics, test: nat -> Metrics, minTrainTrades: int, drawdownPenalty: real, topK: nat,
                     lossLimit: real, rounded: real -> real)

  function Metric(job: Job, phase: Phase, i: nat): Metrics {
    if phase.Train? then job.train(i) else job.test(i)
  }

  /** What a drawdown costs a score. */
  function Penalty(rate: real, drawdown: real): real { rate * drawdown }

  function Score(job: Job, m: Metrics): Option<real> {
    if m.trades < job.minTrainTrades then None
    else Some(job.rounded(m.expectancyR - Penalty(job.drawdownPenalty, m.maxDrawdownR)))
  }

  predicate IsOverfit(train: Metrics, test: Metrics) {
    (test.expectancyR < 0.0 < train.expectancyR) || train.expectancyR - test.expectancyR > OVERFIT_DECAY_R
  }

  predicate PassesGate(job: Job, train: Metrics, test: Metrics) {
    test.expectancyR > 0.0 && train.trades + test.trades >= GATE_MIN_TRADES && test.maxDrawdownR <= job.lossLimit * GATE_DD_MULT
  }

  // ---------------------------------------------------------------- ranking

  /** The sort key (-score, index). */
  predicate Before(scores: seq<Option<real>>, i: nat, j: nat) {
    i < |scores| && j < |scores| && scores[i].Some? && scores[j].Some?
    && (scores[i].value > scores[j].value || (scores[i].value == scores[j].value && i < j))
  }

  function Place(scores: seq<Option<real>>, i: nat, ranked: seq<nat>): seq<nat> {
    if ranked == [] || Before(scores, i, ranked[0]) then [i] + ranked else [ranked[0]] + Place(scores, i, ranked[1..])
  }

  /** The scored combinations below `n`, best first. */
  function Ranked(scores: seq<Option<real>>, n: nat): seq<nat>
    requires n <= |scores|
  {
    if n == 0 then [] else
    var rest := Ranked(scores, n - 1);
    if scores[n - 1].None? then rest else Place(scores, n - 1, rest)
  }

  function Top(scores: seq<Option<real>>, k: nat): seq<nat> {
    var r := Ranked(scores, |scores|);
    if |r| <= k then r else r[..k]
  }

  ghost predicate Sorted(scores: seq<Option<real>>, r: seq<nat>) {
    forall a, b :: 0 <= a < b < |r| ==> Before(scores, r[a], r[b])
  }

  lemma {:induction false} PlaceKeeps(scores: seq<Option<real>>, i: nat, r: seq<nat>)
    requires i < |scores| && scores[i].Some? && i !in r && Sorted(scores, r)
    requires forall x :: x in r ==> x < |scores| && scores[x].Some?
    ensures var p := Place(scores, i, r); Sorted(scores, p) && (forall x :: x in p <==> x == i || x in r) && |p| == |r| + 1
  {
    if r != [] && !Before(scores, i, r[0]) {
      var rest := r[1..];
      assert forall x :: x in r <==> x == r[0] || x in rest by {
        assert r == [r[0]] + rest;
      }
      PlaceKeeps(scores, i, rest);
      var q := Place(scores, i, rest);
      forall b | 0 <= b < |q| ensures Before(scores, r[0], q[b]) {
        assert q[b] in q;
        if q[b] in rest {
          var k :| 0 <= k < |rest| && rest[k] == q[b];
          assert Before(scores, r[0], r[k + 1]);
        }
      }
    } else {
      var p := [i] + r;
      forall b | 0 <= b < |r| ensures Before(scores, i, r[b]) {
        if b > 0 {
          assert Before(scores, r[0], r[b]);
        }
      }
    }
  }

  lemma {:induction false} RankedIs(scores: seq<Option<real>>, n: nat)
    requires n <= |scores|
    ensures var r := Ranked(scores, n);
            Sorted(scores, r) && forall x: nat :: x in r <==> x < n && scores[x].Some?
  {
    if n > 0 {
      RankedIs(scores, n - 1);
      if scores[n - 1].Some? {
        PlaceKeeps(scores, n - 1, Ranked(scores, n - 1));
      }
    }
  }

  lemma InPrefix(r: seq<nat>, k: nat, a: nat)
    requires k <= |r| && a < |r|
    ensures a < k ==> r[a] in r[..k]
  {
    if a < k {
      assert r[..k][a] == r[a];
    }
  }

  lemma SortedDistinct(scores: seq<Option<real>>, r: seq<nat>)
    requires Sorted(scores, r)
    ensures forall a, b :: 0 <= a < b < |r| ==> r[a] != r[b]
  {
    forall a, b | 0 <= a < b < |r| ensures r[a] != r[b] {
      assert Before(scores, r[a], r[b]);
    }
  }

  /** The top k: distinct scored combinations, best first, none left out that beats one of them, and k of them
      unless everything scored is there. */
  lemma TopIsBest(scores: seq<Option<real>>, k: nat)
    ensures var t := Top(scores, k);
            && Sorted(scores, t) && |t| <= k
            && (forall a, b :: 0 <= a < b < |t| ==> t[a] != t[b])
            && (forall x :: x in t ==> x < |scores| && scores[x].Some?)
            && (forall x: nat, y: nat :: x < |scores| && scores[x].Some? && x !in t && y in t ==> Before(scores, y, x))
            && (forall x: nat :: x < |scores| && scores[x].Some? && x !in t ==> |t| == k)
  {
    var r := Ranked(scores, |scores|);
    RankedIs(scores, |scores|);
    SortedDistinct(scores, r);
    if |r| > k {
      assert forall x :: x in r[..k] ==> x in r;
      forall x: nat, y: nat | x < |scores| && scores[x].Some? && x !in r[..k] && y in r[..k] ensures Before(scores, y, x) {
        assert x in r;
        var a :| 0 <= a < |r| && r[a] == x;
        InPrefix(r, k, a);
        var b :| 0 <= b < k && r[..k][b] == y;
        assert r[b] == y;
      }
    }
  }

  // ---------------------------------------------------------------- the result, whatever the order

  datatype Combo = Combo(train: Option<Metrics>, test: Option<Metrics>)

  datatype Verdict = Verdict(index: nat, overfit: bool, passes: bool)

  datatype Outcome = Outcome(combos: seq<Combo>, scores: seq<Option<real>>, top: seq<Verdict>)

  function Scores(job: Job): (s: seq<Option<real>>)
    ensures |s| == job.n && forall i :: 0 <= i < job.n ==> s[i] == Score(job, job.train(i))
  {
    seq(job.n, i requires 0 <= i < job.n => Score(job, job.train(i)))
  }

  function TopOf(job: Job): seq<nat> { Top(Scores(job), job.topK) }

  function Judged(job: Job, c: Combo, i: nat): Verdict
    requires c.train.Some? && c.test.Some?
  {
    Verdict(i, IsOverfit(c.train.value, c.test.value), PassesGate(job, c.train.value, c.test.value))
  }

  function Verdicts(job: Job, top: seq<nat>): (v: seq<Verdict>)
    ensures |v| == |top|
    ensures forall a :: 0 <= a < |v| ==> v[a] == Verdict(top[a], IsOverfit(job.train(top[a]), job.test(top[a])),
                                                        PassesGate(job, job.train(top[a]), job.test(top[a])))
  {
    seq(|top|, a requires 0 <= a < |top| => Verdict(top[a], IsOverfit(job.train(top[a]), job.test(top[a])),
                                                    PassesGate(job, job.train(top[a]), job.test(top[a]))))
  }

  /** What one uninterrupted sweep reports: a function of the job alone. */
  function Reference(job: Job): Outcome {
    Outcome(seq(job.n, i requires 0 <= i < job.n => Combo(Some(job.train(i)), if i in TopOf(job) then Some(job.test(i)) else None)),
            Scores(job), Verdicts(job, TopOf(job)))
  }

  // ---------------------------------------------------------------- the checkpoint file

  datatype Header = Header(grid: int, train: int, test: int, config: int)

  datatype Line = Head(header: Header) | Result(phase: Phase, index: nat, metrics: Metrics) | Unreadable

  /** What follows the last newline: nothing, a line cut in the middle, or a whole line without its newline. */
  datatype Tail = Clean | Cut | Whole(line: Line)

  datatype File = File(lines: seq<Line>, tail: Tail)

  datatype Loaded = Entries(entries: seq<Line>) | NotACheckpoint | OtherSweep | ConfigChanged

  function Readable(ls: seq<Line>): seq<Line> {
    if ls == [] then [] else (if ls[0].Unreadable? then [] else [ls[0]]) + Readable(ls[1..])
  }

  function Results(ls: seq<Line>): seq<Line> {
    if ls == [] then [] else (if ls[0].Result? then [ls[0]] else []) + Results(ls[1..])
  }

  lemma {:induction false} MembersOf(ls: seq<Line>, x: Line)
    ensures x in Readable(ls) <==> x in ls && !x.Unreadable?
    ensures x in Results(ls) <==> x in ls && x.Result?
  {
    if ls != [] {
      MembersOf(ls[1..], x);
      assert ls == [ls[0]] + ls[1..];
    }
  }

  function Content(f: File): seq<Line> {
    Readable(f.lines + if f.tail.Whole? then [f.tail.line] else [])
  }

  function LoadLines(ls: seq<Line>, h: Header, ignoreConfig: bool): Loaded {
    if ls == [] || !ls[0].Head? then NotACheckpoint
    else if (ls[0].header.grid, ls[0].header.train, ls[0].header.test) != (h.grid, h.train, h.test) then OtherSweep
    else if ls[0].header.config != h.config && !ignoreConfig then ConfigChanged
    else Entries(Results(ls[1..]))
  }

  function Load(f: File, h: Header, ignoreConfig: bool): Loaded {
    LoadLines(Content(f), h, ignoreConfig)
  }

  /** A line appended after an unfinished one runs into it, and neither can be read again. */
  function Appended(f: File, l: Line): File {
    File(f.lines + [if f.tail.Clean? then l else Unreadable], Clean)
  }

  lemma {:induction false} ReadableAppend(ls: seq<Line>, x: Line)
    ensures Readable(ls + [x]) == Readable(ls) + if x.Unreadable? then [] else [x]
  {
    if ls == [] {
      assert ls + [x] == [x] && [x][1..] == [];
    } else {
      assert (ls + [x])[1..] == ls[1..] + [x] && (ls + [x])[0] == ls[0];
      ReadableAppend(ls[1..], x);
    }
  }

  lemma {:induction false} ResultsAppend(ls: seq<Line>, x: Line)
    ensures Results(ls + [x]) == Results(ls) + if x.Result? then [x] else []
  {
    if ls == [] {
      assert ls + [x] == [x] && [x][1..] == [];
    } else {
      assert (ls + [x])[1..] == ls[1..] + [x] && (ls + [x])[0] == ls[0];
      ResultsAppend(ls[1..], x);
    }
  }

  /** What is readable of a file after an append, and before. */
  lemma AppendedContent(f: File, l: Line)
    requires !l.Unreadable?
    ensures Content(Appended(f, l)) == if f.tail.Clean? then Readable(f.lines) + [l] else Readable(f.lines)
    ensures Content(f) == if f.tail.Whole? && !f.tail.line.Unreadable? then Readable(f.lines) + [f.tail.line] else Readable(f.lines)
  {
    ReadableAppend(f.lines, if f.tail.Clean? then l else Unreadable);
    assert Appended(f, l).lines + [] == Appended(f, l).lines;
    if f.tail.Whole? {
      ReadableAppend(f.lines, f.tail.line);
    } else {
      assert f.lines + [] == f.lines;
    }
  }

  /** What one more line adds to what loads. */
  lemma OneMoreLoads(ls: seq<Line>, x: Line, h: Header, ignoreConfig: bool)
    ensures ls != [] ==> (LoadLines(ls + [x], h, ignoreConfig).Entries? <==> LoadLines(ls, h, ignoreConfig).Entries?)
    ensures ls != [] && LoadLines(ls, h, ignoreConfig).Entries? ==>
              LoadLines(ls + [x], h, ignoreConfig).entries
              == LoadLines(ls, h, ignoreConfig).entries + if x.Result? then [x] else []
    ensures ls == [] && x.Result? ==> LoadLines(ls + [x], h, ignoreConfig) == NotACheckpoint
  {
    hide Results;
    if ls != [] {
      assert (ls + [x])[1..] == ls[1..] + [x] && (ls + [x])[0] == ls[0];
      ResultsAppend(ls[1..], x);
    }
  }

  lemma NothingLoads(h: Header, ignoreConfig: bool)
    ensures LoadLines([], h, ignoreConfig) == NotACheckpoint
  {
  }

  /** An appended result loads back if and only if the file ended in a newline.  After a line cut in the middle only it is
      lost; after a whole line without its newline that line is lost too, and with it the checkpoint if it was the header. */
  lemma AppendLoadsIff(f: File, l: Line, h: Header, ignoreConfig: bool)
    requires Load(f, h, ignoreConfig).Entries? && l.Result?
    ensures var had, now := Load(f, h, ignoreConfig).entries, Load(Appended(f, l), h, ignoreConfig);
            && (now == Entries(had + [l]) <==> f.tail.Clean?)
            && (f.tail.Cut? ==> now == Entries(had))
            && (f.tail.Whole? && f.tail.line.Result? ==> now.Entries? && had == now.entries + [f.tail.line])
            && (f.tail.Whole? && Readable(f.lines) == [] ==> now == NotACheckpoint)
  {
    hide Readable, Content, LoadLines, Appended;
    AppendedContent(f, l);
    OneMoreLoads(Readable(f.lines), l, h, ignoreConfig);
    if f.tail.Whole? {
      OneMoreLoads(Readable(f.lines), f.tail.line, h, ignoreConfig);
    }
    NothingLoads(h, ignoreConfig);
  }

  /** After an append to a line without its newline, the results of the lines before it load. */
  lemma StillLoaded(f: File, l: Line, h: Header, ignoreConfig: bool, y: Line)
    requires f.tail.Whole? && l.Result? && Load(Appended(f, l), h, ignoreConfig).Entries?
    ensures y in Load(Appended(f, l), h, ignoreConfig).entries <==> y in f.lines && y.Result?
  {
    AppendedContent(f, l);
    var ls := Readable(f.lines);
    MembersOf(f.lines, y);
    MembersOf(ls[1..], y);
    assert ls == [ls[0]] + ls[1..];
    hide Readable, Results, Content, Appended;
  }

  ghost function Completed(entries: seq<Line>): set<(Phase, nat)> {
    set l | l in entries && l.Result? :: (l.phase, l.index)
  }

  /** The combinations still to train, and those of the top still to test. */
  ghost function TrainTodo(n: nat, completed: set<(Phase, nat)>): set<nat> { set i: nat | i < n && (Train, i) !in completed }

  /** So a finished result whose newline was lost is run again after the next append, unless another line holds it. */
  lemma LostResultRunsAgain(f: File, l: Line, h: Header, ignoreConfig: bool, n: nat)
    requires Load(f, h, ignoreConfig).Entries? && l.Result? && f.tail.Whole? && f.tail.line.Result? && f.tail.line.index < n
    ensures Load(Appended(f, l), h, ignoreConfig).Entries?
    ensures var x := f.tail.line;
            var was, now := Completed(Load(f, h, ignoreConfig).entries), Completed(Load(Appended(f, l), h, ignoreConfig).entries);
            && (x.phase, x.index) in was
            && ((x.phase, x.index) in now <==> exists y :: y in f.lines && y.Result? && y.phase == x.phase && y.index == x.index)
            && (x.phase.Train? ==> (x.index in TrainTodo(n, now) <==> (x.phase, x.index) !in now) && x.index !in TrainTodo(n, was))
  {
    var x, had := f.tail.line, Load(f, h, ignoreConfig).entries;
    AppendLoadsIff(f, l, h, ignoreConfig);
    var now := Load(Appended(f, l), h, ignoreConfig).entries;
    assert x == had[|now|] && x in had;
    forall y: Line ensures y in now <==> y in f.lines && y.Result? {
      StillLoaded(f, l, h, ignoreConfig, y);
    }
    hide Load, Appended;
  }

  ghost predicate LineOk(job: Job, l: Line) {
    l.Result? ==> l.index < job.n && l.metrics == Metric(job, l.phase, l.index) && (l.phase.Test? ==> l.index in TopOf(job))
  }

  /** The first line of a list that can be read. */
  ghost predicate IsFirstReadable(ls: seq<Line>, x: Line) {
    exists i :: 0 <= i < |ls| && ls[i] == x && !x.Unreadable? && forall j :: 0 <= j < i ==> ls[j].Unreadable?
  }

  lemma {:induction false} FirstReadable(ls: seq<Line>)
    ensures Readable(ls) != [] ==> IsFirstReadable(ls, Readable(ls)[0])
    ensures Readable(ls) == [] ==> forall x :: !IsFirstReadable(ls, x)
    ensures forall x, y :: IsFirstReadable(ls, x) && IsFirstReadable(ls, y) ==> x == y
  {
    if ls != [] {
      var rest := ls[1..];
      FirstReadable(rest);
      if ls[0].Unreadable? {
        forall x ensures IsFirstReadable(ls, x) <==> IsFirstReadable(rest, x) {
          if i :| 0 <= i < |ls| && ls[i] == x && !x.Unreadable? && forall j :: 0 <= j < i ==> ls[j].Unreadable? {
            assert rest[i - 1] == x && forall j :: 0 <= j < i - 1 ==> rest[j] == ls[j + 1];
          }
          if i :| 0 <= i < |rest| && rest[i] == x && !x.Unreadable? && forall j :: 0 <= j < i ==> rest[j].Unreadable? {
            assert ls[i + 1] == x && forall j :: 0 < j < i + 1 ==> ls[j] == rest[j - 1];
          }
        }
      } else {
        assert IsFirstReadable(ls, ls[0]);
      }
    }
  }

  /** The lines of a file, a whole last one without its newline included. */
  function AllLines(f: File): seq<Line> { f.lines + if f.tail.Whole? then [f.tail.line] else [] }

  /** The first readable line of a file is a header. */
  ghost predicate Begins(f: File, g: Header) {
    IsFirstReadable(AllLines(f), Head(g))
  }

  predicate SameSweep(a: Header, b: Header) { a.grid == b.grid && a.train == b.train && a.test == b.test }

  /** A checkpoint loads if and only if its first readable line is a header of the same grid and phases, and of the same base
      configuration unless that is to be ignored; it then loads exactly the results in it. */
  lemma LoadsIff(f: File, h: Header, ignoreConfig: bool, x: Line)
    ensures var r := Load(f, h, ignoreConfig);
            && (r.Entries? <==> exists g :: Begins(f, g) && SameSweep(g, h) && (ignoreConfig || g.config == h.config))
            && (r == ConfigChanged <==> !ignoreConfig && exists g :: Begins(f, g) && SameSweep(g, h) && g.config != h.config)
            && (r.Entries? ==> (x in r.entries <==> x in AllLines(f) && x.Result?))
  {
    var ls := AllLines(f);
    FirstReadable(ls);
    MembersOf(ls, x);
    var c := Readable(ls);
    assert Content(f) == c;
    hide Readable, IsFirstReadable, Results;
    if c != [] {
      MembersOf(c[1..], x);
      assert c == [c[0]] + c[1..];
    }
  }

  /** Every result in the file is what that combination reports, and only top combinations were tested. */
  ghost predicate Truthful(job: Job, f: File) {
    && (forall l :: l in f.lines ==> LineOk(job, l))
    && (f.tail.Whole? ==> LineOk(job, f.tail.line))
  }

  /** What an interruption can leave of a file. */
  ghost predicate CutFrom(g: File, f: File) {
    || g == f
    || (&& |g.lines| <= |f.lines| && g.lines == f.lines[..|g.lines|]
        && (g.tail.Whole? ==> |g.lines| < |f.lines| && g.tail.line == f.lines[|g.lines|]))
  }

  /** Interruptions and appended results keep a checkpoint truthful. */
  lemma CutAndAppendKeepTruth(job: Job, f: File, g: File, l: Line)
    requires Truthful(job, f) && LineOk(job, l)
    ensures CutFrom(g, f) ==> Truthful(job, g)
    ensures Truthful(job, Appended(f, l))
  {
    if CutFrom(g, f) && g != f {
      assert forall x :: x in g.lines ==> x in f.lines;
    }
    var a := Appended(f, l);
    forall x | x in a.lines ensures LineOk(job, x) {
      assert x in f.lines || x == a.lines[|f.lines|];
    }
  }

  datatype Step = Wrote(line: Line) | Interrupted(left: File)

  /** Sweeps on one checkpoint: results appended, and interruptions, each leaving some part of the file. */
  ghost predicate History(job: Job, f: File, steps: seq<Step>, g: File)
    decreases |steps|
  {
    if steps == [] then g == f
    else match steps[0]
      case Wrote(l) => LineOk(job, l) && History(job, Appended(f, l), steps[1..], g)
      case Interrupted(left) => CutFrom(left, f) && History(job, left, steps[1..], g)
  }

  lemma LinesOk(job: Job, ls: seq<Line>)
    requires forall l :: l in ls ==> l.Result? && LineOk(job, l)
    ensures forall l :: l in ls ==>
              && l.Result? && l.index < job.n && l.metrics == Metric(job, l.phase, l.index)
              && (l.phase.Test? ==> l.index in TopOf(job))
  {
    hide TopOf;
  }

  lemma LoadedAreTrue(job: Job, f: File, h: Header, ignoreConfig: bool)
    requires Truthful(job, f) && Load(f, h, ignoreConfig).Entries?
    ensures forall l :: l in Load(f, h, ignoreConfig).entries ==> l.Result? && LineOk(job, l)
  {
    var ls := Content(f);
    forall l | l in Results(ls[1..]) ensures l.Result? && LineOk(job, l) {
      MembersOf(ls[1..], l);
      assert l in ls;
      MembersOf(f.lines + if f.tail.Whole? then [f.tail.line] else [], l);
      assert l in f.lines || (f.tail.Whole? && l == f.tail.line);
    }
  }

  /** However often a sweep is interrupted and resumed, what its checkpoint loads is what those combinations report. */
  lemma {:induction false} HistoryIsTruthful(job: Job, f: File, steps: seq<Step>, g: File, h: Header, ignoreConfig: bool)
    requires Truthful(job, f) && History(job, f, steps, g)
    ensures Truthful(job, g)
    ensures Load(g, h, ignoreConfig).Entries? ==>
              forall l :: l in Load(g, h, ignoreConfig).entries ==>
                && l.Result? && l.index < job.n && l.metrics == Metric(job, l.phase, l.index)
                && (l.phase.Test? ==> l.index in TopOf(job))
    decreases |steps|
  {
    hide Load, TopOf, LineOk;
    if steps == [] {
      if Load(g, h, ignoreConfig).Entries? {
        LoadedAreTrue(job, g, h, ignoreConfig);
        LinesOk(job, Load(g, h, ignoreConfig).entries);
      }
    } else {
      match steps[0]
      case Wrote(l) =>
        CutAndAppendKeepTruth(job, f, f, l);
        HistoryIsTruthful(job, Appended(f, l), steps[1..], g, h, ignoreConfig);
      case Interrupted(left) =>
        CutAndAppendKeepTruth(job, f, left, Unreadable);
        HistoryIsTruthful(job, left, steps[1..], g, h, ignoreConfig);
    }
  }

  // ---------------------------------------------------------------- the run

  /** The order in which the workers finish: the given tasks, each once. */
  ghost predicate IsOrder(order: seq<nat>, tasks: set<nat>) {
    (forall x :: x in order <==> x in tasks) && forall a, b :: 0 <= a < b < |order| ==> order[a] != order[b]
  }

  ghost function TestTodo(top: seq<nat>, completed: set<(Phase, nat)>): set<nat> { set i | i in top && (Test, i) !in completed }

  ghost predicate Holds(job: Job, results: seq<Combo>, have: set<(Phase, nat)>) {
    && |results| == job.n
    && forall i :: 0 <= i < job.n ==>
         && results[i].train == (if (Train, i) in have then Some(job.train(i)) else None)
         && results[i].test == (if (Test, i) in have then Some(job.test(i)) else None)
  }

  function With(results: seq<Combo>, phase: Phase, i: nat, m: Metrics): seq<Combo>
    requires i < |results|
  {
    results[i := if phase.Train? then results[i].(train := Some(m)) else results[i].(test := Some(m))]
  }

  /** Take over the finished results. */
  method Restore(job: Job, entries: seq<Line>) returns (results: seq<Combo>)
    requires forall l :: l in entries ==> l.Result? && LineOk(job, l)
    ensures Holds(job, results, Completed(entries))
  {
    results := seq(job.n, i => Combo(None, None));
    var k := 0;
    while k < |entries|
      invariant 0 <= k <= |entries| && Holds(job, results, Completed(entries[..k]))
    {
      var l := entries[k];
      assert l in entries;
      assert entries[..k + 1] == entries[..k] + [l];
      assert Completed(entries[..k + 1]) == Completed(entries[..k]) + {(l.phase, l.index)};
      results := With(results, l.phase, l.index, l.metrics);
      k := k + 1;
    }
    assert entries[..k] == entries;
  }

  /** Run the tasks, recording each as its worker finishes. */
  method RunPhase(job: Job, phase: Phase, before: seq<Combo>, checkpoint: File, order: seq<nat>, ghost have: set<(Phase, nat)>)
    returns (results: seq<Combo>, file: File)
    requires Holds(job, before, have) && Truthful(job, checkpoint)
    requires forall x :: x in order ==> x < job.n && (phase.Test? ==> x in TopOf(job))
    ensures Truthful(job, file)
    ensures Holds(job, results, have + set i | i in order :: (phase, i))
  {
    hide TopOf;
    results, file := before, checkpoint;
    ghost var now := have;
    var k := 0;
    while k < |order|
      invariant 0 <= k <= |order| && Truthful(job, file) && Holds(job, results, now)
      invariant now == have + set i | i in order[..k] :: (phase, i)
    {
      var i := order[k];
      assert i in order;
      var m := Metric(job, phase, i);
      CutAndAppendKeepTruth(job, file, file, Result(phase, i, m));
      file := Appended(file, Result(phase, i, m));
      results := With(results, phase, i, m);
      assert order[..k + 1] == order[..k] + [i];
      now := now + {(phase, i)};
      k := k + 1;
    }
    assert order[..k] == order;
  }

  /** The gates of the top, on what is recorded of each. */
  method JudgeTop(job: Job, results: seq<Combo>, top: seq<nat>) returns (verdicts: seq<Verdict>)
    requires forall x :: x in top ==> x < |results| && results[x].train.Some? && results[x].test.Some?
    ensures |verdicts| == |top|
    ensures forall a :: 0 <= a < |top| ==> top[a] in top && verdicts[a] == Judged(job, results[top[a]], top[a])
  {
    verdicts := [];
    var a := 0;
    while a < |top|
      invariant 0 <= a <= |top| && |verdicts| == a
      invariant forall b :: 0 <= b < a ==> top[b] in top && verdicts[b] == Judged(job, results[top[b]], top[b])
    {
      assert top[a] in top;
      verdicts := verdicts + [Judged(job, results[top[a]], top[a])];
      a := a + 1;
    }
  }

  function Tagged(phase: Phase, order: seq<nat>): (r: seq<(Phase, nat)>)
    ensures |r| == |order| && forall k :: 0 <= k < |r| ==> r[k] == (phase, order[k])
  {
    seq(|order|, k requires 0 <= k < |order| => (phase, order[k]))
  }

  lemma RanOnce(job: Job, completed: set<(Phase, nat)>, trainOrder: seq<nat>, testOrder: seq<nat>)
    requires IsOrder(trainOrder, TrainTodo(job.n, completed)) && IsOrder(testOrder, TestTodo(TopOf(job), completed))
    ensures var ran := Tagged(Train, trainOrder) + Tagged(Test, testOrder);
            && (forall a, b :: 0 <= a < b < |ran| ==> ran[a] != ran[b])
            && forall p :: p in ran ==> p !in completed
  {
    hide TopOf;
    var ran := Tagged(Train, trainOrder) + Tagged(Test, testOrder);
    forall k | 0 <= k < |ran| ensures ran[k] !in completed {
      if k < |trainOrder| {
        assert trainOrder[k] in TrainTodo(job.n, completed);
      } else {
        assert testOrder[k - |trainOrder|] in TestTodo(TopOf(job), completed);
      }
    }
  }

  lemma TopOfIs(job: Job)
    ensures TopOf(job) == Top(Scores(job), job.topK)
  {
  }

  lemma TopInRange(job: Job)
    ensures forall x :: x in TopOf(job) ==> x < job.n
  {
    TopIsBest(Scores(job), job.topK);
  }

  lemma AllTrained(job: Job, completed: set<(Phase, nat)>, order: seq<nat>)
    requires IsOrder(order, TrainTodo(job.n, completed))
    ensures forall i :: 0 <= i < job.n ==> (Train, i) in completed + set i | i in order :: (Train, i)
    ensures forall x :: x in order ==> x < job.n && (Train, x) !in completed
  {
    forall i | 0 <= i < job.n ensures (Train, i) in completed + set i | i in order :: (Train, i) {
      if (Train, i) !in completed {
        assert i in TrainTodo(job.n, completed);
      }
    }
  }

  /** In the end exactly the top combinations are tested. */
  lemma OnlyTopTested(job: Job, completed: set<(Phase, nat)>, entries: seq<Line>, trainOrder: seq<nat>, testOrder: seq<nat>)
    requires completed == Completed(entries) && forall l :: l in entries ==> l.Result? && LineOk(job, l)
    requires IsOrder(testOrder, TestTodo(TopOf(job), completed))
    ensures var all := (completed + set i | i in trainOrder :: (Train, i)) + set i | i in testOrder :: (Test, i);
            forall i: nat :: (Test, i) in all <==> i in TopOf(job)
  {
    hide TopOf;
    var all := (completed + set i | i in trainOrder :: (Train, i)) + set i | i in testOrder :: (Test, i);
    forall i: nat ensures (Test, i) in all <==> i in TopOf(job) {
      if (Test, i) in completed {
        var l :| l in entries && l.Result? && (l.phase, l.index) == (Test, i);
      } else if i in TopOf(job) {
        assert i in TestTodo(TopOf(job), completed);
        assert i in testOrder;
      }
      assert i in testOrder ==> i in TestTodo(TopOf(job), completed);
    }
  }

  /** With everything trained and exactly the top tested, the results are those of the uninterrupted sweep. */
  lemma ReferenceCombos(job: Job, results: seq<Combo>, have: set<(Phase, nat)>)
    requires Holds(job, results, have) && forall i :: 0 <= i < job.n ==> (Train, i) in have
    requires (forall i: nat :: (Test, i) in have <==> i in TopOf(job)) && forall x :: x in TopOf(job) ==> x < job.n
    ensures results == Reference(job).combos
    ensures forall x :: x in TopOf(job) ==> x < |results| && results[x] == Combo(Some(job.train(x)), Some(job.test(x)))
  {
    hide TopOf;
  }

  /** A sweep, fresh or resumed, with the workers finishing in any order: the same outcome, and nothing that was
      finished before is run again. */
  method RunSweep(job: Job, header: Header, checkpoint: File, resume: bool, ignoreConfig: bool, trainOrder: seq<nat>,
                  testOrder: seq<nat>)
    returns (out: Option<Outcome>, file: File, ran: seq<(Phase, nat)>)
    requires resume ==> Truthful(job, checkpoint)
    requires var loaded := Load(checkpoint, header, ignoreConfig);
             var completed := if resume && loaded.Entries? then Completed(loaded.entries) else {};
             && IsOrder(trainOrder, TrainTodo(job.n, completed))
             && IsOrder(testOrder, TestTodo(TopOf(job), completed))
    ensures resume && !Load(checkpoint, header, ignoreConfig).Entries? ==> out.None? && file == checkpoint && ran == []
    ensures !resume || Load(checkpoint, header, ignoreConfig).Entries? ==> out == Some(Reference(job)) && Truthful(job, file)
    ensures forall a, b :: 0 <= a < b < |ran| ==> ran[a] != ran[b]
    ensures resume && Load(checkpoint, header, ignoreConfig).Entries? ==>
              forall p :: p in ran ==> p !in Completed(Load(checkpoint, header, ignoreConfig).entries)
  {
    file, ran := checkpoint, [];
    var entries: seq<Line> := [];
    if resume {
      var loaded := Load(checkpoint, header, ignoreConfig);
      if !loaded.Entries? {
        return None, checkpoint, [];
      }
      entries := loaded.entries;
      LoadedAreTrue(job, checkpoint, header, ignoreConfig);
    } else {
      file := File([Head(header)], Clean);
    }
    hide TopOf, Load;
    ghost var completed := Completed(entries);
    assert !resume ==> completed == {};
    var results := Restore(job, entries);
    TopInRange(job);
    results, file := RunPhase(job, Train, results, file, trainOrder, completed);
    ghost var trained := completed + set i | i in trainOrder :: (Train, i);
    AllTrained(job, completed, trainOrder);
    var scores := seq(job.n, i requires 0 <= i < job.n && results[i].train.Some? => Score(job, results[i].train.value));
    assert scores == Scores(job);
    var top := Top(scores, job.topK);
    assert top == TopOf(job) by { TopOfIs(job); }
    results, file := RunPhase(job, Test, results, file, testOrder, trained);
    OnlyTopTested(job, completed, entries, trainOrder, testOrder);
    ReferenceCombos(job, results, trained + set i | i in testOrder :: (Test, i));
    hide Holds;
    var verdicts := JudgeTop(job, results, top);
    assert verdicts == Verdicts(job, top);
    out := Some(Outcome(results, scores, verdicts));
    ran := Tagged(Train, trainOrder) + Tagged(Test, testOrder);
    RanOnce(job, completed, trainOrder, testOrder);
  }

  // ---------------------------------------------------------------- what the outcome says

  ghost predicate Monotone(f: real -> real) {
    forall x, y :: x <= y ==> f(x) <= f(y)
  }

  lemma PenaltyOrder(k: real, a: real, b: real)
    requires k >= 0.0 && a <= b
    ensures Penalty(k, a) <= Penalty(k, b)
  {
    assert k * (b - a) >= 0.0;
  }

  lemma PenaltyMinus(k: real, a: real, b: real)
    ensures k * (a - b) == Penalty(k, a) - Penalty(k, b)
  {
  }

  lemma ReferenceScore(job: Job, i: nat)
    requires i < job.n
    ensures |Reference(job).scores| == job.n
    ensures var m := job.train(i);
            Reference(job).scores[i] == if m.trades < job.minTrainTrades then None
                                        else Some(job.rounded(m.expectancyR - Penalty(job.drawdownPenalty, m.maxDrawdownR)))
  {
    hide Penalty;
  }

  /** A combination is scored if and only if its training made the least number of trades. */
  lemma ScoredIff(job: Job, i: nat)
    requires i < job.n
    ensures Reference(job).scores[i].Some? <==> job.train(i).trades >= job.minTrainTrades
  {
  }

  /** No less expectancy and no more drawdown is never scored lower: drawdown costs, expectancy pays. */
  lemma BetterScoresNoLower(job: Job, i: nat, j: nat)
    requires i < job.n && j < job.n && job.drawdownPenalty >= 0.0 && Monotone(job.rounded)
    requires Reference(job).scores[i].Some? && Reference(job).scores[j].Some?
    requires job.train(i).expectancyR >= job.train(j).expectancyR && job.train(i).maxDrawdownR <= job.train(j).maxDrawdownR
    ensures Reference(job).scores[i].value >= Reference(job).scores[j].value
  {
    PenaltyOrder(job.drawdownPenalty, job.train(i).maxDrawdownR, job.train(j).maxDrawdownR);
    ReferenceScore(job, i);
    ReferenceScore(job, j);
    hide Penalty, Reference;
    var x := job.train(i).expectancyR - Penalty(job.drawdownPenalty, job.train(i).maxDrawdownR);
    var y := job.train(j).expectancyR - Penalty(job.drawdownPenalty, job.train(j).maxDrawdownR);
    assert job.rounded(y) <= job.rounded(x);
  }

  /** Without rounding one of two scored combinations is ranked ahead if and only if its lead in expectancy is more than the
      penalty on its extra drawdown, or as much and it comes first. */
  lemma AheadIff(job: Job, i: nat, j: nat)
    requires i < job.n && j < job.n && forall x :: job.rounded(x) == x
    requires Reference(job).scores[i].Some? && Reference(job).scores[j].Some?
    ensures var lead := job.train(i).expectancyR - job.train(j).expectancyR;
            var price := job.drawdownPenalty * (job.train(i).maxDrawdownR - job.train(j).maxDrawdownR);
            Before(Reference(job).scores, i, j) <==> lead > price || (lead == price && i < j)
  {
    PenaltyMinus(job.drawdownPenalty, job.train(i).maxDrawdownR, job.train(j).maxDrawdownR);
    ReferenceScore(job, i);
    ReferenceScore(job, j);
    hide Penalty, Reference, Scores;
  }

  /** The combinations tested are scored ones, and no scored combination left out is ahead of one of them; there are as many as
      asked for, unless every scored one is there. */
  lemma TestedAreAhead(job: Job, i: nat, j: nat)
    requires i < job.n && Reference(job).combos[i].test.Some?
    requires j < job.n && Reference(job).scores[j].Some? && Reference(job).combos[j].test.None?
    ensures Reference(job).scores[i].Some? && Before(Reference(job).scores, i, j)
    ensures |Reference(job).top| == job.topK
  {
    TopIsBest(Scores(job), job.topK);
    hide Top, Before, Score;
  }

  /** What the gates mean for a combination that was tested: it is overfit when the test lost although the training won, or fell
      short of it by more than 0.3 R; it passes when the test won, both together made a hundred trades, and the test's drawdown
      was within five daily loss limits. */
  lemma VerdictMeans(job: Job, a: nat)
    requires a < |Reference(job).top|
    ensures var v := Reference(job).top[a];
            && v.index < job.n
            && var x, y := job.train(v.index), job.test(v.index);
            && (v.overfit <==> (x.expectancyR > 0.0 && y.expectancyR < 0.0) || y.expectancyR < x.expectancyR - 0.3)
            && (v.passes <==> y.expectancyR > 0.0 && x.trades + y.trades >= 100 && y.maxDrawdownR <= 5.0 * job.lossLimit)
  {
    TopInRange(job);
    assert Reference(job).top[a].index == TopOf(job)[a] && TopOf(job)[a] in TopOf(job);
    hide TopOf, Scores;
  }

  /** Between jobs that report the same training: a test with no less expectancy, no fewer trades and no more drawdown never
      loses the gate, and one with no less expectancy is never newly overfit. */
  lemma BetterTestKeepsVerdict(job: Job, x: Metrics, y: Metrics, better: Metrics)
    requires better.expectancyR >= y.expectancyR
    ensures IsOverfit(x, better) ==> IsOverfit(x, y)
    ensures better.trades >= y.trades && better.maxDrawdownR <= y.maxDrawdownR && PassesGate(job, x, y)
      ==> PassesGate(job, x, better)
  {
  }
}
