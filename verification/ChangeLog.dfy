/**
 A late closed bar is judged against the stop and partial status in force at its own start.  The
 engine reads them from a log it prunes after every bar; here that log is shown to answer exactly
 as one that is never pruned.
 */
module ChangeLog {
  import opened Common
  import opened Positions
  import opened Lifecycle

  /** The reference machine: the same step, but no change is ever forgotten. */
  function FullStep(c: Rules, t: Trade, p: Price): Outcome {
    if !Applies(t, p) then Outcome(t, []) else
    var j := Judged(t, p, t.changes);
    var u := Update(c, Arrive(t, p), p, j.0, j.1);
    Outcome(u.trade.(changes := Logged(t, u.trade, p.ts)), u.events)
  }

  function FullRun(c: Rules, t: Trade, ps: seq<Price>): Outcome
    decreases |ps|
  {
    if ps == [] then Outcome(t, []) else
    var a := FullStep(c, t, ps[0]);
    var b := FullRun(c, a.trade, ps[1..]);
    Outcome(b.trade, a.events + b.events)
  }

  /** No closed bar is newer than another by less than five minutes. */
  ghost predicate Spaced(ps: seq<Price>) {
    forall i, j :: 0 <= i < j < |ps| && ps[i].barClosed && ps[j].barClosed ==>
                     !(ps[i].ts < ps[j].ts < ps[i].ts + BAR)
  }

  ghost predicate SpacedFrom(last: Option<int>, ps: seq<Price>) {
    last.Some? ==> forall j :: 0 <= j < |ps| && ps[j].barClosed ==> !(last.value < ps[j].ts < last.value + BAR)
  }

  function Recent(last: Option<int>, cs: seq<Change>): seq<Change> {
    if last.None? then cs else After(cs, last.value)
  }

  /** The pruned trade is the full one with only the changes newer than its last bar. */
  ghost predicate Refines(t: Trade, full: Trade) {
    t == full.(changes := Recent(full.lastBar, full.changes))
  }

  ghost predicate Sorted(cs: seq<Change>) {
    forall i, j :: 0 <= i < j < |cs| ==> cs[i].at < cs[j].at
  }

  /** The kept log: strictly time-sorted, newer than the last bar, no newer than the last tick. */
  ghost predicate Tidy(t: Trade) {
    && Sorted(t.changes)
    && (forall i :: 0 <= i < |t.changes| ==> t.lastTick.Some? && t.changes[i].at <= t.lastTick.value)
    && (forall i :: 0 <= i < |t.changes| ==> t.lastBar.Some? ==> t.changes[i].at > t.lastBar.value)
  }

  // ---------------------------------------------------------------- filtering

  lemma {:induction false} AfterAppend(cs: seq<Change>, x: Change, ts: int)
    ensures After(cs + [x], ts) == After(cs, ts) + if x.at > ts then [x] else []
  {
    if cs == [] {
      assert (cs + [x])[1..] == [];
    } else {
      assert (cs + [x])[1..] == cs[1..] + [x];
      AfterAppend(cs[1..], x, ts);
    }
  }

  lemma {:induction false} AfterAfter(cs: seq<Change>, a: int, b: int)
    requires a <= b
    ensures After(After(cs, a), b) == After(cs, b)
  {
    if cs != [] {
      AfterAfter(cs[1..], a, b);
      var rest := After(cs[1..], a);
      if cs[0].at > a {
        assert After(cs, a) == [cs[0]] + rest;
        assert ([cs[0]] + rest)[1..] == rest;
      } else {
        assert After(cs, a) == rest;
      }
    }
  }

  lemma {:induction false} AfterSorted(cs: seq<Change>, ts: int)
    requires Sorted(cs)
    ensures Sorted(After(cs, ts))
  {
    if cs != [] {
      AfterSorted(cs[1..], ts);
      forall x | x in After(cs[1..], ts) ensures x.at > cs[0].at {
        AfterOnly(cs[1..], ts, x);
        var i :| 0 <= i < |cs[1..]| && cs[1..][i] == x;
        assert cs[i + 1] == x;
      }
    }
  }

  lemma {:induction false} EarliestIn(cs: seq<Change>)
    requires cs != []
    ensures Earliest(cs) in cs && forall x :: x in cs ==> Earliest(cs).at <= x.at
  {
    if |cs| > 1 {
      EarliestIn(cs[1..]);
      assert cs == [cs[0]] + cs[1..];
    }
  }

  // ---------------------------------------------------------------- one price

  /** No change of the full log falls between the start of a closed bar and the last bar before it: the changes the
      pruned log has forgotten are not the ones this bar must be judged against. */
  ghost predicate Clear(full: Trade, p: Price) {
    Applies(full, p) && p.barClosed && full.lastBar.Some? ==>
      forall x :: x in full.changes ==> !(p.ts - BAR < x.at <= full.lastBar.value)
  }

  lemma {:induction false} AfterSkips(cs: seq<Change>, a: int, b: int)
    requires a <= b && forall x :: x in cs ==> !(a < x.at <= b)
    ensures After(cs, a) == After(cs, b)
  {
    if cs != [] {
      assert cs[0] in cs && forall x :: x in cs[1..] ==> x in cs;
      AfterSkips(cs[1..], a, b);
    }
  }

  lemma {:induction false} AfterAgain(cs: seq<Change>, a: int, b: int)
    requires b <= a
    ensures After(After(cs, a), b) == After(cs, a)
  {
    if cs != [] {
      AfterAgain(cs[1..], a, b);
      var rest := After(cs[1..], a);
      if cs[0].at > a {
        assert After(cs, a) == [cs[0]] + rest;
        assert ([cs[0]] + rest)[1..] == rest;
      } else {
        assert After(cs, a) == rest;
      }
    }
  }

  lemma SameJudgement(t: Trade, full: Trade, p: Price)
    requires Refines(t, full) && Applies(t, p) && Clear(full, p)
    ensures Judged(t, p, t.changes) == Judged(full, p, full.changes)
  {
    if p.barClosed && full.lastBar.Some? {
      var last, start := full.lastBar.value, p.ts - BAR;
      if last <= start {
        AfterAfter(full.changes, last, start);
      } else {
        AfterAgain(full.changes, last, start);
        AfterSkips(full.changes, start, last);
      }
    }
  }

  lemma BranchesIgnoreLog(c: Rules, t: Trade, cs: seq<Change>, p: Price)
    ensures TakePartial(c, t.(changes := cs), p)
         == Outcome(TakePartial(c, t, p).trade.(changes := cs), TakePartial(c, t, p).events)
    ensures TrailBar(c, t.(changes := cs), p)
         == Outcome(TrailBar(c, t, p).trade.(changes := cs), TrailBar(c, t, p).events)
  {
    hide ROf, Touches, Level, PartialSize;
  }

  lemma UpdateIgnoresLog(c: Rules, t: Trade, cs: seq<Change>, p: Price, stop: real, partial: bool)
    ensures Update(c, t.(changes := cs), p, stop, partial)
         == Outcome(Update(c, t, p, stop, partial).trade.(changes := cs), Update(c, t, p, stop, partial).events)
  {
    hide ROf, Touches, Level, PartialSize, TakePartial, TrailBar;
    var a := TakePartial(c, t, p);
    BranchesIgnoreLog(c, t, cs, p);
    BranchesIgnoreLog(c, a.trade, cs, p);
  }

  lemma StepRefines(c: Rules, t: Trade, full: Trade, p: Price)
    requires Refines(t, full) && Clear(full, p)
    ensures Refines(Step(c, t, p).trade, FullStep(c, full, p).trade)
    ensures Step(c, t, p).events == FullStep(c, full, p).events
    ensures p.barClosed ==> var l := Step(c, t, p).trade.lastBar; Applies(t, p) ==> l == Some(p.ts)
  {
    hide Update, Judged;
    if Applies(t, p) {
      SameJudgement(t, full, p);
      var j := Judged(t, p, t.changes);
      var t0, f0 := Arrive(t, p), Arrive(full, p);
      UpdateIgnoresLog(c, t0, f0.changes, p, j.0, j.1);
      UpdateFrame(c, t0, p, j.0, j.1);
      UpdateFrame(c, f0, p, j.0, j.1);
      var u := Update(c, t0, p, j.0, j.1).trade;
      var x := Change(p.ts, t.stop, t.partialDone);
      if full.lastBar.Some? {
        AfterAppend(full.changes, x, full.lastBar.value);
        AfterAppend(t.changes, x, p.ts);
        AfterAppend(full.changes, x, p.ts);
        AfterAfter(full.changes, full.lastBar.value, p.ts);
      }
    }
  }

  lemma StepTidy(c: Rules, t: Trade, p: Price)
    requires Tidy(t)
    ensures Tidy(Step(c, t, p).trade)
  {
    hide Update, Judged;
    if Applies(t, p) {
      var j := Judged(t, p, t.changes);
      UpdateFrame(c, Arrive(t, p), p, j.0, j.1);
      var u := Update(c, Arrive(t, p), p, j.0, j.1).trade;
      var log := Logged(t, u, p.ts);
      if p.barClosed {
        AfterAppend(t.changes, Change(p.ts, t.stop, t.partialDone), p.ts);
        AfterSorted(t.changes, p.ts);
        var kept := After(log, p.ts);
        assert kept == After(t.changes, p.ts);
        forall i | 0 <= i < |kept| ensures kept[i] in t.changes && kept[i].at > p.ts {
          AfterOnly(t.changes, p.ts, kept[i]);
        }
      }
    }
  }

  // ---------------------------------------------------------------- recorded states are all different

  predicate Looser(d: Direction, a: (real, bool), b: (real, bool)) {
    NotLooser(d, b.0, a.0) && (a.1 ==> b.1) && a != b
  }

  function StateOf(x: Change): (real, bool) { (x.stop, x.partial) }

  /** Each recorded state is strictly looser than every later one and than the current one. */
  ghost predicate Climbs(t: Trade) {
    && (forall i, j :: 0 <= i < j < |t.changes| ==> Looser(t.terms.dir, StateOf(t.changes[i]), StateOf(t.changes[j])))
    && (!t.closed ==>
          forall i :: 0 <= i < |t.changes| ==> Looser(t.terms.dir, StateOf(t.changes[i]), (t.stop, t.partialDone)))
  }

  lemma LoggedClimbs(t: Trade, u: Trade, ts: int)
    requires Climbs(t) && !t.closed && u.terms == t.terms && u.changes == t.changes
    requires NotLooser(t.terms.dir, u.stop, t.stop) && (t.partialDone ==> u.partialDone)
    ensures Climbs(u.(changes := Logged(t, u, ts)))
  {
  }

  lemma FullStepClimbs(c: Rules, full: Trade, p: Price)
    requires Sound(c, full) && Climbs(full)
    ensures Sound(c, FullStep(c, full, p).trade) && Climbs(FullStep(c, full, p).trade)
  {
    if Applies(full, p) {
      var j, t0 := Judged(full, p, full.changes), Arrive(full, p);
      assert Sound(c, t0);
      UpdateKeeps(c, t0, p, j.0, j.1);
      UpdatePartialRecorded(c, t0, p, j.0, j.1);
      var u := Update(c, t0, p, j.0, j.1).trade;
      hide Update, Judged, Sound, PartialSize, Scan, Sold;
      KeepsIsSound(c, t0, Update(c, t0, p, j.0, j.1));
      LoggedIsSound(c, full, u, p.ts);
      LoggedClimbs(full, u, p.ts);
    }
  }

  lemma EarliestForgotten(full: Trade, p: Price) returns (e: Change)
    requires !Clear(full, p)
    ensures var late := After(full.changes, p.ts - BAR);
            late != [] && e == Earliest(late) && e in full.changes && e.at <= full.lastBar.value
  {
    var last, start := full.lastBar.value, p.ts - BAR;
    var x :| x in full.changes && start < x.at <= last;
    var late := After(full.changes, start);
    AfterOnly(full.changes, start, x);
    EarliestIn(late);
    e := Earliest(late);
    AfterOnly(full.changes, start, e);
  }

  lemma StatesDiffer(t: Trade, x: Change, y: Change)
    requires Climbs(t) && x in t.changes && y in t.changes && x.at != y.at
    ensures StateOf(x) != StateOf(y)
  {
    var i :| 0 <= i < |t.changes| && t.changes[i] == x;
    var j :| 0 <= j < |t.changes| && t.changes[j] == y;
  }

  /** A forgotten change that the bar should be judged against has a state the pruned log cannot give. */
  lemma ForgottenDiffers(t: Trade, full: Trade, p: Price)
    requires Refines(t, full) && Climbs(full) && !Clear(full, p)
    ensures Judged(t, p, t.changes) != Judged(full, p, full.changes)
  {
    var last, start := full.lastBar.value, p.ts - BAR;
    var late, kept := After(full.changes, start), After(t.changes, start);
    var e := EarliestForgotten(full, p);
    assert Judged(full, p, full.changes) == StateOf(e) by {
      hide ROf;
    }
    hide Clear;
    if kept != [] {
      EarliestIn(kept);
      var y := Earliest(kept);
      AfterOnly(t.changes, start, y);
      AfterOnly(full.changes, last, y);
      StatesDiffer(full, e, y);
      assert Judged(t, p, t.changes) == StateOf(y);
    } else {
      assert Judged(t, p, t.changes) == (t.stop, t.partialDone);
      var i :| 0 <= i < |full.changes| && full.changes[i] == e;
    }
  }

  /** The judgement of a bar is that of the full log exactly when the bar is clear. */
  lemma JudgedAlikeIff(t: Trade, full: Trade, p: Price)
    requires Refines(t, full) && Climbs(full) && Applies(t, p)
    ensures Judged(t, p, t.changes) == Judged(full, p, full.changes) <==> Clear(full, p)
  {
    if Clear(full, p) {
      SameJudgement(t, full, p);
    } else {
      ForgottenDiffers(t, full, p);
    }
  }

  // ---------------------------------------------------------------- every run

  /** Every bar of the run is clear when it comes, in the full machine. */
  ghost predicate AllClear(c: Rules, full: Trade, ps: seq<Price>)
    decreases |ps|
  {
    ps == [] || (Clear(full, ps[0]) && AllClear(c, FullStep(c, full, ps[0]).trade, ps[1..]))
  }

  /** Every price of the run is judged alike by the two machines. */
  ghost predicate AllAlike(c: Rules, t: Trade, full: Trade, ps: seq<Price>)
    decreases |ps|
  {
    ps == [] || (&& (Applies(t, ps[0]) ==> Judged(t, ps[0], t.changes) == Judged(full, ps[0], full.changes))
                 && AllAlike(c, Step(c, t, ps[0]).trade, FullStep(c, full, ps[0]).trade, ps[1..]))
  }

  lemma NotAppliedIsClear(full: Trade, p: Price)
    requires !Applies(full, p)
    ensures Clear(full, p)
  {
  }

  lemma {:induction false} AlikeIff(c: Rules, t: Trade, full: Trade, ps: seq<Price>)
    requires Refines(t, full) && Sound(c, full) && Climbs(full)
    ensures AllAlike(c, t, full, ps) <==> AllClear(c, full, ps)
    decreases |ps|
  {
    hide Step, FullStep, Climbs, Clear, Sound, Judged;
    if ps != [] {
      assert Applies(t, ps[0]) == Applies(full, ps[0]);
      if Applies(t, ps[0]) {
        JudgedAlikeIff(t, full, ps[0]);
      } else {
        NotAppliedIsClear(full, ps[0]);
      }
      if Clear(full, ps[0]) {
        StepRefines(c, t, full, ps[0]);
        FullStepClimbs(c, full, ps[0]);
        AlikeIff(c, Step(c, t, ps[0]).trade, FullStep(c, full, ps[0]).trade, ps[1..]);
      }
    }
  }

  /** On every run, of any bars and ticks: the pruned log judges every price as the log that forgets nothing does if and
      only if no closed bar comes with a change of the full log between its own start and the last bar before it. */
  lemma PrunedJudgesAlikeIff(c: Rules, k: Terms, entryBar: Option<int>, ps: seq<Price>)
    requires k.qty >= 1
    ensures AllAlike(c, Opened(k, entryBar), Opened(k, entryBar), ps) <==> AllClear(c, Opened(k, entryBar), ps)
  {
    AlikeIff(c, Opened(k, entryBar), Opened(k, entryBar), ps);
  }

  lemma {:induction false} RunRefines(c: Rules, t: Trade, full: Trade, ps: seq<Price>)
    requires Refines(t, full) && Tidy(t) && AllClear(c, full, ps)
    ensures Run(c, t, ps).events == FullRun(c, full, ps).events
    ensures Refines(Run(c, t, ps).trade, FullRun(c, full, ps).trade)
    ensures Tidy(Run(c, t, ps).trade)
    decreases |ps|
  {
    hide Step, FullStep, Refines, Tidy, Clear;
    if ps != [] {
      StepRefines(c, t, full, ps[0]);
      StepTidy(c, t, ps[0]);
      RunRefines(c, Step(c, t, ps[0]).trade, FullStep(c, full, ps[0]).trade, ps[1..]);
    }
  }

  lemma LastBarFrom(c: Rules, t: Trade, p: Price)
    ensures var l := FullStep(c, t, p).trade.lastBar;
            l == t.lastBar || (p.barClosed && l == Some(p.ts))
  {
    hide Update, Judged;
    if Applies(t, p) {
      var j := Judged(t, p, t.changes);
      UpdateFrame(c, Arrive(t, p), p, j.0, j.1);
    }
  }

  /** Bars five minutes apart are clear. */
  lemma {:induction false} SpacedIsClear(c: Rules, full: Trade, ps: seq<Price>)
    requires Spaced(ps) && SpacedFrom(full.lastBar, ps)
    ensures AllClear(c, full, ps)
    decreases |ps|
  {
    hide FullStep;
    if ps != [] {
      LastBarFrom(c, full, ps[0]);
      SpacedIsClear(c, FullStep(c, full, ps[0]).trade, ps[1..]);
    }
  }

  /** Where every bar is clear, and so wherever closed bars are at least five minutes apart, the pruned machine emits the
      events of the machine that forgets nothing and ends in its state; its log is the recent end of the full one. */
  lemma PrunedLogRefinesFullLog(c: Rules, k: Terms, entryBar: Option<int>, ps: seq<Price>)
    requires Spaced(ps) || AllClear(c, Opened(k, entryBar), ps)
    ensures var pruned, full := Run(c, Opened(k, entryBar), ps), FullRun(c, Opened(k, entryBar), ps);
            && pruned.events == full.events
            && pruned.trade == full.trade.(changes := Recent(full.trade.lastBar, full.trade.changes))
            && Tidy(pruned.trade)
  {
    hide Step, FullStep, AllClear, Spaced;
    if Spaced(ps) {
      SpacedIsClear(c, Opened(k, entryBar), ps);
    }
    RunRefines(c, Opened(k, entryBar), Opened(k, entryBar), ps);
  }

  lemma SoundJudges(c: Rules, t: Trade, p: Price)
    requires Sound(c, t)
    ensures var j := Judged(t, p, t.changes);
            NotLooser(t.terms.dir, t.stop, j.0) && NotLooser(t.terms.dir, j.0, t.terms.initialStop)
  {
    hide PartialSize;
    var later := After(t.changes, p.ts - BAR);
    if later != [] {
      EarliestIn(later);
      AfterOnly(t.changes, p.ts - BAR, Earliest(later));
    }
  }

  /** Every recorded stop lies between the initial stop and the current one, so a late bar is never judged tighter
      than the stop now in force. */
  lemma RecordedStopsAreLooser(c: Rules, k: Terms, entryBar: Option<int>, ps: seq<Price>, p: Price)
    requires k.qty >= 1
    ensures var t := Run(c, Opened(k, entryBar), ps).trade;
            NotLooser(k.dir, t.stop, Judged(t, p, t.changes).0) && NotLooser(k.dir, Judged(t, p, t.changes).0, k.initialStop)
  {
    hide Step, Run, Scan, Sold, Sound, NotLooser, Judged;
    OpenedSound(c, k, entryBar);
    RunIsSound(c, Opened(k, entryBar), ps);
    SoundJudges(c, Run(c, Opened(k, entryBar), ps).trade, p);
  }

  // ---------------------------------------------------------------- the state at a bar's own start

  lemma {:induction false} EarliestAppend(cs: seq<Change>, x: Change)
    requires cs != [] && forall y :: y in cs ==> y.at <= x.at
    ensures Earliest(cs + [x]) == Earliest(cs)
  {
    assert (cs + [x])[1..] == cs[1..] + [x];
    assert cs[0] in cs;
    if |cs| > 1 {
      assert cs == [cs[0]] + cs[1..];
      EarliestAppend(cs[1..], x);
      EarliestIn(cs[1..]);
    }
  }

  /** Nothing recorded is newer than `at`. */
  ghost predicate NoNewer(cs: seq<Change>, at: int) {
    forall x :: x in cs ==> x.at <= at
  }

  lemma StepNoNewer(c: Rules, t: Trade, p: Price, at: int)
    requires NoNewer(t.changes, at) && p.ts <= at
    ensures NoNewer(Step(c, t, p).trade.changes, at)
  {
    hide Update, Judged;
    if Applies(t, p) {
      var j := Judged(t, p, t.changes);
      UpdateFrame(c, Arrive(t, p), p, j.0, j.1);
      var log := Logged(t, Update(c, Arrive(t, p), p, j.0, j.1).trade, p.ts);
      forall x | x in After(log, p.ts) ensures x in log {
        AfterOnly(log, p.ts, x);
      }
    }
  }

  lemma {:induction false} RunNoNewer(c: Rules, t: Trade, ps: seq<Price>, at: int)
    requires NoNewer(t.changes, at) && forall i :: 0 <= i < |ps| ==> ps[i].ts <= at
    ensures NoNewer(Run(c, t, ps).trade.changes, at)
    decreases |ps|
  {
    hide Step, NoNewer;
    if ps != [] {
      StepNoNewer(c, t, ps[0], at);
      RunNoNewer(c, Step(c, t, ps[0]).trade, ps[1..], at);
    }
  }

  /** The log tells, of the instant `start`, the given state. */
  ghost predicate Tells(t: Trade, start: int, state: (real, bool)) {
    var late := After(t.changes, start);
    state == if late == [] then (t.stop, t.partialDone) else StateOf(Earliest(late))
  }

  lemma {:induction false} NothingLate(cs: seq<Change>, at: int)
    requires NoNewer(cs, at)
    ensures After(cs, at) == []
  {
    if cs != [] {
      assert cs[0] in cs && forall x :: x in cs[1..] ==> x in cs;
      NothingLate(cs[1..], at);
    }
  }

  /** A later tick does not change what the log tells. */
  lemma TickTells(c: Rules, t: Trade, p: Price, start: int, state: (real, bool))
    requires Tells(t, start, state) && Tidy(t) && !p.barClosed && p.ts > start
    requires !Step(c, t, p).trade.closed
    ensures Tells(Step(c, t, p).trade, start, state)
  {
    hide Update, Judged;
    if Applies(t, p) {
      var j := Judged(t, p, t.changes);
      UpdateFrame(c, Arrive(t, p), p, j.0, j.1);
      var x := Change(p.ts, t.stop, t.partialDone);
      var late := After(t.changes, start);
      AfterAppend(t.changes, x, start);
      forall y | y in late ensures y.at <= x.at {
        AfterOnly(t.changes, start, y);
      }
      if late != [] {
        EarliestAppend(late, x);
      }
    }
  }

  lemma ClosedKeeps(c: Rules, t: Trade, p: Price)
    ensures t.closed ==> Step(c, t, p).trade == t
  {
  }

  lemma {:induction false} OpenBefore(c: Rules, t: Trade, ps: seq<Price>)
    requires !Run(c, t, ps).trade.closed
    ensures !t.closed
    decreases |ps|
  {
    hide Step;
    if ps != [] {
      OpenBefore(c, Step(c, t, ps[0]).trade, ps[1..]);
      ClosedKeeps(c, t, ps[0]);
    }
  }

  lemma {:induction false} TicksTell(c: Rules, t: Trade, ps: seq<Price>, start: int, state: (real, bool))
    requires Tells(t, start, state) && Tidy(t) && !Run(c, t, ps).trade.closed
    requires forall i :: 0 <= i < |ps| ==> !ps[i].barClosed && ps[i].ts > start
    ensures Tells(Run(c, t, ps).trade, start, state)
    decreases |ps|
  {
    hide Step, Tells, Tidy;
    if ps != [] {
      var u := Step(c, t, ps[0]).trade;
      OpenBefore(c, u, ps[1..]);
      TickTells(c, t, ps[0], start, state);
      StepTidy(c, t, ps[0]);
      TicksTell(c, u, ps[1..], start, state);
    }
  }

  lemma {:induction false} RunTidy(c: Rules, t: Trade, ps: seq<Price>)
    requires Tidy(t)
    ensures Tidy(Run(c, t, ps).trade)
    decreases |ps|
  {
    hide Step, Tidy;
    if ps != [] {
      StepTidy(c, t, ps[0]);
      RunTidy(c, Step(c, t, ps[0]).trade, ps[1..]);
    }
  }

  lemma JudgedByLog(t: Trade, p: Price, state: (real, bool))
    requires Tells(t, p.ts - BAR, state) && p.barClosed
    ensures Judged(t, p, t.changes) == state
  {
  }

  /** A bar is judged by the stop and the partial status in force when it began: those after the prices up to its start,
      whatever ticks came since, even ticks from after its close. */
  lemma JudgedAsOfStart(c: Rules, k: Terms, entryBar: Option<int>, before: seq<Price>, ticks: seq<Price>, p: Price)
    requires p.barClosed && !Run(c, Opened(k, entryBar), before + ticks).trade.closed
    requires forall i :: 0 <= i < |before| ==> before[i].ts <= p.ts - BAR
    requires forall i :: 0 <= i < |ticks| ==> !ticks[i].barClosed && ticks[i].ts > p.ts - BAR
    ensures var t, began := Run(c, Opened(k, entryBar), before + ticks).trade, Run(c, Opened(k, entryBar), before).trade;
            Judged(t, p, t.changes) == (began.stop, began.partialDone)
  {
    hide Step, Run, Judged;
    var start := Opened(k, entryBar);
    RunNoNewer(c, start, before, p.ts - BAR);
    RunTidy(c, start, before);
    RunAppend(c, start, before, ticks);
    var began := Run(c, start, before).trade;
    NothingLate(began.changes, p.ts - BAR);
    TicksTell(c, began, ticks, p.ts - BAR, (began.stop, began.partialDone));
    JudgedByLog(Run(c, start, before + ticks).trade, p, (began.stop, began.partialDone));
  }

  // ---------------------------------------------------------------- two closer bars that part the logs

  const RULES: Rules := Rules(0.5, 3, DAY, 2.0, 3.0, true)
  const TERMS: Terms := Terms(1, "SBIN", "orb", Long, 100.0, 98.0, 104.0, 106.0, 10, 100.0)
  const TICK := Price(10_000_000, 104.0, 104.0, 104.0, false, None)
  const BAR1 := Price(20_000_000, 103.0, 101.0, 102.0, true, None)
  const BAR2 := Price(21_000_000, 103.0, 99.0, 102.0, true, None)
  const BREAKEVEN := Change(10_000_000, 98.0, false)

  ghost predicate HalfSold(t: Trade, cs: seq<Change>, bars: nat) {
    && t.terms == TERMS && t.stop == 100.0 && t.remaining == 5 && t.partialDone && !t.closed && t.changes == cs
    && |t.lows| == bars && |t.highs| == bars
    && t.lastBar == (if bars == 0 then None else Some(20_000_000)) && t.lastTick == Some(10_000_000)
  }

  lemma AfterOne(x: Change, ts: int)
    ensures After([x], ts) == if x.at > ts then [x] else []
  {
    assert [x][1..] == [];
  }

  lemma TickSellsHalf()
    ensures Step(RULES, Opened(TERMS, None), TICK) == FullStep(RULES, Opened(TERMS, None), TICK)
    ensures HalfSold(Step(RULES, Opened(TERMS, None), TICK).trade, [BREAKEVEN], 0)
  {
    var t := Arrive(Opened(TERMS, None), TICK);
    var m := TakePartial(RULES, t, TICK).trade;
    assert PartialSize(RULES, 10) == 5;
    assert m.partialDone && m.stop == 100.0 && m.remaining == 5 && !m.closed;
  }

  lemma QuietBar(t: Trade)
    requires HalfSold(t, [BREAKEVEN], 0)
    ensures Step(RULES, t, BAR1).events == FullStep(RULES, t, BAR1).events == []
    ensures HalfSold(Step(RULES, t, BAR1).trade, [], 1) && HalfSold(FullStep(RULES, t, BAR1).trade, [BREAKEVEN], 1)
  {
    AfterOne(BREAKEVEN, BAR1.ts - BAR);
    AfterOne(BREAKEVEN, BAR1.ts);
    var u := Update(RULES, Arrive(t, BAR1), BAR1, 98.0, false);
    assert u.events == [] && u.trade.stop == 100.0;
  }

  lemma BarsPartWays(t: Trade, full: Trade)
    requires HalfSold(t, [], 1) && HalfSold(full, [BREAKEVEN], 1)
    ensures Step(RULES, t, BAR2).events != [] && FullStep(RULES, full, BAR2).events == []
  {
    AfterOne(BREAKEVEN, BAR2.ts - BAR);
    assert Judged(t, BAR2, []) == (100.0, true);
    assert Judged(full, BAR2, [BREAKEVEN]) == (98.0, false);
  }

  lemma RunOne(c: Rules, t: Trade, p: Price)
    ensures Run(c, t, [p]) == Step(c, t, p) && FullRun(c, t, [p]) == FullStep(c, t, p)
  {
    hide Step, FullStep;
    assert [p][1..] == [] && Run(c, Step(c, t, p).trade, []).events == [] && FullRun(c, FullStep(c, t, p).trade, []).events == [];
  }

  /** A bar closing one second after another is judged against the breakeven stop by the pruned log and against the
      stop of its own start by the full one: five-minute spacing is what makes pruning safe. */
  lemma CloserBarsDiffer()
    ensures !Spaced([TICK, BAR1, BAR2])
    ensures Run(RULES, Opened(TERMS, None), [TICK, BAR1, BAR2]).events
         != FullRun(RULES, Opened(TERMS, None), [TICK, BAR1, BAR2]).events
  {
    hide Step, FullStep;
    var ps := [TICK, BAR1, BAR2];
    assert ps[1].barClosed && ps[2].barClosed && ps[1].ts < ps[2].ts < ps[1].ts + BAR;
    var t := Opened(TERMS, None);
    TickSellsHalf();
    var a := Step(RULES, t, TICK);
    QuietBar(a.trade);
    var b, f := Step(RULES, a.trade, BAR1), FullStep(RULES, a.trade, BAR1);
    BarsPartWays(b.trade, f.trade);
    assert ps[1..] == [BAR1, BAR2] && [BAR1, BAR2][1..] == [BAR2] && [BAR2][1..] == [];
    var last, lastFull := Run(RULES, b.trade, [BAR2]), FullRun(RULES, f.trade, [BAR2]);
    RunOne(RULES, b.trade, BAR2);
    RunOne(RULES, f.trade, BAR2);
    assert Run(RULES, a.trade, [BAR1, BAR2]).events == [] + last.events;
    assert FullRun(RULES, a.trade, [BAR1, BAR2]).events == [] + lastFull.events;
  }
}
