/**
 The exit rules of one managed trade, as functions on the values its fields hold
 (tradalgo/engine/positions.py).  PositionManager.dfy proves the classes that update those
 fields in place against these functions; the run lemmas are stated about them.

 Instants are integers: microseconds from an IST midnight.
 */
module Positions {
  import opened Common

  function TimeOfDay(ts: int): int { ts % DAY }

  datatype Kind = StopHit | PartialExit | TrailUpdate | RunnerExit | HardExit

  datatype Event = Event(kind: Kind, tradeId: int, symbol: string, strategy: string, ts: int, price: real, qty: int,
                         newStop: Option<real>, r: real)

  /** The settings of a manager, with the ranges the configuration enforces. */
  datatype RulesValue = Rules(partialFraction: real, trailBars: nat, hardExit: int, partialAtR: real,
                              runnerTargetR: real, breakevenAfterPartial: bool)
  {
    predicate InRange() {
      0.0 < partialFraction < 1.0 && trailBars >= 1 && 0.0 < partialAtR < runnerTargetR
    }
  }
  type Rules = c: RulesValue | c.InRange() witness Rules(0.6, 3, 0, 2.0, 3.0, true)

  /** What never changes after a trade opens.  A signal whose stop is on the wrong side cannot be built. */
  datatype TermsValue = Terms(id: int, symbol: string, strategy: string, dir: Direction, entry: real, initialStop: real,
                              target2r: real, target3r: real, qty: int, filledPrice: real)
  {
    predicate StopOnRightSide() {
      if dir.Long? then initialStop < entry else initialStop > entry
    }
  }
  type Terms = k: TermsValue | k.StopOnRightSide() witness Terms(0, "", "", Long, 1.0, 0.0, 0.0, 0.0, 0, 0.0)

  /** The stop and partial status that were in force until `at`. */
  datatype Change = Change(at: int, stop: real, partial: bool)

  datatype Trade = Trade(terms: Terms, stop: real, remaining: int, partialDone: bool, closed: bool,
                         lastBar: Option<int>, lastTick: Option<int>, entryBar: Option<int>, changes: seq<Change>,
                         mfe: real, mae: real, highs: seq<real>, lows: seq<real>)

  /** One call of on_price: a closed bar stamped with its close, or a tick. */
  datatype Price = Price(ts: int, high: real, low: real, close: real, barClosed: bool, open: Option<real>)
  {
    function Open(): real { if open.None? then close else open.value }
  }

  datatype Outcome = Outcome(trade: Trade, events: seq<Event>)

  // ---------------------------------------------------------------- pure helpers

  function Rps(k: Terms): (r: real)
    ensures r > 0.0
  {
    Abs(k.entry - k.initialStop)
  }

  function ROf(k: Terms, price: real): real {
    Sign(k.dir) * (price - k.entry) / Rps(k)
  }

  function Level(k: Terms, r: real): real {
    k.entry + Sign(k.dir) * r * Rps(k)
  }

  predicate Touches(d: Direction, level: real, p: Price, favorable: bool) {
    var up := d.Long? == favorable;
    if up then p.high >= level else p.low <= level
  }

  function Tighter(d: Direction, stop: real, candidate: real): real {
    if d.Long? then MaxReal(stop, candidate) else MinReal(stop, candidate)
  }

  /** Shares the partial exit sells: max(1, floor(qty * fraction)). */
  function PartialSize(c: Rules, qty: int): int {
    var n := (qty as real * c.partialFraction).Floor;
    if n > 1 then n else 1
  }

  function MakeEvent(t: Trade, kind: Kind, ts: int, price: real, qty: int, newStop: Option<real>): Event {
    Event(kind, t.terms.id, t.terms.symbol, t.terms.strategy, ts, price, qty, newStop,
          if kind.TrailUpdate? then 0.0 else ROf(t.terms, price))
  }

  // ---------------------------------------------------------------- the branches of one update

  function ExitAll(t: Trade, kind: Kind, ts: int, price: real): Outcome {
    Outcome(t.(remaining := 0, closed := true), [MakeEvent(t, kind, ts, price, t.remaining, None)])
  }

  /** A stop that was gapped through fills at the worse open. */
  function StopFill(d: Direction, stop: real, open: real): real {
    if d.Long? then MinReal(stop, open) else MaxReal(stop, open)
  }

  function MoveStop(t: Trade, candidate: real, ts: int, price: real): Outcome {
    var t' := t.(stop := Tighter(t.terms.dir, t.stop, candidate));
    Outcome(t', if t'.stop == t.stop then [] else [MakeEvent(t', TrailUpdate, ts, price, 0, Some(t'.stop))])
  }

  function TakePartial(c: Rules, t: Trade, p: Price): Outcome {
    var level := Level(t.terms, c.partialAtR);
    if t.partialDone || !Touches(t.terms.dir, level, p, true) then
      Outcome(t, [])
    else if t.remaining == 1 then
      ExitAll(t.(partialDone := true), PartialExit, p.ts, level)
    else
      var q := PartialSize(c, t.terms.qty);
      var t' := t.(partialDone := true, remaining := t.remaining - q);
      var e := MakeEvent(t, PartialExit, p.ts, level, q, None);
      if c.breakevenAfterPartial then
        var m := MoveStop(t', t.terms.entry, p.ts, level);
        Outcome(m.trade, [e] + m.events)
      else
        Outcome(t', [e])
  }

  /** The trail window after a closed bar. */
  function Pushed(c: Rules, t: Trade, p: Price): (t': Trade)
    ensures |t'.lows| > 0 && |t'.highs| > 0
  {
    t.(highs := LastN(t.highs + [p.high], c.trailBars), lows := LastN(t.lows + [p.low], c.trailBars))
  }

  function TrailCandidate(t: Trade): real
    requires |t.lows| > 0 && |t.highs| > 0
  {
    if t.terms.dir.Long? then MinOf(t.lows) else MaxOf(t.highs)
  }

  /** A closed bar enters the trail window; a full window of a partially exited trade moves the stop. */
  function TrailBar(c: Rules, t: Trade, p: Price): Outcome {
    if !p.barClosed then Outcome(t, []) else
    var t' := Pushed(c, t, p);
    if t'.partialDone && |t'.lows| == c.trailBars then MoveStop(t', TrailCandidate(t'), p.ts, p.close)
    else Outcome(t', [])
  }

  function HardExitDue(c: Rules, t: Trade, p: Price): Outcome {
    if TimeOfDay(p.ts) >= c.hardExit then ExitAll(t, HardExit, p.ts, p.close) else Outcome(t, [])
  }

  /** The stop is checked first, then partial, runner, trail and the hard exit. */
  function Update(c: Rules, t: Trade, p: Price, stop: real, partial: bool): Outcome {
    if Touches(t.terms.dir, stop, p, false) then
      ExitAll(t, StopHit, p.ts, StopFill(t.terms.dir, stop, p.Open()))
    else
      var a := TakePartial(c, t, p);
      if a.trade.closed then a else
      var partialNow := a.trade.partialDone && !t.partialDone;
      if (partial || partialNow) && a.trade.partialDone
         && Touches(t.terms.dir, Level(t.terms, c.runnerTargetR), p, true) then
        var x := ExitAll(a.trade, RunnerExit, p.ts, Level(t.terms, c.runnerTargetR));
        Outcome(x.trade, a.events + x.events)
      else
        var b := TrailBar(c, a.trade, p);
        var h := HardExitDue(c, b.trade, p);
        Outcome(h.trade, a.events + b.events + h.events)
  }

  /** An update leaves the terms, cursors, log and excursions alone. */
  lemma UpdateFrame(c: Rules, t: Trade, p: Price, stop: real, partial: bool)
    ensures var u := Update(c, t, p, stop, partial).trade;
            u == t.(stop := u.stop, remaining := u.remaining, partialDone := u.partialDone, closed := u.closed,
                    highs := u.highs, lows := u.lows)
  {
  }

  // ---------------------------------------------------------------- one price on one trade

  /** The changes recorded after an instant, in order. */
  function After(cs: seq<Change>, ts: int): seq<Change> {
    if cs == [] then [] else (if cs[0].at > ts then [cs[0]] else []) + After(cs[1..], ts)
  }

  /** The first of the changes with the least instant, as Python's min finds it. */
  function Earliest(cs: seq<Change>): Change
    requires cs != []
  {
    if |cs| == 1 then cs[0] else
    var rest := Earliest(cs[1..]);
    if rest.at < cs[0].at then rest else cs[0]
  }

  /** The stop and partial status a price is judged against, given a log of changes. */
  function Judged(t: Trade, p: Price, log: seq<Change>): (real, bool) {
    var later := After(log, p.ts - BAR);
    if p.barClosed && later != [] then (Earliest(later).stop, Earliest(later).partial) else (t.stop, t.partialDone)
  }

  predicate NotAfter(cursor: Option<int>, ts: int) {
    cursor.Some? && ts <= cursor.value
  }

  /** True if the price is new to the trade: bars and ticks have separate cursors. */
  predicate Applies(t: Trade, p: Price) {
    && !t.closed
    && !NotAfter(t.lastBar, p.ts)
    && (p.barClosed || !NotAfter(t.lastTick, p.ts))
  }

  /** Cursor and excursion bookkeeping that precedes the update. */
  function Arrive(t: Trade, p: Price): Trade {
    var fav := if t.terms.dir.Long? then p.high else p.low;
    var adv := if t.terms.dir.Long? then p.low else p.high;
    var t' := if p.barClosed then t.(lastBar := Some(p.ts)) else t.(lastTick := Some(p.ts));
    t'.(mfe := MaxReal(t.mfe, ROf(t.terms, fav)), mae := MinReal(t.mae, ROf(t.terms, adv)))
  }

  lemma JudgedFrame(t: Trade, t': Trade, p: Price, log: seq<Change>)
    requires t'.stop == t.stop && t'.partialDone == t.partialDone
    ensures Judged(t', p, log) == Judged(t, p, log)
  {
  }

  /** The change log after an update that turned `t` into `t'`, before pruning. */
  function Logged(t: Trade, t': Trade, ts: int): seq<Change> {
    if !t'.closed && (t'.stop, t'.partialDone) != (t.stop, t.partialDone)
    then t.changes + [Change(ts, t.stop, t.partialDone)]
    else t.changes
  }

  function Step(c: Rules, t: Trade, p: Price): Outcome {
    if !Applies(t, p) then Outcome(t, []) else
    var j := Judged(t, p, t.changes);
    var u := Update(c, Arrive(t, p), p, j.0, j.1);
    var log := Logged(t, u.trade, p.ts);
    Outcome(u.trade.(changes := if p.barClosed then After(log, p.ts) else log), u.events)
  }

  /** A whole run of prices on one trade: the final trade and every event, in order. */
  function Run(c: Rules, t: Trade, ps: seq<Price>): Outcome
    decreases |ps|
  {
    if ps == [] then Outcome(t, []) else
    var a := Step(c, t, ps[0]);
    var b := Run(c, a.trade, ps[1..]);
    Outcome(b.trade, a.events + b.events)
  }

  /** A trade as PositionManager.open creates it. */
  function Opened(k: Terms, entryBar: Option<int>): Trade {
    Trade(k, k.initialStop, k.qty, false, false, None, None, entryBar, [], 0.0, 0.0, [], [])
  }

  /** Crash recovery of a partial that the database already holds. */
  function RestorePartial(c: Rules, t: Trade): Trade {
    if t.partialDone then t else
    var left := t.terms.qty - PartialSize(c, t.terms.qty);
    var t' := t.(partialDone := true, remaining := if left > 1 then left else 1);
    if c.breakevenAfterPartial then t'.(stop := Tighter(t.terms.dir, t'.stop, t.terms.entry)) else t'
  }

  /** Crash recovery of a close that the database already holds. */
  function Abandoned(t: Trade): Trade {
    t.(remaining := 0, closed := true)
  }

  // ---------------------------------------------------------------- one price on every trade of a manager

  datatype Outcomes = Outcomes(trades: seq<Trade>, events: seq<Event>)

  function StepAll(c: Rules, ts: seq<Trade>, p: Price): (o: Outcomes)
    ensures |o.trades| == |ts|
  {
    if ts == [] then Outcomes([], []) else
    var rest := StepAll(c, ts[..|ts| - 1], p);
    var last := Step(c, ts[|ts| - 1], p);
    Outcomes(rest.trades + [last.trade], rest.events + last.events)
  }

  lemma {:induction false} StepAllAt(c: Rules, ts: seq<Trade>, p: Price, i: nat)
    requires i < |ts|
    ensures StepAll(c, ts, p).trades[i] == Step(c, ts[i], p).trade
  {
    hide Step;
    if i < |ts| - 1 {
      StepAllAt(c, ts[..|ts| - 1], p, i);
    }
  }

  lemma StepAllSnoc(c: Rules, ts: seq<Trade>, t: Trade, p: Price)
    ensures StepAll(c, ts + [t], p)
         == Outcomes(StepAll(c, ts, p).trades + [Step(c, t, p).trade], StepAll(c, ts, p).events + Step(c, t, p).events)
  {
    hide Step;
    assert (ts + [t])[..|ts|] == ts;
  }

  lemma {:induction false} RunAppend(c: Rules, t: Trade, ps: seq<Price>, qs: seq<Price>)
    ensures Run(c, t, ps + qs)
         == Outcome(Run(c, Run(c, t, ps).trade, qs).trade,
                    Run(c, t, ps).events + Run(c, Run(c, t, ps).trade, qs).events)
    decreases |ps|
  {
    hide Step;
    if ps == [] {
      assert ps + qs == qs;
    } else {
      assert (ps + qs)[1..] == ps[1..] + qs;
      RunAppend(c, Step(c, t, ps[0]).trade, ps[1..], qs);
    }
  }
}
