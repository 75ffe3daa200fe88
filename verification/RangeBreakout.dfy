/** The consolidation breakout (tradalgo/strategies/range_breakout.py): what fires it, and why it cannot fire again at once. */
module RangeBreakouts {
  import opened Common

  datatype Bar = Bar(high: real, low: real, close: real)

  /** The tunables.  The readings below stand for ATR and relative volume on the history up to each bar. */
  datatype DetectorValue = Detector(bars: nat, rangeAtrMult: real, k: real, minRvol: real, minStopAtr: real, maxStopAtr: real)
  type Detector = d: DetectorValue | d.bars >= 1 && 0.0 < d.minStopAtr < d.maxStopAtr
    witness Detector(1, 0.0, 0.0, 0.0, 0.5, 2.0)

  datatype ReadingValue = Reading(atr: Option<real>, rvol: real)
  type Reading = r: ReadingValue | r.atr.Some? ==> r.atr.value > 0.0 witness Reading(None, 0.0)

  datatype Setup = Setup(dir: Direction, entry: real, stop: real)

  /** The least and the most risk of a signal. */
  function Least(d: Detector, atr: real): real { d.minStopAtr * atr }

  function Most(d: Detector, atr: real): real { d.maxStopAtr * atr }

  /** The stop at a structural price, at least so far from the entry and at most so far. */
  function BoundedStop(d: Detector, entry: real, structural: real, atr: real, dir: Direction): real {
    var dist := if dir.Long? then entry - structural else structural - entry;
    var bounded := MinReal(MaxReal(dist, Least(d, atr)), Most(d, atr));
    if dir.Long? then entry - bounded else entry + bounded
  }

  /** How wide a box may be. */
  function Budget(d: Detector, atr: real): real { d.rangeAtrMult * d.k * atr }

  function Highs(bs: seq<Bar>): (r: seq<real>)
    ensures |r| == |bs| && forall i :: 0 <= i < |r| ==> r[i] == bs[i].high
  {
    seq(|bs|, i requires 0 <= i < |bs| => bs[i].high)
  }

  function Lows(bs: seq<Bar>): (r: seq<real>)
    ensures |r| == |bs| && forall i :: 0 <= i < |r| ==> r[i] == bs[i].low
  {
    seq(|bs|, i requires 0 <= i < |bs| => bs[i].low)
  }

  /** The high and the low of the `n` bars before index `j`. */
  function BoxHigh(today: seq<Bar>, n: nat, j: nat): real
    requires 1 <= n <= j <= |today|
  {
    MaxOf(Highs(today[j - n..j]))
  }

  function BoxLow(today: seq<Bar>, n: nat, j: nat): real
    requires 1 <= n <= j <= |today|
  {
    MinOf(Lows(today[j - n..j]))
  }

  /** Bar `j` closed outside the `n` bars before it. */
  predicate BrokeOut(today: seq<Bar>, n: nat, j: nat)
    requires 1 <= n <= j < |today|
  {
    !(BoxLow(today, n, j) <= today[j].close <= BoxHigh(today, n, j))
  }

  /** Some bar of the trigger's box, with a full box of its own, is a breakout. */
  ghost predicate BoxBroken(d: Detector, today: seq<Bar>) {
    exists j :: d.bars <= j < |today| - 1 && |today| - 1 - d.bars <= j && BrokeOut(today, d.bars, j)
  }

  method BoxContainsBreakout(d: Detector, today: seq<Bar>) returns (found: bool)
    ensures found == BoxBroken(d, today)
  {
    hide BrokeOut;
    var n := |today|;
    var j := if n - 1 - d.bars > d.bars then n - 1 - d.bars else d.bars;
    while j < n - 1
      invariant d.bars <= j && n - 1 - d.bars <= j
      invariant forall i :: d.bars <= i < j && i < n - 1 && n - 1 - d.bars <= i ==> !BrokeOut(today, d.bars, i)
    {
      if BrokeOut(today, d.bars, j) {
        return true;
      }
      j := j + 1;
    }
    return false;
  }

  /** The signal the day so far ends with, if any: it enters at the close, its stop at the far side of the box, bounded. */
  ghost function Signal(d: Detector, today: seq<Bar>, r: Reading): Option<Setup> {
    if r.atr.None? || |today| < d.bars + 1 then None else
    var j := |today| - 1;
    var hi, lo, c := BoxHigh(today, d.bars, j), BoxLow(today, d.bars, j), today[j].close;
    if hi - lo > Budget(d, r.atr.value) then None
    else if BoxBroken(d, today) then None
    else if c > hi then
      (if r.rvol < d.minRvol then None else Some(Setup(Long, c, BoundedStop(d, c, lo, r.atr.value, Long))))
    else if c < lo then
      (if r.rvol < d.minRvol then None else Some(Setup(Short, c, BoundedStop(d, c, hi, r.atr.value, Short))))
    else None
  }

  method Detect(d: Detector, today: seq<Bar>, r: Reading) returns (signal: Option<Setup>)
    ensures signal == Signal(d, today, r)
  {
    hide BoxHigh, BoxLow, BoxBroken, Budget, BoundedStop;
    if r.atr.None? || |today| < d.bars + 1 {
      return None;
    }
    var j := |today| - 1;
    var hi, lo, c := BoxHigh(today, d.bars, j), BoxLow(today, d.bars, j), today[j].close;
    if hi - lo > Budget(d, r.atr.value) {
      return None;
    }
    var broken := BoxContainsBreakout(d, today);
    if broken {
      return None;
    }
    var dir, structural;
    if c > hi {
      dir, structural := Long, lo;
    } else if c < lo {
      dir, structural := Short, hi;
    } else {
      return None;
    }
    if r.rvol < d.minRvol {
      return None;
    }
    return Some(Setup(dir, c, BoundedStop(d, c, structural, r.atr.value, dir)));
  }

  lemma Positive(a: real, b: real)
    requires a > 0.0 && b > 0.0
    ensures a * b > 0.0
  {
  }

  /** A bar that fires closed outside its box. */
  lemma FiringBreaksOut(d: Detector, today: seq<Bar>, r: Reading)
    requires Signal(d, today, r).Some?
    ensures |today| >= d.bars + 1 && BrokeOut(today, d.bars, |today| - 1)
  {
    hide BoxBroken;
  }

  lemma BoxOfPrefix(today: seq<Bar>, n: nat, j: nat, m: nat)
    requires 1 <= n <= j < m <= |today|
    ensures BrokeOut(today[..m], n, j) == BrokeOut(today, n, j)
  {
    assert today[..m][j - n..j] == today[j - n..j];
  }

  /** When a bar fires every earlier breakout has left its box. */
  lemma BreakoutsLeaveTheBox(d: Detector, today: seq<Bar>, r: Reading, j: nat)
    requires Signal(d, today, r).Some? && d.bars <= j < |today| - 1 && BrokeOut(today, d.bars, j)
    ensures j < |today| - 1 - d.bars
  {
    hide BrokeOut, BoxHigh, BoxLow;
    assert !BoxBroken(d, today);
  }

  /** Over all prefixes of a day, whatever the readings, two signals are at least `bars + 1` bars apart. */
  lemma SignalsAreSpaced(d: Detector, today: seq<Bar>, m: nat, n: nat, r: Reading, s: Reading)
    requires m < n <= |today|
    requires Signal(d, today[..m], r).Some? && Signal(d, today[..n], s).Some?
    ensures n - m >= d.bars + 1
  {
    FiringBreaksOut(d, today[..m], r);
    BoxOfPrefix(today, d.bars, m - 1, m);
    BoxOfPrefix(today, d.bars, m - 1, n);
    BreakoutsLeaveTheBox(d, today[..n], s, m - 1);
  }

  /** A bar fires exactly when its readings allow it, its box is tight, it closes outside, and no bar of the box is a
      breakout itself. */
  lemma FiresIff(d: Detector, today: seq<Bar>, r: Reading)
    ensures Signal(d, today, r).Some? <==>
              && r.atr.Some? && |today| >= d.bars + 1 && r.rvol >= d.minRvol
              && var j := |today| - 1;
              && BoxHigh(today, d.bars, j) - BoxLow(today, d.bars, j) <= Budget(d, r.atr.value)
              && BrokeOut(today, d.bars, j)
              && (forall i :: d.bars <= i < j && j - d.bars <= i ==> !BrokeOut(today, d.bars, i))
  {
    hide BoxHigh, BoxLow;
    if r.atr.Some? && |today| >= d.bars + 1 {
      var j := |today| - 1;
      assert BoxBroken(d, today) <==> exists i :: d.bars <= i < j && j - d.bars <= i && BrokeOut(today, d.bars, i);
    }
  }

  lemma OneBarBox(today: seq<Bar>, j: nat)
    requires 1 <= j <= |today|
    ensures BoxHigh(today, 1, j) == today[j - 1].high && BoxLow(today, 1, j) == today[j - 1].low
  {
    assert today[j - 1..j] == [today[j - 1]];
  }

  /** A tight one-bar box that the last bar leaves, the bar before having stayed in its own. */
  lemma OneBarFires(d: Detector, today: seq<Bar>, r: Reading)
    requires d.bars == 1 && r.atr.Some? && r.rvol >= d.minRvol && |today| >= 2
    requires var box := today[|today| - 2];
             box.high - box.low <= Budget(d, r.atr.value) && today[|today| - 1].close > box.high
    requires |today| >= 3 ==> today[|today| - 3].low <= today[|today| - 2].close <= today[|today| - 3].high
    ensures Signal(d, today, r).Some?
  {
    hide BoxHigh, BoxLow, Budget;
    var j := |today| - 1;
    OneBarBox(today, j);
    if |today| >= 3 {
      OneBarBox(today, j - 1);
    }
    hide Signal;
    FiresIff(d, today, r);
  }

  /** The spacing is the least possible: here two signals are exactly `bars + 1` apart. */
  lemma SpacingIsTight(r: Reading)
    requires r == Reading(Some(10.0), 1.0)
    ensures var d := Detector(1, 1.0, 1.0, 1.0, 0.5, 2.0);
            var today := [Bar(2.0, 1.0, 2.0), Bar(3.0, 2.0, 3.0), Bar(4.0, 1.0, 2.0), Bar(6.0, 2.0, 5.0)];
            Signal(d, today[..2], r).Some? && Signal(d, today[..4], r).Some?
  {
    hide Signal;
    var d := Detector(1, 1.0, 1.0, 1.0, 0.5, 2.0);
    var today := [Bar(2.0, 1.0, 2.0), Bar(3.0, 2.0, 3.0), Bar(4.0, 1.0, 2.0), Bar(6.0, 2.0, 5.0)];
    assert today[..2] == [Bar(2.0, 1.0, 2.0), Bar(3.0, 2.0, 3.0)] && today[..4] == today;
    OneBarFires(d, today[..2], r);
    OneBarFires(d, today, r);
  }

  // ---------------------------------------------------------------- the rule in plain numbers

  /** The highest high, or the lowest low, of the `n` bars before index `j`. */
  ghost predicate IsTop(today: seq<Bar>, n: nat, j: nat, hi: real)
    requires n <= j <= |today|
  {
    (exists i :: j - n <= i < j && today[i].high == hi) && forall i :: j - n <= i < j ==> today[i].high <= hi
  }

  ghost predicate IsBottom(today: seq<Bar>, n: nat, j: nat, lo: real)
    requires n <= j <= |today|
  {
    (exists i :: j - n <= i < j && today[i].low == lo) && forall i :: j - n <= i < j ==> lo <= today[i].low
  }

  /** Bar `j` closed neither above every high nor below every low of the `n` bars before it. */
  ghost predicate ClosedInside(today: seq<Bar>, n: nat, j: nat)
    requires n <= j < |today|
  {
    && (exists i :: j - n <= i < j && today[j].close <= today[i].high)
    && (exists i :: j - n <= i < j && today[i].low <= today[j].close)
  }

  lemma {:induction false} MostOf(xs: seq<real>)
    requires xs != []
    ensures MaxOf(xs) in xs && MinOf(xs) in xs && forall x :: x in xs ==> MinOf(xs) <= x <= MaxOf(xs)
  {
    assert xs == [xs[0]] + xs[1..];
    if |xs| > 1 {
      MostOf(xs[1..]);
    }
  }

  lemma TopIs(today: seq<Bar>, n: nat, j: nat)
    requires 1 <= n <= j <= |today|
    ensures IsTop(today, n, j, BoxHigh(today, n, j))
  {
    var hs := Highs(today[j - n..j]);
    MostOf(hs);
    hide MaxOf, MinOf;
    var k :| 0 <= k < |hs| && hs[k] == MaxOf(hs);
    assert today[j - n + k].high == hs[k];
    forall i | j - n <= i < j ensures today[i].high <= MaxOf(hs) {
      assert hs[i - (j - n)] == today[i].high && hs[i - (j - n)] in hs;
    }
  }

  lemma BottomIs(today: seq<Bar>, n: nat, j: nat)
    requires 1 <= n <= j <= |today|
    ensures IsBottom(today, n, j, BoxLow(today, n, j))
  {
    var ls := Lows(today[j - n..j]);
    MostOf(ls);
    hide MaxOf, MinOf;
    var k :| 0 <= k < |ls| && ls[k] == MinOf(ls);
    assert today[j - n + k].low == ls[k];
    forall i | j - n <= i < j ensures MinOf(ls) <= today[i].low {
      assert ls[i - (j - n)] == today[i].low && ls[i - (j - n)] in ls;
    }
  }

  lemma TopIsOne(today: seq<Bar>, n: nat, j: nat, a: real, b: real)
    requires n <= j <= |today|
    ensures IsTop(today, n, j, a) && IsTop(today, n, j, b) ==> a == b
    ensures IsBottom(today, n, j, a) && IsBottom(today, n, j, b) ==> a == b
  {
  }

  lemma InsideIs(today: seq<Bar>, n: nat, j: nat)
    requires 1 <= n <= j < |today|
    ensures ClosedInside(today, n, j) <==> !BrokeOut(today, n, j)
  {
    TopIs(today, n, j);
    BottomIs(today, n, j);
    hide BoxHigh, BoxLow;
  }

  /** A bar fires if and only if there is a range reading and enough volume, the box of the bars before it is no wider than the
      multiple of the range, it closed outside the box, and every bar of the box with a full box of its own closed inside that;
      it fires long above the box and short below, at the close. */
  lemma SignalIff(d: Detector, today: seq<Bar>, r: Reading, hi: real, lo: real)
    requires |today| >= d.bars + 1 && IsTop(today, d.bars, |today| - 1, hi) && IsBottom(today, d.bars, |today| - 1, lo)
    ensures var j, c := |today| - 1, today[|today| - 1].close;
            && (Signal(d, today, r).Some?
                <==> && r.atr.Some? && r.rvol >= d.minRvol && hi - lo <= d.rangeAtrMult * d.k * r.atr.value
                     && (c > hi || c < lo)
                     && (forall i :: d.bars <= i < j && j - d.bars <= i ==> ClosedInside(today, d.bars, i)))
            && (Signal(d, today, r).Some? ==>
                  var s := Signal(d, today, r).value; s.entry == c && s.dir == if c > hi then Long else Short)
  {
    var j := |today| - 1;
    TopIs(today, d.bars, j);
    BottomIs(today, d.bars, j);
    TopIsOne(today, d.bars, j, hi, BoxHigh(today, d.bars, j));
    TopIsOne(today, d.bars, j, lo, BoxLow(today, d.bars, j));
    hide IsTop, IsBottom, ClosedInside, BoundedStop;
    forall i | d.bars <= i < j ensures ClosedInside(today, d.bars, i) <==> !BrokeOut(today, d.bars, i) {
      InsideIs(today, d.bars, i);
    }
    FiresIff(d, today, r);
    hide BoxHigh, BoxLow;
  }

  lemma SetupOf(d: Detector, today: seq<Bar>, r: Reading)
    requires Signal(d, today, r).Some?
    ensures |today| >= d.bars + 1 && r.atr.Some?
    ensures var s, j := Signal(d, today, r).value, |today| - 1;
            s.stop == BoundedStop(d, s.entry, if s.dir.Long? then BoxLow(today, d.bars, j) else BoxHigh(today, d.bars, j),
                                  r.atr.value, s.dir)
  {
    hide BoxHigh, BoxLow, BoxBroken, Budget, BoundedStop;
  }

  lemma ClampIs(d: Detector, entry: real, structural: real, atr: real, dir: Direction, least: real, most: real)
    requires atr > 0.0 && least == d.minStopAtr * atr && most == d.maxStopAtr * atr
    ensures var stop := BoundedStop(d, entry, structural, atr, dir);
            var risk, far := if dir.Long? then entry - stop else stop - entry,
                             if dir.Long? then entry - structural else structural - entry;
            0.0 < risk && risk == if far < least then least else if far > most then most else far
  {
    Positive(d.minStopAtr, atr);
    Positive(d.maxStopAtr - d.minStopAtr, atr);
    assert (d.maxStopAtr - d.minStopAtr) * atr == most - least;
    assert Least(d, atr) == least && Most(d, atr) == most;
    hide Least, Most;
  }

  /** Its stop is at the far side of the box, unless that is nearer or farther than the bounds, and then at the bound; so it is
      always on the losing side. */
  lemma StopIs(d: Detector, today: seq<Bar>, r: Reading, hi: real, lo: real, least: real, most: real)
    requires Signal(d, today, r).Some? && |today| >= d.bars + 1
    requires IsTop(today, d.bars, |today| - 1, hi) && IsBottom(today, d.bars, |today| - 1, lo)
    requires least == d.minStopAtr * r.atr.value && most == d.maxStopAtr * r.atr.value
    ensures var s := Signal(d, today, r).value;
            var risk, far := if s.dir.Long? then s.entry - s.stop else s.stop - s.entry,
                    if s.dir.Long? then s.entry - lo else hi - s.entry;
            0.0 < risk && risk == if far < least then least else if far > most then most else far
  {
    var j := |today| - 1;
    TopIs(today, d.bars, j);
    BottomIs(today, d.bars, j);
    TopIsOne(today, d.bars, j, hi, BoxHigh(today, d.bars, j));
    TopIsOne(today, d.bars, j, lo, BoxLow(today, d.bars, j));
    hide IsTop, IsBottom;
    SetupOf(d, today, r);
    var s := Signal(d, today, r).value;
    hide Signal, BoxHigh, BoxLow, BoundedStop;
    ClampIs(d, s.entry, if s.dir.Long? then lo else hi, r.atr.value, s.dir, least, most);
  }
}
