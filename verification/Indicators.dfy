/** Smoothed indicators and their ranges (tradalgo/indicators/core.py).  A missing value (NaN) is None. */
module Indicators {
  import opened Common

  // ---------------------------------------------------------------- Wilder smoothing

  function ValidCount(v: seq<Option<real>>, n: nat): nat
    requires n <= |v|
  {
    if n == 0 then 0 else ValidCount(v, n - 1) + if v[n - 1].Some? then 1 else 0
  }

  function ValidSum(v: seq<Option<real>>, n: nat): real
    requires n <= |v|
  {
    if n == 0 then 0.0 else ValidSum(v, n - 1) + if v[n - 1].Some? then v[n - 1].value else 0.0
  }

  function Blend(prev: real, x: real, period: nat): real
    requires period >= 1
  {
    (prev * (period - 1) as real + x) / period as real
  }

  /** The smoothed value at an index: none before the first `period` valid values, then their mean, then the recurrence,
      which a missing value ends. */
  function Smoothed(v: seq<Option<real>>, period: nat, i: nat): Option<real>
    requires period >= 1 && i < |v|
    decreases i
  {
    if ValidCount(v, i + 1) < period then None
    else if ValidCount(v, i) < period then Some(ValidSum(v, i + 1) / period as real)
    else if v[i].None? || Smoothed(v, period, i - 1).None? then None
    else Some(Blend(Smoothed(v, period, i - 1).value, v[i].value, period))
  }

  lemma {:induction false} CountMonotone(v: seq<Option<real>>, m: nat, n: nat)
    requires m <= n <= |v|
    ensures ValidCount(v, m) <= ValidCount(v, n)
    decreases n
  {
    if m < n {
      CountMonotone(v, m, n - 1);
    }
  }

  method Wilder(v: seq<Option<real>>, period: nat) returns (out: array<Option<real>>)
    requires period >= 1
    ensures fresh(out) && out.Length == |v| && forall i :: 0 <= i < |v| ==> out[i] == Smoothed(v, period, i)
  {
    hide Blend;
    out := new Option<real>[|v|](_ => None);
    var count, total, start := 0, 0.0, 0;
    while start < |v| && count < period
      invariant 0 <= start <= |v| && count == ValidCount(v, start) && total == ValidSum(v, start) && count <= period
      invariant forall i :: 0 <= i < start && ValidCount(v, i + 1) < period ==> out[i] == Smoothed(v, period, i)
      invariant forall i :: 0 <= i < start ==> ValidCount(v, i) < period
      invariant forall i :: 0 <= i < |v| ==> out[i] == None
    {
      if v[start].Some? {
        count, total := count + 1, total + v[start].value;
      }
      start := start + 1;
    }
    if count < period {
      forall i | 0 <= i < |v| ensures out[i] == Smoothed(v, period, i) {
        CountMonotone(v, i + 1, |v|);
      }
      return;
    }
    start := start - 1;
    out[start] := Some(total / period as real);
    var i := start + 1;
    while i < |v|
      invariant start < i <= |v| && ValidCount(v, i) >= period
      invariant forall k :: 0 <= k < i ==> out[k] == Smoothed(v, period, k)
    {
      CountMonotone(v, i, i + 1);
      out[i] := if out[i - 1].Some? && v[i].Some? then Some(Blend(out[i - 1].value, v[i].value, period)) else None;
      i := i + 1;
    }
  }

  ghost predicate Within(v: seq<Option<real>>, lo: real, hi: real) {
    forall j :: 0 <= j < |v| && v[j].Some? ==> lo <= v[j].value <= hi
  }

  function Scale(n: nat, x: real): real { n as real * x }

  lemma OneMore(n: nat, x: real)
    ensures Scale(n + 1, x) == Scale(n, x) + x && Scale(0, x) == 0.0
  {
    assert (n + 1) as real == n as real + 1.0;
  }

  lemma {:induction false} SumWithin(v: seq<Option<real>>, n: nat, lo: real, hi: real)
    requires n <= |v| && Within(v, lo, hi)
    ensures Scale(ValidCount(v, n), lo) <= ValidSum(v, n) <= Scale(ValidCount(v, n), hi)
  {
    hide Scale;
    OneMore(0, lo);
    OneMore(0, hi);
    if n > 0 {
      SumWithin(v, n - 1, lo, hi);
      OneMore(ValidCount(v, n - 1), lo);
      OneMore(ValidCount(v, n - 1), hi);
    }
  }

  lemma QuotientWithin(s: real, n: nat, lo: real, hi: real)
    requires n >= 1 && Scale(n, lo) <= s <= Scale(n, hi)
    ensures lo <= s / n as real <= hi
  {
    var q := s / n as real;
    assert q * n as real == s;
  }

  lemma BlendWithin(prev: real, x: real, period: nat, lo: real, hi: real)
    requires period >= 1 && lo <= prev <= hi && lo <= x <= hi
    ensures lo <= Blend(prev, x, period) <= hi
  {
    var k := (period - 1) as real;
    assert k * lo <= k * prev <= k * hi;
    assert period as real * lo == k * lo + lo && period as real * hi == k * hi + hi;
    QuotientWithin(prev * k + x, period, lo, hi);
  }

  /** Smoothing never leaves the range of the values it has seen. */
  lemma {:induction false} SmoothedWithin(v: seq<Option<real>>, period: nat, i: nat, lo: real, hi: real)
    requires period >= 1 && i < |v| && Within(v, lo, hi)
    ensures Smoothed(v, period, i).Some? ==> lo <= Smoothed(v, period, i).value <= hi
    decreases i
  {
    hide Blend, Scale;
    if Smoothed(v, period, i).Some? {
      if ValidCount(v, i) < period {
        SumWithin(v, i + 1, lo, hi);
        assert ValidCount(v, i + 1) == period;
        QuotientWithin(ValidSum(v, i + 1), period, lo, hi);
      } else {
        SmoothedWithin(v, period, i - 1, lo, hi);
        BlendWithin(Smoothed(v, period, i - 1).value, v[i].value, period, lo, hi);
      }
    }
  }

  // ---------------------------------------------------------------- sums of smoothed series

  ghost predicate Dominates(a: seq<Option<real>>, b: seq<Option<real>>, c: seq<Option<real>>) {
    && |a| == |b| == |c|
    && forall j :: 0 <= j < |a| ==> (a[j].Some? <==> c[j].Some?) && (b[j].Some? <==> c[j].Some?)
                                    && (c[j].Some? ==> a[j].value + b[j].value <= c[j].value)
  }

  lemma {:induction false} SumsDominate(a: seq<Option<real>>, b: seq<Option<real>>, c: seq<Option<real>>, n: nat)
    requires Dominates(a, b, c) && n <= |a|
    ensures ValidCount(a, n) == ValidCount(b, n) == ValidCount(c, n)
    ensures ValidSum(a, n) + ValidSum(b, n) <= ValidSum(c, n)
  {
    if n > 0 {
      SumsDominate(a, b, c, n - 1);
    }
  }

  lemma QuotientSum(a: real, b: real, c: real, n: nat)
    requires n >= 1 && a + b <= c
    ensures a / n as real + b / n as real <= c / n as real
  {
    var q := n as real;
    assert a / q + b / q == (a + b) / q;
    assert (a + b) / q <= c / q;
  }

  lemma BlendSum(a: real, x: real, b: real, y: real, c: real, z: real, period: nat)
    requires period >= 1 && a + b <= c && x + y <= z
    ensures Blend(a, x, period) + Blend(b, y, period) <= Blend(c, z, period)
  {
    var k := (period - 1) as real;
    assert a * k + b * k == (a + b) * k <= c * k;
    QuotientSum(a * k + x, b * k + y, c * k + z, period);
  }

  /** Smoothing keeps sums below what dominates them, and is defined at the same places. */
  lemma {:induction false} SmoothedDominates(a: seq<Option<real>>, b: seq<Option<real>>, c: seq<Option<real>>, period: nat, i: nat)
    requires period >= 1 && Dominates(a, b, c) && i < |a|
    ensures var x, y, z := Smoothed(a, period, i), Smoothed(b, period, i), Smoothed(c, period, i);
            (x.Some? <==> z.Some?) && (y.Some? <==> z.Some?) && (z.Some? ==> x.value + y.value <= z.value)
    decreases i
  {
    hide Blend;
    SumsDominate(a, b, c, i);
    SumsDominate(a, b, c, i + 1);
    if ValidCount(a, i + 1) >= period {
      if ValidCount(a, i) < period {
        QuotientSum(ValidSum(a, i + 1), ValidSum(b, i + 1), ValidSum(c, i + 1), period);
      } else {
        SmoothedDominates(a, b, c, period, i - 1);
        if c[i].Some? && Smoothed(c, period, i - 1).Some? {
          BlendSum(Smoothed(a, period, i - 1).value, a[i].value, Smoothed(b, period, i - 1).value, b[i].value,
                   Smoothed(c, period, i - 1).value, c[i].value, period);
        }
      }
    }
  }

  // ---------------------------------------------------------------- directional movement

  datatype BarValue = Bar(high: real, low: real, close: real)
  {
    predicate WellFormed() { low <= close <= high }
  }
  type Bar = b: BarValue | b.WellFormed() witness Bar(0.0, 0.0, 0.0)

  /** The upward and downward movements from one bar to the next; only the larger counts, if it is positive. */
  function PlusMove(p: Bar, b: Bar): real {
    var up, down := b.high - p.high, p.low - b.low;
    if up > down && up > 0.0 then up else 0.0
  }

  function MinusMove(p: Bar, b: Bar): real {
    var up, down := b.high - p.high, p.low - b.low;
    if down > up && down > 0.0 then down else 0.0
  }

  function RangeOf(p: Bar, b: Bar): real {
    MaxReal(MaxReal(b.high - b.low, Abs(b.high - p.close)), Abs(b.low - p.close))
  }

  function PlusDm(bars: seq<Bar>): (r: seq<Option<real>>)
    ensures |r| == |bars| && forall i :: 0 <= i < |r| ==> r[i] == if i == 0 then None else Some(PlusMove(bars[i - 1], bars[i]))
  {
    seq(|bars|, i requires 0 <= i < |bars| => if i == 0 then None else Some(PlusMove(bars[i - 1], bars[i])))
  }

  function MinusDm(bars: seq<Bar>): (r: seq<Option<real>>)
    ensures |r| == |bars| && forall i :: 0 <= i < |r| ==> r[i] == if i == 0 then None else Some(MinusMove(bars[i - 1], bars[i]))
  {
    seq(|bars|, i requires 0 <= i < |bars| => if i == 0 then None else Some(MinusMove(bars[i - 1], bars[i])))
  }

  function TrueRange(bars: seq<Bar>): (r: seq<Option<real>>)
    ensures |r| == |bars| && forall i :: 0 <= i < |r| ==> r[i] == if i == 0 then None else Some(RangeOf(bars[i - 1], bars[i]))
  {
    seq(|bars|, i requires 0 <= i < |bars| => if i == 0 then None else Some(RangeOf(bars[i - 1], bars[i])))
  }

  /** At most one movement counts, and it is no larger than the true range. */
  lemma OneMovement(p: Bar, b: Bar)
    ensures 0.0 <= PlusMove(p, b) && 0.0 <= MinusMove(p, b) && PlusMove(p, b) + MinusMove(p, b) <= RangeOf(p, b)
  {
    assert p.WellFormed() && b.WellFormed();
  }

  lemma DominatesBy(a: seq<Option<real>>, b: seq<Option<real>>, c: seq<Option<real>>)
    requires |a| == |b| == |c| && (|a| > 0 ==> a[0].None? && b[0].None? && c[0].None?)
    requires forall i :: 0 < i < |a| ==> a[i].Some? && b[i].Some? && c[i].Some? && a[i].value + b[i].value <= c[i].value
    ensures Dominates(a, b, c)
  {
  }

  lemma MovementsWithinRange(bars: seq<Bar>)
    ensures Dominates(PlusDm(bars), MinusDm(bars), TrueRange(bars))
    ensures forall i :: 0 < i < |bars| ==> PlusDm(bars)[i].value >= 0.0 && MinusDm(bars)[i].value >= 0.0
  {
    hide PlusMove, MinusMove, RangeOf, Dominates;
    var a, b, c := PlusDm(bars), MinusDm(bars), TrueRange(bars);
    forall i | 0 < i < |bars|
      ensures a[i].Some? && b[i].Some? && c[i].Some?
      ensures 0.0 <= a[i].value && 0.0 <= b[i].value && a[i].value + b[i].value <= c[i].value
    {
      OneMovement(bars[i - 1], bars[i]);
    }
    DominatesBy(a, b, c);
  }

  /** 100 a / b; a vanishing range leaves 0 / 0, which is missing. */
  function Percent(a: Option<real>, b: Option<real>): Option<real>
    requires a.Some? && b.Some? && b.value == 0.0 ==> a.value == 0.0
  {
    if a.None? || b.None? || b.value == 0.0 then None else Some(100.0 * a.value / b.value)
  }

  lemma {:induction false} Largest(v: seq<Option<real>>, n: nat) returns (hi: real)
    requires n <= |v| && forall j :: 0 <= j < |v| && v[j].Some? ==> v[j].value >= 0.0
    ensures forall j :: 0 <= j < n && v[j].Some? ==> 0.0 <= v[j].value <= hi
  {
    hi := 0.0;
    if n > 0 {
      hi := Largest(v, n - 1);
      if v[n - 1].Some? {
        hi := MaxReal(hi, v[n - 1].value);
      }
    }
  }

  lemma {:induction false} Positive(v: seq<Option<real>>, period: nat, i: nat)
    requires period >= 1 && i < |v| && forall j :: 0 <= j < |v| && v[j].Some? ==> v[j].value >= 0.0
    ensures Smoothed(v, period, i).Some? ==> Smoothed(v, period, i).value >= 0.0
  {
    var hi := Largest(v, |v|);
    SmoothedWithin(v, period, i, 0.0, hi);
  }

  /** The two smoothed movements never exceed the smoothed range. */
  lemma SmoothedMovements(bars: seq<Bar>, period: nat, i: nat)
    requires period >= 1 && i < |bars|
    ensures var p, m, t := Smoothed(PlusDm(bars), period, i), Smoothed(MinusDm(bars), period, i),
                           Smoothed(TrueRange(bars), period, i);
            && (p.Some? <==> t.Some?) && (m.Some? <==> t.Some?)
            && (t.Some? ==> 0.0 <= p.value && 0.0 <= m.value && p.value + m.value <= t.value)
  {
    MovementsWithinRange(bars);
    SmoothedDominates(PlusDm(bars), MinusDm(bars), TrueRange(bars), period, i);
    Positive(PlusDm(bars), period, i);
    Positive(MinusDm(bars), period, i);
  }

  function PlusDi(bars: seq<Bar>, period: nat, i: nat): Option<real>
    requires period >= 1 && i < |bars|
  {
    SmoothedMovements(bars, period, i);
    Percent(Smoothed(PlusDm(bars), period, i), Smoothed(TrueRange(bars), period, i))
  }

  function MinusDi(bars: seq<Bar>, period: nat, i: nat): Option<real>
    requires period >= 1 && i < |bars|
  {
    SmoothedMovements(bars, period, i);
    Percent(Smoothed(MinusDm(bars), period, i), Smoothed(TrueRange(bars), period, i))
  }

  function DxOf(p: Option<real>, m: Option<real>): Option<real> {
    if p.None? || m.None? then None
    else if p.value + m.value == 0.0 then Some(0.0)
    else Some(100.0 * Abs(p.value - m.value) / (p.value + m.value))
  }

  function Dx(bars: seq<Bar>, period: nat): (r: seq<Option<real>>)
    requires period >= 1
    ensures |r| == |bars|
  {
    seq(|bars|, i requires 0 <= i < |bars| => DxOf(PlusDi(bars, period, i), MinusDi(bars, period, i)))
  }

  function Adx(bars: seq<Bar>, period: nat, i: nat): Option<real>
    requires period >= 1 && i < |bars|
  {
    Smoothed(Dx(bars, period), period, i)
  }

  lemma PercentSum(p: real, m: real, t: real)
    requires 0.0 <= p && 0.0 <= m && p + m <= t && t > 0.0
    ensures 0.0 <= 100.0 * p / t && 0.0 <= 100.0 * m / t && 100.0 * p / t + 100.0 * m / t <= 100.0
  {
    var x, y := 100.0 * p / t, 100.0 * m / t;
    assert x * t == 100.0 * p && y * t == 100.0 * m;
    assert (x + y) * t == 100.0 * (p + m) <= 100.0 * t;
  }

  lemma PercentsOf(p: Option<real>, m: Option<real>, t: Option<real>)
    requires (p.Some? <==> t.Some?) && (m.Some? <==> t.Some?)
    requires t.Some? ==> 0.0 <= p.value && 0.0 <= m.value && p.value + m.value <= t.value
    ensures var x, y := Percent(p, t), Percent(m, t);
            (x.Some? <==> y.Some?) && (x.Some? ==> 0.0 <= x.value && 0.0 <= y.value && x.value + y.value <= 100.0)
  {
    if t.Some? && t.value != 0.0 {
      PercentSum(p.value, m.value, t.value);
    }
  }

  /** Both directional indicators are in [0, 100], and so is their sum, at every bar of every series. */
  lemma DirectionalBounds(bars: seq<Bar>, period: nat, i: nat)
    requires period >= 1 && i < |bars|
    ensures var p, m := PlusDi(bars, period, i), MinusDi(bars, period, i);
            && (p.Some? <==> m.Some?)
            && (p.Some? ==> 0.0 <= p.value && 0.0 <= m.value && p.value + m.value <= 100.0)
  {
    SmoothedMovements(bars, period, i);
    hide Smoothed, PlusDm, MinusDm, TrueRange, Percent;
    PercentsOf(Smoothed(PlusDm(bars), period, i), Smoothed(MinusDm(bars), period, i), Smoothed(TrueRange(bars), period, i));
  }

  lemma Ratio(a: real, s: real, most: real)
    requires s > 0.0 && 0.0 <= a <= most * s
    ensures 0.0 <= a / s <= most
  {
    var q := a / s;
    assert q * s == a;
  }

  lemma DxWithin(p: real, m: real)
    requires 0.0 <= p && 0.0 <= m
    ensures 0.0 <= DxOf(Some(p), Some(m)).value <= 100.0
  {
    if p + m != 0.0 {
      Ratio(100.0 * Abs(p - m), p + m, 100.0);
    }
  }

  lemma DxDefined(p: Option<real>, m: Option<real>)
    requires DxOf(p, m).Some?
    ensures p.Some? && m.Some?
  {
  }

  /** ADX is in [0, 100]. */
  lemma AdxBounds(bars: seq<Bar>, period: nat, i: nat)
    requires period >= 1 && i < |bars|
    ensures Adx(bars, period, i).Some? ==> 0.0 <= Adx(bars, period, i).value <= 100.0
  {
    hide PlusDi, MinusDi, Smoothed, DxOf;
    var dx := Dx(bars, period);
    forall j | 0 <= j < |bars| && dx[j].Some? ensures 0.0 <= dx[j].value <= 100.0 {
      DirectionalBounds(bars, period, j);
      var p, m := PlusDi(bars, period, j), MinusDi(bars, period, j);
      assert p.Some? && m.Some? by {
        DxDefined(p, m);
      }
      DxWithin(p.value, m.value);
    }
    SmoothedWithin(dx, period, i, 0.0, 100.0);
  }

  // ---------------------------------------------------------------- RSI and EMA

  function Gains(s: seq<real>): (r: seq<Option<real>>)
    ensures |r| == |s|
  {
    seq(|s|, i requires 0 <= i < |s| => if i == 0 then None else Some(MaxReal(s[i] - s[i - 1], 0.0)))
  }

  function Losses(s: seq<real>): (r: seq<Option<real>>)
    ensures |r| == |s|
  {
    seq(|s|, i requires 0 <= i < |s| => if i == 0 then None else Some(MaxReal(s[i - 1] - s[i], 0.0)))
  }

  function RsiOf(gain: Option<real>, loss: Option<real>): Option<real> {
    if gain.None? || loss.None? then None
    else if loss.value == 0.0 && gain.value == 0.0 then Some(50.0)
    else if loss.value == 0.0 then Some(100.0)
    else
      var ratio := 1.0 + gain.value / loss.value;
      if ratio == 0.0 then None else Some(100.0 - 100.0 / ratio)
  }

  function Rsi(s: seq<real>, period: nat, i: nat): Option<real>
    requires period >= 1 && i < |s|
  {
    RsiOf(Smoothed(Gains(s), period, i), Smoothed(Losses(s), period, i))
  }

  lemma RsiWithin(gain: real, loss: real)
    requires gain >= 0.0 && loss >= 0.0
    ensures RsiOf(Some(gain), Some(loss)).Some? && 0.0 <= RsiOf(Some(gain), Some(loss)).value <= 100.0
  {
    if loss != 0.0 {
      var g := gain / loss;
      assert g * loss == gain;
      assert g >= 0.0;
      var q := 100.0 / (1.0 + g);
      assert q * (1.0 + g) == 100.0;
    }
  }

  lemma NoRsi(l: Option<real>)
    ensures RsiOf(None, l).None?
  {
  }

  ghost function Totals(s: seq<real>): seq<Option<real>> {
    seq(|s|, i requires 0 <= i < |s| => if i == 0 then None else Some(Gains(s)[i].value + Losses(s)[i].value))
  }

  lemma Total(s: seq<real>)
    ensures Dominates(Gains(s), Losses(s), Totals(s))
  {
  }

  /** RSI is in [0, 100] wherever gains are smoothed, and is missing only where they are. */
  lemma RsiBounds(s: seq<real>, period: nat, i: nat)
    requires period >= 1 && i < |s|
    ensures Rsi(s, period, i).Some? <==> Smoothed(Gains(s), period, i).Some?
    ensures Rsi(s, period, i).Some? ==> 0.0 <= Rsi(s, period, i).value <= 100.0
  {
    Positive(Gains(s), period, i);
    Positive(Losses(s), period, i);
    Total(s);
    SmoothedDominates(Gains(s), Losses(s), Totals(s), period, i);
    var g, l := Smoothed(Gains(s), period, i), Smoothed(Losses(s), period, i);
    hide Smoothed, RsiOf;
    if g.Some? {
      RsiWithin(g.value, l.value);
    } else {
      assert RsiOf(g, l).None? by {
        NoRsi(l);
      }
    }
  }

  function Sum(s: seq<real>, n: nat): real
    requires n <= |s|
  {
    if n == 0 then 0.0 else Sum(s, n - 1) + s[n - 1]
  }

  function Mean(s: seq<real>, n: nat): real
    requires 1 <= n <= |s|
  {
    Sum(s, n) / n as real
  }

  function Alpha(period: nat): real { 2.0 / (period as real + 1.0) }

  function Prod(a: real, b: real): real { a * b }

  function Mixed(alpha: real, x: real, prev: real): real { Prod(alpha, x) + Prod(1.0 - alpha, prev) }

  function EmaAt(s: seq<real>, period: nat, i: nat): Option<real>
    requires period >= 1 && i < |s|
  {
    if i < period - 1 then None
    else if i == period - 1 then Some(Mean(s, period))
    else
      Some(Mixed(Alpha(period), s[i], EmaAt(s, period, i - 1).value))
  }

  lemma EmaStarts(s: seq<real>, period: nat)
    requires period >= 1
    ensures forall i :: 0 <= i < |s| && i < period - 1 ==> EmaAt(s, period, i).None?
    ensures period <= |s| ==> EmaAt(s, period, period - 1) == Some(Mean(s, period))
  {
    hide Mean, Mixed, Alpha;
  }

  lemma EmaGoesOn(s: seq<real>, period: nat, i: nat)
    requires 1 <= period <= i < |s|
    ensures EmaAt(s, period, i - 1).Some?
    ensures EmaAt(s, period, i) == Some(Mixed(Alpha(period), s[i], EmaAt(s, period, i - 1).value))
  {
    hide Mean, Mixed, Alpha;
  }

  method Ema(s: seq<real>, period: nat) returns (out: array<Option<real>>)
    requires period >= 1
    ensures fresh(out) && out.Length == |s| && forall i :: 0 <= i < |s| ==> out[i] == EmaAt(s, period, i)
  {
    hide *;
    out := new Option<real>[|s|](_ => None);
    EmaStarts(s, period);
    if |s| < period {
      return;
    }
    var alpha := Alpha(period);
    out[period - 1] := Some(Mean(s, period));
    var i := period;
    while i < |s|
      invariant period <= i <= |s|
      invariant forall k :: 0 <= k < i ==> out[k] == EmaAt(s, period, k)
    {
      EmaGoesOn(s, period, i);
      out[i] := Some(Mixed(alpha, s[i], out[i - 1].value));
      i := i + 1;
    }
  }

  lemma Scaled(k: real, lo: real, x: real, hi: real)
    requires 0.0 <= k && lo <= x <= hi
    ensures Prod(k, lo) <= Prod(k, x) <= Prod(k, hi)
  {
  }

  lemma Convex(alpha: real, z: real)
    ensures Prod(alpha, z) + Prod(1.0 - alpha, z) == z
  {
  }

  lemma Mix(alpha: real, x: real, y: real, lo: real, hi: real)
    requires 0.0 <= alpha <= 1.0 && lo <= x <= hi && lo <= y <= hi
    ensures lo <= Mixed(alpha, x, y) <= hi
  {
    hide Prod;
    Scaled(alpha, lo, x, hi);
    Scaled(1.0 - alpha, lo, y, hi);
    Convex(alpha, lo);
    Convex(alpha, hi);
  }

  lemma {:induction false} SumBetween(s: seq<real>, n: nat, lo: real, hi: real)
    requires n <= |s| && forall j :: 0 <= j < |s| ==> lo <= s[j] <= hi
    ensures Scale(n, lo) <= Sum(s, n) <= Scale(n, hi)
  {
    hide Scale;
    OneMore(0, lo);
    OneMore(0, hi);
    if n > 0 {
      SumBetween(s, n - 1, lo, hi);
      OneMore(n - 1, lo);
      OneMore(n - 1, hi);
    }
  }

  /** The exponential average never leaves the range of its values either. */
  lemma {:induction false} EmaWithin(s: seq<real>, period: nat, i: nat, lo: real, hi: real)
    requires period >= 1 && i < |s| && forall j :: 0 <= j < |s| ==> lo <= s[j] <= hi
    ensures EmaAt(s, period, i).Some? <==> i >= period - 1
    ensures EmaAt(s, period, i).Some? ==> lo <= EmaAt(s, period, i).value <= hi
  {
    if i == period - 1 {
      SumBetween(s, period, lo, hi);
      QuotientWithin(Sum(s, period), period, lo, hi);
    } else if i >= period {
      EmaWithin(s, period, i - 1, lo, hi);
      Ratio(2.0, period as real + 1.0, 1.0);
      Mix(Alpha(period), s[i], EmaAt(s, period, i - 1).value, lo, hi);
    }
  }

  // ---------------------------------------------------------------- what a smoothed value weighs

  function Pow(x: real, k: nat): real {
    if k == 0 then 1.0 else Prod(x, Pow(x, k - 1))
  }

  /** The values after index `seed` up to `n`, each weighed `b` and then kept by `a` for every later index up to `i`. */
  ghost function Weighed(a: real, b: real, f: nat -> real, seed: nat, n: nat, i: nat): real
    requires seed <= n <= i
    decreases n
  {
    if n == seed then 0.0 else Weighed(a, b, f, seed, n - 1, i) + Prod(Prod(b, Pow(a, i - n)), f(n))
  }

  /** The closed form of a smoothing: the seed's share and every later value's. */
  ghost function Closed(a: real, b: real, f: nat -> real, seed: nat, start: real, i: nat): real
    requires seed <= i
  {
    Prod(Pow(a, i - seed), start) + Weighed(a, b, f, seed, i, i)
  }

  lemma KeepOnce(a: real, x: real, y: real, z: real)
    ensures Prod(a, x + y) == Prod(a, x) + Prod(a, y) && Prod(a, Prod(x, z)) == Prod(Prod(a, x), z) && Prod(a, 0.0) == 0.0
    ensures Prod(x, y) == Prod(y, x) && Prod(1.0, x) == x
  {
    assert a * (x * z) == (a * x) * z;
  }

  lemma Exchange(a: real, b: real, x: real)
    ensures Prod(b, Prod(a, x)) == Prod(a, Prod(b, x))
  {
    assert b * (a * x) == a * (b * x);
  }

  lemma {:induction false} WeighedKept(a: real, b: real, f: nat -> real, seed: nat, n: nat, i: nat)
    requires seed <= n <= i
    ensures Weighed(a, b, f, seed, n, i + 1) == Prod(a, Weighed(a, b, f, seed, n, i))
    decreases n
  {
    hide Prod;
    KeepOnce(a, 0.0, 0.0, 0.0);
    if n > seed {
      var w, p, x := Weighed(a, b, f, seed, n - 1, i), Pow(a, i - n), f(n);
      WeighedKept(a, b, f, seed, n - 1, i);
      KeepOnce(a, w, Prod(Prod(b, p), x), 0.0);
      KeepOnce(a, Prod(b, p), 0.0, x);
      Exchange(a, b, p);
      assert Pow(a, i + 1 - n) == Prod(a, p);
    }
  }

  /** One more step of the recurrence is the closed form one index on. */
  lemma ClosedStep(a: real, b: real, f: nat -> real, seed: nat, start: real, i: nat)
    requires seed <= i
    ensures Closed(a, b, f, seed, start, i + 1) == Prod(a, Closed(a, b, f, seed, start, i)) + Prod(b, f(i + 1))
    ensures Closed(a, b, f, seed, start, seed) == start
  {
    hide Prod;
    WeighedKept(a, b, f, seed, i, i);
    KeepOnce(a, Prod(Pow(a, i - seed), start), Weighed(a, b, f, seed, i, i), 0.0);
    KeepOnce(a, Pow(a, i - seed), 0.0, start);
    KeepOnce(b, b, 1.0, start);
    KeepOnce(1.0, start, b, 0.0);
    assert Pow(a, i + 1 - seed) == Prod(a, Pow(a, i - seed));
    assert Pow(a, 0) == 1.0;
    assert Prod(b, Pow(a, 0)) == b;
  }

  /** The index of the `period`-th valid value, whose mean with the ones before seeds the smoothing. */
  ghost predicate SeedAt(v: seq<Option<real>>, period: nat, seed: nat)
    requires period >= 1
  {
    seed < |v| && ValidCount(v, seed) < period <= ValidCount(v, seed + 1)
  }

  lemma Cancel(x: real, y: real, d: real)
    requires d > 0.0 && x * d == y * d
    ensures x == y
  {
    assert (x - y) * d == 0.0;
  }

  lemma BlendIs(prev: real, x: real, period: nat)
    requires period >= 1
    ensures Blend(prev, x, period) == Prod((period - 1) as real / period as real, prev) + Prod(1.0 / period as real, x)
  {
    var p := period as real;
    assert (period - 1) as real == p - 1.0;
    var k := (p - 1.0) / p;
    assert k * p == p - 1.0;
    var u := 1.0 / p;
    assert u * p == 1.0;
    var r := (prev * (p - 1.0) + x) / p;
    assert r * p == prev * (p - 1.0) + x;
    assert (k * prev + u * x) * p == prev * (k * p) + x * (u * p);
    Cancel(r, k * prev + u * x, p);
  }

  /** Wilder's smoothing in closed form: with n indices since the seed, the mean of the first values weighs ((p - 1) / p)^n and
      a value k indices old weighs ((p - 1) / p)^k / p; so the old weighs the more the longer the period. */
  lemma {:induction false} WilderWeights(v: seq<Option<real>>, period: nat, seed: nat, i: nat, f: nat -> real)
    requires period >= 1 && SeedAt(v, period, seed) && seed <= i < |v|
    requires forall j :: seed < j <= i ==> v[j] == Some(f(j))
    ensures Smoothed(v, period, i)
         == Some(Closed((period - 1) as real / period as real, 1.0 / period as real, f, seed,
                        ValidSum(v, seed + 1) / period as real, i))
    decreases i
  {
    hide Blend, Prod, Closed;
    var a, b, start := (period - 1) as real / period as real, 1.0 / period as real, ValidSum(v, seed + 1) / period as real;
    if i == seed {
      ClosedStep(a, b, f, seed, start, seed);
    } else {
      WilderWeights(v, period, seed, i - 1, f);
      ClosedStep(a, b, f, seed, start, i - 1);
      CountMonotone(v, seed + 1, i);
      CountMonotone(v, i, i + 1);
      BlendIs(Smoothed(v, period, i - 1).value, f(i), period);
    }
  }

  lemma MeanIs(s: seq<real>, n: nat)
    requires 1 <= n <= |s|
    ensures Mean(s, n) == Sum(s, n) / n as real
  {
  }

  /** The exponential average in closed form: with alpha 2 / (p + 1), the mean of the first p values weighs (1 - alpha)^n and a
      value k indices old weighs alpha (1 - alpha)^k. */
  lemma {:induction false} EmaWeights(s: seq<real>, period: nat, i: nat, f: nat -> real)
    requires 1 <= period <= i + 1 && i < |s| && forall j :: 0 <= j < |s| ==> f(j) == s[j]
    ensures var alpha := 2.0 / (period as real + 1.0);
            EmaAt(s, period, i) == Some(Closed(1.0 - alpha, alpha, f, period - 1, Sum(s, period) / period as real, i))
    decreases i
  {
    hide Prod, Closed, Mean;
    var alpha, start := 2.0 / (period as real + 1.0), Sum(s, period) / period as real;
    assert Mean(s, period) == start by {
      MeanIs(s, period);
    }
    if i == period - 1 {
      ClosedStep(1.0 - alpha, alpha, f, period - 1, start, i);
    } else {
      EmaWeights(s, period, i - 1, f);
      ClosedStep(1.0 - alpha, alpha, f, period - 1, start, i - 1);
    }
  }

  // ---------------------------------------------------------------- which way an indicator points

  lemma SignOf(x: real, s: real)
    requires s > 0.0
    ensures (x < 0.0 <==> x * s < 0.0) && (x == 0.0 <==> x * s == 0.0)
  {
  }

  lemma SharesAdd(g: real, l: real, q: real, h: real)
    requires l > 0.0 && g >= 0.0 && q >= 0.0 && q * l == g && h * (1.0 + q) == 100.0
    ensures (100.0 - h) * (g + l) == 100.0 * g
    ensures (100.0 - h > 50.0 <==> g > l) && (100.0 - h == 50.0 <==> g == l)
  {
    var s := g + l;
    assert s == l * (1.0 + q);
    assert h * s == h * (l * (1.0 + q)) == l * (h * (1.0 + q)) == 100.0 * l;
    assert (100.0 - h) * s == 100.0 * s - h * s;
    assert (h - 50.0) * s == h * s - 50.0 * s;
    SignOf(h - 50.0, s);
  }

  lemma ShareIs(gain: Option<real>, loss: Option<real>)
    requires RsiOf(gain, loss).Some? && (gain.Some? ==> gain.value >= 0.0) && (loss.Some? ==> loss.value >= 0.0)
    ensures gain.Some? && loss.Some?
    ensures var g, l, r := gain.value, loss.value, RsiOf(gain, loss).value;
            && (g == l == 0.0 ==> r == 50.0) && Prod(r, g + l) == Prod(100.0, g)
            && (r > 50.0 <==> g > l) && (r == 50.0 <==> g == l)
  {
    var g, l := gain.value, loss.value;
    if l != 0.0 {
      var q := g / l;
      assert q * l == g;
      assert q >= 0.0;
      var h := 100.0 / (1.0 + q);
      assert h * (1.0 + q) == 100.0;
      SharesAdd(g, l, q, h);
    }
  }

  lemma MovesAt(s: seq<real>, j: nat)
    requires j < |s|
    ensures Gains(s)[j] == if j == 0 then None else Some(if s[j] > s[j - 1] then s[j] - s[j - 1] else 0.0)
    ensures Losses(s)[j] == if j == 0 then None else Some(if s[j] < s[j - 1] then s[j - 1] - s[j] else 0.0)
  {
  }

  lemma NotNegativeMoves(s: seq<real>)
    ensures forall j :: 0 <= j < |s| && Gains(s)[j].Some? ==> Gains(s)[j].value >= 0.0
    ensures forall j :: 0 <= j < |s| && Losses(s)[j].Some? ==> Losses(s)[j].value >= 0.0
  {
    hide Gains, Losses;
    forall j | 0 <= j < |s|
      ensures Gains(s)[j].Some? ==> Gains(s)[j].value >= 0.0
      ensures Losses(s)[j].Some? ==> Losses(s)[j].value >= 0.0
    {
      MovesAt(s, j);
    }
  }

  /** RSI is the gains' share of gains and losses, so above 50 exactly when the smoothed gains exceed the smoothed losses. */
  lemma RsiIsShare(s: seq<real>, period: nat, i: nat)
    requires period >= 1 && i < |s| && Rsi(s, period, i).Some?
    ensures Smoothed(Gains(s), period, i).Some? && Smoothed(Losses(s), period, i).Some?
    ensures var g, l, r := Smoothed(Gains(s), period, i).value, Smoothed(Losses(s), period, i).value, Rsi(s, period, i).value;
            && g >= 0.0 && l >= 0.0 && (g == l == 0.0 ==> r == 50.0) && Prod(r, g + l) == Prod(100.0, g)
            && (r > 50.0 <==> g > l) && (r == 50.0 <==> g == l)
  {
    NotNegativeMoves(s);
    Positive(Gains(s), period, i);
    Positive(Losses(s), period, i);
    hide Smoothed, Gains, Losses, RsiOf, Prod;
    ShareIs(Smoothed(Gains(s), period, i), Smoothed(Losses(s), period, i));
  }

  ghost predicate NeverFalls(s: seq<real>) {
    forall j :: 0 < j < |s| ==> s[j - 1] <= s[j]
  }

  ghost predicate NeverRises(s: seq<real>) {
    forall j :: 0 < j < |s| ==> s[j] <= s[j - 1]
  }

  /** A series that never falls has no losses, one that never rises no gains. */
  lemma OneSided(s: seq<real>)
    ensures NeverFalls(s) ==> Within(Losses(s), 0.0, 0.0)
    ensures NeverRises(s) ==> Within(Gains(s), 0.0, 0.0)
  {
    hide Gains, Losses;
    forall j | 0 <= j < |s|
      ensures NeverFalls(s) && Losses(s)[j].Some? ==> Losses(s)[j].value == 0.0
      ensures NeverRises(s) && Gains(s)[j].Some? ==> Gains(s)[j].value == 0.0
    {
      MovesAt(s, j);
    }
  }

  /** So RSI is at least 50 on the one, and 100 once it rose; at most 50 on the other, and 0 once it fell. */
  lemma RsiPointsTheWay(s: seq<real>, period: nat, i: nat)
    requires period >= 1 && i < |s| && Rsi(s, period, i).Some?
    ensures var g, l, r := Smoothed(Gains(s), period, i), Smoothed(Losses(s), period, i), Rsi(s, period, i).value;
            && (NeverFalls(s) ==> r >= 50.0 && (g.Some? && g.value > 0.0 ==> r == 100.0))
            && (NeverRises(s) ==> r <= 50.0 && (l.Some? && l.value > 0.0 ==> r == 0.0))
  {
    hide Smoothed, Rsi, Gains, Losses, NeverFalls, NeverRises, Within;
    RsiIsShare(s, period, i);
    OneSided(s);
    var g, l, r := Smoothed(Gains(s), period, i).value, Smoothed(Losses(s), period, i).value, Rsi(s, period, i).value;
    if NeverFalls(s) {
      SmoothedWithin(Losses(s), period, i, 0.0, 0.0);
      if g > 0.0 {
        Cancel(r, 100.0, g);
      }
    }
    if NeverRises(s) {
      SmoothedWithin(Gains(s), period, i, 0.0, 0.0);
      if l > 0.0 {
        Cancel(r, 0.0, l);
      }
    }
  }

  /** The true range is what the bar and the close before it span. */
  lemma RangeSpans(p: Bar, b: Bar)
    ensures RangeOf(p, b) == (if b.high > p.close then b.high else p.close) - (if b.low < p.close then b.low else p.close)
  {
    assert b.WellFormed();
  }

  /** The bars seen upside down. */
  function Flipped(bars: seq<Bar>): (r: seq<Bar>)
    ensures |r| == |bars| && forall i :: 0 <= i < |r| ==> r[i] == Bar(-bars[i].low, -bars[i].high, -bars[i].close)
  {
    seq(|bars|, i requires 0 <= i < |bars| => Bar(-bars[i].low, -bars[i].high, -bars[i].close))
  }

  lemma FlippedMove(p: Bar, b: Bar, p': Bar, b': Bar)
    requires p' == Bar(-p.low, -p.high, -p.close) && b' == Bar(-b.low, -b.high, -b.close)
    ensures PlusMove(p', b') == MinusMove(p, b) && MinusMove(p', b') == PlusMove(p, b) && RangeOf(p', b') == RangeOf(p, b)
  {
    RangeSpans(p, b);
    RangeSpans(p', b');
  }

  lemma DmAt(bars: seq<Bar>, j: nat)
    requires j < |bars|
    ensures PlusDm(bars)[j] == if j == 0 then None else Some(PlusMove(bars[j - 1], bars[j]))
    ensures MinusDm(bars)[j] == if j == 0 then None else Some(MinusMove(bars[j - 1], bars[j]))
    ensures TrueRange(bars)[j] == if j == 0 then None else Some(RangeOf(bars[j - 1], bars[j]))
  {
  }

  lemma FlippedAt(bars: seq<Bar>, j: nat)
    requires j < |bars|
    ensures Flipped(bars)[j] == Bar(-bars[j].low, -bars[j].high, -bars[j].close)
  {
  }

  lemma FlippedMoves(bars: seq<Bar>)
    ensures PlusDm(Flipped(bars)) == MinusDm(bars) && MinusDm(Flipped(bars)) == PlusDm(bars)
    ensures TrueRange(Flipped(bars)) == TrueRange(bars)
  {
    hide PlusMove, MinusMove, RangeOf, PlusDm, MinusDm, TrueRange, Flipped;
    var fs := Flipped(bars);
    forall j | 0 <= j < |bars|
      ensures PlusDm(fs)[j] == MinusDm(bars)[j] && MinusDm(fs)[j] == PlusDm(bars)[j] && TrueRange(fs)[j] == TrueRange(bars)[j]
    {
      DmAt(bars, j);
      DmAt(fs, j);
      if j > 0 {
        FlippedAt(bars, j - 1);
        FlippedAt(bars, j);
        FlippedMove(bars[j - 1], bars[j], fs[j - 1], fs[j]);
      }
    }
  }

  lemma DxFlips(p: Option<real>, m: Option<real>)
    ensures DxOf(p, m) == DxOf(m, p)
  {
  }

  /** Upside down the two directional indicators change places and the index stays. */
  lemma FlippedIndicators(bars: seq<Bar>, period: nat, i: nat)
    requires period >= 1 && i < |bars|
    ensures PlusDi(Flipped(bars), period, i) == MinusDi(bars, period, i)
    ensures MinusDi(Flipped(bars), period, i) == PlusDi(bars, period, i)
    ensures Adx(Flipped(bars), period, i) == Adx(bars, period, i)
  {
    FlippedMoves(bars);
    hide PlusDm, MinusDm, TrueRange, Smoothed, Flipped;
    forall j | 0 <= j < |bars|
      ensures PlusDi(Flipped(bars), period, j) == MinusDi(bars, period, j)
      ensures MinusDi(Flipped(bars), period, j) == PlusDi(bars, period, j)
    {
    }
    forall j | 0 <= j < |bars| ensures Dx(Flipped(bars), period)[j] == Dx(bars, period)[j] {
      DxFlips(PlusDi(bars, period, j), MinusDi(bars, period, j));
    }
    assert Dx(Flipped(bars), period) == Dx(bars, period);
  }

  lemma NoDownMoves(bars: seq<Bar>)
    requires forall j :: 0 < j < |bars| ==> bars[j - 1].low <= bars[j].low
    ensures Within(MinusDm(bars), 0.0, 0.0)
  {
    hide MinusDm;
    forall j | 0 <= j < |bars| ensures MinusDm(bars)[j].Some? ==> MinusDm(bars)[j].value == 0.0 {
      DmAt(bars, j);
    }
  }

  lemma PercentIs(a: Option<real>, b: Option<real>)
    requires a.Some? && b.Some? && b.value == 0.0 ==> a.value == 0.0
    ensures Percent(a, b).Some? <==> a.Some? && b.Some? && b.value != 0.0
    ensures Percent(a, b).Some? ==> Prod(Percent(a, b).value, b.value) == Prod(100.0, a.value)
    ensures Percent(a, b).Some? && a.value == 0.0 ==> Percent(a, b).value == 0.0
  {
  }

  /** Where no bar reaches below the one before, the downward indicator is nothing and the upward one is the share of the
      range that the rises are. */
  lemma RisingPointsUp(bars: seq<Bar>, period: nat, i: nat)
    requires period >= 1 && i < |bars| && PlusDi(bars, period, i).Some?
    requires forall j :: 0 < j < |bars| ==> bars[j - 1].low <= bars[j].low
    ensures MinusDi(bars, period, i) == Some(0.0)
    ensures Smoothed(PlusDm(bars), period, i).Some? && Smoothed(TrueRange(bars), period, i).Some?
    ensures Prod(PlusDi(bars, period, i).value, Smoothed(TrueRange(bars), period, i).value)
         == Prod(100.0, Smoothed(PlusDm(bars), period, i).value)
  {
    NoDownMoves(bars);
    SmoothedMovements(bars, period, i);
    hide Smoothed, PlusDm, MinusDm, TrueRange, Within, Percent;
    SmoothedWithin(MinusDm(bars), period, i, 0.0, 0.0);
    PercentIs(Smoothed(PlusDm(bars), period, i), Smoothed(TrueRange(bars), period, i));
    PercentIs(Smoothed(MinusDm(bars), period, i), Smoothed(TrueRange(bars), period, i));
  }

  /** The directional index is the difference of the two as a share of their sum. */
  lemma DxIsShare(p: real, m: real)
    requires p >= 0.0 && m >= 0.0
    ensures Prod(DxOf(Some(p), Some(m)).value, p + m) == Prod(100.0, if p > m then p - m else m - p)
  {
  }
}
