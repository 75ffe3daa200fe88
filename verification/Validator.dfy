/** Sizing (tradalgo/risk/sizing.py) and the acceptance of a signal as a plan (tradalgo/risk/validator.py). */
module Validator {
  import opened Common
  import opened Positions
  import Limits
  import Costs

  const NO_LEVEL_ROOM_R: real := 99.0

  /** A signal; its stop is on the losing side of its entry, or it cannot be built. */
  datatype SignalValue = Signal(symbol: string, strategy: string, dir: Direction, ts: int, entry: real, stop: real)
  {
    predicate StopOnRightSide() {
      if dir.Long? then stop < entry else stop > entry
    }
  }
  type Signal = s: SignalValue | s.StopOnRightSide() witness Signal("", "", Long, 0, 1.0, 0.0)

  /** The configured ranges of the capital and risk settings. */
  datatype ConfigValue = Config(maxRiskPct: real, maxLeverage: real, fallbackLeverage: real, maxTrades: int, lossLimit: real,
                                winProb: real, runnerAvgR: real, minRoomR: real, bandFractionR: real, partialFraction: real,
                                partialAtR: real, runnerTargetR: real, costs: Costs.Config)
  {
    predicate InRange() {
      maxRiskPct > 0.0 && maxLeverage >= 1.0 && fallbackLeverage >= 1.0 && bandFractionR > 0.0 && minRoomR > 0.0
    }
  }
  type Config = c: ConfigValue | c.InRange()
    witness Config(0.01, 1.0, 1.0, 1, 1.0, 0.5, 1.0, 1.0, 0.1, 0.5, 1.0, 2.0,
                   Costs.CostsConfig(0.0, 0.0, 0.0, 0.0, 0.0, 0.0, 0.0, 0.0))

  datatype Plan = Plan(signal: Signal, qty: int, leverageUsed: real, marginRequired: real, riskRupees: real, target2r: real,
                       target3r: real, estCost: real, roomR: real, expectedValueR: real, limitLow: real, limitHigh: real,
                       validUntil: int)

  datatype Reason = Refused(rule: Limits.Refusal) | NoQuantity | NoRoom | NoEdge

  datatype Decision = Accept(plan: Plan) | Reject(reason: Reason)

  function Risk(s: Signal): (r: real)
    ensures r > 0.0
  {
    Abs(s.entry - s.stop)
  }

  function Target(s: Signal, r: real): real { s.entry + Sign(s.dir) * r * Risk(s) }

  // ---------------------------------------------------------------- sizing

  function EffectiveLeverage(symbolLeverage: Option<real>, maxLeverage: real, fallback: real): real {
    MinReal(if symbolLeverage.None? || symbolLeverage.value <= 0.0 then fallback else symbolLeverage.value, maxLeverage)
  }

  function PositionQty(entry: real, stop: real, capital: real, maxRiskPct: real, leverage: real): int {
    var risk := Abs(entry - stop);
    if risk <= 0.0 || entry <= 0.0 then 0 else
    var riskQty := (capital * maxRiskPct / risk).Floor;
    var leverageQty := (capital * leverage / entry).Floor;
    var n := if leverageQty < riskQty then leverageQty else riskQty;
    if n > 0 then n else 0
  }

  function MarginRequired(qty: int, entry: real, leverage: real): real
    requires leverage != 0.0
  {
    qty as real * entry / leverage
  }

  lemma LeveragePositive(symbolLeverage: Option<real>, c: Config)
    ensures 0.0 < EffectiveLeverage(symbolLeverage, c.maxLeverage, c.fallbackLeverage) <= c.maxLeverage
  {
  }

  lemma FloorBound(n: int, a: real, d: real)
    requires d > 0.0
    ensures n <= (a / d).Floor <==> Costs.Times(n as real, d) <= a
  {
    var q := a / d;
    assert q * d == a;
    if n as real <= q {
      assert n as real * d <= q * d;
    } else {
      assert n as real * d > q * d;
    }
  }

  /** The size is the largest that risks no more than the cap and needs no more margin than the capital. */
  lemma PositionQtyIsLargest(entry: real, stop: real, capital: real, maxRiskPct: real, leverage: real, n: int)
    requires entry != stop && entry > 0.0 && n > 0
    ensures n <= PositionQty(entry, stop, capital, maxRiskPct, leverage)
       <==> Costs.Times(n as real, Abs(entry - stop)) <= capital * maxRiskPct && Costs.Times(n as real, entry) <= capital * leverage
  {
    hide Costs.Times;
    FloorBound(n, capital * maxRiskPct, Abs(entry - stop));
    FloorBound(n, capital * leverage, entry);
  }

  // ---------------------------------------------------------------- the decision

  predicate Opposes(s: Signal, level: real) {
    if s.dir.Long? then level >= s.entry else level <= s.entry
  }

  function Opposing(s: Signal, levels: seq<real>): seq<real> {
    if levels == [] then [] else (if Opposes(s, levels[0]) then [levels[0]] else []) + Opposing(s, levels[1..])
  }

  /** The fill band: from the entry to the worst price a manual fill may get. */
  function Band(s: Signal, c: Config): (real, real) {
    var band := c.bandFractionR * Risk(s);
    if s.dir.Long? then (s.entry, s.entry + band) else (s.entry - band, s.entry)
  }

  function WorstFill(s: Signal, c: Config): real {
    if s.dir.Long? then Band(s, c).1 else Band(s, c).0
  }

  /** Room from the worst fill to a level, in R. */
  function RoomTo(s: Signal, c: Config, level: real): real {
    Sign(s.dir) * (level - WorstFill(s, c)) / Risk(s)
  }

  function Room(s: Signal, c: Config, levels: seq<real>): Option<real> {
    var ls := Opposing(s, levels);
    if ls == [] then None else Some(RoomTo(s, c, if s.dir.Long? then MinOf(ls) else MaxOf(ls)))
  }

  function ExpectedValue(c: Config, costR: real): real {
    c.winProb * (c.partialFraction * c.partialAtR + (1.0 - c.partialFraction) * c.runnerAvgR) - (1.0 - c.winProb) - costR
  }

  function SizeOf(s: Signal, capital: real, symbolLeverage: Option<real>, c: Config): int {
    PositionQty(WorstFill(s, c), s.stop, capital, c.maxRiskPct,
                EffectiveLeverage(symbolLeverage, c.maxLeverage, c.fallbackLeverage))
  }

  function CostOf(s: Signal, qty: int, c: Config): real {
    var value := Costs.Times(WorstFill(s, c), qty as real);
    Costs.TradeCharges(s.dir, value, [value], c.costs)
  }

  /** The modeled charges in R of the size. */
  function CostR(s: Signal, qty: int, c: Config): real {
    var unit := qty as real * Risk(s);
    if unit == 0.0 then 0.0 else CostOf(s, qty, c) / unit
  }

  function Validate(s: Signal, date: int, capital: real, symbolLeverage: Option<real>, levels: seq<real>, limits: Limits.RiskState,
                    c: Config): Decision
  {
    var refusal := Limits.CheckLimits(limits, date, s.symbol, s.strategy, c.maxTrades, c.lossLimit);
    if refusal.Some? then Reject(Refused(refusal.value)) else
    var worst := WorstFill(s, c);
    var leverage := EffectiveLeverage(symbolLeverage, c.maxLeverage, c.fallbackLeverage);
    var qty := SizeOf(s, capital, symbolLeverage, c);
    if qty == 0 then Reject(NoQuantity) else
    var room := Room(s, c, levels);
    if room.Some? && room.value < c.minRoomR then Reject(NoRoom) else
    var estCost := CostOf(s, qty, c);
    var ev := ExpectedValue(c, CostR(s, qty, c));
    if ev <= 0.0 then Reject(NoEdge) else
    LeveragePositive(symbolLeverage, c);
    Accept(Plan(s, qty, leverage, MarginRequired(qty, worst, leverage), qty as real * Abs(worst - s.stop),
                Target(s, c.partialAtR), Target(s, c.runnerTargetR), estCost,
                if room.Some? then room.value else NO_LEVEL_ROOM_R, ev, Band(s, c).0, Band(s, c).1, s.ts + 2 * BAR))
  }

  // ---------------------------------------------------------------- what acceptance means

  lemma {:induction false} OpposingIn(s: Signal, levels: seq<real>, level: real)
    ensures level in Opposing(s, levels) <==> level in levels && Opposes(s, level)
  {
    if levels != [] {
      OpposingIn(s, levels[1..], level);
      assert levels == [levels[0]] + levels[1..];
    }
  }

  lemma {:induction false} Extremes(ls: seq<real>)
    requires ls != []
    ensures MinOf(ls) in ls && MaxOf(ls) in ls && forall l :: l in ls ==> MinOf(ls) <= l <= MaxOf(ls)
  {
    if |ls| > 1 {
      Extremes(ls[1..]);
      assert ls == [ls[0]] + ls[1..];
    }
  }

  lemma RoomOrder(s: Signal, c: Config, a: real, b: real)
    requires Sign(s.dir) * a <= Sign(s.dir) * b
    ensures RoomTo(s, c, a) <= RoomTo(s, c, b)
  {
    hide WorstFill, Risk;
    var w, d := WorstFill(s, c), Risk(s);
    var x, y := Sign(s.dir) * (a - w), Sign(s.dir) * (b - w);
    assert x <= y;
    assert x / d <= y / d;
  }

  /** The room test is on the nearest opposing level only, and that is enough: it holds for every one. */
  lemma RoomIsForEveryLevel(s: Signal, c: Config, levels: seq<real>)
    ensures (Room(s, c, levels).None? || Room(s, c, levels).value >= c.minRoomR)
       <==> (forall l :: l in levels && Opposes(s, l) ==> RoomTo(s, c, l) >= c.minRoomR)
  {
    hide RoomTo, MinOf, MaxOf, Opposing;
    var ls := Opposing(s, levels);
    forall l ensures l in ls <==> l in levels && Opposes(s, l) {
      OpposingIn(s, levels, l);
    }
    if ls != [] {
      Extremes(ls);
      var nearest := if s.dir.Long? then MinOf(ls) else MaxOf(ls);
      forall l | l in ls ensures RoomTo(s, c, nearest) <= RoomTo(s, c, l) {
        RoomOrder(s, c, nearest, l);
      }
    } else {
      assert forall l :: l in levels ==> !Opposes(s, l) by {
        forall l | l in levels ensures !Opposes(s, l) {
          assert l !in ls;
        }
      }
    }
  }

  /** Sized at the worst fill: the stop there costs one R plus the band, per share. */
  lemma WorstRisk(s: Signal, c: Config)
    ensures Abs(WorstFill(s, c) - s.stop) == Risk(s) + c.bandFractionR * Risk(s)
    ensures WorstFill(s, c) != s.stop
    ensures Band(s, c).0 < Band(s, c).1
  {
    var band := c.bandFractionR * Risk(s);
    assert band > 0.0;
  }

  /** The worst price a manual fill may get. */
  function WorstPrice(s: Signal, c: Config): real {
    if s.dir.Long? then s.entry + c.bandFractionR * (s.entry - s.stop) else s.entry - c.bandFractionR * (s.stop - s.entry)
  }

  /** The distance from the signal's entry to its stop. */
  function StopDistance(s: Signal): real { if s.dir.Long? then s.entry - s.stop else s.stop - s.entry }

  /** The symbol's leverage, or the fallback without one, and never more than the most allowed. */
  function LeverageOf(lev: Option<real>, c: Config): real {
    if lev.Some? && lev.value > 0.0 then (if lev.value < c.maxLeverage then lev.value else c.maxLeverage)
    else if c.fallbackLeverage < c.maxLeverage then c.fallbackLeverage else c.maxLeverage
  }

  /** One share stopped out from the worst price risks no more than the cap, and the margin of one fits. */
  ghost predicate ShareFits(s: Signal, capital: real, lev: Option<real>, c: Config) {
    var worst := WorstPrice(s, c);
    && worst > 0.0
    && (if s.dir.Long? then worst - s.stop else s.stop - worst) <= capital * c.maxRiskPct
    && worst <= capital * LeverageOf(lev, c)
  }

  /** Every level ahead of the signal is at least the least room from the worst price. */
  ghost predicate RoomAhead(s: Signal, levels: seq<real>, c: Config) {
    forall l :: l in levels ==>
      if s.dir.Long? then l >= s.entry ==> l - WorstPrice(s, c) >= c.minRoomR * StopDistance(s)
      else l <= s.entry ==> WorstPrice(s, c) - l >= c.minRoomR * StopDistance(s)
  }

  /** R of a winner: the partial's share at its level, the rest at the runner's average. */
  function WinR(c: Config): real { c.partialFraction * c.partialAtR + (1.0 - c.partialFraction) * c.runnerAvgR }

  lemma PositionRisk(qty: int, distance: real)
    requires qty >= 1 && distance > 0.0
    ensures Costs.Times(qty as real, distance) > 0.0
  {
  }

  /** The modeled charges of buying and selling `qty` shares at the worst price, over what the position risks. */
  function ChargesR(s: Signal, qty: int, c: Config): real
    requires qty >= 1
  {
    var value := Costs.Times(WorstPrice(s, c), qty as real);
    PositionRisk(qty, StopDistance(s));
    Costs.Charges([value], [value], c.costs) / Costs.Times(qty as real, StopDistance(s))
  }

  lemma WorstIs(s: Signal, c: Config)
    ensures WorstFill(s, c) == WorstPrice(s, c) && Risk(s) == StopDistance(s)
    ensures Abs(WorstFill(s, c) - s.stop) == if s.dir.Long? then WorstPrice(s, c) - s.stop else s.stop - WorstPrice(s, c)
  {
    assert c.bandFractionR * Risk(s) > 0.0;
  }

  lemma LeverageIs(lev: Option<real>, c: Config)
    ensures EffectiveLeverage(lev, c.maxLeverage, c.fallbackLeverage) == LeverageOf(lev, c) > 0.0
  {
  }

  /** The size is at least one share exactly when one share fits. */
  lemma SizeIff(s: Signal, capital: real, lev: Option<real>, c: Config)
    ensures SizeOf(s, capital, lev, c) >= 0
    ensures SizeOf(s, capital, lev, c) >= 1 <==> ShareFits(s, capital, lev, c)
  {
    WorstIs(s, c);
    WorstRisk(s, c);
    LeverageIs(lev, c);
    var worst, l := WorstFill(s, c), EffectiveLeverage(lev, c.maxLeverage, c.fallbackLeverage);
    hide EffectiveLeverage, LeverageOf, WorstFill, WorstPrice, Risk, Band;
    if worst > 0.0 {
      PositionQtyIsLargest(worst, s.stop, capital, c.maxRiskPct, l, 1);
      assert Costs.Times(1 as real, Abs(worst - s.stop)) == Abs(worst - s.stop) && Costs.Times(1 as real, worst) == worst;
    }
  }

  lemma AtLeastRatio(x: real, d: real, m: real)
    requires d > 0.0
    ensures x / d >= m <==> x >= m * d
  {
    var q := x / d;
    assert q * d == x;
    if q >= m {
      assert (q - m) * d >= 0.0;
    } else {
      assert (m - q) * d > 0.0;
    }
  }

  lemma RoomIs(s: Signal, c: Config, l: real)
    ensures RoomTo(s, c, l) >= c.minRoomR
       <==> if s.dir.Long? then l - WorstPrice(s, c) >= c.minRoomR * StopDistance(s)
            else WorstPrice(s, c) - l >= c.minRoomR * StopDistance(s)
  {
    WorstIs(s, c);
    var x, d := Sign(s.dir) * (l - WorstFill(s, c)), Risk(s);
    hide WorstFill, WorstPrice, Risk, StopDistance;
    assert RoomTo(s, c, l) == x / d;
    AtLeastRatio(x, d, c.minRoomR);
  }

  lemma RoomAheadIs(s: Signal, levels: seq<real>, c: Config)
    ensures (forall l :: l in levels && Opposes(s, l) ==> RoomTo(s, c, l) >= c.minRoomR) <==> RoomAhead(s, levels, c)
  {
    hide RoomTo, WorstPrice, StopDistance;
    forall l ensures RoomTo(s, c, l) >= c.minRoomR
                <==> if s.dir.Long? then l - WorstPrice(s, c) >= c.minRoomR * StopDistance(s)
                     else WorstPrice(s, c) - l >= c.minRoomR * StopDistance(s)
    {
      RoomIs(s, c, l);
    }
  }

  lemma CostIs(s: Signal, qty: int, c: Config)
    ensures var value := Costs.Times(WorstFill(s, c), qty as real); CostOf(s, qty, c) == Costs.Charges([value], [value], c.costs)
    ensures var unit := Costs.Times(qty as real, Risk(s));
            CostR(s, qty, c) == if unit == 0.0 then 0.0 else CostOf(s, qty, c) / unit
  {
    hide WorstFill, Risk, Costs.Charges;
  }

  lemma Undivided(x: real, d: real)
    requires d > 0.0
    ensures Costs.Times(x / d, d) == x
  {
  }

  lemma ChargesAre(s: Signal, qty: int, c: Config)
    requires qty >= 1
    ensures CostR(s, qty, c) == ChargesR(s, qty, c)
    ensures CostOf(s, qty, c) == Costs.Times(ChargesR(s, qty, c), Costs.Times(qty as real, StopDistance(s)))
  {
    WorstIs(s, c);
    CostIs(s, qty, c);
    PositionRisk(qty, StopDistance(s));
    var unit := Costs.Times(qty as real, StopDistance(s));
    hide WorstFill, WorstPrice, Risk, StopDistance, Costs.Charges, CostOf, CostR;
    Undivided(CostOf(s, qty, c), unit);
  }

  lemma EdgeIs(c: Config, cost: real)
    ensures ExpectedValue(c, cost) == c.winProb * (1.0 + WinR(c)) - (1.0 + cost)
  {
    var w := WinR(c);
    assert c.winProb * (1.0 + w) == c.winProb + c.winProb * w;
  }

  /** A signal is accepted if and only if the day's rules allow it, one share fits at the worst price, every level ahead leaves
      the least room from there, and what it wins at the assumed probability is more than what it loses and costs. */
  lemma AcceptedIff(s: Signal, date: int, capital: real, lev: Option<real>, levels: seq<real>, limits: Limits.RiskState, c: Config)
    ensures Validate(s, date, capital, lev, levels, limits, c).Accept?
       <==> && Limits.Allows(limits, date, s.symbol, s.strategy, c.maxTrades, c.lossLimit)
            && ShareFits(s, capital, lev, c)
            && RoomAhead(s, levels, c)
            && var qty := SizeOf(s, capital, lev, c);
               qty >= 1 && c.winProb * (1.0 + WinR(c)) > 1.0 + ChargesR(s, qty, c)
  {
    RoomIsForEveryLevel(s, c, levels);
    RoomAheadIs(s, levels, c);
    SizeIff(s, capital, lev, c);
    Limits.AllowedIff(limits, date, s.symbol, s.strategy, c.maxTrades, c.lossLimit);
    var qty := SizeOf(s, capital, lev, c);
    hide RoomTo, Room, ExpectedValue, CostOf, CostR, Risk, Limits.CheckLimits, Limits.Allows, WorstFill, EffectiveLeverage, WinR,
         MarginRequired, Target, ShareFits, RoomAhead, SizeOf, ChargesR, Opposes;
    if qty >= 1 {
      EdgeIs(c, CostR(s, qty, c));
      ChargesAre(s, qty, c);
    }
  }

  lemma SameWorst(s: Signal, c: Config, d: Config)
    requires d.bandFractionR == c.bandFractionR
    ensures WorstFill(s, d) == WorstFill(s, c) && WorstPrice(s, d) == WorstPrice(s, c)
  {
  }

  lemma SameSize(s: Signal, capital: real, lev: Option<real>, c: Config, d: Config)
    requires d == c.(winProb := d.winProb, costs := d.costs)
    ensures SizeOf(s, capital, lev, d) == SizeOf(s, capital, lev, c)
  {
    SameWorst(s, c, d);
    hide PositionQty, WorstFill;
  }

  lemma SameFit(s: Signal, capital: real, lev: Option<real>, c: Config, d: Config)
    requires d == c.(winProb := d.winProb, costs := d.costs)
    ensures ShareFits(s, capital, lev, d) == ShareFits(s, capital, lev, c)
  {
    SameWorst(s, c, d);
    hide WorstPrice;
  }

  lemma SameRoom(s: Signal, levels: seq<real>, c: Config, d: Config)
    requires d == c.(winProb := d.winProb, costs := d.costs)
    ensures RoomAhead(s, levels, d) == RoomAhead(s, levels, c) && WinR(d) == WinR(c)
  {
    SameWorst(s, c, d);
    hide WorstPrice, StopDistance;
    assert d.minRoomR == c.minRoomR;
  }

  /** What a decision rests on besides the probability and the charges. */
  lemma SameTests(s: Signal, capital: real, lev: Option<real>, levels: seq<real>, c: Config, d: Config)
    requires d == c.(winProb := d.winProb, costs := d.costs)
    ensures SizeOf(s, capital, lev, d) == SizeOf(s, capital, lev, c)
      && ShareFits(s, capital, lev, d) == ShareFits(s, capital, lev, c)
    ensures RoomAhead(s, levels, d) == RoomAhead(s, levels, c) && WinR(d) == WinR(c) && WorstPrice(s, d) == WorstPrice(s, c)
  {
    hide SizeOf, ShareFits, RoomAhead, WinR, WorstPrice;
    SameSize(s, capital, lev, c, d);
    SameFit(s, capital, lev, c, d);
    SameRoom(s, levels, c, d);
    SameWorst(s, c, d);
  }

  lemma SameCharges(s: Signal, qty: int, c: Config, d: Config)
    requires qty >= 1 && d.costs == c.costs && WorstPrice(s, d) == WorstPrice(s, c)
    ensures ChargesR(s, qty, d) == ChargesR(s, qty, c)
  {
    hide WorstPrice, StopDistance, Costs.Charges;
  }

  lemma NotNegative(x: real, y: real)
    requires x >= 0.0 && y >= 0.0
    ensures x * y >= 0.0
  {
  }

  lemma MoreLikely(p: real, q: real, win: real)
    requires p <= q && win > -1.0
    ensures p * (1.0 + win) <= q * (1.0 + win)
  {
    var x, y := q - p, 1.0 + win;
    NotNegative(x, y);
    assert q * y == p * y + x * y;
  }

  /** A better assumed probability never turns an acceptance into a rejection, while a win is worth more than losing one R. */
  lemma LikelierStaysAccepted(s: Signal, date: int, capital: real, lev: Option<real>, levels: seq<real>, limits: Limits.RiskState,
                              c: Config, better: Config)
    requires better == c.(winProb := better.winProb) && better.winProb >= c.winProb && WinR(c) > -1.0
    requires Validate(s, date, capital, lev, levels, limits, c).Accept?
    ensures Validate(s, date, capital, lev, levels, limits, better).Accept?
  {
    hide Validate, SizeOf, ShareFits, RoomAhead, ChargesR, WinR, WorstPrice, Limits.Allows;
    AcceptedIff(s, date, capital, lev, levels, limits, c);
    AcceptedIff(s, date, capital, lev, levels, limits, better);
    SameTests(s, capital, lev, levels, c, better);
    SameCharges(s, SizeOf(s, capital, lev, c), c, better);
    MoreLikely(c.winProb, better.winProb, WinR(c));
  }

  /** Dearer charges on the size never turn a rejection into an acceptance. */
  lemma DearerStaysRejected(s: Signal, date: int, capital: real, lev: Option<real>, levels: seq<real>, limits: Limits.RiskState,
                            c: Config, dearer: Config)
    requires dearer == c.(costs := dearer.costs)
    requires var qty := SizeOf(s, capital, lev, c); qty >= 1 ==> ChargesR(s, qty, dearer) >= ChargesR(s, qty, c)
    requires !Validate(s, date, capital, lev, levels, limits, c).Accept?
    ensures !Validate(s, date, capital, lev, levels, limits, dearer).Accept?
  {
    hide Validate, SizeOf, ShareFits, RoomAhead, ChargesR, WinR, WorstPrice, Limits.Allows;
    AcceptedIff(s, date, capital, lev, levels, limits, c);
    AcceptedIff(s, date, capital, lev, levels, limits, dearer);
    SameTests(s, capital, lev, levels, c, dearer);
  }

  lemma AcceptedFields(s: Signal, date: int, capital: real, lev: Option<real>, levels: seq<real>, limits: Limits.RiskState,
                       c: Config)
    requires Validate(s, date, capital, lev, levels, limits, c).Accept?
    ensures var p, l := Validate(s, date, capital, lev, levels, limits, c).plan,
                        EffectiveLeverage(lev, c.maxLeverage, c.fallbackLeverage);
            && p.signal == s && p.qty == SizeOf(s, capital, lev, c) && p.qty >= 1
            && l > 0.0 && p.leverageUsed == l && p.marginRequired == MarginRequired(p.qty, WorstFill(s, c), l)
            && (p.limitLow, p.limitHigh) == Band(s, c)
  {
    LeveragePositive(lev, c);
    hide Room, ExpectedValue, CostOf, CostR, Limits.CheckLimits, Target, Risk, MarginRequired, EffectiveLeverage;
  }

  lemma MarginFits(qty: int, entry: real, leverage: real, capital: real)
    requires leverage > 0.0 && Costs.Times(qty as real, entry) <= capital * leverage
    ensures MarginRequired(qty, entry, leverage) <= capital
  {
    var x := qty as real * entry;
    assert x / leverage <= capital * leverage / leverage;
  }

  /** An accepted plan buys as many shares as it can while a stop-out at the worst fill costs no more than the risk cap
      and the margin no more than the capital. */
  lemma AcceptedSize(s: Signal, date: int, capital: real, lev: Option<real>, levels: seq<real>, limits: Limits.RiskState,
                     c: Config, n: int)
    requires Validate(s, date, capital, lev, levels, limits, c).Accept? && n > 0
    ensures var p := Validate(s, date, capital, lev, levels, limits, c).plan;
            var worst := WorstFill(s, c);
            && p.qty >= 1 && p.signal == s && p.limitLow == Band(s, c).0 && p.limitHigh == Band(s, c).1
            && (n <= p.qty <==> Costs.Times(n as real, Abs(worst - s.stop)) <= capital * c.maxRiskPct
                                && Costs.Times(n as real, worst) <= capital * p.leverageUsed)
            && 0.0 < p.leverageUsed <= c.maxLeverage && p.marginRequired <= capital
  {
    hide Costs.Times, Validate, Risk, Band, WorstFill, EffectiveLeverage, MarginRequired;
    AcceptedFields(s, date, capital, lev, levels, limits, c);
    WorstRisk(s, c);
    LeveragePositive(lev, c);
    var p := Validate(s, date, capital, lev, levels, limits, c).plan;
    var worst := WorstFill(s, c);
    assert worst > 0.0;
    hide PositionQty;
    PositionQtyIsLargest(worst, s.stop, capital, c.maxRiskPct, p.leverageUsed, n);
    PositionQtyIsLargest(worst, s.stop, capital, c.maxRiskPct, p.leverageUsed, p.qty);
    MarginFits(p.qty, worst, p.leverageUsed, capital);
  }

  /** The nearest level ahead, in R from the worst price, or the stand-in when there is none. */
  ghost predicate IsRoom(s: Signal, levels: seq<real>, c: Config, room: real) {
    if forall l :: l in levels ==> !Opposes(s, l) then room == 99.0
    else && (exists l :: l in levels && Opposes(s, l) && room == RoomTo(s, c, l))
         && (forall l :: l in levels && Opposes(s, l) ==> room <= RoomTo(s, c, l))
  }

  lemma RoomIsNearest(s: Signal, levels: seq<real>, c: Config)
    ensures var room := Room(s, c, levels); IsRoom(s, levels, c, if room.Some? then room.value else NO_LEVEL_ROOM_R)
  {
    hide RoomTo, MinOf, MaxOf, Opposing;
    var ls := Opposing(s, levels);
    forall l ensures l in ls <==> l in levels && Opposes(s, l) {
      OpposingIn(s, levels, l);
    }
    if ls != [] {
      Extremes(ls);
      var nearest := if s.dir.Long? then MinOf(ls) else MaxOf(ls);
      assert nearest in ls;
      forall l | l in ls ensures RoomTo(s, c, nearest) <= RoomTo(s, c, l) {
        RoomOrder(s, c, nearest, l);
      }
    } else {
      assert forall l :: l in levels ==> l in ls || !Opposes(s, l);
    }
  }

  /** The fields of an accepted plan. */
  lemma PlanIs(s: Signal, date: int, capital: real, lev: Option<real>, levels: seq<real>, limits: Limits.RiskState, c: Config)
    requires Validate(s, date, capital, lev, levels, limits, c).Accept?
    ensures var p, room := Validate(s, date, capital, lev, levels, limits, c).plan, Room(s, c, levels);
            var l := EffectiveLeverage(lev, c.maxLeverage, c.fallbackLeverage);
            && l > 0.0 && p.qty == SizeOf(s, capital, lev, c)
            && p.leverageUsed == l && p.marginRequired == MarginRequired(p.qty, WorstFill(s, c), l)
            && p.riskRupees == Costs.Times(p.qty as real, Abs(WorstFill(s, c) - s.stop))
            && p.estCost == CostOf(s, p.qty, c) && p.expectedValueR == ExpectedValue(c, CostR(s, p.qty, c))
            && p.roomR == (if room.Some? then room.value else NO_LEVEL_ROOM_R)
            && (p.limitLow, p.limitHigh) == Band(s, c) && p.validUntil == s.ts + 2 * BAR
  {
    LeveragePositive(lev, c);
    hide Room, ExpectedValue, CostOf, CostR, Limits.CheckLimits, Target, Risk, MarginRequired, EffectiveLeverage, SizeOf,
            WorstFill, Band;
  }

  lemma BandIs(s: Signal, c: Config)
    ensures Band(s, c) == if s.dir.Long? then (s.entry, WorstFill(s, c)) else (WorstFill(s, c), s.entry)
  {
  }

  lemma MarginTimes(qty: int, entry: real, leverage: real)
    requires leverage > 0.0
    ensures Costs.Times(MarginRequired(qty, entry, leverage), leverage) == Costs.Times(qty as real, entry)
  {
    Undivided(Costs.Times(qty as real, entry), leverage);
  }

  /** The figures of an accepted plan: its expected value, its charges in rupees, the risk and the margin at the worst price,
      the room, the leverage, and the candle it may be filled in. */
  lemma AcceptedFigures(s: Signal, date: int, capital: real, lev: Option<real>, levels: seq<real>, limits: Limits.RiskState,
                        c: Config)
    requires Validate(s, date, capital, lev, levels, limits, c).Accept?
    ensures var p := Validate(s, date, capital, lev, levels, limits, c).plan;
            var worst := WorstPrice(s, c);
            && p.qty >= 1
            && p.expectedValueR == c.winProb * (1.0 + WinR(c)) - (1.0 + ChargesR(s, p.qty, c)) > 0.0
            && p.estCost == Costs.Times(ChargesR(s, p.qty, c), Costs.Times(p.qty as real, StopDistance(s)))
            && p.riskRupees == Costs.Times(p.qty as real, if s.dir.Long? then worst - s.stop else s.stop - worst)
            && p.leverageUsed == LeverageOf(lev, c)
            && Costs.Times(p.marginRequired, LeverageOf(lev, c)) == Costs.Times(p.qty as real, worst)
            && IsRoom(s, levels, c, p.roomR)
            && p.validUntil == s.ts + 2 * BAR
            && (p.limitLow, p.limitHigh) == (if s.dir.Long? then (s.entry, worst) else (worst, s.entry))
  {
    PlanIs(s, date, capital, lev, levels, limits, c);
    AcceptedIff(s, date, capital, lev, levels, limits, c);
    hide Validate, Room, ExpectedValue, CostOf, CostR, Risk, MarginRequired, EffectiveLeverage, LeverageOf, WinR, ShareFits,
         WorstFill, WorstPrice, StopDistance, ChargesR, IsRoom, SizeOf, Band, RoomAhead, Limits.Allows, Costs.Times, Target;
    var p := Validate(s, date, capital, lev, levels, limits, c).plan;
    RoomIsNearest(s, levels, c);
    WorstIs(s, c);
    LeverageIs(lev, c);
    ChargesAre(s, p.qty, c);
    EdgeIs(c, CostR(s, p.qty, c));
    BandIs(s, c);
    MarginTimes(p.qty, WorstFill(s, c), LeverageOf(lev, c));
  }

  /** The terms under which the engine manages an accepted plan. */
  function TermsOf(p: Plan, id: int): Terms {
    Terms(id, p.signal.symbol, p.signal.strategy, p.signal.dir, p.signal.entry, p.signal.stop, p.target2r, p.target3r, p.qty,
          p.signal.entry)
  }

  /** The targets the alert names are the prices at which the manager takes the partial and the runner. */
  lemma TargetsAreLevels(s: Signal, date: int, capital: real, lev: Option<real>, levels: seq<real>, limits: Limits.RiskState,
                         c: Config, id: int)
    requires Validate(s, date, capital, lev, levels, limits, c).Accept?
    ensures var p := Validate(s, date, capital, lev, levels, limits, c).plan;
            p.target2r == Level(TermsOf(p, id), c.partialAtR) && p.target3r == Level(TermsOf(p, id), c.runnerTargetR)
  {
    hide Room, ExpectedValue, CostOf, Limits.CheckLimits, SizeOf, EffectiveLeverage, WorstFill;
  }
}
