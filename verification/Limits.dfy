/** The daily risk state and its rules (tradalgo/risk/limits.py). */
module Limits {
  import opened Common

  const EPS: real := 0.000000001

  datatype Entry = Entry(symbol: string, strategy: string, closed: bool, netR: Option<real>)

  datatype RiskState = RiskState(date: int, tradesTaken: int, realizedR: real, openSymbols: seq<string>, taken: seq<Entry>)

  datatype Refusal = StaleState | LossLimit | TradeCap | SameSymbol | LosingStrategy

  function NewDay(date: int): RiskState { RiskState(date, 0, 0.0, [], []) }

  function SymbolsOf(es: seq<Entry>): seq<string> {
    if es == [] then [] else [es[0].symbol] + SymbolsOf(es[1..])
  }

  predicate LostWith(es: seq<Entry>, strategy: string) {
    exists i :: 0 <= i < |es| && es[i].closed && es[i].netR.Some? && es[i].netR.value <= -1.0 + EPS && es[i].strategy == strategy
  }

  /** None allows the signal; otherwise the first rule that refuses it. */
  function CheckLimits(s: RiskState, date: int, symbol: string, strategy: string, maxTrades: int, lossLimit: real)
    : Option<Refusal>
  {
    if date != s.date then Some(StaleState)
    else if s.realizedR <= -lossLimit + EPS then Some(LossLimit)
    else if s.tradesTaken >= maxTrades then Some(TradeCap)
    else if symbol in SymbolsOf(s.taken) || symbol in s.openSymbols then Some(SameSymbol)
    else if LostWith(s.taken, strategy) then Some(LosingStrategy)
    else None
  }

  /** The day's rules in so many words: the state is today's, the day has not lost its limit, a slot is left, no trade of the
      symbol was taken or is open, and no closed trade of the strategy lost a full R. */
  ghost predicate Allows(s: RiskState, date: int, symbol: string, strategy: string, maxTrades: int, lossLimit: real) {
    && s.date == date && s.realizedR > -lossLimit + 0.000000001 && s.tradesTaken < maxTrades
    && symbol !in s.openSymbols
    && (forall e :: e in s.taken ==> e.symbol != symbol)
    && (forall e :: e in s.taken ==> !(e.strategy == strategy && e.closed && e.netR.Some? && e.netR.value <= -0.999999999))
  }

  lemma {:induction false} SymbolsOfIn(es: seq<Entry>, symbol: string)
    ensures symbol in SymbolsOf(es) <==> exists i :: 0 <= i < |es| && es[i].symbol == symbol
  {
    if es != [] {
      SymbolsOfIn(es[1..], symbol);
      if symbol in SymbolsOf(es[1..]) {
        var i :| 0 <= i < |es[1..]| && es[1..][i].symbol == symbol;
        assert es[i + 1].symbol == symbol;
      }
      if i :| 0 <= i < |es| && es[i].symbol == symbol {
        if i > 0 {
          assert es[1..][i - 1].symbol == symbol;
        }
      }
    }
  }

  /** The check allows a signal exactly by those rules, and otherwise names the first that refuses it. */
  lemma AllowedIff(s: RiskState, date: int, symbol: string, strategy: string, maxTrades: int, lossLimit: real)
    ensures var r := CheckLimits(s, date, symbol, strategy, maxTrades, lossLimit);
            && (r.None? <==> Allows(s, date, symbol, strategy, maxTrades, lossLimit))
            && (r == Some(StaleState) <==> s.date != date)
            && (r == Some(LossLimit) <==> s.date == date && s.realizedR <= -lossLimit + 0.000000001)
            && (r == Some(TradeCap) <==> s.date == date && s.realizedR > -lossLimit + 0.000000001 && s.tradesTaken >= maxTrades)
            && (r == Some(LosingStrategy) ==> exists e :: e in s.taken && e.strategy == strategy && e.closed
                                                         && e.netR.Some? && e.netR.value <= -0.999999999)
  {
    SymbolsOfIn(s.taken, symbol);
    hide SymbolsOf;
  }

  function Registered(s: RiskState, symbol: string, strategy: string): RiskState {
    s.(tradesTaken := s.tradesTaken + 1, openSymbols := s.openSymbols + [symbol],
       taken := s.taken + [Entry(symbol, strategy, false, None)])
  }

  /** list.remove: the first occurrence goes, if there is one. */
  function RemoveFirst(ss: seq<string>, x: string): seq<string> {
    if ss == [] then [] else if ss[0] == x then ss[1..] else [ss[0]] + RemoveFirst(ss[1..], x)
  }

  predicate OpenFor(e: Entry, symbol: string) { e.symbol == symbol && !e.closed }

  /** The index of the first open entry of a symbol, or the length. */
  function FirstOpen(es: seq<Entry>, symbol: string): (i: nat)
    ensures i <= |es|
    ensures i < |es| ==> OpenFor(es[i], symbol)
    ensures forall j :: 0 <= j < i ==> !OpenFor(es[j], symbol)
  {
    if es == [] then 0 else if OpenFor(es[0], symbol) then 0 else 1 + FirstOpen(es[1..], symbol)
  }

  /** The index of the last open entry of a symbol, or -1. */
  function LastOpen(es: seq<Entry>, symbol: string): (i: int)
    ensures -1 <= i < |es|
    ensures i >= 0 ==> OpenFor(es[i], symbol)
    ensures forall j :: i < j < |es| ==> !OpenFor(es[j], symbol)
  {
    if es == [] then -1 else if OpenFor(es[|es| - 1], symbol) then |es| - 1 else LastOpen(es[..|es| - 1], symbol)
  }

  function Released(s: RiskState, symbol: string): RiskState {
    var i := LastOpen(s.taken, symbol);
    if i < 0 then s else
    s.(tradesTaken := if s.tradesTaken - 1 > 0 then s.tradesTaken - 1 else 0,
       openSymbols := RemoveFirst(s.openSymbols, symbol),
       taken := s.taken[..i] + s.taken[i + 1..])
  }

  function Exited(s: RiskState, symbol: string, netR: real): RiskState {
    var i := FirstOpen(s.taken, symbol);
    s.(realizedR := s.realizedR + netR, openSymbols := RemoveFirst(s.openSymbols, symbol),
       taken := if i < |s.taken| then s.taken[i := s.taken[i].(closed := true, netR := Some(netR))] else s.taken)
  }

  // ---------------------------------------------------------------- the loops

  lemma LastOpenIs(es: seq<Entry>, symbol: string, i: nat)
    requires i < |es| && OpenFor(es[i], symbol) && forall j :: i < j < |es| ==> !OpenFor(es[j], symbol)
    ensures LastOpen(es, symbol) == i
  {
  }

  lemma NoLastOpen(es: seq<Entry>, symbol: string)
    requires forall j :: 0 <= j < |es| ==> !OpenFor(es[j], symbol)
    ensures LastOpen(es, symbol) == -1
  {
  }

  /** Undo a still-open registration: the back scan deletes from a copy of the list. */
  method ReleaseEntry(s: RiskState, symbol: string) returns (r: RiskState)
    ensures r == Released(s, symbol)
  {
    var taken, openSyms := s.taken, s.openSymbols;
    var i, found := |taken| - 1, false;
    while i >= 0
      invariant -1 <= i < |taken| && taken == s.taken && !found
      invariant forall j :: i < j < |taken| ==> !OpenFor(taken[j], symbol)
    {
      if OpenFor(taken[i], symbol) {
        LastOpenIs(s.taken, symbol, i);
        taken := taken[..i] + taken[i + 1..];
        found := true;
        break;
      }
      i := i - 1;
    }
    if !found {
      NoLastOpen(s.taken, symbol);
      return s;
    }
    openSyms := RemoveFirst(openSyms, symbol);
    return s.(tradesTaken := if s.tradesTaken - 1 > 0 then s.tradesTaken - 1 else 0, openSymbols := openSyms, taken := taken);
  }

  lemma FirstOpenIs(es: seq<Entry>, symbol: string, i: nat)
    requires i <= |es| && (i < |es| ==> OpenFor(es[i], symbol)) && forall j :: 0 <= j < i ==> !OpenFor(es[j], symbol)
    ensures FirstOpen(es, symbol) == i
  {
  }

  method RegisterExit(s: RiskState, symbol: string, netR: real) returns (r: RiskState)
    ensures r == Exited(s, symbol, netR)
  {
    var taken := s.taken;
    var i := 0;
    while i < |taken| && !OpenFor(taken[i], symbol)
      invariant 0 <= i <= |taken|
      invariant forall j :: 0 <= j < i ==> !OpenFor(taken[j], symbol)
    {
      i := i + 1;
    }
    FirstOpenIs(s.taken, symbol, i);
    if i < |taken| {
      taken := taken[i := taken[i].(closed := true, netR := Some(netR))];
    }
    return s.(realizedR := s.realizedR + netR, openSymbols := RemoveFirst(s.openSymbols, symbol), taken := taken);
  }

  // ---------------------------------------------------------------- release against register

  lemma {:induction false} RemoveOnlyLast(ss: seq<string>, x: string)
    ensures RemoveFirst(ss + [x], x) == if x in ss then RemoveFirst(ss, x) + [x] else ss
    ensures x in ss ==> |RemoveFirst(ss, x)| == |ss| - 1
  {
    if ss != [] {
      assert (ss + [x])[1..] == ss[1..] + [x];
      assert ss == [ss[0]] + ss[1..];
      RemoveOnlyLast(ss[1..], x);
    } else {
      assert ss + [x] == [x];
    }
  }

  lemma {:induction false} RemoveBag(ss: seq<string>, x: string)
    ensures multiset(RemoveFirst(ss, x)) == multiset(ss) - multiset{x}
  {
    if ss != [] {
      assert ss == [ss[0]] + ss[1..];
      if ss[0] != x {
        RemoveBag(ss[1..], x);
      }
    }
  }

  /** Releasing a fresh registration restores the state exactly, for every state whose count is not negative, up to
      the order of the open symbols; and in order too exactly when moving the symbol's first occurrence to the end
      changes nothing. */
  lemma ReleaseUndoesRegister(s: RiskState, symbol: string, strategy: string)
    requires s.tradesTaken >= 0
    ensures var r := Released(Registered(s, symbol, strategy), symbol);
            && r == s.(openSymbols := r.openSymbols)
            && r.openSymbols == (if symbol in s.openSymbols then RemoveFirst(s.openSymbols, symbol) + [symbol] else s.openSymbols)
            && multiset(r.openSymbols) == multiset(s.openSymbols)
  {
    var g := Registered(s, symbol, strategy);
    LastOpenIs(g.taken, symbol, |s.taken|);
    RemoveOnlyLast(s.openSymbols, symbol);
    assert g.taken[..|s.taken|] + g.taken[|s.taken| + 1..] == s.taken;
    RemoveBag(s.openSymbols, symbol);
  }

  /** With pairwise distinct symbols the back scan of a release and the front scan of an exit find the same entry. */
  lemma ScansAgree(es: seq<Entry>, symbol: string)
    requires forall i, j :: 0 <= i < j < |es| ==> es[i].symbol != es[j].symbol
    ensures LastOpen(es, symbol) == if FirstOpen(es, symbol) < |es| then FirstOpen(es, symbol) else -1
  {
    var i := FirstOpen(es, symbol);
    if i < |es| {
      LastOpenIs(es, symbol, i);
    } else {
      NoLastOpen(es, symbol);
    }
  }
}
