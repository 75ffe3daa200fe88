/** The parameter grid of a sweep (tradalgo/backtest/sweep.py:89-132): its leaves, its product, and one combination by index. */
module Grids {

  // ---------------------------------------------------------------- one combination by index

  function Mul(a: nat, b: nat): nat { a * b }

  function Quot(i: nat, n: nat): nat
    requires n > 0
  {
    i / n
  }

  function Rem(i: nat, n: nat): nat
    requires n > 0
  {
    i % n
  }

  lemma DivFacts(i: nat, n: nat)
    requires n > 0
    ensures Mul(Quot(i, n), n) + Rem(i, n) == i && Rem(i, n) < n
  {
  }

  lemma MulFacts(a: nat, b: nat, n: nat)
    ensures a <= b ==> Mul(a, n) <= Mul(b, n)
    ensures a < b ==> Mul(a, n) + n <= Mul(b, n)
    ensures Mul(a + 1, n) == Mul(a, n) + n && Mul(0, n) == 0
  {
    if a < b {
      assert (a + 1) * n <= b * n;
    }
  }

  lemma DivUnique(q: nat, r: nat, n: nat)
    requires r < n
    ensures Quot(Mul(q, n) + r, n) == q && Rem(Mul(q, n) + r, n) == r
  {
    hide Mul, Quot, Rem;
    var i := Mul(q, n) + r;
    DivFacts(i, n);
    MulFacts(q, Quot(i, n), n);
    MulFacts(Quot(i, n), q, n);
  }

  function Total(sizes: seq<nat>): nat {
    if sizes == [] then 1 else Mul(Total(sizes[..|sizes| - 1]), sizes[|sizes| - 1])
  }

  ghost predicate NonEmpty(sizes: seq<nat>) {
    forall k :: 0 <= k < |sizes| ==> sizes[k] > 0
  }

  ghost predicate InRange(t: seq<nat>, sizes: seq<nat>) {
    |t| == |sizes| && forall k :: 0 <= k < |t| ==> t[k] < sizes[k]
  }

  /** Mixed-radix digits, the last size turning fastest. */
  function Digits(i: nat, sizes: seq<nat>): (t: seq<nat>)
    requires NonEmpty(sizes)
    ensures |t| == |sizes|
    decreases |sizes|
  {
    if sizes == [] then [] else
    var n := sizes[|sizes| - 1];
    Digits(Quot(i, n), sizes[..|sizes| - 1]) + [Rem(i, n)]
  }

  /** Reversed, as the loop collects it. */
  function Reversed(s: seq<nat>): seq<nat> {
    if s == [] then [] else Reversed(s[1..]) + [s[0]]
  }

  lemma {:induction false} ReversedAppend(s: seq<nat>, x: nat)
    ensures Reversed(s + [x]) == [x] + Reversed(s)
  {
    if s == [] {
      assert s + [x] == [x] && [x][1..] == [];
    } else {
      assert (s + [x])[1..] == s[1..] + [x];
      ReversedAppend(s[1..], x);
    }
  }

  method Unrank(i: nat, sizes: seq<nat>) returns (t: seq<nat>)
    requires NonEmpty(sizes)
    ensures t == Digits(i, sizes)
  {
    hide Quot, Rem;
    var out: seq<nat>, left, k := [], i, |sizes|;
    assert sizes[..k] == sizes && Digits(i, sizes) + [] == Digits(i, sizes);
    while k > 0
      invariant 0 <= k <= |sizes|
      invariant Digits(i, sizes) == Digits(left, sizes[..k]) + Reversed(out)
    {
      var n := sizes[k - 1];
      assert sizes[..k][..k - 1] == sizes[..k - 1];
      var q, r := Quot(left, n), Rem(left, n);
      ReversedAppend(out, r);
      assert Digits(left, sizes[..k]) == Digits(q, sizes[..k - 1]) + [r];
      assert Digits(q, sizes[..k - 1]) + [r] + Reversed(out) == Digits(q, sizes[..k - 1]) + ([r] + Reversed(out));
      out := out + [r];
      left := q;
      k := k - 1;
    }
    t := Reversed(out);
  }

  /** The index of a tuple. */
  function Rank(t: seq<nat>, sizes: seq<nat>): nat
    requires |t| == |sizes|
  {
    if sizes == [] then 0 else
    Mul(Rank(t[..|t| - 1], sizes[..|sizes| - 1]), sizes[|sizes| - 1]) + t[|t| - 1]
  }

  lemma DivRange(i: nat, n: nat, m: nat)
    requires n > 0 && i < Mul(m, n)
    ensures Quot(i, n) < m
  {
    hide Mul, Quot;
    DivFacts(i, n);
    MulFacts(m, Quot(i, n), n);
  }

  lemma MulRange(q: nat, r: nat, n: nat, m: nat)
    requires q < m && r < n
    ensures Mul(q, n) + r < Mul(m, n)
  {
    hide Mul;
    MulFacts(q, m, n);
  }

  lemma RankSnoc(t: seq<nat>, sizes: seq<nat>)
    requires |t| == |sizes| && sizes != []
    ensures Rank(t, sizes) == Mul(Rank(t[..|t| - 1], sizes[..|sizes| - 1]), sizes[|sizes| - 1]) + t[|t| - 1]
  {
    hide Mul;
  }

  lemma InRangeSnoc(t: seq<nat>, sizes: seq<nat>)
    requires |t| == |sizes| && sizes != []
    requires InRange(t[..|t| - 1], sizes[..|sizes| - 1]) && t[|t| - 1] < sizes[|sizes| - 1]
    ensures InRange(t, sizes)
  {
    assert forall k :: 0 <= k < |t| - 1 ==> t[k] == t[..|t| - 1][k] && sizes[k] == sizes[..|sizes| - 1][k];
  }

  lemma {:induction false} DigitsInRange(i: nat, sizes: seq<nat>)
    requires NonEmpty(sizes) && i < Total(sizes)
    ensures InRange(Digits(i, sizes), sizes) && Rank(Digits(i, sizes), sizes) == i
    decreases |sizes|
  {
    if sizes != [] {
      var front, n := sizes[..|sizes| - 1], sizes[|sizes| - 1];
      hide Mul, Quot, Rem;
      DivRange(i, n, Total(front));
      DivFacts(i, n);
      DigitsInRange(Quot(i, n), front);
      var t := Digits(i, sizes);
      assert t[..|t| - 1] == Digits(Quot(i, n), front) && t[|t| - 1] == Rem(i, n);
      hide Digits, InRange, Rank, Total, NonEmpty;
      InRangeSnoc(t, sizes);
      RankSnoc(t, sizes);
    }
  }
  lemma {:induction false} DigitsOfRank(t: seq<nat>, sizes: seq<nat>)
    requires NonEmpty(sizes) && InRange(t, sizes)
    ensures Rank(t, sizes) < Total(sizes) && Digits(Rank(t, sizes), sizes) == t
    decreases |sizes|
  {
    if sizes != [] {
      var front, n, x := sizes[..|sizes| - 1], sizes[|sizes| - 1], t[|t| - 1];
      hide Mul, Quot, Rem;
      DigitsOfRank(t[..|t| - 1], front);
      MulRange(Rank(t[..|t| - 1], front), x, n, Total(front));
      DivUnique(Rank(t[..|t| - 1], front), x, n);
      assert t == t[..|t| - 1] + [x];
    } else {
      assert t == [];
    }
  }

  /** Unranking is a bijection from the indices below the product to the in-range tuples. */
  lemma UnrankIsBijection(sizes: seq<nat>, i: nat, j: nat, t: seq<nat>)
    requires NonEmpty(sizes)
    ensures i < Total(sizes) ==> InRange(Digits(i, sizes), sizes)
    ensures i < Total(sizes) && j < Total(sizes) && Digits(i, sizes) == Digits(j, sizes) ==> i == j
    ensures InRange(t, sizes) ==> Rank(t, sizes) < Total(sizes) && Digits(Rank(t, sizes), sizes) == t
  {
    if i < Total(sizes) { DigitsInRange(i, sizes); }
    if j < Total(sizes) { DigitsInRange(j, sizes); }
    if InRange(t, sizes) { DigitsOfRank(t, sizes); }
  }

  // ---------------------------------------------------------------- the whole product

  /** Each prefix followed by every value of the next range. */
  function Extended(ts: seq<seq<nat>>, n: nat): seq<seq<nat>> {
    if ts == [] then [] else Extended(ts[..|ts| - 1], n) + seq(n, y requires 0 <= y < n => ts[|ts| - 1] + [y])
  }

  /** The cartesian product of the ranges, built one range at a time. */
  function Product(sizes: seq<nat>): seq<seq<nat>> {
    if sizes == [] then [[]] else Extended(Product(sizes[..|sizes| - 1]), sizes[|sizes| - 1])
  }

  lemma {:induction false} ExtendedSize(ts: seq<seq<nat>>, n: nat)
    ensures |Extended(ts, n)| == Mul(|ts|, n)
  {
    hide Mul;
    if ts != [] {
      ExtendedSize(ts[..|ts| - 1], n);
      MulFacts(|ts| - 1, |ts|, n);
    } else {
      MulFacts(0, 0, n);
    }
  }

  lemma {:induction false} ExtendedAt(ts: seq<seq<nat>>, n: nat, q: nat, r: nat)
    requires q < |ts| && r < n
    ensures |Extended(ts, n)| == Mul(|ts|, n) && Mul(q, n) + r < Mul(|ts|, n)
    ensures Extended(ts, n)[Mul(q, n) + r] == ts[q] + [r]
  {
    hide Mul;
    var m := |ts| - 1;
    ExtendedSize(ts, n);
    ExtendedSize(ts[..m], n);
    MulRange(q, r, n, |ts|);
    if q < m {
      MulRange(q, r, n, m);
      ExtendedAt(ts[..m], n, q, r);
    }
  }

  /** Unranking an index gives the tuple the whole product has there. */
  lemma {:induction false} UnrankIsProduct(i: nat, sizes: seq<nat>)
    requires NonEmpty(sizes) && i < Total(sizes)
    ensures |Product(sizes)| == Total(sizes) && Product(sizes)[i] == Digits(i, sizes)
    decreases |sizes|
  {
    if sizes != [] {
      var front, n := sizes[..|sizes| - 1], sizes[|sizes| - 1];
      hide Mul, Quot, Rem;
      DivRange(i, n, Total(front));
      DivFacts(i, n);
      UnrankIsProduct(Quot(i, n), front);
      ExtendedAt(Product(front), n, Quot(i, n), Rem(i, n));
    }
  }

  // ---------------------------------------------------------------- order

  predicate LexLess(a: seq<nat>, b: seq<nat>) {
    a != [] && b != [] && (a[0] < b[0] || (a[0] == b[0] && LexLess(a[1..], b[1..])))
  }

  lemma {:induction false} LexExtend(a: seq<nat>, b: seq<nat>, x: nat, y: nat)
    requires |a| == |b|
    ensures LexLess(a, b) ==> LexLess(a + [x], b + [y])
    ensures a == b && x < y ==> LexLess(a + [x], b + [y])
  {
    if a != [] {
      assert (a + [x])[1..] == a[1..] + [x] && (b + [y])[1..] == b[1..] + [y];
      LexExtend(a[1..], b[1..], x, y);
    }
  }

  lemma DivOrder(i: nat, j: nat, n: nat)
    requires i < j && n > 0
    ensures Quot(i, n) < Quot(j, n) || (Quot(i, n) == Quot(j, n) && Rem(i, n) < Rem(j, n))
  {
    hide Mul, Quot, Rem;
    DivFacts(i, n);
    DivFacts(j, n);
    MulFacts(Quot(j, n), Quot(i, n), n);
  }

  /** Larger indices give lexicographically larger tuples. */
  lemma {:induction false} UnrankIsOrdered(i: nat, j: nat, sizes: seq<nat>)
    requires NonEmpty(sizes) && i < j < Total(sizes)
    ensures LexLess(Digits(i, sizes), Digits(j, sizes))
    decreases |sizes|
  {
    if sizes != [] {
      var front, n := sizes[..|sizes| - 1], sizes[|sizes| - 1];
      hide Mul, Quot, Rem;
      DivRange(i, n, Total(front));
      DivRange(j, n, Total(front));
      DivOrder(i, j, n);
      if Quot(i, n) < Quot(j, n) {
        UnrankIsOrdered(Quot(i, n), Quot(j, n), front);
      }
      LexExtend(Digits(Quot(i, n), front), Digits(Quot(j, n), front), Rem(i, n), Rem(j, n));
    }
  }

  // ---------------------------------------------------------------- the picks to run

  ghost predicate Increasing(s: seq<nat>) {
    forall i, j :: 0 <= i < j < |s| ==> s[i] < s[j]
  }

  lemma {:induction false} TotalPositive(sizes: seq<nat>)
    requires NonEmpty(sizes)
    ensures Total(sizes) > 0
  {
    if sizes != [] {
      TotalPositive(sizes[..|sizes| - 1]);
      MulFacts(0, Total(sizes[..|sizes| - 1]), sizes[|sizes| - 1]);
    }
  }

  /** Every combination while they fit, else the sorted sample. */
  method Picks(sizes: seq<nat>, maxCombinations: nat, chosen: seq<nat>) returns (picks: seq<seq<nat>>)
    requires NonEmpty(sizes)
    requires Total(sizes) > maxCombinations ==>
               |chosen| == maxCombinations && Increasing(chosen) && forall k :: 0 <= k < |chosen| ==> chosen[k] < Total(sizes)
    ensures |picks| == if Total(sizes) <= maxCombinations then Total(sizes) else maxCombinations
    ensures forall k :: 0 <= k < |picks| ==> InRange(picks[k], sizes)
    ensures forall i, j :: 0 <= i < j < |picks| ==> LexLess(picks[i], picks[j])
    ensures Total(sizes) <= maxCombinations ==> forall t :: InRange(t, sizes) ==> t in picks
  {
    if Total(sizes) <= maxCombinations {
      picks := Product(sizes);
      TotalPositive(sizes);
      UnrankIsProduct(0, sizes);
      forall k | 0 <= k < Total(sizes) ensures |picks| == Total(sizes) && picks[k] == Digits(k, sizes) && InRange(picks[k], sizes) {
        UnrankIsProduct(k, sizes);
        DigitsInRange(k, sizes);
      }
      forall i, j | 0 <= i < j < |picks| ensures LexLess(picks[i], picks[j]) {
        UnrankIsOrdered(i, j, sizes);
      }
      forall t | InRange(t, sizes) ensures t in picks {
        DigitsOfRank(t, sizes);
        assert picks[Rank(t, sizes)] == t;
      }
    } else {
      picks := [];
      var k := 0;
      while k < |chosen|
        invariant 0 <= k <= |chosen| && |picks| == k
        invariant forall i :: 0 <= i < k ==> picks[i] == Digits(chosen[i], sizes)
      {
        var t := Unrank(chosen[k], sizes);
        picks := picks + [t];
        k := k + 1;
      }
      forall i | 0 <= i < |picks| ensures InRange(picks[i], sizes) {
        DigitsInRange(chosen[i], sizes);
      }
      forall i, j | 0 <= i < j < |picks| ensures LexLess(picks[i], picks[j]) {
        UnrankIsOrdered(chosen[i], chosen[j], sizes);
      }
    }
  }
}
