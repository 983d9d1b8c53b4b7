/** The paired Wilcoxon signed-rank test: what the two p-values mean for the ranks the test itself makes. */
module Wilcoxon {
  import opened Ranking
  import opened RankTotals
  import opened SetSums
  import opened SignAssignments
  import opened ExactTest
  import opened NormalTest
  import opened SignVariance
  import opened Reals

  const EXACT_MAX_N := 25

  datatype Mode = Auto | Exact | Normal | Other(name: string)

  datatype Outcome = ValueError | Tested(w: real, n: nat, p: real)

  // ----- Facts about tie-averaged ranks

  lemma {:induction false} CountsBetween(s: seq<real>, v: real, u: real)
    requires v < u
    ensures Less(s, u) >= Less(s, v) + Equal(s, v)
  {
    if s != [] {
      CountsBetween(s[1..], v, u);
    }
  }

  /** Ranks keep the strict order of the values, and only equal values share a rank. */
  lemma {:induction false} RanksKeepOrder(s: seq<real>, i: nat, j: nat)
    requires i < |s| && j < |s|
    ensures s[i] < s[j] <==> RanksOf(s)[i] < RanksOf(s)[j]
    ensures s[i] == s[j] <==> RanksOf(s)[i] == RanksOf(s)[j]
  {
    EqualIsPositive(s, i);
    EqualIsPositive(s, j);
    if s[i] < s[j] {
      CountsBetween(s, s[i], s[j]);
    } else if s[j] < s[i] {
      CountsBetween(s, s[j], s[i]);
    }
  }

  lemma RanksAreHalfIntegers(s: seq<real>)
    ensures AllHalfIntegers(RanksOf(s)) && forall i | 0 <= i < |s| :: RanksOf(s)[i] >= 1.0
  {
    forall i | 0 <= i < |s| ensures HalfInteger(RanksOf(s)[i]) && RanksOf(s)[i] >= 1.0 {
      EqualIsPositive(s, i);
      var k := 2 * Less(s, s[i]) + Equal(s, s[i]) + 1;
      assert 2.0 * RanksOf(s)[i] == k as real;
      assert Round(k as real) == k;
    }
  }

  lemma {:induction false} SumOverSnoc(s: seq<real>, x: real, f: real -> real)
    ensures SumOver(s + [x], f) == SumOver(s, f) + f(x)
  {
    if s == [] {
      assert s + [x] == [x];
    } else {
      assert (s + [x])[1..] == s[1..] + [x];
      SumOverSnoc(s[1..], x, f);
    }
  }

  lemma {:induction false} TotalsMatch(ranks: seq<real>, s: seq<real>, f: real -> real, g: real -> real)
    requires |ranks| == |s| && forall i | 0 <= i < |s| :: ranks[i] == f(s[i]) && Square(ranks[i]) == g(s[i])
    ensures Total(ranks) == SumOver(s, f) && SumSquares(ranks) == SumOver(s, g)
  {
    if s != [] {
      var n := |s| - 1;
      TotalsMatch(ranks[..n], s[..n], f, g);
      assert s == s[..n] + [s[n]];
      SumOverSnoc(s[..n], s[n], f);
      SumOverSnoc(s[..n], s[n], g);
    }
  }

  lemma {:induction false} EqualMatch(a: seq<real>, b: seq<real>, v: real, u: real)
    requires |a| == |b| && forall i | 0 <= i < |a| :: a[i] == v <==> b[i] == u
    ensures Equal(a, v) == Equal(b, u)
  {
    if a != [] {
      EqualMatch(a[1..], b[1..], v, u);
    }
  }

  lemma {:induction false} SumOverMatch(a: seq<real>, b: seq<real>, f: real -> real, g: real -> real)
    requires |a| == |b| && forall i | 0 <= i < |a| :: f(a[i]) == g(b[i])
    ensures SumOver(a, f) == SumOver(b, g)
  {
    if a != [] {
      SumOverMatch(a[1..], b[1..], f, g);
    }
  }

  lemma TiesMatch(s: seq<real>)
    ensures SumOver(RanksOf(s), TieAt(RanksOf(s))) == SumOver(s, TieAt(s))
  {
    var ranks := RanksOf(s);
    forall i | 0 <= i < |s| ensures TieAt(ranks)(ranks[i]) == TieAt(s)(s[i]) {
      forall j | 0 <= j < |s| ensures ranks[j] == ranks[i] <==> s[j] == s[i] {
        RanksKeepOrder(s, i, j);
      }
      EqualMatch(ranks, s, ranks[i], s[i]);
    }
    SumOverMatch(ranks, s, TieAt(ranks), TieAt(s));
  }

  lemma RankTotalsOf(s: seq<real>)
    ensures Total(RanksOf(s)) == Triangle(|s|)
    ensures SumSquares(RanksOf(s)) == Pyramid(|s|) - SumOver(RanksOf(s), TieAt(RanksOf(s))) / 12.0
  {
    RankSums(s);
    TiesMatch(s);
    TotalsMatch(RanksOf(s), s, RankAt(s), SquaredRankAt(s));
  }

  lemma {:induction false} ClosedForms(n: nat, x: real)
    requires x == n as real
    ensures Triangle(n) == x * (x + 1.0) / 2.0
    ensures Pyramid(n) == x * (x + 1.0) * (2.0 * x + 1.0) / 6.0
  {
    if n > 0 {
      ClosedForms(n - 1, x - 1.0);
    }
  }

  lemma VarianceArithmetic(n: real, pyramid: real, tie: real)
    requires pyramid == n * (n + 1.0) * (2.0 * n + 1.0) / 6.0
    ensures (n * (n + 1.0) * (2.0 * n + 1.0) - tie / 2.0) / 24.0 == (pyramid - tie / 12.0) / 4.0
  {
  }

  lemma {:induction false} TieVarianceIsQuarterSquares(s: seq<real>)
    ensures TieVariance(RanksOf(s)) == SumSquares(RanksOf(s)) / 4.0
  {
    RankTotalsOf(s);
    ClosedForms(|s|, |s| as real);
    VarianceArithmetic(|s| as real, Pyramid(|s|), SumOver(RanksOf(s), TieAt(RanksOf(s))));
  }

  /** For the ranks of any values at all, ties included, the docstring's variance is exactly the variance of
      W+ over the 2^n sign assignments, and it is positive unless n is 0. */
  lemma {:induction false} TieVarianceIsExact(s: seq<real>)
    ensures TieVariance(RanksOf(s)) == Expected(RanksOf(s), SquaredFrom(Total(RanksOf(s)) / 2.0)) / Pow2(|s|) as real
    ensures s != [] ==> TieVariance(RanksOf(s)) > 0.0
  {
    var ranks := RanksOf(s);
    TieVarianceIsQuarterSquares(s);
    VarianceOfWPlus(ranks);
    RanksAreHalfIntegers(s);
    SquaresAreLarge(ranks);
  }

  lemma {:induction false} SquaresAreLarge(ranks: seq<real>)
    requires forall i | 0 <= i < |ranks| :: ranks[i] >= 1.0
    ensures SumSquares(ranks) >= |ranks| as real
  {
    if ranks != [] {
      var n := |ranks| - 1;
      SquaresAreLarge(ranks[..n]);
      assert Square(ranks[n]) >= 1.0;
    }
  }

  /** The ranks of n values always add up to n(n+1)/2. */
  lemma RanksAddUp(s: seq<real>)
    ensures Total(RanksOf(s)) == |s| as real * (|s| as real + 1.0) / 2.0
  {
    RankTotalsOf(s);
    ClosedForms(|s|, |s| as real);
  }

  // ----- The test

  function Differences(x: seq<real>, y: seq<real>): seq<real>
    requires |x| == |y|
  {
    if x == [] then [] else
    (if x[0] != y[0] then [x[0] - y[0]] else []) + Differences(x[1..], y[1..])
  }

  function Magnitudes(d: seq<real>): seq<real> {
    seq(|d|, i requires 0 <= i < |d| => Abs(d[i]))
  }

  function Signs(d: seq<real>): seq<bool> {
    seq(|d|, i requires 0 <= i < |d| => d[i] > 0.0)
  }

  predicate UsesExact(mode: Mode, n: nat) {
    mode == Exact || (mode == Auto && n <= EXACT_MAX_N)
  }

  function Statistic(d: seq<real>, ranks: seq<real>): real
    requires |d| == |ranks|
  {
    Min(WPlus(ranks, Signs(d)), WMinus(ranks, Signs(d)))
  }

  /** The exact p-value is the share of the 2^n sign assignments at least as extreme as the data; the normal one
      uses the exact variance of W+ (see TieVarianceIsExact). */
  ghost function PValue(ranks: seq<real>, w: real, exact: bool, sqrt: real -> real, erfc: real -> real): real
    requires PositiveRoot(sqrt)
  {
    if exact then |AsExtreme(ranks, w)| as real / Pow2(|ranks|) as real
    else NormalTail(w, Total(ranks) / 2.0, SumSquares(ranks) / 4.0, sqrt, erfc)
  }

  /** What the test returns, said without the table, the dictionary or the nested loops. */
  ghost function Test(x: seq<real>, y: seq<real>, mode: Mode, sqrt: real -> real, erfc: real -> real): Outcome
    requires PositiveRoot(sqrt)
  {
    if |x| != |y| || mode.Other? then ValueError else
    var d := Differences(x, y);
    if d == [] then Tested(0.0, 0, 1.0) else
    var ranks := RanksOf(Magnitudes(d));
    var w := Statistic(d, ranks);
    Tested(w, |d|, PValue(ranks, w, UsesExact(mode, |d|), sqrt, erfc))
  }

  lemma {:induction false} WPlusHalfInteger(ranks: seq<real>, a: seq<bool>)
    requires |ranks| == |a| && AllHalfIntegers(ranks)
    ensures HalfInteger(WPlus(ranks, a)) && HalfInteger(WMinus(ranks, a))
  {
    if a == [] {
      assert Round(0.0) == 0;
    } else {
      var n := |a| - 1;
      forall i | 0 <= i < n ensures HalfInteger(ranks[..n][i]) {
        assert HalfInteger(ranks[i]);
      }
      WPlusHalfInteger(ranks[..n], a[..n]);
      HalfIntegersAdd(WPlus(ranks[..n], a[..n]), ranks[n]);
      HalfIntegersAdd(WMinus(ranks[..n], a[..n]), ranks[n]);
    }
  }

  lemma HalfIntegersAdd(x: real, y: real)
    requires HalfInteger(x) && HalfInteger(y)
    ensures HalfInteger(x + y)
  {
    var k := Round(2.0 * x) + Round(2.0 * y);
    assert 2.0 * (x + y) == k as real;
    assert Round(k as real) == k;
  }

  /** Capping twice the lower tail at 1 gives exactly the share of assignments as extreme as the data. */
  lemma CappedTailIsExtremeShare(ranks: seq<real>, a: seq<bool>, w: real)
    requires |ranks| == |a| && w == Min(WPlus(ranks, a), WMinus(ranks, a))
    ensures Min(1.0, 2.0 * (|AtMost(ranks, w)| as real / Pow2(|ranks|) as real))
            == |AsExtreme(ranks, w)| as real / Pow2(|ranks|) as real
  {
    PlusAndMinusMakeTotal(ranks, a);
    TwoTails(ranks, w);
    ShareCap(|AtMost(ranks, w)| as real, |AsExtreme(ranks, w)| as real, Pow2(|ranks|) as real);
  }

  lemma ShareCap(tail: real, extreme: real, all: real)
    requires all > 0.0
    requires (extreme == 2.0 * tail <= all) || (extreme == all <= 2.0 * tail)
    ensures Min(1.0, 2.0 * (tail / all)) == extreme / all
  {
    assert all / all == 1.0;
    assert 2.0 * (tail / all) == (2.0 * tail) / all;
    if extreme == 2.0 * tail {
      assert extreme / all <= 1.0;
    } else {
      assert 2.0 * tail / all >= 1.0;
    }
  }

  /** The p-value of the ranks of any nonempty magnitudes, under any signs. */
  method RankedP(values: seq<real>, ranks: seq<real>, ghost a: seq<bool>, w: real, exact: bool,
                 sqrt: real -> real, erfc: real -> real)
    returns (p: real)
    requires PositiveRoot(sqrt) && ranks == RanksOf(values)
    requires |a| == |ranks| && w == Min(WPlus(ranks, a), WMinus(ranks, a))
    ensures p == PValue(ranks, w, exact, sqrt, erfc)
  {
    RanksAreHalfIntegers(values);
    WPlusHalfInteger(ranks, a);
    if exact {
      p := ExactTwoSidedP(ranks, w);
      CappedTailIsExtremeShare(ranks, a, w);
    } else {
      p := NormalTwoSidedP(ranks, w, sqrt, erfc);
      TieVarianceIsQuarterSquares(values);
    }
  }

  method WilcoxonSignedRank(x: seq<real>, y: seq<real>, mode: Mode, sqrt: real -> real, erfc: real -> real)
    returns (outcome: Outcome)
    requires PositiveRoot(sqrt)
    ensures outcome == Test(x, y, mode, sqrt, erfc)
  {
    if |x| != |y| {
      return ValueError;
    }
    if mode.Other? {
      return ValueError;
    }
    var nonzero := Differences(x, y);
    var n := |nonzero|;
    if n == 0 {
      return Tested(0.0, 0, 1.0);
    }
    var ranks := AverageRanks(Magnitudes(nonzero));
    var wPlus := WPlus(ranks, Signs(nonzero));
    var wMinus := WMinus(ranks, Signs(nonzero));
    var w := Min(wPlus, wMinus);
    var exact := if mode == Auto then n <= EXACT_MAX_N else mode == Exact;
    var p := RankedP(Magnitudes(nonzero), ranks, Signs(nonzero), w, exact, sqrt, erfc);
    outcome := Tested(w, n, p);
  }

  // ----- What follows for callers

  lemma {:induction false} SwappedDifferences(x: seq<real>, y: seq<real>)
    requires |x| == |y|
    ensures |Differences(x, y)| == |Differences(y, x)|
    ensures forall i | 0 <= i < |Differences(x, y)| ::
              Differences(x, y)[i] == -Differences(y, x)[i] && Differences(x, y)[i] != 0.0
  {
    if x != [] {
      SwappedDifferences(x[1..], y[1..]);
    }
  }

  lemma SwappedStatistic(d: seq<real>, e: seq<real>)
    requires |d| == |e| && forall i | 0 <= i < |d| :: d[i] == -e[i] && d[i] != 0.0
    ensures Magnitudes(d) == Magnitudes(e)
    ensures Statistic(d, RanksOf(Magnitudes(d))) == Statistic(e, RanksOf(Magnitudes(e)))
  {
    assert Magnitudes(d) == Magnitudes(e);
    assert Signs(e) == Flip(Signs(d));
    FlipExchanges(RanksOf(Magnitudes(d)), Signs(d));
  }

  /** The test is symmetric: exchanging the samples changes nothing it returns. */
  lemma SwapInvariant(x: seq<real>, y: seq<real>, mode: Mode, sqrt: real -> real, erfc: real -> real)
    requires PositiveRoot(sqrt)
    ensures Test(x, y, mode, sqrt, erfc) == Test(y, x, mode, sqrt, erfc)
  {
    if |x| == |y| {
      SwappedDifferences(x, y);
      SwappedStatistic(Differences(x, y), Differences(y, x));
    }
  }

  /** An exact p-value is a probability that always counts the data themselves: never below 1/2^n, never above 1. */
  lemma ExactPIsProper(ranks: seq<real>, a: seq<bool>, w: real)
    requires |ranks| == |a| && w == Min(WPlus(ranks, a), WMinus(ranks, a))
    ensures 1 <= |AsExtreme(ranks, w)| <= Pow2(|ranks|)
  {
    AssignmentsNumber(|ranks|);
    AssignmentsCover(|ranks|, a);
    SubsetSize(AsExtreme(ranks, w), Assignments(|ranks|));
    assert {a} <= AsExtreme(ranks, w);
    SubsetSize({a}, AsExtreme(ranks, w));
  }
}
