/** How many values lie below a percentile, and how many at most at it. */
module Quantiles {
  import opened SetSums
  import opened Reals
  import opened Counting
  import opened Ranking
  import opened Percentile

  /** In ascending values, those below something are among the first. */
  lemma {:induction false} BelowAreFirst(s: seq<real>, m: nat, v: real)
    requires IsAscending(s) && m <= |s| && (m < |s| ==> v <= s[m])
    ensures Less(s, v) <= m
  {
    CountsArePositions(s, v);
    assert forall i | m <= i < |s| :: s[m] <= s[i];
    forall i | i in PositionsBelow(s, v) ensures i in Positions(m) {
    }
    SubsetSize(PositionsBelow(s, v), Positions(m));
  }

  lemma {:induction false} FirstAreAtMost(s: seq<real>, m: nat, v: real)
    requires IsAscending(s) && m < |s| && s[m] <= v
    ensures Less(s, v) + Equal(s, v) >= m + 1
  {
    CountsArePositions(s, v);
    forall i | i in Positions(m + 1) ensures i in PositionsBelow(s, v) + PositionsOf(s, v) {
      assert s[i] <= s[m];
    }
    SubsetSize(Positions(m + 1), PositionsBelow(s, v) + PositionsOf(s, v));
    assert PositionsBelow(s, v) !! PositionsOf(s, v);
  }

  lemma {:induction false} CurveCounts(s: seq<real>, k: real)
    requires IsAscending(s) && 0.0 <= k <= (|s| - 1) as real
    ensures Less(s, Curve(s, k)) as real < k + 1.0
    ensures (Less(s, Curve(s, k)) + Equal(s, Curve(s, k))) as real > k
  {
    var f := Floor(k);
    CurveInCell(s, k);
    FirstAreAtMost(s, f, Curve(s, k));
    if k == f as real {
      BelowAreFirst(s, f, Curve(s, k));
    } else {
      BelowAreFirst(s, f + 1, Curve(s, k));
    }
  }

  /** Of n values fewer than p% of n-1, and one, are below the percentile, and more than p% of n-1 are at most at it. */
  lemma {:induction false} PercentileCounts(values: seq<real>, p: real)
    requires values != [] && 0.0 <= p <= 100.0
    ensures SummaryPercentile(values, p).Value?
    ensures var v, k := SummaryPercentile(values, p).x, Product((|values| - 1) as real, p / 100.0);
            Less(values, v) as real < k + 1.0 && (Less(values, v) + Equal(values, v)) as real > k
  {
    SummaryIsCurve(values, p);
    SortedIsAscending(values);
    CurveCounts(Sorted(values), Position(|values|, p));
    CountsPermute(Sorted(values), values, SummaryPercentile(values, p).x);
  }

  lemma {:induction false} Percent(share: real)
    ensures share * 100.0 / 100.0 == share
  {
  }

  /** The same for the implementation that takes a share. */
  lemma {:induction false} StatsCounts(values: seq<real>, share: real, p: real)
    requires values != [] && 0.0 <= share <= 1.0 && p == share * 100.0
    ensures var v, k := StatsPercentile(values, share), Product((|values| - 1) as real, share);
            Less(values, v) as real < k + 1.0 && (Less(values, v) + Equal(values, v)) as real > k
  {
    Percent(share);
    ImplementationsAgree(values, p);
    PercentileCounts(values, p);
  }
}
