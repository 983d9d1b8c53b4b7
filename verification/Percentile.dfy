/** Linear-interpolated percentiles: three implementations, one quantity. */
module Percentile {
  import opened Sorting
  import opened Reals

  datatype Outcome = NotANumber | ValueError | Value(x: real)

  function Ascending(): (real, real) -> bool {
    (x: real, y: real) => x <= y
  }

  function Sorted(values: seq<real>): (s: seq<real>)
    ensures |s| == |values|
  {
    SortIsPermutation(values, Ascending());
    Sort(values, Ascending())
  }

  function Floor(x: real): int {
    x.Floor
  }

  function Ceil(x: real): int {
    -((-x).Floor)
  }

  /** Python's int(): towards zero. */
  function Int(x: real): int {
    if x >= 0.0 then x.Floor else -((-x).Floor)
  }

  /** How far along n sorted values the percentage p points. */
  function Position(n: nat, p: real): real {
    Product((n - 1) as real, p / 100.0)
  }

  /** `percentile` of the summary script. */
  function SummaryPercentile(values: seq<real>, p: real): Outcome {
    if values == [] then NotANumber
    else if |values| == 1 then Value(values[0])
    else if !(0.0 <= p <= 100.0) then ValueError
    else
      var s, k := Sorted(values), Position(|values|, p);
      PositionInRange(|values|, p);
      var lower, upper := Floor(k), Ceil(k);
      if lower == upper then Value(s[lower])
      else Value(s[lower] + (k - lower as real) * (s[upper] - s[lower]))
  }

  /** `_percentile` of the retrieval benchmark. */
  function BenchmarkPercentile(values: seq<real>, pct: real): real
    requires pct >= 0.0
  {
    if values == [] then 0.0 else
    var s := Sorted(values);
    var idx := Product(pct / 100.0, (|s| - 1) as real);
    PositionNonNegative(|s|, pct);
    var lo := Int(idx);
    var hi := lo + 1;
    if hi >= |s| then s[|s| - 1] else s[lo] + (idx - lo as real) * (s[hi] - s[lo])
  }

  /** `_percentile` of the model statistics, on a 0-1 scale. */
  function StatsPercentile(values: seq<real>, percentile: real): real
    requires 0.0 <= percentile <= 1.0
  {
    if values == [] then 0.0 else
    var s := Sorted(values);
    if |s| == 1 then s[0] else
    var rank := Product((|s| - 1) as real, percentile);
    FractionInRange((|s| - 1) as real, percentile);
    var lower, upper := Floor(rank), Ceil(rank);
    if lower == upper then s[Floor(rank)]
    else s[lower] * (1.0 - (rank - lower as real)) + s[upper] * (rank - lower as real)
  }

  lemma FractionInRange(n: real, q: real)
    requires n >= 0.0 && 0.0 <= q <= 1.0
    ensures 0.0 <= Product(n, q) <= n
  {
  }

  lemma PositionNonNegative(n: nat, p: real)
    requires n >= 1 && p >= 0.0
    ensures Product(p / 100.0, (n - 1) as real) == Position(n, p) >= 0.0
  {
  }

  lemma PositionInRange(n: nat, p: real)
    requires n >= 1 && 0.0 <= p <= 100.0
    ensures 0.0 <= Position(n, p) <= (n - 1) as real
  {
    FractionInRange((n - 1) as real, p / 100.0);
  }

  // ----- One quantity: the piecewise linear curve through the sorted values

  function Next(s: seq<real>, i: nat): real
    requires i < |s|
  {
    if i + 1 < |s| then s[i + 1] else s[i]
  }

  function Curve(s: seq<real>, k: real): real
    requires 0.0 <= k <= (|s| - 1) as real
  {
    s[Floor(k)] + Product(k - Floor(k) as real, Next(s, Floor(k)) - s[Floor(k)])
  }

  lemma CeilOf(k: real)
    ensures if k == Floor(k) as real then Ceil(k) == Floor(k) else Ceil(k) == Floor(k) + 1
  {
    var f := Floor(k);
    assert f as real <= k < f as real + 1.0;
  }

  lemma WeightedForm(a: real, b: real, w: real)
    ensures a * (1.0 - w) + b * w == a + Product(w, b - a)
  {
  }

  lemma SingleSorted(values: seq<real>)
    requires |values| == 1
    ensures Sorted(values) == values
  {
    assert values[1..] == [];
    assert Sort(values[1..], Ascending()) == [];
  }

  lemma SummaryIsCurve(values: seq<real>, p: real)
    requires values != [] && 0.0 <= p <= 100.0
    ensures 0.0 <= Position(|values|, p) <= (|values| - 1) as real
    ensures SummaryPercentile(values, p) == Value(Curve(Sorted(values), Position(|values|, p)))
  {
    PositionInRange(|values|, p);
    CeilOf(Position(|values|, p));
    if |values| == 1 {
      SingleSorted(values);
    }
  }

  lemma BenchmarkIsCurve(values: seq<real>, p: real)
    requires values != [] && 0.0 <= p <= 100.0 && 0.0 <= Position(|values|, p) <= (|values| - 1) as real
    ensures BenchmarkPercentile(values, p) == Curve(Sorted(values), Position(|values|, p))
  {
    PositionNonNegative(|values|, p);
    CeilOf(Position(|values|, p));
  }

  lemma StatsIsCurve(values: seq<real>, p: real)
    requires values != [] && 0.0 <= p <= 100.0 && 0.0 <= Position(|values|, p) <= (|values| - 1) as real
    ensures StatsPercentile(values, p / 100.0) == Curve(Sorted(values), Position(|values|, p))
  {
    var s, k := Sorted(values), Position(|values|, p);
    CeilOf(k);
    WeightedForm(s[Floor(k)], Next(s, Floor(k)), k - Floor(k) as real);
  }

  /** On nonempty input and a percentage in range the three implementations return the same number. */
  lemma ImplementationsAgree(values: seq<real>, p: real)
    requires values != [] && 0.0 <= p <= 100.0
    ensures SummaryPercentile(values, p) == Value(BenchmarkPercentile(values, p))
    ensures BenchmarkPercentile(values, p) == StatsPercentile(values, p / 100.0)
  {
    SummaryIsCurve(values, p);
    BenchmarkIsCurve(values, p);
    StatsIsCurve(values, p);
  }

  // ----- Bounds, monotonicity, independence of order

  ghost predicate IsAscending(s: seq<real>) {
    forall i, j | 0 <= i <= j < |s| :: s[i] <= s[j]
  }

  lemma SortedIsAscending(values: seq<real>)
    ensures IsAscending(Sorted(values)) && multiset(Sorted(values)) == multiset(values)
  {
    SortIsSorted(values, Ascending());
    SortIsPermutation(values, Ascending());
    forall i, j | 0 <= i <= j < |values| ensures Sorted(values)[i] <= Sorted(values)[j] {
      assert i == j || Ascending()(Sorted(values)[i], Sorted(values)[j]);
    }
  }

  lemma SlopeBounds(w: real, w': real, d: real)
    requires 0.0 <= w <= w' <= 1.0 && d >= 0.0
    ensures 0.0 <= Product(w, d) <= Product(w', d) <= d
  {
    assert w * d <= w' * d <= 1.0 * d;
  }

  lemma CurveInCell(s: seq<real>, k: real)
    requires IsAscending(s) && 0.0 <= k <= (|s| - 1) as real
    ensures s[Floor(k)] <= Curve(s, k) <= Next(s, Floor(k))
  {
    var f := Floor(k);
    SlopeBounds(k - f as real, k - f as real, Next(s, f) - s[f]);
  }

  lemma CurveMonotone(s: seq<real>, k: real, k': real)
    requires IsAscending(s) && 0.0 <= k <= k' <= (|s| - 1) as real
    ensures Curve(s, k) <= Curve(s, k')
  {
    var f, f' := Floor(k), Floor(k');
    if f == f' {
      SlopeBounds(k - f as real, k' - f as real, Next(s, f) - s[f]);
    } else {
      CurveInCell(s, k);
      CurveInCell(s, k');
      assert Next(s, f) <= s[f'];
    }
  }

  lemma ProductMonotone(n: real, q: real, q': real)
    requires n >= 0.0 && q <= q'
    ensures Product(n, q) <= Product(n, q')
  {
  }

  lemma PositionMonotone(n: nat, p: real, p': real)
    requires n >= 1 && p <= p'
    ensures Position(n, p) <= Position(n, p')
  {
    ProductMonotone((n - 1) as real, p / 100.0, p' / 100.0);
  }

  /** The percentile never decreases as the percentage grows, across cells as well as within one. */
  lemma PercentileMonotone(values: seq<real>, p: real, p': real)
    requires values != [] && 0.0 <= p <= p' <= 100.0
    ensures SummaryPercentile(values, p).Value? && SummaryPercentile(values, p').Value?
    ensures SummaryPercentile(values, p).x <= SummaryPercentile(values, p').x
  {
    SummaryIsCurve(values, p);
    SummaryIsCurve(values, p');
    PositionMonotone(|values|, p, p');
    SortedIsAscending(values);
    CurveMonotone(Sorted(values), Position(|values|, p), Position(|values|, p'));
  }

  ghost predicate Between(values: seq<real>, lo: real, hi: real) {
    forall i | 0 <= i < |values| :: lo <= values[i] <= hi
  }

  /** Every percentile lies between the least and the greatest value; 0 and 100 reach them. */
  lemma PercentileBounds(values: seq<real>, p: real, lo: real, hi: real)
    requires values != [] && 0.0 <= p <= 100.0 && Between(values, lo, hi)
    ensures SummaryPercentile(values, p).Value? && lo <= SummaryPercentile(values, p).x <= hi
    ensures p == 0.0 ==> SummaryPercentile(values, p).x in values && Between(values, SummaryPercentile(values, p).x, hi)
    ensures p == 100.0
            ==> SummaryPercentile(values, p).x in values && Between(values, lo, SummaryPercentile(values, p).x)
  {
    var s, k := Sorted(values), Position(|values|, p);
    SummaryIsCurve(values, p);
    SortedIsAscending(values);
    CurveInCell(s, k);
    forall i | 0 <= i < |s| ensures s[i] in values {
      assert s[i] in multiset(values);
    }
    forall i | 0 <= i < |values| ensures s[0] <= values[i] <= s[|s| - 1] {
      assert values[i] in multiset(s);
    }
    EndsExact(s, p, k);
  }

  lemma EndsExact(s: seq<real>, p: real, k: real)
    requires s != [] && 0.0 <= p <= 100.0 && k == Position(|s|, p) && 0.0 <= k <= (|s| - 1) as real
    ensures p == 0.0 ==> Curve(s, k) == s[0]
    ensures p == 100.0 ==> Curve(s, k) == s[|s| - 1]
  {
    if p == 0.0 {
      assert k == 0.0;
    }
    if p == 100.0 {
      assert k == (|s| - 1) as real;
    }
  }

  /** The order the values come in does not matter. */
  lemma PercentileIgnoresOrder(values: seq<real>, other: seq<real>, p: real)
    requires multiset(values) == multiset(other)
    ensures SummaryPercentile(values, p) == SummaryPercentile(other, p)
  {
    SameSorted(values, other);
    if |values| == 1 {
      SingleSorted(values);
      SingleSorted(other);
    }
  }

  lemma SameSorted(values: seq<real>, other: seq<real>)
    requires multiset(values) == multiset(other)
    ensures |values| == |other| && Sorted(values) == Sorted(other)
  {
    assert |values| == |multiset(values)| == |multiset(other)| == |other|;
    AscendingIsOrder();
    SortIsSorted(values, Ascending());
    SortIsSorted(other, Ascending());
    SortIsPermutation(values, Ascending());
    SortIsPermutation(other, Ascending());
    SortedIsUnique(Sorted(values), Sorted(other), Ascending());
  }

  lemma AscendingIsOrder()
    ensures TotalPreorder(Ascending()) && Antisymmetric(Ascending())
  {
  }
}
