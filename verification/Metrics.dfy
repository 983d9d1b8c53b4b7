/** Ranking metrics of the two retrieval benchmarks and the category-D harness. */
module Metrics {
  import opened Sorting
  import opened Rearrangement
  import opened Reals

  /** A dict of chunk id to grade, in insertion order. */
  type Grades = seq<(string, int)>

  ghost predicate Distinct(ids: seq<string>) {
    forall i, j | 0 <= i < j < |ids| :: ids[i] != ids[j]
  }

  ghost predicate IsDict(graded: Grades) {
    forall i, j | 0 <= i < j < |graded| :: graded[i].0 != graded[j].0
  }

  ghost predicate NonNegative(graded: Grades) {
    forall i | 0 <= i < |graded| :: graded[i].1 >= 0
  }

  function Get(graded: Grades, id: string): int {
    if graded == [] then 0 else if graded[0].0 == id then graded[0].1 else Get(graded[1..], id)
  }

  function Gains(ids: seq<string>, graded: Grades): seq<real> {
    seq(|ids|, i requires 0 <= i < |ids| => Get(graded, ids[i]) as real)
  }

  function PositiveGrades(graded: Grades): seq<real> {
    if graded == [] then [] else
    (if graded[0].1 > 0 then [graded[0].1 as real] else []) + PositiveGrades(graded[1..])
  }

  function Descending(): (real, real) -> bool {
    (x: real, y: real) => x >= y
  }

  function Ideal(graded: Grades, k: nat): seq<real> {
    Take(Sort(PositiveGrades(graded), Descending()), k)
  }

  /** `_ndcg_at_k`. */
  function NdcgAtK(ranked: seq<string>, graded: Grades, k: nat, log: nat -> real): real
    requires Growing(log)
  {
    var gains := Gains(Take(ranked, k), graded);
    var ideal := Dcg(Ideal(graded, k), log);
    if ideal == 0.0 then 0.0 else Dcg(gains, log) / ideal
  }

  // ----- Discounts as weights

  function Discount(log: nat -> real): nat -> real
    requires Growing(log)
  {
    (i: nat) => if log(i) > 0.0 then 1.0 / log(i) else 1.0
  }

  lemma Reciprocal(x: real, y: real)
    requires x > 0.0
    ensures 1.0 / x > 0.0 && y / x == Product(y, 1.0 / x)
  {
  }

  lemma ReciprocalShrinks(x: real, y: real)
    requires 0.0 < x < y
    ensures 1.0 / x > 1.0 / y
  {
    assert 1.0 / x - 1.0 / y == (y - x) / (x * y);
  }

  lemma DiscountShrinks(log: nat -> real)
    requires Growing(log)
    ensures Shrinking(Discount(log))
  {
    var w := Discount(log);
    forall i: nat ensures w(i) > 0.0 {
      Reciprocal(log(i), 1.0);
    }
    forall i: nat, j: nat | i < j ensures w(i) > w(j) {
      assert log(i) < log(j);
      ReciprocalShrinks(log(i), log(j));
    }
  }

  lemma {:induction false} DcgIsWeighted(s: seq<real>, log: nat -> real, m: nat)
    requires Growing(log) && m >= |s|
    ensures Dcg(s, log) == Weighted(s, Discount(log), m)
    decreases m
  {
    if m > |s| {
      DcgIsWeighted(s, log, m - 1);
      assert At(s, m - 1) == 0.0;
    } else if m > 0 {
      DcgIsWeighted(s[..m - 1], log, m - 1);
      SameWeighted(s[..m - 1], s, Discount(log), m - 1);
      Reciprocal(log(m - 1), s[m - 1]);
    }
  }

  // ----- No choice of positions beats the largest values

  ghost predicate Within(h: seq<real>, d: seq<real>) {
    forall x: real | x > 0.0 :: multiset(h)[x] <= multiset(d)[x]
  }

  ghost predicate DescendingPositive(d: seq<real>) {
    SortedBy(Descending(), d) && forall i | 0 <= i < |d| :: d[i] > 0.0
  }

  lemma {:induction false} PrefixDrop(d: seq<real>, j: nat)
    requires d != [] && j > 0
    ensures Prefix(d, j) == d[0] + Prefix(d[1..], j - 1)
  {
    if j > 1 {
      PrefixDrop(d, j - 1);
    }
  }

  lemma {:induction false} PrefixRemove(h: seq<real>, i: nat, m: nat)
    requires i < m <= |h|
    ensures Prefix(h, m) == h[i] + Prefix(h[..i] + h[i + 1..], m - 1)
  {
    if i == m - 1 {
      PrefixAgrees(h, h[..i] + h[i + 1..], m - 1);
    } else {
      PrefixRemove(h, i, m - 1);
    }
  }

  lemma {:induction false} PrefixAgrees(a: seq<real>, b: seq<real>, m: nat)
    requires forall i: nat | i < m :: At(a, i) == At(b, i)
    ensures Prefix(a, m) == Prefix(b, m)
  {
    if m > 0 {
      PrefixAgrees(a, b, m - 1);
    }
  }

  lemma {:induction false} PrefixGrows(d: seq<real>, j: nat, m: nat)
    requires j <= m && forall i | 0 <= i < |d| :: d[i] >= 0.0
    ensures Prefix(d, j) <= Prefix(d, m)
  {
    if j < m {
      PrefixGrows(d, j, m - 1);
    }
  }

  lemma {:induction false} PrefixNonPositive(h: seq<real>, m: nat)
    requires forall i | 0 <= i < |h| :: h[i] <= 0.0
    ensures Prefix(h, m) <= 0.0
  {
    if m > 0 {
      PrefixNonPositive(h, m - 1);
    }
  }

  /** The position to give up against d[0]: where h has d[0], or else anywhere. */
  lemma WithinDrop(h: seq<real>, d: seq<real>) returns (i: nat)
    requires Within(h, d) && DescendingPositive(d) && h != [] && d != []
    ensures i < |h| && h[i] <= d[0] && Within(h[..i] + h[i + 1..], d[1..])
  {
    assert d == [d[0]] + d[1..];
    if d[0] in h {
      i :| 0 <= i < |h| && h[i] == d[0];
    } else {
      i := 0;
      if h[0] > d[0] {
        assert multiset(h)[h[0]] > 0;
        assert h[0] in d;
        var j :| 0 <= j < |d| && d[j] == h[0];
        assert Descending()(d[0], d[j]) || j == 0;
      }
    }
    RemoveOne(h, i);
  }

  lemma {:induction false} TopSum(h: seq<real>, d: seq<real>)
    requires Within(h, d) && DescendingPositive(d)
    ensures Prefix(h, |h|) <= Prefix(d, |h|)
    decreases |h|
  {
    if h == [] {
    } else if d == [] {
      forall i | 0 <= i < |h| ensures h[i] <= 0.0 {
        assert multiset(h)[h[i]] > 0;
      }
      PrefixNonPositive(h, |h|);
      PrefixAgrees(d, [], |h|);
      PrefixNonPositive([], |h|);
      PrefixGrows(d, 0, |h|);
    } else {
      var i := WithinDrop(h, d);
      TopSum(h[..i] + h[i + 1..], d[1..]);
      PrefixRemove(h, i, |h|);
      PrefixDrop(d, |h|);
    }
  }

  // ----- The gains of distinct ids are among the grades

  lemma {:induction false} GetAbsent(graded: Grades, id: string)
    requires forall i | 0 <= i < |graded| :: graded[i].0 != id
    ensures Get(graded, id) == 0
  {
    if graded != [] {
      GetAbsent(graded[1..], id);
    }
  }

  lemma GainsOfTail(ids: seq<string>, graded: Grades, p: nat)
    requires graded != [] && p < |ids| && ids[p] == graded[0].0 && Distinct(ids) && IsDict(graded)
    ensures Gains(ids, graded) == Gains(ids, graded[1..])[p := graded[0].1 as real]
    ensures Gains(ids, graded[1..])[p] == 0.0
  {
    GetAbsent(graded[1..], ids[p]);
    forall i | 0 <= i < |ids| && i != p ensures ids[i] != ids[p] {
      assert if i < p then ids[i] != ids[p] else ids[p] != ids[i];
    }
  }

  lemma WithinUpdate(h: seq<real>, d: seq<real>, p: nat, v: real)
    requires Within(h, d) && p < |h| && h[p] == 0.0
    ensures Within(h[p := v], (if v > 0.0 then [v] else []) + d)
  {
    assert multiset(h[p := v]) == multiset(h) - multiset{h[p]} + multiset{v};
  }

  lemma WithinMore(h: seq<real>, d: seq<real>, more: seq<real>)
    requires Within(h, d)
    ensures Within(h, more + d)
  {
  }

  lemma ZerosWithin(h: seq<real>, d: seq<real>)
    requires forall i | 0 <= i < |h| :: h[i] == 0.0
    ensures Within(h, d)
  {
    forall x: real | x > 0.0 ensures multiset(h)[x] == 0 {
      assert x !in h;
    }
  }

  lemma {:induction false} GainsWithin(ids: seq<string>, graded: Grades)
    requires Distinct(ids) && IsDict(graded)
    ensures Within(Gains(ids, graded), PositiveGrades(graded))
  {
    var gains := Gains(ids, graded);
    if graded == [] {
      ZerosWithin(gains, []);
    } else {
      var rest, d := Gains(ids, graded[1..]), PositiveGrades(graded[1..]);
      GainsWithin(ids, graded[1..]);
      if graded[0].0 in ids {
        var p :| 0 <= p < |ids| && ids[p] == graded[0].0;
        GainsOfTail(ids, graded, p);
        WithinUpdate(rest, d, p, graded[0].1 as real);
      } else {
        assert gains == rest;
        WithinMore(rest, d, if graded[0].1 > 0 then [graded[0].1 as real] else []);
      }
    }
  }

  lemma {:induction false} PositiveGradesArePositive(graded: Grades)
    ensures forall i | 0 <= i < |PositiveGrades(graded)| :: PositiveGrades(graded)[i] > 0.0
  {
    if graded != [] {
      PositiveGradesArePositive(graded[1..]);
    }
  }

  lemma DescendingIsOrder()
    ensures TotalPreorder(Descending()) && Antisymmetric(Descending())
  {
  }

  lemma SortedGrades(graded: Grades, d: seq<real>)
    requires d == Sort(PositiveGrades(graded), Descending())
    ensures DescendingPositive(d) && multiset(d) == multiset(PositiveGrades(graded))
  {
    DescendingIsOrder();
    SortIsSorted(PositiveGrades(graded), Descending());
    SortIsPermutation(PositiveGrades(graded), Descending());
    PositiveGradesArePositive(graded);
    forall i | 0 <= i < |d| ensures d[i] > 0.0 {
      assert d[i] in multiset(PositiveGrades(graded));
    }
  }

  lemma {:induction false} WithinTake(h: seq<real>, d: seq<real>, j: nat)
    requires Within(h, d) && j <= |h|
    ensures Within(h[..j], d)
  {
    assert h == h[..j] + h[j..];
  }

  lemma {:induction false} PrefixBelow(gains: seq<real>, d: seq<real>, k: nat, j: nat)
    requires Within(gains, d) && DescendingPositive(d) && j <= k
    ensures Prefix(gains, j) <= Prefix(Take(d, k), j)
  {
    var c := if j <= |gains| then j else |gains|;
    WithinTake(gains, d, c);
    TopSum(gains[..c], d);
    PrefixAgrees(gains[..c], gains, c);
    PrefixPastEnd(gains, c, j);
    PrefixGrows(d, c, j);
    PrefixAgrees(d, Take(d, k), j);
  }

  /** The ideal order of the k best grades dominates the gains of any k distinct ids. */
  lemma IdealDominates(ids: seq<string>, graded: Grades, k: nat)
    requires Distinct(ids) && IsDict(graded) && |ids| <= k
    ensures Dominates(Ideal(graded, k), Gains(ids, graded), k)
  {
    var d, gains := Sort(PositiveGrades(graded), Descending()), Gains(ids, graded);
    SortedGrades(graded, d);
    GainsWithin(ids, graded);
    forall j: nat | j <= k ensures Prefix(gains, j) <= Prefix(Take(d, k), j) {
      PrefixBelow(gains, d, k, j);
    }
  }

  lemma {:induction false} PrefixPastEnd(s: seq<real>, c: nat, j: nat)
    requires c == j || |s| <= c <= j
    ensures Prefix(s, j) == Prefix(s, c)
  {
    if c < j {
      PrefixPastEnd(s, c, j - 1);
    }
  }

  lemma {:induction false} DcgOfNonNegative(s: seq<real>, log: nat -> real)
    requires Growing(log) && forall i | 0 <= i < |s| :: s[i] >= 0.0
    ensures Dcg(s, log) >= 0.0
    ensures Dcg(s, log) == 0.0 <==> forall i | 0 <= i < |s| :: s[i] == 0.0
  {
    if s != [] {
      var n := |s| - 1;
      DcgOfNonNegative(s[..n], log);
      Reciprocal(log(n), s[n]);
      GapIsPositive(s[n], 1.0 / log(n));
      if forall i | 0 <= i < n :: s[..n][i] == 0.0 {
        assert forall i | 0 <= i < |s| :: i < n ==> s[i] == s[..n][i];
      }
      if forall i | 0 <= i < |s| :: s[i] == 0.0 {
        assert forall i | 0 <= i < n :: s[..n][i] == s[i];
      }
    }
  }

  lemma {:induction false} GetNonNegative(graded: Grades, id: string)
    requires NonNegative(graded)
    ensures Get(graded, id) >= 0
  {
    if graded != [] {
      GetNonNegative(graded[1..], id);
    }
  }

  lemma Ratio(x: real, y: real)
    requires 0.0 <= x <= y && y > 0.0
    ensures 0.0 <= x / y <= 1.0 && (x / y == 1.0 <==> x == y) && (x / y == 0.0 <==> x == 0.0)
  {
  }

  /** Everything nDCG@k promises, for every ranking of distinct ids and every cutoff: it lies in [0, 1]; it is 1
      exactly when the top k hold the best grades in order; it is 0 exactly when they hold no grade. */
  lemma NdcgBounds(ranked: seq<string>, graded: Grades, k: nat, log: nat -> real)
    requires Growing(log) && Distinct(ranked) && IsDict(graded) && NonNegative(graded)
    ensures 0.0 <= NdcgAtK(ranked, graded, k, log) <= 1.0
    ensures var gains := Gains(Take(ranked, k), graded);
            && (NdcgAtK(ranked, graded, k, log) == 1.0
                <==> Ideal(graded, k) != [] && forall i: nat | i < k :: At(gains, i) == At(Ideal(graded, k), i))
            && (NdcgAtK(ranked, graded, k, log) == 0.0 <==> forall i | 0 <= i < |gains| :: gains[i] == 0.0)
  {
    var gains, ideal := Gains(Take(ranked, k), graded), Ideal(graded, k);
    IdealDominates(Take(ranked, k), graded, k);
    DiscountShrinks(log);
    DominanceOrder(gains, ideal, Discount(log), k);
    DcgIsWeighted(gains, log, k);
    DcgIsWeighted(ideal, log, k);
    SortedGrades(graded, Sort(PositiveGrades(graded), Descending()));
    forall i | 0 <= i < |gains| ensures gains[i] >= 0.0 {
      GetNonNegative(graded, Take(ranked, k)[i]);
    }
    DcgOfNonNegative(gains, log);
    DcgOfNonNegative(ideal, log);
    if ideal == [] {
      assert Dcg(gains, log) == 0.0;
    } else {
      assert ideal[0] != 0.0;
      Ratio(Dcg(gains, log), Dcg(ideal, log));
    }
  }

  // ----- A ranking in descending grade

  function PositivePart(s: seq<real>): seq<real> {
    if s == [] then [] else if s[0] > 0.0 then [s[0]] + PositivePart(s[1..]) else PositivePart(s[1..])
  }

  lemma {:induction false} DescendingPositivePart(s: seq<real>, c: nat)
    requires SortedBy(Descending(), s) && c == |PositivePart(s)|
    requires forall i | 0 <= i < |s| :: s[i] >= 0.0
    ensures c <= |s| && PositivePart(s) == s[..c] && forall i | c <= i < |s| :: s[i] == 0.0
  {
    if s != [] {
      if s[0] > 0.0 {
        DescendingPositivePart(s[1..], c - 1);
      } else {
        forall i | 0 <= i < |s| ensures s[i] == 0.0 {
          assert i == 0 || Descending()(s[0], s[i]);
        }
        DescendingPositivePart(s[1..], c);
        NoPositivePart(s);
      }
    }
  }

  lemma {:induction false} NoPositivePart(s: seq<real>)
    requires forall i | 0 <= i < |s| :: s[i] <= 0.0
    ensures PositivePart(s) == []
  {
    if s != [] {
      NoPositivePart(s[1..]);
    }
  }

  lemma {:induction false} PositivePartUpdate(s: seq<real>, p: nat, v: real)
    requires p < |s| && s[p] == 0.0
    ensures multiset(PositivePart(s[p := v]))
            == multiset(PositivePart(s)) + if v > 0.0 then multiset{v} else multiset{}
  {
    if p == 0 {
      assert s[p := v][1..] == s[1..];
    } else {
      assert s[p := v][1..] == s[1..][p - 1 := v];
      PositivePartUpdate(s[1..], p - 1, v);
    }
  }

  lemma {:induction false} AllGradesGained(ids: seq<string>, graded: Grades)
    requires Distinct(ids) && IsDict(graded) && NonNegative(graded)
    requires forall i | 0 <= i < |graded| && graded[i].1 > 0 :: graded[i].0 in ids
    ensures multiset(PositivePart(Gains(ids, graded))) == multiset(PositiveGrades(graded))
  {
    var gains := Gains(ids, graded);
    if graded == [] {
      NoPositivePart(gains);
    } else {
      var rest := Gains(ids, graded[1..]);
      AllGradesGained(ids, graded[1..]);
      if graded[0].0 in ids {
        var p :| 0 <= p < |ids| && ids[p] == graded[0].0;
        GainsOfTail(ids, graded, p);
        PositivePartUpdate(rest, p, graded[0].1 as real);
      } else {
        assert gains == rest;
      }
    }
  }

  lemma DescendingGainsLeadWithIdeal(ranked: seq<string>, graded: Grades)
    requires Distinct(ranked) && IsDict(graded) && NonNegative(graded)
    requires forall i | 0 <= i < |graded| && graded[i].1 > 0 :: graded[i].0 in ranked
    requires SortedBy(Descending(), Gains(ranked, graded))
    ensures var d := Sort(PositiveGrades(graded), Descending());
            forall i: nat :: At(Gains(ranked, graded), i) == At(d, i)
  {
    var gains, d := Gains(ranked, graded), Sort(PositiveGrades(graded), Descending());
    var c := |PositivePart(gains)|;
    forall i | 0 <= i < |gains| ensures gains[i] >= 0.0 {
      GetNonNegative(graded, ranked[i]);
    }
    DescendingPositivePart(gains, c);
    AllGradesGained(ranked, graded);
    SortedGrades(graded, d);
    DescendingIsOrder();
    SortedIsUnique(gains[..c], d, Descending());
  }

  lemma {:induction false} TakeAt(s: seq<real>, k: nat, i: nat)
    requires i < k
    ensures At(Take(s, k), i) == At(s, i)
  {
  }

  /** Listing every graded id, best grade first, scores 1 at every cutoff (if there is a grade at all). */
  lemma DescendingGradesScoreOne(ranked: seq<string>, graded: Grades, k: nat, log: nat -> real)
    requires Growing(log) && Distinct(ranked) && IsDict(graded) && NonNegative(graded)
    requires forall i | 0 <= i < |graded| && graded[i].1 > 0 :: graded[i].0 in ranked
    requires SortedBy(Descending(), Gains(ranked, graded))
    requires k > 0 && exists i :: 0 <= i < |graded| && graded[i].1 > 0
    ensures NdcgAtK(ranked, graded, k, log) == 1.0
  {
    var gains, ideal := Gains(ranked, graded), Ideal(graded, k);
    DescendingGainsLeadWithIdeal(ranked, graded);
    SomePositiveGrade(graded);
    SortIsPermutation(PositiveGrades(graded), Descending());
    assert Gains(Take(ranked, k), graded) == Take(gains, k);
    forall i: nat | i < k ensures At(Take(gains, k), i) == At(ideal, i) {
      TakeAt(gains, k, i);
      TakeAt(Sort(PositiveGrades(graded), Descending()), k, i);
    }
    assert ideal != [];
    NdcgBounds(ranked, graded, k, log);
  }

  lemma {:induction false} SomePositiveGrade(graded: Grades)
    requires exists i :: 0 <= i < |graded| && graded[i].1 > 0
    ensures PositiveGrades(graded) != []
  {
    var i :| 0 <= i < |graded| && graded[i].1 > 0;
    if i > 0 {
      assert graded[1..][i - 1].1 > 0;
      SomePositiveGrade(graded[1..]);
    }
  }
}
