/** What the signed-rank test returns, said of the paired samples themselves. */
module PairRanks {
  import opened SetSums
  import opened Reals
  import opened Counting
  import opened Ranking
  import opened RankTotals
  import opened SignAssignments
  import opened NormalTest
  import opened SignVariance
  import opened Wilcoxon

  /** The pairs that differ. */
  ghost function Pairs(x: seq<real>, y: seq<real>): set<int>
    requires |x| == |y|
  {
    set i | 0 <= i < |x| && x[i] != y[i]
  }

  function Gap(x: seq<real>, y: seq<real>, i: int): real
    requires |x| == |y|
  {
    if !(0 <= i < |x|) then 0.0 else if x[i] >= y[i] then x[i] - y[i] else y[i] - x[i]
  }

  ghost function Closer(x: seq<real>, y: seq<real>, gap: real): set<int>
    requires |x| == |y|
  {
    set j | j in Pairs(x, y) && Gap(x, y, j) < gap
  }

  ghost function AsFar(x: seq<real>, y: seq<real>, gap: real): set<int>
    requires |x| == |y|
  {
    set j | j in Pairs(x, y) && Gap(x, y, j) == gap
  }

  /** A pair's rank: how many pairs are closer, and the middle of those as far apart. */
  ghost function RankOfPair(x: seq<real>, y: seq<real>): int -> real
    requires |x| == |y|
  {
    (i: int) => |Closer(x, y, Gap(x, y, i))| as real + (|AsFar(x, y, Gap(x, y, i))| + 1) as real / 2.0
  }

  ghost function Greater(x: seq<real>, y: seq<real>): (s: set<int>)
    requires |x| == |y|
    ensures s <= Pairs(x, y)
  {
    set i | i in Pairs(x, y) && x[i] > y[i]
  }

  /** The rank sum of the pairs whose first value is greater, and of those whose second is. */
  ghost function FirstGreater(x: seq<real>, y: seq<real>): real
    requires |x| == |y|
  {
    SetSum(Greater(x, y), RankOfPair(x, y))
  }

  ghost function SecondGreater(x: seq<real>, y: seq<real>): real
    requires |x| == |y|
  {
    SetSum(Pairs(x, y) - Greater(x, y), RankOfPair(x, y))
  }

  // ----- Where the differences come from

  ghost predicate InPlace(x: seq<real>, y: seq<real>, d: seq<real>, at: int -> int)
    requires |x| == |y|
  {
    forall k | 0 <= k < |d| :: at(k) in Pairs(x, y) && d[k] == x[at(k)] - y[at(k)]
  }

  ghost predicate Apart(n: nat, at: int -> int) {
    forall k, l | 0 <= k < n && 0 <= l < n && at(k) == at(l) :: k == l
  }

  ghost predicate Covers(x: seq<real>, y: seq<real>, n: nat, at: int -> int)
    requires |x| == |y|
  {
    forall i | i in Pairs(x, y) :: exists k :: 0 <= k < n && at(k) == i
  }

  /** The differences, in order, are those of the pairs at the places `at`, each pair once. */
  ghost predicate Lists(x: seq<real>, y: seq<real>, d: seq<real>, at: int -> int)
    requires |x| == |y|
  {
    InPlace(x, y, d, at) && Apart(|d|, at) && Covers(x, y, |d|, at)
  }

  /** The places one step further on, after `o` new ones at the front. */
  ghost predicate Shifts(later: int -> int, at: int -> int, o: nat) {
    o <= 1 && (o == 1 ==> at(0) == 0) && forall k: int | k >= o :: at(k) == later(k - o) + 1
  }

  lemma {:induction false} DifferencesListed(x: seq<real>, y: seq<real>) returns (at: int -> int)
    requires |x| == |y|
    ensures Lists(x, y, Differences(x, y), at)
  {
    if x == [] {
      at := (k: int) => k;
    } else {
      var later := DifferencesListed(x[1..], y[1..]);
      var o := if x[0] != y[0] then 1 else 0;
      at := (k: int) => if k < o then 0 else later(k - o) + 1;
      var d, e := Differences(x, y), Differences(x[1..], y[1..]);
      OneMorePair(x, y, o);
      assert Shifts(later, at, o);
      PlacesShift(x, y, d, e, later, at, o);
      ApartShifts(|e|, later, at, o);
      CoverShifts(x, y, |e|, later, at, o);
    }
  }

  lemma {:induction false} OneMorePair(x: seq<real>, y: seq<real>, o: nat)
    requires |x| == |y| && x != [] && o == if x[0] != y[0] then 1 else 0
    ensures var d, e := Differences(x, y), Differences(x[1..], y[1..]);
            && |d| == |e| + o && (forall k | 0 <= k < |e| :: d[k + o] == e[k])
            && (o == 1 ==> d[0] == x[0] - y[0])
  {
  }

  lemma {:induction false} PlacesShift(x: seq<real>, y: seq<real>, d: seq<real>, e: seq<real>, later: int -> int,
                                       at: int -> int, o: nat)
    requires |x| == |y| && x != [] && Shifts(later, at, o) && InPlace(x[1..], y[1..], e, later)
    requires |d| == |e| + o && forall k | 0 <= k < |e| :: d[k + o] == e[k]
    requires o == 1 ==> x[0] != y[0] && d[0] == x[0] - y[0]
    ensures InPlace(x, y, d, at)
  {
    forall k | 0 <= k < |d| ensures at(k) in Pairs(x, y) && d[k] == x[at(k)] - y[at(k)] {
      if k >= o {
        var i := later(k - o);
        assert i in Pairs(x[1..], y[1..]) && d[k - o + o] == e[k - o];
        assert x[1..][i] == x[i + 1] && y[1..][i] == y[i + 1];
      }
    }
  }

  lemma {:induction false} ApartShifts(n: nat, later: int -> int, at: int -> int, o: nat)
    requires Shifts(later, at, o) && Apart(n, later) && forall k | 0 <= k < n :: later(k) >= 0
    ensures Apart(n + o, at)
  {
    forall k, l | 0 <= k < n + o && 0 <= l < n + o && at(k) == at(l) ensures k == l {
      if k >= o {
        assert later(k - o) >= 0;
      }
      if l >= o {
        assert later(l - o) >= 0;
      }
    }
  }

  lemma {:induction false} CoverShifts(x: seq<real>, y: seq<real>, n: nat, later: int -> int, at: int -> int, o: nat)
    requires |x| == |y| && x != [] && Shifts(later, at, o) && Covers(x[1..], y[1..], n, later)
    requires o == if x[0] != y[0] then 1 else 0
    ensures Covers(x, y, n + o, at)
  {
    forall i | i in Pairs(x, y) ensures exists k :: 0 <= k < n + o && at(k) == i {
      if i == 0 {
        assert at(0) == 0;
      } else {
        assert i - 1 in Pairs(x[1..], y[1..]);
        var k :| 0 <= k < n && later(k) == i - 1;
        assert at(k + o) == i;
      }
    }
  }

  // ----- Ranks of differences are ranks of pairs

  /** A property of differences holds of as many positions as it does of pairs. */
  lemma {:induction false} ImagesOf(x: seq<real>, y: seq<real>, d: seq<real>, at: int -> int, ks: set<int>,
                                    pairs: set<int>)
    requires |x| == |y| && Lists(x, y, d, at)
    requires ks <= Positions(|d|) && pairs <= Pairs(x, y)
    requires forall k | 0 <= k < |d| :: k in ks <==> at(k) in pairs
    ensures Image(ks, at) == pairs && |ks| == |pairs|
  {
    forall i | i in pairs ensures i in Image(ks, at) {
      var k :| 0 <= k < |d| && at(k) == i;
    }
    SumOfImage(ks, at, (i: int) => 0.0, (i: int) => 0.0);
  }

  lemma {:induction false} RankIsRankOfPair(x: seq<real>, y: seq<real>, d: seq<real>, at: int -> int, k: nat)
    requires |x| == |y| && Lists(x, y, d, at) && k < |d|
    ensures Magnitudes(d)[k] == Gap(x, y, at(k))
    ensures RanksOf(Magnitudes(d))[k] == RankOfPair(x, y)(at(k))
  {
    var m := Magnitudes(d);
    forall l | 0 <= l < |d| ensures m[l] == Gap(x, y, at(l)) {
    }
    CountsArePositions(m, m[k]);
    ImagesOf(x, y, d, at, PositionsBelow(m, m[k]), Closer(x, y, m[k]));
    ImagesOf(x, y, d, at, PositionsOf(m, m[k]), AsFar(x, y, m[k]));
  }

  // ----- Rank sums

  ghost function Plus(a: seq<bool>): set<int> {
    set k | 0 <= k < |a| && a[k]
  }

  ghost function Minus(a: seq<bool>): set<int> {
    set k | 0 <= k < |a| && !a[k]
  }

  /** W+ is the sum of the ranks at the positions signed plus, W- of the others. */
  lemma {:induction false} SignedSums(ranks: seq<real>, a: seq<bool>)
    requires |ranks| == |a|
    ensures WPlus(ranks, a) == SetSum(Plus(a), Counting.At(ranks))
    ensures WMinus(ranks, a) == SetSum(Minus(a), Counting.At(ranks))
  {
    if a != [] {
      var n := |a| - 1;
      SignedSums(ranks[..n], a[..n]);
      SumsAgree(Plus(a[..n]), Counting.At(ranks[..n]), Counting.At(ranks));
      SumsAgree(Minus(a[..n]), Counting.At(ranks[..n]), Counting.At(ranks));
      if a[n] {
        assert Plus(a) == Plus(a[..n]) + {n as int} && Minus(a) == Minus(a[..n]);
        SumGrows(Plus(a[..n]), n, Counting.At(ranks));
      } else {
        assert Minus(a) == Minus(a[..n]) + {n as int} && Plus(a) == Plus(a[..n]);
        SumGrows(Minus(a[..n]), n, Counting.At(ranks));
      }
    }
  }

  lemma {:induction false} SignsSplit(x: seq<real>, y: seq<real>, d: seq<real>, at: int -> int)
    requires |x| == |y| && Lists(x, y, d, at)
    ensures Image(Plus(Signs(d)), at) == Greater(x, y) && Image(Minus(Signs(d)), at) == Pairs(x, y) - Greater(x, y)
  {
    ImagesOf(x, y, d, at, Plus(Signs(d)), Greater(x, y));
    ImagesOf(x, y, d, at, Minus(Signs(d)), Pairs(x, y) - Greater(x, y));
  }

  /** Summing ranks over positions is summing them over pairs. */
  lemma {:induction false} SumOverPairs(x: seq<real>, y: seq<real>, d: seq<real>, at: int -> int, ks: set<int>)
    requires |x| == |y| && Lists(x, y, d, at) && ks <= Positions(|d|)
    ensures SetSum(ks, Counting.At(RanksOf(Magnitudes(d)))) == SetSum(Image(ks, at), RankOfPair(x, y))
  {
    var ranks := RanksOf(Magnitudes(d));
    forall k | k in ks ensures Counting.At(ranks)(k) == RankOfPair(x, y)(at(k)) {
      RankIsRankOfPair(x, y, d, at, k);
    }
    SumOfImage(ks, at, RankOfPair(x, y), Counting.At(ranks));
  }

  lemma {:induction false} RankSumsOfPairs(x: seq<real>, y: seq<real>, d: seq<real>, at: int -> int)
    requires |x| == |y| && Lists(x, y, d, at)
    ensures var ranks := RanksOf(Magnitudes(d));
            WPlus(ranks, Signs(d)) == FirstGreater(x, y) && WMinus(ranks, Signs(d)) == SecondGreater(x, y)
  {
    SignedSums(RanksOf(Magnitudes(d)), Signs(d));
    SignsSplit(x, y, d, at);
    SumOverPairs(x, y, d, at, Plus(Signs(d)));
    SumOverPairs(x, y, d, at, Minus(Signs(d)));
  }

  /** What the test returns for W and N: the smaller of the two rank sums, and the number of pairs that differ. */
  lemma {:induction false} StatisticOfPairs(x: seq<real>, y: seq<real>, mode: Mode, sqrt: real -> real,
                                            erfc: real -> real)
    requires PositiveRoot(sqrt) && |x| == |y| && !mode.Other?
    ensures var outcome := Test(x, y, mode, sqrt, erfc);
            && outcome.Tested? && outcome.n == |Pairs(x, y)|
            && outcome.w == if FirstGreater(x, y) <= SecondGreater(x, y) then FirstGreater(x, y)
                            else SecondGreater(x, y)
  {
    var at := DifferencesListed(x, y);
    var d := Differences(x, y);
    ImagesOf(x, y, d, at, Positions(|d|), Pairs(x, y));
    RankSumsOfPairs(x, y, d, at);
    if d == [] {
      NoPairs(x, y);
    }
  }

  lemma {:induction false} NoPairs(x: seq<real>, y: seq<real>)
    requires |x| == |y| && Pairs(x, y) == {}
    ensures FirstGreater(x, y) == 0.0 == SecondGreater(x, y)
  {
  }

  lemma {:induction false} PositiveSum<T>(s: set<T>, f: T -> real)
    requires forall i | i in s :: f(i) >= 1.0
    ensures SetSum(s, f) >= |s| as real
    decreases |s|
  {
    if s != {} {
      var i :| i in s;
      SetSumPick(s, f, i);
      PositiveSum(s - {i}, f);
    }
  }

  lemma {:induction false} RanksArePositive(x: seq<real>, y: seq<real>)
    requires |x| == |y|
    ensures forall i | i in Pairs(x, y) :: RankOfPair(x, y)(i) >= 1.0
  {
    forall i | i in Pairs(x, y) ensures RankOfPair(x, y)(i) >= 1.0 {
      assert i in AsFar(x, y, Gap(x, y, i));
    }
  }

  /** W is 0 exactly when all pairs that differ do so in one direction. */
  lemma {:induction false} ZeroExactlyWhen(x: seq<real>, y: seq<real>, mode: Mode, sqrt: real -> real,
                                           erfc: real -> real)
    requires PositiveRoot(sqrt) && |x| == |y| && !mode.Other?
    ensures Test(x, y, mode, sqrt, erfc).w == 0.0
            <==> (forall i | 0 <= i < |x| :: x[i] >= y[i]) || (forall i | 0 <= i < |x| :: x[i] <= y[i])
  {
    StatisticOfPairs(x, y, mode, sqrt, erfc);
    RanksArePositive(x, y);
    PositiveSum(Greater(x, y), RankOfPair(x, y));
    PositiveSum(Pairs(x, y) - Greater(x, y), RankOfPair(x, y));
    NoneGreater(x, y);
    NoneLess(x, y);
  }

  lemma {:induction false} NoneGreater(x: seq<real>, y: seq<real>)
    requires |x| == |y|
    ensures |Greater(x, y)| == 0 <==> forall i | 0 <= i < |x| :: x[i] <= y[i]
  {
    if i :| 0 <= i < |x| && x[i] > y[i] {
      assert i in Greater(x, y);
    }
    if Greater(x, y) != {} {
      var i: int :| i in Greater(x, y);
    }
  }

  lemma {:induction false} NoneLess(x: seq<real>, y: seq<real>)
    requires |x| == |y|
    ensures |Pairs(x, y) - Greater(x, y)| == 0 <==> forall i | 0 <= i < |x| :: x[i] >= y[i]
  {
    var less := Pairs(x, y) - Greater(x, y);
    if i :| 0 <= i < |x| && x[i] < y[i] {
      assert i in less;
    }
    if less != {} {
      var i: int :| i in less;
    }
  }

  // ----- The exact p-value

  ghost function Subsets(x: seq<real>, y: seq<real>): (all: set<set<int>>)
    requires |x| == |y|
    ensures |all| > 0
  {
    var all := set s | s <= Pairs(x, y);
    assert {} in all;
    all
  }

  /** The ways of choosing the pairs whose first value is greater that make one of the rank sums at most w. */
  ghost function ExtremeSubsets(x: seq<real>, y: seq<real>, w: real): set<set<int>>
    requires |x| == |y|
  {
    set s | s <= Pairs(x, y)
            && (SetSum(s, RankOfPair(x, y)) <= w || SetSum(Pairs(x, y) - s, RankOfPair(x, y)) <= w)
  }

  function SignsOf(n: nat, at: int -> int, s: set<int>): (a: seq<bool>)
    ensures |a| == n && forall k | 0 <= k < n :: a[k] <==> at(k) in s
  {
    seq(n, k requires 0 <= k < n => at(k) in s)
  }

  lemma {:induction false} SubsetSigns(x: seq<real>, y: seq<real>, d: seq<real>, at: int -> int, s: set<int>)
    requires |x| == |y| && Lists(x, y, d, at) && s <= Pairs(x, y)
    ensures Image(Plus(SignsOf(|d|, at, s)), at) == s
    ensures Image(Minus(SignsOf(|d|, at, s)), at) == Pairs(x, y) - s
  {
    ImagesOf(x, y, d, at, Plus(SignsOf(|d|, at, s)), s);
    ImagesOf(x, y, d, at, Minus(SignsOf(|d|, at, s)), Pairs(x, y) - s);
  }

  lemma {:induction false} SignsSubset(x: seq<real>, y: seq<real>, d: seq<real>, at: int -> int, a: seq<bool>)
    requires |x| == |y| && Lists(x, y, d, at) && |a| == |d|
    ensures Image(Plus(a), at) <= Pairs(x, y) && SignsOf(|d|, at, Image(Plus(a), at)) == a
  {
    var s := Image(Plus(a), at);
    forall k | 0 <= k < |d| ensures at(k) in s <==> a[k] {
      if a[k] {
        assert k in Plus(a);
      }
    }
  }

  lemma {:induction false} SumsOfSubset(x: seq<real>, y: seq<real>, d: seq<real>, at: int -> int, s: set<int>)
    requires |x| == |y| && Lists(x, y, d, at) && s <= Pairs(x, y)
    ensures var ranks, a := RanksOf(Magnitudes(d)), SignsOf(|d|, at, s);
            && WPlus(ranks, a) == SetSum(s, RankOfPair(x, y))
            && WMinus(ranks, a) == SetSum(Pairs(x, y) - s, RankOfPair(x, y))
  {
    var a := SignsOf(|d|, at, s);
    SignedSums(RanksOf(Magnitudes(d)), a);
    SubsetSigns(x, y, d, at, s);
    SumOverPairs(x, y, d, at, Plus(a));
    SumOverPairs(x, y, d, at, Minus(a));
  }

  /** As many sign assignments as choices of pairs. */
  lemma {:induction false} CountSubsets(x: seq<real>, y: seq<real>, d: seq<real>, at: int -> int)
    requires |x| == |y| && Lists(x, y, d, at)
    ensures |Subsets(x, y)| == Pow2(|d|)
  {
    AssignmentsAreAll(|d|);
    var f := (a: seq<bool>) => Image(Plus(a), at);
    var g := (s: set<int>) => SignsOf(|d|, at, s);
    forall a | a in Assignments(|d|) ensures f(a) in Subsets(x, y) && g(f(a)) == a {
      SignsSubset(x, y, d, at, a);
    }
    forall s | s in Subsets(x, y) ensures g(s) in Assignments(|d|) && f(g(s)) == s {
      SubsetSigns(x, y, d, at, s);
    }
    BijectionSize(Assignments(|d|), Subsets(x, y), f, g);
  }

  lemma {:induction false} CountExtreme(x: seq<real>, y: seq<real>, d: seq<real>, at: int -> int, w: real)
    requires |x| == |y| && Lists(x, y, d, at)
    ensures |ExtremeSubsets(x, y, w)| == |AsExtreme(RanksOf(Magnitudes(d)), w)|
  {
    var ranks := RanksOf(Magnitudes(d));
    AssignmentsAreAll(|d|);
    var f := (a: seq<bool>) => Image(Plus(a), at);
    var g := (s: set<int>) => SignsOf(|d|, at, s);
    forall a | a in AsExtreme(ranks, w) ensures f(a) in ExtremeSubsets(x, y, w) && g(f(a)) == a {
      SignsSubset(x, y, d, at, a);
      SumsOfSubset(x, y, d, at, f(a));
    }
    forall s | s in ExtremeSubsets(x, y, w) ensures g(s) in AsExtreme(ranks, w) && f(g(s)) == s {
      SubsetSigns(x, y, d, at, s);
      SumsOfSubset(x, y, d, at, s);
    }
    BijectionSize(AsExtreme(ranks, w), ExtremeSubsets(x, y, w), f, g);
  }

  /** Up to 25 pairs that differ, or when asked for: the p-value is the share of all choices of pairs for which a rank
      sum is at most W. */
  lemma {:induction false} ExactPOfPairs(x: seq<real>, y: seq<real>, mode: Mode, sqrt: real -> real, erfc: real -> real)
    requires PositiveRoot(sqrt) && |x| == |y| && Pairs(x, y) != {}
    requires mode == Exact || (mode == Auto && |Pairs(x, y)| <= 25)
    ensures var outcome := Test(x, y, mode, sqrt, erfc);
            outcome.p == |ExtremeSubsets(x, y, outcome.w)| as real / |Subsets(x, y)| as real
  {
    var at := DifferencesListed(x, y);
    var d := Differences(x, y);
    ImagesOf(x, y, d, at, Positions(|d|), Pairs(x, y));
    CountSubsets(x, y, d, at);
    CountExtreme(x, y, d, at, Test(x, y, mode, sqrt, erfc).w);
  }

  // ----- The normal p-value

  ghost function TieOfPair(x: seq<real>, y: seq<real>): int -> real
    requires |x| == |y|
  {
    (i: int) => Square(|AsFar(x, y, Gap(x, y, i))| as real) - 1.0
  }

  lemma {:induction false} SumOverIsSum(s: seq<real>, f: real -> real, g: int -> real)
    requires forall i | 0 <= i < |s| :: g(i) == f(s[i])
    ensures SumOver(s, f) == SetSum(Positions(|s|), g)
  {
    if s != [] {
      var n := |s| - 1;
      SumOverIsSum(s[..n], f, g);
      SumOverSnoc(s[..n], s[n], f);
      assert s == s[..n] + [s[n]];
      PositionsGrow(n);
      SumGrows(Positions(n), n, g);
    }
  }

  lemma {:induction false} TieIsTieOfPair(x: seq<real>, y: seq<real>, d: seq<real>, at: int -> int, k: nat)
    requires |x| == |y| && Lists(x, y, d, at) && k < |d|
    ensures TieOfPair(x, y)(at(k)) == TieAt(Magnitudes(d))(Magnitudes(d)[k])
  {
    var m := Magnitudes(d);
    RankIsRankOfPair(x, y, d, at, k);
    forall l | 0 <= l < |d| ensures m[l] == Gap(x, y, at(l)) {
    }
    CountsArePositions(m, m[k]);
    ImagesOf(x, y, d, at, PositionsOf(m, m[k]), AsFar(x, y, m[k]));
  }

  lemma {:induction false} TiesAtPositions(m: seq<real>, g: int -> real)
    requires forall k | 0 <= k < |m| :: g(k) == TieAt(m)(m[k])
    ensures SumOver(RanksOf(m), TieAt(RanksOf(m))) == SetSum(Positions(|m|), g)
  {
    TiesMatch(m);
    SumOverIsSum(m, TieAt(m), g);
  }

  lemma {:induction false} TiesOfPairs(x: seq<real>, y: seq<real>, d: seq<real>, at: int -> int, g: int -> real)
    requires |x| == |y| && Lists(x, y, d, at) && forall k | 0 <= k < |d| :: g(k) == TieOfPair(x, y)(at(k))
    ensures |d| == |Pairs(x, y)| && SetSum(Positions(|d|), g) == SetSum(Pairs(x, y), TieOfPair(x, y))
  {
    ImagesOf(x, y, d, at, Positions(|d|), Pairs(x, y));
    SumOfImage(Positions(|d|), at, TieOfPair(x, y), g);
  }

  lemma {:induction false} TieSum(x: seq<real>, y: seq<real>, d: seq<real>, at: int -> int) returns (ranks: seq<real>)
    requires |x| == |y| && Lists(x, y, d, at)
    ensures |ranks| == |d| == |Pairs(x, y)| && ranks == RanksOf(Magnitudes(d))
    ensures SumOver(ranks, TieAt(ranks)) == SetSum(Pairs(x, y), TieOfPair(x, y))
  {
    var g := (k: int) => TieOfPair(x, y)(at(k));
    ranks := RanksOf(Magnitudes(d));
    forall k | 0 <= k < |d| ensures g(k) == TieAt(Magnitudes(d))(Magnitudes(d)[k]) {
      TieIsTieOfPair(x, y, d, at, k);
    }
    TiesAtPositions(Magnitudes(d), g);
    TiesOfPairs(x, y, d, at, g);
  }

  /** (n(n+1)(2n+1) - ties/2)/24, the ties being the t^2 - 1 of every pair in a group of t, and so t^3 - t of every
      group. */
  ghost function PairVariance(x: seq<real>, y: seq<real>): real
    requires |x| == |y|
  {
    var n := |Pairs(x, y)| as real;
    (n * (n + 1.0) * (2.0 * n + 1.0) - SetSum(Pairs(x, y), TieOfPair(x, y)) / 2.0) / 24.0
  }

  ghost function PairMean(x: seq<real>, y: seq<real>): real
    requires |x| == |y|
  {
    Center(|Pairs(x, y)|)
  }

  function Center(n: nat): real {
    n as real * (n as real + 1.0) / 4.0
  }

  ghost function TailBeyond(off: real, variance: real, sqrt: real -> real, erfc: real -> real): real
    requires PositiveRoot(sqrt) && variance > 0.0
  {
    var tail := erfc((off - 0.5) / sqrt(variance) / sqrt(2.0));
    if tail < 1.0 then tail else 1.0
  }

  lemma {:induction false} PairVarianceIs(x: seq<real>, y: seq<real>, ranks: seq<real>)
    requires |x| == |y| && |ranks| == |Pairs(x, y)|
    requires SumOver(ranks, TieAt(ranks)) == SetSum(Pairs(x, y), TieOfPair(x, y))
    ensures TieVariance(ranks) == PairVariance(x, y)
  {
  }

  lemma {:induction false} Quarters(total: real, n: real)
    requires total == n * (n + 1.0) / 2.0
    ensures total / 2.0 == n * (n + 1.0) / 4.0
  {
  }

  lemma {:induction false} CenterOf(m: seq<real>)
    ensures Total(RanksOf(m)) / 2.0 == Center(|m|)
  {
    RanksAddUp(m);
    Quarters(Total(RanksOf(m)), |m| as real);
  }

  lemma {:induction false} SpreadOf(m: seq<real>, variance: real)
    requires m != [] && TieVariance(RanksOf(m)) == variance
    ensures SumSquares(RanksOf(m)) / 4.0 == variance > 0.0
  {
    TieVarianceIsQuarterSquares(m);
    TieVarianceIsExact(m);
  }

  lemma {:induction false} PairVarianceOf(x: seq<real>, y: seq<real>, d: seq<real>, at: int -> int)
    requires |x| == |y| && Lists(x, y, d, at)
    ensures |d| == |Pairs(x, y)| && TieVariance(RanksOf(Magnitudes(d))) == PairVariance(x, y)
  {
    var ranks := TieSum(x, y, d, at);
    PairVarianceIs(x, y, ranks);
  }

  lemma {:induction false} TailIsTail(w: real, mean: real, variance: real, sqrt: real -> real, erfc: real -> real)
    requires PositiveRoot(sqrt) && variance > 0.0
    ensures NormalTail(w, mean, variance, sqrt, erfc)
            == TailBeyond(if w >= mean then w - mean else mean - w, variance, sqrt, erfc)
  {
  }

  lemma {:induction false} NormalP(x: seq<real>, y: seq<real>, mode: Mode, sqrt: real -> real, erfc: real -> real)
    requires PositiveRoot(sqrt) && |x| == |y| && Differences(x, y) != []
    requires mode == Normal || (mode == Auto && |Differences(x, y)| > 25)
    ensures var outcome, ranks := Test(x, y, mode, sqrt, erfc), RanksOf(Magnitudes(Differences(x, y)));
            outcome.Tested?
            && outcome.p == NormalTail(outcome.w, Total(ranks) / 2.0, SumSquares(ranks) / 4.0, sqrt, erfc)
  {
  }

  lemma {:induction false} NormalFacts(x: seq<real>, y: seq<real>)
    requires |x| == |y| && Pairs(x, y) != {}
    ensures var d, ranks := Differences(x, y), RanksOf(Magnitudes(Differences(x, y)));
            && |d| == |Pairs(x, y)| > 0 && Total(ranks) / 2.0 == PairMean(x, y)
            && SumSquares(ranks) / 4.0 == PairVariance(x, y) > 0.0
  {
    var at := DifferencesListed(x, y);
    var d := Differences(x, y);
    PairVarianceOf(x, y, d, at);
    assert |Magnitudes(d)| == |d| == |Pairs(x, y)|;
    assert Total(RanksOf(Magnitudes(d))) / 2.0 == PairMean(x, y) by {
      CenterOf(Magnitudes(d));
    }
    assert SumSquares(RanksOf(Magnitudes(d))) / 4.0 == PairVariance(x, y) > 0.0 by {
      SpreadOf(Magnitudes(d), PairVariance(x, y));
    }
  }

  /** Otherwise it is the tail beyond W, corrected for continuity, of a normal distribution around n(n+1)/4. */
  lemma {:induction false} NormalPOfPairs(x: seq<real>, y: seq<real>, mode: Mode, sqrt: real -> real,
                                          erfc: real -> real)
    requires PositiveRoot(sqrt) && |x| == |y| && Pairs(x, y) != {}
    requires mode == Normal || (mode == Auto && |Pairs(x, y)| > 25)
    ensures var outcome, mean := Test(x, y, mode, sqrt, erfc), PairMean(x, y);
            && outcome.Tested? && PairVariance(x, y) > 0.0
            && outcome.p == TailBeyond(if outcome.w >= mean then outcome.w - mean else mean - outcome.w,
                                       PairVariance(x, y), sqrt, erfc)
  {
    NormalFacts(x, y);
    NormalP(x, y, mode, sqrt, erfc);
    TailIsTail(Test(x, y, mode, sqrt, erfc).w, PairMean(x, y), PairVariance(x, y), sqrt, erfc);
  }
}
