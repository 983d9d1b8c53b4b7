/** The variance of W+ over the 2^n equally likely sign assignments, from first principles. */
module SignVariance {
  import opened RankTotals
  import opened SignAssignments
  import opened SetSums
  import opened Reals

  lemma SetSumExtend(front: set<seq<bool>>, b: bool, f: seq<bool> -> real, g: seq<bool> -> real)
    requires forall a | a in front :: g(a) == f(a + [b])
    ensures SetSum(Extend(front, b), f) == SetSum(front, g)
  {
    var h := (a: seq<bool>) => a + [b];
    var k := (a: seq<bool>) => if a == [] then a else a[..|a| - 1];
    forall a | a in Extend(front, b) ensures k(a) in front && h(k(a)) == a {
      ExtendMember(front, b, a);
    }
    SetSumBijection(front, Extend(front, b), h, k, f, g);
  }

  // ----- Squared deviations of W+

  function AtWPlus(ranks: seq<real>, f: real -> real): seq<bool> -> real {
    a => if |a| == |ranks| then f(WPlus(ranks, a)) else 0.0
  }

  /** The sum of f(W+) over all 2^n assignments. */
  ghost function Expected(ranks: seq<real>, f: real -> real): real {
    SetSum(Assignments(|ranks|), AtWPlus(ranks, f))
  }

  function SquaredFrom(c: real): real -> real {
    x => Square(x - c)
  }

  function SumSquares(ranks: seq<real>): real {
    if ranks == [] then 0.0 else SumSquares(ranks[..|ranks| - 1]) + Square(ranks[|ranks| - 1])
  }

  lemma WPlusExtend(front: seq<real>, r: real, a: seq<bool>, b: bool)
    requires |front| == |a|
    ensures WPlus(front + [r], a + [b]) == WPlus(front, a) + if b then r else 0.0
  {
    assert (front + [r])[..|a|] == front && (a + [b])[..|a|] == a;
  }

  lemma {:induction false} AtExtended(front: seq<real>, r: real, a: seq<bool>, f: real -> real, g: real -> real)
    requires |a| == |front| && forall x :: g(x) == f(x + r)
    ensures AtWPlus(front, f)(a) == AtWPlus(front + [r], f)(a + [false])
    ensures AtWPlus(front, g)(a) == AtWPlus(front + [r], f)(a + [true])
  {
    WPlusExtend(front, r, a, false);
    WPlusExtend(front, r, a, true);
  }

  lemma {:induction false} ExpectedSplits(front: seq<real>, r: real, f: real -> real, g: real -> real)
    requires forall x :: g(x) == f(x + r)
    ensures Expected(front + [r], f) == Expected(front, f) + Expected(front, g)
  {
    var all := Assignments(|front|);
    var sum := AtWPlus(front + [r], f);
    forall a | a in all
      ensures AtWPlus(front, f)(a) == sum(a + [false]) && AtWPlus(front, g)(a) == sum(a + [true])
    {
      AssignmentsCover(|front|, a);
      AtExtended(front, r, a, f, g);
    }
    ExtendDisjoint(all);
    SetSumUnion(Extend(all, false), Extend(all, true), sum);
    SetSumExtend(all, false, sum, AtWPlus(front, f));
    SetSumExtend(all, true, sum, AtWPlus(front, g));
  }

  /** Around any centre: 2^n times (a quarter of the sum of squares, plus the squared distance to the mean). */
  function Spread(n: nat, squares: real, off: real): real {
    Product(Pow2(n) as real, squares / 4.0 + Square(off))
  }

  lemma SpreadIdentity(p: real, squares: real, off: real, r: real)
    ensures Product(p, squares / 4.0 + Square(off)) + Product(p, squares / 4.0 + Square(off + r))
            == Product(2.0 * p, (squares + Square(r)) / 4.0 + Square(off + r / 2.0))
  {
  }

  lemma SpreadStep(n: nat, squares: real, off: real, r: real)
    ensures Spread(n, squares, off) + Spread(n, squares, off + r)
            == Spread(n + 1, squares + Square(r), off + r / 2.0)
  {
    SpreadIdentity(Pow2(n) as real, squares, off, r);
    assert Pow2(n + 1) as real == 2.0 * Pow2(n) as real;
  }

  lemma ShiftedSquare(c: real, r: real, x: real)
    ensures SquaredFrom(c - r)(x) == SquaredFrom(c)(x + r)
  {
    assert Square(x - (c - r)) == Square(x + r - c);
  }

  lemma SquaredSplits(front: seq<real>, r: real, c: real)
    ensures Expected(front + [r], SquaredFrom(c))
            == Expected(front, SquaredFrom(c)) + Expected(front, SquaredFrom(c - r))
  {
    var f, g := SquaredFrom(c), SquaredFrom(c - r);
    forall x ensures g(x) == f(x + r) {
      ShiftedSquare(c, r, x);
    }
    ExpectedSplits(front, r, f, g);
  }

  lemma EmptySpread(c: real)
    ensures Expected([], SquaredFrom(c)) == Spread(0, 0.0, -c)
  {
    var none: seq<real> := [];
    var all, f := Assignments(|none|), AtWPlus(none, SquaredFrom(c));
    assert all == {[]};
    SetSumPick(all, f, []);
    assert all - {[]} == {};
    assert WPlus(none, []) == 0.0;
    assert f([]) == SquaredFrom(c)(WPlus(none, []));
    assert SquaredFrom(c)(0.0) == Square(-c);
    assert Spread(0, 0.0, -c) == Square(-c);
  }

  lemma {:induction false} DeviationIsSpread(ranks: seq<real>, c: real)
    ensures Expected(ranks, SquaredFrom(c)) == Spread(|ranks|, SumSquares(ranks), Total(ranks) / 2.0 - c)
  {
    if ranks == [] {
      EmptySpread(c);
    } else {
      var n := |ranks| - 1;
      var front, r := ranks[..n], ranks[n];
      assert ranks == front + [r];
      SquaredSplits(front, r, c);
      DeviationIsSpread(front, c);
      DeviationIsSpread(front, c - r);
      var off := Total(front) / 2.0 - c;
      SpreadStep(n, SumSquares(front), off, r);
      assert Total(front) / 2.0 - (c - r) == off + r;
    }
  }

  lemma AtTheMean(n: nat, squares: real)
    ensures Spread(n, squares, 0.0) / Pow2(n) as real == squares / 4.0
  {
    Cancel(Pow2(n) as real, squares / 4.0 + Square(0.0));
  }

  lemma Cancel(p: real, y: real)
    requires p > 0.0
    ensures Product(p, y) / p == y
  {
  }

  lemma AroundTheMean(ranks: seq<real>)
    ensures Expected(ranks, SquaredFrom(Total(ranks) / 2.0)) == Spread(|ranks|, SumSquares(ranks), 0.0)
  {
    var mean := Total(ranks) / 2.0;
    DeviationIsSpread(ranks, mean);
    assert Total(ranks) / 2.0 - mean == 0.0;
  }

  /** The variance of W+ over all sign assignments of any list of ranks is a quarter of its sum of squares. */
  lemma VarianceOfWPlus(ranks: seq<real>)
    ensures Expected(ranks, SquaredFrom(Total(ranks) / 2.0)) / Pow2(|ranks|) as real == SumSquares(ranks) / 4.0
  {
    AroundTheMean(ranks);
    AtTheMean(|ranks|, SumSquares(ranks));
  }
}
