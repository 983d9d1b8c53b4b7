/** Totals of tie-averaged ranks: their sum, their sum of squares, and what ties take away from it. */
module RankTotals {
  import opened Ranking
  import opened Reals

  function SumOver(s: seq<real>, f: real -> real): real {
    if s == [] then 0.0 else f(s[0]) + SumOver(s[1..], f)
  }

  function Below(s: seq<real>, m: real): seq<real> {
    if s == [] then [] else if s[0] < m then [s[0]] + Below(s[1..], m) else Below(s[1..], m)
  }

  function RankAt(s: seq<real>): real -> real {
    v => AvgRank(s, v)
  }

  function Square(x: real): real {
    x * x
  }

  function SquaredRankAt(s: seq<real>): real -> real {
    v => Square(AvgRank(s, v))
  }

  /** Summed over the positions of a group of t equal values, this gives t^3 - t. */
  function TieAt(s: seq<real>): real -> real {
    v => Square(Equal(s, v) as real) - 1.0
  }

  // ----- Peeling off the largest value

  lemma {:induction false} BelowCounts(s: seq<real>, m: real, v: real)
    requires forall i | 0 <= i < |s| :: s[i] <= m
    ensures |Below(s, m)| + Equal(s, m) == |s| && Less(s, m) == |Below(s, m)|
    ensures v < m ==> Less(Below(s, m), v) == Less(s, v) && Equal(Below(s, m), v) == Equal(s, v)
    ensures forall i | 0 <= i < |Below(s, m)| :: Below(s, m)[i] < m
  {
    if s != [] {
      BelowCounts(s[1..], m, v);
      if s[0] < m {
        assert Below(s, m)[1..] == Below(s[1..], m);
      }
    }
  }

  function Repeated(t: nat, y: real): real {
    if t == 0 then 0.0 else y + Repeated(t - 1, y)
  }

  lemma {:induction false} RepeatedIsProduct(t: nat, y: real)
    ensures Repeated(t, y) == Product(t as real, y)
  {
    if t > 0 {
      RepeatedIsProduct(t - 1, y);
    }
  }

  lemma {:induction false} PeelSum(s: seq<real>, m: real, f: real -> real, g: real -> real)
    requires forall i | 0 <= i < |s| :: s[i] <= m
    requires forall v | v < m :: f(v) == g(v)
    ensures SumOver(s, f) == SumOver(Below(s, m), g) + Repeated(Equal(s, m), f(m))
  {
    if s != [] {
      PeelSum(s[1..], m, f, g);
      if s[0] < m {
        assert Below(s, m)[1..] == Below(s[1..], m);
      }
    }
  }

  function Max(s: seq<real>): (m: real)
    requires s != []
    ensures (exists i | 0 <= i < |s| :: s[i] == m) && forall i | 0 <= i < |s| :: s[i] <= m
  {
    if |s| == 1 then s[0] else
    var m := Max(s[1..]);
    assert forall i | 1 <= i < |s| :: s[i] == s[1..][i - 1];
    if s[0] > m then s[0] else m
  }

  lemma {:induction false} EqualIsPositive(s: seq<real>, i: nat)
    requires i < |s|
    ensures Equal(s, s[i]) >= 1
  {
    if i > 0 {
      EqualIsPositive(s[1..], i - 1);
    }
  }

  lemma SameBelowMax(s: seq<real>, m: real)
    requires forall i | 0 <= i < |s| :: s[i] <= m
    ensures forall v | v < m :: RankAt(s)(v) == RankAt(Below(s, m))(v)
    ensures forall v | v < m :: SquaredRankAt(s)(v) == SquaredRankAt(Below(s, m))(v)
    ensures forall v | v < m :: TieAt(s)(v) == TieAt(Below(s, m))(v)
  {
    forall v | v < m
      ensures Less(Below(s, m), v) == Less(s, v) && Equal(Below(s, m), v) == Equal(s, v)
    {
      BelowCounts(s, m, v);
    }
  }

  // ----- 1 + ... + n and 1 + 4 + ... + n*n

  function Triangle(n: nat): real {
    if n == 0 then 0.0 else n as real + Triangle(n - 1)
  }

  function Pyramid(n: nat): real {
    if n == 0 then 0.0 else Square(n as real) + Pyramid(n - 1)
  }

  /** (x+1) + ... + (x+y), and the same with squares, in closed form. */
  function RunSum(x: real, y: real): real {
    y * (x + (y + 1.0) / 2.0)
  }

  function RunSquares(x: real, y: real): real {
    y * Square(x + (y + 1.0) / 2.0) + y * (Square(y) - 1.0) / 12.0
  }

  lemma RunStep(x: real, y: real)
    ensures RunSum(x, y) == RunSum(x, y - 1.0) + (x + y)
    ensures RunSquares(x, y) == RunSquares(x, y - 1.0) + Square(x + y)
  {
  }

  lemma {:induction false} ConsecutiveSums(n: nat, t: nat, x: real, y: real)
    requires x == n as real && y == t as real
    ensures Triangle(n + t) == Triangle(n) + RunSum(x, y)
    ensures Pyramid(n + t) == Pyramid(n) + RunSquares(x, y)
  {
    if t > 0 {
      ConsecutiveSums(n, t - 1, x, y - 1.0);
      RunStep(x, y);
      assert (n + t) as real == x + y;
    }
  }

  lemma RunAsTies(x: real, y: real, r: real, sq: real, tie: real)
    requires r == x + (y + 1.0) / 2.0 && sq == Square(r) && tie == Square(y) - 1.0
    ensures RunSum(x, y) == Product(y, r)
    ensures RunSquares(x, y) == Product(y, sq) + Product(y, tie) / 12.0
  {
  }

  /** t tied values over n smaller ones each take the mean of n+1, ..., n+t; squared, that loses (t^3 - t)/12. */
  lemma {:induction false} TiedSums(n: nat, t: nat, r: real, sq: real, tie: real)
    requires r == n as real + (t + 1) as real / 2.0 && sq == Square(r) && tie == Square(t as real) - 1.0
    ensures Triangle(n + t) == Triangle(n) + Repeated(t, r)
    ensures Pyramid(n + t) == Pyramid(n) + Repeated(t, sq) + Repeated(t, tie) / 12.0
  {
    ConsecutiveSums(n, t, n as real, t as real);
    RunAsTies(n as real, t as real, r, sq, tie);
    RepeatedIsProduct(t, r);
    RepeatedIsProduct(t, sq);
    RepeatedIsProduct(t, tie);
  }

  /** Removing the t copies of the largest value, of rank r, changes no other rank. */
  lemma {:induction false} PeelMax(s: seq<real>)
    returns (b: seq<real>, t: nat, r: real, sq: real, tie: real)
    requires s != []
    ensures t >= 1 && |b| + t == |s|
    ensures r == |b| as real + (t + 1) as real / 2.0 && sq == Square(r) && tie == Square(t as real) - 1.0
    ensures SumOver(s, RankAt(s)) == SumOver(b, RankAt(b)) + Repeated(t, r)
    ensures SumOver(s, SquaredRankAt(s)) == SumOver(b, SquaredRankAt(b)) + Repeated(t, sq)
    ensures SumOver(s, TieAt(s)) == SumOver(b, TieAt(b)) + Repeated(t, tie)
  {
    var m := Max(s);
    var i :| 0 <= i < |s| && s[i] == m;
    EqualIsPositive(s, i);
    BelowCounts(s, m, m);
    SameBelowMax(s, m);
    b, t := Below(s, m), Equal(s, m);
    r, sq, tie := AvgRank(s, m), SquaredRankAt(s)(m), TieAt(s)(m);
    PeelSum(s, m, RankAt(s), RankAt(b));
    PeelSum(s, m, SquaredRankAt(s), SquaredRankAt(b));
    PeelSum(s, m, TieAt(s), TieAt(b));
  }

  lemma {:induction false} RankSums(s: seq<real>)
    ensures SumOver(s, RankAt(s)) == Triangle(|s|)
    ensures SumOver(s, SquaredRankAt(s)) == Pyramid(|s|) - SumOver(s, TieAt(s)) / 12.0
    decreases |s|
  {
    if s != [] {
      var b, t, r, sq, tie := PeelMax(s);
      RankSums(b);
      TiedSums(|b|, t, r, sq, tie);
    }
  }
}
