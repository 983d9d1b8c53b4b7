/** Totals and counts of a list, said over sets of positions. */
module Counting {
  import opened SetSums
  import opened Reals
  import opened Ranking

  predicate Within(i: int, n: nat) {
    0 <= i < n
  }

  ghost function Range(n: nat): set<int> {
    set i | 0 <= i < n && Within(i, n)
  }

  ghost function Positions(n: nat): (s: set<int>)
    ensures |s| == n
  {
    RangeNumber(n);
    Range(n)
  }

  lemma {:induction false} RangeNumber(n: nat)
    ensures |Range(n)| == n
  {
    if n == 0 {
      assert Range(n) == {};
    } else {
      RangeNumber(n - 1);
      forall i | Within(i, n - 1) ensures Within(i, n) {
      }
      assert Within(n - 1, n);
      assert Range(n) == Range(n - 1) + {n - 1};
    }
  }

  lemma {:induction false} PositionsGrow(n: nat)
    ensures Positions(n + 1) == Positions(n) + {n as int}
  {
    forall i | Within(i, n) ensures Within(i, n + 1) {
    }
    assert Within(n, n + 1);
  }

  ghost function At(s: seq<real>): int -> real {
    (i: int) => if 0 <= i < |s| then s[i] else 0.0
  }

  /** One more position adds its value. */
  lemma {:induction false} SumGrows(s: set<int>, k: int, f: int -> real)
    requires k !in s
    ensures SetSum(s + {k}, f) == SetSum(s, f) + f(k)
  {
    SetSumPick(s + {k}, f, k);
    assert s + {k} - {k} == s;
  }

  lemma {:induction false} TotalIsSum(s: seq<real>)
    ensures Total(s) == SetSum(Positions(|s|), At(s))
  {
    if s != [] {
      var n := |s| - 1;
      TotalIsSum(s[..n]);
      PositionsGrow(n);
      SumGrows(Positions(n), n, At(s));
      SumsAgree(Positions(n), At(s[..n]), At(s));
    }
  }

  ghost function PositionsBelow(s: seq<real>, v: real): set<int> {
    set i | 0 <= i < |s| && s[i] < v
  }

  ghost function PositionsOf(s: seq<real>, v: real): set<int> {
    set i | 0 <= i < |s| && s[i] == v
  }

  lemma {:induction false} LessArePositions(s: seq<real>, v: real)
    ensures Less(s, v) == |PositionsBelow(s, v)|
  {
    if s != [] {
      var n := |s| - 1;
      var front := s[..n];
      LessArePositions(front, v);
      CountsSplit(front, [s[n]], v);
      assert s == front + [s[n]];
      assert PositionsBelow(s, v) == PositionsBelow(front, v) + if s[n] < v then {n as int} else {};
    }
  }

  lemma {:induction false} EqualArePositions(s: seq<real>, v: real)
    ensures Equal(s, v) == |PositionsOf(s, v)|
  {
    if s != [] {
      var n := |s| - 1;
      var front := s[..n];
      EqualArePositions(front, v);
      CountsSplit(front, [s[n]], v);
      assert s == front + [s[n]];
      assert PositionsOf(s, v) == PositionsOf(front, v) + if s[n] == v then {n as int} else {};
    }
  }

  lemma {:induction false} CountsArePositions(s: seq<real>, v: real)
    ensures Less(s, v) == |PositionsBelow(s, v)| && Equal(s, v) == |PositionsOf(s, v)|
  {
    LessArePositions(s, v);
    EqualArePositions(s, v);
  }
}
