/** The cosine in terms of equal words: how many pairs of places in two texts hold the same word. */
module WordMatches {
  import opened SetSums
  import opened Reals
  import opened Cosine

  ghost function Matches(ta: seq<string>, tb: seq<string>): set<(int, int)> {
    set i, j | 0 <= i < |ta| && 0 <= j < |tb| && ta[i] == tb[j] :: (i, j)
  }

  ghost function Places(t: seq<string>, w: string): set<int> {
    set i | 0 <= i < |t| && t[i] == w
  }

  lemma {:induction false} CountIsPlaces(t: seq<string>, w: string)
    ensures multiset(t)[w] == |Places(t, w)|
  {
    if t != [] {
      var n := |t| - 1;
      CountIsPlaces(t[..n], w);
      assert t == t[..n] + [t[n]];
      assert Places(t, w) == Places(t[..n], w) + if t[n] == w then {n as int} else {};
    }
  }

  lemma {:induction false} MatchesGrow(ta: seq<string>, tb: seq<string>, w: string)
    ensures |Matches(ta, tb + [w])| == |Matches(ta, tb)| + |Places(ta, w)|
  {
    var n := |tb| as int;
    var last := Image(Places(ta, w), (i: int) => (i, n));
    assert (tb + [w])[n] == w && forall j | 0 <= j < n :: (tb + [w])[j] == tb[j];
    forall i, j | 0 <= i < |ta| && 0 <= j <= n && ta[i] == (tb + [w])[j]
      ensures (i, j) in Matches(ta, tb) || (i, j) in last
    {
      assert j == n ==> i in Places(ta, w);
    }
    assert Matches(ta, tb + [w]) == Matches(ta, tb) + last && Matches(ta, tb) !! last;
    SumOfImage(Places(ta, w), (i: int) => (i, n), (x: (int, int)) => 0.0, (i: int) => 0.0);
  }

  lemma {:induction false} OneMoreWord(x: real, n: nat)
    ensures Product(x, (n + 1) as real) == Product(x, n as real) + x
  {
  }

  /** One more word adds as many matches as it has in the other text. */
  lemma {:induction false} DotGrows(a: Bag, b: Bag, w: string)
    ensures Dot(a, b + multiset{w}) == Dot(a, b) + Count(a, w)
  {
    var all := Words(a) + Words(b) + {w};
    var f, g := ProductAt(a, b), ProductAt(a, b + multiset{w});
    WidenSum(a, b, all);
    WidenSum(a, b + multiset{w}, all);
    SetSumPick(all, f, w);
    SetSumPick(all, g, w);
    SumsAgree(all - {w}, f, g);
    OneMoreWord(Count(a, w), b[w]);
  }

  /** The dot product counts the pairs of places with the same word. */
  lemma {:induction false} DotIsMatches(ta: seq<string>, tb: seq<string>)
    ensures Dot(multiset(ta), multiset(tb)) == |Matches(ta, tb)| as real
  {
    if tb == [] {
      assert Words(multiset(ta)) * Words(multiset(tb)) == {} && Matches(ta, tb) == {};
    } else {
      var n := |tb| - 1;
      DotIsMatches(ta, tb[..n]);
      assert tb == tb[..n] + [tb[n]] && multiset(tb) == multiset(tb[..n]) + multiset{tb[n]};
      DotGrows(multiset(ta), multiset(tb[..n]), tb[n]);
      CountIsPlaces(ta, tb[n]);
      MatchesGrow(ta, tb[..n], tb[n]);
    }
  }

  /** The similarity of two texts with words: their matches, over the roots of how much each matches itself. */
  lemma {:induction false} SimilarityIsMatches(ta: seq<string>, tb: seq<string>, sqrt: real -> real)
    requires IsSqrt(sqrt) && ta != [] && tb != []
    ensures var norms := sqrt(|Matches(ta, ta)| as real) * sqrt(|Matches(tb, tb)| as real);
            norms > 0.0 && Similarity(ta, tb, sqrt) == |Matches(ta, tb)| as real / norms
  {
    var a, b := multiset(ta), multiset(tb);
    DotIsMatches(ta, tb);
    SelfMatches(ta);
    SelfMatches(tb);
    RootIsPositive(sqrt(SquaredNorm(a)), SquaredNorm(a));
    RootIsPositive(sqrt(SquaredNorm(b)), SquaredNorm(b));
  }

  lemma {:induction false} SelfMatches(t: seq<string>)
    requires t != []
    ensures SquaredNorm(multiset(t)) == |Matches(t, t)| as real >= 1.0
  {
    DotIsMatches(t, t);
    assert Words(multiset(t)) * Words(multiset(t)) == Words(multiset(t));
    NormIsPositive(multiset(t), t[0]);
  }

  lemma {:induction false} RootIsPositive(u: real, x: real)
    requires u >= 0.0 && Product(u, u) == x && x >= 1.0
    ensures u > 0.0
  {
  }
}
