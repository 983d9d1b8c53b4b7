/** The normal approximation with tie and continuity correction. */
module NormalTest {
  import opened Ranking
  import opened RankTotals
  import opened SignAssignments
  import opened Reals

  function Cube(t: real): real {
    t * t * t
  }

  /** The docstring's variance, with the tie groups read off the ranks themselves. */
  function TieVariance(ranks: seq<real>): real {
    var n := |ranks| as real;
    (n * (n + 1.0) * (2.0 * n + 1.0) - SumOver(ranks, TieAt(ranks)) / 2.0) / 24.0
  }

  function Abs(x: real): real {
    if x < 0.0 then -x else x
  }

  ghost predicate PositiveRoot(sqrt: real -> real) {
    forall x | x > 0.0 :: sqrt(x) > 0.0
  }

  /** The p-value a variance leads to; sqrt and erfc are the C library's. */
  ghost function NormalTail(w: real, mean: real, variance: real, sqrt: real -> real, erfc: real -> real): real
    requires PositiveRoot(sqrt)
  {
    if variance <= 0.0 then 1.0 else
    Min(1.0, erfc((Abs(w - mean) - 0.5) / sqrt(variance) / sqrt(2.0)))
  }

  // ----- The tie term over dictionary entries is the tie term over positions

  function TieWithin(all: seq<real>, seen: set<real>): real -> real {
    v => if v in seen then TieAt(all)(v) else 0.0
  }

  lemma {:induction false} TieAddKey(s: seq<real>, all: seq<real>, seen: set<real>, k: real)
    requires k !in seen
    ensures SumOver(s, TieWithin(all, seen + {k}))
            == SumOver(s, TieWithin(all, seen)) + Repeated(Equal(s, k), TieAt(all)(k))
  {
    if s != [] {
      TieAddKey(s[1..], all, seen, k);
    }
  }

  lemma {:induction false} TieAllKeys(s: seq<real>, all: seq<real>, seen: set<real>)
    requires forall i | 0 <= i < |s| :: s[i] in seen
    ensures SumOver(s, TieWithin(all, seen)) == SumOver(s, TieAt(all))
  {
    if s != [] {
      TieAllKeys(s[1..], all, seen);
    }
  }

  lemma {:induction false} TieNoKeys(s: seq<real>, all: seq<real>)
    ensures SumOver(s, TieWithin(all, {})) == 0.0
  {
    if s != [] {
      TieNoKeys(s[1..], all);
    }
  }

  lemma TieOfGroup(all: seq<real>, k: real)
    ensures Repeated(Equal(all, k), TieAt(all)(k)) == Cube(Equal(all, k) as real) - Equal(all, k) as real
  {
    var t := Equal(all, k) as real;
    RepeatedIsProduct(Equal(all, k), TieAt(all)(k));
    assert Product(t, Square(t) - 1.0) == Cube(t) - t;
  }

  lemma EqualGrows(s: seq<real>, k: nat, v: real)
    requires k < |s|
    ensures Equal(s[..k + 1], v) == Equal(s[..k], v) + if s[k] == v then 1 else 0
  {
    assert s[..k + 1] == s[..k] + [s[k]];
    CountsSplit(s[..k], [s[k]], v);
  }

  /** The first loop: how often each rank occurs, with the ranks in the order first met. */
  method GroupSizes(ranks: seq<real>) returns (groups: map<real, nat>, keys: seq<real>)
    ensures forall i | 0 <= i < |ranks| :: ranks[i] in groups
    ensures forall r | r in groups :: r in keys
    ensures forall r | r in groups :: groups[r] == Equal(ranks, r) >= 1
    ensures forall i | 0 <= i < |keys| :: keys[i] in groups
    ensures forall i, j | 0 <= i < j < |keys| :: keys[i] != keys[j]
  {
    groups, keys := map[], [];
    for k := 0 to |ranks|
      invariant forall i | 0 <= i < k :: ranks[i] in groups
      invariant forall r | r in groups :: r in keys
      invariant forall r | r in groups :: groups[r] >= 1
      invariant forall i | 0 <= i < |keys| :: keys[i] in groups
      invariant forall i, j | 0 <= i < j < |keys| :: keys[i] != keys[j]
      invariant forall r :: (if r in groups then groups[r] else 0) == Equal(ranks[..k], r)
    {
      var r := ranks[k];
      forall v ensures Equal(ranks[..k + 1], v) == Equal(ranks[..k], v) + if r == v then 1 else 0 {
        EqualGrows(ranks, k, v);
      }
      if r !in groups {
        keys := keys + [r];
      }
      groups := groups[r := (if r in groups then groups[r] else 0) + 1];
    }
    assert ranks[..|ranks|] == ranks;
  }

  /** The second loop: groups of one add nothing. */
  method TieTerm(ranks: seq<real>) returns (tieTerm: real)
    ensures tieTerm == SumOver(ranks, TieAt(ranks)) / 2.0
  {
    var groups, keys := GroupSizes(ranks);
    tieTerm := 0.0;
    ghost var seen: set<real> := {};
    TieNoKeys(ranks, ranks);
    for k := 0 to |keys|
      invariant forall i | 0 <= i < k :: keys[i] in seen
      invariant forall r | r in seen :: exists i :: 0 <= i < k && keys[i] == r
      invariant 2.0 * tieTerm == SumOver(ranks, TieWithin(ranks, seen))
    {
      var r := keys[k];
      var t := groups[r];
      TieAddKey(ranks, ranks, seen, r);
      TieOfGroup(ranks, r);
      if t > 1 {
        tieTerm := tieTerm + (Cube(t as real) - t as real) / 2.0;
      }
      seen := seen + {r};
    }
    forall i | 0 <= i < |ranks| ensures ranks[i] in seen {
      var r := ranks[i];
      assert r in groups;
      assert r in keys;
    }
    TieAllKeys(ranks, ranks, seen);
  }

  /** `_normal_two_sided_p`, on any list of ranks. */
  method NormalTwoSidedP(ranks: seq<real>, w: real, sqrt: real -> real, erfc: real -> real) returns (p: real)
    requires PositiveRoot(sqrt)
    ensures p == NormalTail(w, Total(ranks) / 2.0, TieVariance(ranks), sqrt, erfc)
  {
    var n := |ranks| as real;
    var mean := Total(ranks) / 2.0;
    var tieTerm := TieTerm(ranks);
    var variance := (n * (n + 1.0) * (2.0 * n + 1.0) - tieTerm) / 24.0;
    assert variance == TieVariance(ranks);
    if variance <= 0.0 {
      return 1.0;
    }
    var z := (Abs(w - mean) - 0.5) / sqrt(variance);
    p := Min(1.0, erfc(z / sqrt(2.0)));
  }
}
