/** Discounted sums: whichever way values are laid out, descending order weighs them most. */
module Rearrangement {
  import opened Reals

  /** log2(i + 2) as far as ranking needs it: positive and strictly growing. */
  ghost predicate Growing(log: nat -> real) {
    && (forall i: nat :: log(i) > 0.0)
    && (forall i: nat, j: nat | i < j :: log(i) < log(j))
  }

  function Dcg(gains: seq<real>, log: nat -> real): real
    requires Growing(log)
  {
    if gains == [] then 0.0 else
    var n := |gains| - 1;
    Dcg(gains[..n], log) + gains[n] / log(n)
  }

  function At(s: seq<real>, i: nat): real {
    if i < |s| then s[i] else 0.0
  }

  function Prefix(s: seq<real>, m: nat): real {
    if m == 0 then 0.0 else Prefix(s, m - 1) + At(s, m - 1)
  }

  function Weighted(s: seq<real>, w: nat -> real, m: nat): real {
    if m == 0 then 0.0 else Weighted(s, w, m - 1) + Product(At(s, m - 1), w(m - 1))
  }

  ghost predicate Dominates(b: seq<real>, a: seq<real>, m: nat) {
    forall j: nat | j <= m :: Prefix(a, j) <= Prefix(b, j)
  }

  ghost predicate Shrinking(w: nat -> real) {
    && (forall i: nat :: w(i) > 0.0)
    && (forall i: nat, j: nat | i < j :: w(i) > w(j))
  }

  // ----- Summation by parts

  lemma PartsStep(d: real, d': real, diff: real, w: real, w': real)
    requires diff >= Product(d, w) && d >= 0.0 && w >= w'
    ensures diff + Product(d' - d, w') >= Product(d', w')
  {
    assert d * w >= d * w';
  }

  lemma DistributeStep(a: real, b: real, d: real, d': real, w: real)
    requires d' - d == b - a
    ensures Product(b, w) - Product(a, w) == Product(d' - d, w)
  {
  }

  /** Larger prefix sums make a larger weighted sum, by at least the last gap at the last weight. */
  lemma {:induction false} DominanceGap(a: seq<real>, b: seq<real>, w: nat -> real, m: nat)
    requires Shrinking(w) && Dominates(b, a, m + 1)
    ensures Weighted(b, w, m + 1) - Weighted(a, w, m + 1) >= Product(Prefix(b, m + 1) - Prefix(a, m + 1), w(m))
  {
    var d, d' := Prefix(b, m) - Prefix(a, m), Prefix(b, m + 1) - Prefix(a, m + 1);
    DistributeStep(At(a, m), At(b, m), d, d', w(m));
    if m == 0 {
      assert d == 0.0;
    } else {
      DominanceGap(a, b, w, m - 1);
      assert Prefix(a, m) <= Prefix(b, m);
      PartsStep(d, d', Weighted(b, w, m) - Weighted(a, w, m), w(m - 1), w(m));
    }
  }

  lemma GapIsPositive(d: real, w: real)
    requires w > 0.0
    ensures d >= 0.0 ==> Product(d, w) >= 0.0
    ensures d > 0.0 ==> Product(d, w) > 0.0
  {
  }

  lemma StrictStep(d: real, d': real, diff: real, w: real, w': real)
    requires diff >= Product(d, w) && d > 0.0 && w > w'
    ensures diff + Product(d' - d, w') > Product(d', w')
  {
    assert d * w > d * w';
  }

  /** A strict gap anywhere stays strict at the end. */
  lemma {:induction false} StrictGap(a: seq<real>, b: seq<real>, w: nat -> real, m: nat, j: nat)
    requires Shrinking(w) && Dominates(b, a, m + 1) && j < m + 1 && Prefix(a, j) < Prefix(b, j)
    ensures Weighted(b, w, m + 1) - Weighted(a, w, m + 1) > Product(Prefix(b, m + 1) - Prefix(a, m + 1), w(m))
  {
    var d, d' := Prefix(b, m) - Prefix(a, m), Prefix(b, m + 1) - Prefix(a, m + 1);
    var diff := Weighted(b, w, m) - Weighted(a, w, m);
    DistributeStep(At(a, m), At(b, m), d, d', w(m));
    if j == m {
      DominanceGap(a, b, w, m - 1);
      StrictStep(d, d', diff, w(m - 1), w(m));
    } else {
      StrictGap(a, b, w, m - 1, j);
      assert Prefix(a, m) <= Prefix(b, m);
      PartsStep(d, d', diff, w(m - 1), w(m));
      StrictParts(d, d', diff, w(m - 1), w(m));
    }
  }

  lemma StrictParts(d: real, d': real, diff: real, w: real, w': real)
    requires diff > Product(d, w) && d >= 0.0 && w >= w'
    ensures diff + Product(d' - d, w') > Product(d', w')
  {
    assert d * w >= d * w';
  }

  /** Under dominance the weighted sums are ordered, and equal only when the two agree everywhere. */
  lemma DominanceOrder(a: seq<real>, b: seq<real>, w: nat -> real, m: nat)
    requires Shrinking(w) && Dominates(b, a, m)
    ensures Weighted(a, w, m) <= Weighted(b, w, m)
    ensures Weighted(a, w, m) == Weighted(b, w, m) <==> forall i: nat | i < m :: At(a, i) == At(b, i)
  {
    if m > 0 {
      var gap := Prefix(b, m) - Prefix(a, m);
      DominanceGap(a, b, w, m - 1);
      assert Prefix(a, m) <= Prefix(b, m);
      GapIsPositive(gap, w(m - 1));
      if Weighted(a, w, m) == Weighted(b, w, m) {
        forall j: nat | j <= m ensures Prefix(a, j) == Prefix(b, j) {
          if Prefix(a, j) != Prefix(b, j) {
            assert Prefix(a, j) <= Prefix(b, j);
            if j < m {
              StrictGap(a, b, w, m - 1, j);
            }
          }
        }
        forall i: nat | i < m ensures At(a, i) == At(b, i) {
          assert Prefix(a, i) == Prefix(b, i) && Prefix(a, i + 1) == Prefix(b, i + 1);
        }
      }
      if forall i: nat | i < m :: At(a, i) == At(b, i) {
        SameWeighted(a, b, w, m);
      }
    }
  }

  lemma {:induction false} SameWeighted(a: seq<real>, b: seq<real>, w: nat -> real, m: nat)
    requires forall i: nat | i < m :: At(a, i) == At(b, i)
    ensures Weighted(a, w, m) == Weighted(b, w, m)
  {
    if m > 0 {
      SameWeighted(a, b, w, m - 1);
    }
  }
}
