/** The exact permutation p-value, computed by an in-place subset-sum table. */
module ExactTest {
  import opened SignAssignments

  /** Python's round: to the nearest integer, halves to the even one. */
  function Round(x: real): int {
    var f := x.Floor;
    var d := x - f as real;
    if d < 0.5 || (d == 0.5 && f % 2 == 0) then f else f + 1
  }

  predicate HalfInteger(x: real) {
    x >= 0.0 && Round(2.0 * x) as real == 2.0 * x
  }

  ghost predicate AllHalfIntegers(ranks: seq<real>) {
    forall i | 0 <= i < |ranks| :: HalfInteger(ranks[i])
  }

  function Scaled(ranks: seq<real>): (xs: seq<nat>)
    requires AllHalfIntegers(ranks)
    ensures |xs| == |ranks| && forall i | 0 <= i < |xs| :: xs[i] as real == 2.0 * ranks[i]
  {
    seq(|ranks|, i requires 0 <= i < |ranks| => assert HalfInteger(ranks[i]); Round(2.0 * ranks[i]))
  }

  function SumNat(s: seq<nat>): nat {
    if s == [] then 0 else SumNat(s[..|s| - 1]) + s[|s| - 1]
  }

  /** How many sub-collections of xs add up to s. */
  function Ways(xs: seq<nat>, s: int): nat {
    if xs == [] then (if s == 0 then 1 else 0) else
    var n := |xs| - 1;
    Ways(xs[..n], s) + Ways(xs[..n], s - xs[n])
  }

  function WaysUpTo(xs: seq<nat>, m: int): nat
    decreases m + 1
  {
    if m < 0 then 0 else WaysUpTo(xs, m - 1) + Ways(xs, m)
  }

  lemma {:induction false} WaysOutside(xs: seq<nat>, s: int)
    ensures s < 0 || s > SumNat(xs) ==> Ways(xs, s) == 0
  {
    if xs != [] {
      var n := |xs| - 1;
      WaysOutside(xs[..n], s);
      WaysOutside(xs[..n], s - xs[n]);
    }
  }

  lemma {:induction false} WaysUpToSplit(xs: seq<nat>, r: nat, m: int)
    ensures WaysUpTo(xs + [r], m) == WaysUpTo(xs, m) + WaysUpTo(xs, m - r)
    decreases m + 1
  {
    assert (xs + [r])[..|xs|] == xs;
    if m >= 0 {
      WaysUpToSplit(xs, r, m - 1);
      WaysOutside(xs, m - r);
    }
  }

  // ----- The table counts sign assignments

  ghost function AtMostEnding(ranks: seq<real>, w: real, b: bool): set<seq<bool>>
    requires ranks != []
  {
    set a | a in AtMost(ranks, w) && a[|a| - 1] == b
  }

  lemma EndingMember(front: seq<real>, r: real, w: real, b: bool, a: seq<bool>)
    ensures a + [b] in AtMost(front + [r], w) <==> a in AtMost(front, if b then w - r else w)
  {
    AssignmentsCover(|front|, a);
    AssignmentsCover(|front| + 1, a + [b]);
    assert (front + [r])[..|front|] == front && (a + [b])[..|a|] == a;
  }

  lemma AtMostSplit(front: seq<real>, r: real, w: real, b: bool)
    ensures |AtMostEnding(front + [r], w, b)| == |AtMost(front, if b then w - r else w)|
  {
    var shorter, longer := AtMost(front, if b then w - r else w), AtMostEnding(front + [r], w, b);
    var f := (a: seq<bool>) => a + [b];
    var g := (a: seq<bool>) => if a == [] then a else a[..|a| - 1];
    forall a | a in shorter ensures f(a) in longer && g(f(a)) == a {
      EndingMember(front, r, w, b, a);
    }
    forall a | a in longer ensures g(a) in shorter && f(g(a)) == a {
      assert a == g(a) + [b];
      EndingMember(front, r, w, b, g(a));
    }
    BijectionSize(shorter, longer, f, g);
  }

  lemma AtMostParts(ranks: seq<real>, w: real)
    requires ranks != []
    ensures |AtMost(ranks, w)| == |AtMostEnding(ranks, w, false)| + |AtMostEnding(ranks, w, true)|
  {
    var minus, plus := AtMostEnding(ranks, w, false), AtMostEnding(ranks, w, true);
    assert AtMost(ranks, w) == minus + plus && minus !! plus;
  }

  /** The table entries up to m count the assignments whose W+ is at most w = m/2. */
  lemma {:induction false} AtMostCount(ranks: seq<real>, xs: seq<nat>, w: real, m: int)
    requires |xs| == |ranks| && forall i | 0 <= i < |xs| :: xs[i] as real == 2.0 * ranks[i]
    requires m as real == 2.0 * w
    ensures |AtMost(ranks, w)| == WaysUpTo(xs, m)
  {
    if ranks == [] {
      EmptyWays(m);
      AssignmentsNumber(0);
      assert AtMost(ranks, w) == if m >= 0 then {[]} else {};
    } else {
      var n := |ranks| - 1;
      assert ranks == ranks[..n] + [ranks[n]] && xs == xs[..n] + [xs[n]];
      AtMostCount(ranks[..n], xs[..n], w, m);
      AtMostCount(ranks[..n], xs[..n], w - ranks[n], m - xs[n]);
      WaysUpToSplit(xs[..n], xs[n], m);
      AtMostSplit(ranks[..n], ranks[n], w, false);
      AtMostSplit(ranks[..n], ranks[n], w, true);
      AtMostParts(ranks, w);
    }
  }

  lemma {:induction false} EmptyWays(m: int)
    ensures WaysUpTo([], m) == if m >= 0 then 1 else 0
    decreases m + 1
  {
    if m >= 0 {
      EmptyWays(m - 1);
    }
  }

  // ----- Summing a slice of the table

  lemma {:induction false} TableSum(xs: seq<nat>, counts: seq<nat>, m: int)
    requires |counts| == SumNat(xs) + 1 && forall s | 0 <= s < |counts| :: counts[s] == Ways(xs, s)
    requires m >= -1
    ensures SumNat(counts[..if m + 1 <= |counts| then m + 1 else |counts|]) == WaysUpTo(xs, m)
    decreases m + 1
  {
    if m >= 0 {
      TableSum(xs, counts, m - 1);
      if m < |counts| {
        assert counts[..m + 1][..m] == counts[..m];
      } else {
        WaysOutside(xs, m);
      }
    }
  }

  /** One pass over the table from the top takes in one more rank, using it at most once. */
  method AddRank(counts: array<nat>, ghost xs: seq<nat>, r: nat)
    requires counts.Length > 0 && forall s | 0 <= s < counts.Length :: counts[s] == Ways(xs, s)
    modifies counts
    ensures forall s | 0 <= s < counts.Length :: counts[s] == Ways(xs + [r], s)
  {
    assert (xs + [r])[..|xs|] == xs;
    var s := counts.Length - 1;
    while s >= r
      invariant s < counts.Length
      invariant forall q | 0 <= q < counts.Length :: counts[q] == Ways(if q <= s then xs else xs + [r], q)
    {
      counts[s] := counts[s] + counts[s - r];
      s := s - 1;
    }
    forall q | 0 <= q < r ensures Ways(xs + [r], q) == Ways(xs, q) {
      WaysOutside(xs, q - r);
    }
  }

  /** The dynamic programme: how many index subsets have each scaled sum. */
  method CountTable(scaled: seq<nat>) returns (counts: array<nat>)
    ensures fresh(counts) && counts.Length == SumNat(scaled) + 1
    ensures forall s | 0 <= s < counts.Length :: counts[s] == Ways(scaled, s)
  {
    counts := new nat[SumNat(scaled) + 1](_ => 0);
    counts[0] := 1;
    for k := 0 to |scaled|
      invariant forall s | 0 <= s < counts.Length :: counts[s] == Ways(scaled[..k], s)
    {
      assert scaled[..k + 1] == scaled[..k] + [scaled[k]];
      AddRank(counts, scaled[..k], scaled[k]);
    }
    assert scaled[..|scaled|] == scaled;
  }

  /** `_exact_two_sided_p`: twice the share of assignments whose W+ is at most w, capped at 1. */
  method ExactTwoSidedP(ranks: seq<real>, w: real) returns (p: real)
    requires HalfInteger(w) && AllHalfIntegers(ranks)
    ensures p == Min(1.0, 2.0 * (|AtMost(ranks, w)| as real / Pow2(|ranks|) as real))
  {
    var scaled := Scaled(ranks);
    var wScaled := Round(2.0 * w);
    var counts := CountTable(scaled);
    TableSum(scaled, counts[..], wScaled);
    AtMostCount(ranks, scaled, w, wScaled);
    var cut := if wScaled + 1 <= counts.Length then wScaled + 1 else counts.Length;
    assert counts[..][..cut] == counts[..cut];
    var pLe := SumNat(counts[..cut]) as real / Pow2(|scaled|) as real;
    p := Min(1.0, 2.0 * pLe);
  }
}
