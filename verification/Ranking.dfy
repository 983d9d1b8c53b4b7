/** Tie-averaged ranks of the paired Wilcoxon test. */
module Ranking {
  import opened Sorting

  // ----- Specification: a value's rank depends only on how many values lie below it and how many equal it.

  function Less(s: seq<real>, v: real): nat {
    if s == [] then 0 else (if s[0] < v then 1 else 0) + Less(s[1..], v)
  }

  function Equal(s: seq<real>, v: real): nat {
    if s == [] then 0 else (if s[0] == v then 1 else 0) + Equal(s[1..], v)
  }

  function AvgRank(s: seq<real>, v: real): real {
    Less(s, v) as real + (Equal(s, v) + 1) as real / 2.0
  }

  function RanksOf(s: seq<real>): seq<real> {
    seq(|s|, i requires 0 <= i < |s| => AvgRank(s, s[i]))
  }

  // ----- Counting

  lemma {:induction false} CountsSplit(a: seq<real>, b: seq<real>, v: real)
    ensures Less(a + b, v) == Less(a, v) + Less(b, v)
    ensures Equal(a + b, v) == Equal(a, v) + Equal(b, v)
  {
    if a == [] {
      assert a + b == b;
    } else {
      assert (a + b)[1..] == a[1..] + b;
      CountsSplit(a[1..], b, v);
    }
  }

  lemma CountsRemoveOne(s: seq<real>, i: nat, v: real)
    requires i < |s|
    ensures Less(s, v) == Less(s[..i] + s[i + 1..], v) + Less([s[i]], v)
    ensures Equal(s, v) == Equal(s[..i] + s[i + 1..], v) + Equal([s[i]], v)
  {
    CountsSplit(s[..i], s[i + 1..], v);
    CountsSplit([s[i]], s[i + 1..], v);
    CountsSplit(s[..i], [s[i]] + s[i + 1..], v);
    assert s == s[..i] + ([s[i]] + s[i + 1..]);
  }

  lemma {:induction false} CountsPermute(a: seq<real>, b: seq<real>, v: real)
    requires multiset(a) == multiset(b)
    ensures Less(a, v) == Less(b, v) && Equal(a, v) == Equal(b, v)
  {
    if a == [] {
      assert |multiset(b)| == 0;
    } else {
      var i := DropHead(a, b);
      CountsPermute(a[1..], b[..i] + b[i + 1..], v);
      CountsRemoveOne(b, i, v);
      CountsRemoveOne(a, 0, v);
      assert a[..0] + a[1..] == a[1..] && [b[i]] == [a[0]];
    }
  }

  lemma {:induction false} CountsOfUniform(s: seq<real>, v: real)
    ensures (forall p | 0 <= p < |s| :: s[p] < v) ==> Less(s, v) == |s| && Equal(s, v) == 0
    ensures (forall p | 0 <= p < |s| :: s[p] == v) ==> Less(s, v) == 0 && Equal(s, v) == |s|
    ensures (forall p | 0 <= p < |s| :: s[p] > v) ==> Less(s, v) == 0 && Equal(s, v) == 0
  {
    if s != [] {
      CountsOfUniform(s[1..], v);
    }
  }

  lemma ThreeRuns(lo: seq<real>, mid: seq<real>, hi: seq<real>, v: real)
    requires forall p | 0 <= p < |lo| :: lo[p] < v
    requires forall p | 0 <= p < |mid| :: mid[p] == v
    requires forall p | 0 <= p < |hi| :: hi[p] > v
    ensures Less(lo + (mid + hi), v) == |lo| && Equal(lo + (mid + hi), v) == |mid|
  {
    CountsSplit(lo, mid + hi, v);
    CountsSplit(mid, hi, v);
    CountsOfUniform(lo, v);
    CountsOfUniform(mid, v);
    CountsOfUniform(hi, v);
  }

  /** In ascending order, a value occupying exactly positions i..j has i values below it. */
  lemma RunCounts(s: seq<real>, sv: seq<real>, i: nat, j: nat, v: real)
    requires multiset(s) == multiset(sv) && i <= j < |sv|
    requires forall p | 0 <= p < i :: sv[p] < v
    requires forall p | i <= p <= j :: sv[p] == v
    requires forall p | j < p < |sv| :: sv[p] > v
    ensures Less(s, v) == i && Equal(s, v) == j + 1 - i
  {
    CountsPermute(s, sv, v);
    ThreeRuns(sv[..i], sv[i..j + 1], sv[j + 1..], v);
    assert sv == sv[..i] + (sv[i..j + 1] + sv[j + 1..]);
  }

  // ----- The ascending order of positions

  function ByValue(): ((real, int), (real, int)) -> bool {
    (a: (real, int), b: (real, int)) => a.0 <= b.0
  }

  function Keyed(values: seq<real>): seq<(real, int)> {
    seq(|values|, i requires 0 <= i < |values| => (values[i], i))
  }

  function Values(ps: seq<(real, int)>): seq<real> {
    seq(|ps|, i requires 0 <= i < |ps| => ps[i].0)
  }

  lemma {:induction false} InsertValues(x: (real, int), ps: seq<(real, int)>)
    ensures multiset(Values(Insert(x, ps, ByValue()))) == multiset{x.0} + multiset(Values(ps))
  {
    if ps == [] || ByValue()(x, ps[0]) {
      assert Values([x] + ps) == [x.0] + Values(ps);
    } else {
      InsertValues(x, ps[1..]);
      assert Values(ps) == [ps[0].0] + Values(ps[1..]);
      assert Values(Insert(x, ps, ByValue())) == [ps[0].0] + Values(Insert(x, ps[1..], ByValue()));
    }
  }

  lemma {:induction false} SortValues(ps: seq<(real, int)>)
    ensures multiset(Values(Sort(ps, ByValue()))) == multiset(Values(ps))
  {
    if ps != [] {
      SortValues(ps[1..]);
      InsertValues(ps[0], Sort(ps[1..], ByValue()));
      assert Values(ps) == [ps[0].0] + Values(ps[1..]);
    }
  }

  ghost predicate Covers(ps: seq<(real, int)>, i: int) {
    exists p :: 0 <= p < |ps| && ps[p].1 == i
  }

  /** What sorting the positions by value gives: each position once, values ascending. */
  lemma OrderFacts(values: seq<real>, ps: seq<(real, int)>)
    requires ps == Sort(Keyed(values), ByValue())
    ensures |ps| == |values| && multiset(Values(ps)) == multiset(values)
    ensures forall p | 0 <= p < |ps| :: 0 <= ps[p].1 < |values| && values[ps[p].1] == ps[p].0
    ensures forall p, q | 0 <= p < q < |ps| :: ps[p].0 <= ps[q].0 && ps[p].1 != ps[q].1
    ensures forall i | 0 <= i < |values| :: Covers(ps, i)
  {
    var ks := Keyed(values);
    SortIsPermutation(ks, ByValue());
    SortIsSorted(ks, ByValue());
    SortValues(ks);
    assert Values(ks) == values;
    forall p | 0 <= p < |ps| ensures 0 <= ps[p].1 < |values| && values[ps[p].1] == ps[p].0 {
      assert ps[p] in multiset(ks);
    }
    forall i | 0 <= i < |values| ensures Covers(ps, i) {
      assert ks[i] in multiset(ps);
    }
    forall p, q | 0 <= p < q < |ps| ensures ps[p].1 != ps[q].1 {
      if ps[p].1 == ps[q].1 {
        OccursTwice(ps, p, q);
        NoKeyTwice(values, ps[p]);
      }
    }
  }

  lemma OccursTwice<T>(s: seq<T>, p: nat, q: nat)
    requires p < q < |s| && s[p] == s[q]
    ensures multiset(s)[s[p]] >= 2
  {
    assert s == s[..p] + [s[p]] + s[p + 1..q] + [s[q]] + s[q + 1..];
  }

  lemma {:induction false} NoKeyTwice(values: seq<real>, k: (real, int))
    ensures multiset(Keyed(values))[k] <= 1
    ensures k.1 >= |values| ==> multiset(Keyed(values))[k] == 0
  {
    if values != [] {
      var n := |values| - 1;
      NoKeyTwice(values[..n], k);
      assert Keyed(values) == Keyed(values[..n]) + [(values[n], n)];
    }
  }

  // ----- The algorithm

  ghost predicate IsOrder(values: seq<real>, order: seq<int>, sv: seq<real>) {
    && |order| == |sv| == |values| && multiset(sv) == multiset(values)
    && (forall p | 0 <= p < |order| :: 0 <= order[p] < |values| && values[order[p]] == sv[p])
    && (forall p, q | 0 <= p < q < |order| :: sv[p] <= sv[q] && order[p] != order[q])
  }

  /** `sorted(range(len(values)), key=...)`: every position once, values ascending. */
  method SortedPositions(values: seq<real>) returns (order: seq<int>, ghost sv: seq<real>)
    ensures IsOrder(values, order, sv)
    ensures forall i | 0 <= i < |values| :: i in order
  {
    var ps := Sort(Keyed(values), ByValue());
    OrderFacts(values, ps);
    order := seq(|ps|, p requires 0 <= p < |ps| => ps[p].1);
    sv := Values(ps);
    forall i | 0 <= i < |values| ensures i in order {
      assert Covers(ps, i);
      var p :| 0 <= p < |ps| && ps[p].1 == i;
      assert order[p] == i;
    }
  }

  /** The run of equal values found from position i on, and the rank its members get. */
  lemma RunRank(values: seq<real>, order: seq<int>, sv: seq<real>, i: nat, j: nat)
    requires IsOrder(values, order, sv) && i <= j < |sv|
    requires i > 0 ==> sv[i - 1] < sv[i]
    requires forall p | i <= p <= j :: sv[p] == sv[i]
    requires j + 1 < |sv| ==> sv[j + 1] != sv[i]
    ensures AvgRank(values, sv[i]) == (i + j + 2) as real / 2.0
  {
    RunCounts(values, sv, i, j, sv[i]);
  }

  /** The nested loops give every position its closed-form rank. */
  method AverageRanks(values: seq<real>) returns (ranks: seq<real>)
    ensures ranks == RanksOf(values)
  {
    var order, sv := SortedPositions(values);
    var a := new real[|values|](_ => 0.0);
    var i := 0;
    while i < |order|
      invariant 0 <= i <= |order|
      invariant 0 < i < |order| ==> sv[i - 1] < sv[i]
      invariant forall p | 0 <= p < i :: a[order[p]] == AvgRank(values, sv[p])
    {
      var j := i;
      while j + 1 < |order| && values[order[j + 1]] == values[order[i]]
        invariant i <= j < |order|
        invariant forall p | i <= p <= j :: sv[p] == sv[i]
      {
        j := j + 1;
      }
      var avg := (i + j + 2) as real / 2.0;
      RunRank(values, order, sv, i, j);
      for k := i to j + 1
        invariant forall p | 0 <= p < i :: a[order[p]] == AvgRank(values, sv[p])
        invariant forall p | i <= p < k :: a[order[p]] == avg
      {
        a[order[k]] := avg;
      }
      i := j + 1;
    }
    ranks := a[..];
    forall q | 0 <= q < |values| ensures ranks[q] == AvgRank(values, values[q]) {
      assert q in order;
      var p :| 0 <= p < |order| && order[p] == q;
      assert a[order[p]] == AvgRank(values, sv[p]);
    }
  }
}
