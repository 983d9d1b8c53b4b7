/** The separately written metrics of the three benchmarks agree with one another. */
module MetricAgreement {
  import opened SetSums
  import opened Sorting
  import opened Rearrangement
  import opened Metrics

  // ----- Binary nDCG

  function Hits(ids: seq<string>, relevant: set<string>): seq<real> {
    seq(|ids|, i requires 0 <= i < |ids| => if ids[i] in relevant then 1.0 else 0.0)
  }

  function Ones(n: nat): seq<real> {
    seq(n, i => 1.0)
  }

  /** `ndcg_at_k` of the embedding benchmark, with its own accumulator loop. */
  method BinaryNdcgAtK(relevant: set<string>, ranked: seq<string>, k: nat, log: nat -> real) returns (v: real)
    requires Growing(log)
    ensures var idcg := Dcg(Ones(if |relevant| <= k then |relevant| else k), log);
            v == if idcg > 0.0 then Dcg(Hits(Take(ranked, k), relevant), log) / idcg else 0.0
  {
    var top := Take(ranked, k);
    var dcg := 0.0;
    for i := 0 to |top|
      invariant dcg == Dcg(Hits(top, relevant)[..i], log)
    {
      assert Hits(top, relevant)[..i + 1][..i] == Hits(top, relevant)[..i];
      if top[i] in relevant {
        dcg := dcg + 1.0 / log(i);
      }
    }
    assert Hits(top, relevant)[..|top|] == Hits(top, relevant);
    var idealHits := if |relevant| <= k then |relevant| else k;
    var idcg := Dcg(Ones(idealHits), log);
    v := if idcg > 0.0 then dcg / idcg else 0.0;
  }

  ghost predicate AllOnes(graded: Grades, relevant: set<string>) {
    && IsDict(graded)
    && (forall i | 0 <= i < |graded| :: graded[i].1 == 1)
    && relevant == set i | 0 <= i < |graded| :: graded[i].0
  }

  lemma {:induction false} OnesGet(graded: Grades, id: string)
    requires forall i | 0 <= i < |graded| :: graded[i].1 == 1
    ensures Get(graded, id) == if exists i :: 0 <= i < |graded| && graded[i].0 == id then 1 else 0
  {
    if graded != [] {
      OnesGet(graded[1..], id);
      if graded[0].0 != id && exists i :: 0 <= i < |graded| && graded[i].0 == id {
        var i :| 0 <= i < |graded| && graded[i].0 == id;
        assert graded[1..][i - 1].0 == id;
      }
    }
  }

  lemma {:induction false} OnesGrades(graded: Grades)
    requires forall i | 0 <= i < |graded| :: graded[i].1 == 1
    ensures PositiveGrades(graded) == Ones(|graded|)
  {
    if graded != [] {
      OnesGrades(graded[1..]);
    }
  }

  lemma {:induction false} SortOnes(n: nat)
    ensures Sort(Ones(n), Descending()) == Ones(n)
  {
    if n > 0 {
      assert Ones(n)[1..] == Ones(n - 1);
      SortOnes(n - 1);
    }
  }

  lemma {:induction false} KeysCount(graded: Grades, relevant: set<string>)
    requires IsDict(graded) && relevant == set i | 0 <= i < |graded| :: graded[i].0
    ensures |relevant| == |graded|
  {
    if graded != [] {
      var rest := set i | 0 <= i < |graded[1..]| :: graded[1..][i].0;
      KeysCount(graded[1..], rest);
      forall id ensures id in relevant <==> id == graded[0].0 || id in rest {
        if id in relevant && id != graded[0].0 {
          var i :| 0 <= i < |graded| && graded[i].0 == id;
          assert graded[1..][i - 1].0 == id;
        }
      }
      assert relevant == rest + {graded[0].0};
    }
  }

  /** With every relevant id graded 1, the graded nDCG and the binary one are the same number. */
  lemma GradedGeneralisesBinary(graded: Grades, relevant: set<string>, ranked: seq<string>, k: nat, log: nat -> real)
    requires Growing(log) && AllOnes(graded, relevant)
    ensures var idcg := Dcg(Ones(if |relevant| <= k then |relevant| else k), log);
            NdcgAtK(ranked, graded, k, log)
            == if idcg > 0.0 then Dcg(Hits(Take(ranked, k), relevant), log) / idcg else 0.0
  {
    var top := Take(ranked, k);
    forall i | 0 <= i < |top| ensures Get(graded, top[i]) as real == Hits(top, relevant)[i] {
      OnesGet(graded, top[i]);
    }
    assert Gains(top, graded) == Hits(top, relevant);
    OnesGrades(graded);
    SortOnes(|graded|);
    KeysCount(graded, relevant);
    var n := if |relevant| <= k then |relevant| else k;
    assert Ideal(graded, k) == Ones(n);
    DcgOfNonNegative(Ones(n), log);
  }

  // ----- Reciprocal ranks and hits

  function ReciprocalRank(ranked: seq<string>, relevant: set<string>, rank: nat): real
    requires rank >= 1
  {
    if ranked == [] then 0.0
    else if ranked[0] in relevant then 1.0 / rank as real
    else ReciprocalRank(ranked[1..], relevant, rank + 1)
  }

  /** `_mrr_at_k`. */
  function MrrAtK(ranked: seq<string>, relevant: set<string>, k: nat): real {
    ReciprocalRank(Take(ranked, k), relevant, 1)
  }

  /** `mean_reciprocal_rank`. */
  function MeanReciprocalRank(relevant: set<string>, ranked: seq<string>): real {
    ReciprocalRank(ranked, relevant, 1)
  }

  datatype FixtureScore = FixtureScore(mrr: real, hitAt1: nat, hitAt3: nat, hitAt5: nat)

  ghost predicate HitWithin(ranked: seq<string>, relevant: set<string>, k: nat) {
    exists i :: 0 <= i < |ranked| && i < k && ranked[i] in relevant
  }

  lemma {:induction false} ReciprocalOfFirst(ranked: seq<string>, relevant: set<string>, rank: nat, first: nat)
    requires rank >= 1 && first <= |ranked|
    requires forall i | 0 <= i < first :: ranked[i] !in relevant
    requires first < |ranked| ==> ranked[first] in relevant
    ensures ReciprocalRank(ranked, relevant, rank) == if first < |ranked| then 1.0 / (rank + first) as real else 0.0
  {
    if first > 0 {
      ReciprocalOfFirst(ranked[1..], relevant, rank + 1, first - 1);
    }
  }

  /** `score_results`: one pass that keeps the first reciprocal rank and three hit flags. */
  method ScoreResults(ranked: seq<string>, relevant: set<string>) returns (score: FixtureScore)
    ensures score.mrr == MeanReciprocalRank(relevant, ranked)
    ensures score.hitAt1 == (if HitWithin(ranked, relevant, 1) then 1 else 0)
    ensures score.hitAt3 == (if HitWithin(ranked, relevant, 3) then 1 else 0)
    ensures score.hitAt5 == (if HitWithin(ranked, relevant, 5) then 1 else 0)
  {
    var mrr, hit1, hit3, hit5 := 0.0, 0, 0, 0;
    ghost var first := 0;
    for i := 0 to |ranked|
      invariant 0 <= first <= i && forall j | 0 <= j < first :: ranked[j] !in relevant
      invariant first < i ==> ranked[first] in relevant
      invariant mrr == if first < i then 1.0 / (first + 1) as real else 0.0
      invariant hit1 == if first < i && first < 1 then 1 else 0
      invariant hit3 == if first < i && first < 3 then 1 else 0
      invariant hit5 == if first < i && first < 5 then 1 else 0
    {
      if ranked[i] in relevant {
        if mrr == 0.0 {
          mrr := 1.0 / (i + 1) as real;
        }
        hit1 := if i + 1 <= 1 then 1 else hit1;
        hit3 := if i + 1 <= 3 then 1 else hit3;
        hit5 := if i + 1 <= 5 then 1 else hit5;
      } else if first == i {
        first := i + 1;
      }
    }
    ReciprocalOfFirst(ranked, relevant, 1, first);
    score := FixtureScore(mrr, hit1, hit3, hit5);
  }

  lemma {:induction false} FirstHit(ranked: seq<string>, relevant: set<string>) returns (first: nat)
    ensures first <= |ranked| && forall i | 0 <= i < first :: ranked[i] !in relevant
    ensures first < |ranked| ==> ranked[first] in relevant
  {
    if ranked == [] || ranked[0] in relevant {
      first := 0;
    } else {
      first := FirstHit(ranked[1..], relevant);
      first := first + 1;
    }
  }

  lemma ReciprocalOrder(a: nat, b: nat)
    requires a >= 1 && b >= 1
    ensures 1.0 / a as real >= 1.0 / b as real <==> a <= b
    ensures 1.0 / a as real > 0.0
  {
    assert 1.0 / a as real - 1.0 / b as real == (b - a) as real / (a as real * b as real);
  }

  /** Hit@k, a positive MRR@k and an MRR of at least 1/k are one and the same thing. */
  lemma HitIsReciprocalRank(ranked: seq<string>, relevant: set<string>, k: nat)
    requires k >= 1
    ensures HitWithin(ranked, relevant, k) <==> MrrAtK(ranked, relevant, k) > 0.0
    ensures HitWithin(ranked, relevant, k) <==> MeanReciprocalRank(relevant, ranked) >= 1.0 / k as real
    ensures HitWithin(ranked, relevant, k) ==> MrrAtK(ranked, relevant, k) == MeanReciprocalRank(relevant, ranked)
  {
    var first := FirstHit(ranked, relevant);
    ReciprocalOfFirst(ranked, relevant, 1, first);
    ReciprocalOrder(first + 1, k);
    ReciprocalOrder(k, k);
    ReciprocalOfFirst(Take(ranked, k), relevant, 1, if first <= |Take(ranked, k)| then first else |Take(ranked, k)|);
  }

  function Found(ranked: seq<string>, relevant: set<string>, k: nat): set<string> {
    (set i | 0 <= i < |Take(ranked, k)| :: Take(ranked, k)[i]) * relevant
  }

  /** `recall_at_k`. */
  function RecallAtK(relevant: set<string>, ranked: seq<string>, k: nat): real {
    if relevant == {} then 0.0 else |Found(ranked, relevant, k)| as real / |relevant| as real
  }

  lemma {:induction false} ShareOrder(a: nat, b: nat, n: nat)
    requires n > 0
    ensures a as real / n as real >= b as real / n as real <==> a >= b
    ensures n as real / n as real == 1.0 && 0.0 / n as real == 0.0
  {
    assert a as real / n as real - b as real / n as real == (a - b) as real / n as real;
  }

  /** Recall@k is a share that grows with the cutoff, is positive exactly on a hit, hence exactly when MRR@k is, and is
      1 exactly when every relevant id is among the top k. */
  lemma {:induction false} RecallFacts(relevant: set<string>, ranked: seq<string>, k: nat, wider: nat)
    requires relevant != {} && 1 <= k <= wider
    ensures 0.0 <= RecallAtK(relevant, ranked, k) <= RecallAtK(relevant, ranked, wider) <= 1.0
    ensures RecallAtK(relevant, ranked, k) > 0.0 <==> MrrAtK(ranked, relevant, k) > 0.0
    ensures RecallAtK(relevant, ranked, k) == 1.0 <==> forall id | id in relevant :: id in Take(ranked, k)
  {
    var found, more := Found(ranked, relevant, k), Found(ranked, relevant, wider);
    forall id | id in found ensures id in more {
      var i :| 0 <= i < |Take(ranked, k)| && Take(ranked, k)[i] == id;
      assert Take(ranked, wider)[i] == id;
    }
    SubsetSize(found, more);
    SubsetSize(found, relevant);
    SubsetSize(more, relevant);
    ShareOrder(|more|, |found|, |relevant|);
    ShareOrder(|relevant|, |more|, |relevant|);
    ShareOrder(|found|, |relevant|, |relevant|);
    ShareOrder(0, |found|, |relevant|);
    HitIsReciprocalRank(ranked, relevant, k);
    HitIsFound(ranked, relevant, k);
  }

  lemma {:induction false} HitIsFound(ranked: seq<string>, relevant: set<string>, k: nat)
    ensures HitWithin(ranked, relevant, k) <==> |Found(ranked, relevant, k)| > 0
  {
    if i :| 0 <= i < |ranked| && i < k && ranked[i] in relevant {
      assert Take(ranked, k)[i] == ranked[i];
      assert ranked[i] in Found(ranked, relevant, k);
    }
    if id :| id in Found(ranked, relevant, k) {
      var i :| 0 <= i < |Take(ranked, k)| && Take(ranked, k)[i] == id;
      assert ranked[i] in relevant;
    }
  }
}
