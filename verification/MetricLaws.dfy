/** The ranking metrics in terms of single positions. */
module MetricLaws {
  import opened SetSums
  import opened Reals
  import opened Sorting
  import opened Counting
  import opened Rearrangement
  import opened Metrics
  import opened MetricAgreement

  // ----- nDCG

  /** An id's grade: the one it is listed with, or 0. */
  lemma {:induction false} GradeIs(graded: Grades, id: string)
    requires IsDict(graded)
    ensures forall i | 0 <= i < |graded| && graded[i].0 == id :: Get(graded, id) == graded[i].1
    ensures (forall i | 0 <= i < |graded| :: graded[i].0 != id) ==> Get(graded, id) == 0
  {
    if graded != [] {
      forall i, j | 0 <= i < j < |graded[1..]| ensures graded[1..][i].0 != graded[1..][j].0 {
        assert graded[i + 1].0 != graded[j + 1].0;
      }
      GradeIs(graded[1..], id);
      forall i | 0 <= i < |graded| && graded[i].0 == id ensures Get(graded, id) == graded[i].1 {
        assert i > 0 ==> graded[1..][i - 1] == graded[i];
      }
      assert forall i | 0 <= i < |graded[1..]| :: graded[1..][i] == graded[i + 1];
    }
  }

  /** The gain at a position over the discount there, log(i) standing for log2(i + 2). */
  function Share(gains: seq<real>, log: nat -> real): int -> real
    requires Growing(log)
  {
    (i: int) => if 0 <= i < |gains| && log(i) > 0.0 then gains[i] / log(i) else 0.0
  }

  lemma {:induction false} DcgIsSum(gains: seq<real>, log: nat -> real)
    requires Growing(log)
    ensures Dcg(gains, log) == SetSum(Positions(|gains|), Share(gains, log))
  {
    if gains != [] {
      var n := |gains| - 1;
      DcgIsSum(gains[..n], log);
      PositionsGrow(n);
      SumsAgree(Positions(n), Share(gains[..n], log), Share(gains, log));
      SumGrows(Positions(n), n, Share(gains, log));
    }
  }

  /** The discounted gain of the id at a position. */
  ghost function GainAt(ranked: seq<string>, graded: Grades, log: nat -> real): int -> real
    requires Growing(log)
  {
    (i: int) => if 0 <= i < |ranked| && log(i) > 0.0 then Get(graded, ranked[i]) as real / log(i) else 0.0
  }

  lemma {:induction false} GainsSum(ranked: seq<string>, graded: Grades, k: nat, log: nat -> real)
    requires Growing(log)
    ensures Dcg(Gains(Take(ranked, k), graded), log)
            == SetSum(Positions(if |ranked| < k then |ranked| else k), GainAt(ranked, graded, log))
  {
    var gains := Gains(Take(ranked, k), graded);
    DcgIsSum(gains, log);
    SumsAgree(Positions(|gains|), Share(gains, log), GainAt(ranked, graded, log));
  }

  lemma {:induction false} QuotientTimes(x: real, y: real)
    requires y != 0.0
    ensures Product(x / y, y) == x
  {
  }

  /** nDCG@k times the ideal sum is the sum, over the first k positions, of each id's grade over its discount. */
  lemma {:induction false} NdcgIsShare(ranked: seq<string>, graded: Grades, k: nat, log: nat -> real)
    requires Growing(log)
    ensures var ideal := Ideal(graded, k);
            var most := SetSum(Positions(|ideal|), Share(ideal, log));
            if most == 0.0 then NdcgAtK(ranked, graded, k, log) == 0.0
            else Product(NdcgAtK(ranked, graded, k, log), most)
                 == SetSum(Positions(if |ranked| < k then |ranked| else k), GainAt(ranked, graded, log))
  {
    DcgIsSum(Ideal(graded, k), log);
    GainsSum(ranked, graded, k, log);
    if Dcg(Ideal(graded, k), log) != 0.0 {
      QuotientTimes(Dcg(Gains(Take(ranked, k), graded), log), Dcg(Ideal(graded, k), log));
    }
  }

  // ----- Reciprocal rank and recall

  /** The reciprocal rank is that of the first relevant id, within the cutoff if there is one, or 0 without any. */
  lemma {:induction false} ReciprocalRankIs(ranked: seq<string>, relevant: set<string>, k: nat, first: nat)
    requires first <= |ranked| && forall i | 0 <= i < first :: ranked[i] !in relevant
    requires first < |ranked| ==> ranked[first] in relevant
    ensures MeanReciprocalRank(relevant, ranked) == if first < |ranked| then 1.0 / (first + 1) as real else 0.0
    ensures MrrAtK(ranked, relevant, k) == if first < |ranked| && first < k then 1.0 / (first + 1) as real else 0.0
  {
    ReciprocalOfFirst(ranked, relevant, 1, first);
    ReciprocalOfFirst(Take(ranked, k), relevant, 1, if first <= |Take(ranked, k)| then first else |Take(ranked, k)|);
  }

  ghost function RelevantWithin(relevant: set<string>, ranked: seq<string>, k: nat): set<string> {
    set id | id in relevant && exists i :: 0 <= i < |ranked| && i < k && ranked[i] == id
  }

  lemma {:induction false} FoundIs(relevant: set<string>, ranked: seq<string>, k: nat)
    ensures Found(ranked, relevant, k) == RelevantWithin(relevant, ranked, k)
  {
    forall id ensures id in Found(ranked, relevant, k) <==> id in RelevantWithin(relevant, ranked, k) {
      if id in RelevantWithin(relevant, ranked, k) {
        var i :| 0 <= i < |ranked| && i < k && ranked[i] == id;
        assert Take(ranked, k)[i] == id;
      }
    }
  }

  /** Recall@k is the share of the relevant ids that stand at one of the first k positions. */
  lemma {:induction false} RecallIs(relevant: set<string>, ranked: seq<string>, k: nat)
    ensures if relevant == {} then RecallAtK(relevant, ranked, k) == 0.0
            else Product(RecallAtK(relevant, ranked, k), |relevant| as real)
                 == |RelevantWithin(relevant, ranked, k)| as real
  {
    var found := Found(ranked, relevant, k);
    FoundIs(relevant, ranked, k);
    if relevant != {} {
      QuotientTimes(|found| as real, |relevant| as real);
    }
  }
}
