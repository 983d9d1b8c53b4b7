/** The bootstrap interval in terms of the values drawn. */
module ResampledMeans {
  import opened SetSums
  import opened Reals
  import opened Counting
  import opened Percentile
  import opened Quantiles
  import opened Bootstrap

  /** The value drawn for each position of a resample. */
  function DrawnAt(values: seq<real>, draws: Draws, round: nat): int -> real {
    (i: int) => if 0 <= i < |values| && draws(round, i) < |values| then values[draws(round, i)] else 0.0
  }

  ghost function DrawnSum(values: seq<real>, draws: Draws, round: nat): real {
    SetSum(Positions(|values|), DrawnAt(values, draws, round))
  }

  /** The difference between the average value drawn for the candidate and for the baseline. */
  ghost function DrawnDelta(baseline: seq<real>, candidate: seq<real>, b: Draws, c: Draws, round: nat): real
    requires baseline != [] && candidate != []
  {
    DrawnSum(candidate, c, round) / |candidate| as real - DrawnSum(baseline, b, round) / |baseline| as real
  }

  lemma {:induction false} SampleMean(values: seq<real>, draws: Draws, round: nat)
    requires values != [] && DrawsBelow(draws, |values|)
    ensures Mean(Sample(values, draws, round)) == DrawnSum(values, draws, round) / |values| as real
  {
    var sample := Sample(values, draws, round);
    TotalIsSum(sample);
    SumsAgree(Positions(|values|), Counting.At(sample), DrawnAt(values, draws, round));
  }

  lemma {:induction false} DeltaIs(baseline: seq<real>, candidate: seq<real>, b: Draws, c: Draws, n: nat, round: nat)
    requires baseline != [] && candidate != [] && DrawsBelow(b, |baseline|) && DrawsBelow(c, |candidate|) && round < n
    ensures Deltas(baseline, candidate, b, c, n)[round] == DrawnDelta(baseline, candidate, b, c, round)
  {
    SampleMean(candidate, c, round);
    SampleMean(baseline, b, round);
  }

  /** With one resample both ends are that resample's difference. */
  lemma {:induction false} OneResample(baseline: seq<real>, candidate: seq<real>, confidence: real, b: Draws, c: Draws)
    requires baseline != [] && candidate != [] && |baseline| + |candidate| > 2 && 0.0 < confidence < 1.0
    requires DrawsBelow(b, |baseline|) && DrawsBelow(c, |candidate|)
    ensures var d := DrawnDelta(baseline, candidate, b, c, 0);
            DeltaCi(baseline, candidate, confidence, 1, b, c) == Interval(d, d)
  {
    DeltaIs(baseline, candidate, b, c, 1, 0);
    var deltas := Deltas(baseline, candidate, b, c, 1);
    assert |deltas| == 1 && deltas[0] == DrawnDelta(baseline, candidate, b, c, 0);
  }

  /** The round draws no position twice. */
  ghost predicate OnceEach(draws: Draws, round: nat, n: nat) {
    forall i, j | 0 <= i < n && 0 <= j < n && draws(round, i) == draws(round, j) :: i == j
  }

  /** Drawing every position once adds up all the values. */
  lemma {:induction false} EveryPositionOnce(values: seq<real>, draws: Draws, round: nat)
    requires OnceEach(draws, round, |values|) && DrawsBelow(draws, |values|)
    ensures DrawnSum(values, draws, round) == SetSum(Positions(|values|), Counting.At(values))
  {
    var h := (i: int) => if i >= 0 then draws(round, i) as int else 0;
    forall i | i in Positions(|values|) ensures h(i) in Positions(|values|) {
      assert draws(round, i) < |values|;
    }
    OneToOne(|values|, draws, round, h);
    SumOfPermuted(|values|, h, Counting.At(values), DrawnAt(values, draws, round));
  }

  lemma {:induction false} OneToOne(n: nat, draws: Draws, round: nat, h: int -> int)
    requires OnceEach(draws, round, n) && forall i | 0 <= i < n :: h(i) == draws(round, i)
    ensures forall i, j | i in Positions(n) && j in Positions(n) && h(i) == h(j) :: i == j
  {
    forall i, j | i in Positions(n) && j in Positions(n) && h(i) == h(j) ensures i == j {
      assert draws(round, i) == draws(round, j);
    }
  }

  lemma {:induction false} SumOfPermuted(n: nat, h: int -> int, f: int -> real, g: int -> real)
    requires forall i | i in Positions(n) :: h(i) in Positions(n) && g(i) == f(h(i))
    requires forall i, j | i in Positions(n) && j in Positions(n) && h(i) == h(j) :: i == j
    ensures SetSum(Positions(n), g) == SetSum(Positions(n), f)
  {
    SumOfOneToOne(Positions(n), h, f, g);
  }

  lemma {:induction false} SumOfOneToOne<T>(s: set<T>, h: T -> T, f: T -> real, g: T -> real)
    requires forall i | i in s :: h(i) in s && g(i) == f(h(i))
    requires forall i, j | i in s && j in s && h(i) == h(j) :: i == j
    ensures SetSum(s, g) == SetSum(s, f)
  {
    SumOfImage(s, h, f, g);
    SubsetSize(Image(s, h), s);
  }

  ghost function AverageOf(values: seq<real>): real
    requires values != []
  {
    SetSum(Positions(|values|), Counting.At(values)) / |values| as real
  }

  lemma {:induction false} DeltaOfAverages(baseline: seq<real>, candidate: seq<real>, b: Draws, c: Draws)
    requires baseline != [] && candidate != [] && DrawsBelow(b, |baseline|) && DrawsBelow(c, |candidate|)
    requires OnceEach(b, 0, |baseline|) && OnceEach(c, 0, |candidate|)
    ensures DrawnDelta(baseline, candidate, b, c, 0) == AverageOf(candidate) - AverageOf(baseline)
  {
    EveryPositionOnce(baseline, b, 0);
    EveryPositionOnce(candidate, c, 0);
  }

  /** So one such resample of each side gives the difference of the averages. */
  lemma {:induction false} AllDrawnOnce(baseline: seq<real>, candidate: seq<real>, confidence: real, b: Draws, c: Draws)
    requires baseline != [] && candidate != [] && |baseline| + |candidate| > 2 && 0.0 < confidence < 1.0
    requires DrawsBelow(b, |baseline|) && DrawsBelow(c, |candidate|)
    requires OnceEach(b, 0, |baseline|) && OnceEach(c, 0, |candidate|)
    ensures var d := AverageOf(candidate) - AverageOf(baseline);
            DeltaCi(baseline, candidate, confidence, 1, b, c) == Interval(d, d)
  {
    DeltaOfAverages(baseline, candidate, b, c);
    OneResample(baseline, candidate, confidence, b, c);
  }

  // ----- Several resamples

  ghost function DeltaAt(baseline: seq<real>, candidate: seq<real>, b: Draws, c: Draws): int -> real
    requires baseline != [] && candidate != []
  {
    (round: int) => if round < 0 then 0.0 else DrawnDelta(baseline, candidate, b, c, round)
  }

  ghost function RoundsBelow(f: int -> real, n: nat, v: real): set<int> {
    set i | i in Positions(n) && f(i) < v
  }

  ghost function RoundsAtMost(f: int -> real, n: nat, v: real): set<int> {
    set i | i in Positions(n) && f(i) <= v
  }

  /** This share of all but one of the n differences are at most v, and no more are below it. */
  ghost predicate IsQuantile(f: int -> real, n: nat, v: real, share: real)
    requires n > 0
  {
    var k := Product((n - 1) as real, share);
    |RoundsBelow(f, n, v)| as real < k + 1.0 && |RoundsAtMost(f, n, v)| as real > k
  }

  lemma {:induction false} QuantileOf(deltas: seq<real>, f: int -> real, share: real, p: real)
    requires deltas != [] && (forall i | 0 <= i < |deltas| :: deltas[i] == f(i)) && 0.0 <= share <= 1.0
    requires p == share * 100.0
    ensures SummaryPercentile(deltas, p).Value? && IsQuantile(f, |deltas|, SummaryPercentile(deltas, p).x, share)
  {
    Percent(share);
    PercentileCounts(deltas, p);
    var n, v := |deltas|, SummaryPercentile(deltas, p).x;
    CountsArePositions(deltas, v);
    assert RoundsBelow(f, n, v) == PositionsBelow(deltas, v);
    assert RoundsAtMost(f, n, v) == PositionsBelow(deltas, v) + PositionsOf(deltas, v);
    assert PositionsBelow(deltas, v) !! PositionsOf(deltas, v);
  }

  lemma {:induction false} Shares(confidence: real)
    requires 0.0 < confidence < 1.0
    ensures var alpha := (1.0 - confidence) / 2.0;
            && 0.0 <= alpha <= 1.0 && 0.0 <= (1.0 + confidence) / 2.0 <= 1.0
            && (1.0 - alpha) * 100.0 == (1.0 + confidence) / 2.0 * 100.0
  {
  }

  lemma {:induction false} QuantilePair(deltas: seq<real>, f: int -> real, confidence: real)
    requires deltas != [] && (forall i | 0 <= i < |deltas| :: deltas[i] == f(i)) && 0.0 < confidence < 1.0
    ensures var alpha := (1.0 - confidence) / 2.0;
            var ci := Pair(SummaryPercentile(deltas, alpha * 100.0), SummaryPercentile(deltas, (1.0 - alpha) * 100.0));
            && ci.Interval? && IsQuantile(f, |deltas|, ci.low, (1.0 - confidence) / 2.0)
            && IsQuantile(f, |deltas|, ci.high, (1.0 + confidence) / 2.0)
  {
    var alpha := (1.0 - confidence) / 2.0;
    Shares(confidence);
    QuantileOf(deltas, f, alpha, alpha * 100.0);
    QuantileOf(deltas, f, (1.0 + confidence) / 2.0, (1.0 - alpha) * 100.0);
  }

  lemma {:induction false} DeltasListed(baseline: seq<real>, candidate: seq<real>, b: Draws, c: Draws, n: nat)
    requires baseline != [] && candidate != [] && DrawsBelow(b, |baseline|) && DrawsBelow(c, |candidate|)
    ensures var deltas, f := Deltas(baseline, candidate, b, c, n), DeltaAt(baseline, candidate, b, c);
            |deltas| == n && forall i | 0 <= i < n :: deltas[i] == f(i)
  {
    forall i | 0 <= i < n ensures Deltas(baseline, candidate, b, c, n)[i] == DeltaAt(baseline, candidate, b, c)(i) {
      DeltaIs(baseline, candidate, b, c, n, i);
    }
  }

  /** The ends of the interval leave half of what the confidence leaves out on either side. */
  lemma {:induction false} IntervalIsQuantiles(baseline: seq<real>, candidate: seq<real>, confidence: real, n: nat,
                                               b: Draws, c: Draws)
    requires baseline != [] && candidate != [] && |baseline| + |candidate| > 2 && 0.0 < confidence < 1.0 && n > 0
    requires DrawsBelow(b, |baseline|) && DrawsBelow(c, |candidate|)
    ensures var ci, f := DeltaCi(baseline, candidate, confidence, n, b, c), DeltaAt(baseline, candidate, b, c);
            && ci.Interval? && IsQuantile(f, n, ci.low, (1.0 - confidence) / 2.0)
            && IsQuantile(f, n, ci.high, (1.0 + confidence) / 2.0)
  {
    DeltasListed(baseline, candidate, b, c, n);
    QuantilePair(Deltas(baseline, candidate, b, c, n), DeltaAt(baseline, candidate, b, c), confidence);
  }

  /** The verdict is "improved" exactly when the whole interval is above 0, "regressed" exactly when it is below, and
      "parity" exactly when 0 is in it. */
  lemma {:induction false} VerdictExactly(baseline: seq<real>, candidate: seq<real>, confidence: real, n: nat, b: Draws,
                                          c: Draws)
    ensures var ci := DeltaCi(baseline, candidate, confidence, n, b, c);
            var verdict := ClassifyDelta(ci);
            && (verdict == Improved <==> ci.Interval? && ci.low > 0.0)
            && (verdict == Regressed <==> ci.Interval? && ci.high < 0.0)
            && (verdict == Parity <==> ci.Interval? && ci.low <= 0.0 <= ci.high)
            && (verdict == InsufficientData <==> !ci.Interval?)
  {
    IntervalOrdered(baseline, candidate, confidence, n, b, c);
  }
}
