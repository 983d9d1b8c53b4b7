/** Bootstrap confidence interval for a difference of means, and the verdict it leads to. The random draws are
    arbitrary, so everything here holds for every seed. */
module Bootstrap {
  import opened Sorting
  import opened Percentile
  import opened Reals

  datatype Interval = NoInterval | BadConfidence | Interval(low: real, high: real)

  datatype Verdict = InsufficientData | Improved | Regressed | Parity

  /** Which element each position of each resample picks. */
  type Draws = (nat, nat) -> nat

  ghost predicate DrawsBelow(draws: Draws, n: nat) {
    forall round: nat, i: nat :: draws(round, i) < n
  }

  function Mean(s: seq<real>): real
    requires s != []
  {
    Total(s) / |s| as real
  }

  function Sample(values: seq<real>, draws: Draws, round: nat): seq<real> {
    seq(|values|, i requires 0 <= i < |values| =>
      if draws(round, i) < |values| then values[draws(round, i)] else values[i])
  }

  function Deltas(baseline: seq<real>, candidate: seq<real>, b: Draws, c: Draws, n: nat): seq<real>
    requires baseline != [] && candidate != []
  {
    seq(n, round requires 0 <= round < n => Mean(Sample(candidate, c, round)) - Mean(Sample(baseline, b, round)))
  }

  /** `bootstrap_delta_ci`. */
  method BootstrapDeltaCi(baseline: seq<real>, candidate: seq<real>, confidence: real, resamples: nat, b: Draws,
                          c: Draws)
    returns (ci: Interval)
    requires DrawsBelow(b, |baseline|) || baseline == []
    requires DrawsBelow(c, |candidate|) || candidate == []
    ensures ci == DeltaCi(baseline, candidate, confidence, resamples, b, c)
  {
    if baseline == [] || candidate == [] {
      return NoInterval;
    }
    if |baseline| == 1 && |candidate| == 1 {
      var d := candidate[0] - baseline[0];
      return Interval(d, d);
    }
    if !(0.0 < confidence < 1.0) {
      return BadConfidence;
    }
    var deltas: seq<real> := [];
    for round := 0 to resamples
      invariant deltas == Deltas(baseline, candidate, b, c, round)
    {
      var bSample := seq(|baseline|, i requires 0 <= i < |baseline| => baseline[b(round, i)]);
      var cSample := seq(|candidate|, i requires 0 <= i < |candidate| => candidate[c(round, i)]);
      assert bSample == Sample(baseline, b, round) && cSample == Sample(candidate, c, round);
      deltas := deltas + [Mean(cSample) - Mean(bSample)];
    }
    var alpha := (1.0 - confidence) / 2.0;
    ci := Pair(SummaryPercentile(deltas, alpha * 100.0), SummaryPercentile(deltas, (1.0 - alpha) * 100.0));
  }

  function Pair(low: Percentile.Outcome, high: Percentile.Outcome): Interval {
    if low.Value? && high.Value? then Interval(low.x, high.x) else NoInterval
  }

  /** What the resampling loop amounts to. */
  function DeltaCi(baseline: seq<real>, candidate: seq<real>, confidence: real, resamples: nat, b: Draws,
                   c: Draws): Interval {
    if baseline == [] || candidate == [] then NoInterval
    else if |baseline| == 1 && |candidate| == 1 then Interval(candidate[0] - baseline[0], candidate[0] - baseline[0])
    else if !(0.0 < confidence < 1.0) then BadConfidence
    else
      var deltas, alpha := Deltas(baseline, candidate, b, c, resamples), (1.0 - confidence) / 2.0;
      Pair(SummaryPercentile(deltas, alpha * 100.0), SummaryPercentile(deltas, (1.0 - alpha) * 100.0))
  }

  function ClassifyDelta(ci: Interval): Verdict {
    match ci
    case Interval(low, high) => if low > 0.0 then Improved else if high < 0.0 then Regressed else Parity
    case _ => InsufficientData
  }

  // ----- Bounds

  lemma {:induction false} TotalBounds(s: seq<real>, lo: real, hi: real)
    requires Between(s, lo, hi)
    ensures Product(|s| as real, lo) <= Total(s) <= Product(|s| as real, hi)
  {
    if s != [] {
      TotalBounds(s[..|s| - 1], lo, hi);
    }
  }

  lemma MeanBounds(s: seq<real>, lo: real, hi: real)
    requires s != [] && Between(s, lo, hi)
    ensures lo <= Mean(s) <= hi
  {
    TotalBounds(s, lo, hi);
    Quotient(Total(s), |s| as real, lo, hi);
  }

  lemma Quotient(t: real, n: real, lo: real, hi: real)
    requires n > 0.0 && Product(n, lo) <= t <= Product(n, hi)
    ensures lo <= t / n <= hi
  {
    assert t == n * (t / n);
  }

  lemma DeltaBounds(baseline: seq<real>, candidate: seq<real>, b: Draws, c: Draws, n: nat,
                    bLo: real, bHi: real, cLo: real, cHi: real)
    requires baseline != [] && candidate != [] && Between(baseline, bLo, bHi) && Between(candidate, cLo, cHi)
    ensures Between(Deltas(baseline, candidate, b, c, n), cLo - bHi, cHi - bLo)
  {
    forall round | 0 <= round < n
      ensures cLo - bHi <= Deltas(baseline, candidate, b, c, n)[round] <= cHi - bLo
    {
      MeanBounds(Sample(baseline, b, round), bLo, bHi);
      MeanBounds(Sample(candidate, c, round), cLo, cHi);
    }
  }

  lemma IntervalOrdered(baseline: seq<real>, candidate: seq<real>, confidence: real, resamples: nat, b: Draws, c: Draws)
    ensures var ci := DeltaCi(baseline, candidate, confidence, resamples, b, c);
            ci.Interval? ==> ci.low <= ci.high
  {
    if baseline != [] && candidate != [] && 0.0 < confidence < 1.0 && resamples > 0 {
      var alpha := (1.0 - confidence) / 2.0;
      PercentileMonotone(Deltas(baseline, candidate, b, c, resamples), alpha * 100.0, (1.0 - alpha) * 100.0);
    }
  }

  /** Whatever is drawn, the interval is the right way round and inside what any resample could give. */
  lemma IntervalBounds(baseline: seq<real>, candidate: seq<real>, confidence: real, resamples: nat, b: Draws, c: Draws,
                       bLo: real, bHi: real, cLo: real, cHi: real)
    requires Between(baseline, bLo, bHi) && Between(candidate, cLo, cHi)
    ensures var ci := DeltaCi(baseline, candidate, confidence, resamples, b, c);
            ci.Interval? ==> cLo - bHi <= ci.low <= ci.high <= cHi - bLo
  {
    if baseline != [] && candidate != [] && !(|baseline| == 1 && |candidate| == 1) && 0.0 < confidence < 1.0
      && resamples > 0 {
      var deltas, alpha := Deltas(baseline, candidate, b, c, resamples), (1.0 - confidence) / 2.0;
      DeltaBounds(baseline, candidate, b, c, resamples, bLo, bHi, cLo, cHi);
      PercentileBounds(deltas, alpha * 100.0, cLo - bHi, cHi - bLo);
      PercentileBounds(deltas, (1.0 - alpha) * 100.0, cLo - bHi, cHi - bLo);
      IntervalOrdered(baseline, candidate, confidence, resamples, b, c);
    }
  }

  /** There is an interval exactly when both sides have data, the confidence makes sense and something was resampled;
      one value on each side needs neither of the last two. */
  lemma IntervalExists(baseline: seq<real>, candidate: seq<real>, confidence: real, resamples: nat, b: Draws, c: Draws)
    ensures DeltaCi(baseline, candidate, confidence, resamples, b, c).Interval?
            <==> baseline != [] && candidate != []
                 && ((|baseline| == 1 && |candidate| == 1) || (0.0 < confidence < 1.0 && resamples > 0))
  {
    if baseline != [] && candidate != [] && 0.0 < confidence < 1.0 && resamples > 0 {
      var deltas, alpha := Deltas(baseline, candidate, b, c, resamples), (1.0 - confidence) / 2.0;
      SummaryIsCurve(deltas, alpha * 100.0);
      SummaryIsCurve(deltas, (1.0 - alpha) * 100.0);
    }
  }

  /** When every candidate score beats every baseline score the verdict is "improved", and the other way round
      "regressed", whatever was drawn. */
  lemma SeparatedSamplesDecide(baseline: seq<real>, candidate: seq<real>, confidence: real, resamples: nat,
                               b: Draws, c: Draws, bLo: real, bHi: real, cLo: real, cHi: real)
    requires Between(baseline, bLo, bHi) && Between(candidate, cLo, cHi)
    requires DeltaCi(baseline, candidate, confidence, resamples, b, c).Interval?
    ensures cLo > bHi ==> ClassifyDelta(DeltaCi(baseline, candidate, confidence, resamples, b, c)) == Improved
    ensures cHi < bLo ==> ClassifyDelta(DeltaCi(baseline, candidate, confidence, resamples, b, c)) == Regressed
  {
    IntervalBounds(baseline, candidate, confidence, resamples, b, c, bLo, bHi, cLo, cHi);
  }

  // ----- Comparing the other way round

  function Negated(s: seq<real>): seq<real> {
    seq(|s|, i requires 0 <= i < |s| => -s[i])
  }

  function Mirrored(s: seq<real>): seq<real> {
    seq(|s|, i requires 0 <= i < |s| => -s[|s| - 1 - i])
  }

  lemma {:induction false} NegatedPermutes(a: seq<real>, b: seq<real>)
    requires multiset(a) == multiset(b)
    ensures multiset(Negated(a)) == multiset(Negated(b))
  {
    if a == [] {
      assert |multiset(b)| == 0;
    } else {
      var i := DropHead(a, b);
      NegatedPermutes(a[1..], b[..i] + b[i + 1..]);
      assert Negated(a) == [-a[0]] + Negated(a[1..]);
      NegatedDrop(b, i);
    }
  }

  lemma {:induction false} NegatedDrop(b: seq<real>, i: nat)
    requires i < |b|
    ensures multiset(Negated(b)) == multiset{-b[i]} + multiset(Negated(b[..i] + b[i + 1..]))
  {
    RemoveOne(Negated(b), i);
    assert Negated(b)[..i] + Negated(b)[i + 1..] == Negated(b[..i] + b[i + 1..]);
    assert Negated(b)[i] in multiset(Negated(b));
  }

  lemma {:induction false} MirroredPermutes(s: seq<real>)
    ensures multiset(Mirrored(s)) == multiset(Negated(s))
  {
    if s != [] {
      var n := |s| - 1;
      MirroredPermutes(s[..n]);
      assert Mirrored(s) == [-s[n]] + Mirrored(s[..n]);
      assert Negated(s) == Negated(s[..n]) + [-s[n]];
    }
  }

  lemma SortedMirrors(values: seq<real>)
    ensures Sorted(Negated(values)) == Mirrored(Sorted(values))
  {
    var s := Sorted(values);
    SortedIsAscending(values);
    SortedIsAscending(Negated(values));
    NegatedPermutes(s, values);
    MirroredPermutes(s);
    AscendingIsOrder();
    assert SortedBy(Ascending(), Mirrored(s));
    assert SortedBy(Ascending(), Sorted(Negated(values)));
    SortedIsUnique(Sorted(Negated(values)), Mirrored(s), Ascending());
  }

  lemma CellMirrors(w: real, x: real, y: real)
    ensures -y + Product(1.0 - w, -x - (-y)) == -(x + Product(w, y - x))
  {
  }

  lemma CurveMirrors(s: seq<real>, k: real, k': real)
    requires 0.0 <= k <= (|s| - 1) as real && k' == (|s| - 1) as real - k
    ensures Curve(Mirrored(s), k') == -Curve(s, k)
  {
    var f, f' := Floor(k), Floor(k');
    assert f as real <= k < f as real + 1.0;
    if k == f as real {
      assert f' == |s| - 1 - f;
    } else {
      assert f' == |s| - 2 - f;
      CellMirrors(k - f as real, s[f], s[f + 1]);
    }
  }

  lemma PositionMirrors(n: nat, p: real)
    requires n >= 1
    ensures Position(n, 100.0 - p) == (n - 1) as real - Position(n, p)
  {
    assert (n - 1) as real * ((100.0 - p) / 100.0) == (n - 1) as real - (n - 1) as real * (p / 100.0);
  }

  lemma PercentileMirrors(values: seq<real>, p: real)
    requires values != [] && 0.0 <= p <= 100.0
    ensures SummaryPercentile(values, p).Value? && SummaryPercentile(Negated(values), 100.0 - p).Value?
    ensures SummaryPercentile(Negated(values), 100.0 - p).x == -SummaryPercentile(values, p).x
  {
    SummaryIsCurve(values, p);
    SummaryIsCurve(Negated(values), 100.0 - p);
    SortedMirrors(values);
    PositionMirrors(|values|, p);
    CurveMirrors(Sorted(values), Position(|values|, p), Position(|values|, 100.0 - p));
  }

  function Opposite(v: Verdict): Verdict {
    match v
    case Improved => Regressed
    case Regressed => Improved
    case _ => v
  }

  /** Exchanging baseline and candidate, with the same draws on each side, mirrors the interval and reverses the
      verdict. */
  lemma ComparisonIsAntisymmetric(baseline: seq<real>, candidate: seq<real>, confidence: real, resamples: nat,
                                  b: Draws, c: Draws)
    ensures var ci := DeltaCi(baseline, candidate, confidence, resamples, b, c);
            var back := DeltaCi(candidate, baseline, confidence, resamples, c, b);
            && (ci.Interval? <==> back.Interval?)
            && (ci.Interval? ==> back == Interval(-ci.high, -ci.low))
            && ClassifyDelta(back) == Opposite(ClassifyDelta(ci))
  {
    IntervalOrdered(baseline, candidate, confidence, resamples, b, c);
    IntervalExists(baseline, candidate, confidence, resamples, b, c);
    IntervalExists(candidate, baseline, confidence, resamples, c, b);
    if baseline != [] && candidate != [] && 0.0 < confidence < 1.0 && resamples > 0 {
      var deltas, alpha := Deltas(baseline, candidate, b, c, resamples), (1.0 - confidence) / 2.0;
      assert Deltas(candidate, baseline, c, b, resamples) == Negated(deltas);
      PercentileMirrors(deltas, alpha * 100.0);
      PercentileMirrors(deltas, (1.0 - alpha) * 100.0);
      assert 100.0 - alpha * 100.0 == (1.0 - alpha) * 100.0;
    }
  }
}
