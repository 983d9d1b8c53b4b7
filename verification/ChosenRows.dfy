/** What the model statistics say of the telemetry rows themselves: which rows count, and what is made of them. */
module ChosenRows {
  import opened Options
  import opened SetSums
  import opened Reals
  import opened Sorting
  import opened StatKinds
  import opened Counting
  import opened Ranking
  import opened ModelStats
  import opened StatRows
  import Percentile
  import Quantiles

  /** The rows of a model and category that pass the filters and are not older than the cutoff. */
  ghost predicate Counts(row: Row, key: Key, model: Option<string>, category: Option<string>, cutoff: Option<int>) {
    && row.key == key && (model.Some? ==> key.model == model.value)
    && (category.Some? ==> key.category == category.value) && (cutoff.Some? ==> row.at >= cutoff.value)
  }

  ghost function Chosen(rows: seq<Row>, key: Key, model: Option<string>, category: Option<string>, cutoff: Option<int>)
    : set<int>
  {
    set i | 0 <= i < |rows| && Counts(rows[i], key, model, category, cutoff)
  }

  ghost function ValueAt(rows: seq<Row>, f: Row -> real): int -> real {
    (i: int) => if 0 <= i < |rows| then f(rows[i]) else 0.0
  }

  function Group(rows: seq<Row>, key: Key, model: Option<string>, category: Option<string>,
                 cutoff: Option<int>): seq<Row> {
    Select(Filter(rows, Wanted(model, category, cutoff)), key)
  }

  lemma {:induction false} ChosenGrows(front: seq<Row>, last: Row, key: Key, model: Option<string>,
                                       category: Option<string>, cutoff: Option<int>)
    ensures Chosen(front + [last], key, model, category, cutoff)
            == Chosen(front, key, model, category, cutoff)
               + if Counts(last, key, model, category, cutoff) then {|front| as int} else {}
  {
    var rows := front + [last];
    assert rows[|front|] == last;
    forall i | 0 <= i < |front| ensures rows[i] == front[i] {
    }
  }

  lemma {:induction false} GroupGrows(front: seq<Row>, last: Row, key: Key, model: Option<string>,
                                      category: Option<string>, cutoff: Option<int>)
    ensures Group(front + [last], key, model, category, cutoff)
            == Group(front, key, model, category, cutoff)
               + if Counts(last, key, model, category, cutoff) then [last] else []
  {
    var wanted := Wanted(model, category, cutoff);
    var kept := Filter(front, wanted);
    FilterTogether(front, [last], wanted);
    assert Filter([last], wanted) == if wanted(last) then [last] else [] by {
      assert [last][1..] == [];
    }
    if wanted(last) {
      assert (kept + [last])[..|kept|] == kept;
    } else {
      assert kept + [] == kept && Select(kept, key) + [] == Select(kept, key);
    }
  }

  lemma {:induction false} ChosenSumGrows(front: seq<Row>, last: Row, s: set<int>, f: Row -> real)
    requires forall i | i in s :: 0 <= i < |front|
    ensures SetSum(s, ValueAt(front + [last], f)) == SetSum(s, ValueAt(front, f))
    ensures SetSum(s + {|front| as int}, ValueAt(front + [last], f)) == SetSum(s, ValueAt(front, f)) + f(last)
    ensures |s + {|front| as int}| == |s| + 1
  {
    SumsAgree(s, ValueAt(front, f), ValueAt(front + [last], f));
    SumGrows(s, |front|, ValueAt(front + [last], f));
  }

  lemma {:induction false} GroupSumGrows(group: seq<Row>, last: Row, f: Row -> real)
    ensures Sum(group + [last], f) == Sum(group, f) + f(last) && Sum(group + [], f) == Sum(group, f)
  {
    SumAppend(group, last, f);
    assert group + [] == group;
  }

  ghost predicate Agree(group: seq<Row>, s: set<int>, rows: seq<Row>, f: Row -> real) {
    |group| == |s| && Sum(group, f) == SetSum(s, ValueAt(rows, f)) && forall i | i in s :: 0 <= i < |rows|
  }

  lemma {:induction false} AgreeGrows(group: seq<Row>, s: set<int>, front: seq<Row>, last: Row, f: Row -> real,
                                      more: bool)
    requires Agree(group, s, front, f)
    ensures Agree(group + if more then [last] else [], s + if more then {|front| as int} else {}, front + [last], f)
  {
    ChosenSumGrows(front, last, s, f);
    GroupSumGrows(group, last, f);
    assert s + {} == s;
  }

  lemma {:induction false} GroupAgrees(rows: seq<Row>, key: Key, model: Option<string>, category: Option<string>,
                                       cutoff: Option<int>, f: Row -> real)
    ensures Agree(Group(rows, key, model, category, cutoff), Chosen(rows, key, model, category, cutoff), rows, f)
    decreases |rows|
  {
    if rows != [] {
      var front, last := FrontAndLast(rows);
      var s, group := Chosen(front, key, model, category, cutoff), Group(front, key, model, category, cutoff);
      GroupAgrees(front, key, model, category, cutoff, f);
      ChosenGrows(front, last, key, model, category, cutoff);
      GroupGrows(front, last, key, model, category, cutoff);
      AgreeGrows(group, s, front, last, f, Counts(last, key, model, category, cutoff));
    }
  }

  /** The rows of a group are the chosen ones: as many, and with the same sums. */
  lemma {:induction false} GroupIsChosen(rows: seq<Row>, key: Key, model: Option<string>, category: Option<string>,
                                         cutoff: Option<int>, f: Row -> real)
    ensures var group, chosen := Group(rows, key, model, category, cutoff), Chosen(rows, key, model, category, cutoff);
            |group| == |chosen| && Sum(group, f) == SetSum(chosen, ValueAt(rows, f))
  {
    GroupAgrees(rows, key, model, category, cutoff, f);
  }

  lemma {:induction false} GroupMembers(rows: seq<Row>, key: Key, model: Option<string>, category: Option<string>,
                                        cutoff: Option<int>)
    ensures forall row :: row in Group(rows, key, model, category, cutoff)
              <==> exists i :: i in Chosen(rows, key, model, category, cutoff) && rows[i] == row
  {
    forall row ensures row in Group(rows, key, model, category, cutoff)
                       <==> row in rows && Counts(row, key, model, category, cutoff) {
      FilterKeeps(rows, Wanted(model, category, cutoff));
      SelectMember(Filter(rows, Wanted(model, category, cutoff)), key, row);
    }
    forall row | row in rows && Counts(row, key, model, category, cutoff)
      ensures exists i :: i in Chosen(rows, key, model, category, cutoff) && rows[i] == row
    {
      var i :| 0 <= i < |rows| && rows[i] == row;
      assert i in Chosen(rows, key, model, category, cutoff);
    }
  }

  lemma {:induction false} SelectMember(rows: seq<Row>, key: Key, row: Row)
    ensures row in Select(rows, key) <==> row in rows && row.key == key
  {
    if rows != [] {
      SelectMember(rows[..|rows| - 1], key, row);
      assert rows == rows[..|rows| - 1] + [rows[|rows| - 1]];
    }
  }

  // ----- What is made of the chosen rows

  function CostOf(rows: seq<Row>): int -> real {
    (i: int) => if 0 <= i < |rows| then rows[i].cost else 0.0
  }

  function TokensOf(rows: seq<Row>): int -> real {
    (i: int) => if 0 <= i < |rows| then rows[i].tokensOut else 0.0
  }

  function LatencyOf(rows: seq<Row>): int -> real {
    (i: int) => if 0 <= i < |rows| then rows[i].latency else 0.0
  }

  ghost function Passed(rows: seq<Row>, chosen: set<int>): set<int> {
    set i | i in chosen && 0 <= i < |rows| && rows[i].passed
  }

  ghost function Faster(rows: seq<Row>, chosen: set<int>, latency: real): set<int> {
    set i | i in chosen && 0 <= i < |rows| && rows[i].latency < latency
  }

  ghost function AsFast(rows: seq<Row>, chosen: set<int>, latency: real): set<int> {
    set i | i in chosen && 0 <= i < |rows| && rows[i].latency <= latency
  }

  /** The mean of n values with this total and `extra` more that all equal the prior. */
  ghost predicate IsMean(mean: real, total: real, n: nat, extra: nat, prior: real) {
    mean * (n + extra) as real == total + extra as real * prior
  }

  /** The averages are those of the chosen rows together with `extra` more that all equal the prior. */
  ghost predicate Averages(s: Stat, rows: seq<Row>, chosen: set<int>, extra: nat, prior: PriorRow) {
    && IsMean(s.qualityRate, |Passed(rows, chosen)| as real, |chosen|, extra, prior.qualityRate)
    && IsMean(s.avgCost, SetSum(chosen, CostOf(rows)), |chosen|, extra, prior.avgCost)
    && IsMean(s.avgTokensOut, SetSum(chosen, TokensOf(rows)), |chosen|, extra, prior.avgTokensOut)
    && IsMean(s.avgDuration, SetSum(chosen, LatencyOf(rows)), |chosen|, extra, prior.avgDuration)
  }

  /** This share of all but one of the latencies are at most this long, and no more are shorter. */
  ghost predicate Quantile(rows: seq<Row>, chosen: set<int>, latency: real, share: real) {
    var k := Product((|chosen| - 1) as real, share);
    |Faster(rows, chosen, latency)| as real < k + 1.0 && |AsFast(rows, chosen, latency)| as real > k
  }

  /** How many, how lately and how far to be relied on. */
  ghost predicate Sightings(s: Stat, rows: seq<Row>, chosen: set<int>) {
    && s.sampleCount == |chosen| > 0
    && s.confidence == (if |chosen| < 5 then Low else if |chosen| < 10 then Medium else High)
    && s.lastSeen.Some? && (exists i :: i in chosen && 0 <= i < |rows| && rows[i].at == s.lastSeen.value)
    && forall i | i in chosen && 0 <= i < |rows| :: rows[i].at <= s.lastSeen.value
  }

  /** Such a latency for every chosen row, averaged with ten times the prior's duration. */
  ghost predicate BlendedQuantile(rows: seq<Row>, chosen: set<int>, latency: real, share: real, prior: PriorRow) {
    exists q :: Quantile(rows, chosen, q, share)
                && IsMean(latency, Product(q, |chosen| as real), |chosen|, 10, prior.avgDuration)
  }

  lemma {:induction false} IndicatorSum(s: set<int>, f: int -> real, t: set<int>)
    requires t <= s && forall i | i in s :: f(i) == if i in t then 1.0 else 0.0
    ensures SetSum(s, f) == |t| as real
  {
    SetSumUnion(t, s - t, f);
    assert t + (s - t) == s;
    forall i | i in t ensures f(i) == 1.0 {
      assert i in s;
    }
    OnesSum(t, f);
    forall i | i in s - t ensures f(i) == 0.0 {
      assert i in s;
    }
    ZerosSum(s - t, f);
  }

  lemma {:induction false} OnesSum<T>(s: set<T>, f: T -> real)
    requires forall i | i in s :: f(i) == 1.0
    ensures SetSum(s, f) == |s| as real
    decreases |s|
  {
    if s != {} {
      var i :| i in s;
      SetSumPick(s, f, i);
      OnesSum(s - {i}, f);
    }
  }

  lemma {:induction false} ZerosSum<T>(s: set<T>, f: T -> real)
    requires forall i | i in s :: f(i) == 0.0
    ensures SetSum(s, f) == 0.0
    decreases |s|
  {
    if s != {} {
      var i :| i in s;
      SetSumPick(s, f, i);
      ZerosSum(s - {i}, f);
    }
  }

  lemma {:induction false} LatencyCounts(group: seq<Row>, v: real)
    ensures Less(Latencies(group), v) as real == Sum(group, (row: Row) => if row.latency < v then 1.0 else 0.0)
    ensures (Less(Latencies(group), v) + Equal(Latencies(group), v)) as real
            == Sum(group, (row: Row) => if row.latency <= v then 1.0 else 0.0)
  {
    if group != [] {
      var n := |group| - 1;
      LatencyCounts(group[..n], v);
      assert Latencies(group) == Latencies(group[..n]) + [group[n].latency];
      CountsSplit(Latencies(group[..n]), [group[n].latency], v);
    }
  }

  lemma {:induction false} QuantileHolds(rows: seq<Row>, key: Key, model: Option<string>, category: Option<string>,
                                         cutoff: Option<int>, share: real)
    requires Chosen(rows, key, model, category, cutoff) != {} && 0.0 <= share <= 1.0
    ensures Quantile(rows, Chosen(rows, key, model, category, cutoff),
                     Percentile.StatsPercentile(Latencies(Group(rows, key, model, category, cutoff)), share), share)
  {
    var chosen, group := Chosen(rows, key, model, category, cutoff), Group(rows, key, model, category, cutoff);
    var v := Percentile.StatsPercentile(Latencies(group), share);
    GroupIsChosen(rows, key, model, category, cutoff, Costs());
    FasterCounts(rows, key, model, category, cutoff, v);
    Quantiles.StatsCounts(Latencies(group), share, share * 100.0);
  }

  lemma {:induction false} FasterCounts(rows: seq<Row>, key: Key, model: Option<string>, category: Option<string>,
                                        cutoff: Option<int>, v: real)
    ensures var chosen := Chosen(rows, key, model, category, cutoff);
            var all := Latencies(Group(rows, key, model, category, cutoff));
            |Faster(rows, chosen, v)| == Less(all, v) && |AsFast(rows, chosen, v)| == Less(all, v) + Equal(all, v)
  {
    var chosen := Chosen(rows, key, model, category, cutoff);
    var shorter := (row: Row) => if row.latency < v then 1.0 else 0.0;
    var atMost := (row: Row) => if row.latency <= v then 1.0 else 0.0;
    GroupIsChosen(rows, key, model, category, cutoff, shorter);
    GroupIsChosen(rows, key, model, category, cutoff, atMost);
    LatencyCounts(Group(rows, key, model, category, cutoff), v);
    IndicatorSum(chosen, ValueAt(rows, shorter), Faster(rows, chosen, v));
    IndicatorSum(chosen, ValueAt(rows, atMost), AsFast(rows, chosen, v));
  }

  /** The four totals of the chosen rows. */
  lemma {:induction false} GroupTotalsAre(rows: seq<Row>, key: Key, model: Option<string>, category: Option<string>,
                                          cutoff: Option<int>)
    ensures var chosen, group := Chosen(rows, key, model, category, cutoff), Group(rows, key, model, category, cutoff);
            && |group| == |chosen| && Sum(group, Passes()) == |Passed(rows, chosen)| as real
            && Sum(group, Costs()) == SetSum(chosen, CostOf(rows))
            && Sum(group, Tokens()) == SetSum(chosen, TokensOf(rows))
            && Sum(group, Durations()) == SetSum(chosen, LatencyOf(rows))
  {
    var chosen := Chosen(rows, key, model, category, cutoff);
    GroupIsChosen(rows, key, model, category, cutoff, Passes());
    GroupIsChosen(rows, key, model, category, cutoff, Costs());
    GroupIsChosen(rows, key, model, category, cutoff, Tokens());
    GroupIsChosen(rows, key, model, category, cutoff, Durations());
    IndicatorSum(chosen, ValueAt(rows, Passes()), Passed(rows, chosen));
    SumsAgree(chosen, ValueAt(rows, Costs()), CostOf(rows));
    SumsAgree(chosen, ValueAt(rows, Tokens()), TokensOf(rows));
    SumsAgree(chosen, ValueAt(rows, Durations()), LatencyOf(rows));
  }

  lemma {:induction false} MeanTimes(total: real, n: real)
    requires n > 0.0
    ensures total / n * n == total
  {
  }

  lemma {:induction false} PlainMean(total: real, n: nat, prior: real)
    requires n > 0
    ensures IsMean(total / n as real, total, n, 0, prior)
  {
    MeanTimes(total, n as real);
  }

  lemma {:induction false} BlendedMean(total: real, prior: real, n: nat)
    requires n > 0
    ensures IsMean(Blend(total / n as real, prior, n), total, n, 10, prior)
  {
    BlendIsPooled(total, prior, n);
    MeanTimes(total + 10.0 * prior, (n + 10) as real);
  }

  lemma {:induction false} SightingsHold(rows: seq<Row>, key: Key, model: Option<string>, category: Option<string>,
                                         cutoff: Option<int>, s: Stat)
    requires Chosen(rows, key, model, category, cutoff) != {}
    requires var group := Group(rows, key, model, category, cutoff);
             group != [] ==> s.sampleCount == |group| && s.confidence == ConfidenceOf(|group|)
                             && s.lastSeen == Some(LastSeen(group))
    ensures Sightings(s, rows, Chosen(rows, key, model, category, cutoff))
  {
    var chosen, group := Chosen(rows, key, model, category, cutoff), Group(rows, key, model, category, cutoff);
    GroupIsChosen(rows, key, model, category, cutoff, Costs());
    GroupMembers(rows, key, model, category, cutoff);
    var k :| 0 <= k < |group| && group[k].at == LastSeen(group);
    assert group[k] in group;
    forall i | i in chosen ensures rows[i].at <= LastSeen(group) {
      assert rows[i] in group;
    }
  }

  lemma {:induction false} PlainAverages(rows: seq<Row>, key: Key, model: Option<string>, category: Option<string>,
                                         cutoff: Option<int>, prior: PriorRow)
    requires Group(rows, key, model, category, cutoff) != []
    ensures Averages(StatOf(key, Group(rows, key, model, category, cutoff)), rows,
                     Chosen(rows, key, model, category, cutoff), 0, prior)
  {
    var group := Group(rows, key, model, category, cutoff);
    GroupTotalsAre(rows, key, model, category, cutoff);
    PlainMean(Sum(group, Passes()), |group|, prior.qualityRate);
    PlainMean(Sum(group, Costs()), |group|, prior.avgCost);
    PlainMean(Sum(group, Tokens()), |group|, prior.avgTokensOut);
    PlainMean(Sum(group, Durations()), |group|, prior.avgDuration);
  }

  lemma {:induction false} BlendedAverages(rows: seq<Row>, key: Key, model: Option<string>, category: Option<string>,
                                           cutoff: Option<int>, prior: PriorRow)
    requires Group(rows, key, model, category, cutoff) != []
    ensures Averages(BlendStat(StatOf(key, Group(rows, key, model, category, cutoff)), PriorStat(key, prior)), rows,
                     Chosen(rows, key, model, category, cutoff), 10, prior)
  {
    var group := Group(rows, key, model, category, cutoff);
    GroupTotalsAre(rows, key, model, category, cutoff);
    BlendedMean(Sum(group, Passes()), prior.qualityRate, |group|);
    BlendedMean(Sum(group, Costs()), prior.avgCost, |group|);
    BlendedMean(Sum(group, Tokens()), prior.avgTokensOut, |group|);
    BlendedMean(Sum(group, Durations()), prior.avgDuration, |group|);
  }

  lemma {:induction false} BlendIsMean(q: real, prior: real, n: nat)
    requires n > 0
    ensures IsMean(Blend(q, prior, n), Product(q, n as real), n, 10, prior)
  {
    BlendedMean(Product(q, n as real), prior, n);
    assert Product(q, n as real) / n as real == q;
  }

  lemma {:induction false} BlendedQuantiles(rows: seq<Row>, key: Key, model: Option<string>, category: Option<string>,
                                            cutoff: Option<int>, prior: PriorRow)
    requires Group(rows, key, model, category, cutoff) != []
    ensures var s := BlendStat(StatOf(key, Group(rows, key, model, category, cutoff)), PriorStat(key, prior));
            && BlendedQuantile(rows, Chosen(rows, key, model, category, cutoff), s.p50, 0.50, prior)
            && BlendedQuantile(rows, Chosen(rows, key, model, category, cutoff), s.p95, 0.95, prior)
  {
    var o := StatOf(key, Group(rows, key, model, category, cutoff));
    GroupIsChosen(rows, key, model, category, cutoff, Costs());
    QuantileHolds(rows, key, model, category, cutoff, 0.50);
    QuantileHolds(rows, key, model, category, cutoff, 0.95);
    BlendIsMean(o.p50, prior.avgDuration, o.sampleCount);
    BlendIsMean(o.p95, prior.avgDuration, o.sampleCount);
  }

  // ----- The rows of the result

  lemma {:induction false} CandidatesArePriors(p: Priors, table: seq<PriorRow>, model: Option<string>,
                                               category: Option<string>)
    ensures forall s | s in Candidates(p, table, model, category) :: s.source == Prior
  {
    if table != [] {
      CandidatesArePriors(p, table[..|table| - 1], model, category);
    }
  }

  lemma {:induction false} UnseenAreCandidates(candidates: seq<Stat>, observed: seq<Stat>)
    ensures forall s | s in Unseen(candidates, observed) :: s in candidates
  {
    if candidates != [] {
      UnseenAreCandidates(candidates[..|candidates| - 1], observed);
      assert candidates == candidates[..|candidates| - 1] + [candidates[|candidates| - 1]];
    }
  }

  /** The rows that are not priors are the settled groups. */
  lemma {:induction false} SeenAreSettled(rows: seq<Row>, p: Priors, model: Option<string>, category: Option<string>,
                                          cutoff: Option<int>, s: Stat)
    ensures var settled := SettleAll(ObservedIn(Filter(rows, Wanted(model, category, cutoff))), p);
            s in StatsFor(rows, p, model, category, cutoff) && s.source != Prior <==> s in settled
  {
    var wanted := Filter(rows, Wanted(model, category, cutoff));
    var settled, unseen := SettleAll(ObservedIn(wanted), p), UnseenIn(wanted, p, model, category);
    StatsMembers(rows, p, model, category, cutoff, s);
    UnseenArePriors(wanted, p, model, category);
    if s in settled {
      SettledRows(wanted, p, s);
    }
  }

  function UnseenIn(wanted: seq<Row>, p: Priors, model: Option<string>, category: Option<string>): seq<Stat> {
    Unseen(Candidates(p, p.table, model, category), ObservedIn(wanted))
  }

  lemma {:induction false} UnseenArePriors(wanted: seq<Row>, p: Priors, model: Option<string>, category: Option<string>)
    ensures forall s | s in UnseenIn(wanted, p, model, category) :: s.source == Prior
  {
    CandidatesArePriors(p, p.table, model, category);
    UnseenAreCandidates(Candidates(p, p.table, model, category), ObservedIn(wanted));
  }

  /** The result lists the settled groups and the unseen priors. */
  lemma {:induction false} StatsMembers(rows: seq<Row>, p: Priors, model: Option<string>, category: Option<string>,
                                        cutoff: Option<int>, s: Stat)
    ensures var wanted := Filter(rows, Wanted(model, category, cutoff));
            s in StatsFor(rows, p, model, category, cutoff)
            <==> s in SettleAll(ObservedIn(wanted), p) || s in UnseenIn(wanted, p, model, category)
  {
    var wanted := Filter(rows, Wanted(model, category, cutoff));
    var all := SettleAll(ObservedIn(wanted), p) + UnseenIn(wanted, p, model, category);
    SortIsPermutation(all, ByCategoryThenModel());
    assert s in StatsFor(rows, p, model, category, cutoff) <==> s in multiset(all);
  }

  /** A model and category has a row that is not merely the prior exactly when some row of telemetry passes the
      filters and is not older than the cutoff. */
  lemma {:induction false} SeenExactlyWhen(rows: seq<Row>, p: Priors, model: Option<string>, category: Option<string>,
                                           cutoff: Option<int>, key: Key)
    ensures (exists s :: s in StatsFor(rows, p, model, category, cutoff) && s.key == key && s.source != Prior)
            <==> exists i :: 0 <= i < |rows| && Counts(rows[i], key, model, category, cutoff)
  {
    var w := Filter(rows, Wanted(model, category, cutoff));
    var settled := SettleAll(ObservedIn(w), p);
    GroupIsChosen(rows, key, model, category, cutoff, Costs());
    SettledFacts(w, p, settled);
    if i :| 0 <= i < |rows| && Counts(rows[i], key, model, category, cutoff) {
      assert i in Chosen(rows, key, model, category, cutoff);
      assert HasKey(settled, key);
      var k :| 0 <= k < |settled| && settled[k].key == key;
      assert settled[k] in settled;
      SeenAreSettled(rows, p, model, category, cutoff, settled[k]);
    }
    if s :| s in StatsFor(rows, p, model, category, cutoff) && s.key == key && s.source != Prior {
      SeenAreSettled(rows, p, model, category, cutoff, s);
      SettledRows(w, p, s);
      SomeChosen(rows, key, model, category, cutoff);
    }
  }

  lemma {:induction false} SomeChosen(rows: seq<Row>, key: Key, model: Option<string>, category: Option<string>,
                                      cutoff: Option<int>)
    ensures Group(rows, key, model, category, cutoff) != [] <==> Chosen(rows, key, model, category, cutoff) != {}
    ensures Chosen(rows, key, model, category, cutoff) != {}
            <==> exists i :: 0 <= i < |rows| && Counts(rows[i], key, model, category, cutoff)
  {
    GroupIsChosen(rows, key, model, category, cutoff, Costs());
    if i :| 0 <= i < |rows| && Counts(rows[i], key, model, category, cutoff) {
      assert i in Chosen(rows, key, model, category, cutoff);
    }
    if Chosen(rows, key, model, category, cutoff) != {} {
      var i: int :| i in Chosen(rows, key, model, category, cutoff);
    }
  }

  /** Such a row is of exactly those rows of telemetry: their number, their averages, with ten more that equal the
      prior if they are fewer than ten and there is one, and otherwise the median and the 95th percentile of their
      latencies. */
  lemma {:induction false} StatIsOfRows(rows: seq<Row>, p: Priors, model: Option<string>, category: Option<string>,
                                        cutoff: Option<int>, s: Stat)
    requires s in StatsFor(rows, p, model, category, cutoff) && s.source != Prior
    ensures var chosen, prior := Chosen(rows, s.key, model, category, cutoff), PriorFor(p, s.key);
            && Sightings(s, rows, chosen)
            && s.costPerPass == (if s.qualityRate <= 0.0 then None else Some(s.avgCost / s.qualityRate))
            && if |chosen| < 10 && prior.Some?
               then s.source == Blended && Averages(s, rows, chosen, 10, prior.value)
                    && BlendedQuantile(rows, chosen, s.p50, 0.50, prior.value)
                    && BlendedQuantile(rows, chosen, s.p95, 0.95, prior.value)
               else s.source == Observed && Averages(s, rows, chosen, 0, PriorRow("", "", 0.0, 0.0, 0.0, 0.0))
                    && Quantile(rows, chosen, s.p50, 0.50) && Quantile(rows, chosen, s.p95, 0.95)
  {
    var w, chosen := Filter(rows, Wanted(model, category, cutoff)), Chosen(rows, s.key, model, category, cutoff);
    SeenAreSettled(rows, p, model, category, cutoff, s);
    SettledRows(w, p, s);
    SomeChosen(rows, s.key, model, category, cutoff);
    GroupIsChosen(rows, s.key, model, category, cutoff, Costs());
    SightingsHold(rows, s.key, model, category, cutoff, s);
    if |chosen| < 10 && PriorFor(p, s.key).Some? {
      BlendedAverages(rows, s.key, model, category, cutoff, PriorFor(p, s.key).value);
      BlendedQuantiles(rows, s.key, model, category, cutoff, PriorFor(p, s.key).value);
    } else {
      PlainAverages(rows, s.key, model, category, cutoff, PriorRow("", "", 0.0, 0.0, 0.0, 0.0));
      QuantileHolds(rows, s.key, model, category, cutoff, 0.50);
      QuantileHolds(rows, s.key, model, category, cutoff, 0.95);
    }
  }

  // ----- The rows that are merely priors

  /** The prior under the name asked for: no runs, its own averages, its duration for every percentile. */
  ghost predicate IsPrior(s: Stat, row: PriorRow) {
    && s.sampleCount == 0 && s.qualityRate == row.qualityRate && s.avgCost == row.avgCost
    && s.avgTokensOut == row.avgTokensOut && s.avgDuration == s.p50 == s.p95 == row.avgDuration
    && s.costPerPass == (if row.qualityRate <= 0.0 then None else Some(row.avgCost / row.qualityRate))
    && s.lastSeen == None && s.confidence == Low && s.source == Prior && s.key.category == row.category
  }

  lemma {:induction false} CandidateIs(p: Priors, table: seq<PriorRow>, model: Option<string>, category: Option<string>,
                                       s: Stat)
    requires s in Candidates(p, table, model, category)
    ensures exists i :: 0 <= i < |table| && IsPrior(s, table[i])
                        && (category.Some? ==> table[i].category == category.value)
                        && if model.Some? then s.key.model == model.value && table[i].model == p.canonical(model.value)
                           else s.key.model == table[i].model
  {
    var n := |table| - 1;
    var front := Candidates(p, table[..n], model, category);
    if s in front {
      CandidateIs(p, table[..n], model, category, s);
      var i :| 0 <= i < n && IsPrior(s, table[..n][i])
               && (category.Some? ==> table[..n][i].category == category.value)
               && if model.Some? then s.key.model == model.value && table[..n][i].model == p.canonical(model.value)
                  else s.key.model == table[..n][i].model;
      assert table[i] == table[..n][i];
    } else {
      assert s == Candidates(p, table, model, category)[|front|];
      assert IsPrior(s, table[n]);
    }
  }

  /** Every other row of the result is a row of the prior table that passes the filters, for a model and category
      without a counting row of telemetry. */
  lemma {:induction false} PriorIsOfTable(rows: seq<Row>, p: Priors, model: Option<string>, category: Option<string>,
                                          cutoff: Option<int>, s: Stat)
    requires s in StatsFor(rows, p, model, category, cutoff) && s.source == Prior
    ensures Chosen(rows, s.key, model, category, cutoff) == {}
    ensures exists i :: 0 <= i < |p.table| && IsPrior(s, p.table[i])
                        && (category.Some? ==> p.table[i].category == category.value)
                        && if model.Some?
                           then s.key.model == model.value && p.table[i].model == p.canonical(model.value)
                           else s.key.model == p.table[i].model
  {
    var w := Filter(rows, Wanted(model, category, cutoff));
    var observed, candidates := ObservedIn(w), Candidates(p, p.table, model, category);
    var settled := SettleAll(observed, p);
    SortIsPermutation(settled + Unseen(candidates, observed), ByCategoryThenModel());
    assert s in multiset(settled + Unseen(candidates, observed));
    SeenAreSettled(rows, p, model, category, cutoff, s);
    UnseenAreCandidates(candidates, observed);
    CandidateIs(p, p.table, model, category, s);
    UnseenHasNoKey(candidates, observed, s);
    SettledFacts(w, p, settled);
    SameKeys(observed, settled, p);
    SomeChosen(rows, s.key, model, category, cutoff);
  }

  lemma {:induction false} UnseenHasNoKey(candidates: seq<Stat>, observed: seq<Stat>, s: Stat)
    requires s in Unseen(candidates, observed)
    ensures !HasKey(observed, s.key)
  {
    var n := |candidates| - 1;
    if s in Unseen(candidates[..n], observed) {
      UnseenHasNoKey(candidates[..n], observed, s);
    }
  }

  /** The rows stand by category and, within one, by model. */
  lemma {:induction false} RowsInOrder(rows: seq<Row>, p: Priors, model: Option<string>, category: Option<string>,
                                       cutoff: Option<int>, i: nat, j: nat)
    requires i < j < |StatsFor(rows, p, model, category, cutoff)|
    ensures var all := StatsFor(rows, p, model, category, cutoff);
            var a, b := all[i].key, all[j].key;
            if a.category == b.category then StringLe(a.model, b.model) else StringLe(a.category, b.category)
  {
    CategoryThenModelIsOrder();
    SortIsSorted(Results(ObservedIn(Filter(rows, Wanted(model, category, cutoff))), p, model, category),
                 ByCategoryThenModel());
    assert ByCategoryThenModel()(StatsFor(rows, p, model, category, cutoff)[i],
                                 StatsFor(rows, p, model, category, cutoff)[j]);
  }
}
