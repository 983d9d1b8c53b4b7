/** Budget-aware model recommendation. */
module Recommender {
  import opened Options
  import opened Sorting
  import opened StatKinds
  import opened Names
  import ModelStats
  import StatCache
  import CachedStats

  /** A candidate that passed the filters, with its score. */
  datatype Scored = Scored(modelId: string, provider: string, stat: ModelStats.Stat, score: real)

  datatype Recommendation = Recommendation(rank: nat, row: Scored, budgetWarning: bool)

  /** The statistics for the task's category, the prior table and the caller's filters. */
  datatype Request = Request(stats: seq<ModelStats.Stat>, category: string, priors: ModelStats.Priors,
                             excluded: set<string>, available: seq<string>, minConfidence: Confidence,
                             budget: Option<real>)

  const DEFAULT_CANDIDATES := ["claude-opus-4", "claude-sonnet-4", "claude-haiku-4"]

  const DEFAULT_WINDOW_DAYS := 30

  const VENDOR_PATTERNS: seq<(string, string)> :=
    [("claude", "anthropic"), ("opus", "anthropic"), ("sonnet", "anthropic"), ("haiku", "anthropic"),
     ("gpt", "openai"), ("o1", "openai"), ("o3", "openai"), ("codex", "openai"), ("deepseek", "deepseek"),
     ("gemini", "google"), ("cursor", "cursor")]

  function VendorFrom(lower: string, patterns: seq<(string, string)>): string {
    if patterns == [] then "unknown"
    else if Contains(lower, patterns[0].0) then patterns[0].1
    else VendorFrom(lower, patterns[1..])
  }

  function VendorForModel(modelId: string): string {
    VendorFrom(Lower(modelId), VENDOR_PATTERNS)
  }

  // ----- Candidates

  /** `list(dict.fromkeys(names))`: the first occurrence of each name. */
  function Dedup(names: seq<string>): seq<string> {
    if names == [] then [] else
    var front := Dedup(names[..|names| - 1]);
    if names[|names| - 1] in front then front else front + [names[|names| - 1]]
  }

  function ByName(): (string, string) -> bool {
    (a: string, b: string) => StringLe(a, b)
  }

  function ObservedModels(stats: seq<ModelStats.Stat>): seq<string> {
    if stats == [] then []
    else (if stats[0].source == Observed then [stats[0].key.model] else []) + ObservedModels(stats[1..])
  }

  function Candidates(r: Request): seq<string> {
    if r.available != [] then Dedup(r.available)
    else Dedup(DEFAULT_CANDIDATES + Sort(Dedup(ObservedModels(r.stats)), ByName()))
  }

  function FirstStat(stats: seq<ModelStats.Stat>, modelId: string, priors: bool): Option<ModelStats.Stat> {
    if stats == [] then None
    else if stats[0].key.model == modelId && (stats[0].source == Prior) == priors then Some(stats[0])
    else FirstStat(stats[1..], modelId, priors)
  }

  function FirstOfModel(table: seq<ModelStats.PriorRow>, model: string): Option<ModelStats.PriorRow> {
    if table == [] then None else if table[0].model == model then Some(table[0]) else FirstOfModel(table[1..], model)
  }

  /** `_get_prior`: the prior for code, else the first for the model. */
  function FallbackPrior(p: ModelStats.Priors, model: string): Option<ModelStats.PriorRow> {
    var code := ModelStats.PriorFor(p, ModelStats.Key(model, "code"));
    if code.Some? then code else FirstOfModel(p.table, p.canonical(model))
  }

  /** The observed or blended row, else the prior row, else the prior table. */
  function StatFor(r: Request, modelId: string): Option<ModelStats.Stat> {
    var observed := FirstStat(r.stats, modelId, false);
    if observed.Some? then observed else
    var prior := FirstStat(r.stats, modelId, true);
    if prior.Some? then prior else
    var row := FallbackPrior(r.priors, modelId);
    if row.Some? then Some(ModelStats.PriorStat(ModelStats.Key(modelId, r.category), row.value)) else None
  }

  function Rank(c: Confidence): nat {
    match c case Low => 0 case Medium => 1 case High => 2
  }

  /** `quality_rate / cost_per_pass`, with the source's guards: no quality or no cost scores nothing. */
  function PrimaryScore(qualityRate: real, avgCost: real): real {
    if qualityRate <= 0.0 then 0.0 else
    var costPerPass := avgCost / qualityRate;
    if costPerPass <= 0.0 then 0.0 else qualityRate / costPerPass
  }

  /** The candidate's entry, unless its vendor, its lack of statistics or its confidence rules it out. */
  function Admit(r: Request, modelId: string): Option<Scored> {
    if VendorForModel(modelId) in r.excluded then None else
    var stat := StatFor(r, modelId);
    if stat.None? || Rank(stat.value.confidence) < Rank(r.minConfidence) then None
    else Some(Scored(modelId, VendorForModel(modelId), stat.value,
                     PrimaryScore(stat.value.qualityRate, stat.value.avgCost)))
  }

  function Admitted(r: Request, names: seq<string>): seq<Scored> {
    if names == [] then [] else
    var front := Admitted(r, names[..|names| - 1]);
    var last := Admit(r, names[|names| - 1]);
    if last.Some? then front + [last.value] else front
  }

  // ----- Ranking and the budget

  predicate BetterOrEqual(a: Scored, b: Scored) {
    a.score > b.score || (a.score == b.score && a.stat.avgCost <= b.stat.avgCost)
  }

  function ByScoreThenCost(): (Scored, Scored) -> bool {
    (a: Scored, b: Scored) => BetterOrEqual(a, b)
  }

  function Within(budget: real): Scored -> bool {
    (row: Scored) => row.stat.avgCost <= budget
  }

  /** The first of the cheapest rows. */
  function Cheapest(rows: seq<Scored>): (c: Scored)
    requires rows != []
    ensures c in rows && forall row | row in rows :: c.stat.avgCost <= row.stat.avgCost
  {
    var n := |rows| - 1;
    if n == 0 then rows[0] else
    var c := Cheapest(rows[..n]);
    assert rows == rows[..n] + [rows[n]];
    if rows[n].stat.avgCost < c.stat.avgCost then rows[n] else c
  }

  function Number(rows: seq<Scored>, warning: bool): seq<Recommendation> {
    seq(|rows|, i requires 0 <= i < |rows| => Recommendation(i + 1, rows[i], warning))
  }

  /** The scoring loop: every candidate in turn, skipping the ones the filters rule out. */
  method ScoreCandidates(r: Request) returns (scored: seq<Scored>)
    ensures scored == Admitted(r, Candidates(r))
  {
    var candidates := Candidates(r);
    scored := [];
    for i := 0 to |candidates|
      invariant scored == Admitted(r, candidates[..i])
    {
      assert candidates[..i + 1][..i] == candidates[..i];
      var modelId := candidates[i];
      if VendorForModel(modelId) in r.excluded {
        continue;
      }
      var stat := StatFor(r, modelId);
      if stat.None? || Rank(stat.value.confidence) < Rank(r.minConfidence) {
        continue;
      }
      var score := PrimaryScore(stat.value.qualityRate, stat.value.avgCost);
      scored := scored + [Scored(modelId, VendorForModel(modelId), stat.value, score)];
    }
    assert candidates[..|candidates|] == candidates;
  }

  /** The result loop: positions counted from 1. */
  method NumberRows(rows: seq<Scored>, warning: bool) returns (results: seq<Recommendation>)
    ensures results == Number(rows, warning)
  {
    results := [];
    for i := 0 to |rows|
      invariant results == Number(rows[..i], warning)
    {
      results := results + [Recommendation(i + 1, rows[i], warning)];
    }
    assert rows[..|rows|] == rows;
  }

  method Recommend(r: Request, topK: nat) returns (results: seq<Recommendation>)
    ensures results == Recommended(r, topK)
  {
    var scored := ScoreCandidates(r);
    scored := Sort(scored, ByScoreThenCost());
    var warning, selected := false, scored;
    if r.budget.Some? && scored != [] {
      var within := Filter(scored, Within(r.budget.value));
      if within != [] {
        selected := within;
      } else {
        selected := [Cheapest(scored)];
        warning := true;
      }
    }
    results := NumberRows(Take(selected, topK), warning);
  }

  /** The question the recommender asks: the task's category over the default window. */
  function CategoryAsked(r: Request, rows: seq<ModelStats.Row>, now: int): CachedStats.Event {
    CachedStats.Ask(StatCache.CacheKey(None, Some(r.category), DEFAULT_WINDOW_DAYS), rows, now)
  }

  /** The same from telemetry, through the cache. */
  method RecommendFromTelemetry(stats: CachedStats.Statistics, rows: seq<ModelStats.Row>, r: Request, topK: nat,
                                now: int)
    returns (results: seq<Recommendation>)
    requires stats.Valid() && stats.priors == r.priors
    modifies stats`events, stats.cache
    ensures stats.Valid() && stats.events == old(stats.events) + [CategoryAsked(r, rows, now)]
    ensures CategoryAsked(r, rows, now) == CachedStats.Ask(StatCache.CacheKey(None, Some(r.category), 30), rows, now)
    ensures var reply := CachedStats.Reply(r.priors, old(stats.events), CategoryAsked(r, rows, now));
            results == Recommended(r.(stats := reply), topK)
  {
    var found := stats.GetModelStats(None, Some(r.category), DEFAULT_WINDOW_DAYS, rows, now);
    results := Recommend(r.(stats := found.value), topK);
  }

  function Recommended(r: Request, topK: nat): seq<Recommendation> {
    var sorted := Sort(Admitted(r, Candidates(r)), ByScoreThenCost());
    if r.budget.None? then Number(Take(sorted, topK), false) else
    var within := Filter(sorted, Within(r.budget.value));
    if within != [] || sorted == [] then Number(Take(within, topK), false)
    else Number(Take([Cheapest(sorted)], topK), true)
  }

  // ----- What a caller can rely on

  /** The requests' admissible rows: one for each candidate the filters let through. */
  ghost predicate IsAdmitted(r: Request, row: Scored) {
    row.modelId in Candidates(r) && Admit(r, row.modelId) == Some(row)
  }

  lemma {:induction false} DedupFacts(names: seq<string>)
    ensures forall i, j | 0 <= i < j < |Dedup(names)| :: Dedup(names)[i] != Dedup(names)[j]
    ensures forall n :: n in Dedup(names) <==> n in names
  {
    if names != [] {
      var n := |names| - 1;
      DedupFacts(names[..n]);
      assert names == names[..n] + [names[n]];
    }
  }

  lemma {:induction false} AdmittedFacts(r: Request, names: seq<string>)
    requires forall i, j | 0 <= i < j < |names| :: names[i] != names[j]
    ensures forall i | 0 <= i < |Admitted(r, names)| ::
              && Admitted(r, names)[i].modelId in names
              && Admit(r, Admitted(r, names)[i].modelId) == Some(Admitted(r, names)[i])
    ensures forall i, j | 0 <= i < j < |Admitted(r, names)| ::
              Admitted(r, names)[i].modelId != Admitted(r, names)[j].modelId
    ensures forall name | name in names && Admit(r, name).Some? :: Admit(r, name).value in Admitted(r, names)
  {
    if names != [] {
      var n := |names| - 1;
      AdmittedFacts(r, names[..n]);
      assert names == names[..n] + [names[n]];
      var front, all := Admitted(r, names[..n]), Admitted(r, names);
      forall i | 0 <= i < |front| ensures front[i].modelId != names[n] {
        var k :| 0 <= k < n && names[..n][k] == front[i].modelId;
        assert names[k] != names[n];
      }
      if Admit(r, names[n]).Some? {
        assert all[|front|] == Admit(r, names[n]).value;
      }
      assert front <= all;
    }
  }

  lemma BetterIsOrder()
    ensures TotalPreorder(ByScoreThenCost())
  {
  }

  ghost predicate Fits(r: Request, row: Scored) {
    r.budget.Some? ==> row.stat.avgCost <= r.budget.value
  }

  lemma SortedRows(r: Request, rows: seq<Scored>)
    requires rows == Sort(Admitted(r, Candidates(r)), ByScoreThenCost())
    ensures SortedBy(ByScoreThenCost(), rows)
    ensures forall row :: row in rows <==> IsAdmitted(r, row)
    ensures forall i, j | 0 <= i < j < |rows| :: rows[i].modelId != rows[j].modelId
  {
    var admitted := Admitted(r, Candidates(r));
    CandidatesDiffer(r);
    AdmittedFacts(r, Candidates(r));
    BetterIsOrder();
    SortIsSorted(admitted, ByScoreThenCost());
    SortIsPermutation(admitted, ByScoreThenCost());
    forall row ensures row in rows <==> IsAdmitted(r, row) {
      assert row in rows <==> row in multiset(admitted);
    }
    DistinctPermutes(admitted, rows);
  }

  lemma CandidatesDiffer(r: Request)
    ensures forall i, j | 0 <= i < j < |Candidates(r)| :: Candidates(r)[i] != Candidates(r)[j]
  {
    if r.available != [] {
      DedupFacts(r.available);
    } else {
      DedupFacts(DEFAULT_CANDIDATES + Sort(Dedup(ObservedModels(r.stats)), ByName()));
    }
  }

  function ModelOf(): Scored -> string {
    (row: Scored) => row.modelId
  }

  lemma {:induction false} DistinctPermutes(a: seq<Scored>, b: seq<Scored>)
    requires multiset(b) == multiset(a)
    requires forall i, j | 0 <= i < j < |a| :: a[i].modelId != a[j].modelId
    ensures forall i, j | 0 <= i < j < |b| :: b[i].modelId != b[j].modelId
  {
    forall i, j | 0 <= i < j < |a| ensures ModelOf()(a[i]) != ModelOf()(a[j]) {
    }
    ApartPermutes(a, b, ModelOf());
    forall i, j | 0 <= i < j < |b| ensures b[i].modelId != b[j].modelId {
      assert ModelOf()(b[i]) != ModelOf()(b[j]);
    }
  }

  lemma {:induction false} FilterFacts(rows: seq<Scored>, p: Scored -> bool)
    requires SortedBy(ByScoreThenCost(), rows)
    requires forall i, j | 0 <= i < j < |rows| :: rows[i].modelId != rows[j].modelId
    ensures SortedBy(ByScoreThenCost(), Filter(rows, p))
    ensures forall row :: row in Filter(rows, p) <==> row in rows && p(row)
    ensures forall i, j | 0 <= i < j < |Filter(rows, p)| :: Filter(rows, p)[i].modelId != Filter(rows, p)[j].modelId
  {
    if rows != [] {
      FilterFacts(rows[1..], p);
      assert rows == [rows[0]] + rows[1..];
      var rest := Filter(rows[1..], p);
      forall j | 0 <= j < |rest| ensures ByScoreThenCost()(rows[0], rest[j]) && rest[j].modelId != rows[0].modelId {
        assert rest[j] in rows[1..];
        var k :| 0 <= k < |rows[1..]| && rows[1..][k] == rest[j];
        assert rows[k + 1] == rest[j];
      }
    }
  }

  /** All the rows that fit the budget, best first; the results are the front of it unless nothing fits. */
  lemma FittingRows(r: Request, topK: nat) returns (fitting: seq<Scored>)
    ensures SortedBy(ByScoreThenCost(), fitting)
    ensures forall row :: row in fitting <==> IsAdmitted(r, row) && Fits(r, row)
    ensures forall i, j | 0 <= i < j < |fitting| :: fitting[i].modelId != fitting[j].modelId
    ensures fitting != [] || (forall row :: !IsAdmitted(r, row))
            ==> Recommended(r, topK) == Number(Take(fitting, topK), false)
  {
    var sorted := Sort(Admitted(r, Candidates(r)), ByScoreThenCost());
    SortedRows(r, sorted);
    if r.budget.None? {
      fitting := sorted;
    } else {
      fitting := Filter(sorted, Within(r.budget.value));
      FilterFacts(sorted, Within(r.budget.value));
      if sorted != [] {
        assert sorted[0] in sorted;
        assert IsAdmitted(r, sorted[0]);
      }
    }
  }

  ghost predicate Ranked(r: Request, results: seq<Recommendation>, topK: nat) {
    && |results| <= topK
    && (forall i | 0 <= i < |results| ::
          results[i].rank == i + 1 && IsAdmitted(r, results[i].row)
          && VendorForModel(results[i].row.modelId) !in r.excluded)
    && (forall i, j | 0 <= i < j < |results| ::
          && results[i].row.modelId != results[j].row.modelId
          && (results[i].row.score > results[j].row.score
              || (results[i].row.score == results[j].row.score
                  && results[i].row.stat.avgCost <= results[j].row.stat.avgCost)))
  }

  /** Every recommendation is an admitted candidate, so never from an excluded vendor; they are distinct, at most
      topK, numbered from 1, and ordered by score and then by cost. */
  lemma RecommendationsAreRanked(r: Request, topK: nat)
    ensures Ranked(r, Recommended(r, topK), topK)
  {
    var sorted := Sort(Admitted(r, Candidates(r)), ByScoreThenCost());
    SortedRows(r, sorted);
    var fitting := FittingRows(r, topK);
    if fitting != [] || sorted == [] {
      assert sorted == [] ==> forall row :: IsAdmitted(r, row) ==> row in sorted;
      NumberedRows(r, fitting, topK, false);
    } else {
      assert sorted != [];
      assert IsAdmitted(r, Cheapest(sorted));
      NumberedRows(r, [Cheapest(sorted)], topK, true);
      NoneFits(r, topK, fitting);
    }
  }

  lemma NumberedRows(r: Request, rows: seq<Scored>, topK: nat, warning: bool)
    requires SortedBy(ByScoreThenCost(), rows) && forall i | 0 <= i < |rows| :: IsAdmitted(r, rows[i])
    requires forall i, j | 0 <= i < j < |rows| :: rows[i].modelId != rows[j].modelId
    ensures Ranked(r, Number(Take(rows, topK), warning), topK)
  {
    forall i, j | 0 <= i < j < |Take(rows, topK)| ensures BetterOrEqual(Take(rows, topK)[i], Take(rows, topK)[j]) {
      assert ByScoreThenCost()(rows[i], rows[j]);
    }
  }

  lemma HeadIsMember(rows: seq<Scored>)
    ensures rows != [] ==> rows[0] in rows
  {
  }

  lemma NoneFits(r: Request, topK: nat, fitting: seq<Scored>)
    requires fitting == [] && forall row :: row in fitting <==> IsAdmitted(r, row) && Fits(r, row)
    ensures var sorted := Sort(Admitted(r, Candidates(r)), ByScoreThenCost());
            sorted != [] ==> Recommended(r, topK) == Number(Take([Cheapest(sorted)], topK), true)
  {
    var sorted := Sort(Admitted(r, Candidates(r)), ByScoreThenCost());
    SortedRows(r, sorted);
    if sorted != [] {
      assert sorted[0] in sorted;
      assert IsAdmitted(r, sorted[0]) && !Fits(r, sorted[0]);
      var within := Filter(sorted, Within(r.budget.value));
      FilterFacts(sorted, Within(r.budget.value));
      HeadIsMember(within);
    }
  }

  /** When some admitted candidate fits the budget, everything recommended fits, without a warning, and whatever fits
      but was cut off ranks no better than anything recommended; in particular the head's score is maximal. */
  lemma BudgetIsRespected(r: Request, topK: nat, row: Scored)
    requires IsAdmitted(r, row) && Fits(r, row)
    ensures var results := Recommended(r, topK);
            && (forall i | 0 <= i < |results| :: Fits(r, results[i].row) && !results[i].budgetWarning)
            && ((exists i :: 0 <= i < |results| && results[i].row == row)
                || (|results| == topK && forall i | 0 <= i < |results| :: BetterOrEqual(results[i].row, row)))
            && (topK > 0 ==> results != [] && results[0].row.score >= row.score)
  {
    var fitting := FittingRows(r, topK);
    assert row in fitting;
    var k :| 0 <= k < |fitting| && fitting[k] == row;
    var results := Recommended(r, topK);
    forall i | 0 <= i < |results| ensures results[i].row in fitting {
      assert results[i].row == fitting[i];
    }
    PlaceInTop(fitting, topK, k);
  }

  lemma {:induction false} PlaceInTop(rows: seq<Scored>, topK: nat, k: nat)
    requires SortedBy(ByScoreThenCost(), rows) && k < |rows|
    ensures var results := Number(Take(rows, topK), false);
            && (if k < topK then k < |results| && results[k].row == rows[k]
                else |results| == topK && forall i | 0 <= i < |results| :: BetterOrEqual(results[i].row, rows[k]))
            && (topK > 0 ==> results != [] && results[0].row.score >= rows[k].score)
  {
    forall i | 0 <= i < k ensures BetterOrEqual(rows[i], rows[k]) {
      assert ByScoreThenCost()(rows[i], rows[k]);
    }
  }

  /** When candidates are admitted but none fits, the one recommendation is a cheapest one, with the warning set. */
  lemma CheapestIsFallback(r: Request, topK: nat, row: Scored)
    requires IsAdmitted(r, row) && topK > 0 && forall other | IsAdmitted(r, other) :: !Fits(r, other)
    ensures var results := Recommended(r, topK);
            |results| == 1 && results[0].budgetWarning && results[0].row.stat.avgCost <= row.stat.avgCost
  {
    var sorted := Sort(Admitted(r, Candidates(r)), ByScoreThenCost());
    SortedRows(r, sorted);
    assert row in sorted;
    var fitting := FittingRows(r, topK);
    HeadIsMember(fitting);
    NoneFits(r, topK, fitting);
    assert Take([Cheapest(sorted)], topK) == [Cheapest(sorted)];
  }

  /** The documented score, quality squared over cost, is what is computed exactly when there is quality and the
      model is not free (or both say 0): a free model with any quality scores 0 and ranks behind every paid one that
      has quality. */
  lemma ScoreIsQualitySquaredPerDollar(qualityRate: real, avgCost: real)
    requires qualityRate >= 0.0 && avgCost >= 0.0
    ensures avgCost > 0.0 ==> PrimaryScore(qualityRate, avgCost) == qualityRate * qualityRate / avgCost
    ensures avgCost == 0.0 || qualityRate == 0.0 <==> PrimaryScore(qualityRate, avgCost) == 0.0
    ensures PrimaryScore(qualityRate, avgCost) >= 0.0
  {
    if qualityRate > 0.0 && avgCost > 0.0 {
      assert avgCost / qualityRate > 0.0;
      assert qualityRate / (avgCost / qualityRate) == qualityRate * qualityRate / avgCost;
      assert qualityRate * qualityRate > 0.0;
    }
  }

  /** So a model that costs nothing ranks behind every paid one with some quality, whatever its own. */
  lemma {:induction false} FreeRanksBehind(paid: Scored, free: Scored)
    requires paid.score == PrimaryScore(paid.stat.qualityRate, paid.stat.avgCost)
    requires free.score == PrimaryScore(free.stat.qualityRate, free.stat.avgCost)
    requires paid.stat.qualityRate > 0.0 && paid.stat.avgCost > 0.0
    requires free.stat.qualityRate >= 0.0 && free.stat.avgCost == 0.0
    ensures BetterOrEqual(paid, free) && !BetterOrEqual(free, paid)
  {
    ScoreIsQualitySquaredPerDollar(paid.stat.qualityRate, paid.stat.avgCost);
    ScoreIsQualitySquaredPerDollar(free.stat.qualityRate, free.stat.avgCost);
  }

  lemma {:induction false} ObservedFacts(stats: seq<ModelStats.Stat>)
    ensures forall m :: m in ObservedModels(stats)
              <==> exists i :: 0 <= i < |stats| && stats[i].key.model == m && stats[i].source == Observed
  {
    if stats != [] {
      ObservedFacts(stats[1..]);
      forall m ensures m in ObservedModels(stats)
                <==> exists i :: 0 <= i < |stats| && stats[i].key.model == m && stats[i].source == Observed
      {
        if i :| 0 <= i < |stats| && stats[i].key.model == m && stats[i].source == Observed {
          assert i > 0 ==> stats[1..][i - 1] == stats[i];
        }
        if m in ObservedModels(stats[1..]) {
          var k :| 0 <= k < |stats[1..]| && stats[1..][k].key.model == m && stats[1..][k].source == Observed;
          assert stats[k + 1].key.model == m;
        }
      }
    }
  }

  /** Without an explicit list, the pool is the defaults and the models with an unblended observed row: a model known
      only from a few runs, whose row is blended with a prior, is not considered although telemetry has seen it. */
  lemma DefaultPool(r: Request, m: string)
    requires r.available == []
    ensures m in Candidates(r)
            <==> m == "claude-opus-4" || m == "claude-sonnet-4" || m == "claude-haiku-4"
                 || exists i :: 0 <= i < |r.stats| && r.stats[i].key.model == m && r.stats[i].source == Observed
  {
    var names := ObservedModels(r.stats);
    var sorted := Sort(Dedup(names), ByName());
    ObservedFacts(r.stats);
    DedupFacts(names);
    SortIsPermutation(Dedup(names), ByName());
    assert m in sorted <==> m in multiset(sorted);
    assert m in multiset(Dedup(names)) <==> m in Dedup(names);
    assert m in Dedup(names) <==> m in names;
    var pool := DEFAULT_CANDIDATES + sorted;
    DedupFacts(pool);
    assert m in Dedup(pool) <==> m in pool;
  }

  // ----- Order among equals

  /** A pool keeps each name where it stood first. */
  lemma {:induction false} DedupKeepsOrder(names: seq<string>, i: nat, j: nat) returns (a: nat, b: nat)
    requires i < j < |Dedup(names)|
    ensures a < b < |names| && names[a] == Dedup(names)[i] && names[b] == Dedup(names)[j]
    ensures (forall k | 0 <= k < a :: names[k] != names[a]) && forall k | 0 <= k < b :: names[k] != names[b]
  {
    var n := |names| - 1;
    var front := Dedup(names[..n]);
    DedupFacts(names[..n]);
    if j < |front| {
      a, b := DedupKeepsOrder(names[..n], i, j);
    } else {
      a := DedupFirst(names[..n], i);
      b := n;
      forall k | 0 <= k < n ensures names[k] != names[n] {
        assert names[..n][k] in names[..n];
      }
    }
  }

  lemma {:induction false} DedupFirst(names: seq<string>, i: nat) returns (a: nat)
    requires i < |Dedup(names)|
    ensures a < |names| && names[a] == Dedup(names)[i] && forall k | 0 <= k < a :: names[k] != names[a]
  {
    var n := |names| - 1;
    DedupFacts(names[..n]);
    if i < |Dedup(names[..n])| {
      a := DedupFirst(names[..n], i);
    } else {
      a := n;
      forall k | 0 <= k < n ensures names[k] != names[n] {
        assert names[..n][k] in names[..n];
      }
    }
  }

  /** Candidates of one score and cost are ranked in the order of the pool. */
  lemma {:induction false} TiesKeepOrder(r: Request, x: Scored)
    ensures var level := (row: Scored) => row.score == x.score && row.stat.avgCost == x.stat.avgCost;
            Filter(Sort(Admitted(r, Candidates(r)), ByScoreThenCost()), level)
            == Filter(Admitted(r, Candidates(r)), level)
  {
    var admitted := Admitted(r, Candidates(r));
    var level := (row: Scored) => row.score == x.score && row.stat.avgCost == x.stat.avgCost;
    BetterIsOrder();
    SortIsStable(admitted, ByScoreThenCost(), x);
    SamePredicate(Sort(admitted, ByScoreThenCost()), level, LevelWith(x, ByScoreThenCost()));
    SamePredicate(admitted, level, LevelWith(x, ByScoreThenCost()));
  }

  lemma {:induction false} SamePredicate(s: seq<Scored>, p: Scored -> bool, q: Scored -> bool)
    requires forall row :: p(row) == q(row)
    ensures Filter(s, p) == Filter(s, q)
  {
    if s != [] {
      SamePredicate(s[1..], p, q);
    }
  }

  /** The fallback is the first prior for code of the model's canonical name, or else its first of any kind, and there
      is none exactly when the table does not list that name. */
  lemma {:induction false} FallbackIs(p: ModelStats.Priors, m: string)
    ensures FallbackPrior(p, m).None? <==> forall i | 0 <= i < |p.table| :: p.table[i].model != p.canonical(m)
    ensures FallbackPrior(p, m).Some? ==>
              exists i :: 0 <= i < |p.table| && p.table[i] == FallbackPrior(p, m).value
                          && p.table[i].model == p.canonical(m)
                          && (p.table[i].category == "code"
                              || forall j | 0 <= j < |p.table| && p.table[j].model == p.canonical(m) ::
                                   p.table[j].category != "code" && i <= j)
  {
    CodeFirst(p.table, p.canonical(m));
    FirstOfModelIs(p.table, p.canonical(m));
  }

  lemma {:induction false} CodeFirst(table: seq<ModelStats.PriorRow>, name: string)
    ensures var code := ModelStats.FirstPrior(table, name, "code");
            if code.Some? then exists i :: 0 <= i < |table| && table[i] == code.value
                                           && table[i].model == name && table[i].category == "code"
            else forall i | 0 <= i < |table| && table[i].model == name :: table[i].category != "code"
  {
    if table != [] {
      CodeFirst(table[1..], name);
      assert forall i | 0 <= i < |table[1..]| :: table[1..][i] == table[i + 1];
    }
  }

  lemma {:induction false} FirstOfModelIs(table: seq<ModelStats.PriorRow>, name: string)
    ensures var found := FirstOfModel(table, name);
            if found.Some? then exists i :: 0 <= i < |table| && table[i] == found.value && table[i].model == name
                                            && forall j | 0 <= j < |table| && table[j].model == name :: i <= j
            else forall i | 0 <= i < |table| :: table[i].model != name
  {
    if table != [] {
      FirstOfModelIs(table[1..], name);
      assert forall i | 0 <= i < |table[1..]| :: table[1..][i] == table[i + 1];
      if table[0].model != name && FirstOfModel(table, name).Some? {
        var i :| 0 <= i < |table[1..]| && table[1..][i] == FirstOfModel(table, name).value
                 && table[1..][i].model == name
                 && forall j | 0 <= j < |table[1..]| && table[1..][j].model == name :: i <= j;
        forall j | 0 <= j < |table| && table[j].model == name ensures i + 1 <= j {
          assert table[1..][j - 1] == table[j];
        }
      }
    }
  }
}
