/** Model statistics: telemetry rows grouped by model and category, blended with priors where they are few. */
module ModelStats {
  import opened Options
  import opened Sorting
  import opened StatKinds
  import opened Reals
  import Percentile

  const PRIOR_WEIGHT := 10
  const MICROS_PER_DAY := 86_400_000_000

  datatype Key = Key(model: string, category: string)

  /** A telemetry row, recorded at a time in microseconds. */
  datatype Row = Row(key: Key, passed: bool, cost: real, tokensOut: real, latency: real, at: int)

  /** None stands for an infinite cost per pass. */
  datatype Stat = Stat(key: Key, sampleCount: nat, qualityRate: real, avgCost: real, avgTokensOut: real,
                       avgDuration: real, costPerPass: Option<real>, p50: real, p95: real, lastSeen: Option<int>,
                       confidence: Confidence, source: Source)

  function ConfidenceOf(n: nat): Confidence {
    if n < 5 then Low else if n < 10 then Medium else High
  }

  function CostPerPass(avgCost: real, qualityRate: real): Option<real> {
    if qualityRate <= 0.0 then None else Some(avgCost / qualityRate)
  }

  // ----- Groups

  function Sum(rows: seq<Row>, f: Row -> real): real {
    if rows == [] then 0.0 else Sum(rows[..|rows| - 1], f) + f(rows[|rows| - 1])
  }

  /** The rows of one group, in the order they came. */
  function Select(rows: seq<Row>, key: Key): seq<Row> {
    if rows == [] then [] else
    var n := |rows| - 1;
    Select(rows[..n], key) + if rows[n].key == key then [rows[n]] else []
  }

  /** The keys in the order first met. */
  function Keys(rows: seq<Row>): seq<Key> {
    if rows == [] then [] else
    var n := |rows| - 1;
    var front := Keys(rows[..n]);
    if rows[n].key in front then front else front + [rows[n].key]
  }

  ghost predicate Different(keys: seq<Key>) {
    forall i, j | 0 <= i < j < |keys| :: keys[i] != keys[j]
  }

  lemma {:induction false} KeysFacts(rows: seq<Row>)
    ensures Different(Keys(rows))
    ensures forall k :: k in Keys(rows) <==> Select(rows, k) != []
  {
    if rows != [] {
      KeysFacts(rows[..|rows| - 1]);
    }
  }

  function SumGroups(keys: seq<Key>, rows: seq<Row>, f: Row -> real): real {
    if keys == [] then 0.0
    else SumGroups(keys[..|keys| - 1], rows, f) + Sum(Select(rows, keys[|keys| - 1]), f)
  }

  lemma {:induction false} SumAppend(rows: seq<Row>, row: Row, f: Row -> real)
    ensures Sum(rows + [row], f) == Sum(rows, f) + f(row)
  {
    assert (rows + [row])[..|rows|] == rows;
  }

  lemma {:induction false} SelectSum(rows: seq<Row>, row: Row, key: Key, f: Row -> real)
    ensures Sum(Select(rows + [row], key), f) == Sum(Select(rows, key), f) + if row.key == key then f(row) else 0.0
  {
    assert (rows + [row])[..|rows|] == rows;
    SumAppend(Select(rows, key), row, f);
    assert Select(rows, key) + [] == Select(rows, key);
  }

  /** One more row adds its value to its own group and to no other. */
  lemma {:induction false} SumGroupsOneMore(keys: seq<Key>, rows: seq<Row>, row: Row, f: Row -> real)
    requires Different(keys)
    ensures SumGroups(keys, rows + [row], f) == SumGroups(keys, rows, f) + if row.key in keys then f(row) else 0.0
  {
    if keys != [] {
      var n := |keys| - 1;
      SumGroupsOneMore(keys[..n], rows, row, f);
      assert keys == keys[..n] + [keys[n]];
      SelectSum(rows, row, keys[n], f);
    }
  }

  lemma {:induction false} NewGroup(keys: seq<Key>, front: seq<Row>, last: Row, f: Row -> real)
    requires Select(front, last.key) == []
    ensures SumGroups(keys + [last.key], front + [last], f) == SumGroups(keys, front + [last], f) + f(last)
  {
    assert (keys + [last.key])[..|keys|] == keys;
    assert (front + [last])[..|front|] == front;
    assert Select(front + [last], last.key) == [last];
    assert [last][..0] == [];
    assert Sum([last], f) == f(last);
  }

  lemma {:induction false} KeysAppend(front: seq<Row>, last: Row)
    ensures Keys(front + [last]) == if last.key in Keys(front) then Keys(front) else Keys(front) + [last.key]
  {
    assert (front + [last])[..|front|] == front;
  }

  /** Whatever is added up over the rows is the same added up group by group. */
  lemma {:induction false} GroupsAddUp(rows: seq<Row>, f: Row -> real)
    ensures SumGroups(Keys(rows), rows, f) == Sum(rows, f)
    decreases |rows|
  {
    if rows != [] {
      var front, last := FrontAndLast(rows);
      GroupsAddUp(front, f);
      GroupsStep(rows, front, last, f);
    }
  }

  lemma {:induction false} FrontAndLast(rows: seq<Row>) returns (front: seq<Row>, last: Row)
    requires rows != []
    ensures rows == front + [last] && |front| < |rows|
  {
    front, last := rows[..|rows| - 1], rows[|rows| - 1];
  }

  lemma {:induction false} GroupsStep(rows: seq<Row>, front: seq<Row>, last: Row, f: Row -> real)
    requires rows == front + [last] && SumGroups(Keys(front), front, f) == Sum(front, f)
    ensures SumGroups(Keys(rows), rows, f) == Sum(rows, f)
  {
    KeysFacts(front);
    KeysAppend(front, last);
    SumAppend(front, last, f);
    SumGroupsOneMore(Keys(front), front, last, f);
    if last.key !in Keys(front) {
      NewGroup(Keys(front), front, last, f);
    }
  }

  /** `groups.setdefault(key, []).append(row)` over the rows. */
  method GroupRows(rows: seq<Row>) returns (keys: seq<Key>, groups: map<Key, seq<Row>>)
    ensures keys == Keys(rows) && forall k :: k in keys <==> k in groups
    ensures forall k | k in groups :: groups[k] == Select(rows, k) != []
  {
    keys, groups := [], map[];
    for i := 0 to |rows|
      invariant keys == Keys(rows[..i]) && forall k :: k in keys <==> k in groups
      invariant forall k :: (if k in groups then groups[k] else []) == Select(rows[..i], k)
    {
      assert rows[..i + 1][..i] == rows[..i];
      var key := rows[i].key;
      if key !in groups {
        keys := keys + [key];
      }
      groups := groups[key := (if key in groups then groups[key] else []) + [rows[i]]];
    }
    assert rows[..|rows|] == rows;
    KeysFacts(rows);
  }

  // ----- Observed statistics

  function One(): Row -> real {
    (row: Row) => 1.0
  }

  function Passes(): Row -> real {
    (row: Row) => if row.passed then 1.0 else 0.0
  }

  function Costs(): Row -> real {
    (row: Row) => row.cost
  }

  function Tokens(): Row -> real {
    (row: Row) => row.tokensOut
  }

  function Durations(): Row -> real {
    (row: Row) => row.latency
  }

  function Latencies(rows: seq<Row>): seq<real> {
    seq(|rows|, i requires 0 <= i < |rows| => rows[i].latency)
  }

  function LastSeen(rows: seq<Row>): (last: int)
    requires rows != []
    ensures (exists i | 0 <= i < |rows| :: rows[i].at == last) && forall i | 0 <= i < |rows| :: rows[i].at <= last
  {
    var n := |rows| - 1;
    if n == 0 then rows[0].at else
    var front := LastSeen(rows[..n]);
    if rows[n].at > front then rows[n].at else front
  }

  /** The statistics of one group. */
  function StatOf(key: Key, group: seq<Row>): Stat
    requires group != []
  {
    var n := |group| as real;
    var quality, cost := Sum(group, Passes()) / n, Sum(group, Costs()) / n;
    Stat(key, |group|, quality, cost, Sum(group, Tokens()) / n, Sum(group, Durations()) / n,
         CostPerPass(cost, quality), Percentile.StatsPercentile(Latencies(group), 0.50),
         Percentile.StatsPercentile(Latencies(group), 0.95), Some(LastSeen(group)), ConfidenceOf(|group|), Observed)
  }

  function Observe(keys: seq<Key>, rows: seq<Row>): (stats: seq<Stat>)
    requires forall i | 0 <= i < |keys| :: Select(rows, keys[i]) != []
    ensures |stats| == |keys|
    ensures forall i | 0 <= i < |keys| :: stats[i] == StatOf(keys[i], Select(rows, keys[i]))
  {
    seq(|keys|, i requires 0 <= i < |keys| => StatOf(keys[i], Select(rows, keys[i])))
  }

  /** The statistics of every group, in the order first met. */
  function ObservedIn(rows: seq<Row>): (stats: seq<Stat>)
    ensures |stats| == |Keys(rows)|
    ensures forall i | 0 <= i < |stats| ::
              Select(rows, Keys(rows)[i]) != [] && stats[i] == StatOf(Keys(rows)[i], Select(rows, Keys(rows)[i]))
  {
    GroupsNonempty(rows);
    Observe(Keys(rows), rows)
  }

  lemma {:induction false} GroupsNonempty(rows: seq<Row>)
    ensures forall i | 0 <= i < |Keys(rows)| :: Select(rows, Keys(rows)[i]) != []
  {
    KeysFacts(rows);
  }

  /** `_observed_stats`. */
  method ObservedStats(rows: seq<Row>) returns (stats: seq<Stat>)
    ensures stats == ObservedIn(rows)
  {
    GroupsNonempty(rows);
    var keys, groups := GroupRows(rows);
    assert forall i | 0 <= i < |keys| :: keys[i] in groups;
    stats := SummariseGroups(keys, groups);
  }

  method SummariseGroups(keys: seq<Key>, groups: map<Key, seq<Row>>) returns (stats: seq<Stat>)
    requires forall i | 0 <= i < |keys| :: keys[i] in groups && groups[keys[i]] != []
    ensures |stats| == |keys| && forall i | 0 <= i < |keys| :: stats[i] == StatOf(keys[i], groups[keys[i]])
  {
    stats := [];
    for i := 0 to |keys|
      invariant |stats| == i && forall j | 0 <= j < i :: stats[j] == StatOf(keys[j], groups[keys[j]])
    {
      stats := stats + [StatOf(keys[i], groups[keys[i]])];
    }
  }

  /** Weighted by their sample counts, the groups' statistics give back the totals over all rows: nothing is counted
      twice or left out. */
  lemma {:induction false} ObservedConserves(rows: seq<Row>)
    ensures Weighted(ObservedIn(rows), Unit()) == |rows| as real
    ensures Weighted(ObservedIn(rows), Quality()) == Sum(rows, Passes())
    ensures Weighted(ObservedIn(rows), AvgCost()) == Sum(rows, Costs())
  {
    var stats := ObservedIn(rows);
    forall i | 0 <= i < |stats| ensures
        GroupTotals(stats[i], Select(rows, Keys(rows)[i]))
    {
      StatTotals(Keys(rows)[i], Select(rows, Keys(rows)[i]));
    }
    WeightedIsGrouped(Keys(rows), rows, stats, Unit(), One());
    WeightedIsGrouped(Keys(rows), rows, stats, Quality(), Passes());
    WeightedIsGrouped(Keys(rows), rows, stats, AvgCost(), Costs());
    GroupsAddUp(rows, One());
    GroupsAddUp(rows, Passes());
    GroupsAddUp(rows, Costs());
    CountIsSum(rows);
  }

  function Unit(): Stat -> real {
    (s: Stat) => 1.0
  }

  function Quality(): Stat -> real {
    (s: Stat) => s.qualityRate
  }

  function AvgCost(): Stat -> real {
    (s: Stat) => s.avgCost
  }

  function Weighted(stats: seq<Stat>, g: Stat -> real): real {
    if stats == [] then 0.0 else
    var last := stats[|stats| - 1];
    Weighted(stats[..|stats| - 1], g) + Product(last.sampleCount as real, g(last))
  }

  lemma {:induction false} CountIsSum(rows: seq<Row>)
    ensures Sum(rows, One()) == |rows| as real
  {
    if rows != [] {
      CountIsSum(rows[..|rows| - 1]);
    }
  }

  ghost predicate GroupTotals(s: Stat, group: seq<Row>) {
    && Product(s.sampleCount as real, Unit()(s)) == Sum(group, One())
    && Product(s.sampleCount as real, Quality()(s)) == Sum(group, Passes())
    && Product(s.sampleCount as real, AvgCost()(s)) == Sum(group, Costs())
  }

  lemma {:induction false} StatTotals(key: Key, group: seq<Row>)
    requires group != []
    ensures GroupTotals(StatOf(key, group), group)
  {
    CountIsSum(group);
    Mean(|group| as real, Sum(group, Passes()));
    Mean(|group| as real, Sum(group, Costs()));
  }

  lemma {:induction false} Mean(n: real, total: real)
    requires n > 0.0
    ensures Product(n, total / n) == total && Product(n, 1.0) == n
  {
  }

  lemma {:induction false} WeightedIsGrouped(keys: seq<Key>, rows: seq<Row>, stats: seq<Stat>, g: Stat -> real,
                                             f: Row -> real)
    requires |stats| == |keys|
    requires forall i | 0 <= i < |stats| ::
               Product(stats[i].sampleCount as real, g(stats[i])) == Sum(Select(rows, keys[i]), f)
    ensures Weighted(stats, g) == SumGroups(keys, rows, f)
  {
    if keys != [] {
      var n := |keys| - 1;
      WeightedIsGrouped(keys[..n], rows, stats[..n], g, f);
    }
  }

  // ----- Priors and blending

  datatype PriorRow = PriorRow(model: string, category: string, qualityRate: real, avgCost: real, avgTokensOut: real,
                               avgDuration: real)

  /** The prior table, and the id under which it lists a model. */
  datatype Priors = Priors(table: seq<PriorRow>, canonical: string -> string)

  function FirstPrior(table: seq<PriorRow>, model: string, category: string): Option<PriorRow> {
    if table == [] then None
    else if table[0].model == model && table[0].category == category then Some(table[0])
    else FirstPrior(table[1..], model, category)
  }

  function PriorFor(p: Priors, key: Key): Option<PriorRow> {
    FirstPrior(p.table, p.canonical(key.model), key.category)
  }

  function PriorStat(key: Key, row: PriorRow): Stat {
    Stat(key, 0, row.qualityRate, row.avgCost, row.avgTokensOut, row.avgDuration,
         CostPerPass(row.avgCost, row.qualityRate), row.avgDuration, row.avgDuration, None, Low, Prior)
  }

  function Blend(observed: real, prior: real, n: nat): real {
    (Product(observed, n as real) + Product(prior, PRIOR_WEIGHT as real)) / (n + PRIOR_WEIGHT) as real
  }

  function BlendStat(o: Stat, p: Stat): Stat {
    var quality, cost := Blend(o.qualityRate, p.qualityRate, o.sampleCount), Blend(o.avgCost, p.avgCost, o.sampleCount);
    o.(qualityRate := quality, avgCost := cost, avgTokensOut := Blend(o.avgTokensOut, p.avgTokensOut, o.sampleCount),
       avgDuration := Blend(o.avgDuration, p.avgDuration, o.sampleCount), costPerPass := CostPerPass(cost, quality),
       p50 := Blend(o.p50, p.p50, o.sampleCount), p95 := Blend(o.p95, p.p95, o.sampleCount), source := Blended)
  }

  /** A blended average is the average over the group's samples and ten more that all equal the prior. */
  lemma {:induction false} BlendIsPooled(total: real, prior: real, n: nat)
    requires n > 0
    ensures Blend(total / n as real, prior, n) == (total + 10.0 * prior) / (n + PRIOR_WEIGHT) as real
  {
    Mean(n as real, total);
  }

  /** It lies between the observed value and the prior; and below ten samples, which is when the code blends, strictly
      on the prior's side of the middle. */
  lemma {:induction false} BlendBetween(o: real, p: real, n: nat)
    requires n < PRIOR_WEIGHT
    ensures o <= p ==> o <= Blend(o, p, n) <= p
    ensures p <= o ==> p <= Blend(o, p, n) <= o
    ensures o < p ==> Blend(o, p, n) > (o + p) / 2.0
    ensures o > p ==> Blend(o, p, n) < (o + p) / 2.0
  {
    BlendOffset(o, p, n);
    var d, w := p - o, (n + PRIOR_WEIGHT) as real;
    if d >= 0.0 {
      ShareBounds(d, w);
    } else {
      ShareBounds(-d, w);
      assert 10.0 * d / w == -(10.0 * (-d) / w);
    }
  }

  lemma {:induction false} BlendOffset(o: real, p: real, n: nat)
    ensures Blend(o, p, n) == o + 10.0 * (p - o) / (n + PRIOR_WEIGHT) as real
  {
    var w := (n + PRIOR_WEIGHT) as real;
    assert Product(o, n as real) + Product(p, 10.0) == Product(o, w) + 10.0 * (p - o);
    Quotients(o, 10.0 * (p - o), w);
  }

  lemma {:induction false} Quotients(o: real, x: real, w: real)
    requires w > 0.0
    ensures (Product(o, w) + x) / w == o + x / w
  {
    assert Product(o, w) / w == o;
  }

  lemma {:induction false} ShareBounds(d: real, w: real)
    requires d >= 0.0 && 10.0 <= w < 20.0
    ensures 0.0 <= 10.0 * d / w <= d
    ensures d > 0.0 ==> 10.0 * d / w > d / 2.0
  {
    ScaleUp(d, 10.0, w);
    QuotientBound(10.0 * d, d, w);
    if d > 0.0 {
      var q := 10.0 * d / w;
      assert q * w == 10.0 * d;
      assert d / 2.0 * w < d / 2.0 * 20.0;
    }
  }

  lemma {:induction false} ScaleUp(d: real, v: real, w: real)
    requires d >= 0.0 && v <= w
    ensures v * d <= Product(d, w)
  {
  }

  lemma {:induction false} QuotientBound(x: real, d: real, w: real)
    requires w > 0.0 && 0.0 <= x <= Product(d, w)
    ensures 0.0 <= x / w <= d
  {
    assert x / w * w == x;
  }

  /** The blended cost per pass is computed from the blended cost and rate, not blended itself; still it lies between
      the observed one and the prior's. */
  lemma {:induction false} CostPerPassBetween(o: Stat, p: Stat, low: real, high: real)
    requires o.qualityRate > 0.0 && p.qualityRate > 0.0
    requires low <= o.avgCost / o.qualityRate <= high && low <= p.avgCost / p.qualityRate <= high
    ensures BlendStat(o, p).costPerPass.Some? && low <= BlendStat(o, p).costPerPass.value <= high
  {
    var n, w := o.sampleCount as real, PRIOR_WEIGHT as real;
    CostBounds(o.avgCost, o.qualityRate, low, high, n);
    CostBounds(p.avgCost, p.qualityRate, low, high, w);
    var cost := Product(o.avgCost, n) + Product(p.avgCost, w);
    var quality := Product(o.qualityRate, n) + Product(p.qualityRate, w);
    PositiveProduct(p.qualityRate, w);
    PositiveProduct(o.qualityRate, n);
    assert Product(low, quality)
           == Product(low, Product(o.qualityRate, n)) + Product(low, Product(p.qualityRate, w));
    assert Product(high, quality)
           == Product(high, Product(o.qualityRate, n)) + Product(high, Product(p.qualityRate, w));
    RatioBounds(cost, quality, (o.sampleCount + PRIOR_WEIGHT) as real, low, high);
  }

  lemma {:induction false} PositiveProduct(x: real, y: real)
    requires x > 0.0 && y >= 0.0
    ensures Product(x, y) >= 0.0 && (y > 0.0 ==> Product(x, y) > 0.0)
  {
  }

  lemma {:induction false} CostBounds(cost: real, quality: real, low: real, high: real, n: real)
    requires quality > 0.0 && n >= 0.0 && low <= cost / quality <= high
    ensures Product(low, Product(quality, n)) <= Product(cost, n) <= Product(high, Product(quality, n))
  {
    var r := cost / quality;
    assert cost == r * quality;
    assert Product(cost, n) == Product(r, Product(quality, n));
    PositiveProduct(quality, n);
    Scale(low, r, Product(quality, n));
    Scale(r, high, Product(quality, n));
  }

  lemma {:induction false} RatioBounds(cost: real, quality: real, w: real, low: real, high: real)
    requires quality > 0.0 && w > 0.0 && Product(low, quality) <= cost <= Product(high, quality)
    ensures quality / w > 0.0 && low <= (cost / w) / (quality / w) <= high
  {
    var r := cost / quality;
    assert cost == r * quality;
    DivideOut(low, r, quality);
    DivideOut(r, high, quality);
    assert (cost / w) / (quality / w) == r;
  }

  lemma {:induction false} DivideOut(x: real, y: real, k: real)
    requires k > 0.0 && x * k <= y * k
    ensures x <= y
  {
  }

  // ----- get_model_stats, behind its cache

  /** What an observed row becomes. */
  function Settled(o: Stat, p: Priors): Stat {
    var prior := PriorFor(p, o.key);
    if o.sampleCount < 10 && prior.Some? then BlendStat(o, PriorStat(o.key, prior.value)) else o
  }

  function SettleAll(observed: seq<Stat>, p: Priors): seq<Stat> {
    seq(|observed|, i requires 0 <= i < |observed| => Settled(observed[i], p))
  }

  /** `_prior_candidates`: the rows of the table that pass the filters, under the id that was asked for. The ids in the
      table stand for themselves, so looking one up again gives the row itself. */
  function Candidates(p: Priors, table: seq<PriorRow>, model: Option<string>, category: Option<string>): seq<Stat> {
    if table == [] then [] else
    var n := |table| - 1;
    var row, front := table[n], Candidates(p, table[..n], model, category);
    if category.Some? && row.category != category.value then front
    else if model.Some? && p.canonical(model.value) != row.model then front
    else front + [PriorStat(Key(if model.Some? then model.value else row.model, row.category), row)]
  }

  function Unseen(candidates: seq<Stat>, observed: seq<Stat>): seq<Stat> {
    if candidates == [] then [] else
    var n := |candidates| - 1;
    Unseen(candidates[..n], observed) + if HasKey(observed, candidates[n].key) then [] else [candidates[n]]
  }

  predicate HasKey(stats: seq<Stat>, key: Key) {
    exists i | 0 <= i < |stats| :: stats[i].key == key
  }

  function ByCategoryThenModel(): (Stat, Stat) -> bool {
    (a: Stat, b: Stat) =>
      if a.key.category == b.key.category then StringLe(a.key.model, b.key.model)
      else StringLe(a.key.category, b.key.category)
  }

  function Results(observed: seq<Stat>, p: Priors, model: Option<string>, category: Option<string>): seq<Stat> {
    SettleAll(observed, p) + Unseen(Candidates(p, p.table, model, category), observed)
  }

  /** The rows of the query, in the window if there is one. */
  function Wanted(model: Option<string>, category: Option<string>, cutoff: Option<int>): Row -> bool {
    (row: Row) =>
      (model.Some? ==> row.key.model == model.value) && (category.Some? ==> row.key.category == category.value)
      && (cutoff.Some? ==> row.at >= cutoff.value)
  }

  /** What the function returns for a table of telemetry, without its cache. */
  function StatsFor(rows: seq<Row>, p: Priors, model: Option<string>, category: Option<string>, cutoff: Option<int>)
    : seq<Stat>
  {
    Sort(Results(ObservedIn(Filter(rows, Wanted(model, category, cutoff))), p, model, category), ByCategoryThenModel())
  }

  /** `get_model_stats`, behind its cache; None stands for the ValueError. */
  method GetModelStats(rows: seq<Row>, p: Priors, model: Option<string>, category: Option<string>, windowDays: int,
                       now: int)
    returns (r: Option<seq<Stat>>)
    ensures windowDays < 0 <==> r.None?
    ensures windowDays == 0 ==> r == Some(StatsFor(rows, p, model, category, None))
    ensures windowDays > 0 ==> r == Some(StatsFor(rows, p, model, category, Some(now - windowDays * 86_400_000_000)))
  {
    if windowDays < 0 {
      return None;
    }
    var cutoff := if windowDays > 0 then Some(now - windowDays * MICROS_PER_DAY) else None;
    var observed := ObservedStats(Filter(rows, Wanted(model, category, cutoff)));
    var settled, seen := SettleObserved(observed, p);
    var results := AddPriors(settled, Candidates(p, p.table, model, category), observed, seen);
    r := Some(Sort(results, ByCategoryThenModel()));
  }

  method SettleObserved(observed: seq<Stat>, p: Priors) returns (results: seq<Stat>, seen: set<Key>)
    ensures results == SettleAll(observed, p)
    ensures forall k :: k in seen <==> HasKey(observed, k)
  {
    results, seen := [], {};
    for i := 0 to |observed|
      invariant |results| == i && forall j | 0 <= j < i :: results[j] == Settled(observed[j], p)
      invariant forall k :: k in seen <==> HasKey(observed[..i], k)
    {
      var stat := observed[i];
      SeenGrows(observed, i);
      seen := seen + {stat.key};
      var prior := PriorFor(p, stat.key);
      if stat.sampleCount < 10 {
        results := results + [if prior.Some? then BlendStat(stat, PriorStat(stat.key, prior.value)) else stat];
      } else {
        results := results + [stat];
      }
    }
    assert observed[..|observed|] == observed;
  }

  method AddPriors(settled: seq<Stat>, candidates: seq<Stat>, ghost observed: seq<Stat>, seen: set<Key>)
    returns (results: seq<Stat>)
    requires forall k :: k in seen <==> HasKey(observed, k)
    ensures results == settled + Unseen(candidates, observed)
  {
    results := settled;
    for j := 0 to |candidates|
      invariant results == settled + Unseen(candidates[..j], observed)
    {
      assert candidates[..j + 1][..j] == candidates[..j];
      if candidates[j].key !in seen {
        results := results + [candidates[j]];
      }
    }
    assert candidates[..|candidates|] == candidates;
  }

  lemma {:induction false} SeenGrows(stats: seq<Stat>, i: nat)
    requires i < |stats|
    ensures forall k :: HasKey(stats[..i + 1], k) <==> HasKey(stats[..i], k) || k == stats[i].key
  {
    assert stats[..i + 1] == stats[..i] + [stats[i]];
  }
}
