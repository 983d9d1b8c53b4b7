/** Which rows of the telemetry the budget alert and the recommender look at, and when that makes them agree. */
module SeenRows {
  import opened Options
  import opened Sorting
  import opened StatKinds
  import opened ModelStats
  import opened StatRows
  import opened Recommender
  import opened BudgetAlert
  import opened CachedStats
  import StatSlices

  /** The telemetry of all categories in the window. */
  function Window(rows: seq<Row>, cutoff: Option<int>): seq<Row> {
    Filter(rows, Wanted(None, None, cutoff))
  }

  function AllStats(w: seq<Row>, p: Priors): seq<Stat> {
    Sort(Results(ObservedIn(w), p, None, None), ByCategoryThenModel())
  }

  /** What a seen or listed model costs in a category: its average, blended below ten rows if it has a prior, or the
      price in the table. */
  function Price(w: seq<Row>, p: Priors, key: Key): real
    requires Select(w, key) != [] || OwnPrior(w, p, key)
  {
    var group, n := Select(w, key), |Select(w, key)|;
    if n == 0 then FirstPrior(p.table, key.model, key.category).value.avgCost else
    var mean := Sum(group, Costs()) / n as real;
    if n < 10 && PriorFor(p, key).Some? then Blend(mean, PriorFor(p, key).value.avgCost, n) else mean
  }

  lemma {:induction false} PriceIsAverage(w: seq<Row>, p: Priors, key: Key)
    requires Select(w, key) != [] || OwnPrior(w, p, key)
    ensures RowOf(w, p, key).avgCost == Price(w, p, key)
    ensures RowOf(w, p, key).confidence == ConfidenceOf(|Select(w, key)|)
    ensures RowOf(w, p, key).key == key
    ensures RowOf(w, p, key).source == Observed <==> Unblended(w, p, key)
    ensures RowOf(w, p, key).source == Prior <==> OwnPrior(w, p, key)
  {
  }

  // ----- The alert's row

  ghost predicate SomeUnblended(w: seq<Row>, p: Priors, model: string) {
    exists c :: Unblended(w, p, Key(model, c))
  }

  /** The alert takes this row for its model: the first category with an unblended row, or, if there is none, the
      first in which the model was not seen but is listed under its own name. */
  ghost predicate AlertTakes(w: seq<Row>, p: Priors, key: Key) {
    if SomeUnblended(w, p, key.model)
    then Unblended(w, p, key) && forall c :: Unblended(w, p, Key(key.model, c)) ==> StringLe(key.category, c)
    else OwnPrior(w, p, key) && forall c :: OwnPrior(w, p, Key(key.model, c)) ==> StringLe(key.category, c)
  }

  lemma {:induction false} RowFromFacts(stats: seq<Stat>, m: string, source: Source)
    requires SortedBy(ByCategoryThenModel(), stats)
    ensures RowFrom(stats, m, source).None? ==> forall s | s in stats :: s.key.model != m || s.source != source
    ensures RowFrom(stats, m, source).Some? ==>
              var row := RowFrom(stats, m, source).value;
              && row in stats && row.key.model == m && row.source == source
              && forall s | s in stats && s.key.model == m && s.source == source ::
                   StringLe(row.key.category, s.key.category)
  {
    if stats != [] {
      RowFromFacts(stats[1..], m, source);
      assert stats == [stats[0]] + stats[1..];
      StringTotal(stats[0].key.category, stats[0].key.category);
      forall s | s in stats[1..] ensures ByCategoryThenModel()(stats[0], s) {
        var k :| 0 <= k < |stats[1..]| && stats[1..][k] == s;
        assert stats[k + 1] == s;
      }
    }
  }

  lemma {:induction false} RowsBySource(w: seq<Row>, p: Priors, key: Key)
    requires NoTwice(p.table)
    ensures Unblended(w, p, key) ==> RowOf(w, p, key) in AllStats(w, p) && RowOf(w, p, key).source == Observed
    ensures OwnPrior(w, p, key) ==> RowOf(w, p, key) in AllStats(w, p) && RowOf(w, p, key).source == Prior
  {
    var all := AllStats(w, p);
    RowsAre(w, p, None, all);
    if Unblended(w, p, key) || OwnPrior(w, p, key) {
      assert HasKey(all, key);
      var i :| 0 <= i < |all| && all[i].key == key;
      assert all[i] in all;
      PriceIsAverage(w, p, key);
    }
  }

  lemma {:induction false} RowsOfModel(w: seq<Row>, p: Priors, m: string)
    requires NoTwice(p.table)
    ensures forall s | s in AllStats(w, p) && s.key.model == m ::
              && (s.source == Observed ==> Unblended(w, p, Key(m, s.key.category)) && s == RowOf(w, p, s.key))
              && (s.source == Prior ==> OwnPrior(w, p, Key(m, s.key.category)) && s == RowOf(w, p, s.key))
  {
    var all := AllStats(w, p);
    RowsAre(w, p, None, all);
    forall s | s in all && s.key.model == m
      ensures s.source == Observed ==> Unblended(w, p, Key(m, s.key.category)) && s == RowOf(w, p, s.key)
      ensures s.source == Prior ==> OwnPrior(w, p, Key(m, s.key.category)) && s == RowOf(w, p, s.key)
    {
      assert s.key == Key(m, s.key.category);
      PriceIsAverage(w, p, s.key);
    }
  }

  lemma {:induction false} RowsFrom(w: seq<Row>, p: Priors, m: string)
    requires NoTwice(p.table)
    ensures RowFrom(AllStats(w, p), m, Observed).Some? <==> SomeUnblended(w, p, m)
    ensures RowFrom(AllStats(w, p), m, Prior).Some? <==> exists c :: OwnPrior(w, p, Key(m, c))
  {
    var all := AllStats(w, p);
    RowsAre(w, p, None, all);
    RowFromFacts(all, m, Observed);
    RowFromFacts(all, m, Prior);
    RowsOfModel(w, p, m);
    if c :| Unblended(w, p, Key(m, c)) {
      RowsBySource(w, p, Key(m, c));
    }
    if c :| OwnPrior(w, p, Key(m, c)) {
      RowsBySource(w, p, Key(m, c));
    }
  }

  lemma {:induction false} FirstUnblended(w: seq<Row>, p: Priors, m: string)
    requires NoTwice(p.table) && SomeUnblended(w, p, m)
    ensures RowFrom(AllStats(w, p), m, Observed).Some?
    ensures var row := RowFrom(AllStats(w, p), m, Observed).value;
            row.key.model == m && AlertTakes(w, p, row.key) && row == RowOf(w, p, row.key)
  {
    var all := AllStats(w, p);
    RowsFrom(w, p, m);
    RowsAre(w, p, None, all);
    RowFromFacts(all, m, Observed);
    RowsOfModel(w, p, m);
    var key := RowFrom(all, m, Observed).value.key;
    assert key == Key(m, key.category);
    forall c | Unblended(w, p, Key(m, c)) ensures StringLe(key.category, c) {
      RowsBySource(w, p, Key(m, c));
      PriceIsAverage(w, p, Key(m, c));
    }
  }

  lemma {:induction false} FirstOwnPrior(w: seq<Row>, p: Priors, m: string)
    requires NoTwice(p.table) && !SomeUnblended(w, p, m) && exists c :: OwnPrior(w, p, Key(m, c))
    ensures RowFrom(AllStats(w, p), m, Prior).Some?
    ensures var row := RowFrom(AllStats(w, p), m, Prior).value;
            row.key.model == m && AlertTakes(w, p, row.key) && row == RowOf(w, p, row.key)
  {
    var all := AllStats(w, p);
    RowsFrom(w, p, m);
    RowsAre(w, p, None, all);
    RowFromFacts(all, m, Prior);
    RowsOfModel(w, p, m);
    var key := RowFrom(all, m, Prior).value.key;
    assert key == Key(m, key.category);
    forall c | OwnPrior(w, p, Key(m, c)) ensures StringLe(key.category, c) {
      RowsBySource(w, p, Key(m, c));
      PriceIsAverage(w, p, Key(m, c));
    }
  }

  /** The row the alert has for a model is the one it takes; and it has none exactly when the model has no unblended row
      and is not listed in a category in which it was not seen. */
  lemma {:induction false} AlertRowIsTaken(w: seq<Row>, p: Priors, m: string)
    requires NoTwice(p.table)
    ensures AlertRow(AllStats(w, p), m).Some? ==>
              var row := AlertRow(AllStats(w, p), m).value;
              row.key.model == m && AlertTakes(w, p, row.key) && row.avgCost == Price(w, p, row.key)
    ensures AlertRow(AllStats(w, p), m).None?
            <==> forall c :: !Unblended(w, p, Key(m, c)) && !OwnPrior(w, p, Key(m, c))
  {
    RowsFrom(w, p, m);
    if SomeUnblended(w, p, m) {
      FirstUnblended(w, p, m);
    } else if exists c :: OwnPrior(w, p, Key(m, c)) {
      FirstOwnPrior(w, p, m);
    }
    if AlertRow(AllStats(w, p), m).Some? {
      PriceIsAverage(w, p, AlertRow(AllStats(w, p), m).value.key);
    }
  }

  lemma {:induction false} TakesOne(w: seq<Row>, p: Priors, a: Key, b: Key)
    requires AlertTakes(w, p, a) && AlertTakes(w, p, b) && a.model == b.model
    ensures a == b
  {
    assert a == Key(a.model, a.category) && b == Key(a.model, b.category);
    StringOrder();
  }

  // ----- The recommender's row

  /** The price the recommender has for a model: that of the task's category, else the fallback in the prior table. */
  function OfferPrice(w: seq<Row>, p: Priors, key: Key): Option<real> {
    if Select(w, key) != [] || OwnPrior(w, p, key) then Some(Price(w, p, key))
    else if FallbackPrior(p, key.model).Some? then Some(FallbackPrior(p, key.model).value.avgCost) else None
  }

  lemma {:induction false} FirstStatFacts(stats: seq<Stat>, m: string, priors: bool)
    ensures FirstStat(stats, m, priors).None?
            ==> forall s | s in stats :: s.key.model != m || (s.source == Prior) != priors
    ensures FirstStat(stats, m, priors).Some? ==>
              var row := FirstStat(stats, m, priors).value;
              row in stats && row.key.model == m && (row.source == Prior) == priors
  {
    if stats != [] {
      FirstStatFacts(stats[1..], m, priors);
      assert stats == [stats[0]] + stats[1..];
    }
  }

  /** The statistics of one category hold the rows of the window's telemetry in it. */
  lemma {:induction false} SliceRows(rows: seq<Row>, p: Priors, category: string, cutoff: Option<int>)
    requires NoTwice(p.table)
    ensures var w, slice := Window(rows, cutoff), StatsFor(rows, p, None, Some(category), cutoff);
            && (forall s | s in slice ::
                  s.key.category == category && (Select(w, s.key) != [] || OwnPrior(w, p, s.key))
                  && s == RowOf(w, p, s.key))
            && forall m :: HasKey(slice, Key(m, category))
                 <==> Select(w, Key(m, category)) != [] || OwnPrior(w, p, Key(m, category))
  {
    var w, slice := Window(rows, cutoff), StatsFor(rows, p, None, Some(category), cutoff);
    var part := Filter(rows, Wanted(None, Some(category), cutoff));
    StatSlices.WantedByCategory(rows, None, category, cutoff);
    FilterKeeps(w, StatSlices.RowIn(category));
    RowsAre(part, p, Some(category), slice);
    forall key: Key | key.category == category ensures Select(part, key) == Select(w, key) {
      StatSlices.SelectSlice(w, category, key);
    }
    forall s | s in slice ensures s.key.category == category {
      var i :| 0 <= i < |slice| && slice[i] == s;
      assert HasKey(slice, s.key);
    }
  }

  /** What the recommender finds for a model. */
  lemma {:induction false} StatForIs(rows: seq<Row>, cutoff: Option<int>, r: Request, m: string)
    requires NoTwice(r.priors.table) && r.stats == StatsFor(rows, r.priors, None, Some(r.category), cutoff)
    ensures var w, key := Window(rows, cutoff), Key(m, r.category);
            && (StatFor(r, m).Some? <==> OfferPrice(w, r.priors, key).Some?)
            && (StatFor(r, m).Some? ==>
                  StatFor(r, m).value.avgCost == OfferPrice(w, r.priors, key).value
                  && StatFor(r, m).value.confidence == ConfidenceOf(|Select(w, key)|))
  {
    var w, key := Window(rows, cutoff), Key(m, r.category);
    SliceRows(rows, r.priors, r.category, cutoff);
    FirstStatFacts(r.stats, m, false);
    FirstStatFacts(r.stats, m, true);
    if Select(w, key) != [] || OwnPrior(w, r.priors, key) {
      assert HasKey(r.stats, key);
      var i :| 0 <= i < |r.stats| && r.stats[i].key == key;
      assert r.stats[i] in r.stats;
      PriceIsAverage(w, r.priors, key);
      assert StatFor(r, m).Some? && StatFor(r, m).value in r.stats && StatFor(r, m).value.key == key;
    } else {
      NoStat(r, key);
    }
  }

  lemma {:induction false} NoStat(r: Request, key: Key)
    requires !HasKey(r.stats, key) && forall s | s in r.stats :: s.key.category == key.category
    ensures FirstStat(r.stats, key.model, false).None? && FirstStat(r.stats, key.model, true).None?
  {
    FirstStatFacts(r.stats, key.model, false);
    FirstStatFacts(r.stats, key.model, true);
    forall s | s in r.stats ensures s.key.model != key.model {
      var i :| 0 <= i < |r.stats| && r.stats[i] == s;
      assert r.stats[i].key != key && s.key == Key(s.key.model, key.category);
    }
  }

  /** The default pool, in terms of telemetry: a model seen is in it exactly when it is a default or its row is not
      blended. */
  lemma {:induction false} DefaultPoolIs(rows: seq<Row>, cutoff: Option<int>, r: Request, m: string)
    requires NoTwice(r.priors.table) && r.stats == StatsFor(rows, r.priors, None, Some(r.category), cutoff)
    requires r.available == []
    ensures m in Recommender.Candidates(r)
            <==> m in DEFAULT_CANDIDATES || Unblended(Window(rows, cutoff), r.priors, Key(m, r.category))
  {
    var w, key := Window(rows, cutoff), Key(m, r.category);
    DefaultPool(r, m);
    SliceRows(rows, r.priors, r.category, cutoff);
    if Unblended(w, r.priors, key) {
      assert HasKey(r.stats, key);
      var i :| 0 <= i < |r.stats| && r.stats[i].key == key;
      assert r.stats[i] in r.stats;
      PriceIsAverage(w, r.priors, key);
    }
    if i :| 0 <= i < |r.stats| && r.stats[i].key.model == m && r.stats[i].source == Observed {
      assert r.stats[i] in r.stats && r.stats[i].key == key;
      PriceIsAverage(w, r.priors, key);
    }
  }

  // ----- When alert and recommender agree

  predicate Asked(r: Request, m: string) {
    (r.available != [] ==> m in r.available) && VendorForModel(m) !in r.excluded
  }

  /** The alert counts this row's model by this row. */
  ghost predicate Counts(w: seq<Row>, r: Request, key: Key) {
    AlertTakes(w, r.priors, key) && Asked(r, key.model)
  }

  /** The recommender offers the model. */
  predicate Offered(w: seq<Row>, r: Request, m: string) {
    var key := Key(m, r.category);
    && Asked(r, m) && OfferPrice(w, r.priors, key).Some?
    && (r.available == [] ==> m in DEFAULT_CANDIDATES || Unblended(w, r.priors, key))
    && Rank(ConfidenceOf(|Select(w, key)|)) >= Rank(r.minConfidence)
  }

  lemma {:induction false} OfferIs(rows: seq<Row>, cutoff: Option<int>, r: Request, m: string)
    requires NoTwice(r.priors.table) && r.stats == StatsFor(rows, r.priors, None, Some(r.category), cutoff)
    ensures var w := Window(rows, cutoff);
            OfferCost(r, m) == if Offered(w, r, m) then OfferPrice(w, r.priors, Key(m, r.category)) else None
  {
    StatForIs(rows, cutoff, r, m);
    if r.available == [] {
      DefaultPoolIs(rows, cutoff, r, m);
    } else {
      DedupFacts(r.available);
    }
  }

  lemma {:induction false} AlertIs(w: seq<Row>, r: Request, m: string)
    requires NoTwice(r.priors.table)
    ensures var cost := AlertCost(AllStats(w, r.priors), r, m);
            && (cost.Some? <==> exists c :: Counts(w, r, Key(m, c)))
            && forall c | Counts(w, r, Key(m, c)) :: cost == Some(Price(w, r.priors, Key(m, c)))
  {
    var all := AllStats(w, r.priors);
    var row := AlertRow(all, m);
    AlertRowIsTaken(w, r.priors, m);
    if row.Some? {
      HasRow(w, r.priors, m);
      AlertPool(all, r.available, m);
      var key := row.value.key;
      assert key == Key(m, key.category);
      forall c | AlertTakes(w, r.priors, Key(m, c)) ensures Key(m, c) == key {
        TakesOne(w, r.priors, Key(m, c), key);
      }
    }
  }

  lemma {:induction false} HasRow(w: seq<Row>, p: Priors, m: string)
    requires NoTwice(p.table) && AlertRow(AllStats(w, p), m).Some?
    ensures exists i :: 0 <= i < |AllStats(w, p)| && AllStats(w, p)[i].key.model == m
  {
    var all := AllStats(w, p);
    RowsAre(w, p, None, all);
    RowFromFacts(all, m, Observed);
    RowFromFacts(all, m, Prior);
    var i :| 0 <= i < |all| && all[i] == AlertRow(all, m).value;
  }

  /** The alert's pool: the models listed, or else all that have a row. */
  lemma {:induction false} AlertPool(all: seq<Stat>, available: seq<string>, m: string)
    requires exists i :: 0 <= i < |all| && all[i].key.model == m
    ensures m in Pool(all, available) <==> (available != [] ==> m in available)
  {
    var names := Dedup(ModelIds(all));
    DedupFacts(available);
    DedupFacts(ModelIds(all));
    SortIsPermutation(names, ByName());
    var i :| 0 <= i < |all| && all[i].key.model == m;
    assert ModelIds(all)[i] == m;
    assert m in ModelIds(all) && m in multiset(names);
    assert m in Sort(names, ByName()) <==> m in multiset(Sort(names, ByName()));
  }

  /** Both take the model by the same telemetry rows of the task's category, or both by its price in the table. */
  ghost predicate Alike(v: seq<Row>, w: seq<Row>, r: Request, m: string) {
    var key := Key(m, r.category);
    Counts(v, r, key) && Offered(w, r, m) && Select(v, key) == Select(w, key)
  }

  ghost predicate CountsFor(v: seq<Row>, r: Request, cost: real) {
    exists key :: Counts(v, r, key) && Price(v, r.priors, key) <= cost
  }

  ghost predicate OffersFor(w: seq<Row>, r: Request, cost: real) {
    exists m :: Offered(w, r, m) && OfferPrice(w, r.priors, Key(m, r.category)).value <= cost
  }

  /** Every model that is not taken alike is covered on the other side by one that costs no more. */
  ghost predicate RowsCovered(v: seq<Row>, w: seq<Row>, r: Request) {
    && (forall key :: Counts(v, r, key) && !Alike(v, w, r, key.model) ==> OffersFor(w, r, Price(v, r.priors, key)))
    && (forall m :: Offered(w, r, m) && !Alike(v, w, r, m)
                    ==> CountsFor(v, r, OfferPrice(w, r.priors, Key(m, r.category)).value))
  }

  lemma {:induction false} AlikeCostsSame(rows: seq<Row>, cutoff: Option<int>, v: seq<Row>, r: Request, m: string)
    requires NoTwice(r.priors.table) && r.stats == StatsFor(rows, r.priors, None, Some(r.category), cutoff)
    requires Alike(v, Window(rows, cutoff), r, m)
    ensures AlertCost(AllStats(v, r.priors), r, m).Some?
    ensures AlertCost(AllStats(v, r.priors), r, m) == OfferCost(r, m)
  {
    AlertIs(v, r, m);
    OfferIs(rows, cutoff, r, m);
  }

  lemma {:induction false} AffordableIs(v: seq<Row>, r: Request, cost: real)
    requires NoTwice(r.priors.table)
    ensures Affordable(AllStats(v, r.priors), r, cost) <==> CountsFor(v, r, cost)
  {
    if m :| AlertCost(AllStats(v, r.priors), r, m).Some? && AlertCost(AllStats(v, r.priors), r, m).value <= cost {
      AlertIs(v, r, m);
    }
    if key :| Counts(v, r, key) && Price(v, r.priors, key) <= cost {
      AlertIs(v, r, key.model);
      assert key == Key(key.model, key.category);
    }
  }

  lemma {:induction false} OnOfferIs(rows: seq<Row>, cutoff: Option<int>, r: Request, cost: real)
    requires NoTwice(r.priors.table) && r.stats == StatsFor(rows, r.priors, None, Some(r.category), cutoff)
    ensures OnOffer(r, cost) <==> OffersFor(Window(rows, cutoff), r, cost)
  {
    forall m ensures OfferCost(r, m) == if Offered(Window(rows, cutoff), r, m)
                                        then OfferPrice(Window(rows, cutoff), r.priors, Key(m, r.category)) else None {
      OfferIs(rows, cutoff, r, m);
    }
  }

  lemma {:induction false} CoveredIs(rows: seq<Row>, cutoff: Option<int>, v: seq<Row>, r: Request)
    requires NoTwice(r.priors.table) && r.stats == StatsFor(rows, r.priors, None, Some(r.category), cutoff)
    ensures CoveredUnless(AllStats(v, r.priors), r, (m: string) => Alike(v, Window(rows, cutoff), r, m))
            <==> RowsCovered(v, Window(rows, cutoff), r)
  {
    var w, all := Window(rows, cutoff), AllStats(v, r.priors);
    forall cost ensures Affordable(all, r, cost) <==> CountsFor(v, r, cost) {
      AffordableIs(v, r, cost);
    }
    forall cost ensures OnOffer(r, cost) <==> OffersFor(w, r, cost) {
      OnOfferIs(rows, cutoff, r, cost);
    }
    forall m ensures OfferCost(r, m) == if Offered(w, r, m) then OfferPrice(w, r.priors, Key(m, r.category)) else None {
      OfferIs(rows, cutoff, r, m);
    }
    forall m ensures AlertCost(all, r, m).Some? <==> exists c :: Counts(v, r, Key(m, c)) {
      AlertIs(v, r, m);
    }
    forall key | Counts(v, r, key) ensures AlertCost(all, r, key.model) == Some(Price(v, r.priors, key)) {
      AlertIs(v, r, key.model);
      assert key == Key(key.model, key.category);
    }
  }

  /** The alert seeing the statistics of all categories at one moment, the recommender those of the task's category at
      another: for any telemetry, pool and filters they agree about every budget exactly when each model that is not
      taken alike is covered. Not alike are a model whose row in the category is blended, one the alert takes by a row
      of an earlier category, one only the prior table has, one in only one of the default pools, one below the
      confidence asked for, and one with different telemetry at the two moments. */
  lemma {:induction false} AgreesOverTelemetry(alertRows: seq<Row>, alertCutoff: Option<int>, rows: seq<Row>,
                                               cutoff: Option<int>, r: Request, topK: nat)
    requires NoTwice(r.priors.table) && r.stats == StatsFor(rows, r.priors, None, Some(r.category), cutoff) && topK > 0
    ensures var all := StatsFor(alertRows, r.priors, None, None, alertCutoff);
            (forall budget :: Affordable(all, r, budget) <==> Recommends(r, budget, topK))
            <==> RowsCovered(Window(alertRows, alertCutoff), Window(rows, cutoff), r)
  {
    var v, w := Window(alertRows, alertCutoff), Window(rows, cutoff);
    var all := AllStats(v, r.priors);
    assert all == StatsFor(alertRows, r.priors, None, None, alertCutoff);
    forall m | Alike(v, w, r, m) ensures AlertCost(all, r, m).Some? && AlertCost(all, r, m) == OfferCost(r, m) {
      AlikeCostsSame(rows, cutoff, v, r, m);
    }
    AgreesUnlessAlike(all, r, topK, (m: string) => Alike(v, w, r, m));
    CoveredIs(rows, cutoff, v, r);
  }

  /** Through the cache: the two have asked at moments of their own, each now or less than the time to live before,
      and they agree about every budget exactly when what was seen at these moments is covered. */
  lemma {:induction false} AgreesThroughCache(before: seq<Event>, alertAsks: Event, later: seq<Event>, asks: Event,
                                              r: Request,
                                              topK: nat)
    returns (a: Event, b: Event)
    requires NoTwice(r.priors.table) && topK > 0
    requires alertAsks.Ask? && alertAsks == AllAsked(alertAsks.rows, alertAsks.now)
    requires asks.Ask? && asks == CategoryAsked(r, asks.rows, asks.now) && r.stats == Reply(r.priors, later, asks)
    ensures a in before + [alertAsks] && a.Ask? && a == AllAsked(a.rows, a.now)
    ensures a == alertAsks || alertAsks.now - a.now < 3_600_000_000
    ensures b in later + [asks] && b.Ask? && b == CategoryAsked(r, b.rows, b.now)
    ensures b == asks || asks.now - b.now < 3_600_000_000
    ensures var all := Reply(r.priors, before, alertAsks);
            (forall budget :: Affordable(all, r, budget) <==> Recommends(r, budget, topK))
            <==> RowsCovered(Window(a.rows, Cutoff(DEFAULT_WINDOW_DAYS, a.now)),
                             Window(b.rows, Cutoff(DEFAULT_WINDOW_DAYS, b.now)), r)
  {
    var i := RepliesAreRecent(r.priors, before, alertAsks);
    var j := RepliesAreRecent(r.priors, later, asks);
    a, b := (before + [alertAsks])[i], (later + [asks])[j];
    AgreesOverTelemetry(a.rows, Cutoff(DEFAULT_WINDOW_DAYS, a.now), b.rows, Cutoff(DEFAULT_WINDOW_DAYS, b.now), r,
                        topK);
  }
}
