/** The pre-dispatch budget alert, and exactly when it agrees with the recommender about what can be afforded. */
module BudgetAlert {
  import opened Options
  import opened Sorting
  import opened StatKinds
  import opened Recommender
  import ModelStats
  import StatCache
  import CachedStats

  type Stat = ModelStats.Stat

  function RowFrom(stats: seq<Stat>, modelId: string, source: Source): Option<Stat> {
    if stats == [] then None
    else if stats[0].key.model == modelId && stats[0].source == source then Some(stats[0])
    else RowFrom(stats[1..], modelId, source)
  }

  /** The row the alert looks at, among those of all categories: observed, else prior, never blended. */
  function AlertRow(all: seq<Stat>, modelId: string): Option<Stat> {
    var observed := RowFrom(all, modelId, Observed);
    if observed.Some? then observed else RowFrom(all, modelId, Prior)
  }

  function ModelIds(stats: seq<Stat>): seq<string> {
    seq(|stats|, i requires 0 <= i < |stats| => stats[i].key.model)
  }

  function Pool(all: seq<Stat>, available: seq<string>): seq<string> {
    if available != [] then Dedup(available) else Sort(Dedup(ModelIds(all)), ByName())
  }

  /** At what cost the alert takes a model into account, if it does. */
  function AlertCost(all: seq<Stat>, r: Request, modelId: string): Option<real> {
    var row := AlertRow(all, modelId);
    if modelId in Pool(all, r.available) && VendorForModel(modelId) !in r.excluded && row.Some?
    then Some(row.value.avgCost) else None
  }

  /** At what cost the recommender has a model on offer, if it has. */
  function OfferCost(r: Request, modelId: string): Option<real> {
    var row := Admit(r, modelId);
    if modelId in Candidates(r) && row.Some? then Some(row.value.stat.avgCost) else None
  }

  /** `min_eligible_cost`. */
  method MinEligibleCost(all: seq<Stat>, r: Request) returns (cost: Option<real>)
    ensures cost.None? <==> forall m :: AlertCost(all, r, m).None?
    ensures cost.Some? ==> exists m :: AlertCost(all, r, m) == cost
    ensures cost.Some? ==> forall m :: AlertCost(all, r, m).Some? ==> cost.value <= AlertCost(all, r, m).value
  {
    var pool := Pool(all, r.available);
    cost := None;
    for i := 0 to |pool|
      invariant cost.None? ==> forall m :: AlertCost(all, r, m).Some? ==> m !in pool[..i]
      invariant cost.Some? ==> exists m :: AlertCost(all, r, m) == cost
      invariant cost.Some? ==>
                  forall m :: AlertCost(all, r, m).Some? && m in pool[..i] ==> cost.value <= AlertCost(all, r, m).value
    {
      assert pool[..i + 1] == pool[..i] + [pool[i]];
      var row := AlertRow(all, pool[i]);
      if VendorForModel(pool[i]) !in r.excluded && row.Some? {
        assert AlertCost(all, r, pool[i]) == Some(row.value.avgCost);
        if cost.None? || row.value.avgCost < cost.value {
          cost := Some(row.value.avgCost);
        }
      }
    }
    assert pool[..|pool|] == pool;
  }

  ghost predicate Affordable(all: seq<Stat>, r: Request, remaining: real) {
    exists m :: AlertCost(all, r, m).Some? && AlertCost(all, r, m).value <= remaining
  }

  /** `budget_alert`: all is well exactly when some eligible model can be afforded. */
  method CheckBudget(all: seq<Stat>, r: Request, remaining: real) returns (ok: bool, minCost: Option<real>)
    ensures ok <==> Affordable(all, r, remaining)
    ensures minCost.None? <==> forall m :: AlertCost(all, r, m).None?
  {
    minCost := MinEligibleCost(all, r);
    ok := minCost.Some? && remaining >= minCost.value;
  }

  /** The question the alert asks: all categories over the default window. */
  function AllAsked(rows: seq<ModelStats.Row>, now: int): CachedStats.Event {
    CachedStats.Ask(StatCache.CacheKey(None, None, DEFAULT_WINDOW_DAYS), rows, now)
  }

  /** The same from telemetry, through the cache. */
  method CheckFromTelemetry(stats: CachedStats.Statistics, rows: seq<ModelStats.Row>, r: Request, remaining: real,
                            now: int)
    returns (ok: bool, minCost: Option<real>)
    requires stats.Valid() && stats.priors == r.priors
    modifies stats`events, stats.cache
    ensures stats.Valid() && stats.events == old(stats.events) + [AllAsked(rows, now)]
    ensures AllAsked(rows, now) == CachedStats.Ask(StatCache.CacheKey(None, None, 30), rows, now)
    ensures ok <==> Affordable(CachedStats.Reply(r.priors, old(stats.events), AllAsked(rows, now)), r, remaining)
  {
    var found := stats.GetModelStats(None, None, DEFAULT_WINDOW_DAYS, rows, now);
    ok, minCost := CheckBudget(found.value, r, remaining);
  }

  // ----- The recommender's side

  /** The recommender has something within the budget. */
  predicate Recommends(r: Request, budget: real, topK: nat) {
    var results := Recommended(r.(budget := Some(budget)), topK);
    results != [] && !results[0].budgetWarning
  }

  lemma {:induction false} RecommendsExactlyWhen(r: Request, budget: real, topK: nat)
    requires topK > 0
    ensures Recommends(r, budget, topK)
            <==> exists row :: IsAdmitted(r.(budget := Some(budget)), row) && row.stat.avgCost <= budget
  {
    var request := r.(budget := Some(budget));
    if row :| IsAdmitted(request, row) && row.stat.avgCost <= budget {
      BudgetIsRespected(request, topK, row);
    } else if Recommended(request, topK) != [] {
      RecommendationsAreRanked(request, topK);
      CheapestIsFallback(request, topK, Recommended(request, topK)[0].row);
    }
  }

  ghost predicate OnOffer(r: Request, budget: real) {
    exists m :: OfferCost(r, m).Some? && OfferCost(r, m).value <= budget
  }

  /** It has, exactly when some model is on offer at no more than that. */
  lemma {:induction false} RecommendsWhatIsOnOffer(r: Request, budget: real, topK: nat)
    requires topK > 0
    ensures Recommends(r, budget, topK) <==> OnOffer(r, budget)
  {
    RecommendsExactlyWhen(r, budget, topK);
    if row :| IsAdmitted(r.(budget := Some(budget)), row) && row.stat.avgCost <= budget {
      BudgetAside(r, budget, row.modelId);
      assert OfferCost(r, row.modelId) == Some(row.stat.avgCost);
    }
    if m :| OfferCost(r, m).Some? && OfferCost(r, m).value <= budget {
      BudgetAside(r, budget, m);
    }
  }

  /** What is admitted does not depend on the budget. */
  lemma {:induction false} BudgetAside(r: Request, budget: real, m: string)
    ensures Admit(r.(budget := Some(budget)), m) == Admit(r, m)
    ensures m in Candidates(r.(budget := Some(budget))) <==> m in Candidates(r)
    ensures OfferCost(r, m).Some? ==>
              IsAdmitted(r.(budget := Some(budget)), Admit(r, m).value)
              && Admit(r, m).value.stat.avgCost == OfferCost(r, m).value
  {
  }

  // ----- When they agree

  /** Each model the alert counts at a cost of its own has one on offer for no more, and the other way round. */
  ghost predicate Covered(all: seq<Stat>, r: Request) {
    && (forall m :: AlertCost(all, r, m).Some? && AlertCost(all, r, m) != OfferCost(r, m)
                    ==> OnOffer(r, AlertCost(all, r, m).value))
    && (forall m :: OfferCost(r, m).Some? && AlertCost(all, r, m) != OfferCost(r, m)
                    ==> Affordable(all, r, OfferCost(r, m).value))
  }

  /** Whatever statistics, filters and pools each of them works with: alert and recommender agree about every budget
      exactly when every model they see differently, because its row is blended, in another category, or missing on one
      side, is covered on the other side by a model that costs no more. */
  lemma {:induction false} AgreesExactlyWhen(all: seq<Stat>, r: Request, topK: nat)
    requires topK > 0
    ensures (forall budget :: Affordable(all, r, budget) <==> Recommends(r, budget, topK)) <==> Covered(all, r)
  {
    forall budget ensures Recommends(r, budget, topK) <==> OnOffer(r, budget) {
      RecommendsWhatIsOnOffer(r, budget, topK);
    }
    if Covered(all, r) {
      forall budget ensures Affordable(all, r, budget) <==> OnOffer(r, budget) {
        CoveredAgrees(all, r, budget);
      }
    } else {
      if m :| AlertCost(all, r, m).Some? && AlertCost(all, r, m) != OfferCost(r, m)
              && !OnOffer(r, AlertCost(all, r, m).value) {
        assert Affordable(all, r, AlertCost(all, r, m).value);
      } else {
        var m :| OfferCost(r, m).Some? && AlertCost(all, r, m) != OfferCost(r, m)
                 && !Affordable(all, r, OfferCost(r, m).value);
        assert OnOffer(r, OfferCost(r, m).value);
      }
    }
  }

  lemma {:induction false} CoveredAgrees(all: seq<Stat>, r: Request, budget: real)
    requires Covered(all, r)
    ensures Affordable(all, r, budget) <==> OnOffer(r, budget)
  {
    if m :| AlertCost(all, r, m).Some? && AlertCost(all, r, m).value <= budget {
      if AlertCost(all, r, m) != OfferCost(r, m) {
        var n :| OfferCost(r, n).Some? && OfferCost(r, n).value <= AlertCost(all, r, m).value;
      }
    }
    if m :| OfferCost(r, m).Some? && OfferCost(r, m).value <= budget {
      if AlertCost(all, r, m) != OfferCost(r, m) {
        var n :| AlertCost(all, r, n).Some? && AlertCost(all, r, n).value <= OfferCost(r, m).value;
      }
    }
  }

  /** The same, leaving out models that they are known to see at one cost. */
  ghost predicate CoveredUnless(all: seq<Stat>, r: Request, alike: string -> bool) {
    && (forall m :: AlertCost(all, r, m).Some? && !alike(m) ==> OnOffer(r, AlertCost(all, r, m).value))
    && (forall m :: OfferCost(r, m).Some? && !alike(m) ==> Affordable(all, r, OfferCost(r, m).value))
  }

  lemma {:induction false} AgreesUnlessAlike(all: seq<Stat>, r: Request, topK: nat, alike: string -> bool)
    requires topK > 0
    requires forall m | alike(m) :: AlertCost(all, r, m).Some? && AlertCost(all, r, m) == OfferCost(r, m)
    ensures (forall budget :: Affordable(all, r, budget) <==> Recommends(r, budget, topK))
            <==> CoveredUnless(all, r, alike)
  {
    AgreesExactlyWhen(all, r, topK);
  }
}
