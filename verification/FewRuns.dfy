/** What becomes of a model seen in a few runs only, in the default pool and before the budget alert. */
module FewRuns {
  import opened Options
  import opened Sorting
  import opened StatKinds
  import opened ModelStats
  import opened StatRows
  import opened Recommender
  import opened BudgetAlert
  import opened PriorTable
  import opened SeenRows

  /** One run of a model. */
  function OneRun(model: string, category: string, cost: real): Row {
    Row(Key(model, category), true, cost, 1000.0, 3000.0, 0)
  }

  function Ask(p: Priors, rows: seq<Row>, category: string, models: seq<string>): Request {
    Request(StatsFor(rows, p, None, Some(category), None), category, p, {}, models, Low, None)
  }

  lemma {:induction false} OneRunWindow(row: Row)
    ensures Window([row], None) == [row]
    ensures forall key :: Select([row], key) == if row.key == key then [row] else []
  {
    var keep := Wanted(None, None, None);
    FilterFirst([row], keep);
    assert [row][1..] == [] && Filter([], keep) == [] && keep(row);
    assert [row] + [] == [row];
    forall key ensures Select([row], key) == if row.key == key then [row] else [] {
      assert [row][..0] == [];
      assert Select([row], key) == Select([], key) + if row.key == key then [row] else [];
    }
  }

  lemma {:induction false} CostOfOne(row: Row)
    ensures Sum([row], Costs()) == row.cost
  {
    assert [row][..0] == [];
  }

  /** One run at the price of the prior: blended, at that price. */
  lemma {:induction false} OneRunIsBlended(p: Priors, model: string, cost: real)
    requires PriorFor(p, Key(model, "code")).Some? && PriorFor(p, Key(model, "code")).value.avgCost == cost
    ensures var w := [OneRun(model, "code", cost)];
            && Select(w, Key(model, "code")) == w && (forall c :: !Unblended(w, p, Key(model, c)))
            && Price(w, p, Key(model, "code")) == cost
  {
    var w := [OneRun(model, "code", cost)];
    OneRunWindow(w[0]);
    CostOfOne(w[0]);
    BlendBetween(cost, cost, 1);
  }

  lemma {:induction false} NotDefault()
    ensures "gpt-4o" !in DEFAULT_CANDIDATES
  {
    forall i | 0 <= i < |DEFAULT_CANDIDATES| ensures |DEFAULT_CANDIDATES[i]| > |"gpt-4o"| {
    }
  }

  /** A model that telemetry knows only from a few runs and that has a prior, here "gpt-4o", is not in the default
      pool. */
  lemma {:induction false} BlendedModelIsMissed(p: Priors) returns (rows: seq<Row>, r: Request)
    requires ListsGpt4o(p)
    ensures |Select(rows, Key("gpt-4o", "code"))| == 1 && r == Ask(p, rows, "code", [])
    ensures "gpt-4o" !in Recommender.Candidates(r)
  {
    rows := [OneRun("gpt-4o", "code", 0.020)];
    r := Ask(p, rows, "code", []);
    OneRunIsBlended(p, "gpt-4o", 0.020);
    OneRunWindow(rows[0]);
    DefaultPoolIs(rows, None, r, "gpt-4o");
    NotDefault();
  }

  // ----- The alert

  /** A model not listed under its own name, whose rows are all blended with the prior of another, has no row for the
      alert: it halts at any budget, while the recommender goes by its price. */
  lemma {:induction false} AliasedModelHalts(alertRows: seq<Row>, alertCutoff: Option<int>, rows: seq<Row>,
                                             cutoff: Option<int>, r: Request, m: string, budget: real, topK: nat)
    requires NoTwice(r.priors.table) && r.stats == StatsFor(rows, r.priors, None, Some(r.category), cutoff) && topK > 0
    requires r.available == [m] && VendorForModel(m) !in r.excluded && r.minConfidence == Low
    requires forall i | 0 <= i < |r.priors.table| :: r.priors.table[i].model != m
    requires forall c :: !Unblended(Window(alertRows, alertCutoff), r.priors, Key(m, c))
    ensures !Affordable(StatsFor(alertRows, r.priors, None, None, alertCutoff), r, budget)
    ensures Recommends(r, budget, topK)
            <==> var price := OfferPrice(Window(rows, cutoff), r.priors, Key(m, r.category));
                 price.Some? && price.value <= budget
  {
    var v := Window(alertRows, alertCutoff);
    NoOwnPrior(v, r.priors, m);
    NothingCounts(v, r, m, budget);
    RecommendsWhatIsOnOffer(r, budget, topK);
    OnlyOffer(rows, cutoff, r, m, budget);
  }

  lemma {:induction false} NoOwnPrior(v: seq<Row>, p: Priors, m: string)
    requires forall i | 0 <= i < |p.table| :: p.table[i].model != m
    ensures forall c :: !OwnPrior(v, p, Key(m, c))
  {
    forall c ensures FirstPrior(p.table, m, c).None? {
      if FirstPrior(p.table, m, c).Some? {
        var i := FoundPrior(p.table, m, c);
      }
    }
  }

  lemma {:induction false} NothingCounts(v: seq<Row>, r: Request, m: string, budget: real)
    requires NoTwice(r.priors.table) && r.available == [m]
    requires forall c :: !Unblended(v, r.priors, Key(m, c)) && !OwnPrior(v, r.priors, Key(m, c))
    ensures !Affordable(AllStats(v, r.priors), r, budget)
  {
    AffordableIs(v, r, budget);
    forall key ensures !Counts(v, r, key) {
      if key.model == m {
        assert key == Key(m, key.category);
      }
    }
  }

  /** Such as "claude-opus-4", after one run on a code task. */
  lemma {:induction false} OpusHalts(p: Priors, budget: real, topK: nat) returns (rows: seq<Row>, r: Request)
    requires AliasesOpus(p) && topK > 0
    ensures rows == [OneRun("claude-opus-4", "code", 0.060)] && r == Ask(p, rows, "code", ["claude-opus-4"])
    ensures !Affordable(StatsFor(rows, p, None, None, None), r, budget)
    ensures Recommends(r, budget, topK) <==> budget >= 0.060
  {
    rows := [OneRun("claude-opus-4", "code", 0.060)];
    r := Ask(p, rows, "code", ["claude-opus-4"]);
    OneRunIsBlended(p, "claude-opus-4", 0.060);
    OneRunWindow(rows[0]);
    AliasedModelHalts(rows, None, rows, None, r, "claude-opus-4", budget, topK);
  }

  /** A model listed under its own name, whose rows are all blended, is taken by the alert at the price of the first
      category in which it was not seen: "gpt-4o", after one run on a code task, at that for planning. */
  lemma {:induction false} FallsBackToPrior(p: Priors, budget: real, topK: nat) returns (rows: seq<Row>, r: Request)
    requires ListsGpt4o(p) && topK > 0
    ensures rows == [OneRun("gpt-4o", "code", 0.020)] && r == Ask(p, rows, "code", ["gpt-4o"])
    ensures AlertTakes(rows, p, Key("gpt-4o", "planning"))
    ensures Affordable(StatsFor(rows, p, None, None, None), r, budget) <==> budget >= 0.014
    ensures Recommends(r, budget, topK) <==> budget >= 0.020
  {
    rows := [OneRun("gpt-4o", "code", 0.020)];
    r := Ask(p, rows, "code", ["gpt-4o"]);
    OneRunIsBlended(p, "gpt-4o", 0.020);
    OneRunWindow(rows[0]);
    PlanningFirst(p, rows);
    OnlyCount(rows, r, Key("gpt-4o", "planning"), budget);
    OnlyOffer(rows, None, r, "gpt-4o", budget);
    RecommendsWhatIsOnOffer(r, budget, topK);
  }

  // ----- When one model is listed, it is what is counted and offered

  lemma {:induction false} OnlyOffer(rows: seq<Row>, cutoff: Option<int>, r: Request, m: string, budget: real)
    requires NoTwice(r.priors.table) && r.stats == StatsFor(rows, r.priors, None, Some(r.category), cutoff)
    requires r.available == [m] && VendorForModel(m) !in r.excluded && r.minConfidence == Low
    ensures OnOffer(r, budget)
            <==> var price := OfferPrice(Window(rows, cutoff), r.priors, Key(m, r.category));
                 price.Some? && price.value <= budget
  {
    OnOfferIs(rows, cutoff, r, budget);
  }

  lemma {:induction false} OnlyCount(v: seq<Row>, r: Request, key: Key, budget: real)
    requires NoTwice(r.priors.table) && AlertTakes(v, r.priors, key)
    requires r.available == [key.model] && VendorForModel(key.model) !in r.excluded
    ensures Affordable(AllStats(v, r.priors), r, budget) <==> Price(v, r.priors, key) <= budget
  {
    AffordableIs(v, r, budget);
    assert Counts(v, r, key);
    forall k | Counts(v, r, k) ensures k == key {
      TakesOne(v, r.priors, k, key);
    }
  }

  lemma {:induction false} PlanningFirst(p: Priors, rows: seq<Row>)
    requires ListsGpt4o(p) && rows == [OneRun("gpt-4o", "code", 0.020)]
    requires forall c :: !Unblended(rows, p, Key("gpt-4o", c))
    ensures AlertTakes(rows, p, Key("gpt-4o", "planning"))
    ensures Price(rows, p, Key("gpt-4o", "planning")) == 0.014
  {
    OneRunWindow(rows[0]);
    assert |"planning"| != |"code"|;
    StringTotal("planning", "planning");
    assert "planning"[0] < "review"[0];
    forall c | OwnPrior(rows, p, Key("gpt-4o", c)) ensures StringLe("planning", c) {
      assert c != "code" by {
        assert Select(rows, Key("gpt-4o", "code")) == rows;
      }
    }
  }

  // ----- The alert takes another category's row

  lemma {:induction false} OneRunEach(m: string)
    ensures var w := [OneRun(m, "code", 1.0), OneRun(m, "planning", 0.1)];
            && Window(w, None) == w
            && forall c ::
                 Select(w, Key(m, c)) == if c == "code" then [w[0]] else if c == "planning" then [w[1]] else []
  {
    var code, planning := OneRun(m, "code", 1.0), OneRun(m, "planning", 0.1);
    var w := [code, planning];
    OneRunWindow(code);
    OneRunWindow(planning);
    FilterTogether([code], [planning], Wanted(None, None, None));
    assert w == [code] + [planning];
    forall c
      ensures Select(w, Key(m, c)) == if c == "code" then [code] else if c == "planning" then [planning] else []
    {
      assert |"planning"| != |"code"|;
      assert w[..1] == [code];
      assert Select(w, Key(m, c)) == Select([code], Key(m, c)) + if planning.key == Key(m, c) then [planning] else [];
    }
  }

  /** Two runs of a model without a prior, on a code task and on a planning task. */
  lemma {:induction false} TwoRuns(p: Priors, m: string)
    requires forall c :: PriorFor(p, Key(m, c)).None?
    ensures var w := [OneRun(m, "code", 1.0), OneRun(m, "planning", 0.1)];
            && Window(w, None) == w && AlertTakes(w, p, Key(m, "code")) && Unblended(w, p, Key(m, "planning"))
            && Price(w, p, Key(m, "code")) == 1.0 && Price(w, p, Key(m, "planning")) == 0.1
  {
    var w := [OneRun(m, "code", 1.0), OneRun(m, "planning", 0.1)];
    OneRunEach(m);
    CostOfOne(w[0]);
    CostOfOne(w[1]);
    assert Unblended(w, p, Key(m, "code"));
    StringTotal("code", "code");
    assert "code"[0] < "planning"[0];
  }

  /** With half a dollar left for a planning task, the alert, which takes the first category's row, halts, and the
      recommender has the model within the budget: such as "deepseek-v3". */
  lemma {:induction false} OtherCategoryHalts(p: Priors, m: string, topK: nat) returns (rows: seq<Row>, r: Request)
    requires NoTwice(p.table) && (forall c :: PriorFor(p, Key(m, c)).None?) && topK > 0
    ensures rows == [OneRun(m, "code", 1.0), OneRun(m, "planning", 0.1)] && r == Ask(p, rows, "planning", [m])
    ensures !Affordable(StatsFor(rows, p, None, None, None), r, 0.5) && Recommends(r, 0.5, topK)
  {
    rows := [OneRun(m, "code", 1.0), OneRun(m, "planning", 0.1)];
    r := Ask(p, rows, "planning", [m]);
    TwoRuns(p, m);
    OnlyCount(rows, r, Key(m, "code"), 0.5);
    OnlyOffer(rows, None, r, m, 0.5);
    RecommendsWhatIsOnOffer(r, 0.5, topK);
  }
}
