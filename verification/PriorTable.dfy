/** The prior table and the aliases the program ships with. */
module PriorTable {
  import opened Options
  import opened Names
  import opened ModelStats
  import StatRows

  const PRIOR_ROWS: seq<PriorRow> := [
    PriorRow("opus", "code", 0.94, 0.060, 1400.0, 5200.0),
    PriorRow("opus", "review", 0.95, 0.050, 1100.0, 4800.0),
    PriorRow("opus", "planning", 0.92, 0.045, 900.0, 4300.0),
    PriorRow("sonnet", "code", 0.86, 0.018, 1200.0, 3300.0),
    PriorRow("sonnet", "review", 0.84, 0.014, 950.0, 3000.0),
    PriorRow("sonnet", "planning", 0.82, 0.012, 800.0, 2800.0),
    PriorRow("haiku", "code", 0.68, 0.004, 900.0, 1600.0),
    PriorRow("haiku", "review", 0.66, 0.003, 750.0, 1450.0),
    PriorRow("haiku", "planning", 0.64, 0.003, 650.0, 1350.0),
    PriorRow("gpt-4o", "code", 0.88, 0.020, 1200.0, 3200.0),
    PriorRow("gpt-4o", "review", 0.86, 0.016, 950.0, 3000.0),
    PriorRow("gpt-4o", "planning", 0.84, 0.014, 800.0, 2700.0),
    PriorRow("gpt-4o-mini", "code", 0.72, 0.003, 900.0, 1500.0),
    PriorRow("gpt-4o-mini", "review", 0.70, 0.0025, 750.0, 1400.0),
    PriorRow("gpt-4o-mini", "planning", 0.69, 0.002, 650.0, 1300.0),
    PriorRow("codex-5.5", "code", 0.90, 0.025, 1300.0, 3600.0),
    PriorRow("codex-5.5", "review", 0.87, 0.020, 1000.0, 3300.0),
    PriorRow("codex-5.5", "planning", 0.80, 0.016, 800.0, 3000.0)]

  const ALIASES: seq<(string, string)> :=
    [("claude-opus", "opus"), ("opus", "opus"), ("claude-sonnet", "sonnet"), ("sonnet", "sonnet"),
     ("claude-haiku", "haiku"), ("haiku", "haiku"), ("gpt-4o-mini", "gpt-4o-mini"), ("gpt-4o", "gpt-4o"),
     ("codex-5.5", "codex-5.5")]

  function AliasFrom(lower: string, aliases: seq<(string, string)>): string {
    if aliases == [] then lower
    else if Contains(lower, aliases[0].0) then aliases[0].1
    else AliasFrom(lower, aliases[1..])
  }

  /** `_canonical_model_id`. */
  function Canonical(modelId: string): string {
    AliasFrom(Lower(modelId), ALIASES)
  }

  function ShippedPriors(): Priors {
    Priors(PRIOR_ROWS, (modelId: string) => Canonical(modelId))
  }

  /** Six models with three categories each, told apart by length and first letter. */
  lemma {:induction false} ListedOnce()
    ensures StatRows.NoTwice(PRIOR_ROWS)
  {
    forall i, j | 0 <= i < j < |PRIOR_ROWS|
      ensures PRIOR_ROWS[i].model != PRIOR_ROWS[j].model || PRIOR_ROWS[i].category != PRIOR_ROWS[j].category
    {
      var a, b := PRIOR_ROWS[i], PRIOR_ROWS[j];
      assert |a.category| != |b.category| || |a.model| != |b.model| || a.model[0] != b.model[0];
    }
  }

  lemma {:induction false} LowerFixed(s: string)
    requires forall i | 0 <= i < |s| :: !('A' <= s[i] <= 'Z')
    ensures Lower(s) == s
  {
  }

  /** The first alias found counts. */
  lemma {:induction false} FirstAlias(lower: string, aliases: seq<(string, string)>, k: nat)
    requires k < |aliases| && Contains(lower, aliases[k].0)
    requires forall i | 0 <= i < k :: !Contains(lower, aliases[i].0)
    ensures AliasFrom(lower, aliases) == aliases[k].1
  {
    if k > 0 {
      FirstAlias(lower, aliases[1..], k - 1);
    }
  }

  lemma {:induction false} Gpt4oAlias()
    ensures Canonical("gpt-4o") == "gpt-4o"
  {
    LowerFixed("gpt-4o");
    forall i | 0 <= i < 7 ensures !Contains("gpt-4o", ALIASES[i].0) {
      NotFound("gpt-4o", ALIASES[i].0);
    }
    FirstAlias("gpt-4o", ALIASES, 7);
  }

  lemma {:induction false} OpusAlias()
    ensures Canonical("claude-opus-4") == "opus"
  {
    LowerFixed("claude-opus-4");
    assert "claude-opus" <= "claude-opus-4";
    FirstAlias("claude-opus-4", ALIASES, 0);
  }

  // ----- Two models

  /** "gpt-4o" is listed under its own name, for these categories and at these prices. */
  ghost predicate ListsGpt4o(p: Priors) {
    && StatRows.NoTwice(p.table) && p.canonical("gpt-4o") == "gpt-4o"
    && FirstPrior(p.table, "gpt-4o", "code").Some? && FirstPrior(p.table, "gpt-4o", "code").value.avgCost == 0.020
    && FirstPrior(p.table, "gpt-4o", "planning").Some?
    && FirstPrior(p.table, "gpt-4o", "planning").value.avgCost == 0.014
    && forall c :: FirstPrior(p.table, "gpt-4o", c).Some? ==> c == "code" || c == "planning" || c == "review"
  }

  /** "claude-opus-4" has the prior of another name, and is not listed itself. */
  ghost predicate AliasesOpus(p: Priors) {
    && StatRows.NoTwice(p.table) && p.canonical("claude-opus-4") == "opus"
    && FirstPrior(p.table, "opus", "code").Some? && FirstPrior(p.table, "opus", "code").value.avgCost == 0.060
    && forall i | 0 <= i < |p.table| :: p.table[i].model != "claude-opus-4"
  }

  lemma {:induction false} ThreeCategories(model: string, category: string)
    requires FirstPrior(PRIOR_ROWS, model, category).Some?
    ensures category == "code" || category == "planning" || category == "review"
  {
    var i := StatRows.FoundPrior(PRIOR_ROWS, model, category);
  }

  lemma {:induction false} Gpt4oPrices()
    ensures FirstPrior(PRIOR_ROWS, "gpt-4o", "code") == Some(PRIOR_ROWS[9]) && PRIOR_ROWS[9].avgCost == 0.020
    ensures FirstPrior(PRIOR_ROWS, "gpt-4o", "planning") == Some(PRIOR_ROWS[11]) && PRIOR_ROWS[11].avgCost == 0.014
  {
    ListedOnce();
    StatRows.FirstPriorIs(PRIOR_ROWS, 9);
    StatRows.FirstPriorIs(PRIOR_ROWS, 11);
  }

  lemma {:induction false} ShippedListsGpt4o()
    ensures ListsGpt4o(ShippedPriors())
  {
    ListedOnce();
    Gpt4oAlias();
    Gpt4oPrices();
    forall c | FirstPrior(PRIOR_ROWS, "gpt-4o", c).Some? ensures c == "code" || c == "planning" || c == "review" {
      ThreeCategories("gpt-4o", c);
    }
  }

  lemma {:induction false} OpusPrice()
    ensures FirstPrior(PRIOR_ROWS, "opus", "code") == Some(PRIOR_ROWS[0]) && PRIOR_ROWS[0].avgCost == 0.060
  {
    ListedOnce();
    StatRows.FirstPriorIs(PRIOR_ROWS, 0);
  }

  lemma {:induction false} ShortNames()
    ensures forall i | 0 <= i < |PRIOR_ROWS| :: |PRIOR_ROWS[i].model| < |"claude-opus-4"|
  {
  }

  lemma {:induction false} ShippedAliasesOpus()
    ensures AliasesOpus(ShippedPriors())
  {
    ListedOnce();
    OpusAlias();
    OpusPrice();
    ShortNames();
  }

  lemma {:induction false} DeepseekAlias()
    ensures Canonical("deepseek-v3") == "deepseek-v3"
  {
    LowerFixed("deepseek-v3");
    forall i | 0 <= i < |ALIASES| ensures !Contains("deepseek-v3", ALIASES[i].0) {
      NotFound("deepseek-v3", ALIASES[i].0);
    }
    NoAlias("deepseek-v3", ALIASES);
  }

  lemma {:induction false} NoAlias(lower: string, aliases: seq<(string, string)>)
    requires forall i | 0 <= i < |aliases| :: !Contains(lower, aliases[i].0)
    ensures AliasFrom(lower, aliases) == lower
  {
    if aliases != [] {
      NoAlias(lower, aliases[1..]);
    }
  }

  lemma {:induction false} NoDeepseekRow(c: string)
    ensures FirstPrior(PRIOR_ROWS, "deepseek-v3", c).None?
  {
    forall i | 0 <= i < |PRIOR_ROWS| ensures PRIOR_ROWS[i].model != "deepseek-v3" {
      assert |PRIOR_ROWS[i].model| != |"deepseek-v3"| || PRIOR_ROWS[i].model[0] == 'g';
    }
    if FirstPrior(PRIOR_ROWS, "deepseek-v3", c).Some? {
      var i := StatRows.FoundPrior(PRIOR_ROWS, "deepseek-v3", c);
    }
  }

  /** Nothing is known beforehand of "deepseek-v3". */
  lemma {:induction false} ShippedLacksDeepseek()
    ensures forall c :: PriorFor(ShippedPriors(), Key("deepseek-v3", c)).None?
  {
    DeepseekAlias();
    forall c ensures PriorFor(ShippedPriors(), Key("deepseek-v3", c)).None? {
      NoDeepseekRow(c);
    }
  }
}
