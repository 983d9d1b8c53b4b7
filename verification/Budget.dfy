/** Spend tracking across a dispatch run. */
module Budget {
  import opened Options
  import opened Recommender
  import opened Reals

  datatype Spend = Spend(modelId: string, task: string, cost: real)

  /** What the telemetry recorder answered: a result, or an error (also when it raised). */
  datatype Recorded = Stored | Failed(error: string)

  function Clamp(x: real): real {
    if x > 0.0 then x else 0.0
  }

  function TotalCost(entries: seq<Spend>): real {
    if entries == [] then 0.0 else TotalCost(entries[..|entries| - 1]) + entries[|entries| - 1].cost
  }

  lemma TotalAppend(entries: seq<Spend>, e: Spend)
    ensures TotalCost(entries + [e]) == TotalCost(entries) + e.cost
  {
    assert (entries + [e])[..|entries|] == entries;
  }

  class Budget {
    const cap: real
    const opening: real
    var spent: real
    var entries: seq<Spend>

    /** The entries account for every cent spent since the budget was opened. */
    ghost predicate Valid()
      reads this
    {
      spent == opening + TotalCost(entries) && forall i | 0 <= i < |entries| :: entries[i].cost >= 0.0
    }

    constructor (cap: real, spent: real)
      ensures Valid() && this.cap == cap && this.spent == spent && entries == []
    {
      this.cap, this.opening, this.spent := cap, spent, spent;
      entries := [];
    }

    function Remaining(): real
      reads this
    {
      cap - spent
    }

    method Debit(cost: real, modelId: string, task: string) returns (remaining: real)
      requires Valid()
      modifies this
      ensures Valid() && entries == old(entries) + [Spend(modelId, task, Clamp(cost))]
      ensures remaining == Remaining() == old(Remaining()) - (if cost > 0.0 then cost else 0.0) <= old(Remaining())
      ensures Remaining() == cap - spent
    {
      var clamped := Clamp(cost);
      TotalAppend(entries, Spend(modelId, task, clamped));
      spent := spent + clamped;
      entries := entries + [Spend(modelId, task, clamped)];
      remaining := Remaining();
    }

    /** `select_model_for_task`: the head recommendation for an equal share of what remains. */
    method SelectModelForTask(r: Request, remainingTasks: int) returns (choice: Option<Recommendation>)
      requires Valid()
      ensures var tasks := if remainingTasks > 1 then remainingTasks else 1;
              var request := r.(budget := Some(Remaining() / tasks as real));
              var results := Recommended(request, 5);
              choice == if results == [] then None else Some(results[0])
      ensures choice.Some? && !choice.value.budgetWarning ==>
                var tasks := if remainingTasks > 1 then remainingTasks else 1;
                choice.value.row.stat.avgCost * tasks as real <= Remaining()
    {
      var tasks := if remainingTasks > 1 then remainingTasks else 1;
      var request := r.(budget := Some(Remaining() / tasks as real));
      var results := Recommend(request, 5);
      if results == [] {
        return None;
      }
      choice := Some(results[0]);
      HeadFits(request, 5);
      ShareFits(choice.value.row.stat.avgCost, Remaining(), tasks as real);
    }

    /** `log_dispatch_outcome`: the cost is debited unless recording failed. */
    method LogDispatchOutcome(modelId: string, task: string, cost: real, recorded: Recorded)
      requires Valid()
      modifies this
      ensures Valid() && Remaining() == AfterOutcome(old(Remaining()), cost, recorded)
      ensures entries == if recorded.Failed? then old(entries) else old(entries) + [Spend(modelId, task, Clamp(cost))]
    {
      if recorded.Stored? {
        var _ := Debit(cost, modelId, task);
      }
    }
  }

  /** A head recommendation without a warning costs no more than the budget it was asked for. */
  lemma HeadFits(r: Request, topK: nat)
    requires r.budget.Some? && Recommended(r, topK) != []
    ensures !Recommended(r, topK)[0].budgetWarning ==> Recommended(r, topK)[0].row.stat.avgCost <= r.budget.value
  {
    RecommendationsAreRanked(r, topK);
    var head := Recommended(r, topK)[0].row;
    if row :| IsAdmitted(r, row) && Fits(r, row) {
      BudgetIsRespected(r, topK, row);
    } else {
      CheapestIsFallback(r, topK, head);
    }
  }

  lemma ShareFits(cost: real, remaining: real, tasks: real)
    requires tasks >= 1.0
    ensures cost <= remaining / tasks ==> cost * tasks <= remaining
  {
    assert remaining / tasks * tasks == remaining;
    if cost <= remaining / tasks {
      assert cost * tasks <= remaining / tasks * tasks;
    }
  }

  // ----- A whole run

  datatype Dispatch = Dispatch(cost: real, recorded: Recorded)

  function AfterOutcome(remaining: real, cost: real, recorded: Recorded): real {
    if recorded.Failed? then remaining else remaining - Clamp(cost)
  }

  /** What remains after the first dispatches of a run. */
  function RemainingAfter(start: real, run: seq<Dispatch>): real {
    if run == [] then start else
    var last := run[|run| - 1];
    AfterOutcome(RemainingAfter(start, run[..|run| - 1]), last.cost, last.recorded)
  }

  /** Every dispatch costs at most an equal share of what remains for it and the tasks after it. */
  ghost predicate WithinShares(start: real, run: seq<Dispatch>, tasks: nat) {
    forall j | 0 <= j < |run| && j < tasks ::
      Product(run[j].cost, (tasks - j) as real) <= RemainingAfter(start, run[..j])
  }

  lemma CancelLeft(x: real, y: real, k: real)
    requires k >= 1.0 && x * k >= y * k
    ensures x >= y
  {
  }

  lemma PaidStep(start: real, n: real, left: real, remaining: real, cost: real)
    requires n > 0.0 && left >= 1.0 && remaining * n >= start * left && cost * left <= remaining
    ensures (remaining - cost) * n >= start * (left - 1.0)
  {
    assert (remaining - cost) * left >= remaining * (left - 1.0);
    Scale(remaining * (left - 1.0), (remaining - cost) * left, n);
    Scale(start * left, remaining * n, left - 1.0);
    assert (remaining - cost) * left * n == (remaining - cost) * n * left;
    assert remaining * (left - 1.0) * n == remaining * n * (left - 1.0);
    assert start * left * (left - 1.0) == start * (left - 1.0) * left;
    CancelLeft((remaining - cost) * n, start * (left - 1.0), left);
  }

  lemma ShareStep(start: real, n: real, left: real, remaining: real, cost: real, after: real)
    requires n > 0.0 && left >= 1.0 && start >= 0.0
    requires Product(remaining, n) >= Product(start, left) && Product(cost, left) <= remaining
    requires after == remaining || after == remaining - Clamp(cost)
    ensures Product(after, n) >= Product(start, left - 1.0) >= 0.0 && after >= 0.0
  {
    assert start * left >= start * (left - 1.0) >= 0.0;
    if cost > 0.0 {
      PaidStep(start, n, left, remaining, cost);
    }
    NonNegativeQuotient(after, n);
  }

  lemma NonNegativeQuotient(x: real, n: real)
    requires n > 0.0
    ensures x * n >= 0.0 ==> x >= 0.0
  {
  }

  /** After j of n tasks that keep to their shares, the books show at least (n-j)/n of the opening balance left: they
      never show an overspent budget, whatever was and was not recorded. */
  lemma {:induction false} SharesLastTheRun(start: real, run: seq<Dispatch>, tasks: nat)
    requires start >= 0.0 && 0 < tasks && |run| <= tasks && WithinShares(start, run, tasks)
    ensures Product(RemainingAfter(start, run), tasks as real) >= Product(start, (tasks - |run|) as real)
    ensures 0.0 <= RemainingAfter(start, run) <= start
  {
    if run != [] {
      var j := |run| - 1;
      forall i | 0 <= i < j ensures run[..j][..i] == run[..i] {
      }
      SharesLastTheRun(start, run[..j], tasks);
      ShareStep(start, tasks as real, (tasks - j) as real, RemainingAfter(start, run[..j]), run[j].cost,
                RemainingAfter(start, run));
    }
  }

  // ----- What was really spent

  function ActualCost(run: seq<Dispatch>): real {
    if run == [] then 0.0 else ActualCost(run[..|run| - 1]) + Clamp(run[|run| - 1].cost)
  }

  /** The cost of the dispatches whose recording failed, which the books leave out. */
  function Unrecorded(run: seq<Dispatch>): real {
    if run == [] then 0.0 else
    var last := run[|run| - 1];
    Unrecorded(run[..|run| - 1]) + if last.recorded.Failed? then Clamp(last.cost) else 0.0
  }

  lemma {:induction false} CostAddsUp(start: real, run: seq<Dispatch>)
    ensures ActualCost(run) == start - RemainingAfter(start, run) + Unrecorded(run)
  {
    if run != [] {
      CostAddsUp(start, run[..|run| - 1]);
    }
  }

  lemma {:induction false} AllRecorded(run: seq<Dispatch>)
    requires forall i | 0 <= i < |run| :: run[i].recorded.Stored?
    ensures Unrecorded(run) == 0.0
  {
    if run != [] {
      AllRecorded(run[..|run| - 1]);
    }
  }

  /** What a run really cost stays within the opening balance exactly when what failed to be recorded is no more than
      the books show as left. */
  lemma {:induction false} StaysWithinExactlyWhen(start: real, run: seq<Dispatch>)
    ensures ActualCost(run) <= start <==> Unrecorded(run) <= RemainingAfter(start, run)
  {
    CostAddsUp(start, run);
  }

  /** So a run that keeps to its shares, and whose dispatches are all recorded, never overspends. */
  lemma {:induction false} RecordedSharesNeverOverspend(start: real, run: seq<Dispatch>, tasks: nat)
    requires start >= 0.0 && 0 < tasks && |run| <= tasks && WithinShares(start, run, tasks)
    requires forall i | 0 <= i < |run| :: run[i].recorded.Stored?
    ensures ActualCost(run) <= start
  {
    SharesLastTheRun(start, run, tasks);
    AllRecorded(run);
    StaysWithinExactlyWhen(start, run);
  }

  /** And one with a failed recording can: half the budget spent unrecorded, then all of it. */
  lemma {:induction false} UnrecordedCanOverspend() returns (run: seq<Dispatch>)
    ensures |run| == 2 && WithinShares(1.0, run, 2) && ActualCost(run) == 1.5
  {
    var first, second := Dispatch(0.5, Failed("recorder down")), Dispatch(1.0, Stored);
    run := [first, second];
    assert run[..0] == [] && run[..1] == [first] && [first][..0] == [];
    assert RemainingAfter(1.0, [first]) == 1.0;
    assert ActualCost([first]) == 0.5;
    forall j | 0 <= j < 2 ensures Product(run[j].cost, (2 - j) as real) <= RemainingAfter(1.0, run[..j]) {
    }
  }
}
