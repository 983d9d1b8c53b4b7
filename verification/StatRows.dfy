/** The rows of the model statistics: one for each model and category, from the source the rules say. */
module StatRows {
  import opened Options
  import opened Sorting
  import opened StatKinds
  import opened ModelStats

  ghost predicate KeysApart(stats: seq<Stat>) {
    forall i, j | 0 <= i < j < |stats| :: stats[i].key != stats[j].key
  }

  predicate PassesFilters(p: Priors, row: PriorRow, model: Option<string>, category: Option<string>) {
    (category.Some? ==> row.category == category.value) && (model.Some? ==> p.canonical(model.value) == row.model)
  }

  function CandidateKey(row: PriorRow, model: Option<string>): Key {
    Key(if model.Some? then model.value else row.model, row.category)
  }

  /** The filters let a prior through under this key. */
  ghost predicate Offers(p: Priors, table: seq<PriorRow>, model: Option<string>, category: Option<string>, key: Key) {
    exists i | 0 <= i < |table| ::
      PassesFilters(p, table[i], model, category) && CandidateKey(table[i], model) == key
  }

  lemma {:induction false} OneMoreOffer(p: Priors, table: seq<PriorRow>, model: Option<string>,
                                        category: Option<string>,
                                        key: Key)
    requires table != []
    ensures var row := table[|table| - 1];
            Offers(p, table, model, category, key)
            <==> Offers(p, table[..|table| - 1], model, category, key)
                 || (PassesFilters(p, row, model, category) && CandidateKey(row, model) == key)
  {
    assert table == table[..|table| - 1] + [table[|table| - 1]];
  }

  /** The table lists a model and category at most once. */
  ghost predicate NoTwice(table: seq<PriorRow>) {
    forall i, j | 0 <= i < j < |table| :: table[i].model != table[j].model || table[i].category != table[j].category
  }

  ghost predicate CandidatesOk(p: Priors, table: seq<PriorRow>, model: Option<string>, category: Option<string>,
                               candidates: seq<Stat>) {
    && KeysApart(candidates)
    && (forall k :: HasKey(candidates, k) <==> Offers(p, table, model, category, k))
    && forall i | 0 <= i < |candidates| :: candidates[i].source == Prior
  }

  lemma {:induction false} CandidatesFacts(p: Priors, table: seq<PriorRow>, model: Option<string>,
                                           category: Option<string>)
    requires NoTwice(table)
    ensures CandidatesOk(p, table, model, category, Candidates(p, table, model, category))
  {
    if table != [] {
      var n := |table| - 1;
      var front, row := Candidates(p, table[..n], model, category), table[n];
      CandidatesFacts(p, table[..n], model, category);
      forall k ensures Offers(p, table, model, category, k)
                       <==> Offers(p, table[..n], model, category, k)
                            || (PassesFilters(p, row, model, category) && CandidateKey(row, model) == k) {
        OneMoreOffer(p, table, model, category, k);
      }
      if PassesFilters(p, row, model, category) {
        var key := CandidateKey(row, model);
        assert !Offers(p, table[..n], model, category, key);
        AppendApart(front, PriorStat(key, row));
      }
    }
  }

  lemma {:induction false} AppendApart(stats: seq<Stat>, s: Stat)
    requires KeysApart(stats) && !HasKey(stats, s.key)
    ensures KeysApart(stats + [s])
    ensures forall k :: HasKey(stats + [s], k) <==> HasKey(stats, k) || k == s.key
  {
    assert (stats + [s])[..|stats|] == stats && (stats + [s])[..|stats| + 1] == stats + [s];
    SeenGrows(stats + [s], |stats|);
  }

  lemma {:induction false} UnseenFacts(candidates: seq<Stat>, observed: seq<Stat>)
    requires KeysApart(candidates)
    ensures KeysApart(Unseen(candidates, observed))
    ensures forall k :: HasKey(Unseen(candidates, observed), k) <==> HasKey(candidates, k) && !HasKey(observed, k)
    ensures forall s :: s in Unseen(candidates, observed) ==> s in candidates
  {
    if candidates != [] {
      var n := |candidates| - 1;
      UnseenFacts(candidates[..n], observed);
      assert candidates == candidates[..n] + [candidates[n]];
      AppendApart(candidates[..n], candidates[n]);
      var front := Unseen(candidates[..n], observed);
      if HasKey(observed, candidates[n].key) {
        assert Unseen(candidates, observed) == front;
      } else {
        AppendApart(front, candidates[n]);
        assert Unseen(candidates, observed) == front + [candidates[n]];
      }
    }
  }

  /** What a row's source says. */
  ghost predicate SourceOk(rows: seq<Row>, p: Priors, s: Stat) {
    var n := |Select(rows, s.key)|;
    && (s.source == Prior <==> n == 0)
    && (s.source == Blended <==> 0 < n < 10 && PriorFor(p, s.key).Some?)
    && (s.source != Prior ==> s.sampleCount == n)
  }

  lemma {:induction false} SettledFacts(rows: seq<Row>, p: Priors, settled: seq<Stat>)
    requires settled == SettleAll(ObservedIn(rows), p)
    ensures KeysApart(settled)
    ensures forall k :: HasKey(settled, k) <==> Select(rows, k) != []
    ensures forall i | 0 <= i < |settled| :: SourceOk(rows, p, settled[i])
  {
    KeysFacts(rows);
    var keys := Keys(rows);
    forall i | 0 <= i < |settled| ensures settled[i].key == keys[i] {
    }
    forall k | Select(rows, k) != [] ensures HasKey(settled, k) {
      var i :| 0 <= i < |keys| && keys[i] == k;
      assert settled[i].key == k;
    }
  }

  lemma {:induction false} JoinApart(a: seq<Stat>, b: seq<Stat>)
    requires KeysApart(a) && KeysApart(b) && forall k :: HasKey(b, k) ==> !HasKey(a, k)
    ensures KeysApart(a + b)
    ensures forall k :: HasKey(a + b, k) <==> HasKey(a, k) || HasKey(b, k)
  {
    forall i, j | 0 <= i < |a| && 0 <= j < |b| ensures a[i].key != b[j].key {
      assert HasKey(b, b[j].key);
    }
    forall k | HasKey(b, k) ensures HasKey(a + b, k) {
      var j :| 0 <= j < |b| && b[j].key == k;
      assert (a + b)[|a| + j].key == k;
    }
    forall k | HasKey(a, k) ensures HasKey(a + b, k) {
      var i :| 0 <= i < |a| && a[i].key == k;
      assert (a + b)[i].key == k;
    }
  }

  function KeyOf(): Stat -> Key {
    (s: Stat) => s.key
  }

  lemma {:induction false} PermutedStats(a: seq<Stat>, b: seq<Stat>)
    requires KeysApart(a) && multiset(a) == multiset(b)
    ensures KeysApart(b)
    ensures forall k :: HasKey(b, k) <==> HasKey(a, k)
    ensures forall s :: s in b <==> s in a
  {
    forall i, j | 0 <= i < j < |a| ensures KeyOf()(a[i]) != KeyOf()(a[j]) {
    }
    ApartPermutes(a, b, KeyOf());
    forall i, j | 0 <= i < j < |b| ensures b[i].key != b[j].key {
      assert KeyOf()(b[i]) != KeyOf()(b[j]);
    }
    forall s ensures s in b <==> s in a {
      assert s in b <==> s in multiset(b);
    }
    forall k | HasKey(a, k) ensures HasKey(b, k) {
      var i :| 0 <= i < |a| && a[i].key == k;
      assert a[i] in b;
    }
    forall k | HasKey(b, k) ensures HasKey(a, k) {
      var i :| 0 <= i < |b| && b[i].key == k;
      assert b[i] in a;
    }
  }

  lemma {:induction false} CategoryThenModelIsOrder()
    ensures TotalPreorder(ByCategoryThenModel())
  {
    StringOrder();
  }

  /** The result, sorted by category and then model, has exactly one row for each model and category that was observed
      or is offered by the prior table: the prior itself exactly when nothing was observed, a blend exactly for fewer
      than ten samples with a prior. */
  lemma {:induction false} OneRowPerKey(rows: seq<Row>, p: Priors, model: Option<string>, category: Option<string>,
                                        results: seq<Stat>)
    requires NoTwice(p.table) && results == Sort(Results(ObservedIn(rows), p, model, category), ByCategoryThenModel())
    ensures KeysApart(results) && SortedBy(ByCategoryThenModel(), results)
    ensures forall k :: HasKey(results, k) <==> Select(rows, k) != [] || Offers(p, p.table, model, category, k)
    ensures forall s | s in results :: SourceOk(rows, p, s)
  {
    var observed := ObservedIn(rows);
    var settled, candidates := SettleAll(observed, p), Candidates(p, p.table, model, category);
    var unseen := Unseen(candidates, observed);
    SettledFacts(rows, p, settled);
    CandidatesFacts(p, p.table, model, category);
    UnseenFacts(candidates, observed);
    SameKeys(observed, settled, p);
    JoinApart(settled, unseen);
    forall i | 0 <= i < |unseen| ensures unseen[i].source == Prior && !HasKey(settled, unseen[i].key) {
      assert unseen[i] in candidates;
      assert HasKey(unseen, unseen[i].key);
    }
    forall s | s in settled + unseen ensures SourceOk(rows, p, s) {
      JoinedSource(rows, p, settled, unseen, s);
    }
    CategoryThenModelIsOrder();
    SortIsSorted(settled + unseen, ByCategoryThenModel());
    SortIsPermutation(settled + unseen, ByCategoryThenModel());
    PermutedStats(settled + unseen, results);
  }

  lemma {:induction false} SameKeys(observed: seq<Stat>, settled: seq<Stat>, p: Priors)
    requires settled == SettleAll(observed, p)
    ensures forall k :: HasKey(observed, k) <==> HasKey(settled, k)
  {
    forall k | HasKey(observed, k) ensures HasKey(settled, k) {
      var i :| 0 <= i < |observed| && observed[i].key == k;
      assert settled[i].key == k;
    }
    forall k | HasKey(settled, k) ensures HasKey(observed, k) {
      var i :| 0 <= i < |settled| && settled[i].key == k;
      assert observed[i].key == k;
    }
  }

  lemma {:induction false} JoinedSource(rows: seq<Row>, p: Priors, settled: seq<Stat>, unseen: seq<Stat>, s: Stat)
    requires s in settled + unseen
    requires forall i | 0 <= i < |settled| :: SourceOk(rows, p, settled[i])
    requires forall k :: HasKey(settled, k) <==> Select(rows, k) != []
    requires forall i | 0 <= i < |unseen| :: unseen[i].source == Prior && !HasKey(settled, unseen[i].key)
    ensures SourceOk(rows, p, s)
  {
    var i :| 0 <= i < |settled + unseen| && (settled + unseen)[i] == s;
    if i >= |settled| {
      assert s == unseen[i - |settled|];
    }
  }

  lemma {:induction false} FoundPrior(table: seq<PriorRow>, model: string, category: string) returns (i: nat)
    requires FirstPrior(table, model, category).Some?
    ensures i < |table| && table[i].model == model && table[i].category == category
  {
    if table[0].model == model && table[0].category == category {
      i := 0;
    } else {
      i := FoundPrior(table[1..], model, category);
      i := i + 1;
    }
  }

  /** Without a model filter, a prior that was blended into the row of a model observed under another name is listed in
      its own right as well, unless its own name was observed too. */
  lemma {:induction false} AliasKeepsPrior(rows: seq<Row>, p: Priors, results: seq<Stat>, key: Key)
    requires NoTwice(p.table) && results == Sort(Results(ObservedIn(rows), p, None, None), ByCategoryThenModel())
    requires 0 < |Select(rows, key)| < 10 && PriorFor(p, key).Some?
    ensures exists s :: s in results && s.key == key && s.source == Blended
    ensures var own := Key(p.canonical(key.model), key.category);
            (exists s :: s in results && s.key == own && s.source == Prior) <==> Select(rows, own) == []
  {
    var own := Key(p.canonical(key.model), key.category);
    OneRowPerKey(rows, p, None, None, results);
    var k := FoundPrior(p.table, own.model, own.category);
    assert PassesFilters(p, p.table[k], None, None) && CandidateKey(p.table[k], None) == own;
    assert HasKey(results, key) && HasKey(results, own);
    var i :| 0 <= i < |results| && results[i].key == key;
    var j :| 0 <= j < |results| && results[j].key == own;
    assert results[i] in results && results[j] in results;
  }

  // ----- Each row in terms of telemetry

  /** Seen, and not blended. */
  predicate Unblended(rows: seq<Row>, p: Priors, key: Key) {
    var n := |Select(rows, key)|;
    n > 0 && (n < 10 ==> PriorFor(p, key).None?)
  }

  /** Not seen, but listed in the prior table under its own name. */
  predicate OwnPrior(rows: seq<Row>, p: Priors, key: Key) {
    Select(rows, key) == [] && FirstPrior(p.table, key.model, key.category).Some?
  }

  /** The row for a model and category that was seen or is listed. */
  function RowOf(rows: seq<Row>, p: Priors, key: Key): Stat
    requires Select(rows, key) != [] || OwnPrior(rows, p, key)
  {
    if Select(rows, key) != [] then Settled(StatOf(key, Select(rows, key)), p)
    else PriorStat(key, FirstPrior(p.table, key.model, key.category).value)
  }

  lemma {:induction false} FirstPriorIs(table: seq<PriorRow>, i: nat)
    requires NoTwice(table) && i < |table|
    ensures FirstPrior(table, table[i].model, table[i].category) == Some(table[i])
  {
    if i > 0 {
      FirstPriorIs(table[1..], i - 1);
    }
  }

  lemma {:induction false} OffersIsListed(p: Priors, category: Option<string>, key: Key)
    ensures Offers(p, p.table, None, category, key)
            <==> (category.Some? ==> key.category == category.value)
                 && FirstPrior(p.table, key.model, key.category).Some?
  {
    if FirstPrior(p.table, key.model, key.category).Some? {
      var i := FoundPrior(p.table, key.model, key.category);
    }
    if i :| 0 <= i < |p.table|
            && PassesFilters(p, p.table[i], None, category) && CandidateKey(p.table[i], None) == key {
      ListedIsFound(p.table, i);
    }
  }

  lemma {:induction false} ListedIsFound(table: seq<PriorRow>, i: nat)
    requires i < |table|
    ensures FirstPrior(table, table[i].model, table[i].category).Some?
  {
    if i > 0 {
      ListedIsFound(table[1..], i - 1);
    }
  }

  lemma {:induction false} CandidateRows(p: Priors, table: seq<PriorRow>, category: Option<string>, s: Stat)
    returns (i: nat)
    requires s in Candidates(p, table, None, category)
    ensures i < |table| && s == PriorStat(Key(table[i].model, table[i].category), table[i])
  {
    var n := |table| - 1;
    if s in Candidates(p, table[..n], None, category) {
      i := CandidateRows(p, table[..n], category, s);
    } else {
      i := n;
    }
  }

  lemma {:induction false} SettledRows(rows: seq<Row>, p: Priors, s: Stat)
    requires s in SettleAll(ObservedIn(rows), p)
    ensures Select(rows, s.key) != [] && s == RowOf(rows, p, s.key)
  {
    var settled := SettleAll(ObservedIn(rows), p);
    var i :| 0 <= i < |settled| && settled[i] == s;
    assert ObservedIn(rows)[i] == StatOf(Keys(rows)[i], Select(rows, Keys(rows)[i]));
  }

  lemma {:induction false} UnseenRows(rows: seq<Row>, p: Priors, category: Option<string>, s: Stat)
    requires NoTwice(p.table) && s in Unseen(Candidates(p, p.table, None, category), ObservedIn(rows))
    ensures OwnPrior(rows, p, s.key) && s == RowOf(rows, p, s.key)
  {
    var candidates, settled := Candidates(p, p.table, None, category), SettleAll(ObservedIn(rows), p);
    CandidatesFacts(p, p.table, None, category);
    UnseenFacts(candidates, ObservedIn(rows));
    var unseen := Unseen(candidates, ObservedIn(rows));
    var j :| 0 <= j < |unseen| && unseen[j] == s;
    assert HasKey(unseen, s.key);
    SameKeys(ObservedIn(rows), settled, p);
    SettledFacts(rows, p, settled);
    var i := CandidateRows(p, p.table, category, s);
    FirstPriorIs(p.table, i);
  }

  /** Without a model filter, the rows are exactly those of what was seen or is listed, each as said. */
  lemma {:induction false} RowsAre(rows: seq<Row>, p: Priors, category: Option<string>, results: seq<Stat>)
    requires NoTwice(p.table) && results == Sort(Results(ObservedIn(rows), p, None, category), ByCategoryThenModel())
    requires category.Some? ==> forall row | row in rows :: row.key.category == category.value
    ensures KeysApart(results) && SortedBy(ByCategoryThenModel(), results)
    ensures forall s | s in results ::
              (Select(rows, s.key) != [] || OwnPrior(rows, p, s.key)) && s == RowOf(rows, p, s.key)
    ensures forall key :: HasKey(results, key)
              <==> (category.Some? ==> key.category == category.value)
                   && (Select(rows, key) != [] || OwnPrior(rows, p, key))
  {
    OneRowPerKey(rows, p, None, category, results);
    var settled := SettleAll(ObservedIn(rows), p);
    var unseen := Unseen(Candidates(p, p.table, None, category), ObservedIn(rows));
    SortIsPermutation(settled + unseen, ByCategoryThenModel());
    forall s | s in results
      ensures (Select(rows, s.key) != [] || OwnPrior(rows, p, s.key)) && s == RowOf(rows, p, s.key)
    {
      assert s in multiset(results) && s in settled + unseen;
      if s in settled {
        SettledRows(rows, p, s);
      } else {
        UnseenRows(rows, p, category, s);
      }
    }
    forall key ensures Offers(p, p.table, None, category, key)
                       <==> (category.Some? ==> key.category == category.value)
                            && FirstPrior(p.table, key.model, key.category).Some? {
      OffersIsListed(p, category, key);
    }
    forall key | category.Some? && Select(rows, key) != [] ensures key.category == category.value {
      SelectMembers(rows, key);
    }
  }

  lemma {:induction false} SelectMembers(rows: seq<Row>, key: Key)
    ensures forall row | row in Select(rows, key) :: row in rows && row.key == key
    ensures Select(rows, key) != [] ==> exists row :: row in rows && row.key == key
  {
    if rows != [] {
      SelectMembers(rows[..|rows| - 1], key);
      assert rows == rows[..|rows| - 1] + [rows[|rows| - 1]];
    }
  }
}
