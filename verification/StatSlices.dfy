/** Statistics asked for by category are the slice of the statistics over all categories. */
module StatSlices {
  import opened Options
  import opened Sorting
  import opened ModelStats
  import opened StatRows

  function RowIn(category: string): Row -> bool {
    (row: Row) => row.key.category == category
  }

  function KeyIn(category: string): Key -> bool {
    (key: Key) => key.category == category
  }

  function StatIn(category: string): Stat -> bool {
    (s: Stat) => s.key.category == category
  }

  lemma {:induction false} WantedByCategory(rows: seq<Row>, model: Option<string>, category: string,
                                            cutoff: Option<int>)
    ensures Filter(rows, Wanted(model, Some(category), cutoff))
            == Filter(Filter(rows, Wanted(model, None, cutoff)), RowIn(category))
  {
    if rows != [] {
      WantedByCategory(rows[1..], model, category, cutoff);
      var first := if Wanted(model, None, cutoff)(rows[0]) then [rows[0]] else [];
      FilterTogether(first, Filter(rows[1..], Wanted(model, None, cutoff)), RowIn(category));
      assert [rows[0]][1..] == [];
    }
  }

  lemma {:induction false} SelectSlice(rows: seq<Row>, category: string, key: Key)
    requires key.category == category
    ensures Select(Filter(rows, RowIn(category)), key) == Select(rows, key)
  {
    if rows != [] {
      var n := |rows| - 1;
      var front, kept := rows[..n], Filter(rows[..n], RowIn(category));
      SelectSlice(front, category, key);
      FilterLast(rows, RowIn(category));
      if rows[n].key.category == category {
        assert (kept + [rows[n]])[..|kept|] == kept;
      } else {
        assert kept + [] == kept;
        assert Select(front, key) + [] == Select(front, key);
      }
    }
  }

  /** One more row, of the category or not. */
  lemma {:induction false} KeysSliceStep(front: seq<Row>, last: Row, kept: seq<Row>, category: string)
    requires Keys(kept) == Filter(Keys(front), KeyIn(category))
    ensures Keys(kept + if last.key.category == category then [last] else [])
            == Filter(Keys(front + [last]), KeyIn(category))
  {
    var keys := Keys(front);
    KeysAppend(front, last);
    KeysAppend(kept, last);
    FilterKeeps(keys, KeyIn(category));
    FilterTogether(keys, [last.key], KeyIn(category));
    assert [last.key][1..] == [];
    assert kept + [] == kept && Filter(keys, KeyIn(category)) + [] == Filter(keys, KeyIn(category));
  }

  lemma {:induction false} KeysSlice(rows: seq<Row>, category: string)
    ensures Keys(Filter(rows, RowIn(category))) == Filter(Keys(rows), KeyIn(category))
  {
    if rows != [] {
      var n := |rows| - 1;
      KeysSlice(rows[..n], category);
      FilterLast(rows, RowIn(category));
      KeysSliceStep(rows[..n], rows[n], Filter(rows[..n], RowIn(category)), category);
      assert rows[..n] + [rows[n]] == rows;
    }
  }

  ghost predicate Nonempty(keys: seq<Key>, rows: seq<Row>) {
    forall i | 0 <= i < |keys| :: Select(rows, keys[i]) != []
  }

  lemma {:induction false} ObserveFirst(keys: seq<Key>, rows: seq<Row>)
    requires keys != [] && Nonempty(keys, rows)
    ensures Nonempty(keys[1..], rows)
    ensures Observe(keys, rows) == [StatOf(keys[0], Select(rows, keys[0]))] + Observe(keys[1..], rows)
  {
    forall i | 0 <= i < |keys[1..]| ensures keys[1..][i] == keys[i + 1] {
    }
    SameStats(Observe(keys, rows), [StatOf(keys[0], Select(rows, keys[0]))], Observe(keys[1..], rows));
  }

  lemma {:induction false} SameStats(all: seq<Stat>, first: seq<Stat>, later: seq<Stat>)
    requires |first| == 1 && |all| == |later| + 1 && all[0] == first[0]
    requires forall i | 0 <= i < |later| :: all[i + 1] == later[i]
    ensures all == first + later
  {
    forall i | 0 < i < |all| ensures all[i] == (first + later)[i] {
      assert all[i - 1 + 1] == later[i - 1];
    }
  }

  lemma {:induction false} SliceNonempty(keys: seq<Key>, rows: seq<Row>, slice: seq<Row>, category: string)
    requires Nonempty(keys, rows)
    requires forall k | k in keys && k.category == category :: Select(slice, k) == Select(rows, k)
    ensures Nonempty(Filter(keys, KeyIn(category)), slice)
  {
    FilterKeeps(keys, KeyIn(category));
    var kept := Filter(keys, KeyIn(category));
    forall i | 0 <= i < |kept| ensures Select(slice, kept[i]) != [] {
      assert kept[i] in kept;
      var j :| 0 <= j < |keys| && keys[j] == kept[i];
    }
  }

  lemma {:induction false} ObserveSlice(keys: seq<Key>, rows: seq<Row>, slice: seq<Row>, category: string)
    requires Nonempty(keys, rows)
    requires forall k | k in keys && k.category == category :: Select(slice, k) == Select(rows, k)
    ensures Nonempty(Filter(keys, KeyIn(category)), slice)
    ensures Filter(Observe(keys, rows), StatIn(category)) == Observe(Filter(keys, KeyIn(category)), slice)
  {
    SliceNonempty(keys, rows, slice, category);
    if keys != [] {
      var stat := StatOf(keys[0], Select(rows, keys[0]));
      ObserveFirst(keys, rows);
      forall k | k in keys[1..] ensures k in keys {
      }
      ObserveSlice(keys[1..], rows, slice, category);
      var kept := Filter(keys[1..], KeyIn(category));
      FilterFirst(keys, KeyIn(category));
      FilterTogether([stat], Observe(keys[1..], rows), StatIn(category));
      assert [stat][1..] == [];
      if keys[0].category == category {
        ObserveFirst([keys[0]] + kept, slice);
        assert ([keys[0]] + kept)[1..] == kept;
      } else {
        assert Filter([stat], StatIn(category)) == [];
      }
    }
  }

  lemma {:induction false} ObservedSlice(rows: seq<Row>, category: string)
    ensures ObservedIn(Filter(rows, RowIn(category))) == Filter(ObservedIn(rows), StatIn(category))
  {
    var slice := Filter(rows, RowIn(category));
    GroupsNonempty(rows);
    GroupsNonempty(slice);
    assert ObservedIn(rows) == Observe(Keys(rows), rows) && ObservedIn(slice) == Observe(Keys(slice), slice);
    KeysSlice(rows, category);
    forall k | k in Keys(rows) && k.category == category ensures Select(slice, k) == Select(rows, k) {
      SelectSlice(rows, category, k);
    }
    ObserveSlice(Keys(rows), rows, slice, category);
  }

  lemma {:induction false} SettledSlice(observed: seq<Stat>, p: Priors, category: string)
    ensures SettleAll(Filter(observed, StatIn(category)), p) == Filter(SettleAll(observed, p), StatIn(category))
  {
    if observed != [] {
      SettledSlice(observed[1..], p, category);
      var settled := SettleAll(observed, p);
      assert settled[1..] == SettleAll(observed[1..], p);
      FilterFirst(settled, StatIn(category));
      FilterFirst(observed, StatIn(category));
    }
  }

  lemma {:induction false} CandidatesSlice(p: Priors, table: seq<PriorRow>, model: Option<string>, category: string)
    ensures Candidates(p, table, model, Some(category)) == Filter(Candidates(p, table, model, None), StatIn(category))
  {
    if table != [] {
      var n := |table| - 1;
      var front, all := Candidates(p, table[..n], model, None), Candidates(p, table, model, None);
      CandidatesSlice(p, table[..n], model, category);
      if |all| > |front| {
        FilterTogether(front, [all[|front|]], StatIn(category));
        assert [all[|front|]][1..] == [];
        assert all == front + [all[|front|]];
      }
    }
  }

  lemma {:induction false} KeySlice(stats: seq<Stat>, category: string, key: Key)
    requires key.category == category
    ensures HasKey(Filter(stats, StatIn(category)), key) <==> HasKey(stats, key)
  {
    FilterKeeps(stats, StatIn(category));
    var slice := Filter(stats, StatIn(category));
    if i :| 0 <= i < |stats| && stats[i].key == key {
      assert stats[i] in slice;
    }
    if i :| 0 <= i < |slice| && slice[i].key == key {
      assert slice[i] in stats;
    }
  }

  lemma {:induction false} UnseenSlice(candidates: seq<Stat>, observed: seq<Stat>, category: string)
    ensures Unseen(Filter(candidates, StatIn(category)), Filter(observed, StatIn(category)))
            == Filter(Unseen(candidates, observed), StatIn(category))
  {
    if candidates != [] {
      var n := |candidates| - 1;
      var last, kept := candidates[n], Filter(candidates[..n], StatIn(category));
      var unseen := Unseen(candidates[..n], observed);
      UnseenSlice(candidates[..n], observed, category);
      FilterLast(candidates, StatIn(category));
      FilterTogether(unseen, if HasKey(observed, last.key) then [] else [last], StatIn(category));
      assert [last][1..] == [];
      if last.key.category == category {
        KeySlice(observed, category, last.key);
        assert (kept + [last])[..|kept|] == kept;
      } else {
        assert kept + [] == kept;
        assert Filter(unseen, StatIn(category)) + [] == Filter(unseen, StatIn(category));
      }
    }
  }

  /** The rows for one category are those rows among all, in the same order. */
  lemma {:induction false} CategoryIsSlice(rows: seq<Row>, p: Priors, model: Option<string>, category: string,
                                           cutoff: Option<int>)
    ensures StatsFor(rows, p, model, Some(category), cutoff)
            == Filter(StatsFor(rows, p, model, None, cutoff), StatIn(category))
  {
    var all, slice := Filter(rows, Wanted(model, None, cutoff)), Filter(rows, Wanted(model, Some(category), cutoff));
    var observed, candidates := ObservedIn(all), Candidates(p, p.table, model, None);
    WantedByCategory(rows, model, category, cutoff);
    ObservedSlice(all, category);
    SettledSlice(observed, p, category);
    CandidatesSlice(p, p.table, model, category);
    UnseenSlice(candidates, observed, category);
    FilterTogether(SettleAll(observed, p), Unseen(candidates, observed), StatIn(category));
    CategoryThenModelIsOrder();
    FilterSort(Results(observed, p, model, None), ByCategoryThenModel(), StatIn(category));
  }
}
