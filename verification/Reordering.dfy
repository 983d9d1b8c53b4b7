/** Exactly which steps of the write queue can break the replay order. */
module Reordering {
  import opened WriteQueue
  import opened ReplayOrder

  /** Fine steps lead from s0 to s. */
  ghost predicate Goes(s0: State, run: seq<Action>, s: State) {
    IsRun(s0, run) && After(s0, run) == s && FineRun(s0, run) && Live(s)
  }

  lemma {:induction false} OneMoreFine(s0: State, run: seq<Action>, s: State, a: Action)
    requires IsRun(s0, run) && After(s0, run) == s && FineRun(s0, run) && Enabled(s, a) && Fine(s, a)
    ensures IsRun(s0, run + [a]) && After(s0, run + [a]) == Next(s, a) && FineRun(s0, run + [a])
    decreases |run|
  {
    if run != [] {
      OneMoreFine(Next(s0, run[0]), run[1..], s, a);
      assert (run + [a])[1..] == run[1..] + [a];
    }
  }

  lemma {:induction false} Go(s0: State, run: seq<Action>, s: State, a: Action) returns (run': seq<Action>, s': State)
    requires Goes(s0, run, s) && Enabled(s, a) && Fine(s, a)
    ensures Goes(s0, run', s') && s' == Next(s, a) && run' == run + [a]
  {
    StepIsLive(s, a);
    OneMoreFine(s0, run, s, a);
    run', s' := run + [a], Next(s, a);
  }

  // ----- Seeing the wrong thing last

  lemma {:induction false} CollapseMembers(log: seq<Entry>, x: Entry)
    ensures x in Collapse(log) <==> x in log
  {
    if log != [] {
      var n := |log| - 1;
      CollapseMembers(log[..n], x);
      assert log == log[..n] + [log[n]];
      if n > 0 && log[n - 1] == log[n] {
        assert log[..n][n - 1] == log[n];
      }
    }
  }

  lemma {:induction false} PrefixLast(c: seq<Entry>, all: seq<Entry>, k: nat, i: nat, j: nat)
    requires KeysDiffer(all) && j < i < |all| && k < |c| && c[k] == all[i] && c[|c| - 1] == all[j]
    ensures !(c <= all)
  {
  }

  /** A log that ends with an operation enqueued before one that it has is out of order. */
  lemma {:induction false} EarlierLast(log: seq<Entry>, all: seq<Entry>, x: Entry, i: nat, j: nat)
    requires KeysDiffer(all) && j < i < |all| && x == all[i] && x in log && log[|log| - 1] == all[j]
    ensures !(Collapse(log) <= all)
  {
    var c := Collapse(log);
    CollapseMembers(log, x);
    CollapseLast(log);
    var k :| 0 <= k < |c| && c[k] == x;
    PrefixLast(c, all, k, i, j);
  }

  // ----- Reaching the server once more

  lemma {:induction false} CalledAgain(s0: State, run0: seq<Action>, s1: State, now: Timestamp)
    returns (run: seq<Action>, s: State)
    requires Goes(s0, run0, s1)
    ensures Goes(s0, run, s) && s.enqueued == s1.enqueued && s.log == s1.log && s.store == s1.store
    ensures s.flushes == map[s1.calls := Asked]
  {
    run, s := Go(s0, run0, s1, Restart(true, now));
    run, s := Go(s0, run, s, CallFlush);
  }

  lemma {:induction false} ReadOnly(s: State, id: nat)
    requires s.flushes == map[id := Asked] && s.store != []
    ensures var s' := Next(s, ReadAll(id));
            s'.flushes == map[id := Pushing(s.store, 0, false)] && s'.enqueued == s.enqueued && s'.log == s.log
    ensures Fine(s, ReadAll(id))
  {
  }

  /** After a restart everything queued is read again. */
  lemma {:induction false} ReadAgain(s0: State, run0: seq<Action>, s1: State, now: Timestamp)
    returns (run: seq<Action>, s: State)
    requires Goes(s0, run0, s1) && s1.store != []
    ensures Goes(s0, run, s) && s.enqueued == s1.enqueued && s.log == s1.log
    ensures s.flushes == map[s1.calls := Pushing(s1.store, 0, false)]
  {
    run, s := CalledAgain(s0, run0, s1, now);
    ReadOnly(s, s1.calls);
    run, s := Go(s0, run, s, ReadAll(s1.calls));
  }

  lemma {:induction false} SendOne(s0: State, run0: seq<Action>, s1: State, id: nat, ops: seq<Entry>, i: nat)
    returns (run: seq<Action>, s: State)
    requires Goes(s0, run0, s1) && id in s1.flushes && s1.flushes[id] == Pushing(ops, i, false) && i < |ops|
    ensures Goes(s0, run, s) && s.enqueued == s1.enqueued && s.log == s1.log + [ops[i]]
    ensures s.flushes == s1.flushes[id := Pushing(ops, i, true)] && s.store == s1.store
  {
    assert id in s1.snapshots;
    run, s := Go(s0, run0, s1, Received(id));
  }

  lemma {:induction false} TakeOff(s0: State, run0: seq<Action>, s1: State, id: nat, ops: seq<Entry>, i: nat)
    returns (run: seq<Action>, s: State)
    requires Goes(s0, run0, s1) && id in s1.flushes && s1.flushes[id] == Pushing(ops, i, true) && i + 1 < |ops|
    ensures Goes(s0, run, s) && s.enqueued == s1.enqueued && s.log == s1.log
    ensures s.flushes == s1.flushes[id := Pushing(ops, i + 1, false)]
  {
    run, s := Go(s0, run0, s1, Acknowledged(id));
    run, s := Go(s0, run, s, Deleted(id));
    assert s1.flushes[id := Deleting(ops, i)][id := Pushing(ops, i + 1, false)]
           == s1.flushes[id := Pushing(ops, i + 1, false)];
  }

  /** It can go on until all that was read, as far as the j-th, has reached the server. */
  lemma {:induction false} SendUpTo(s0: State, run0: seq<Action>, s1: State, id: nat, ops: seq<Entry>, i: nat, j: nat)
    returns (run: seq<Action>, s: State)
    requires Goes(s0, run0, s1) && id in s1.flushes && s1.flushes[id] == Pushing(ops, i, false) && i <= j < |ops|
    ensures Goes(s0, run, s) && s.enqueued == s1.enqueued && s.log == s1.log + ops[i..j + 1]
    decreases j - i
  {
    run, s := SendOne(s0, run0, s1, id, ops, i);
    if i < j {
      run, s := TakeOff(s0, run, s, id, ops, i);
      assert s.flushes[id] == Pushing(ops, i + 1, false);
      run, s := SendUpTo(s0, run, s, id, ops, i + 1, j);
      SendsOn(s1.log, ops, i, j);
    }
  }

  lemma {:induction false} SendsOn(log: seq<Entry>, ops: seq<Entry>, i: nat, j: nat)
    requires i < j < |ops|
    ensures log + [ops[i]] + ops[i + 1..j + 1] == log + ops[i..j + 1]
  {
  }

  /** So the first j + 1 of what is queued can be made to reach the server next. */
  lemma {:induction false} SendAgain(s: State, j: nat, now: Timestamp) returns (run: seq<Action>)
    requires Live(s) && j < |s.store|
    ensures IsRun(s, run) && FineRun(s, run)
    ensures After(s, run).enqueued == s.enqueued && After(s, run).log == s.log + s.store[..j + 1]
  {
    var t;
    run, t := ReadAgain(s, [], s, now);
    run, t := SendUpTo(s, run, t, s.calls, s.store, 0, j);
  }

  /** Fine steps lead to a log out of order. */
  ghost predicate CanBreak(s: State) {
    exists run :: IsRun(s, run) && FineRun(s, run) && KeysDiffer(After(s, run).enqueued) && !InOrderNow(After(s, run))
  }

  /** A run by which the log ends with the j-th operation though it has the i-th. */
  lemma {:induction false} Breaks(s: State, run: seq<Action>, i: nat, j: nat)
    requires IsRun(s, run) && FineRun(s, run) && KeysDiffer(After(s, run).enqueued)
    requires j < i < |After(s, run).enqueued| && After(s, run).enqueued[i] in After(s, run).log
    requires After(s, run).log[|After(s, run).log| - 1] == After(s, run).enqueued[j]
    ensures CanBreak(s)
  {
    EarlierLast(After(s, run).log, After(s, run).enqueued, After(s, run).enqueued[i], i, j);
  }

  // ----- A put that does not go behind what is queued

  /** What is queued last has been queued before. */
  lemma {:induction false} LastIsOld(s: State, e: Entry) returns (n: nat, j: nat)
    requires Live(s) && KeysDiffer(s.enqueued + [e]) && !Fine(s, Put(e))
    ensures var store := StorePut(s.store, e);
            e in store && n + 1 == |store| && j < |s.enqueued| && s.enqueued[j] == store[n]
  {
    var store := StorePut(s.store, e);
    PutMembers(s.store, e);
    NewKeyDiffers(s, e);
    var x :| x in s.store && x.key >= e.key;
    LastIsGreatest(store, x);
    n := |store| - 1;
    assert store[n] in store;
    j :| 0 <= j < |s.enqueued| && s.enqueued[j] == store[n];
  }

  lemma {:induction false} PutReorders(s: State, e: Entry, now: Timestamp)
    requires Live(s) && KeysDiffer(s.enqueued + [e]) && !Fine(s, Put(e))
    ensures CanBreak(Next(s, Put(e)))
  {
    var s' := Next(s, Put(e));
    PutIsLive(s, e);
    var n, j := LastIsOld(s, e);
    var run := SendAgain(s', n, now);
    assert s'.store[..n + 1] == s'.store;
    Breaks(s', run, |s.enqueued|, j);
  }

  lemma {:induction false} NewKeyDiffers(s: State, e: Entry)
    requires StoreOk(s) && KeysDiffer(s.enqueued + [e])
    ensures forall x | x in s.store :: x.key != e.key
  {
    var all := s.enqueued + [e];
    forall x | x in s.store ensures x.key != e.key {
      assert x in s.enqueued;
      var i :| 0 <= i < |s.enqueued| && s.enqueued[i] == x;
      assert all[i] == x && all[|s.enqueued|] == e;
    }
  }

  lemma {:induction false} LastIsGreatest(store: seq<Entry>, x: Entry)
    requires Ascending(store) && x in store
    ensures store[|store| - 1].key >= x.key
  {
    var i :| 0 <= i < |store| && store[i] == x;
  }

  // ----- A late arrival that is not harmless

  /** Its place among the operations. */
  lemma {:induction false} ArrivalReorders(s: State, id: nat, d: nat, retried: bool, now: Timestamp)
    requires Live(s) && Queued(s, d, retried) && Enabled(s, Arrived(id)) && !Fine(s, Arrived(id))
    ensures CanBreak(Next(s, Arrived(id)))
  {
    var i :| 0 <= i < |s.enqueued| && s.enqueued[i] == s.adrift[id];
    SeenLast(s, d, retried);
    if i > d {
      NextArrivalReorders(s, id, d, i, now);
    } else {
      PastArrivalReorders(s, id, d, retried, i);
    }
  }

  lemma {:induction false} NextArrivalReorders(s: State, id: nat, d: nat, i: nat, now: Timestamp)
    requires Live(s) && Enabled(s, Arrived(id)) && KeysDiffer(s.enqueued)
    requires d < i < |s.enqueued| && s.enqueued[i] == s.adrift[id] && s.store != [] && s.store[0] == s.enqueued[d]
    ensures CanBreak(Next(s, Arrived(id)))
  {
    var s' := Next(s, Arrived(id));
    StepIsLive(s, Arrived(id));
    var run := SendAgain(s', 0, now);
    assert s.store[..1] == [s.enqueued[d]];
    Breaks(s', run, i, d);
  }

  lemma {:induction false} PastArrivalReorders(s: State, id: nat, d: nat, retried: bool, i: nat)
    requires Queued(s, d, retried) && Enabled(s, Arrived(id))
    requires i + 1 < if retried then d + 1 else d
    requires s.enqueued[i] == s.adrift[id]
    ensures CanBreak(Next(s, Arrived(id)))
  {
    var s', r := Next(s, Arrived(id)), if retried then d + 1 else d;
    assert Collapse(s.log)[r - 1] == s.enqueued[r - 1];
    CollapseMembers(s.log, s.enqueued[r - 1]);
    assert IsRun(s', []) && FineRun(s', []) && After(s', []) == s';
    Breaks(s', [], r - 1, i);
  }

  lemma {:induction false} SeenLast(s: State, d: nat, retried: bool)
    requires Queued(s, d, retried)
    ensures var r := if retried then d + 1 else d;
            (r > 0 ==> s.log != [] && s.log[|s.log| - 1] == s.enqueued[r - 1])
            && (d < |s.enqueued| ==> s.store != [] && s.store[0] == s.enqueued[d])
  {
    if s.log != [] {
      CollapseLast(s.log);
    }
  }

  // ----- A call that finds another one waiting

  predicate IsAsked(s: State, x: nat) {
    x in s.flushes && s.flushes[x].Asked?
  }

  function MaxKey(all: seq<Entry>): (k: int)
    ensures forall e | e in all :: e.key <= k
  {
    if all == [] then 0 else
    var front := MaxKey(all[..|all| - 1]);
    assert all == all[..|all| - 1] + [all[|all| - 1]];
    if all[|all| - 1].key > front then all[|all| - 1].key else front
  }

  /** An entry that comes after everything enqueued so far. */
  function LastEntry(all: seq<Entry>): Entry {
    Entry(MaxKey(all) + 1, "")
  }

  lemma {:induction false} LastEntryIsLast(s: State)
    requires Live(s) && KeysDiffer(s.enqueued)
    ensures Fine(s, Put(LastEntry(s.enqueued))) && KeysDiffer(s.enqueued + [LastEntry(s.enqueued)])
    ensures StorePut(s.store, LastEntry(s.enqueued)) == s.store + [LastEntry(s.enqueued)]
  {
    var e := LastEntry(s.enqueued);
    forall i | 0 <= i < |s.enqueued| ensures s.enqueued[i].key < e.key {
      assert s.enqueued[i] in s.enqueued;
    }
    forall x | x in s.store ensures x.key < e.key {
      assert x in s.enqueued;
    }
    PutAppends(s.store, e);
  }

  lemma {:induction false} PutAtEnd(s: State, d: nat, retried: bool)
    requires Live(s) && Queued(s, d, retried)
    ensures Fine(s, Put(LastEntry(s.enqueued)))
    ensures var s' := Next(s, Put(LastEntry(s.enqueued)));
            Queued(s', d, retried) && |s'.store| == |s.store| + 1 && s'.flushes == s.flushes
  {
    var all, e, r := s.enqueued, LastEntry(s.enqueued), if retried then d + 1 else d;
    LastEntryIsLast(s);
    PutKeepsQueued(s.store, all, e, d, r);
  }

  lemma {:induction false} PutKeepsQueued(store: seq<Entry>, all: seq<Entry>, e: Entry, d: nat, r: nat)
    requires d <= |all| && r <= |all| && store == all[d..] && Ascending(store) && forall x | x in store :: x.key < e.key
    ensures store + [e] == (all + [e])[d..] && (all + [e])[..r] == all[..r] && Ascending(store + [e])
  {
  }

  /** At least two operations queued, by enqueuing some if need be. */
  lemma {:induction false} Fill(s0: State, run0: seq<Action>, s1: State, d: nat, retried: bool)
    returns (run: seq<Action>, s: State)
    requires Goes(s0, run0, s1) && Queued(s1, d, retried)
    ensures Goes(s0, run, s) && Queued(s, d, retried) && |s.store| >= 2 && s.flushes == s1.flushes
    decreases 2 - |s1.store|
  {
    run, s := run0, s1;
    if |s1.store| < 2 {
      PutAtEnd(s, d, retried);
      run, s := Go(s0, run, s, Put(LastEntry(s.enqueued)));
      run, s := Fill(s0, run, s, d, retried);
    }
  }

  /** Both flushes read at least two operations. */
  lemma {:induction false} BothRead(s0: State, run0: seq<Action>, s1: State, d: nat, retried: bool, x: nat, y: nat)
    returns (run: seq<Action>, s: State, ops: seq<Entry>)
    requires Goes(s0, run0, s1) && Queued(s1, d, retried) && x != y && IsAsked(s1, x) && IsAsked(s1, y)
    ensures Goes(s0, run, s) && Queued(s, d, retried) && |ops| >= 2 && ops == s.store
    ensures x in s.flushes && y in s.flushes && s.flushes[x] == s.flushes[y] == Pushing(ops, 0, false)
  {
    run, s := Fill(s0, run0, s1, d, retried);
    ops := s.store;
    run, s := Go(s0, run, s, ReadAll(x));
    run, s := Go(s0, run, s, ReadAll(y));
  }

  /** One sends two, then the other the first of them again. */
  lemma {:induction false} SendThree(s0: State, run0: seq<Action>, s1: State, ops: seq<Entry>, x: nat, y: nat)
    returns (run: seq<Action>, s: State)
    requires Goes(s0, run0, s1) && x != y && |ops| >= 2
    requires x in s1.flushes && y in s1.flushes && s1.flushes[x] == s1.flushes[y] == Pushing(ops, 0, false)
    ensures Goes(s0, run, s) && s.enqueued == s1.enqueued && s.log == s1.log + [ops[0]] + [ops[1]] + [ops[0]]
  {
    run, s := SendOne(s0, run0, s1, y, ops, 0);
    run, s := TakeOff(s0, run, s, y, ops, 0);
    run, s := SendOne(s0, run, s, y, ops, 1);
    run, s := SendOne(s0, run, s, x, ops, 0);
  }

  lemma {:induction false} PairReorders(s: State, d: nat, retried: bool, x: nat, y: nat)
    requires Live(s) && Queued(s, d, retried) && x != y && IsAsked(s, x) && IsAsked(s, y)
    ensures CanBreak(s)
  {
    var run, t, ops := BothRead(s, [], s, d, retried, x, y);
    var log, all := t.log, t.enqueued;
    assert ops[0] == all[d] && ops[1] == all[d + 1];
    run, t := SendThree(s, run, t, ops, x, y);
    EarlierLast(t.log, all, all[d + 1], d + 1, d);
  }

  lemma {:induction false} CallReorders(s: State, a: Action, d: nat, retried: bool)
    requires Live(s) && Ordered(s, d, retried) && Enabled(s, a) && StartsFlush(s, a) && !Fine(s, a)
    ensures CanBreak(Next(s, a))
  {
    var s' := Next(s, a);
    StepIsLive(s, a);
    StartedOnly(s, a);
    var x :| x in s.flushes;
    assert s.flushes[x].Asked?;
    PairReorders(s', d, retried, x, s.calls);
  }

  // ----- Exactly the fine steps keep the order

  /** From every orderly state and for every step, a put being under a new key: the step is fine exactly when the order
      holds however things go on in fine steps. */
  lemma {:induction false} KeepsOrderExactlyWhen(s: State, a: Action, d: nat, retried: bool)
    requires Live(s) && Ordered(s, d, retried) && Enabled(s, a)
    requires a.Put? ==> KeysDiffer(s.enqueued + [a.entry])
    ensures Fine(s, a) <==> !CanBreak(Next(s, a))
  {
    var s' := Next(s, a);
    if Fine(s, a) {
      var d', retried' := StepKeepsOrder(s, a, d, retried);
      forall run | IsRun(s', run) && FineRun(s', run) && KeysDiffer(After(s', run).enqueued)
        ensures InOrderNow(After(s', run))
      {
        var d'', retried'' := RunKeepsOrder(s', run, d', retried');
      }
    } else if a.Put? {
      PutReorders(s, a.entry, "");
    } else if a.Arrived? {
      ArrivalReorders(s, a.id, d, retried, "");
    } else {
      CallReorders(s, a, d, retried);
    }
  }

  // ----- One run for each way

  /** A run from s0 to s, with one flush at a time if `apart`, and without late arrivals if `early`. */
  ghost predicate Shows(s0: State, run: seq<Action>, s: State, apart: bool, early: bool) {
    IsRun(s0, run) && After(s0, run) == s && (apart ==> OneAtATime(s0, run)) && (early ==> NoneLate(run))
  }

  lemma {:induction false} Show(s0: State, run: seq<Action>, s: State, apart: bool, early: bool, a: Action)
    returns (run': seq<Action>, s': State)
    requires Shows(s0, run, s, apart, early) && Enabled(s, a)
    requires (apart && StartsFlush(s, a) ==> s.flushes == map[]) && (early ==> !a.Arrived?)
    ensures run' == run + [a] && s' == Next(s, a) && Shows(s0, run', s', apart, early)
    decreases |run|
  {
    run', s' := run + [a], Next(s, a);
    if run != [] {
      forall i | 0 <= i < |run[1..]| ensures run[1..][i] == run[i + 1] {
      }
      var rest, t := Show(Next(s0, run[0]), run[1..], s, apart, early, a);
      assert run'[1..] == rest;
    }
  }

  /** Two operations are enqueued. */
  lemma {:induction false} BothQueued(now: Timestamp, a: Entry, b: Entry, apart: bool, early: bool)
    returns (run: seq<Action>, s: State)
    requires a.key != b.key
    ensures Shows(Start(true, now), run, s, apart, early)
    ensures s == Start(true, now).(store := if a.key < b.key then [a, b] else [b, a], enqueued := [a, b])
  {
    var s0 := Start(true, now);
    run, s := Show(s0, [], s0, apart, early, Put(a));
    assert s.store == [a];
    run, s := Show(s0, run, s, apart, early, Put(b));
    assert [a][1..] == [] && StorePut([], b) == [b];
    assert s.enqueued == [a, b];
  }

  /** A flush sends two operations. */
  lemma {:induction false} SendBoth(s0: State, run0: seq<Action>, s1: State, apart: bool, early: bool, id: nat,
                                    ops: seq<Entry>)
    returns (run: seq<Action>, s: State)
    requires Shows(s0, run0, s1, apart, early) && |ops| == 2 && id in s1.sent
    requires id in s1.flushes && s1.flushes[id] == Pushing(ops, 0, false)
    ensures Shows(s0, run, s, apart, early) && s.enqueued == s1.enqueued && s.log == s1.log + [ops[0]] + [ops[1]]
    ensures s.flushes == s1.flushes[id := Pushing(ops, 1, true)] && s.adrift == s1.adrift && s.sent.Keys == s1.sent.Keys
  {
    run, s := Show(s0, run0, s1, apart, early, Received(id));
    run, s := Show(s0, run, s, apart, early, Acknowledged(id));
    run, s := Show(s0, run, s, apart, early, Deleted(id));
    assert s.flushes == s1.flushes[id := Pushing(ops, 1, false)];
    run, s := Show(s0, run, s, apart, early, Received(id));
  }

  lemma {:induction false} OutOfOrder(log: seq<Entry>, all: seq<Entry>, a: Entry, b: Entry)
    requires all == [a, b] && a.key != b.key && (log == [a, b, a] || log == [b])
    ensures !(Collapse(log) <= all)
  {
    if log == [b] {
      assert log[..0] == [] && Collapse(log) == [b];
    } else {
      EarlierLast(log, all, b, 1, 0);
    }
  }

  lemma {:induction false} BothStarted(now: Timestamp, a: Entry, b: Entry) returns (run: seq<Action>, s: State)
    requires a.key < b.key
    ensures Shows(Start(true, now), run, s, false, true) && s.enqueued == [a, b] && s.log == []
    ensures s.flushes == map[0 := Pushing([a, b], 0, false), 1 := Pushing([a, b], 0, false)]
    ensures 0 in s.sent && 1 in s.sent
  {
    var s0 := Start(true, now);
    run, s := BothQueued(now, a, b, false, true);
    run, s := Show(s0, run, s, false, true, CallFlush);
    run, s := Show(s0, run, s, false, true, CallFlush);
    assert s.flushes == map[0 := Asked, 1 := Asked];
    run, s := Show(s0, run, s, false, true, ReadAll(0));
    run, s := Show(s0, run, s, false, true, ReadAll(1));
    assert s.flushes == map[0 := Pushing([a, b], 0, false), 1 := Pushing([a, b], 0, false)];
  }

  /** Two calls that pass the test before either has its snapshot make the server see the first operation again after
      the second. */
  lemma {:induction false} OverlapReorders(now: Timestamp) returns (run: seq<Action>)
    ensures IsRun(Start(true, now), run) && NoneLate(run)
    ensures var s := After(Start(true, now), run);
            && Ascending(s.enqueued) && |s.flushes| == 2
            && |s.log| == 3 && s.log[0] == s.log[2] != s.log[1] && !InOrderNow(s)
  {
    var a, b := Entry(1, "a"), Entry(2, "b");
    var s0 := Start(true, now);
    var s;
    run, s := BothStarted(now, a, b);
    run, s := SendBoth(s0, run, s, false, true, 0, [a, b]);
    run, s := Show(s0, run, s, false, true, Received(1));
    assert s.flushes == map[0 := Pushing([a, b], 1, true), 1 := Pushing([a, b], 0, true)];
    assert s.log == [a, b, a];
    OutOfOrder(s.log, s.enqueued, a, b);
  }

  /** A flush that starts to push two operations and gives up on the first. */
  lemma {:induction false} GaveUp(now: Timestamp, a: Entry, b: Entry) returns (run: seq<Action>, s: State)
    requires a.key < b.key
    ensures Shows(Start(true, now), run, s, true, false)
    ensures s.enqueued == [a, b] && s.store == [a, b] && s.log == [] && s.flushes == map[] && s.adrift == map[0 := a]
    ensures s.calls == 1 && !s.flushing
  {
    var s0 := Start(true, now);
    run, s := BothQueued(now, a, b, true, false);
    run, s := Show(s0, run, s, true, false, CallFlush);
    run, s := Show(s0, run, s, true, false, ReadAll(0));
    run, s := Show(s0, run, s, true, false, PushFailed(0, "timeout"));
    assert s.flushes == map[] && s.adrift == map[0 := a];
  }

  /** A request given up on, and retried with success, can reach the server again after a later operation has. */
  lemma {:induction false} LateArrivalReorders(now: Timestamp) returns (run: seq<Action>)
    ensures IsRun(Start(true, now), run) && OneAtATime(Start(true, now), run)
    ensures var s := After(Start(true, now), run);
            && Ascending(s.enqueued)
            && |s.log| == 3 && s.log[0] == s.log[2] != s.log[1] && !InOrderNow(s)
  {
    var a, b := Entry(1, "a"), Entry(2, "b");
    var s0 := Start(true, now);
    var s;
    run, s := GaveUp(now, a, b);
    run, s := Show(s0, run, s, true, false, CallFlush);
    run, s := Show(s0, run, s, true, false, ReadAll(1));
    assert s.flushes == map[1 := Pushing([a, b], 0, false)];
    run, s := SendBoth(s0, run, s, true, false, 1, [a, b]);
    run, s := Show(s0, run, s, true, false, Arrived(0));
    assert s.log == [a, b, a];
    OutOfOrder(s.log, s.enqueued, a, b);
  }

  /** Two operations enqueued in one millisecond, the second under the smaller random suffix, are sent the wrong way
      round, with one flush and nothing failing. */
  lemma {:induction false} SwappedKeysReorder(now: Timestamp) returns (run: seq<Action>)
    ensures IsRun(Start(true, now), run) && OneAtATime(Start(true, now), run) && NoneLate(run)
    ensures var s := After(Start(true, now), run);
            KeysDiffer(s.enqueued) && |s.enqueued| == 2 && s.log == [s.enqueued[1]] && !InOrderNow(s)
  {
    var a, b := Entry(2, "a"), Entry(1, "b");
    var s0 := Start(true, now);
    var s;
    run, s := BothQueued(now, a, b, true, true);
    run, s := Show(s0, run, s, true, true, CallFlush);
    run, s := Show(s0, run, s, true, true, ReadAll(0));
    run, s := Show(s0, run, s, true, true, Received(0));
    OutOfOrder(s.log, s.enqueued, a, b);
  }
}
