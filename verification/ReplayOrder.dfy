/** Replay order of the write queue: the server sees the operations in the order they were enqueued. */
module ReplayOrder {
  import opened WriteQueue

  /** A log with each immediate repetition (a retried push) counted once. */
  function Collapse(log: seq<Entry>): seq<Entry> {
    if log == [] then [] else
    var n := |log| - 1;
    if n > 0 && log[n - 1] == log[n] then Collapse(log[..n]) else Collapse(log[..n]) + [log[n]]
  }

  predicate StartsFlush(s: State, a: Action) {
    && !s.flushing
    && match a
       case CallFlush => true
       case Online(_) => s.status.queuedCount > 0
       case InitCounted(count, _) => count > 0 && s.status.state == ONLINE
       case _ => false
  }

  /** The server has it as the last thing it saw, or it is the next one queued. */
  predicate Harmless(s: State, e: Entry) {
    (s.log != [] && e == s.log[|s.log| - 1]) || (s.store != [] && e == s.store[0])
  }

  /** A put goes behind what is queued, a call of flush() finds none active, and what arrives late is harmless. */
  ghost predicate Fine(s: State, a: Action)
    requires Enabled(s, a)
  {
    && (a.Put? ==> forall x | x in s.store :: x.key < a.entry.key)
    && (StartsFlush(s, a) ==> s.flushes == map[])
    && (a.Arrived? ==> Harmless(s, s.adrift[a.id]))
  }

  ghost predicate FineRun(s: State, run: seq<Action>)
    requires IsRun(s, run)
    decreases |run|
  {
    run == [] || (Fine(s, run[0]) && FineRun(Next(s, run[0]), run[1..]))
  }

  ghost predicate InOrderNow(s: State) {
    Collapse(s.log) <= s.enqueued
  }

  // ----- What fine steps keep

  ghost predicate InOrder(f: Flush, pending: seq<Entry>, retried: bool) {
    match f
    case Asked => true
    case Pushing(ops, i, received) => i < |ops| && ops[i..] <= pending && (received ==> retried)
    case Deleting(ops, i) => i < |ops| && ops[i..] <= pending && retried
  }

  /** The queue, and what the server has seen: d operations are done with; the server has those, and the next one too if
      `retried`. */
  ghost predicate Queued(s: State, d: nat, retried: bool) {
    var r := if retried then d + 1 else d;
    && KeysDiffer(s.enqueued) && r <= |s.enqueued|
    && s.store == s.enqueued[d..] && Ascending(s.store) && Collapse(s.log) == s.enqueued[..r]
  }

  ghost predicate Ordered(s: State, d: nat, retried: bool) {
    && Queued(s, d, retried)
    && (forall id, k | id in s.flushes && k in s.flushes :: id == k)
    && (forall id | id in s.flushes :: InOrder(s.flushes[id], s.store, retried))
    && (s.flushing <==> exists id :: id in s.flushes && !s.flushes[id].Asked?)
  }

  lemma {:induction false} PutAppends(store: seq<Entry>, e: Entry)
    requires forall i | 0 <= i < |store| :: store[i].key < e.key
    ensures StorePut(store, e) == store + [e]
  {
    if store != [] {
      PutAppends(store[1..], e);
    }
  }

  lemma {:induction false} CollapseLast(log: seq<Entry>)
    requires log != []
    ensures Collapse(log) != [] && Collapse(log)[|Collapse(log)| - 1] == log[|log| - 1]
  {
    var n := |log| - 1;
    if n > 0 && log[n - 1] == log[n] {
      CollapseLast(log[..n]);
    }
  }

  lemma {:induction false} CollapseRepeats(log: seq<Entry>)
    requires log != []
    ensures Collapse(log + [log[|log| - 1]]) == Collapse(log)
  {
    assert (log + [log[|log| - 1]])[..|log|] == log;
  }

  /** Receiving the next operation extends the collapsed log by it; receiving it again changes nothing. */
  lemma CollapseExtends(log: seq<Entry>, all: seq<Entry>, d: nat, retried: bool)
    requires KeysDiffer(all) && d < |all|
    requires Collapse(log) == all[..if retried then d + 1 else d]
    ensures Collapse(log + [all[d]]) == all[..d + 1]
  {
    var log' := log + [all[d]];
    assert log'[..|log|] == log;
    if log != [] {
      CollapseLast(log);
    }
  }

  lemma PutKeepsOrder(s: State, e: Entry, d: nat, retried: bool)
    requires Ordered(s, d, retried) && Fine(s, Put(e)) && KeysDiffer(s.enqueued + [e])
    ensures Ordered(Next(s, Put(e)), d, retried)
  {
    var all := s.enqueued + [e];
    PutAppends(s.store, e);
    assert all[d..] == s.enqueued[d..] + [e];
    var s' := Next(s, Put(e));
    assert s.store <= s'.store;
    forall id | id in s'.flushes ensures InOrder(s'.flushes[id], s'.store, retried) {
      assert InOrder(s.flushes[id], s.store, retried);
    }
    assert s'.enqueued[..if retried then d + 1 else d] == s.enqueued[..if retried then d + 1 else d];
  }

  lemma ReceivedKeepsOrder(s: State, id: nat, d: nat, retried: bool)
    requires Ordered(s, d, retried) && Enabled(s, Received(id))
    ensures Ordered(Next(s, Received(id)), d, true)
  {
    var f := s.flushes[id];
    assert f.ops[f.i] == f.ops[f.i..][0] == s.enqueued[d];
    CollapseExtends(s.log, s.enqueued, d, retried);
    assert !f.Asked? && !Next(s, Received(id)).flushes[id].Asked?;
  }

  lemma DeletedKeepsOrder(s: State, id: nat, d: nat, retried: bool)
    requires Ordered(s, d, retried) && Enabled(s, Deleted(id))
    ensures Ordered(Next(s, Deleted(id)), d + 1, false)
  {
    var f := s.flushes[id];
    assert InOrder(f, s.store, retried);
    assert f.ops[f.i] == f.ops[f.i..][0] == s.store[0];
    assert s.enqueued[d..][1..] == s.enqueued[d + 1..];
    assert StoreDelete(s.store, s.store[0].key) == s.enqueued[d + 1..];
    var s' := Next(s, Deleted(id));
    if id in s'.flushes {
      assert f.ops[f.i + 1..] == f.ops[f.i..][1..];
      assert !s'.flushes[id].Asked?;
    }
  }

  lemma ResumedKeepsOrder(s: State, a: Action, d: nat, retried: bool)
    requires Ordered(s, d, retried) && Enabled(s, a) && (a.ReadAll? || a.Acknowledged?)
    ensures Ordered(Next(s, a), d, retried)
  {
    var s' := Next(s, a);
    assert InOrder(s.flushes[a.id], s.store, retried);
    if a.id in s'.flushes {
      assert a.ReadAll? ==> s'.flushes[a.id].ops[0..] == s.store;
      assert !s'.flushes[a.id].Asked?;
    }
  }

  lemma StartedOnly(s: State, a: Action)
    requires Enabled(s, a) && (a.CallFlush? || a.Online? || a.InitCounted?)
    ensures var s' := Next(s, a);
            && s'.store == s.store && s'.enqueued == s.enqueued && s'.log == s.log && s'.flushing == s.flushing
            && s'.flushes == if StartsFlush(s, a) then s.flushes[s.calls := Asked] else s.flushes
  {
  }

  lemma StartKeepsOrder(s: State, a: Action, d: nat, retried: bool)
    requires Ordered(s, d, retried) && Enabled(s, a) && (StartsFlush(s, a) ==> s.flushes == map[])
    requires a.CallFlush? || a.Online? || a.InitCounted?
    ensures Ordered(Next(s, a), d, retried)
  {
    var s' := Next(s, a);
    StartedOnly(s, a);
    if StartsFlush(s, a) {
      assert s'.flushes == map[s.calls := Asked];
    }
  }

  lemma EndKeepsOrder(s: State, a: Action, d: nat, retried: bool)
    requires Ordered(s, d, retried) && Enabled(s, a)
    requires a.Counted? || a.ReadFailed? || a.PushFailed? || a.DeleteFailed? || a.Offline? || a.Restart?
    ensures Ordered(Next(s, a), d, retried)
  {
    var s' := Next(s, a);
    if s'.flushes != map[] {
      assert s'.flushes == s.flushes && s'.flushing == s.flushing;
    }
  }

  lemma ArrivedExtends(s: State, e: Entry, d: nat, retried: bool) returns (retried': bool)
    requires Queued(s, d, retried) && Harmless(s, e)
    ensures retried ==> retried'
    ensures Queued(s.(log := s.log + [e]), d, retried')
  {
    if s.log != [] && e == s.log[|s.log| - 1] {
      CollapseRepeats(s.log);
      retried' := retried;
    } else {
      CollapseExtends(s.log, s.enqueued, d, retried);
      retried' := true;
    }
  }

  lemma ArrivedKeepsOrder(s: State, id: nat, d: nat, retried: bool) returns (retried': bool)
    requires Ordered(s, d, retried) && Enabled(s, Arrived(id)) && Harmless(s, s.adrift[id])
    ensures Ordered(Next(s, Arrived(id)), d, retried')
  {
    retried' := ArrivedExtends(s, s.adrift[id], d, retried);
    forall k | k in s.flushes ensures InOrder(s.flushes[k], s.store, retried') {
      assert InOrder(s.flushes[k], s.store, retried);
    }
  }

  lemma StepKeepsOrder(s: State, a: Action, d: nat, retried: bool) returns (d': nat, retried': bool)
    requires Ordered(s, d, retried) && Enabled(s, a) && Fine(s, a)
    requires a.Put? ==> KeysDiffer(s.enqueued + [a.entry])
    ensures Ordered(Next(s, a), d', retried')
  {
    d', retried' := d, retried;
    match a
    case Put(e) => PutKeepsOrder(s, e, d, retried);
    case Received(id) => ReceivedKeepsOrder(s, id, d, retried); retried' := true;
    case Deleted(id) => DeletedKeepsOrder(s, id, d, retried); d', retried' := d + 1, false;
    case ReadAll(_) => ResumedKeepsOrder(s, a, d, retried);
    case Acknowledged(_) => ResumedKeepsOrder(s, a, d, retried);
    case CallFlush => StartKeepsOrder(s, a, d, retried);
    case Online(_) => StartKeepsOrder(s, a, d, retried);
    case InitCounted(_, _) => StartKeepsOrder(s, a, d, retried);
    case Arrived(id) => retried' := ArrivedKeepsOrder(s, id, d, retried);
    case _ => EndKeepsOrder(s, a, d, retried);
  }

  lemma {:induction false} RunKeepsOrder(s: State, run: seq<Action>, d: nat, retried: bool)
    returns (d': nat, retried': bool)
    requires Ordered(s, d, retried) && IsRun(s, run) && FineRun(s, run) && KeysDiffer(After(s, run).enqueued)
    ensures Ordered(After(s, run), d', retried') && InOrderNow(After(s, run))
    decreases |run|
  {
    if run == [] {
      d', retried' := d, retried;
    } else {
      EnqueuedGrows(Next(s, run[0]), run[1..]);
      assert KeysDiffer(Next(s, run[0]).enqueued);
      d', retried' := StepKeepsOrder(s, run[0], d, retried);
      d', retried' := RunKeepsOrder(Next(s, run[0]), run[1..], d', retried');
    }
  }

  /** Over every run of fine steps under distinct keys, whatever fails and is retried: the server's log, retries counted
      once, is the operations in enqueue order as far as it has got; and once the queue is empty it is all of them. */
  lemma ReplaysInOrder(online: bool, now: Timestamp, run: seq<Action>) returns (d: nat, retried: bool)
    requires IsRun(Start(online, now), run) && FineRun(Start(online, now), run)
    requires KeysDiffer(After(Start(online, now), run).enqueued)
    ensures var s := After(Start(online, now), run);
            Ordered(s, d, retried) && InOrderNow(s) && (s.store == [] ==> Collapse(s.log) == s.enqueued)
  {
    var s := Start(online, now);
    assert Ordered(s, 0, false);
    d, retried := RunKeepsOrder(s, run, 0, false);
  }

  // ----- The usual way for steps to be fine

  /** No call of flush() starts while another is active. */
  ghost predicate OneAtATime(s: State, run: seq<Action>)
    requires IsRun(s, run)
    decreases |run|
  {
    run == [] || ((StartsFlush(s, run[0]) ==> s.flushes == map[]) && OneAtATime(Next(s, run[0]), run[1..]))
  }

  /** No request reaches the server after the client has given up on it. */
  predicate NoneLate(run: seq<Action>) {
    forall i | 0 <= i < |run| :: !run[i].Arrived?
  }

  /** Increasing keys, one flush at a time and no late arrivals. */
  lemma {:induction false} UsualRunsAreFine(s: State, run: seq<Action>)
    requires Live(s) && IsRun(s, run) && OneAtATime(s, run) && NoneLate(run) && Ascending(After(s, run).enqueued)
    ensures FineRun(s, run)
    decreases |run|
  {
    if run != [] {
      var s' := Next(s, run[0]);
      EnqueuedGrows(s', run[1..]);
      if run[0].Put? {
        IncreasingKeyIsFine(s, run[0].entry);
      }
      StepIsLive(s, run[0]);
      UsualRunsAreFine(s', run[1..]);
    }
  }

  lemma {:induction false} IncreasingKeyIsFine(s: State, e: Entry)
    requires Live(s) && Ascending(s.enqueued + [e])
    ensures Fine(s, Put(e))
  {
    var all := s.enqueued + [e];
    forall x | x in s.store ensures x.key < e.key {
      assert x in s.enqueued;
      var i :| 0 <= i < |s.enqueued| && s.enqueued[i] == x;
      assert all[i] == x && all[|s.enqueued|] == e;
    }
  }

  /** Of an otherwise orderly client: a new call of flush() becomes a second active one exactly when the first is
      still between its `_flushing` test and having its snapshot. */
  lemma OverlapsExactlyBeforeBegin(s: State, d: nat, retried: bool)
    requires Ordered(s, d, retried) && forall id | id in s.flushes :: id < s.calls
    ensures (exists id, k :: id in Next(s, CallFlush).flushes && k in Next(s, CallFlush).flushes && id != k)
            <==> exists id :: id in s.flushes && s.flushes[id].Asked?
  {
    var s' := Next(s, CallFlush);
    if id: nat :| id in s.flushes {
      assert !s.flushes[id].Asked? <==> s.flushing;
      if !s.flushing {
        assert id in s'.flushes && s.calls in s'.flushes && id != s.calls;
      }
    }
  }
}
