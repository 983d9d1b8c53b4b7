/** The queue count shown to the user, and exactly when a flush leaves it right. */
module QueueCount {
  import opened WriteQueue
  import opened ReplayOrder

  ghost predicate CountRight(s: State) {
    s.status.queuedCount == |s.store|
  }

  /** The step after which the flush is over, other than by a restart of the client. */
  ghost predicate Ends(s: State, a: Action, id: nat)
    requires Enabled(s, a)
  {
    id in s.flushes && id !in Next(s, a).flushes && !a.Restart?
  }

  /** The run goes on exactly as long as the flush. */
  ghost predicate Lasts(s: State, run: seq<Action>, id: nat)
    requires IsRun(s, run)
    decreases |run|
  {
    && run != []
    && if |run| == 1 then Ends(s, run[0], id) else id in Next(s, run[0]).flushes && Lasts(Next(s, run[0]), run[1..], id)
  }

  // ----- What the actions say about the queue's size and the count

  function Puts(run: seq<Action>): nat {
    if run == [] then 0 else (if run[0].Put? then 1 else 0) + Puts(run[1..])
  }

  function DriftStep(a: Action, d: int): int {
    match a
    case Put(_) => d + 1
    case Deleted(_) => d - 1
    case Counted(_) => 0
    case InitCounted(count, _) => if count > 0 then 0 else d
    case _ => d
  }

  /** Operations enqueued less operations taken off since the last count was dispatched, on top of d if there was
      none. */
  function Drift(run: seq<Action>, d: int): int {
    if run == [] then d else Drift(run[1..], DriftStep(run[0], d))
  }

  function Off(s: State): int {
    |s.store| - s.status.queuedCount
  }

  predicate Fails(a: Action) {
    a.PushFailed? || a.DeleteFailed?
  }

  // ----- The queue's size

  lemma {:induction false} PutAddsOne(store: seq<Entry>, e: Entry)
    requires forall x | x in store :: x.key != e.key
    ensures |StorePut(store, e)| == |store| + 1
  {
    if store != [] && e.key > store[0].key {
      PutAddsOne(store[1..], e);
    }
  }

  lemma {:induction false} DeleteTakesOne(store: seq<Entry>, e: Entry)
    requires e in store
    ensures |StoreDelete(store, e.key)| == |store| - 1
  {
    if store[0].key != e.key {
      DeleteTakesOne(store[1..], e);
    }
  }

  // ----- One step of a flush that is alone

  /** The flush is the only one, has read its snapshot, and what is left of that is still queued. */
  ghost predicate Alone(s: State, id: nat) {
    && Live(s) && s.flushes.Keys == {id} && !s.flushes[id].Asked?
    && forall x | x in Pending(s.flushes[id]) :: x in s.store
  }

  function Besides(s: State, id: nat): int
    requires id in s.flushes
  {
    |s.store| - |Pending(s.flushes[id])|
  }

  ghost predicate Admissible(s: State, a: Action) {
    && Enabled(s, a) && (StartsFlush(s, a) ==> s.flushes == map[]) && (a.Put? ==> KeysDiffer(s.enqueued + [a.entry]))
  }

  lemma {:induction false} PutIsNew(s: State, e: Entry)
    requires Live(s) && KeysDiffer(s.enqueued + [e])
    ensures forall x | x in s.store :: x.key != e.key
  {
    var all := s.enqueued + [e];
    forall x | x in s.store ensures x.key != e.key {
      assert x in s.enqueued;
      var i :| 0 <= i < |s.enqueued| && s.enqueued[i] == x;
      assert all[i] == x && all[|s.enqueued|] == e;
    }
  }

  lemma {:induction false} PendingAscends(s: State, id: nat)
    requires Live(s) && id in s.flushes
    ensures Ascending(Pending(s.flushes[id]))
  {
    if !s.flushes[id].Asked? {
      assert id in s.snapshots && Ascending(s.snapshots[id]);
    }
  }

  lemma {:induction false} DeletedTakesFirst(s: State, id: nat)
    requires Alone(s, id) && Enabled(s, Deleted(id))
    ensures var s', left := Next(s, Deleted(id)), Pending(s.flushes[id]);
            && left != [] && |s'.store| == |s.store| - 1 && forall x | x in left[1..] :: x in s'.store
  {
    var f := s.flushes[id];
    var left := Pending(f);
    PendingShrinks(s, id);
    PendingAscends(s, id);
    assert left[0] in s.store;
    DeleteTakesOne(s.store, left[0]);
    DeleteMembers(s.store, left[0].key);
  }

  lemma {:induction false} DeletedGoesOn(s: State, id: nat)
    requires Alone(s, id) && Enabled(s, Deleted(id))
    ensures var s', left := Next(s, Deleted(id)), Pending(s.flushes[id]);
            && left != []
            && if |left| > 1 then id in s'.flushes && Pending(s'.flushes[id]) == left[1..]
               else id !in s'.flushes && s'.status.queuedCount == 0
  {
    var f := s.flushes[id];
    PendingShrinks(s, id);
    assert f.ops[f.i..][1..] == f.ops[f.i + 1..];
  }

  ghost predicate StepsInside(s: State, a: Action, id: nat)
    requires Enabled(s, a) && id in s.flushes && id in Next(s, a).flushes
  {
    && Alone(Next(s, a), id)
    && Besides(Next(s, a), id) == Besides(s, id) + (if a.Put? then 1 else 0)
    && Off(Next(s, a)) == DriftStep(a, Off(s))
  }

  lemma {:induction false} PutInside(s: State, id: nat, e: Entry)
    requires Alone(s, id) && Admissible(s, Put(e))
    ensures StepsInside(s, Put(e), id)
  {
    StepIsLive(s, Put(e));
    PutIsNew(s, e);
    PutAddsOne(s.store, e);
    PutMembers(s.store, e);
  }

  lemma {:induction false} DeletedInside(s: State, id: nat, a: Action)
    requires Alone(s, id) && Admissible(s, a) && a.Deleted? && id in Next(s, a).flushes
    ensures StepsInside(s, a, id)
  {
    StepIsLive(s, a);
    DeletedTakesFirst(s, id);
    DeletedGoesOn(s, id);
  }

  lemma {:induction false} QuietElsewhere(s: State, id: nat, a: Action)
    requires Alone(s, id) && Admissible(s, a) && id in Next(s, a).flushes
    requires !a.Put? && !a.Deleted? && !a.Received? && !a.Acknowledged?
    ensures Next(s, a).store == s.store && Next(s, a).flushes == s.flushes
  {
    if a.CallFlush? || a.Online? || a.InitCounted? {
      StartedOnly(s, a);
    }
  }

  /** Any other step leaves the queue and what the flush has left alone. */
  lemma {:induction false} QuietInside(s: State, id: nat, a: Action)
    requires Alone(s, id) && Admissible(s, a) && !a.Put? && !a.Deleted? && id in Next(s, a).flushes
    ensures Next(s, a).store == s.store && Next(s, a).flushes.Keys == {id}
    ensures !Next(s, a).flushes[id].Asked? && Pending(Next(s, a).flushes[id]) == Pending(s.flushes[id])
  {
    if !a.Received? && !a.Acknowledged? {
      QuietElsewhere(s, id, a);
    }
  }

  lemma {:induction false} QuietCounts(s: State, a: Action)
    requires Admissible(s, a) && !a.Put? && !a.Deleted? && !a.Restart? && (a.ReadAll? ==> s.store != [])
    requires !Fails(a)
    ensures Off(Next(s, a)) == DriftStep(a, Off(s))
  {
  }

  lemma {:induction false} StillGoing(s: State, id: nat, a: Action)
    requires Alone(s, id) && Enabled(s, a) && id in Next(s, a).flushes
    ensures !a.Restart? && !Fails(a) && (a.ReadAll? ==> s.store != [])
  {
  }

  lemma {:induction false} QuietGoesOn(s: State, a: Action, id: nat)
    requires Alone(s, id) && Admissible(s, a) && !a.Put? && !a.Deleted? && id in Next(s, a).flushes
    ensures StepsInside(s, a, id)
  {
    var s' := Next(s, a);
    assert Live(s') by {
      StepIsLive(s, a);
    }
    assert Off(s') == DriftStep(a, Off(s)) by {
      StillGoing(s, id, a);
      QuietCounts(s, a);
    }
    QuietInside(s, id, a);
  }

  lemma {:induction false} StepInside(s: State, a: Action, id: nat)
    requires Alone(s, id) && Admissible(s, a) && id in Next(s, a).flushes
    ensures StepsInside(s, a, id)
  {
    if a.Put? {
      PutInside(s, id, a.entry);
    } else if a.Deleted? {
      DeletedInside(s, id, a);
    } else {
      QuietGoesOn(s, a, id);
    }
  }

  lemma {:induction false} StepOut(s: State, a: Action, id: nat)
    requires Alone(s, id) && Admissible(s, a) && Ends(s, a, id)
    ensures Fails(a) ==> Next(s, a).store == s.store && Next(s, a).status.queuedCount == s.status.queuedCount
    ensures !Fails(a) ==> Next(s, a).status.queuedCount == 0 && |Next(s, a).store| == Besides(s, id)
    ensures !a.Put?
  {
    if a.Deleted? {
      DeletedTakesFirst(s, id);
      DeletedGoesOn(s, id);
    }
  }

  // ----- A whole flush

  /** A run in which no other call starts and every operation is enqueued under a key of its own. */
  ghost predicate Undisturbed(s: State, run: seq<Action>)
    requires IsRun(s, run)
  {
    OneAtATime(s, run) && KeysDiffer(After(s, run).enqueued)
  }

  lemma {:induction false} FirstIsAdmissible(s: State, run: seq<Action>)
    requires IsRun(s, run) && Undisturbed(s, run) && run != []
    ensures Admissible(s, run[0]) && Undisturbed(Next(s, run[0]), run[1..])
  {
    EnqueuedGrows(Next(s, run[0]), run[1..]);
    if run[0].Put? {
      var all := s.enqueued + [run[0].entry];
      assert KeysDiffer(all) by {
        assert all <= After(s, run).enqueued;
      }
    }
  }

  lemma {:induction false} RestOfFlush(s: State, run: seq<Action>, id: nat)
    requires Alone(s, id) && IsRun(s, run) && Undisturbed(s, run) && Lasts(s, run, id)
    ensures var t := After(s, run);
            if Fails(run[|run| - 1]) then Off(t) == Drift(run, Off(s))
            else t.status.queuedCount == 0 && |t.store| == Besides(s, id) + Puts(run)
    decreases |run|
  {
    FirstIsAdmissible(s, run);
    if |run| == 1 {
      StepOut(s, run[0], id);
      assert run[1..] == [];
    } else {
      StepInside(s, run[0], id);
      RestOfFlush(Next(s, run[0]), run[1..], id);
      assert run[1..][|run| - 2] == run[|run| - 1];
    }
  }

  /** From a flush's reading of the queue to its end, with no other flush in between: a flush that ends well, having
      sent everything or read an empty queue, leaves the count right exactly when nothing was enqueued on the way; one
      that fails, exactly when as many operations were enqueued as taken off since the last count was dispatched, or,
      if none was, when they make up for what the count was off by before. */
  lemma {:induction false} CountIsRightExactlyWhen(s: State, run: seq<Action>, id: nat)
    requires Live(s) && s.flushes == map[id := Asked]
    requires IsRun(s, run) && Undisturbed(s, run) && run != [] && run[0] == ReadAll(id) && Lasts(s, run, id)
    ensures CountRight(After(s, run))
            <==> if Fails(run[|run| - 1]) then Drift(run, Off(s)) == 0 else Puts(run) == 0
  {
    if s.store == [] {
      assert run[1..] == [] && run[|run| - 1] == run[0];
    } else {
      SnapshotAlone(s, id);
      ReadingGoesOn(s, run, id);
      RestOfFlush(Next(s, run[0]), run[1..], id);
    }
  }

  lemma {:induction false} ReadingGoesOn(s: State, run: seq<Action>, id: nat)
    requires IsRun(s, run) && Undisturbed(s, run) && run != [] && run[0] == ReadAll(id) && Lasts(s, run, id)
    requires id in Next(s, run[0]).flushes
    ensures var s1, rest := Next(s, run[0]), run[1..];
            && rest != [] && rest[|rest| - 1] == run[|run| - 1] && After(s, run) == After(s1, rest)
            && Undisturbed(s1, rest) && Lasts(s1, rest, id)
            && Drift(run, Off(s)) == Drift(rest, Off(s)) && Puts(run) == Puts(rest)
  {
  }

  lemma {:induction false} SnapshotAlone(s: State, id: nat)
    requires Live(s) && s.flushes == map[id := Asked] && s.store != []
    ensures var s1 := Next(s, ReadAll(id));
            Alone(s1, id) && Besides(s1, id) == 0 && Off(s1) == Off(s)
  {
    StepIsLive(s, ReadAll(id));
    assert Pending(Next(s, ReadAll(id)).flushes[id]) == s.store;
  }

  /** In particular, when the count was right and nothing is enqueued or counted on the way: a flush that ends well
      leaves it right, and one that fails exactly when it took nothing off. */
  lemma {:induction false} QuietFlushCount(s: State, run: seq<Action>, id: nat)
    requires Live(s) && s.flushes == map[id := Asked] && CountRight(s)
    requires IsRun(s, run) && Undisturbed(s, run) && run != [] && run[0] == ReadAll(id) && Lasts(s, run, id)
    requires forall i | 0 <= i < |run| :: !run[i].Put? && !run[i].Counted? && !run[i].InitCounted?
    ensures CountRight(After(s, run))
            <==> (Fails(run[|run| - 1]) ==> forall i | 0 <= i < |run| :: !run[i].Deleted?)
  {
    CountIsRightExactlyWhen(s, run, id);
    NothingPut(run, 0);
  }

  lemma {:induction false} NothingPut(run: seq<Action>, d: int)
    requires forall i | 0 <= i < |run| :: !run[i].Put? && !run[i].Counted? && !run[i].InitCounted?
    ensures Puts(run) == 0 && Drift(run, d) <= d
    ensures Drift(run, d) == d <==> forall i | 0 <= i < |run| :: !run[i].Deleted?
  {
    if run != [] {
      assert run == [run[0]] + run[1..];
      NothingPut(run[1..], DriftStep(run[0], d));
    }
  }

  // ----- Counts left wrong

  lemma {:induction false} EnqueuedMidFlush(now: Timestamp, a: Entry, b: Entry) returns (run: seq<Action>, s: State)
    requires a.key < b.key
    ensures IsRun(Start(true, now), run) && After(Start(true, now), run) == s
    ensures s.store == [a, b] && s.flushes == map[0 := Pushing([a], 0, false)] && 0 in s.sent
  {
    var s0 := Start(true, now);
    run, s := OneMore(s0, [], s0, Put(a));
    assert s.store == [a];
    run, s := OneMore(s0, run, s, Counted(1));
    run, s := OneMore(s0, run, s, CallFlush);
    run, s := OneMore(s0, run, s, ReadAll(0));
    run, s := OneMore(s0, run, s, Put(b));
    PutAppends([a], b);
    assert s.flushes == map[0 := Pushing([a], 0, false)];
  }

  /** The one operation of the flush is delivered and taken off the queue. */
  lemma {:induction false} OnlyOneDelivered(s0: State, run0: seq<Action>, s1: State, a: Entry, b: Entry)
    returns (run: seq<Action>, s: State)
    requires IsRun(s0, run0) && After(s0, run0) == s1
    requires s1.store == [a, b] && s1.flushes == map[0 := Pushing([a], 0, false)] && 0 in s1.sent
    ensures IsRun(s0, run) && After(s0, run) == s
    ensures s.store == [b] && s.flushes == map[] && !s.flushing && s.status == Reduce(s1.status, SyncComplete)
  {
    run, s := OneMore(s0, run0, s1, Received(0));
    run, s := OneMore(s0, run, s, Acknowledged(0));
    run, s := OneMore(s0, run, s, Deleted(0));
    assert s.flushes == map[];
  }

  /** An operation enqueued and counted while another is being delivered ends up queued under a count of zero, and going
      online again then starts no flush for it. */
  lemma {:induction false} StaleCountStrands(now: Timestamp) returns (run: seq<Action>, s: State)
    ensures IsRun(Start(true, now), run) && After(Start(true, now), run) == s
    ensures |s.store| == 1 && s.status.queuedCount == 0 && s.status.state == ONLINE
    ensures forall later :: Next(s, Online(later)).flushes == map[]
  {
    var a, b := Entry(1, "a"), Entry(2, "b");
    var s0 := Start(true, now);
    run, s := EnqueuedMidFlush(now, a, b);
    run, s := OneMore(s0, run, s, Counted(2));
    run, s := OnlyOneDelivered(s0, run, s, a, b);
  }

  lemma {:induction false} TwoCounted(now: Timestamp, a: Entry, b: Entry) returns (run: seq<Action>, s: State)
    requires a.key < b.key
    ensures IsRun(Start(true, now), run) && After(Start(true, now), run) == s
    ensures s.store == [a, b] && s.flushes == map[0 := Pushing([a, b], 0, false)] && 0 in s.sent
            && s.status.queuedCount == 2
  {
    var s0 := Start(true, now);
    run, s := OneMore(s0, [], s0, Put(a));
    assert s.store == [a];
    run, s := OneMore(s0, run, s, Put(b));
    PutAppends([a], b);
    assert s.store == [a, b];
    run, s := OneMore(s0, run, s, Counted(2));
    run, s := OneMore(s0, run, s, CallFlush);
    run, s := OneMore(s0, run, s, ReadAll(0));
    assert s.flushes == map[0 := Pushing([a, b], 0, false)];
  }

  lemma {:induction false} FirstReceived(s0: State, run0: seq<Action>, s1: State, ops: seq<Entry>)
    returns (run: seq<Action>, s: State)
    requires IsRun(s0, run0) && After(s0, run0) == s1
    requires ops != [] && s1.flushes == map[0 := Pushing(ops, 0, false)] && 0 in s1.sent
    ensures IsRun(s0, run) && After(s0, run) == s && s.store == s1.store
    ensures s.flushes == map[0 := Pushing(ops, 0, true)] && s.status.queuedCount == s1.status.queuedCount
  {
    run, s := OneMore(s0, run0, s1, Received(0));
    assert s.flushes == map[0 := Pushing(ops, 0, true)];
  }

  lemma {:induction false} FirstAcknowledged(s0: State, run0: seq<Action>, s1: State, ops: seq<Entry>)
    returns (run: seq<Action>, s: State)
    requires IsRun(s0, run0) && After(s0, run0) == s1 && ops != [] && s1.flushes == map[0 := Pushing(ops, 0, true)]
    ensures IsRun(s0, run) && After(s0, run) == s && s.store == s1.store
    ensures s.flushes == map[0 := Deleting(ops, 0)] && s.status.queuedCount == s1.status.queuedCount
  {
    run, s := OneMore(s0, run0, s1, Acknowledged(0));
    assert s.flushes == map[0 := Deleting(ops, 0)];
  }

  lemma {:induction false} FirstTakenOff(s0: State, run0: seq<Action>, s1: State, a: Entry, b: Entry)
    returns (run: seq<Action>, s: State)
    requires IsRun(s0, run0) && After(s0, run0) == s1
    requires s1.store == [a, b] && s1.flushes == map[0 := Deleting([a, b], 0)]
    ensures IsRun(s0, run) && After(s0, run) == s && s.store == [b]
    ensures s.flushes == map[0 := Pushing([a, b], 1, false)] && s.status.queuedCount == s1.status.queuedCount
  {
    run, s := OneMore(s0, run0, s1, Deleted(0));
    assert s.flushes == map[0 := Pushing([a, b], 1, false)];
  }

  /** And a flush that fails after delivering something leaves the count too high. */
  lemma {:induction false} FailedFlushOvercounts(now: Timestamp) returns (run: seq<Action>, s: State)
    ensures IsRun(Start(true, now), run) && After(Start(true, now), run) == s
    ensures |s.store| == 1 && s.status.queuedCount == 2 && s.flushes == map[]
  {
    var a, b := Entry(1, "a"), Entry(2, "b");
    var s0 := Start(true, now);
    run, s := TwoCounted(now, a, b);
    run, s := FirstReceived(s0, run, s, [a, b]);
    run, s := FirstAcknowledged(s0, run, s, [a, b]);
    run, s := FirstTakenOff(s0, run, s, a, b);
    run, s := OneMore(s0, run, s, PushFailed(0, "network error"));
    assert s.flushes == map[];
  }
}
