/** The connectivity manager itself: its methods, left undisturbed between their awaits, are runs of the
    write-queue state machine, and a flush delivers the queue in order up to its first failure. */
module Connectivity {
  import opened Options
  import opened WriteQueue

  /** How the network and the database answer for one queued operation. */
  datatype Answer =
    | Delivered
    | PushRejected(received: bool, error: string)   // the request may or may not have reached the server
    | RemoveFailed(error: string)

  /** Whether the operation answered this way is in the server's log. */
  predicate Reached(a: Answer) {
    !a.PushRejected? || a.received
  }

  /** How many of n operations reached the server when the k-th was the first to fail. */
  function Sent(n: nat, k: nat, answer: nat -> Answer): (m: nat)
    requires k <= n
    ensures m <= n
  {
    if k < n && Reached(answer(k)) then k + 1 else k
  }

  // ----- One uninterrupted flush, as steps of the state machine

  /** The flush numbered id, started in `start`, is about to push ops[k]. */
  ghost predicate MidFlush(start: State, w: State, id: nat, ops: seq<Entry>, k: nat) {
    && k < |ops| && Ascending(ops) && w.store == ops[k..] && w.flushing && w.calls == id + 1
    && w.flushes == start.flushes[id := Pushing(ops, k, false)] && id in w.sent && id !in start.flushes
    && w.status == Reduce(start.status, SyncStarted) && w.log == start.log + ops[..k]
  }

  ghost predicate Ended(start: State, w: State, id: nat, store: seq<Entry>, log: seq<Entry>, status: Status) {
    && w.store == store && w.log == start.log + log && w.status == status
    && !w.flushing && w.calls == id + 1 && w.flushes == start.flushes
  }

  ghost predicate Progress(start: State, w: State, id: nat, ops: seq<Entry>, k: nat, answer: nat -> Answer) {
    && k <= |ops|
    && (if k < |ops| then MidFlush(start, w, id, ops, k)
        else Ended(start, w, id, [], ops, Reduce(start.status, SyncComplete)))
    && forall i | 0 <= i < k :: answer(i) == Delivered
  }

  /** Where a flush ends: operation k was the first to fail, or there was none. */
  ghost predicate Stopped(start: State, w: State, id: nat, ops: seq<Entry>, k: nat, answer: nat -> Answer) {
    && k <= |ops|
    && (forall i | 0 <= i < k :: answer(i) == Delivered)
    && (k < |ops| ==> answer(k) != Delivered)
    && Ended(start, w, id, ops[k..], ops[..Sent(|ops|, k, answer)],
             if k == |ops| then Reduce(start.status, SyncComplete)
             else Reduce(Reduce(start.status, SyncStarted), SyncFailed(answer(k).error)))
  }

  ghost predicate Leads(start: State, run: seq<Action>, w: State) {
    IsRun(start, run) && After(start, run) == w
  }

  lemma BeginRun(start: State) returns (run: seq<Action>, w: State)
    requires !start.flushing && Ascending(start.store) && start.calls !in start.flushes
    ensures Leads(start, run, w)
    ensures if start.store == [] then Ended(start, w, start.calls, [], [], Reduce(start.status, SyncComplete))
            else MidFlush(start, w, start.calls, start.store, 0)
  {
    var id := start.calls;
    run, w := OneMore(start, [], start, CallFlush);
    run, w := OneMore(start, run, w, ReadAll(id));
  }

  /** The operation has been acknowledged and is about to be taken off the queue. */
  lemma {:induction false} AcknowledgeRun(start: State, run: seq<Action>, w: State, id: nat, ops: seq<Entry>, k: nat)
    returns (run': seq<Action>, w': State)
    requires Leads(start, run, w) && MidFlush(start, w, id, ops, k)
    ensures Leads(start, run', w') && w'.log == start.log + ops[..k + 1]
    ensures w'.flushes == start.flushes[id := Deleting(ops, k)]
    ensures w'.store == w.store && w'.status == w.status && w'.calls == w.calls && w'.flushing && id in w'.sent
  {
    run', w' := OneMore(start, run, w, Received(id));
    run', w' := OneMore(start, run', w', Acknowledged(id));
    assert start.log + ops[..k] + [ops[k]] == start.log + ops[..k + 1];
  }

  lemma {:induction false} DeliverRun(start: State, run: seq<Action>, w: State, id: nat, ops: seq<Entry>, k: nat)
    returns (run': seq<Action>, w': State)
    requires Leads(start, run, w) && MidFlush(start, w, id, ops, k)
    ensures Leads(start, run', w')
    ensures w'.store == StoreDelete(w.store, ops[k].key) == ops[k + 1..]
    ensures if k + 1 < |ops| then MidFlush(start, w', id, ops, k + 1)
            else Ended(start, w', id, [], ops, Reduce(start.status, SyncComplete))
  {
    run', w' := AcknowledgeRun(start, run, w, id, ops, k);
    run', w' := OneMore(start, run', w', Deleted(id));
    assert ops[k..][0] == ops[k] && ops[k..][1..] == ops[k + 1..];
  }

  lemma FailRun(start: State, run: seq<Action>, w: State, id: nat, ops: seq<Entry>, k: nat, a: Answer)
    returns (run': seq<Action>, w': State)
    requires Leads(start, run, w) && MidFlush(start, w, id, ops, k) && a != Delivered
    ensures Leads(start, run', w')
    ensures Ended(start, w', id, ops[k..], ops[..if Reached(a) then k + 1 else k],
                  Reduce(w.status, SyncFailed(a.error)))
  {
    run', w' := run, w;
    if Reached(a) {
      run', w' := OneMore(start, run', w', Received(id));
      assert start.log + ops[..k] + [ops[k]] == start.log + ops[..k + 1];
    }
    if a.RemoveFailed? {
      run', w' := OneMore(start, run', w', Acknowledged(id));
      run', w' := OneMore(start, run', w', DeleteFailed(id, a.error));
    } else {
      run', w' := OneMore(start, run', w', PushFailed(id, a.error));
    }
  }

  /** One turn of the loop. */
  lemma {:induction false} StepRun(start: State, run: seq<Action>, w: State, id: nat, ops: seq<Entry>, k: nat,
                                   answer: nat -> Answer)
    returns (run': seq<Action>, w': State)
    requires Leads(start, run, w) && Progress(start, w, id, ops, k, answer) && k < |ops| && answer(k) == Delivered
    ensures Leads(start, run', w') && Progress(start, w', id, ops, k + 1, answer)
    ensures w'.store == StoreDelete(w.store, ops[k].key)
  {
    run', w' := DeliverRun(start, run, w, id, ops, k);
    assert k + 1 == |ops| ==> ops[k + 1..] == [];
  }

  /** The turn on which it fails. */
  lemma {:induction false} StopRun(start: State, run: seq<Action>, w: State, id: nat, ops: seq<Entry>, k: nat,
                                   answer: nat -> Answer)
    returns (run': seq<Action>, w': State)
    requires Leads(start, run, w) && Progress(start, w, id, ops, k, answer) && k < |ops| && answer(k) != Delivered
    ensures Leads(start, run', w') && Stopped(start, w', id, ops, k, answer) && w'.store == w.store
    ensures w'.status == Reduce(Reduce(start.status, SyncStarted), SyncFailed(answer(k).error)) && !w'.flushing
  {
    run', w' := FailRun(start, run, w, id, ops, k, answer(k));
  }

  class ConnectivityManager {
    var status: Status
    var flushing: bool
    var store: seq<Entry>
    /** The same client inside its world: what the server received and acknowledged, and every snapshot. */
    ghost var world: State

    ghost predicate Valid()
      reads this
    {
      && world.status == status && world.flushing == flushing && world.store == store
      && Ascending(store) && (forall id | id in world.flushes :: id < world.calls)
    }

    constructor (online: bool, now: Timestamp)
      ensures Valid() && world == Start(online, now)
    {
      status := InitialStatus(online, now);
      flushing := false;
      store := [];
      world := Start(online, now);
    }

    method Dispatch(action: Transition)
      modifies this`status
      ensures status == Reduce(old(status), action)
    {
      status := Reduce(status, action);
    }

    /** `enqueue`: the entry is queued under its key and the count is the queue's new size. */
    method Enqueue(entry: Entry) returns (ghost run: seq<Action>)
      requires Valid()
      modifies this
      ensures Valid() && IsRun(old(world), run) && world == After(old(world), run)
      ensures store == StorePut(old(store), entry) && world.enqueued == old(world.enqueued) + [entry]
      ensures status == old(status).(queuedCount := |store|)
    {
      PutMembers(store, entry);
      store := StorePut(store, entry);
      run, world := OneMore(world, [], world, Put(entry));
      var count := |store|;
      Dispatch(QueueUpdated(count));
      run, world := OneMore(old(world), run, world, Counted(count));
    }

    /** The try block of `flush`: push and remove one by one, up to the first failure. */
    method PushAll(ops: seq<Entry>, answer: nat -> Answer, ghost start: State, ghost begun: seq<Action>, ghost id: nat)
      returns (k: nat, ghost run: seq<Action>)
      requires Leads(start, begun, world) && MidFlush(start, world, id, ops, 0)
      requires store == ops && flushing && status == world.status
      modifies this
      ensures Leads(start, run, world) && Stopped(start, world, id, ops, k, answer)
      ensures world.store == store && world.status == status && world.flushing == flushing
    {
      run, k := begun, 0;
      while k < |ops|
        invariant Leads(start, run, world) && Progress(start, world, id, ops, k, answer)
        invariant store == world.store && status == Reduce(start.status, SyncStarted)
      {
        if answer(k) != Delivered {
          run, world := StopRun(start, run, world, id, ops, k, answer);
          flushing := false;
          Dispatch(SyncFailed(answer(k).error));
          return;
        }
        run, world := StepRun(start, run, world, id, ops, k, answer);
        store := StoreDelete(store, ops[k].key);
        k := k + 1;
      }
      flushing := false;
      Dispatch(SyncComplete);
    }

    /** `flush`, answered by the world as `answer` says: it delivers the queue in order, taking off each operation
        once acknowledged, and stops at the first failure, keeping that operation and all after it. */
    method Flush(answer: nat -> Answer) returns (k: nat, ghost run: seq<Action>)
      requires Valid()
      modifies this
      ensures Valid() && IsRun(old(world), run) && world == After(old(world), run)
      ensures old(flushing) ==> world == old(world)
      ensures !old(flushing) ==>
                && k <= |old(store)| && store == old(store)[k..] && !flushing
                && (forall i | 0 <= i < k :: answer(i) == Delivered)
                && (k < |old(store)| ==>
                      && answer(k) != Delivered
                      && world.log == old(world.log) + old(store)[..k]
                                      + (if answer(k).RemoveFailed? || answer(k).received then [old(store)[k]] else [])
                      && status == Status(OFFLINE, old(status.queuedCount), old(status.lastOnlineAt),
                                          Some(answer(k).error)))
                && (k == |old(store)| ==>
                      && world.log == old(world.log) + old(store)
                      && status == Status(ONLINE, 0, old(status.lastOnlineAt), None))
    {
      run, k := [], 0;
      if flushing {
        return;
      }
      ghost var id, start := world.calls, world;
      run, world := BeginRun(start);
      var ops := store;
      if ops == [] {
        Dispatch(SyncComplete);
        return;
      }
      flushing := true;
      Dispatch(SyncStarted);
      k, run := PushAll(ops, answer, start, run, id);
    }
  }
}
