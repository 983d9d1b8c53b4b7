/** The offline write queue as a state machine: every step is what runs between two awaits. What resumes on the answer
    of a database request is one step with that request, since the request's transaction is still open then. */
module WriteQueue {
  import opened Options

  type Timestamp = string

  /** A queued operation; keys stand for the sortable timestamps that key the object store. */
  datatype Entry = Entry(key: int, payload: string)

  datatype ConnectivityState = ONLINE | OFFLINE | RECONNECTING | SYNCING

  datatype Status = Status(state: ConnectivityState, queuedCount: nat, lastOnlineAt: Option<Timestamp>,
                           lastError: Option<string>)

  datatype Transition = WentOffline | WentOnline(now: Timestamp) | SyncStarted | SyncComplete
                      | SyncFailed(error: string) | QueueUpdated(count: nat)

  function Reduce(prev: Status, action: Transition): Status {
    match action
    case WentOffline => prev.(state := OFFLINE)
    case WentOnline(now) =>
      prev.(state := if prev.queuedCount > 0 then RECONNECTING else ONLINE,
            lastOnlineAt := Some(now), lastError := None)
    case SyncStarted => prev.(state := SYNCING, lastError := None)
    case SyncComplete => prev.(state := ONLINE, queuedCount := 0, lastError := None)
    case SyncFailed(error) => prev.(state := OFFLINE, lastError := Some(error))
    case QueueUpdated(count) => prev.(queuedCount := count)
  }

  function InitialStatus(online: bool, now: Timestamp): Status {
    Status(if online then ONLINE else OFFLINE, 0, if online then Some(now) else None, None)
  }

  /** Where one call of flush() is suspended. */
  datatype Flush =
    | Asked                                              // past the `_flushing` test, waiting for the database
    | Pushing(ops: seq<Entry>, i: nat, received: bool)   // request for ops[i] under way
    | Deleting(ops: seq<Entry>, i: nat)                  // ops[i] acknowledged, removal under way

  /** The client (store, status, flushing, flushes), and what really happened (the rest). */
  datatype State = State(
    store: seq<Entry>, status: Status, flushing: bool, flushes: map<nat, Flush>, calls: nat,
    enqueued: seq<Entry>, log: seq<Entry>, acked: set<Entry>,
    snapshots: map<nat, seq<Entry>>, sent: map<nat, seq<Entry>>,
    adrift: map<nat, Entry>)                             // given up on before it reached the server, by flush

  datatype Action =
    | Put(entry: Entry)
    | Counted(count: nat)
    | InitCounted(count: nat, now: Timestamp)
    | CallFlush
    | ReadAll(id: nat)
    | ReadFailed(id: nat)
    | Received(id: nat)
    | Acknowledged(id: nat)
    | PushFailed(id: nat, error: string)
    | Deleted(id: nat)
    | DeleteFailed(id: nat, error: string)
    | Online(now: Timestamp)
    | Offline
    | Restart(online: bool, now: Timestamp)
    | Arrived(id: nat)   // a request that was given up on reaches the server after all

  // ----- The object store: entries in key order, one per key

  function StorePut(store: seq<Entry>, e: Entry): seq<Entry> {
    if store == [] || e.key < store[0].key then [e] + store
    else if e.key == store[0].key then [e] + store[1..]
    else [store[0]] + StorePut(store[1..], e)
  }

  function StoreDelete(store: seq<Entry>, key: int): seq<Entry> {
    if store == [] then []
    else if store[0].key == key then store[1..]
    else [store[0]] + StoreDelete(store[1..], key)
  }

  // ----- Steps

  function StartFlush(s: State): State {
    if s.flushing then s else s.(flushes := s.flushes[s.calls := Asked], calls := s.calls + 1)
  }

  function EndFlush(s: State, id: nat, t: Transition): State {
    s.(flushes := s.flushes - {id}, flushing := false, status := Reduce(s.status, t))
  }

  /** The snapshot has been read: start pushing, or be done. */
  function BeginFlush(s: State, id: nat, ops: seq<Entry>): State {
    if ops == [] then s.(flushes := s.flushes - {id}, status := Reduce(s.status, SyncComplete))
    else s.(flushes := s.flushes[id := Pushing(ops, 0, false)], flushing := true,
            status := Reduce(s.status, SyncStarted))
  }

  function AfterDelete(s: State, id: nat, ops: seq<Entry>, i: nat): State
    requires i < |ops|
  {
    var s' := s.(store := StoreDelete(s.store, ops[i].key));
    if i + 1 < |ops| then s'.(flushes := s'.flushes[id := Pushing(ops, i + 1, false)])
    else EndFlush(s', id, SyncComplete)
  }

  /** The request under way, if it has not reached the server. */
  function UnderWay(f: Flush): Option<Entry> {
    if f.Pushing? && !f.received && f.i < |f.ops| then Some(f.ops[f.i]) else None
  }

  function GiveUp(s: State, id: nat): State
    requires id in s.flushes
  {
    var e := UnderWay(s.flushes[id]);
    if e.Some? then s.(adrift := s.adrift[id := e.value]) else s
  }

  /** The requests cut short by a restart before they reached the server. */
  function Cut(flushes: map<nat, Flush>): map<nat, Entry> {
    map id | id in flushes && UnderWay(flushes[id]).Some? :: UnderWay(flushes[id]).value
  }

  predicate Enabled(s: State, a: Action) {
    match a
    case Counted(count) => count == |s.store|
    case InitCounted(count, _) => count == |s.store|
    case ReadAll(id) => id in s.flushes && s.flushes[id].Asked?
    case ReadFailed(id) => id in s.flushes && s.flushes[id].Asked?
    case Received(id) =>
      id in s.flushes && s.flushes[id].Pushing? && !s.flushes[id].received && s.flushes[id].i < |s.flushes[id].ops|
      && id in s.sent
    case Acknowledged(id) =>
      id in s.flushes && s.flushes[id].Pushing? && s.flushes[id].received && s.flushes[id].i < |s.flushes[id].ops|
    case PushFailed(id, _) => id in s.flushes && s.flushes[id].Pushing?
    case Deleted(id) => id in s.flushes && s.flushes[id].Deleting? && s.flushes[id].i < |s.flushes[id].ops|
    case DeleteFailed(id, _) => id in s.flushes && s.flushes[id].Deleting?
    case Arrived(id) => id in s.adrift
    case _ => true
  }

  function Next(s: State, a: Action): State
    requires Enabled(s, a)
  {
    match a
    case Put(e) => s.(store := StorePut(s.store, e), enqueued := s.enqueued + [e])
    case Counted(count) => s.(status := Reduce(s.status, QueueUpdated(count)))
    case InitCounted(count, now) =>
      if count == 0 then s else
      var s' := s.(status := Reduce(s.status, QueueUpdated(count)));
      if s'.status.state == ONLINE then StartFlush(s'.(status := Reduce(s'.status, WentOnline(now)))) else s'
    case CallFlush => StartFlush(s)
    case ReadAll(id) =>
      BeginFlush(s.(snapshots := s.snapshots[id := s.store], sent := s.sent[id := []]), id, s.store)
    case ReadFailed(id) => s.(flushes := s.flushes - {id})
    case Received(id) =>
      var f := s.flushes[id];
      s.(flushes := s.flushes[id := f.(received := true)], log := s.log + [f.ops[f.i]],
         sent := s.sent[id := s.sent[id] + [f.ops[f.i]]])
    case Acknowledged(id) =>
      var f := s.flushes[id];
      s.(flushes := s.flushes[id := Deleting(f.ops, f.i)], acked := s.acked + {f.ops[f.i]})
    case PushFailed(id, error) => EndFlush(GiveUp(s, id), id, SyncFailed(error))
    case Deleted(id) => AfterDelete(s, id, s.flushes[id].ops, s.flushes[id].i)
    case DeleteFailed(id, error) => EndFlush(s, id, SyncFailed(error))
    case Online(now) =>
      var s' := s.(status := Reduce(s.status, WentOnline(now)));
      if s'.status.queuedCount > 0 then StartFlush(s') else s'
    case Offline => s.(status := Reduce(s.status, WentOffline))
    case Restart(online, now) =>
      s.(flushes := map[], flushing := false, status := InitialStatus(online, now),
         adrift := s.adrift + Cut(s.flushes))
    case Arrived(id) => s.(log := s.log + [s.adrift[id]], adrift := s.adrift - {id})
  }

  function Start(online: bool, now: Timestamp): State {
    State([], InitialStatus(online, now), false, map[], 0, [], [], {}, map[], map[], map[])
  }

  /** A run: the steps are possible one after the other. */
  predicate IsRun(s: State, run: seq<Action>)
    decreases |run|
  {
    run == [] || (Enabled(s, run[0]) && IsRun(Next(s, run[0]), run[1..]))
  }

  function After(s: State, run: seq<Action>): State
    requires IsRun(s, run)
    decreases |run|
  {
    if run == [] then s else After(Next(s, run[0]), run[1..])
  }

  lemma {:induction false} OneMore(s0: State, run: seq<Action>, s: State, a: Action)
    returns (run': seq<Action>, s': State)
    requires IsRun(s0, run) && After(s0, run) == s && Enabled(s, a)
    ensures run' == run + [a] && s' == Next(s, a) && IsRun(s0, run') && After(s0, run') == s'
    decreases |run|
  {
    run', s' := run + [a], Next(s, a);
    if run != [] {
      var rest, t := OneMore(Next(s0, run[0]), run[1..], s, a);
      assert run'[1..] == rest;
    }
  }

  // ----- What every step keeps

  ghost predicate Ascending(s: seq<Entry>) {
    forall i, j | 0 <= i < j < |s| :: s[i].key < s[j].key
  }

  ghost predicate KeysDiffer(s: seq<Entry>) {
    forall i, j | 0 <= i < j < |s| :: s[i].key != s[j].key
  }

  ghost predicate StoreOk(s: State) {
    Ascending(s.store) && forall e | e in s.store :: e in s.enqueued
  }

  ghost predicate FrameOk(f: Flush, snapshot: seq<Entry>, sent: seq<Entry>, acked: set<Entry>, log: seq<Entry>) {
    match f
    case Asked => true
    case Pushing(ops, i, received) =>
      ops == snapshot && i < |ops| && sent == ops[..if received then i + 1 else i] && (received ==> ops[i] in log)
    case Deleting(ops, i) => ops == snapshot && i < |ops| && sent == ops[..i + 1] && ops[i] in acked
  }

  ghost predicate FlushesOk(s: State) {
    && s.snapshots.Keys == s.sent.Keys
    && (forall id | id in s.flushes || id in s.snapshots :: id < s.calls)
    && (forall id | id in s.flushes && !s.flushes[id].Asked? :: id in s.snapshots)
    && (forall id | id in s.flushes && id in s.snapshots ::
          FrameOk(s.flushes[id], s.snapshots[id], s.sent[id], s.acked, s.log))
  }

  /** Every flush so far has sent a prefix of the ascending snapshot it read, and nothing else. */
  ghost predicate SendsPrefixes(s: State) {
    forall id | id in s.snapshots && id in s.sent ::
      && s.sent[id] <= s.snapshots[id] && Ascending(s.snapshots[id])
      && forall e | e in s.snapshots[id] :: e in s.enqueued
  }

  ghost predicate AdriftOk(s: State) {
    forall id | id in s.adrift :: s.adrift[id] in s.enqueued
  }

  /** What holds whatever is put under whatever key. */
  ghost predicate Live(s: State) {
    StoreOk(s) && FlushesOk(s) && SendsPrefixes(s) && AdriftOk(s)
  }

  // ----- No operation is ever lost

  /** Every operation handed to enqueue is still queued or has been acknowledged by the server. */
  ghost predicate NoLoss(s: State) {
    forall e | e in s.enqueued :: e in s.store || e in s.acked
  }

  ghost predicate LogOk(s: State) {
    (forall e | e in s.acked :: e in s.log) && forall e | e in s.log :: e in s.enqueued
  }

  /** What a flush has still to take off the queue, by key. */
  function Pending(f: Flush): seq<Entry> {
    match f
    case Asked => []
    case Pushing(ops, i, _) => if i <= |ops| then ops[i..] else []
    case Deleting(ops, i) => if i <= |ops| then ops[i..] else []
  }

  /** No flush is about to take off the queue, in place of what it read, something that has not been acknowledged. */
  ghost predicate Guarded(s: State) {
    forall id, x, y | id in s.flushes && x in Pending(s.flushes[id]) && y in s.store && x.key == y.key ::
      y == x || y in s.acked
  }

  ghost predicate Safe(s: State) {
    Live(s) && NoLoss(s) && LogOk(s) && Guarded(s)
  }

  /** Nothing else is queued under the key unacknowledged, and no flush has something else under it still to take off.
      */
  ghost predicate PutOk(s: State, e: Entry) {
    && (forall x | x in s.store && x.key == e.key :: x == e || x in s.acked)
    && (e in s.acked || forall id, x | id in s.flushes && x in Pending(s.flushes[id]) && x.key == e.key :: x == e)
  }

  ghost predicate PutsOk(s: State, run: seq<Action>)
    requires IsRun(s, run)
    decreases |run|
  {
    run == [] || ((run[0].Put? ==> PutOk(s, run[0].entry)) && PutsOk(Next(s, run[0]), run[1..]))
  }

  // ----- The store

  lemma {:induction false} PutMember(store: seq<Entry>, e: Entry, x: Entry)
    requires Ascending(store)
    ensures x in StorePut(store, e) <==> x == e || (x in store && x.key != e.key)
  {
    if store != [] && e.key >= store[0].key {
      assert store == [store[0]] + store[1..];
      if e.key > store[0].key {
        PutMember(store[1..], e, x);
      }
    }
  }

  lemma {:induction false} PutMembers(store: seq<Entry>, e: Entry)
    requires Ascending(store)
    ensures Ascending(StorePut(store, e))
    ensures forall x :: x in StorePut(store, e) <==> x == e || (x in store && x.key != e.key)
  {
    forall x ensures x in StorePut(store, e) <==> x == e || (x in store && x.key != e.key) {
      PutMember(store, e, x);
    }
    PutKeepsAscending(store, e);
  }

  lemma {:induction false} PutKeepsAscending(store: seq<Entry>, e: Entry)
    requires Ascending(store)
    ensures Ascending(StorePut(store, e))
  {
    if store != [] && e.key > store[0].key {
      PutKeepsAscending(store[1..], e);
      var rest := StorePut(store[1..], e);
      forall j | 0 <= j < |rest| ensures store[0].key < rest[j].key {
        PutMember(store[1..], e, rest[j]);
      }
    }
  }

  lemma {:induction false} DeleteMembers(store: seq<Entry>, key: int)
    requires Ascending(store)
    ensures Ascending(StoreDelete(store, key))
    ensures forall x :: x in StoreDelete(store, key) <==> x in store && x.key != key
  {
    if store != [] {
      assert store == [store[0]] + store[1..];
      if store[0].key == key {
      } else {
        DeleteMembers(store[1..], key);
        var rest := StoreDelete(store[1..], key);
        forall j | 0 <= j < |rest| ensures store[0].key < rest[j].key {
          assert rest[j] in rest;
        }
      }
    }
  }

  // ----- Every step keeps Live

  lemma {:induction false} PutIsLive(s: State, e: Entry)
    requires Live(s)
    ensures Live(Next(s, Put(e)))
  {
    PutMembers(s.store, e);
    var s' := Next(s, Put(e));
    assert s'.enqueued[|s.enqueued|] == e;
    forall x | x in s.enqueued ensures x in s'.enqueued {
    }
  }

  lemma {:induction false} ReadAllIsLive(s: State, id: nat)
    requires Live(s) && Enabled(s, ReadAll(id))
    ensures Live(Next(s, ReadAll(id)))
  {
    var s' := Next(s, ReadAll(id));
    assert s'.snapshots == s.snapshots[id := s.store] && s'.sent == s.sent[id := []];
    assert SendsPrefixes(s');
    forall k | k in s'.flushes && k in s'.snapshots
      ensures FrameOk(s'.flushes[k], s'.snapshots[k], s'.sent[k], s'.acked, s'.log)
    {
      if k != id {
        assert FrameOk(s.flushes[k], s.snapshots[k], s.sent[k], s.acked, s.log);
      }
    }
  }

  lemma {:induction false} ReceivedIsLive(s: State, id: nat)
    requires Live(s) && Enabled(s, Received(id))
    ensures Live(Next(s, Received(id)))
  {
    var s', ops, i := Next(s, Received(id)), s.flushes[id].ops, s.flushes[id].i;
    assert s'.sent[id] == ops[..i + 1];
    assert s'.log[|s.log|] == ops[i];
    forall k | k in s'.flushes && k in s'.snapshots
      ensures FrameOk(s'.flushes[k], s'.snapshots[k], s'.sent[k], s'.acked, s'.log)
    {
      if k != id {
        assert FrameOk(s.flushes[k], s.snapshots[k], s.sent[k], s.acked, s.log);
      }
    }
  }

  lemma {:induction false} AcknowledgedIsLive(s: State, id: nat)
    requires Live(s) && Enabled(s, Acknowledged(id))
    ensures Live(Next(s, Acknowledged(id)))
  {
    assert id in s.snapshots;
  }

  /** Steps that only start or end flushes, give up on requests and change the status. */
  lemma {:induction false} EndIsLive(s: State, s': State)
    requires Live(s) && AdriftOk(s') && s'.calls >= s.calls
    requires s' == s.(flushes := s'.flushes, flushing := s'.flushing, status := s'.status, calls := s'.calls,
                      adrift := s'.adrift)
    requires forall id | id in s'.flushes ::
               (id in s.flushes && s'.flushes[id] == s.flushes[id])
               || (s'.flushes[id].Asked? && s.calls <= id < s'.calls)
    ensures Live(s')
  {
  }

  lemma {:induction false} UnderWayIsQueued(s: State, id: nat)
    requires Live(s) && id in s.flushes && UnderWay(s.flushes[id]).Some?
    ensures UnderWay(s.flushes[id]).value in s.enqueued
  {
    assert id in s.snapshots && UnderWay(s.flushes[id]).value in s.snapshots[id];
  }

  lemma {:induction false} GivingUpIsOk(s: State, a: Action)
    requires Live(s) && Enabled(s, a) && Other(a)
    ensures AdriftOk(Next(s, a))
  {
    forall id | id in s.flushes && UnderWay(s.flushes[id]).Some? ensures UnderWay(s.flushes[id]).value in s.enqueued {
      UnderWayIsQueued(s, id);
    }
  }

  lemma {:induction false} DeletedIsLive(s: State, id: nat)
    requires Live(s) && Enabled(s, Deleted(id))
    ensures Live(Next(s, Deleted(id)))
  {
    var ops, i := s.flushes[id].ops, s.flushes[id].i;
    assert id in s.snapshots;
    DeleteMembers(s.store, ops[i].key);
    assert FlushesOk(Next(s, Deleted(id)));
  }

  lemma {:induction false} ArrivedIsLive(s: State, id: nat)
    requires Live(s) && Enabled(s, Arrived(id))
    ensures Live(Next(s, Arrived(id)))
  {
  }

  predicate Other(a: Action) {
    !a.Put? && !a.ReadAll? && !a.Received? && !a.Acknowledged? && !a.Deleted? && !a.Arrived?
  }

  lemma {:induction false} OtherFlushes(s: State, a: Action)
    requires Enabled(s, a) && Other(a) && forall id | id in s.flushes :: id < s.calls
    ensures var s' := Next(s, a);
            forall id | id in s'.flushes ::
              if id in s.flushes then s'.flushes[id] == s.flushes[id]
              else s'.flushes[id] == Asked && s.calls <= id < s'.calls
  {
  }

  lemma {:induction false} OtherFacts(s: State, a: Action)
    requires Enabled(s, a) && Other(a)
    ensures var s' := Next(s, a);
            && s'.store == s.store && s'.enqueued == s.enqueued && s'.acked == s.acked && s'.log == s.log
            && s'.snapshots == s.snapshots && s'.sent == s.sent && s'.calls >= s.calls
  {
  }

  lemma {:induction false} OtherIsLive(s: State, a: Action)
    requires Live(s) && Enabled(s, a) && Other(a)
    ensures Live(Next(s, a))
  {
    GivingUpIsOk(s, a);
    OtherFacts(s, a);
    OtherFlushes(s, a);
    EndIsLive(s, Next(s, a));
  }

  lemma {:induction false} StepIsLive(s: State, a: Action)
    requires Live(s) && Enabled(s, a)
    ensures Live(Next(s, a))
  {
    match a
    case Put(e) => PutIsLive(s, e);
    case ReadAll(id) => ReadAllIsLive(s, id);
    case Received(id) => ReceivedIsLive(s, id);
    case Acknowledged(id) => AcknowledgedIsLive(s, id);
    case Deleted(id) => DeletedIsLive(s, id);
    case Arrived(id) => ArrivedIsLive(s, id);
    case _ => OtherIsLive(s, a);
  }

  // ----- Every step keeps Safe, provided puts are ok

  lemma {:induction false} SameKey(s: seq<Entry>, a: Entry, b: Entry)
    requires KeysDiffer(s) && a in s && b in s && a.key == b.key
    ensures a == b
  {
    var i :| 0 <= i < |s| && s[i] == a;
    var j :| 0 <= j < |s| && s[j] == b;
  }

  lemma {:induction false} PutIsSafe(s: State, e: Entry)
    requires Safe(s) && PutOk(s, e)
    ensures Safe(Next(s, Put(e)))
  {
    PutIsLive(s, e);
    PutMembers(s.store, e);
    var s' := Next(s, Put(e));
    forall x | x in s.enqueued ensures x in s'.enqueued {
    }
  }

  lemma {:induction false} ReadAllIsSafe(s: State, id: nat)
    requires Safe(s) && Enabled(s, ReadAll(id))
    ensures Safe(Next(s, ReadAll(id)))
  {
    ReadAllIsLive(s, id);
    forall x, y | x in s.store && y in s.store && x.key == y.key ensures y == x {
      SameKey(s.store, x, y);
    }
  }

  lemma {:induction false} ReceivedIsSafe(s: State, id: nat)
    requires Safe(s) && Enabled(s, Received(id))
    ensures Safe(Next(s, Received(id)))
  {
    ReceivedIsLive(s, id);
    var e := s.flushes[id].ops[s.flushes[id].i];
    assert id in s.snapshots && e in s.snapshots[id];
    SamePending(s, Next(s, Received(id)));
  }

  lemma {:induction false} AcknowledgedIsSafe(s: State, id: nat)
    requires Safe(s) && Enabled(s, Acknowledged(id))
    ensures Safe(Next(s, Acknowledged(id)))
  {
    AcknowledgedIsLive(s, id);
    assert id in s.snapshots;
    SamePending(s, Next(s, Acknowledged(id)));
  }

  /** Steps that leave the store alone, acknowledge no less and add nothing to what flushes have still to take off. */
  lemma {:induction false} SamePending(s: State, s': State)
    requires Guarded(s) && s'.store == s.store && s.acked <= s'.acked
    requires forall id | id in s'.flushes ::
               Pending(s'.flushes[id]) == if id in s.flushes then Pending(s.flushes[id]) else []
    ensures Guarded(s')
  {
  }

  /** Taking a key off the queue loses nothing when what stands under it is acknowledged, and keeps Guarded. */
  lemma {:induction false} TakingOffIsSafe(s: State, s': State, key: int)
    requires NoLoss(s) && Guarded(s) && s'.enqueued == s.enqueued && s'.acked == s.acked
    requires forall x :: x in s'.store <==> x in s.store && x.key != key
    requires forall y | y in s.store && y.key == key :: y in s.acked
    requires forall id, x | id in s'.flushes && x in Pending(s'.flushes[id]) ::
               id in s.flushes && x in Pending(s.flushes[id])
    ensures NoLoss(s') && Guarded(s')
  {
  }

  lemma {:induction false} PendingShrinks(s: State, id: nat)
    requires Enabled(s, Deleted(id))
    ensures Pending(s.flushes[id]) != [] && Pending(s.flushes[id])[0] == s.flushes[id].ops[s.flushes[id].i]
    ensures var s' := Next(s, Deleted(id));
            forall k, x | k in s'.flushes && x in Pending(s'.flushes[k]) :: k in s.flushes && x in Pending(s.flushes[k])
  {
    var f, s' := s.flushes[id], Next(s, Deleted(id));
    if id in s'.flushes {
      assert Pending(s'.flushes[id]) == Pending(f)[1..];
    }
  }

  lemma {:induction false} DeletedIsSafe(s: State, id: nat)
    requires Safe(s) && Enabled(s, Deleted(id))
    ensures Safe(Next(s, Deleted(id)))
  {
    var x := s.flushes[id].ops[s.flushes[id].i];
    DeletedIsLive(s, id);
    PendingShrinks(s, id);
    DeleteMembers(s.store, x.key);
    assert id in s.snapshots && x in s.acked && x in Pending(s.flushes[id]);
    TakingOffIsSafe(s, Next(s, Deleted(id)), x.key);
  }

  lemma {:induction false} ArrivedIsSafe(s: State, id: nat)
    requires Safe(s) && Enabled(s, Arrived(id))
    ensures Safe(Next(s, Arrived(id)))
  {
    ArrivedIsLive(s, id);
  }

  lemma {:induction false} OtherIsSafe(s: State, a: Action)
    requires Safe(s) && Enabled(s, a) && Other(a)
    ensures Safe(Next(s, a))
  {
    var s' := Next(s, a);
    assert Live(s') by {
      OtherIsLive(s, a);
    }
    assert Guarded(s') by {
      OtherFlushes(s, a);
      OtherFacts(s, a);
      SamePending(s, s');
    }
    OtherFacts(s, a);
  }

  /** One step of any kind, from any client call, network answer, late arrival or restart. */
  lemma {:induction false} StepIsSafe(s: State, a: Action)
    requires Safe(s) && Enabled(s, a) && (a.Put? ==> PutOk(s, a.entry))
    ensures Safe(Next(s, a))
  {
    match a
    case Put(e) => PutIsSafe(s, e);
    case ReadAll(id) => ReadAllIsSafe(s, id);
    case Received(id) => ReceivedIsSafe(s, id);
    case Acknowledged(id) => AcknowledgedIsSafe(s, id);
    case Deleted(id) => DeletedIsSafe(s, id);
    case Arrived(id) => ArrivedIsSafe(s, id);
    case _ => OtherIsSafe(s, a);
  }

  /** Over any run whose puts are ok: no operation is ever lost, with flushes overlapping, failing, retried or cut
      short by a restart, and requests arriving after they were given up on. */
  lemma {:induction false} RunIsSafe(s: State, run: seq<Action>)
    requires Safe(s) && IsRun(s, run) && PutsOk(s, run)
    ensures Safe(After(s, run))
    decreases |run|
  {
    if run != [] {
      StepIsSafe(s, run[0]);
      RunIsSafe(Next(s, run[0]), run[1..]);
    }
  }

  lemma {:induction false} EnqueuedGrows(s: State, run: seq<Action>)
    requires IsRun(s, run)
    ensures s.enqueued <= After(s, run).enqueued
    decreases |run|
  {
    if run != [] {
      EnqueuedGrows(Next(s, run[0]), run[1..]);
    }
  }

  lemma {:induction false} NewKeyIsOk(s: State, e: Entry)
    requires Live(s) && KeysDiffer(s.enqueued + [e])
    ensures PutOk(s, e)
  {
    var all := s.enqueued + [e];
    forall x | x in s.enqueued ensures x.key != e.key {
      var i :| 0 <= i < |s.enqueued| && s.enqueued[i] == x;
      assert all[i] == x && all[|s.enqueued|] == e;
    }
    forall id, x | id in s.flushes && x in Pending(s.flushes[id]) ensures x in s.enqueued {
      assert id in s.snapshots && x in s.snapshots[id];
    }
  }

  /** Distinct keys make every put ok. */
  lemma {:induction false} DistinctKeysAreOk(s: State, run: seq<Action>)
    requires Live(s) && IsRun(s, run) && KeysDiffer(After(s, run).enqueued)
    ensures PutsOk(s, run)
    decreases |run|
  {
    if run != [] {
      var s' := Next(s, run[0]);
      EnqueuedGrows(s', run[1..]);
      if run[0].Put? {
        NewKeyIsOk(s, run[0].entry);
      }
      StepIsLive(s, run[0]);
      DistinctKeysAreOk(s', run[1..]);
    }
  }

  /** Over any run, with flushes overlapping, failing, retried or cut short by a restart, and requests arriving late: as
      long as no two operations were given the same key, none is ever lost, and each flush sends an ascending prefix of
      what it read. */
  lemma {:induction false} NeverLosesAnOperation(online: bool, now: Timestamp, run: seq<Action>)
    requires IsRun(Start(online, now), run) && KeysDiffer(After(Start(online, now), run).enqueued)
    ensures NoLoss(After(Start(online, now), run)) && SendsPrefixes(After(Start(online, now), run))
  {
    DistinctKeysAreOk(Start(online, now), run);
    RunIsSafe(Start(online, now), run);
  }

  // ----- Exactly which puts can lose something

  predicate NoPuts(run: seq<Action>) {
    forall i | 0 <= i < |run| :: !run[i].Put?
  }

  lemma {:induction false} NoPutsAreOk(s: State, run: seq<Action>)
    requires IsRun(s, run) && NoPuts(run)
    ensures PutsOk(s, run)
    decreases |run|
  {
    if run != [] {
      NoPutsAreOk(Next(s, run[0]), run[1..]);
    }
  }

  /** A run without puts from s0 to w. */
  ghost predicate Quiet(s0: State, run: seq<Action>, w: State) {
    IsRun(s0, run) && After(s0, run) == w && NoPuts(run) && Live(w)
  }

  lemma {:induction false} QuietStep(s0: State, run: seq<Action>, s: State, a: Action)
    returns (run': seq<Action>, w: State)
    requires Quiet(s0, run, s) && Enabled(s, a) && !a.Put?
    ensures Quiet(s0, run', w) && w == Next(s, a)
  {
    StepIsLive(s, a);
    run', w := OneMore(s0, run, s, a);
  }

  lemma {:induction false} ToReceived(s0: State, run: seq<Action>, s: State, id: nat)
    returns (run': seq<Action>, w: State)
    requires Quiet(s0, run, s) && id in s.flushes && s.flushes[id].Pushing? && !s.flushes[id].received
    requires s.flushes[id].i < |s.flushes[id].ops|
    ensures Quiet(s0, run', w) && w.enqueued == s.enqueued && w.store == s.store && w.acked == s.acked
    ensures id in w.flushes && w.flushes[id] == s.flushes[id].(received := true)
  {
    assert id in s.snapshots;
    run', w := QuietStep(s0, run, s, Received(id));
  }

  lemma {:induction false} ToDeleting(s0: State, run: seq<Action>, s: State, id: nat)
    returns (run': seq<Action>, w: State)
    requires Quiet(s0, run, s) && id in s.flushes && Pending(s.flushes[id]) != []
    ensures Quiet(s0, run', w) && w.enqueued == s.enqueued && w.store == s.store
    ensures id in w.flushes && w.flushes[id].Deleting? && Pending(w.flushes[id]) == Pending(s.flushes[id])
    ensures w.acked == s.acked + {Pending(s.flushes[id])[0]}
  {
    run', w := run, s;
    if s.flushes[id].Deleting? {
      assert id in s.snapshots;
    } else {
      if !s.flushes[id].received {
        run', w := ToReceived(s0, run, s, id);
      }
      run', w := QuietStep(s0, run', w, Acknowledged(id));
    }
  }

  lemma {:induction false} ToDeleted(s0: State, run: seq<Action>, s: State, id: nat)
    returns (run': seq<Action>, w: State)
    requires Quiet(s0, run, s) && id in s.flushes && s.flushes[id].Deleting? && Pending(s.flushes[id]) != []
    ensures Quiet(s0, run', w) && w.enqueued == s.enqueued && w.acked == s.acked
    ensures w.store == StoreDelete(s.store, Pending(s.flushes[id])[0].key)
    ensures |Pending(s.flushes[id])| > 1 ==> id in w.flushes && Pending(w.flushes[id]) == Pending(s.flushes[id])[1..]
  {
    run', w := QuietStep(s0, run, s, Deleted(id));
    var f := s.flushes[id];
    assert f.ops[f.i..][0] == f.ops[f.i] && f.ops[f.i..][1..] == f.ops[f.i + 1..];
  }

  /** A flush that has read something can go on until its next operation is taken off the queue. */
  lemma {:induction false} TakeOne(s0: State, run: seq<Action>, s: State, id: nat)
    returns (run': seq<Action>, w: State)
    requires Quiet(s0, run, s) && id in s.flushes && Pending(s.flushes[id]) != []
    ensures Quiet(s0, run', w) && w.enqueued == s.enqueued
    ensures var x := Pending(s.flushes[id])[0]; w.store == StoreDelete(s.store, x.key) && w.acked == s.acked + {x}
    ensures |Pending(s.flushes[id])| > 1 ==> id in w.flushes && Pending(w.flushes[id]) == Pending(s.flushes[id])[1..]
  {
    run', w := ToDeleting(s0, run, s, id);
    run', w := ToDeleted(s0, run', w, id);
  }

  /** So it can go on until everything under the key of its j-th pending operation is off the queue. */
  lemma {:induction false} TakeUpTo(s0: State, run: seq<Action>, s: State, id: nat, j: nat)
    returns (run': seq<Action>, w: State)
    requires Quiet(s0, run, s) && id in s.flushes && j < |Pending(s.flushes[id])|
    ensures Quiet(s0, run', w) && w.enqueued == s.enqueued
    ensures forall y | y in w.store :: y in s.store && y.key != Pending(s.flushes[id])[j].key
    ensures forall y | y in w.acked :: y in s.acked || y in Pending(s.flushes[id])
    decreases j
  {
    run', w := TakeOne(s0, run, s, id);
    DeleteMembers(s.store, Pending(s.flushes[id])[0].key);
    if j > 0 {
      run', w := TakeUpTo(s0, run', w, id, j - 1);
    }
  }

  lemma {:induction false} PendingKeys(s: State, id: nat)
    requires Live(s) && id in s.flushes
    ensures KeysDiffer(Pending(s.flushes[id]))
  {
    if !s.flushes[id].Asked? {
      assert id in s.snapshots;
    }
  }

  /** A put that is not ok loses something: at once, or when the flush that read what it replaced takes its key off. */
  lemma {:induction false} BadPutLoses(s: State, e: Entry) returns (run: seq<Action>)
    requires Safe(s) && !PutOk(s, e)
    ensures IsRun(Next(s, Put(e)), run) && NoPuts(run) && !NoLoss(After(Next(s, Put(e)), run))
  {
    var s' := Next(s, Put(e));
    run := [];
    PutMembers(s.store, e);
    if x :| x in s.store && x.key == e.key && x != e && x !in s.acked {
      var i :| 0 <= i < |s.enqueued| && s.enqueued[i] == x;
      assert s'.enqueued[i] == x;
    } else {
      PutIsLive(s, e);
      var id, x :| id in s.flushes && x in Pending(s.flushes[id]) && x.key == e.key && x != e;
      var j :| 0 <= j < |Pending(s.flushes[id])| && Pending(s.flushes[id])[j] == x;
      PendingKeys(s, id);
      if e in Pending(s.flushes[id]) {
        SameKey(Pending(s.flushes[id]), e, x);
      }
      var w;
      run, w := TakeUpTo(s', [], s', id, j);
      assert s'.enqueued[|s.enqueued|] == e;
    }
  }

  /** A put is ok exactly when, however things go on without further puts, nothing is lost. */
  lemma {:induction false} PutKeepsExactlyWhen(s: State, e: Entry)
    requires Safe(s)
    ensures PutOk(s, e)
            <==> forall run :: IsRun(Next(s, Put(e)), run) && NoPuts(run) ==> NoLoss(After(Next(s, Put(e)), run))
  {
    var s' := Next(s, Put(e));
    if PutOk(s, e) {
      PutIsSafe(s, e);
      forall run | IsRun(s', run) && NoPuts(run) ensures NoLoss(After(s', run)) {
        NoPutsAreOk(s', run);
        RunIsSafe(s', run);
      }
    } else {
      var run := BadPutLoses(s, e);
    }
  }
}
