/** What the status shown to the user says, event by event and over every run. */
module ShownStatus {
  import opened Options
  import opened WriteQueue

  /** The status after each kind of event. */
  lemma {:induction false} StatusAfter(s: State, a: Action)
    requires Enabled(s, a)
    ensures var before, shown := s.status, Next(s, a).status;
            match a
            case Offline => shown == Status(OFFLINE, before.queuedCount, before.lastOnlineAt, before.lastError)
            case Online(now) =>
              shown
              == Status(if before.queuedCount > 0 then RECONNECTING else ONLINE, before.queuedCount, Some(now), None)
            case Counted(count) => shown == Status(before.state, count, before.lastOnlineAt, before.lastError)
            case InitCounted(count, now) =>
              shown == if count == 0 then before
                       else if before.state == ONLINE then Status(RECONNECTING, count, Some(now), None)
                       else Status(before.state, count, before.lastOnlineAt, before.lastError)
            case ReadAll(_) =>
              shown == if s.store == [] then Status(ONLINE, 0, before.lastOnlineAt, None)
                       else Status(SYNCING, before.queuedCount, before.lastOnlineAt, None)
            case Deleted(id) =>
              shown == if id in Next(s, a).flushes then before else Status(ONLINE, 0, before.lastOnlineAt, None)
            case PushFailed(_, error) => shown == Status(OFFLINE, before.queuedCount, before.lastOnlineAt, Some(error))
            case DeleteFailed(_, error) =>
              shown == Status(OFFLINE, before.queuedCount, before.lastOnlineAt, Some(error))
            case Restart(online, now) =>
              shown == Status(if online then ONLINE else OFFLINE, 0, if online then Some(now) else None, None)
            case _ => shown == before
  {
  }

  /** An error is shown only while offline, and SYNCING only while a flush pushes. */
  ghost predicate Coherent(s: State) {
    (s.status.lastError.Some? ==> s.status.state == OFFLINE) && (s.status.state == SYNCING ==> s.flushing)
  }

  lemma {:induction false} StepStaysCoherent(s: State, a: Action)
    requires Coherent(s) && Enabled(s, a)
    ensures Coherent(Next(s, a))
  {
    StatusAfter(s, a);
  }

  /** Whatever happens, in whatever order. */
  lemma {:induction false} RunStaysCoherent(online: bool, now: Timestamp, run: seq<Action>)
    requires IsRun(Start(online, now), run)
    ensures Coherent(After(Start(online, now), run))
  {
    StaysCoherent(Start(online, now), run);
  }

  lemma {:induction false} StaysCoherent(s: State, run: seq<Action>)
    requires Coherent(s) && IsRun(s, run)
    ensures Coherent(After(s, run))
    decreases |run|
  {
    if run != [] {
      StepStaysCoherent(s, run[0]);
      StaysCoherent(Next(s, run[0]), run[1..]);
    }
  }
}
