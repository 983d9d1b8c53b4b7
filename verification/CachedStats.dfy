/** Model statistics as callers get them, through the cache. */
module CachedStats {
  import opened SetSums
  import opened Options
  import opened ModelStats
  import opened StatCache

  const CACHE_TTL_SECONDS := 3600.0
  const CACHE_SIZE := 128

  /** What happens to the cache: a question, with the telemetry there is and the time in microseconds, or an
      invalidation. */
  datatype Event = Ask(key: CacheKey, rows: seq<Row>, now: int) | Invalidated

  /** The same instant on the cache's clock. */
  function Seconds(now: int): real {
    now as real / 1000000.0
  }

  function Cutoff(windowDays: nat, now: int): Option<int> {
    if windowDays > 0 then Some(now - windowDays * MICROS_PER_DAY) else None
  }

  /** The answer to a question without the cache. */
  function Computed(p: Priors, a: Event): seq<Stat>
    requires a.Ask?
  {
    StatsFor(a.rows, p, a.key.model, a.key.category, Cutoff(a.key.windowDays, a.now))
  }

  /** What an event does to the cache after a history of operations. */
  function Does(p: Priors, ops: seq<Op>, e: Event): seq<Op> {
    match e
    case Invalidated => [Op.Invalidate]
    case Ask(key, rows, now) =>
      [Op.Get(key, Seconds(now))]
      + if AnswerAfter(ops, key, Seconds(now), CACHE_TTL_SECONDS, CACHE_SIZE).Hit? then []
        else [Op.Set(key, Computed(p, e), Seconds(now))]
  }

  function Ops(p: Priors, events: seq<Event>): seq<Op> {
    if events == [] then [] else
    var front := Ops(p, events[..|events| - 1]);
    front + Does(p, front, events[|events| - 1])
  }

  function Held(p: Priors, events: seq<Event>): seq<Entry> {
    After(Ops(p, events), CACHE_TTL_SECONDS, CACHE_SIZE)
  }

  /** The answer to a question after these events. */
  function Reply(p: Priors, events: seq<Event>, a: Event): seq<Stat>
    requires a.Ask?
  {
    match AnswerAfter(Ops(p, events), a.key, Seconds(a.now), CACHE_TTL_SECONDS, CACHE_SIZE)
    case Hit(value) => value
    case Miss => Computed(p, a)
  }

  /** `get_model_stats` and `invalidate_model_stats_cache`, with the cache they share. */
  class Statistics {
    const priors: Priors
    const cache: Cache
    ghost var events: seq<Event>

    ghost predicate Valid()
      reads this, cache
    {
      && cache.Valid() && cache.ttl == CACHE_TTL_SECONDS && cache.maxsize == CACHE_SIZE
      && cache.entries == Held(priors, events)
    }

    constructor (priors: Priors)
      ensures Valid() && events == [] && this.priors == priors && fresh(cache)
    {
      this.priors := priors;
      cache := new Cache(CACHE_TTL_SECONDS, CACHE_SIZE);
      events := [];
    }

    /** None stands for the ValueError. */
    method GetModelStats(model: Option<string>, category: Option<string>, windowDays: int, rows: seq<Row>, now: int)
      returns (r: Option<seq<Stat>>)
      requires Valid()
      modifies this`events, cache
      ensures Valid()
      ensures windowDays < 0 ==> r == None && events == old(events)
      ensures windowDays >= 0 ==>
                var a := Ask(CacheKey(model, category, windowDays), rows, now);
                r == Some(Reply(priors, old(events), a)) && events == old(events) + [a]
    {
      if windowDays < 0 {
        return None;
      }
      var key := CacheKey(model, category, windowDays);
      ghost var a := Ask(key, rows, now);
      OneMoreEvent(priors, events, a);
      var cached := cache.Get(key, Seconds(now));
      events := events + [a];
      if cached.Hit? {
        return Some(cached.value);
      }
      r := ModelStats.GetModelStats(rows, priors, model, category, windowDays, now);
      cache.Set(key, r.value, Seconds(now));
    }

    method Invalidate()
      requires Valid()
      modifies this`events, cache
      ensures Valid() && events == old(events) + [Invalidated] && cache.entries == []
    {
      OneMoreEvent(priors, events, Invalidated);
      cache.Invalidate();
      events := events + [Invalidated];
    }
  }

  predicate Found(p: Priors, events: seq<Event>, key: CacheKey, now: int) {
    AnswerAfter(Ops(p, events), key, Seconds(now), CACHE_TTL_SECONDS, CACHE_SIZE).Hit?
  }

  /** The operations of one more event. */
  lemma {:induction false} OpsAfter(p: Priors, events: seq<Event>, e: Event)
    ensures var ops := Ops(p, events);
            Ops(p, events + [e])
            == match e
               case Invalidated => ops + [Op.Invalidate]
               case Ask(key, rows, now) =>
                 var got := ops + [Op.Get(key, Seconds(now))];
                 if Found(p, events, key, now) then got else got + [Op.Set(key, Computed(p, e), Seconds(now))]
  {
    assert (events + [e])[..|events|] == events;
  }

  lemma {:induction false} OneMoreOp(ops: seq<Op>, op: Op)
    ensures (ops + [op])[..|ops|] == ops && (ops + [op])[|ops|] == op
  {
  }

  lemma {:induction false} AfterOp(ops: seq<Op>, op: Op)
    ensures var before := After(ops, CACHE_TTL_SECONDS, CACHE_SIZE);
            After(ops + [op], CACHE_TTL_SECONDS, CACHE_SIZE)
            == match op
               case Get(key, now) => AfterGet(before, key, now, CACHE_TTL_SECONDS)
               case Set(key, value, now) => AfterSet(before, Entry(key, now, value), CACHE_SIZE)
               case Invalidate => []
  {
    OneMoreOp(ops, op);
  }

  /** What an event does to what the cache holds. */
  lemma {:induction false} OneMoreEvent(p: Priors, events: seq<Event>, e: Event)
    ensures Held(p, events + [e])
            == match e
               case Invalidated => []
               case Ask(key, rows, now) =>
                 var got := AfterGet(Held(p, events), key, Seconds(now), CACHE_TTL_SECONDS);
                 if Answer(Held(p, events), key, Seconds(now), CACHE_TTL_SECONDS).Hit? then got
                 else AfterSet(got, Entry(key, Seconds(now), Computed(p, e)), CACHE_SIZE)
  {
    OpsAfter(p, events, e);
    match e
    case Invalidated => AfterOp(Ops(p, events), Op.Invalidate);
    case Ask(key, rows, now) =>
      AfterOp(Ops(p, events), Op.Get(key, Seconds(now)));
      AfterOp(Ops(p, events) + [Op.Get(key, Seconds(now))], Op.Set(key, Computed(p, e), Seconds(now)));
  }

  // ----- How old an answer can be

  /** The i-th event is the question that this entry answers, and nothing has been invalidated since. */
  ghost predicate Origin(p: Priors, events: seq<Event>, i: nat, e: Entry) {
    && i < |events| && events[i].Ask? && events[i].key == e.key
    && e.created == Seconds(events[i].now) && e.value == Computed(p, events[i])
    && forall k | i < k < |events| :: !events[k].Invalidated?
  }

  /** Each value last set for a key comes from such a question. */
  lemma {:induction false} SetBy(p: Priors, events: seq<Event>, key: CacheKey) returns (i: nat)
    requires LastSet(Ops(p, events), key) != []
    ensures Origin(p, events, i, LastSet(Ops(p, events), key)[0])
  {
    var n := |events| - 1;
    var front, e := events[..n], events[n];
    assert events == front + [e];
    LastSetAfter(p, front, e, key);
    if e.Ask? && e.key == key && !Found(p, front, key, e.now) {
      i := n;
    } else {
      i := SetBy(p, front, key);
    }
  }

  lemma {:induction false} LastSetOp(ops: seq<Op>, op: Op, key: CacheKey)
    ensures LastSet(ops + [op], key)
            == match op
               case Get(_, _) => LastSet(ops, key)
               case Set(k, value, now) => if k == key then [Entry(k, now, value)] else LastSet(ops, key)
               case Invalidate => []
  {
    OneMoreOp(ops, op);
  }

  lemma {:induction false} LastSetAfter(p: Priors, front: seq<Event>, e: Event, key: CacheKey)
    ensures var ops := Ops(p, front);
            LastSet(Ops(p, front + [e]), key)
            == match e
               case Invalidated => []
               case Ask(k, rows, now) =>
                 if k != key || Found(p, front, k, now) then LastSet(ops, key)
                 else [Entry(k, Seconds(now), Computed(p, e))]
  {
    OpsAfter(p, front, e);
    match e
    case Invalidated => LastSetOp(Ops(p, front), Op.Invalidate, key);
    case Ask(k, rows, now) =>
      LastSetOp(Ops(p, front), Op.Get(k, Seconds(now)), key);
      LastSetOp(Ops(p, front) + [Op.Get(k, Seconds(now))], Op.Set(k, Computed(p, e), Seconds(now)), key);
  }

  /** After any events, the answer to a question is the one computed for the same question on some occasion, this one
      or an earlier one less than the time to live ago with nothing invalidated since. */
  lemma {:induction false} RepliesAreRecent(p: Priors, events: seq<Event>, a: Event) returns (i: nat)
    requires a.Ask?
    ensures var all := events + [a];
            && i < |all| && all[i].Ask? && all[i].key == a.key && Reply(p, events, a) == Computed(p, all[i])
            && (forall k | i < k < |all| :: !all[k].Invalidated?)
            && (i < |events| ==> a.now - all[i].now < 3_600_000_000)
  {
    var ops := Ops(p, events);
    HitsAreCurrent(ops, a.key, Seconds(a.now), CACHE_TTL_SECONDS, CACHE_SIZE);
    if Found(p, events, a.key, a.now) {
      i := SetBy(p, events, a.key);
      LastSetKey(ops, a.key);
    } else {
      i := |events|;
    }
  }

  lemma {:induction false} LastSetKey(ops: seq<Op>, key: CacheKey)
    ensures LastSet(ops, key) != [] ==> LastSet(ops, key)[0].key == key
  {
    if ops != [] {
      LastSetKey(ops[..|ops| - 1], key);
    }
  }

  /** The telemetry only changes with an invalidation. */
  ghost predicate WritesInvalidate(events: seq<Event>) {
    forall i, j | 0 <= i < j < |events| && events[i].Ask? && events[j].Ask? && events[i].rows != events[j].rows ::
      exists k :: i < k < j && events[k].Invalidated?
  }

  /** If every write invalidates, answers are for the telemetry there is: all that can be old about them is where the
      window begins, by less than the time to live. */
  lemma {:induction false} OnlyTheWindowIsOld(p: Priors, events: seq<Event>, a: Event) returns (asOf: int)
    requires a.Ask? && WritesInvalidate(events + [a])
    ensures Reply(p, events, a) == StatsFor(a.rows, p, a.key.model, a.key.category, Cutoff(a.key.windowDays, asOf))
    ensures asOf == a.now || a.now - asOf < 3_600_000_000
  {
    var i := RepliesAreRecent(p, events, a);
    var all := events + [a];
    asOf := all[i].now;
    if i < |events| {
      assert all[i].rows == all[|events|].rows;
    }
  }

  // ----- When an answer is used again

  ghost function Questions(events: seq<Event>): set<CacheKey> {
    set i | 0 <= i < |events| && events[i].Ask? :: events[i].key
  }

  /** The clock does not go back, up to now. */
  ghost predicate ClockRuns(events: seq<Event>, now: int) {
    && (forall i | 0 <= i < |events| && events[i].Ask? :: events[i].now <= now)
    && (forall i, j | 0 <= i < j < |events| && events[i].Ask? && events[j].Ask? :: events[i].now <= events[j].now)
  }

  lemma {:induction false} SecondsGrow(a: int, b: int)
    ensures a <= b ==> Seconds(a) <= Seconds(b)
    ensures b - a < 3_600_000_000 <==> Seconds(b) - Seconds(a) < CACHE_TTL_SECONDS
  {
  }

  lemma {:induction false} ClockBefore(front: seq<Event>, e: Event, now: int) returns (until: int)
    requires ClockRuns(front + [e], now)
    ensures ClockRuns(front, until) && until <= now && (e.Ask? ==> until == e.now)
    ensures Questions(front) <= Questions(front + [e]) && (e.Ask? ==> e.key in Questions(front + [e]))
  {
    var all := front + [e];
    assert all[|front|] == e && forall i | 0 <= i < |front| :: front[i] == all[i];
    until := if e.Ask? then e.now else now;
  }

  /** The operations come from questions, in the order of their times. */
  lemma {:induction false} OpsInTime(p: Priors, events: seq<Event>, now: int)
    requires ClockRuns(events, now)
    ensures InTime(Ops(p, events), Seconds(now)) && KeysSet(Ops(p, events)) <= Questions(events)
  {
    if events != [] {
      var n := |events| - 1;
      var front, e := events[..n], events[n];
      assert events == front + [e];
      var until := ClockBefore(front, e, now);
      OpsInTime(p, front, until);
      SecondsGrow(until, now);
      MoreInTime(Ops(p, front), Does(p, Ops(p, front), e), Seconds(until), Seconds(now));
      MoreKeys(Ops(p, front), Does(p, Ops(p, front), e), Questions(events));
    }
  }

  lemma {:induction false} MoreInTime(ops: seq<Op>, more: seq<Op>, until: real, now: real)
    requires InTime(ops, until) && until <= now
    requires forall i | 0 <= i < |more| :: more[i].Invalidate? || StatCache.At(more[i]) == until
    ensures InTime(ops + more, now)
  {
    var all := ops + more;
    forall i | 0 <= i < |all| && !all[i].Invalidate? ensures StatCache.At(all[i]) <= until {
      assert i >= |ops| ==> all[i] == more[i - |ops|];
    }
    forall i, j | 0 <= i < j < |all| && !all[i].Invalidate? && !all[j].Invalidate?
      ensures StatCache.At(all[i]) <= StatCache.At(all[j])
    {
      assert j >= |ops| ==> all[j] == more[j - |ops|];
    }
  }

  lemma {:induction false} MoreKeys(ops: seq<Op>, more: seq<Op>, keys: set<CacheKey>)
    requires KeysSet(ops) <= keys && forall i | 0 <= i < |more| && more[i].Set? :: more[i].key in keys
    ensures KeysSet(ops + more) <= keys
  {
    var all := ops + more;
    forall i | 0 <= i < |all| && all[i].Set? ensures all[i].key in keys {
      if i < |ops| {
        assert ops[i].key in KeysSet(ops);
      } else {
        assert all[i] == more[i - |ops|];
      }
    }
  }

  /** With no more than 128 questions and a clock that does not go back, an answer that has been computed is given
      again for the next hour, as long as nothing is invalidated. */
  lemma {:induction false} AnswersAreReused(p: Priors, events: seq<Event>, b: Event, mid: seq<Event>, a: Event)
    requires b.Ask? && a.Ask? && a.key == b.key && a.now - b.now < 3_600_000_000
    requires !Found(p, events, b.key, b.now) && forall k | 0 <= k < |mid| :: !mid[k].Invalidated?
    requires ClockRuns(events + [b] + mid, a.now) && |Questions(events + [b] + mid)| <= 128
    ensures Reply(p, events + [b] + mid, a) == Computed(p, b)
  {
    var all := events + [b] + mid;
    StaysLast(p, events, b, mid, a.now);
    OpsInTime(p, all, a.now);
    SubsetSize(KeysSet(Ops(p, all)), Questions(all));
    SecondsGrow(b.now, a.now);
    AnswersWhatIsLive(Ops(p, all), CACHE_TTL_SECONDS, CACHE_SIZE, a.key, Seconds(a.now));
  }

  lemma {:induction false} BeforeLast(before: seq<Event>, e: Event, now: int)
    requires ClockRuns(before + [e], now) && |Questions(before + [e])| <= 128 && e.Ask?
    ensures ClockRuns(before, e.now) && |Questions(before)| <= 128 && e.now <= now
    ensures forall i | 0 <= i < |before| && before[i].Ask? :: before[i].now <= e.now
  {
    var all := before + [e];
    assert all[|before|] == e && forall i | 0 <= i < |before| :: before[i] == all[i];
    assert Questions(before) <= Questions(all);
    SubsetSize(Questions(before), Questions(all));
  }

  /** A question asked within the hour finds the answer and does not replace it. */
  lemma {:induction false} OneMoreStays(p: Priors, before: seq<Event>, e: Event, b: Event)
    requires b.Ask? && e.Ask? && b.now <= e.now && e.now - b.now < 3_600_000_000
    requires ClockRuns(before, e.now) && |Questions(before)| <= 128
    requires LastSet(Ops(p, before), b.key) == [Entry(b.key, Seconds(b.now), Computed(p, b))]
    ensures LastSet(Ops(p, before + [e]), b.key) == [Entry(b.key, Seconds(b.now), Computed(p, b))]
  {
    LastSetAfter(p, before, e, b.key);
    if e.key == b.key {
      OpsInTime(p, before, e.now);
      SubsetSize(KeysSet(Ops(p, before)), Questions(before));
      SecondsGrow(b.now, e.now);
      AnswersWhatIsLive(Ops(p, before), CACHE_TTL_SECONDS, CACHE_SIZE, b.key, Seconds(e.now));
    }
  }

  lemma {:induction false} StaysLast(p: Priors, events: seq<Event>, b: Event, mid: seq<Event>, now: int)
    requires b.Ask? && now - b.now < 3_600_000_000
    requires !Found(p, events, b.key, b.now) && forall k | 0 <= k < |mid| :: !mid[k].Invalidated?
    requires ClockRuns(events + [b] + mid, now) && |Questions(events + [b] + mid)| <= 128
    ensures LastSet(Ops(p, events + [b] + mid), b.key) == [Entry(b.key, Seconds(b.now), Computed(p, b))]
    decreases |mid|
  {
    if mid == [] {
      assert events + [b] + [] == events + [b];
      LastSetAfter(p, events, b, b.key);
    } else {
      var n := |mid| - 1;
      var before, e := events + [b] + mid[..n], mid[n];
      assert events + [b] + mid == before + [e];
      BeforeLast(before, e, now);
      assert before[|events|] == b;
      StaysLast(p, events, b, mid[..n], e.now);
      OneMoreStays(p, before, e, b);
    }
  }
}
