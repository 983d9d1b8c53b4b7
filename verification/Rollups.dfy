/** Daily and weekly rollups of usage events. Timestamps are microseconds, days are day numbers. */
module Rollups {

  datatype Event = Event(principal: string, eventType: string, at: int)

  const SECOND := 1_000_000
  const DAY := 86_400 * SECOND

  /** A row of the rollup table under its unique key; `computed_at` is left out. */
  datatype Key = Key(principal: string, eventType: string, period: string, start: int)

  predicate Supported(period: string) {
    period == "daily" || period == "weekly"
  }

  /** `_period_bounds`: the first day of a period ending on the reference day. */
  function PeriodStart(period: string, reference: int): int {
    if period == "daily" then reference else reference - 6
  }

  /** Midnight of the first day to 23:59:59 of the last, both included. */
  predicate InWindow(at: int, first: int, last: int) {
    first * DAY <= at <= last * DAY + 86_399 * SECOND
  }

  function Count(events: seq<Event>, p: string, t: string, first: int, last: int): nat {
    if events == [] then 0 else
    var e := events[|events| - 1];
    Count(events[..|events| - 1], p, t, first, last)
    + if e.principal == p && e.eventType == t && InWindow(e.at, first, last) then 1 else 0
  }

  function CountAll(events: seq<Event>, p: string, first: int, last: int): nat {
    if events == [] then 0 else
    var e := events[|events| - 1];
    CountAll(events[..|events| - 1], p, first, last)
    + if e.principal == p && InWindow(e.at, first, last) then 1 else 0
  }

  // ----- SELECT DISTINCT and GROUP BY

  function Principals(events: seq<Event>): seq<string> {
    if events == [] then [] else
    var front, p := Principals(events[..|events| - 1]), events[|events| - 1].principal;
    if p in front then front else front + [p]
  }

  function Types(events: seq<Event>, p: string, first: int, last: int): seq<string> {
    if events == [] then [] else
    var front, e := Types(events[..|events| - 1], p, first, last), events[|events| - 1];
    if e.principal != p || !InWindow(e.at, first, last) || e.eventType in front then front else front + [e.eventType]
  }

  lemma {:induction false} TypesAreCounted(events: seq<Event>, p: string, first: int, last: int)
    ensures forall t :: t in Types(events, p, first, last) <==> Count(events, p, t, first, last) > 0
    ensures forall i, j | 0 <= i < j < |Types(events, p, first, last)| ::
              Types(events, p, first, last)[i] != Types(events, p, first, last)[j]
  {
    if events != [] {
      TypesAreCounted(events[..|events| - 1], p, first, last);
    }
  }

  lemma {:induction false} TypesDiffer(events: seq<Event>, p: string, first: int, last: int)
    ensures Different(Types(events, p, first, last))
  {
    TypesAreCounted(events, p, first, last);
  }

  lemma {:induction false} PrincipalsHaveEvents(events: seq<Event>, p: string, t: string, first: int, last: int)
    ensures Count(events, p, t, first, last) > 0 ==> p in Principals(events)
  {
    if events != [] {
      PrincipalsHaveEvents(events[..|events| - 1], p, t, first, last);
    }
  }

  ghost predicate Different(names: seq<string>) {
    forall i, j | 0 <= i < j < |names| :: names[i] != names[j]
  }

  lemma {:induction false} PrincipalsDiffer(events: seq<Event>)
    ensures Different(Principals(events))
  {
    if events != [] {
      PrincipalsDiffer(events[..|events| - 1]);
    }
  }

  // ----- What a computation writes

  ghost function LiveCount(events: seq<Event>, k: Key, reference: int): nat {
    Count(events, k.principal, k.eventType, PeriodStart(k.period, reference), reference)
  }

  /** A row that computing a period for a day writes: a supported period, anchored there, with something to count. */
  ghost predicate RowOk(events: seq<Event>, reference: int, k: Key) {
    Supported(k.period) && k.start == PeriodStart(k.period, reference) && LiveCount(events, k, reference) > 0
  }

  /** The table after: those rows hold the live count, every other row is as before. */
  ghost predicate Refreshed(events: seq<Event>, reference: int, rows: set<Key>, before: map<Key, nat>,
                            after: map<Key, nat>) {
    && after.Keys == before.Keys + rows
    && (forall k | k in rows :: after[k] == LiveCount(events, k, reference))
    && (forall k | k in before && k !in rows :: after[k] == before[k])
  }

  lemma RefreshOne(events: seq<Event>, reference: int, rows: set<Key>, before: map<Key, nat>, mid: map<Key, nat>,
                   k: Key)
    requires Refreshed(events, reference, rows, before, mid)
    ensures Refreshed(events, reference, rows + {k}, before, mid[k := LiveCount(events, k, reference)])
  {
  }

  lemma {:induction false} MoreRows(rows: set<Key>, more: set<Key>, written: nat, n: nat)
    requires written >= |rows| && n >= |more|
    ensures written + n >= |rows + more|
    ensures rows !! more && written == |rows| && n == |more| ==> written + n == |rows + more|
  {
  }

  /** The rows due for some principals and periods, and what the write count says about them. */
  ghost predicate Due(events: seq<Event>, reference: int, names: seq<string>, periods: seq<string>, rows: set<Key>) {
    forall k :: k in rows <==> k.principal in names && k.period in periods && RowOk(events, reference, k)
  }

  ghost predicate Tally(written: nat, rows: set<Key>, periods: seq<string>) {
    written >= |rows| && (Different(periods) ==> written == |rows|)
  }

  lemma {:induction false} RefreshMore(events: seq<Event>, reference: int, rows: set<Key>, more: set<Key>,
                                       r0: map<Key, nat>, r1: map<Key, nat>, r2: map<Key, nat>)
    requires Refreshed(events, reference, rows, r0, r1) && Refreshed(events, reference, more, r1, r2)
    ensures Refreshed(events, reference, rows + more, r0, r2)
  {
  }

  lemma {:induction false} NextPeriod(events: seq<Event>, reference: int, p: string, periods: seq<string>, j: nat,
                                      rows: set<Key>, more: set<Key>)
    requires j < |periods| && Due(events, reference, [p], periods[..j], rows)
    requires if Supported(periods[j]) then Due(events, reference, [p], [periods[j]], more) else more == {}
    ensures Due(events, reference, [p], periods[..j + 1], rows + more)
    ensures Different(periods) ==> rows !! more
  {
    assert periods[..j + 1] == periods[..j] + [periods[j]];
  }

  lemma {:induction false} NextPrincipal(events: seq<Event>, reference: int, names: seq<string>,
                                         periods: seq<string>, i: nat,
                                         rows: set<Key>, more: set<Key>)
    requires i < |names| && Different(names) && Due(events, reference, names[..i], periods, rows)
    requires Due(events, reference, [names[i]], periods, more)
    ensures Due(events, reference, names[..i + 1], periods, rows + more) && rows !! more
  {
    assert names[..i + 1] == names[..i] + [names[i]];
  }

  ghost function GroupKeys(p: string, period: string, first: int, types: seq<string>): set<Key> {
    set j | 0 <= j < |types| :: Key(p, types[j], period, first)
  }

  lemma GroupKeysGrow(p: string, period: string, first: int, types: seq<string>, i: nat)
    requires i < |types| && Different(types)
    ensures Key(p, types[i], period, first) !in GroupKeys(p, period, first, types[..i])
    ensures GroupKeys(p, period, first, types[..i + 1])
            == GroupKeys(p, period, first, types[..i]) + {Key(p, types[i], period, first)}
  {
    forall k | k in GroupKeys(p, period, first, types[..i]) ensures k in GroupKeys(p, period, first, types[..i + 1]) {
      var j :| 0 <= j < i && k == Key(p, types[..i][j], period, first);
      assert types[..i + 1][j] == types[..i][j];
    }
    assert types[..i + 1][i] == types[i];
  }

  datatype Summary = Summary(total: nat, byType: map<string, nat>)

  /** Every event of the window is counted once: under its type, and in the total. */
  ghost predicate Summarises(events: seq<Event>, p: string, days: int, reference: int, s: Summary) {
    && (forall t :: t in s.byType <==> Count(events, p, t, reference - (days - 1), reference) > 0)
    && (forall t | t in s.byType :: s.byType[t] == Count(events, p, t, reference - (days - 1), reference))
    && s.total == CountAll(events, p, reference - (days - 1), reference)
  }

  class AggregationService {
    var events: seq<Event>
    var rollups: map<Key, nat>

    constructor ()
      ensures events == [] && rollups == map[]
    {
      events, rollups := [], map[];
    }

    /** One principal and period: `INSERT OR REPLACE` for each group. */
    method WriteGroups(p: string, period: string, reference: int) returns (written: nat, ghost rows: set<Key>)
      requires Supported(period)
      modifies this`rollups
      ensures Refreshed(events, reference, rows, old(rollups), rollups) && written == |rows|
      ensures Due(events, reference, [p], [period], rows)
    {
      var first := PeriodStart(period, reference);
      var types := Types(events, p, first, reference);
      TypesDiffer(events, p, first, reference);
      written, rows := 0, {};
      for i := 0 to |types|
        invariant written == |rows| && rows == GroupKeys(p, period, first, types[..i])
        invariant Refreshed(events, reference, rows, old(rollups), rollups)
      {
        var key := Key(p, types[i], period, first);
        GroupKeysGrow(p, period, first, types, i);
        RefreshOne(events, reference, rows, old(rollups), rollups, key);
        rollups := rollups[key := Count(events, p, types[i], first, reference)];
        rows := rows + {key};
        written := written + 1;
      }
      assert types[..|types|] == types;
      GroupRows(events, reference, p, period, types, rows);
    }

    /** All requested periods for one principal. */
    method WritePrincipal(p: string, periods: seq<string>, reference: int) returns (written: nat, ghost rows: set<Key>)
      modifies this`rollups
      ensures Refreshed(events, reference, rows, old(rollups), rollups)
      ensures Due(events, reference, [p], periods, rows) && Tally(written, rows, periods)
    {
      written, rows := 0, {};
      for j := 0 to |periods|
        invariant Refreshed(events, reference, rows, old(rollups), rollups)
        invariant Due(events, reference, [p], periods[..j], rows) && Tally(written, rows, periods)
      {
        ghost var before, more := rollups, {};
        if Supported(periods[j]) {
          var n;
          n, more := WriteGroups(p, periods[j], reference);
          MoreRows(rows, more, written, n);
          written := written + n;
        }
        NextPeriod(events, reference, p, periods, j, rows, more);
        RefreshMore(events, reference, rows, more, old(rollups), before, rollups);
        rows := rows + more;
      }
      assert periods[..|periods|] == periods;
    }

    /** `compute_rollups`: afterwards every row for this day and these periods is the live count and no other row has
        changed; the number returned is the number of those rows, unless a period was asked for twice. */
    method ComputeRollups(reference: int, periods: seq<string>) returns (written: nat, ghost rows: set<Key>)
      modifies this`rollups
      ensures Refreshed(events, reference, rows, old(rollups), rollups)
      ensures forall k :: k in rows <==> k.period in periods && RowOk(events, reference, k)
      ensures written >= |rows| && (Different(periods) ==> written == |rows|)
    {
      written, rows := 0, {};
      var principals := Principals(events);
      PrincipalsDiffer(events);
      for i := 0 to |principals|
        invariant Refreshed(events, reference, rows, old(rollups), rollups)
        invariant Due(events, reference, principals[..i], periods, rows) && Tally(written, rows, periods)
      {
        ghost var before := rollups;
        var n, more := WritePrincipal(principals[i], periods, reference);
        NextPrincipal(events, reference, principals, periods, i, rows, more);
        RefreshMore(events, reference, rows, more, old(rollups), before, rollups);
        MoreRows(rows, more, written, n);
        written := written + n;
        rows := rows + more;
      }
      assert principals[..|principals|] == principals;
      forall k | RowOk(events, reference, k) ensures k.principal in principals {
        PrincipalsHaveEvents(events, k.principal, k.eventType, PeriodStart(k.period, reference), reference);
      }
    }

    /** `summary`, and `facets` by event type: live counts over the last days. */
    method Summarise(p: string, periodDays: int, reference: int) returns (s: Summary)
      ensures Summarises(events, p, periodDays, reference, s)
    {
      var first := reference - (periodDays - 1);
      var byType, total := AddUpTypes(p, first, reference, Types(events, p, first, reference));
      TypesAreCounted(events, p, first, reference);
      GroupsPartition(events, p, first, reference);
      s := Summary(total, byType);
    }

    method AddUpTypes(p: string, first: int, last: int, types: seq<string>)
      returns (byType: map<string, nat>, total: nat)
      ensures forall t :: t in byType <==> t in types
      ensures forall t | t in byType :: byType[t] == Count(events, p, t, first, last)
      ensures total == SumCounts(events, p, first, last, types)
    {
      byType, total := map[], 0;
      for i := 0 to |types|
        invariant forall t :: t in byType <==> t in types[..i]
        invariant forall t | t in byType :: byType[t] == Count(events, p, t, first, last)
        invariant total == SumCounts(events, p, first, last, types[..i])
      {
        assert types[..i + 1] == types[..i] + [types[i]];
        SumCountsAppend(events, p, first, last, types[..i], types[i]);
        byType := byType[types[i] := Count(events, p, types[i], first, last)];
        total := total + Count(events, p, types[i], first, last);
      }
      assert types[..|types|] == types;
    }
  }

  /** The keys of the groups of one principal and period are exactly the rows due there. */
  lemma GroupRows(events: seq<Event>, reference: int, p: string, period: string, types: seq<string>, rows: set<Key>)
    requires Supported(period) && types == Types(events, p, PeriodStart(period, reference), reference)
    requires rows == GroupKeys(p, period, PeriodStart(period, reference), types)
    ensures Due(events, reference, [p], [period], rows)
  {
    TypesAreCounted(events, p, PeriodStart(period, reference), reference);
    forall k ensures k in rows <==> k.principal == p && k.period == period && RowOk(events, reference, k) {
      if k.principal == p && k.period == period && RowOk(events, reference, k) {
        assert k.eventType in types;
      }
      if k in rows {
        var j :| 0 <= j < |types| && k == Key(p, types[j], period, PeriodStart(period, reference));
        assert types[j] in types;
      }
    }
  }

  function SumCounts(events: seq<Event>, p: string, first: int, last: int, types: seq<string>): nat {
    if types == [] then 0 else
    SumCounts(events, p, first, last, types[..|types| - 1]) + Count(events, p, types[|types| - 1], first, last)
  }

  lemma SumCountsAppend(events: seq<Event>, p: string, first: int, last: int, types: seq<string>, t: string)
    ensures SumCounts(events, p, first, last, types + [t])
            == SumCounts(events, p, first, last, types) + Count(events, p, t, first, last)
  {
    assert (types + [t])[..|types|] == types;
  }

  /** One more event adds one to the sum if its type is listed, once, and it is in the window. */
  lemma {:induction false} SumCountsOneMore(events: seq<Event>, p: string, first: int, last: int, types: seq<string>)
    requires events != [] && forall i, j | 0 <= i < j < |types| :: types[i] != types[j]
    ensures var e := events[|events| - 1];
            SumCounts(events, p, first, last, types)
            == SumCounts(events[..|events| - 1], p, first, last, types)
               + if e.principal == p && InWindow(e.at, first, last) && e.eventType in types then 1 else 0
  {
    if types != [] {
      var n := |types| - 1;
      SumCountsOneMore(events, p, first, last, types[..n]);
      assert types == types[..n] + [types[n]];
      assert types[n] !in types[..n];
    }
  }

  /** The groups are a partition: their counts add up to all events in the window. */
  lemma {:induction false} GroupsPartition(events: seq<Event>, p: string, first: int, last: int)
    ensures SumCounts(events, p, first, last, Types(events, p, first, last)) == CountAll(events, p, first, last)
  {
    if events != [] {
      var front, e := events[..|events| - 1], events[|events| - 1];
      var types := Types(front, p, first, last);
      GroupsPartition(front, p, first, last);
      TypesAreCounted(front, p, first, last);
      TypesAreCounted(events, p, first, last);
      SumCountsOneMore(events, p, first, last, Types(events, p, first, last));
      if Types(events, p, first, last) != types {
        SumCountsAppend(front, p, first, last, types, e.eventType);
        assert e.eventType !in types;
      }
    }
  }

  // ----- Rollups against live counts, days against weeks

  /** Computing again over the same events changes nothing. */
  lemma RecomputingChangesNothing(events: seq<Event>, reference: int, r0: map<Key, nat>, r1: map<Key, nat>,
                                  r2: map<Key, nat>, rows: set<Key>)
    requires Refreshed(events, reference, rows, r0, r1) && Refreshed(events, reference, rows, r1, r2)
    ensures r2 == r1
  {
    assert r2.Keys == r1.Keys;
    forall k | k in r1 ensures r2[k] == r1[k] {
      assert k in r2;
    }
  }

  function DaysIn(period: string): int {
    if period == "daily" then 1 else 7
  }

  /** After a computation, the table has a row for a type exactly when the live summary of the same window, one day for
      "daily" and seven for "weekly", lists that type, and with the same count. */
  lemma {:induction false} RowsMatchSummaries(events: seq<Event>, reference: int, periods: seq<string>, rows: set<Key>,
                                              before: map<Key, nat>, after: map<Key, nat>, p: string, period: string,
                                              s: Summary)
    requires Refreshed(events, reference, rows, before, after)
    requires forall k :: k in rows <==> k.period in periods && RowOk(events, reference, k)
    requires Supported(period) && period in periods && Summarises(events, p, DaysIn(period), reference, s)
    ensures forall t :: t in s.byType <==> Key(p, t, period, PeriodStart(period, reference)) in rows
    ensures forall t | t in s.byType :: after[Key(p, t, period, PeriodStart(period, reference))] == s.byType[t]
  {
    forall t ensures Key(p, t, period, PeriodStart(period, reference)) in rows
                     <==> Count(events, p, t, PeriodStart(period, reference), reference) > 0 {
      assert LiveCount(events, Key(p, t, period, PeriodStart(period, reference)), reference)
             == Count(events, p, t, PeriodStart(period, reference), reference);
    }
  }

  /** Events in the last second of a day, after 23:59:59 sharp: no daily window has them. */
  predicate InGap(at: int, day: int) {
    day * DAY + 86_399 * SECOND < at < (day + 1) * DAY
  }

  function GapCount(events: seq<Event>, p: string, t: string, day: int): nat {
    if events == [] then 0 else
    var e := events[|events| - 1];
    GapCount(events[..|events| - 1], p, t, day)
    + if e.principal == p && e.eventType == t && InGap(e.at, day) then 1 else 0
  }

  /** The daily counts of days first..last, and what falls in the gaps between them. */
  function Days(events: seq<Event>, p: string, t: string, first: int, last: int): nat
    requires first <= last
    decreases last - first
  {
    Count(events, p, t, last, last) + if first == last then 0 else Days(events, p, t, first, last - 1)
  }

  function Gaps(events: seq<Event>, p: string, t: string, first: int, last: int): nat
    requires first <= last
    decreases last - first
  {
    if first == last then 0 else GapCount(events, p, t, last - 1) + Gaps(events, p, t, first, last - 1)
  }

  lemma {:induction false} WindowGrows(events: seq<Event>, p: string, t: string, first: int, last: int)
    requires first < last
    ensures Count(events, p, t, first, last)
            == Count(events, p, t, first, last - 1) + GapCount(events, p, t, last - 1) + Count(events, p, t, last, last)
  {
    if events != [] {
      WindowGrows(events[..|events| - 1], p, t, first, last);
    }
  }

  /** A window's count is the sum of its days' counts plus the events in the gaps after 23:59:59 on all but its last
      day; in the weekly period that is seven daily rows and six gaps. */
  lemma {:induction false} WindowIsDaysPlusGaps(events: seq<Event>, p: string, t: string, first: int, last: int)
    requires first <= last
    ensures Count(events, p, t, first, last) == Days(events, p, t, first, last) + Gaps(events, p, t, first, last)
    decreases last - first
  {
    if first < last {
      WindowGrows(events, p, t, first, last);
      WindowIsDaysPlusGaps(events, p, t, first, last - 1);
    }
  }

  /** So a weekly row is the sum of its seven daily counts exactly when no event fell in the last second of the first
      six days. */
  lemma WeeklyIsSevenDaysExactlyWhen(events: seq<Event>, p: string, t: string, reference: int)
    ensures LiveCount(events, Key(p, t, "weekly", reference - 6), reference)
            == Days(events, p, t, reference - 6, reference)
            <==> forall i | 0 <= i < |events| ::
                   !(events[i].principal == p && events[i].eventType == t
                     && exists day :: reference - 6 <= day < reference && InGap(events[i].at, day))
  {
    WindowIsDaysPlusGaps(events, p, t, reference - 6, reference);
    GapsAreEmpty(events, p, t, reference - 6, reference);
  }

  lemma {:induction false} GapIsEmpty(events: seq<Event>, p: string, t: string, day: int)
    ensures GapCount(events, p, t, day) == 0
            <==> forall i | 0 <= i < |events| ::
                   !(events[i].principal == p && events[i].eventType == t && InGap(events[i].at, day))
  {
    if events != [] {
      GapIsEmpty(events[..|events| - 1], p, t, day);
    }
  }

  lemma {:induction false} GapsAreEmpty(events: seq<Event>, p: string, t: string, first: int, last: int)
    requires first <= last
    ensures Gaps(events, p, t, first, last) == 0
            <==> forall i | 0 <= i < |events| ::
                   !(events[i].principal == p && events[i].eventType == t
                     && exists day :: first <= day < last && InGap(events[i].at, day))
    decreases last - first
  {
    if first < last {
      GapsAreEmpty(events, p, t, first, last - 1);
      GapIsEmpty(events, p, t, last - 1);
    }
  }

  /** One event half a second before midnight of the second day: the weekly count has it and no daily one does. */
  lemma {:induction false} LastSecondIsMissed(p: string, t: string, reference: int) returns (events: seq<Event>)
    ensures |events| == 1
    ensures LiveCount(events, Key(p, t, "weekly", reference - 6), reference)
            != Days(events, p, t, reference - 6, reference)
  {
    var day := reference - 5;
    events := [Event(p, t, (day + 1) * DAY - SECOND / 2)];
    assert InGap(events[0].at, day);
    WeeklyIsSevenDaysExactlyWhen(events, p, t, reference);
  }

  // ----- Counts, said of the events

  /** The principal's events of a type from midnight of the first day to 23:59:59 of the last. */
  ghost function EventsIn(events: seq<Event>, p: string, t: string, first: int, last: int): set<int> {
    set i | 0 <= i < |events| && events[i].principal == p && events[i].eventType == t
            && first * 86_400_000_000 <= events[i].at <= last * 86_400_000_000 + 86_399_000_000
  }

  lemma {:induction false} CountIs(events: seq<Event>, p: string, t: string, first: int, last: int)
    ensures Count(events, p, t, first, last) == |EventsIn(events, p, t, first, last)|
  {
    if events != [] {
      var n := |events| - 1;
      CountIs(events[..n], p, t, first, last);
      EventsGrow(events, p, t, first, last);
    }
  }

  lemma {:induction false} EventsGrow(events: seq<Event>, p: string, t: string, first: int, last: int)
    requires events != []
    ensures var n, e := |events| - 1, events[|events| - 1];
            EventsIn(events, p, t, first, last)
            == EventsIn(events[..n], p, t, first, last)
               + if e.principal == p && e.eventType == t && InWindow(e.at, first, last) then {n as int} else {}
  {
  }

  /** A daily row is due for its day, a weekly one for the seven days up to it, exactly when such an event happened,
      and it counts them. */
  lemma {:induction false} DueRowIs(events: seq<Event>, reference: int, k: Key)
    ensures RowOk(events, reference, k)
            <==> ((k.period == "daily" && k.start == reference) || (k.period == "weekly" && k.start == reference - 6))
                 && EventsIn(events, k.principal, k.eventType, k.start, reference) != {}
    ensures RowOk(events, reference, k) ==>
              LiveCount(events, k, reference) == |EventsIn(events, k.principal, k.eventType, k.start, reference)|
  {
    CountIs(events, k.principal, k.eventType, PeriodStart(k.period, reference), reference);
  }

  /** The summary of a number of days counts the events of those days up to the reference. */
  lemma {:induction false} SummaryIs(events: seq<Event>, p: string, days: int, reference: int, s: Summary)
    requires Summarises(events, p, days, reference, s)
    ensures forall t :: t in s.byType <==> EventsIn(events, p, t, reference - days + 1, reference) != {}
    ensures forall t | t in s.byType :: s.byType[t] == |EventsIn(events, p, t, reference - days + 1, reference)|
  {
    var first := reference - (days - 1);
    assert first == reference - days + 1;
    forall t ensures Count(events, p, t, first, reference) == |EventsIn(events, p, t, first, reference)| {
      CountIs(events, p, t, first, reference);
    }
  }
}
