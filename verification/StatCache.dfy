/** The in-process statistics cache: least recently used, with a time to live. */
module StatCache {
  import opened SetSums
  import opened Options
  import ModelStats

  type Stat = ModelStats.Stat

  /** What was asked for: a model, a category or all, and how many days of telemetry. */
  datatype CacheKey = CacheKey(model: Option<string>, category: Option<string>, windowDays: nat)

  /** One cached answer; its rows are copied in and out. */
  datatype Entry = Entry(key: CacheKey, created: real, value: seq<Stat>)

  datatype Lookup = Miss | Hit(value: seq<Stat>)

  // ----- The ordered dictionary, least recently used first

  function Without(s: seq<Entry>, key: CacheKey): seq<Entry> {
    if s == [] then [] else if s[0].key == key then s[1..] else [s[0]] + Without(s[1..], key)
  }

  function Find(s: seq<Entry>, key: CacheKey): seq<Entry> {
    if s == [] then [] else if s[0].key == key then [s[0]] else Find(s[1..], key)
  }

  ghost predicate KeysDiffer(s: seq<Entry>) {
    forall i, j | 0 <= i < j < |s| :: s[i].key != s[j].key
  }

  function Trim(s: seq<Entry>, maxsize: nat): seq<Entry> {
    if |s| > maxsize then Trim(s[1..], maxsize) else s
  }

  function Fresh(e: Entry, now: real, ttl: real): bool {
    now - e.created < ttl
  }

  function AfterGet(s: seq<Entry>, key: CacheKey, now: real, ttl: real): seq<Entry> {
    var found := Find(s, key);
    if found == [] then s
    else if !Fresh(found[0], now, ttl) then Without(s, key)
    else Without(s, key) + [found[0]]
  }

  function Answer(s: seq<Entry>, key: CacheKey, now: real, ttl: real): Lookup {
    var found := Find(s, key);
    if found == [] || !Fresh(found[0], now, ttl) then Miss else Hit(found[0].value)
  }

  function AfterSet(s: seq<Entry>, e: Entry, maxsize: nat): seq<Entry> {
    Trim(Without(s, e.key) + [e], maxsize)
  }

  lemma {:induction false} WithoutMember(s: seq<Entry>, key: CacheKey, e: Entry)
    requires KeysDiffer(s)
    ensures e in Without(s, key) <==> e in s && e.key != key
    ensures e in Find(s, key) <==> e in s && e.key == key
  {
    if s != [] {
      assert s == [s[0]] + s[1..];
      WithoutMember(s[1..], key, e);
    }
  }

  lemma {:induction false} WithoutLength(s: seq<Entry>, key: CacheKey)
    ensures |Without(s, key)| == |s| - |Find(s, key)| && |Find(s, key)| <= 1
  {
    if s != [] {
      WithoutLength(s[1..], key);
    }
  }

  lemma {:induction false} WithoutApart(s: seq<Entry>, key: CacheKey)
    requires KeysDiffer(s)
    ensures KeysDiffer(Without(s, key))
  {
    if s != [] && s[0].key != key {
      WithoutApart(s[1..], key);
      var rest := Without(s[1..], key);
      forall j | 0 <= j < |rest| ensures rest[j].key != s[0].key {
        WithoutMember(s[1..], key, rest[j]);
      }
    }
  }

  lemma {:induction false} WithoutFacts(s: seq<Entry>, key: CacheKey)
    requires KeysDiffer(s)
    ensures KeysDiffer(Without(s, key))
    ensures forall e :: e in Without(s, key) <==> e in s && e.key != key
    ensures |Without(s, key)| == |s| - |Find(s, key)| && |Find(s, key)| <= 1
    ensures forall e :: e in Find(s, key) <==> e in s && e.key == key
  {
    WithoutApart(s, key);
    WithoutLength(s, key);
    forall e
      ensures (e in Without(s, key) <==> e in s && e.key != key) && (e in Find(s, key) <==> e in s && e.key == key)
    {
      WithoutMember(s, key, e);
    }
  }

  class Cache {
    const ttl: real
    const maxsize: nat
    var entries: seq<Entry>

    ghost predicate Valid()
      reads this
    {
      KeysDiffer(entries) && |entries| <= maxsize
    }

    constructor (ttl: real, maxsize: nat)
      ensures Valid() && entries == [] && this.ttl == ttl && this.maxsize == maxsize
    {
      this.ttl, this.maxsize := ttl, maxsize;
      entries := [];
    }

    method Get(key: CacheKey, now: real) returns (r: Lookup)
      requires Valid()
      modifies this
      ensures Valid() && entries == AfterGet(old(entries), key, now, ttl)
      ensures r == Answer(old(entries), key, now, ttl)
    {
      WithoutFacts(entries, key);
      var found := Find(entries, key);
      if found == [] {
        return Miss;
      }
      var entry := found[0];
      if now - entry.created >= ttl {
        entries := Without(entries, key);
        return Miss;
      }
      entries := Without(entries, key) + [entry];
      r := Hit(entry.value);
    }

    method Set(key: CacheKey, value: seq<Stat>, now: real)
      requires Valid()
      modifies this
      ensures Valid() && entries == AfterSet(old(entries), Entry(key, now, value), maxsize)
    {
      WithoutFacts(entries, key);
      entries := Without(entries, key) + [Entry(key, now, value)];
      while |entries| > maxsize
        invariant KeysDiffer(entries)
        invariant Trim(entries, maxsize) == AfterSet(old(entries), Entry(key, now, value), maxsize)
      {
        entries := entries[1..];
      }
    }

    method Invalidate()
      modifies this
      ensures Valid() && entries == []
    {
      entries := [];
    }
  }

  // ----- Whole histories

  datatype Op = Get(key: CacheKey, now: real) | Set(key: CacheKey, value: seq<Stat>, now: real) | Invalidate

  /** The entries after a history, the last operation being the last in the list. */
  function After(ops: seq<Op>, ttl: real, maxsize: nat): seq<Entry> {
    if ops == [] then [] else
    var before := After(ops[..|ops| - 1], ttl, maxsize);
    match ops[|ops| - 1]
    case Get(key, now) => AfterGet(before, key, now, ttl)
    case Set(key, value, now) => AfterSet(before, Entry(key, now, value), maxsize)
    case Invalidate => []
  }

  /** What a get of `key` at `now` answers after a history. */
  function AnswerAfter(ops: seq<Op>, key: CacheKey, now: real, ttl: real, maxsize: nat): Lookup {
    Answer(After(ops, ttl, maxsize), key, now, ttl)
  }

  /** The last value set for a key since the last invalidation, if any. */
  function LastSet(ops: seq<Op>, key: CacheKey): seq<Entry> {
    if ops == [] then [] else
    match ops[|ops| - 1]
    case Get(_, _) => LastSet(ops[..|ops| - 1], key)
    case Set(k, value, now) => if k == key then [Entry(k, now, value)] else LastSet(ops[..|ops| - 1], key)
    case Invalidate => []
  }

  lemma {:induction false} TrimFacts(s: seq<Entry>, maxsize: nat)
    requires KeysDiffer(s)
    ensures KeysDiffer(Trim(s, maxsize)) && |Trim(s, maxsize)| <= maxsize
    ensures Trim(s, maxsize) == s[|s| - |Trim(s, maxsize)|..]
    ensures |s| <= maxsize ==> Trim(s, maxsize) == s
    decreases |s|
  {
    if |s| > maxsize {
      TrimFacts(s[1..], maxsize);
    }
  }

  /** The cache never outgrows its size, and holds for a key nothing but the last value set since the last
      invalidation. */
  lemma {:induction false} HoldsLastSets(ops: seq<Op>, ttl: real, maxsize: nat)
    ensures KeysDiffer(After(ops, ttl, maxsize)) && |After(ops, ttl, maxsize)| <= maxsize
    ensures forall e | e in After(ops, ttl, maxsize) :: LastSet(ops, e.key) == [e]
  {
    if ops != [] {
      var n := |ops| - 1;
      var before, after := After(ops[..n], ttl, maxsize), After(ops, ttl, maxsize);
      HoldsLastSets(ops[..n], ttl, maxsize);
      match ops[n]
      case Get(key, now) => WithoutFacts(before, key);
      case Set(key, value, now) =>
        WithoutFacts(before, key);
        TrimFacts(Without(before, key) + [Entry(key, now, value)], maxsize);
      case Invalidate =>
    }
  }

  /** A hit is the last value set for that key since the last invalidation, and younger than the time to live. */
  lemma HitsAreCurrent(ops: seq<Op>, key: CacheKey, now: real, ttl: real, maxsize: nat)
    ensures var r := AnswerAfter(ops, key, now, ttl, maxsize);
            r.Hit? ==> |LastSet(ops, key)| == 1 && LastSet(ops, key)[0].value == r.value
                       && now - LastSet(ops, key)[0].created < ttl
  {
    HoldsLastSets(ops, ttl, maxsize);
    WithoutFacts(After(ops, ttl, maxsize), key);
    var found := Find(After(ops, ttl, maxsize), key);
    if found != [] {
      assert found[0] in found;
    }
  }

  // ----- A larger cache holds everything a smaller one does

  predicate Subsequence(s: seq<Entry>, b: seq<Entry>)
    decreases b
  {
    s == [] || (b != [] && if s[0] == b[0] then Subsequence(s[1..], b[1..]) else Subsequence(s, b[1..]))
  }

  lemma {:induction false} SubMembers(s: seq<Entry>, b: seq<Entry>)
    requires Subsequence(s, b)
    ensures |s| <= |b| && forall e | e in s :: e in b
    decreases b
  {
    if s != [] {
      SubMembers(if s[0] == b[0] then s[1..] else s, b[1..]);
      assert s == [s[0]] + s[1..];
    }
  }

  lemma {:induction false} SubTail(s: seq<Entry>, b: seq<Entry>)
    requires Subsequence(s, b) && s != []
    ensures Subsequence(s[1..], b)
    decreases b, 0
  {
    assert b == [b[0]] + b[1..];
    if s[0] == b[0] {
      SubLonger(s[1..], b[1..], b[0]);
    } else {
      SubTail(s, b[1..]);
      SubLonger(s[1..], b[1..], b[0]);
    }
  }

  lemma {:induction false} SubLonger(s: seq<Entry>, b: seq<Entry>, e: Entry)
    requires Subsequence(s, b)
    ensures Subsequence(s, [e] + b)
    decreases b, 1
  {
    assert ([e] + b)[1..] == b;
    if s != [] && s[0] == e {
      SubTail(s, b);
    }
  }

  lemma {:induction false} SubAppend(s: seq<Entry>, b: seq<Entry>, e: Entry)
    requires Subsequence(s, b)
    ensures Subsequence(s + [e], b + [e]) && Subsequence(s, b + [e])
    decreases b
  {
    if b != [] {
      assert (b + [e])[1..] == b[1..] + [e];
      if s == [] {
        SubAppend([], b[1..], e);
        assert ([] + [e])[1..] == [] && [] + [e] == [e];
        if e == b[0] {
        }
      } else if s[0] == b[0] {
        assert (s + [e])[1..] == s[1..] + [e];
        SubAppend(s[1..], b[1..], e);
      } else {
        SubAppend(s, b[1..], e);
      }
    }
  }

  /** Dropping a key from both keeps the smaller inside the larger. */
  lemma {:induction false} SubWithout(s: seq<Entry>, b: seq<Entry>, key: CacheKey)
    requires Subsequence(s, b) && KeysDiffer(b)
    ensures Subsequence(Without(s, key), Without(b, key))
    decreases b
  {
    if s != [] && b != [] {
      SubMembers(s, b);
      if s[0] == b[0] {
        SubWithout(s[1..], b[1..], key);
      } else {
        SubWithout(s, b[1..], key);
        if b[0].key == key {
          SubMembers(s, b[1..]);
          assert forall e | e in s :: e.key != key;
          WithoutAbsent(s, key);
        } else {
          SubLonger(Without(s, key), Without(b[1..], key), b[0]);
        }
      }
    }
  }

  lemma {:induction false} WithoutAbsent(s: seq<Entry>, key: CacheKey)
    ensures (forall i | 0 <= i < |s| :: s[i].key != key) <==> Find(s, key) == []
    ensures Find(s, key) == [] ==> Without(s, key) == s
  {
    if s != [] {
      WithoutAbsent(s[1..], key);
      if s[0].key != key {
        assert (forall i | 0 <= i < |s[1..]| :: s[1..][i].key != key)
               ==> forall i | 1 <= i < |s| :: s[i] == s[1..][i - 1];
      }
    }
  }

  /** The larger cache holds all the smaller one does, in the same order, and is longer by no more than its room. */
  ghost predicate Includes(b: seq<Entry>, big: nat, s: seq<Entry>, small: nat) {
    && KeysDiffer(s) && KeysDiffer(b) && |s| <= small <= big && |b| <= big
    && Subsequence(s, b) && |b| - |s| <= big - small
  }

  lemma TrimKeepsInclusion(b: seq<Entry>, big: nat, s: seq<Entry>, small: nat)
    requires KeysDiffer(s) && KeysDiffer(b) && Subsequence(s, b)
    requires |s| <= small + 1 && |b| <= big + 1 && small <= big && |b| - |s| <= big - small
    ensures Includes(Trim(b, big), big, Trim(s, small), small)
  {
    TrimFacts(b, big);
    TrimFacts(s, small);
    if |s| > small {
      SubTail(s, b);
      if |b| > big && s[0] != b[0] {
        SubTail(s, b[1..]);
      }
    }
  }

  lemma FindIncluded(b: seq<Entry>, s: seq<Entry>, key: CacheKey)
    requires KeysDiffer(s) && KeysDiffer(b) && Subsequence(s, b)
    ensures Find(s, key) == [] || Find(s, key) == Find(b, key)
  {
    WithoutFacts(s, key);
    WithoutFacts(b, key);
    SubMembers(s, b);
    if Find(s, key) != [] {
      var e := Find(s, key)[0];
      assert e in Find(s, key);
      assert e in Find(b, key);
    }
  }

  lemma SetKeepsInclusion(b: seq<Entry>, big: nat, s: seq<Entry>, small: nat, e: Entry)
    requires Includes(b, big, s, small)
    ensures Includes(AfterSet(b, e, big), big, AfterSet(s, e, small), small)
  {
    WithoutFacts(s, e.key);
    WithoutFacts(b, e.key);
    FindIncluded(b, s, e.key);
    SubWithout(s, b, e.key);
    SubAppend(Without(s, e.key), Without(b, e.key), e);
    TrimKeepsInclusion(Without(b, e.key) + [e], big, Without(s, e.key) + [e], small);
  }

  lemma GetKeepsInclusion(b: seq<Entry>, big: nat, s: seq<Entry>, small: nat, key: CacheKey, now: real, ttl: real)
    requires Includes(b, big, s, small)
    ensures Includes(AfterGet(b, key, now, ttl), big, AfterGet(s, key, now, ttl), small)
    ensures Answer(s, key, now, ttl).Hit? ==> Answer(b, key, now, ttl) == Answer(s, key, now, ttl)
  {
    WithoutFacts(s, key);
    WithoutFacts(b, key);
    FindIncluded(b, s, key);
    SubWithout(s, b, key);
    var found := Find(b, key);
    if found != [] {
      assert found[0] in found;
      SubAppend(Without(s, key), Without(b, key), found[0]);
      WithoutAbsent(s, key);
    }
  }

  lemma {:induction false} InclusionAfter(ops: seq<Op>, ttl: real, small: nat, big: nat)
    requires small <= big
    ensures Includes(After(ops, ttl, big), big, After(ops, ttl, small), small)
  {
    if ops != [] {
      var n := |ops| - 1;
      var b, s := After(ops[..n], ttl, big), After(ops[..n], ttl, small);
      InclusionAfter(ops[..n], ttl, small, big);
      match ops[n]
      case Get(key, now) => GetKeepsInclusion(b, big, s, small, key, now, ttl);
      case Set(key, value, now) => SetKeepsInclusion(b, big, s, small, Entry(key, now, value));
      case Invalidate =>
    }
  }

  /** After any history a larger cache holds every entry of a smaller one, and answers every get the smaller one
      answers, with the same value. */
  lemma LargerCacheIncludesSmaller(ops: seq<Op>, ttl: real, small: nat, big: nat, key: CacheKey, now: real)
    requires small <= big
    ensures forall e | e in After(ops, ttl, small) :: e in After(ops, ttl, big)
    ensures AnswerAfter(ops, key, now, ttl, small).Hit? ==>
              AnswerAfter(ops, key, now, ttl, big) == AnswerAfter(ops, key, now, ttl, small)
  {
    InclusionAfter(ops, ttl, small, big);
    SubMembers(After(ops, ttl, small), After(ops, ttl, big));
    GetKeepsInclusion(After(ops, ttl, big), big, After(ops, ttl, small), small, key, now, ttl);
  }

  // ----- What is dropped when the cache is full

  /** The position in the history at which a key was last set, or found by a get. */
  function LastUse(ops: seq<Op>, key: CacheKey, ttl: real, maxsize: nat): int {
    if ops == [] then -1 else
    var n := |ops| - 1;
    match ops[n]
    case Get(k, now) =>
      if k == key && AnswerAfter(ops[..n], k, now, ttl, maxsize).Hit? then n
      else LastUse(ops[..n], key, ttl, maxsize)
    case Set(k, _, _) => if k == key then n else LastUse(ops[..n], key, ttl, maxsize)
    case Invalidate => LastUse(ops[..n], key, ttl, maxsize)
  }

  lemma {:induction false} LastUseInRange(ops: seq<Op>, key: CacheKey, ttl: real, maxsize: nat)
    ensures -1 <= LastUse(ops, key, ttl, maxsize) < |ops|
  {
    if ops != [] {
      LastUseInRange(ops[..|ops| - 1], key, ttl, maxsize);
    }
  }

  ghost predicate InUseOrder(s: seq<Entry>, ops: seq<Op>, ttl: real, maxsize: nat) {
    forall i, j | 0 <= i < j < |s| :: LastUse(ops, s[i].key, ttl, maxsize) < LastUse(ops, s[j].key, ttl, maxsize)
  }

  lemma {:induction false} WithoutInUseOrder(s: seq<Entry>, key: CacheKey, ops: seq<Op>, ttl: real, maxsize: nat)
    requires KeysDiffer(s) && InUseOrder(s, ops, ttl, maxsize)
    ensures InUseOrder(Without(s, key), ops, ttl, maxsize)
  {
    if s != [] && s[0].key != key {
      WithoutInUseOrder(s[1..], key, ops, ttl, maxsize);
      var rest := Without(s[1..], key);
      forall j | 0 <= j < |rest|
        ensures LastUse(ops, s[0].key, ttl, maxsize) < LastUse(ops, rest[j].key, ttl, maxsize)
      {
        var i := StillAt(s[1..], key, rest[j]);
        assert s[i + 1] == rest[j];
      }
    }
  }

  lemma {:induction false} StillAt(s: seq<Entry>, key: CacheKey, e: Entry) returns (i: nat)
    requires KeysDiffer(s) && e in Without(s, key)
    ensures i < |s| && s[i] == e
  {
    WithoutMember(s, key, e);
    i :| 0 <= i < |s| && s[i] == e;
  }

  /** Using one key now moves it to the end and leaves the order of the others. */
  lemma UsedLast(before: seq<Entry>, e: Entry, ops: seq<Op>, ttl: real, maxsize: nat)
    requires ops != [] && KeysDiffer(before) && InUseOrder(before, ops[..|ops| - 1], ttl, maxsize)
    requires LastUse(ops, e.key, ttl, maxsize) == |ops| - 1
    requires forall k | k != e.key :: LastUse(ops, k, ttl, maxsize) == LastUse(ops[..|ops| - 1], k, ttl, maxsize)
    ensures InUseOrder(Without(before, e.key) + [e], ops, ttl, maxsize)
  {
    var n := |ops| - 1;
    var kept := Without(before, e.key);
    WithoutFacts(before, e.key);
    WithoutInUseOrder(before, e.key, ops[..n], ttl, maxsize);
    forall i | 0 <= i < |kept|
      ensures kept[i].key != e.key && LastUse(ops[..n], kept[i].key, ttl, maxsize) < n
    {
      assert kept[i] in kept;
      LastUseInRange(ops[..n], kept[i].key, ttl, maxsize);
    }
  }

  /** Entries stand in the order of their last use, so the one a full cache drops is the least recently used. */
  lemma {:induction false} LeastRecentlyUsedFirst(ops: seq<Op>, ttl: real, maxsize: nat)
    ensures InUseOrder(After(ops, ttl, maxsize), ops, ttl, maxsize)
  {
    if ops != [] {
      var n := |ops| - 1;
      var front := ops[..n];
      var before := After(front, ttl, maxsize);
      LeastRecentlyUsedFirst(front, ttl, maxsize);
      HoldsLastSets(front, ttl, maxsize);
      match ops[n]
      case Get(key, now) =>
        WithoutFacts(before, key);
        if Answer(before, key, now, ttl).Hit? {
          assert Find(before, key)[0] in Find(before, key);
          UsedLast(before, Find(before, key)[0], ops, ttl, maxsize);
        } else {
          WithoutInUseOrder(before, key, front, ttl, maxsize);
          SameUses(front, ops, ttl, maxsize);
        }
      case Set(key, value, now) =>
        var e := Entry(key, now, value);
        UsedLast(before, e, ops, ttl, maxsize);
        WithoutFacts(before, key);
        TrimFacts(Without(before, key) + [e], maxsize);
      case Invalidate =>
    }
  }

  lemma SameUses(front: seq<Op>, ops: seq<Op>, ttl: real, maxsize: nat)
    requires ops != [] && front == ops[..|ops| - 1] && ops[|front|].Get?
    requires AnswerAfter(front, ops[|front|].key, ops[|front|].now, ttl, maxsize).Miss?
    ensures forall k :: LastUse(ops, k, ttl, maxsize) == LastUse(front, k, ttl, maxsize)
  {
  }

  // ----- What is found when the cache is large enough

  function At(op: Op): real {
    match op case Get(_, now) => now case Set(_, _, now) => now case Invalidate => 0.0
  }

  /** The clock does not go back, up to now. */
  ghost predicate InTime(ops: seq<Op>, now: real) {
    && (forall i | 0 <= i < |ops| :: ops[i].Invalidate? || At(ops[i]) <= now)
    && (forall i, j | 0 <= i < j < |ops| :: ops[i].Invalidate? || ops[j].Invalidate? || At(ops[i]) <= At(ops[j]))
  }

  ghost function KeysSet(ops: seq<Op>): set<CacheKey> {
    set i | 0 <= i < |ops| && ops[i].Set? :: ops[i].key
  }

  ghost function KeysOf(s: seq<Entry>): set<CacheKey> {
    set i | 0 <= i < |s| :: s[i].key
  }

  lemma {:induction false} KeysNumber(s: seq<Entry>)
    requires KeysDiffer(s)
    ensures |KeysOf(s)| == |s|
  {
    if s != [] {
      var n := |s| - 1;
      KeysNumber(s[..n]);
      assert KeysOf(s) == KeysOf(s[..n]) + {s[n].key};
    }
  }

  lemma {:induction false} LastSetIsSet(ops: seq<Op>, key: CacheKey)
    requires LastSet(ops, key) != []
    ensures key in KeysSet(ops) && LastSet(ops, key)[0].key == key
  {
    var n := |ops| - 1;
    if !(ops[n].Set? && ops[n].key == key) {
      LastSetIsSet(ops[..n], key);
      assert KeysSet(ops[..n]) <= KeysSet(ops);
    }
  }

  lemma {:induction false} NoMoreThanKeys(ops: seq<Op>, ttl: real, maxsize: nat, keys: set<CacheKey>)
    requires KeysSet(ops) <= keys
    ensures KeysOf(After(ops, ttl, maxsize)) <= keys && |After(ops, ttl, maxsize)| <= |keys|
  {
    var s := After(ops, ttl, maxsize);
    HoldsLastSets(ops, ttl, maxsize);
    forall k | k in KeysOf(s) ensures k in keys {
      var i :| 0 <= i < |s| && s[i].key == k;
      LastSetIsSet(ops, s[i].key);
    }
    KeysNumber(s);
    assert KeysOf(s) + (keys - KeysOf(s)) == keys;
  }

  lemma {:induction false} EarlierHasRoom(ops: seq<Op>, now: real, maxsize: nat)
    requires ops != [] && InTime(ops, now) && |KeysSet(ops)| <= maxsize
    ensures var front := ops[..|ops| - 1];
            InTime(front, now) && |KeysSet(front)| <= maxsize
  {
    SubsetSize(KeysSet(ops[..|ops| - 1]), KeysSet(ops));
  }

  /** With room for every key ever set, what was last set and is still live is there. */
  lemma {:induction false} LiveIsHeld(ops: seq<Op>, ttl: real, maxsize: nat, key: CacheKey, now: real)
    requires InTime(ops, now) && |KeysSet(ops)| <= maxsize
    requires LastSet(ops, key) != [] && now - LastSet(ops, key)[0].created < ttl
    ensures LastSet(ops, key)[0] in After(ops, ttl, maxsize)
  {
    var n := |ops| - 1;
    var front, op, e := ops[..n], ops[n], LastSet(ops, key)[0];
    var before := After(front, ttl, maxsize);
    EarlierHasRoom(ops, now, maxsize);
    HoldsLastSets(front, ttl, maxsize);
    match op
    case Get(k, at) =>
      LiveIsHeld(front, ttl, maxsize, key, now);
      LastSetIsSet(front, key);
      WithoutFacts(before, k);
    case Set(k, value, at) =>
      WithoutFacts(before, k);
      assert front + [op] == ops;
      RoomForOne(front, op, ttl, maxsize);
      if k != key {
        LiveIsHeld(front, ttl, maxsize, key, now);
        LastSetIsSet(front, key);
      }
  }

  lemma {:induction false} RoomForOne(front: seq<Op>, op: Op, ttl: real, maxsize: nat)
    requires op.Set? && |KeysSet(front + [op])| <= maxsize
    ensures var kept := Without(After(front, ttl, maxsize), op.key) + [Entry(op.key, op.now, op.value)];
            Trim(kept, maxsize) == kept
  {
    var before := After(front, ttl, maxsize);
    var kept := Without(before, op.key) + [Entry(op.key, op.now, op.value)];
    HoldsLastSets(front, ttl, maxsize);
    WithoutFacts(before, op.key);
    assert (front + [op])[|front|] == op;
    forall k | k in KeysOf(kept) ensures k in KeysSet(front + [op]) {
      var i :| 0 <= i < |kept| && kept[i].key == k;
      if i < |kept| - 1 {
        assert kept[i] in before;
        LastSetIsSet(front, k);
        var j :| 0 <= j < |front| && front[j].Set? && front[j].key == k;
        assert (front + [op])[j] == front[j];
      }
    }
    forall i | 0 <= i < |kept| - 1 ensures kept[i].key != op.key {
      assert kept[i] in Without(before, op.key);
    }
    KeysNumber(kept);
    SubsetSize(KeysOf(kept), KeysSet(front + [op]));
    TrimFacts(kept, maxsize);
  }

  /** With room for every key ever set and a clock that does not go back, a get answers exactly what was last set
      since the last invalidation, if it is younger than the time to live. */
  lemma {:induction false} AnswersWhatIsLive(ops: seq<Op>, ttl: real, maxsize: nat, key: CacheKey, now: real)
    requires InTime(ops, now) && |KeysSet(ops)| <= maxsize
    ensures AnswerAfter(ops, key, now, ttl, maxsize)
            == if LastSet(ops, key) != [] && now - LastSet(ops, key)[0].created < ttl
               then Hit(LastSet(ops, key)[0].value)
               else Miss
  {
    var s := After(ops, ttl, maxsize);
    HoldsLastSets(ops, ttl, maxsize);
    WithoutFacts(s, key);
    if Find(s, key) != [] {
      assert Find(s, key)[0] in Find(s, key);
    }
    if LastSet(ops, key) != [] && now - LastSet(ops, key)[0].created < ttl {
      LiveIsHeld(ops, ttl, maxsize, key, now);
      LastSetIsSet(ops, key);
      assert LastSet(ops, key)[0] in Find(s, key);
    }
  }
}
