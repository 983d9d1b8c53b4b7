/** Graph-boosted recall: adding a flat boost and re-sorting is a stable partition of the lexical order. */
module Recall {
  import opened Sorting
  import opened GraphStore

  const TRAVERSAL_SOURCE_TOP_K := 5

  datatype Block = Block(chunkId: string, content: string)

  datatype Hit = Hit(block: Block, score: real)

  function Best(): (Hit, Hit) -> bool {
    (a: Hit, b: Hit) => a.score >= b.score
  }

  function Blocks(hits: seq<Hit>): seq<Block> {
    seq(|hits|, i requires 0 <= i < |hits| => hits[i].block)
  }

  /** `BM25.rank_all` over scores the model does not look into: a stable descending sort. */
  function RankAll(corpus: seq<Block>, scores: seq<real>): seq<Hit>
    requires |corpus| == |scores|
  {
    Sort(seq(|corpus|, i requires 0 <= i < |corpus| => Hit(corpus[i], scores[i])), Best())
  }

  /** `chunk_id.split("#")[0]`. */
  function SessionOf(chunkId: string): string {
    if chunkId == [] || chunkId[0] == '#' then [] else [chunkId[0]] + SessionOf(chunkId[1..])
  }

  function Chunk0(session: string): string {
    session + "#0"
  }

  // ----- Which chunks are boosted, and what the boosted order is

  /** The first chunks of the sessions linked to one of the best lexical hits. */
  ghost function BoostedChunks(results: seq<Hit>, store: InMemoryGraphStore): set<string>
    reads store
  {
    set i, n | 0 <= i < |results| && i < TRAVERSAL_SOURCE_TOP_K
               && n in store.Linked(SessionOf(results[i].block.chunkId))
      :: Chunk0(n)
  }

  function IsIn(chunks: set<string>): Block -> bool {
    (b: Block) => b.chunkId in chunks
  }

  function NotIn(chunks: set<string>): Block -> bool {
    (b: Block) => b.chunkId !in chunks
  }

  /** The boosted chunks in lexical order, then the others in lexical order. */
  function Partition(order: seq<Block>, chunks: set<string>): seq<Block> {
    Filter(order, IsIn(chunks)) + Filter(order, NotIn(chunks))
  }

  function Boosted(hits: seq<Hit>, chunks: set<string>, boost: real): seq<Hit> {
    seq(|hits|, i requires 0 <= i < |hits| =>
      if hits[i].block.chunkId in chunks then hits[i].(score := hits[i].score + boost) else hits[i])
  }

  // ----- Sorting a two-level list

  ghost predicate TwoLevels(hits: seq<Hit>, high: Hit -> bool) {
    forall i, j | 0 <= i < j < |hits| ::
      && (high(hits[i]) == high(hits[j]) ==> hits[i].score >= hits[j].score)
      && (high(hits[i]) && !high(hits[j]) ==> hits[i].score > hits[j].score)
      && (!high(hits[i]) && high(hits[j]) ==> hits[i].score < hits[j].score)
  }

  lemma {:induction false} InsertAfter(x: Hit, a: seq<Hit>, b: seq<Hit>)
    requires forall i | 0 <= i < |a| :: a[i].score > x.score
    requires b != [] ==> x.score >= b[0].score
    ensures Insert(x, a + b, Best()) == a + [x] + b
  {
    if a == [] {
      assert a + b == b;
    } else {
      assert (a + b)[1..] == a[1..] + b;
      InsertAfter(x, a[1..], b);
    }
  }

  /** How the head of a two-level list compares with the rest, level by level. */
  lemma HeadCompares(hits: seq<Hit>, high: Hit -> bool, low: Hit -> bool)
    requires hits != [] && TwoLevels(hits, high) && forall h :: low(h) == !high(h)
    ensures var a, b := Filter(hits[1..], high), Filter(hits[1..], low);
            && (forall i | 0 <= i < |a| ::
                  if high(hits[0]) then hits[0].score >= a[i].score else a[i].score > hits[0].score)
            && (forall i | 0 <= i < |b| :: hits[0].score >= b[i].score)
  {
    var rest := hits[1..];
    var a, b := Filter(rest, high), Filter(rest, low);
    FilterKeeps(rest, high);
    FilterKeeps(rest, low);
    forall i | 0 <= i < |a|
      ensures if high(hits[0]) then hits[0].score >= a[i].score else a[i].score > hits[0].score
    {
      assert a[i] in a;
      var j :| 0 <= j < |rest| && rest[j] == a[i];
      assert hits[j + 1] == a[i];
    }
    forall i | 0 <= i < |b| ensures hits[0].score >= b[i].score {
      assert b[i] in b;
      var j :| 0 <= j < |rest| && rest[j] == b[i];
      assert hits[j + 1] == b[i];
    }
  }

  lemma {:induction false} InsertFirst(x: Hit, s: seq<Hit>)
    requires s != [] ==> x.score >= s[0].score
    ensures Insert(x, s, Best()) == [x] + s
  {
  }

  lemma {:induction false} InsertByLevel(x: Hit, isHigh: bool, a: seq<Hit>, b: seq<Hit>)
    requires forall i | 0 <= i < |a| :: if isHigh then x.score >= a[i].score else a[i].score > x.score
    requires forall i | 0 <= i < |b| :: x.score >= b[i].score
    ensures Insert(x, a + b, Best()) == (if isHigh then [x] + a else a) + (if isHigh then b else [x] + b)
  {
    if isHigh {
      InsertFirst(x, a + b);
      assert [x] + (a + b) == ([x] + a) + b;
    } else {
      InsertAfter(x, a, b);
      assert a + [x] + b == a + ([x] + b);
    }
  }

  lemma TailTwoLevels(hits: seq<Hit>, high: Hit -> bool)
    requires hits != [] && TwoLevels(hits, high)
    ensures TwoLevels(hits[1..], high)
  {
  }

  /** In a list that descends within two levels, one wholly above the other, sorting only separates the levels. */
  lemma {:induction false} SortSeparates(hits: seq<Hit>, high: Hit -> bool, low: Hit -> bool)
    requires TwoLevels(hits, high) && forall h :: low(h) == !high(h)
    ensures Sort(hits, Best()) == Filter(hits, high) + Filter(hits, low)
  {
    if hits != [] {
      TailTwoLevels(hits, high);
      SortSeparates(hits[1..], high, low);
      HeadCompares(hits, high, low);
      InsertByLevel(hits[0], high(hits[0]), Filter(hits[1..], high), Filter(hits[1..], low));
      assert low(hits[0]) == !high(hits[0]);
      if high(hits[0]) {
        assert Filter(hits, low) == Filter(hits[1..], low);
      } else {
        assert Filter(hits, high) == Filter(hits[1..], high);
      }
    }
  }

  lemma {:induction false} FilterBlocks(hits: seq<Hit>, p: Hit -> bool, q: Block -> bool)
    requires forall h :: p(h) == q(h.block)
    ensures Blocks(Filter(hits, p)) == Filter(Blocks(hits), q)
  {
    if hits != [] {
      assert Blocks(hits)[1..] == Blocks(hits[1..]);
      FilterBlocks(hits[1..], p, q);
    }
  }

  lemma {:induction false} BoostKeepsOrder(hits: seq<Hit>, chunks: set<string>, boost: real)
    requires SortedBy(Best(), hits)
    ensures var boosted := Boosted(hits, chunks, boost);
            forall i, j | 0 <= i < j < |hits| ::
              (boosted[i].block.chunkId in chunks <==> boosted[j].block.chunkId in chunks)
              ==> boosted[i].score >= boosted[j].score
  {
    forall i, j | 0 <= i < j < |hits| ensures hits[i].score >= hits[j].score {
      assert Best()(hits[i], hits[j]);
    }
  }

  lemma {:induction false} BoostingPartitions(hits: seq<Hit>, chunks: set<string>, boost: real)
    requires SortedBy(Best(), hits)
    requires forall i, j | 0 <= i < |hits| && 0 <= j < |hits| :: hits[i].score + boost > hits[j].score
    ensures Blocks(Sort(Boosted(hits, chunks, boost), Best())) == Partition(Blocks(hits), chunks)
  {
    var boosted := Boosted(hits, chunks, boost);
    var high, low := (h: Hit) => h.block.chunkId in chunks, (h: Hit) => h.block.chunkId !in chunks;
    BoostKeepsOrder(hits, chunks, boost);
    SortSeparates(boosted, high, low);
    FilterBlocks(boosted, high, IsIn(chunks));
    FilterBlocks(boosted, low, NotIn(chunks));
    assert Blocks(boosted) == Blocks(hits);
    assert Blocks(Filter(boosted, high) + Filter(boosted, low))
           == Blocks(Filter(boosted, high)) + Blocks(Filter(boosted, low));
  }

  lemma {:induction false} NothingBoosted(order: seq<Block>)
    ensures Filter(order, IsIn({})) == [] && Filter(order, NotIn({})) == order
    ensures Partition(order, {}) == order
  {
    if order != [] {
      NothingBoosted(order[1..]);
    }
  }

  // ----- The algorithm

  lemma RankedFacts(corpus: seq<Block>, scores: seq<real>)
    requires |corpus| == |scores| && forall i | 0 <= i < |scores| :: scores[i] >= 0.0
    ensures SortedBy(Best(), RankAll(corpus, scores))
    ensures forall i | 0 <= i < |RankAll(corpus, scores)| :: RankAll(corpus, scores)[i].score >= 0.0
  {
    var hits := seq(|corpus|, i requires 0 <= i < |corpus| => Hit(corpus[i], scores[i]));
    SortIsSorted(hits, Best());
    SortIsPermutation(hits, Best());
    forall i | 0 <= i < |RankAll(corpus, scores)| ensures RankAll(corpus, scores)[i].score >= 0.0 {
      assert RankAll(corpus, scores)[i] in multiset(hits);
    }
  }

  /** `max(positive_scores) * 1.1 if positive_scores else 1.0`. */
  method BoostFor(results: seq<Hit>) returns (boost: real)
    requires forall i | 0 <= i < |results| :: results[i].score >= 0.0
    ensures boost > 0.0 && forall i | 0 <= i < |results| :: boost > results[i].score
  {
    var best := 0.0;
    for i := 0 to |results|
      invariant best >= 0.0 && forall j | 0 <= j < i :: results[j].score <= best
    {
      if results[i].score > 0.0 && results[i].score > best {
        best := results[i].score;
      }
    }
    boost := if best > 0.0 then best * 1.1 else 1.0;
  }

  method AddLinked(connected: seq<Entity>, boost: real, extra0: map<string, real>) returns (extra: map<string, real>)
    requires boost > 0.0 && forall c | c in extra0 :: extra0[c] == boost
    ensures extra.Keys == extra0.Keys + set j | 0 <= j < |connected| :: Chunk0(connected[j].id)
    ensures forall c | c in extra :: extra[c] == boost
  {
    extra := extra0;
    for k := 0 to |connected|
      invariant extra.Keys == extra0.Keys + set j | 0 <= j < k :: Chunk0(connected[j].id)
      invariant forall c | c in extra :: extra[c] == boost
    {
      var chunk := Chunk0(connected[k].id);
      var had := if chunk in extra then extra[chunk] else 0.0;
      extra := extra[chunk := if had >= boost then had else boost];
    }
  }

  /** The chunks that get a boost; the traversal's repeated maximum never exceeds the one boost there is. */
  method Extra(results: seq<Hit>, store: InMemoryGraphStore, boost: real) returns (extra: map<string, real>)
    requires store.Valid() && boost > 0.0
    ensures extra.Keys == BoostedChunks(results, store)
    ensures forall c | c in extra :: extra[c] == boost
  {
    extra := map[];
    var i := 0;
    while i < |results| && i < TRAVERSAL_SOURCE_TOP_K
      invariant 0 <= i <= |results| && i <= TRAVERSAL_SOURCE_TOP_K
      invariant extra.Keys == BoostedChunks(results[..i], store)
      invariant forall c | c in extra :: extra[c] == boost
    {
      var session := SessionOf(results[i].block.chunkId);
      var connected := store.Traverse(session);
      BoostedSplit(results, i, store);
      SameChunks(connected, store.Linked(session));
      extra := AddLinked(connected, boost, extra);
      i := i + 1;
    }
    TopIsEnough(results, i, store);
  }

  lemma SameChunks(connected: seq<Entity>, linked: set<string>)
    requires forall i | 0 <= i < |connected| :: connected[i].id in linked
    requires forall n | n in linked :: exists i :: 0 <= i < |connected| && connected[i].id == n
    ensures (set j | 0 <= j < |connected| :: Chunk0(connected[j].id)) == set n | n in linked :: Chunk0(n)
  {
  }

  lemma TopIsEnough(results: seq<Hit>, i: nat, store: InMemoryGraphStore)
    requires i <= |results| && (i == |results| || i == TRAVERSAL_SOURCE_TOP_K)
    ensures BoostedChunks(results[..i], store) == BoostedChunks(results, store)
  {
    forall c | c in BoostedChunks(results, store) ensures c in BoostedChunks(results[..i], store) {
      var j, n :| 0 <= j < |results| && j < TRAVERSAL_SOURCE_TOP_K
                  && n in store.Linked(SessionOf(results[j].block.chunkId)) && c == Chunk0(n);
      assert results[..i][j] == results[j];
    }
  }

  lemma BoostedSplit(top: seq<Hit>, i: nat, store: InMemoryGraphStore)
    requires i < |top| && i < TRAVERSAL_SOURCE_TOP_K
    ensures BoostedChunks(top[..i + 1], store)
            == BoostedChunks(top[..i], store) + set n | n in store.Linked(SessionOf(top[i].block.chunkId)) :: Chunk0(n)
  {
    forall c | c in BoostedChunks(top[..i + 1], store)
      ensures c in BoostedChunks(top[..i], store)
              || c in set n | n in store.Linked(SessionOf(top[i].block.chunkId)) :: Chunk0(n)
    {
      var j, n :| 0 <= j < i + 1 && n in store.Linked(SessionOf(top[..i + 1][j].block.chunkId)) && c == Chunk0(n);
      assert j < i ==> top[..i][j] == top[j];
    }
    forall c | c in BoostedChunks(top[..i], store) ensures c in BoostedChunks(top[..i + 1], store) {
      var j, n :| 0 <= j < i && n in store.Linked(SessionOf(top[..i][j].block.chunkId)) && c == Chunk0(n);
      assert top[..i + 1][j] == top[..i][j];
    }
    assert top[..i + 1][i] == top[i];
  }

  /** The graph branch: add the boosts, if there are any, and sort again. */
  method Reranked(results: seq<Hit>, store: InMemoryGraphStore) returns (found: seq<Hit>)
    requires store.Valid() && SortedBy(Best(), results)
    requires forall i | 0 <= i < |results| :: results[i].score >= 0.0
    ensures Blocks(found) == Partition(Blocks(results), BoostedChunks(results, store))
  {
    var boost := BoostFor(results);
    var extra := Extra(results, store, boost);
    if |extra| == 0 {
      NothingBoosted(Blocks(results));
      return results;
    }
    BoostingPartitions(results, extra.Keys, boost);
    found := Sort(Boosted(results, extra.Keys, boost), Best());
  }

  /** `recall`: exactly the first topK of the boosted chunks in lexical order followed by the rest in lexical order. */
  method RecallBlocks(corpus: seq<Block>, scores: seq<real>, store: InMemoryGraphStore, useGraph: bool, topK: nat)
    returns (found: seq<Hit>)
    requires |corpus| == |scores| && store.Valid()
    requires forall i | 0 <= i < |scores| :: scores[i] >= 0.0
    ensures var results := RankAll(corpus, scores);
            var chunks := if useGraph then BoostedChunks(results, store) else {};
            Blocks(found) == Take(Partition(Blocks(results), chunks), topK)
  {
    var results := RankAll(corpus, scores);
    NothingBoosted(Blocks(results));
    if corpus == [] {
      return [];
    }
    RankedFacts(corpus, scores);
    if !useGraph || |store.entities| == 0 {
      assert |store.entities| == 0 ==> BoostedChunks(results, store) == {};
      found := Take(results, topK);
    } else {
      var reranked := Reranked(results, store);
      found := Take(reranked, topK);
    }
  }

  // ----- What the partition means for a caller

  lemma {:induction false} FilterAt<T>(s: seq<T>, p: T -> bool, i: nat)
    requires i < |s| && p(s[i])
    ensures |Filter(s[..i], p)| < |Filter(s, p)| && |Filter(s[..i], p)| <= i
    ensures Filter(s, p)[|Filter(s[..i], p)|] == s[i]
  {
    if i > 0 {
      assert s[..i][1..] == s[1..][..i - 1];
      FilterAt(s[1..], p, i - 1);
    }
  }

  lemma {:induction false} FiltersCount(s: seq<Block>, chunks: set<string>)
    ensures |Filter(s, IsIn(chunks))| + |Filter(s, NotIn(chunks))| == |s|
    ensures multiset(Partition(s, chunks)) == multiset(s)
  {
    if s != [] {
      assert s == [s[0]] + s[1..];
      FiltersCount(s[1..], chunks);
    }
  }

  /** No boosted chunk ends up lower than its lexical rank, no other chunk higher, and nothing is lost. */
  lemma RanksMoveOneWay(order: seq<Block>, chunks: set<string>, i: nat)
    requires i < |order|
    ensures multiset(Partition(order, chunks)) == multiset(order) && |Partition(order, chunks)| == |order|
    ensures order[i].chunkId in chunks ==>
              exists j :: 0 <= j <= i && j < |order| && Partition(order, chunks)[j] == order[i]
    ensures order[i].chunkId !in chunks ==>
              exists j :: i <= j < |order| && Partition(order, chunks)[j] == order[i]
  {
    var a, b := Filter(order, IsIn(chunks)), Filter(order, NotIn(chunks));
    FiltersCount(order, chunks);
    FiltersCount(order[..i], chunks);
    if order[i].chunkId in chunks {
      FilterAt(order, IsIn(chunks), i);
      assert (a + b)[|Filter(order[..i], IsIn(chunks))|] == order[i];
    } else {
      FilterAt(order, NotIn(chunks), i);
      var j := |Filter(order[..i], NotIn(chunks))|;
      assert (a + b)[|a| + j] == b[j] == order[i];
      FilterPrefix(order, IsIn(chunks), i);
    }
  }

  lemma {:induction false} FilterPrefix<T>(s: seq<T>, p: T -> bool, i: nat)
    requires i <= |s|
    ensures |Filter(s[..i], p)| <= |Filter(s, p)|
  {
    if i > 0 {
      assert s[..i][1..] == s[1..][..i - 1];
      FilterPrefix(s[1..], p, i - 1);
    }
  }

  /** A graph without PRECEDED_BY edges, such as the edges-off configuration builds, leaves the lexical order alone. */
  lemma NoEdgesNoBoost(results: seq<Hit>, store: InMemoryGraphStore)
    requires forall e | e in store.edges :: e.relationship != PRECEDED_BY
    ensures BoostedChunks(results, store) == {}
    ensures Partition(Blocks(results), BoostedChunks(results, store)) == Blocks(results)
  {
    assert forall id :: store.Linked(id) == {};
    NothingBoosted(Blocks(results));
  }

  // ----- Which chunks come first, said of the corpus and the graph

  /** Ranking is by falling score, and hits of one score stay in the order of the corpus. */
  lemma {:induction false} RankAllIs(corpus: seq<Block>, scores: seq<real>, score: real)
    requires |corpus| == |scores|
    ensures var hits := seq(|corpus|, i requires 0 <= i < |corpus| => Hit(corpus[i], scores[i]));
            var all := RankAll(corpus, scores);
            && multiset(all) == multiset(hits) && (forall i, j | 0 <= i < j < |all| :: all[i].score >= all[j].score)
            && Filter(all, (h: Hit) => h.score == score) == Filter(hits, (h: Hit) => h.score == score)
  {
    var hits, all := seq(|corpus|, i requires 0 <= i < |corpus| => Hit(corpus[i], scores[i])), RankAll(corpus, scores);
    SortIsPermutation(hits, Best());
    SortIsSorted(hits, Best());
    forall i, j | 0 <= i < j < |all| ensures all[i].score >= all[j].score {
      assert Best()(all[i], all[j]);
    }
    var probe := Hit(Block("", ""), score);
    SortIsStable(hits, Best(), probe);
    SameFilter(all, LevelWith(probe, Best()), (h: Hit) => h.score == score);
    SameFilter(hits, LevelWith(probe, Best()), (h: Hit) => h.score == score);
  }

  lemma {:induction false} SameFilter<T>(s: seq<T>, p: T -> bool, q: T -> bool)
    requires forall x | x in s :: p(x) == q(x)
    ensures Filter(s, p) == Filter(s, q)
  {
    if s != [] {
      assert s == [s[0]] + s[1..];
      SameFilter(s[1..], p, q);
    }
  }

  /** The id is the session's, or the session's with something after a '#'. */
  predicate ChunkOf(chunkId: string, session: string) {
    (forall i | 0 <= i < |session| :: session[i] != '#') && (chunkId == session || session + "#" <= chunkId)
  }

  lemma {:induction false} SessionOfIs(chunkId: string, session: string)
    ensures SessionOf(chunkId) == session <==> ChunkOf(chunkId, session)
  {
    if chunkId != [] && chunkId[0] != '#' && session != [] {
      SessionOfIs(chunkId[1..], session[1..]);
      SameTail(chunkId, session);
    }
  }

  lemma {:induction false} SameTail(chunkId: string, session: string)
    requires chunkId != [] && session != [] && chunkId[0] != '#'
    ensures ChunkOf(chunkId, session) <==> chunkId[0] == session[0] && ChunkOf(chunkId[1..], session[1..])
  {
    assert chunkId == [chunkId[0]] + chunkId[1..] && session == [session[0]] + session[1..];
    assert session + "#" == [session[0]] + (session[1..] + "#");
    if ChunkOf(chunkId[1..], session[1..]) && chunkId[0] == session[0] {
      forall i | 0 <= i < |session| ensures session[i] != '#' {
        assert i > 0 ==> session[i] == session[1..][i - 1];
      }
    }
  }

  /** A PRECEDED_BY edge joins the two known sessions, whichever way it points. */
  ghost predicate Joined(store: InMemoryGraphStore, s: string, n: string)
    reads store
  {
    && s in store.entities && n in store.entities && s != n
    && exists e :: e in store.edges && e.relationship == "PRECEDED_BY"
                   && ((e.source == s && e.target == n) || (e.source == n && e.target == s))
  }

  /** The first chunk of a session joined to that of one of the first five results. */
  ghost predicate LinkedToTop(results: seq<Hit>, store: InMemoryGraphStore, chunkId: string)
    reads store
  {
    exists i, s, n :: 0 <= i < |results| && i < 5 && ChunkOf(results[i].block.chunkId, s) && Joined(store, s, n)
                      && chunkId == n + "#0"
  }

  lemma {:induction false} LinkedIsJoined(store: InMemoryGraphStore, s: string, n: string)
    ensures n in store.Linked(s) <==> Joined(store, s, n)
  {
  }

  /** The boosted chunks are exactly those. */
  lemma {:induction false} BoostedExactly(results: seq<Hit>, store: InMemoryGraphStore, chunkId: string)
    ensures chunkId in BoostedChunks(results, store) <==> LinkedToTop(results, store, chunkId)
  {
    if chunkId in BoostedChunks(results, store) {
      var i, n :| 0 <= i < |results| && i < TRAVERSAL_SOURCE_TOP_K
                  && n in store.Linked(SessionOf(results[i].block.chunkId)) && chunkId == Chunk0(n);
      var s := SessionOf(results[i].block.chunkId);
      SessionOfIs(results[i].block.chunkId, s);
      LinkedIsJoined(store, s, n);
    }
    if LinkedToTop(results, store, chunkId) {
      var i, s, n :| 0 <= i < |results| && i < 5 && ChunkOf(results[i].block.chunkId, s) && Joined(store, s, n)
                     && chunkId == n + "#0";
      SessionOfIs(results[i].block.chunkId, s);
      LinkedIsJoined(store, s, n);
      assert n in store.Linked(SessionOf(results[i].block.chunkId)) && chunkId == Chunk0(n);
    }
  }

  /** In what recall returns with the graph on, nothing that is not linked to one of the first five results comes before
      anything that is; and if something linked is left out, only linked blocks are returned. */
  lemma {:induction false} LinkedComeFirst(results: seq<Hit>, store: InMemoryGraphStore, topK: nat)
    ensures var found := Take(Partition(Blocks(results), BoostedChunks(results, store)), topK);
            && (forall i, j | 0 <= i < j < |found| && LinkedToTop(results, store, found[j].chunkId) ::
                  LinkedToTop(results, store, found[i].chunkId))
            && (forall h | h in results && LinkedToTop(results, store, h.block.chunkId) && h.block !in found ::
                  |found| == topK && forall i | 0 <= i < |found| :: LinkedToTop(results, store, found[i].chunkId))
  {
    var order, chunks := Blocks(results), BoostedChunks(results, store);
    var a, b := Filter(order, IsIn(chunks)), Filter(order, NotIn(chunks));
    var all, found := a + b, Take(Partition(order, chunks), topK);
    assert forall i | 0 <= i < |found| :: found[i] == all[i];
    FilterKeeps(order, IsIn(chunks));
    FilterKeeps(order, NotIn(chunks));
    forall c ensures c in chunks <==> LinkedToTop(results, store, c) {
      BoostedExactly(results, store, c);
    }
    forall i | 0 <= i < |all| ensures all[i].chunkId in chunks <==> i < |a| {
      if i < |a| {
        assert a[i] in a;
      } else {
        assert b[i - |a|] in b;
      }
    }
    forall h | h in results && h.block.chunkId in chunks && h.block !in found
      ensures |found| == topK && forall i | 0 <= i < |found| :: found[i].chunkId in chunks
    {
      var k :| 0 <= k < |results| && results[k] == h;
      assert order[k] == h.block && h.block in order && h.block in a;
      var i :| 0 <= i < |a| && a[i] == h.block;
      assert all[i] == h.block;
    }
  }
}
