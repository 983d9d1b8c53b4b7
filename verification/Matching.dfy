/** Greedy one-to-one matching of extracted decisions to expected ones. */
module Matching {
  import opened SetSums
  import opened Reals
  import opened Cosine

  /** What there is to match; the matcher only compares similarities. */
  datatype Task = Task(extracted: seq<string>, expected: seq<string>, threshold: real, sim: (string, string) -> real)

  /** Index of the first best-scoring entry, as Python's max picks it. */
  function BestAt(ex: string, left: seq<string>, sim: (string, string) -> real): (b: nat)
    requires left != []
    ensures b < |left| && forall j | 0 <= j < |left| :: sim(ex, left[j]) <= sim(ex, left[b])
    ensures forall j | 0 <= j < b :: sim(ex, left[j]) < sim(ex, left[b])
  {
    var n := |left| - 1;
    if n == 0 then 0 else
    var b := BestAt(ex, left[..n], sim);
    assert forall j | 0 <= j < n :: left[..n][j] == left[j];
    if sim(ex, left[n]) > sim(ex, left[b]) then n else b
  }

  function Remove<T>(s: seq<T>, i: nat): seq<T>
    requires i < |s|
  {
    s[..i] + s[i + 1..]
  }

  function TextAt(t: Task, j: nat): string {
    if j < |t.expected| then t.expected[j] else ""
  }

  function Texts(t: Task, left: seq<nat>): seq<string> {
    seq(|left|, j requires 0 <= j < |left| => TextAt(t, left[j]))
  }

  /** The best expectation still available, if it is similar enough; otherwise -1. */
  function Choice(t: Task, ex: string, left: seq<nat>): (c: int)
    ensures -1 <= c < |left|
  {
    if left == [] then -1 else
    var b := BestAt(ex, Texts(t, left), t.sim);
    if t.sim(ex, TextAt(t, left[b])) >= t.threshold then b else -1
  }

  /** The pairs greedy matching makes from extraction i on, `left` being the expectations not yet taken. */
  function Greedy(t: Task, i: nat, left: seq<nat>): seq<(nat, nat)>
    requires i <= |t.extracted|
    decreases |t.extracted| - i
  {
    if i == |t.extracted| then [] else
    var c := Choice(t, t.extracted[i], left);
    if c == -1 then Greedy(t, i + 1, left)
    else [(i, left[c])] + Greedy(t, i + 1, Remove(left, c))
  }

  function Everything(t: Task): seq<nat> {
    seq(|t.expected|, i => i)
  }

  lemma {:induction false} TextsRemove(t: Task, left: seq<nat>, k: nat)
    requires k < |left|
    ensures Texts(t, Remove(left, k)) == Remove(Texts(t, left), k)
  {
  }

  /** `match_extracted_to_expected`, without its printed diagnostics. */
  method MatchExtractedToExpected(t: Task) returns (tp: nat, fp: nat, fn: nat)
    ensures tp == |Greedy(t, 0, Everything(t))|
    ensures tp + fp == |t.extracted| && tp + fn == |t.expected|
  {
    var remaining := t.expected;
    ghost var left := Everything(t);
    assert Texts(t, left) == t.expected;
    tp, fp := 0, 0;
    for i := 0 to |t.extracted|
      invariant remaining == Texts(t, left)
      invariant tp + fp == i && tp + |left| == |t.expected|
      invariant tp + |Greedy(t, i, left)| == |Greedy(t, 0, Everything(t))|
    {
      var ex := t.extracted[i];
      if remaining == [] {
        fp := fp + 1;
      } else {
        var best := BestAt(ex, remaining, t.sim);
        if t.sim(ex, remaining[best]) >= t.threshold {
          TextsRemove(t, left, best);
          tp := tp + 1;
          remaining := Remove(remaining, best);
          left := Remove(left, best);
        } else {
          fp := fp + 1;
        }
      }
    }
    fn := |remaining|;
  }

  // ----- The expectations still available

  ghost function Members(left: seq<nat>): set<nat> {
    set j | j in left
  }

  ghost predicate Available(t: Task, left: seq<nat>) {
    && (forall j | 0 <= j < |left| :: left[j] < |t.expected|)
    && (forall a, b | 0 <= a < b < |left| :: left[a] != left[b])
  }

  lemma ChoiceIsBest(t: Task, ex: string, left: seq<nat>, c: int)
    requires c == Choice(t, ex, left)
    ensures forall j | j in Members(left) ::
              if c == -1 then t.sim(ex, TextAt(t, j)) < t.threshold
              else t.sim(ex, TextAt(t, j)) <= t.sim(ex, TextAt(t, left[c]))
  {
    forall j | j in Members(left) ensures exists a :: 0 <= a < |left| && Texts(t, left)[a] == TextAt(t, j) {
      var a :| 0 <= a < |left| && left[a] == j;
      assert Texts(t, left)[a] == TextAt(t, j);
    }
  }

  lemma RemoveAvailable(t: Task, left: seq<nat>, c: nat)
    requires Available(t, left) && c < |left|
    ensures Available(t, Remove(left, c))
    ensures Members(left) == {left[c]} + Members(Remove(left, c)) && left[c] !in Members(Remove(left, c))
  {
    forall j | j in Members(left) && j != left[c] ensures j in Members(Remove(left, c)) {
      var a :| 0 <= a < |left| && left[a] == j;
      assert Remove(left, c)[if a < c then a else a - 1] == j;
    }
  }

  // ----- What greedy matching achieves

  predicate Similar(t: Task, p: (nat, nat)) {
    p.0 < |t.extracted| && p.1 < |t.expected| && t.sim(t.extracted[p.0], t.expected[p.1]) >= t.threshold
  }

  /** Similar enough pairs, no position used twice on either side. */
  ghost predicate IsMatching(t: Task, pairs: set<(nat, nat)>) {
    && (forall p | p in pairs :: Similar(t, p))
    && (forall p, q | p in pairs && q in pairs && (p.0 == q.0 || p.1 == q.1) :: p == q)
  }

  ghost predicate PairsFrom(t: Task, i: nat, left: seq<nat>, g: seq<(nat, nat)>) {
    && (forall k | 0 <= k < |g| :: i <= g[k].0 && g[k].1 in Members(left) && Similar(t, g[k]))
    && (forall k, l | 0 <= k < l < |g| :: g[k].0 < g[l].0 && g[k].1 != g[l].1)
  }

  ghost function Lefts(g: seq<(nat, nat)>): set<nat> {
    set k | 0 <= k < |g| :: g[k].0
  }

  ghost function Rights(g: seq<(nat, nat)>): set<nat> {
    set k | 0 <= k < |g| :: g[k].1
  }

  lemma {:induction false} GreedyPairs(t: Task, i: nat, left: seq<nat>)
    requires i <= |t.extracted| && Available(t, left)
    ensures PairsFrom(t, i, left, Greedy(t, i, left))
    decreases |t.extracted| - i
  {
    if i < |t.extracted| {
      var c := Choice(t, t.extracted[i], left);
      if c == -1 {
        GreedyPairs(t, i + 1, left);
      } else {
        RemoveAvailable(t, left, c);
        GreedyPairs(t, i + 1, Remove(left, c));
        ConsPairs(t, i, left, c, Greedy(t, i + 1, Remove(left, c)));
      }
    }
  }

  lemma ConsPairs(t: Task, i: nat, left: seq<nat>, c: nat, g: seq<(nat, nat)>)
    requires i < |t.extracted| && Available(t, left) && c < |left| && Similar(t, (i, left[c]))
    requires PairsFrom(t, i + 1, Remove(left, c), g)
    requires Members(left) == {left[c]} + Members(Remove(left, c)) && left[c] !in Members(Remove(left, c))
    ensures PairsFrom(t, i, left, [(i, left[c])] + g)
  {
    var all := [(i, left[c])] + g;
    forall k | 0 <= k < |all| ensures i <= all[k].0 && all[k].1 in Members(left) && Similar(t, all[k]) {
      assert k > 0 ==> all[k] == g[k - 1];
    }
    forall k, l | 0 <= k < l < |all| ensures all[k].0 < all[l].0 && all[k].1 != all[l].1 {
      assert all[l] == g[l - 1] && (k > 0 ==> all[k] == g[k - 1]);
    }
  }

  /** No similar enough pair is left with both its sides free. */
  ghost predicate NoneLeft(t: Task, i: nat, left: seq<nat>, g: seq<(nat, nat)>) {
    forall p: (nat, nat) | i <= p.0 && p.1 in Members(left) && p.0 !in Lefts(g) && p.1 !in Rights(g) :: !Similar(t, p)
  }

  lemma ConsSides(p: (nat, nat), g: seq<(nat, nat)>)
    ensures Lefts([p] + g) == {p.0} + Lefts(g) && Rights([p] + g) == {p.1} + Rights(g)
  {
    var all := [p] + g;
    assert forall k | 0 <= k < |g| :: all[k + 1] == g[k];
    assert all[0] == p;
    forall x | x in Lefts(g) ensures x in Lefts(all) {
      var k :| 0 <= k < |g| && g[k].0 == x;
      assert all[k + 1].0 == x;
    }
    forall x | x in Rights(g) ensures x in Rights(all) {
      var k :| 0 <= k < |g| && g[k].1 == x;
      assert all[k + 1].1 == x;
    }
  }

  lemma {:induction false} GreedyIsMaximal(t: Task, i: nat, left: seq<nat>)
    requires i <= |t.extracted| && Available(t, left)
    ensures NoneLeft(t, i, left, Greedy(t, i, left))
    decreases |t.extracted| - i
  {
    if i < |t.extracted| {
      var c := Choice(t, t.extracted[i], left);
      ChoiceIsBest(t, t.extracted[i], left, c);
      if c == -1 {
        GreedyIsMaximal(t, i + 1, left);
      } else {
        RemoveAvailable(t, left, c);
        GreedyIsMaximal(t, i + 1, Remove(left, c));
        ConsSides((i, left[c]), Greedy(t, i + 1, Remove(left, c)));
      }
    }
  }

  lemma {:induction false} InjectionSize<T, U>(s: set<T>, t: set<U>, f: T -> U)
    requires forall x | x in s :: f(x) in t
    requires forall x, y | x in s && y in s && f(x) == f(y) :: x == y
    ensures |s| <= |t|
  {
    if s != {} {
      var x :| x in s;
      InjectionSize(s - {x}, t - {f(x)}, f);
    }
  }

  lemma {:induction false} SidesSize(g: seq<(nat, nat)>)
    ensures |Lefts(g)| <= |g| && |Rights(g)| <= |g|
  {
    if g != [] {
      SidesSize(g[1..]);
      ConsSides(g[0], g[1..]);
      assert g == [g[0]] + g[1..];
    }
  }

  lemma CoverSize(pairs: set<(nat, nat)>, a: set<nat>, b: set<nat>)
    requires forall p, q | p in pairs && q in pairs && (p.0 == q.0 || p.1 == q.1) :: p == q
    requires forall p | p in pairs :: p.0 in a || p.1 in b
    ensures |pairs| <= |a| + |b|
  {
    var byLeft, byRight := set p | p in pairs && p.0 in a, set p | p in pairs && p.1 in b;
    InjectionSize(byLeft, a, (p: (nat, nat)) => p.0);
    InjectionSize(byRight, b, (p: (nat, nat)) => p.1);
    assert pairs == byLeft + byRight;
  }

  /** No one-to-one matching above threshold, however chosen, has more than twice the pairs greedy finds. */
  lemma GreedyIsHalfOptimal(t: Task, pairs: set<(nat, nat)>)
    requires IsMatching(t, pairs)
    ensures |pairs| <= 2 * |Greedy(t, 0, Everything(t))|
  {
    var left := Everything(t);
    var g := Greedy(t, 0, left);
    GreedyIsMaximal(t, 0, left);
    forall p | p in pairs ensures p.0 in Lefts(g) || p.1 in Rights(g) {
      assert Similar(t, p) && left[p.1] == p.1;
      assert p.1 in Members(left);
    }
    CoverSize(pairs, Lefts(g), Rights(g));
    SidesSize(g);
  }

  ghost function AsSet(g: seq<(nat, nat)>): set<(nat, nat)> {
    set k | 0 <= k < |g| :: g[k]
  }

  lemma {:induction false} DistinctSize(g: seq<(nat, nat)>)
    requires forall k, l | 0 <= k < l < |g| :: g[k].0 < g[l].0
    ensures |AsSet(g)| == |g|
  {
    if g != [] {
      var n := |g| - 1;
      DistinctSize(g[..n]);
      assert AsSet(g) == AsSet(g[..n]) + {g[n]};
    }
  }

  /** The pairs greedy makes are themselves such a matching, with as many pairs as it reports. */
  lemma GreedyIsMatching(t: Task)
    ensures IsMatching(t, AsSet(Greedy(t, 0, Everything(t))))
    ensures |AsSet(Greedy(t, 0, Everything(t)))| == |Greedy(t, 0, Everything(t))|
  {
    GreedyPairs(t, 0, Everything(t));
    DistinctSize(Greedy(t, 0, Everything(t)));
  }

  // ----- The factor two is reached

  lemma {:induction false} SumOfOne(f: string -> real, x: string)
    ensures SetSum({x}, f) == f(x)
  {
    SetSumPick({x}, f, x);
    assert {x} - {x} == {};
  }

  lemma {:induction false} SumOfTwo(f: string -> real, x: string, y: string)
    requires x != y
    ensures SetSum({x, y}, f) == f(x) + f(y)
  {
    SetSumPick({x, y}, f, x);
    assert {x, y} - {x} == {y};
    SumOfOne(f, y);
  }

  lemma {:induction false} HalfRoot(u: real, v: real)
    requires u >= 0.0 && v >= 0.0 && Product(u, u) == 2.0 && Product(v, v) == 1.0
    ensures Product(u, v) > 0.0 && 1.0 / Product(u, v) >= 0.5
  {
    SquareOrder(v, 1.0);
    SquareOrder(1.0, v);
    SquareOrder(u, 2.0);
    assert Product(u, v) == u;
    assert 1.0 / u >= 0.5 by {
      assert 1.0 / u * u == 1.0;
    }
  }

  /** Two words, and one of them. */
  lemma {:induction false} OneOfTwo(x: string, y: string, sqrt: real -> real)
    requires IsSqrt(sqrt) && x != y
    ensures Similarity([x, y], [x], sqrt) >= 0.5
  {
    var a, b := multiset([x, y]), multiset([x]);
    assert Words(a) == {x, y} && Words(b) == {x} && Words(a) * Words(b) == {x};
    SumOfOne(ProductAt(a, b), x);
    SumOfTwo(ProductAt(a, a), x, y);
    SumOfOne(ProductAt(b, b), x);
    assert Dot(a, b) == 1.0 && SquaredNorm(a) == 2.0 && SquaredNorm(b) == 1.0;
    HalfRoot(sqrt(2.0), sqrt(1.0));
  }

  ghost function BagSimilarity(tokens: string -> seq<string>, sqrt: real -> real): (string, string) -> real
    requires IsSqrt(sqrt)
  {
    (a: string, b: string) => Similarity(tokens(a), tokens(b), sqrt)
  }

  ghost predicate Splits(tokens: string -> seq<string>) {
    tokens("a b") == ["a", "b"] && tokens("a") == ["a"] && tokens("b") == ["b"]
  }

  lemma {:induction false} Similarities(tokens: string -> seq<string>, sqrt: real -> real)
    requires IsSqrt(sqrt) && Splits(tokens)
    ensures var sim := BagSimilarity(tokens, sqrt);
            sim("a b", "a b") == 1.0 && 1.0 >= sim("a b", "b") >= 0.5 && sim("a", "a b") >= 0.5 && sim("a", "b") == 0.0
  {
    SameBagIsOne(["a", "b"], ["a", "b"], sqrt);
    SimilarityBounds(["a", "b"], ["b"], sqrt);
    OneOfTwo("b", "a", sqrt);
    assert multiset(["a", "b"]) == multiset(["b", "a"]);
    OneOfTwo("a", "b", sqrt);
    SimilaritySymmetric(["a", "b"], ["a"], sqrt);
    DisjointIsZero(["a"], ["b"], sqrt);
  }

  /** The factor two cannot be improved: taking the best pair first can cost one of two possible matches, here of "a
      b" and "a" to "a b" and "b". */
  lemma {:induction false} TwiceIsReached(tokens: string -> seq<string>, sqrt: real -> real)
    returns (t: Task, pairs: set<(nat, nat)>)
    requires IsSqrt(sqrt) && Splits(tokens)
    ensures t == Task(["a b", "a"], ["a b", "b"], 0.5, BagSimilarity(tokens, sqrt))
    ensures IsMatching(t, pairs) && |pairs| == 2 * |Greedy(t, 0, Everything(t))| == 2
  {
    t := Task(["a b", "a"], ["a b", "b"], 0.5, BagSimilarity(tokens, sqrt));
    pairs := Crossed();
    Similarities(tokens, sqrt);
    CrossedMatches(t);
    GreedyTakesOne(t);
  }

  function Crossed(): set<(nat, nat)> {
    {(0, 1), (1, 0)}
  }

  lemma {:induction false} CrossedMatches(t: Task)
    requires t.extracted == ["a b", "a"] && t.expected == ["a b", "b"] && t.threshold == 0.5
    requires t.sim("a b", "b") >= 0.5 && t.sim("a", "a b") >= 0.5
    ensures IsMatching(t, Crossed()) && |Crossed()| == 2
  {
    var first, second: (nat, nat) := (0, 1), (1, 0);
    assert Crossed() == {first, second} && first != second;
  }

  lemma {:induction false} GreedyTakesOne(t: Task)
    requires t.extracted == ["a b", "a"] && t.expected == ["a b", "b"] && t.threshold == 0.5
    requires t.sim("a b", "a b") == 1.0 >= t.sim("a b", "b") && t.sim("a", "b") == 0.0
    ensures |Greedy(t, 0, Everything(t))| == 1
  {
    assert Everything(t) == [0, 1];
    FirstChoice(t);
    SecondChoice(t);
    assert Remove([0, 1], 0) == [1];
    assert Greedy(t, 1, [1]) == Greedy(t, 2, [1]) == [];
    assert Greedy(t, 0, [0, 1]) == [(0, 0)] + Greedy(t, 1, [1]);
  }

  lemma {:induction false} FirstChoice(t: Task)
    requires t.expected == ["a b", "b"] && t.threshold == 0.5 && t.sim("a b", "a b") == 1.0 >= t.sim("a b", "b")
    ensures Choice(t, "a b", [0, 1]) == 0
  {
    assert Texts(t, [0, 1]) == ["a b", "b"];
    var b := BestAt("a b", ["a b", "b"], t.sim);
    assert t.sim("a b", ["a b", "b"][0]) <= t.sim("a b", ["a b", "b"][b]);
  }

  lemma {:induction false} SecondChoice(t: Task)
    requires t.expected == ["a b", "b"] && t.threshold == 0.5 && t.sim("a", "b") == 0.0
    ensures Choice(t, "a", [1]) == -1
  {
    assert Texts(t, [1]) == ["b"];
  }

  // ----- What greedy takes

  /** The first of the most similar expectations left. */
  ghost predicate BestOf(t: Task, ex: string, left: seq<nat>, c: nat) {
    && c < |left| && (forall k | 0 <= k < |left| :: t.sim(ex, TextAt(t, left[k])) <= t.sim(ex, TextAt(t, left[c])))
    && forall k | 0 <= k < c :: t.sim(ex, TextAt(t, left[k])) < t.sim(ex, TextAt(t, left[c]))
  }

  /** The pair is of an extraction and the best of what was left. */
  ghost predicate TakesBest(t: Task, pair: (nat, nat), left: seq<nat>) {
    exists c: nat :: pair.0 < |t.extracted| && BestOf(t, t.extracted[pair.0], left, c) && left[c] == pair.1
  }

  /** What is left for the k-th pair: everything but what earlier pairs took. */
  function LeftFor(pairs: seq<(nat, nat)>, left: seq<nat>, k: nat): seq<nat>
    requires k <= |pairs|
  {
    if k == 0 then left else Except(LeftFor(pairs, left, k - 1), pairs[k - 1].1)
  }

  function Except(s: seq<nat>, x: nat): seq<nat> {
    if s == [] then [] else if s[0] == x then s[1..] else [s[0]] + Except(s[1..], x)
  }

  ghost predicate Apart(s: seq<nat>) {
    forall i, j | 0 <= i < j < |s| :: s[i] != s[j]
  }

  lemma {:induction false} RemoveApart(s: seq<nat>, c: nat)
    requires c < |s| && Apart(s)
    ensures Apart(Remove(s, c))
  {
    forall i | 0 <= i < |s| - 1 ensures Remove(s, c)[i] == s[if i < c then i else i + 1] {
    }
  }

  lemma {:induction false} RemoveIsExcept(s: seq<nat>, c: nat)
    requires c < |s| && Apart(s)
    ensures Remove(s, c) == Except(s, s[c])
  {
    if c > 0 {
      assert s[1..][c - 1] == s[c];
      RemoveIsExcept(s[1..], c - 1);
      assert Remove(s, c) == [s[0]] + Remove(s[1..], c - 1);
    }
  }

  lemma {:induction false} LaterLeft(first: (nat, nat), pairs: seq<(nat, nat)>, left: seq<nat>, k: nat)
    requires k <= |pairs|
    ensures LeftFor([first] + pairs, left, k + 1) == LeftFor(pairs, Except(left, first.1), k)
  {
    if k > 0 {
      LaterLeft(first, pairs, left, k - 1);
      assert ([first] + pairs)[k] == pairs[k - 1];
    }
  }

  /** Every pair greedy makes takes the best that was left. */
  lemma {:induction false} EachTakesBest(t: Task, i: nat, left: seq<nat>, k: nat)
    requires i <= |t.extracted| && k < |Greedy(t, i, left)| && Apart(left)
    ensures TakesBest(t, Greedy(t, i, left)[k], LeftFor(Greedy(t, i, left), left, k))
    decreases |t.extracted| - i
  {
    var c := Choice(t, t.extracted[i], left);
    if c == -1 {
      assert Greedy(t, i, left) == Greedy(t, i + 1, left);
      EachTakesBest(t, i + 1, left, k);
    } else {
      var first, rest := (i, left[c]), Greedy(t, i + 1, Remove(left, c));
      assert Greedy(t, i, left) == [first] + rest;
      if k == 0 {
        FirstTakesBest(t, i, left, c);
      } else {
        RemoveIsExcept(left, c);
        RemoveApart(left, c);
        EachTakesBest(t, i + 1, Remove(left, c), k - 1);
        LaterTakesBest(t, first, rest, left, k - 1);
      }
    }
  }

  lemma {:induction false} LaterTakesBest(t: Task, first: (nat, nat), pairs: seq<(nat, nat)>, left: seq<nat>, k: nat)
    requires k < |pairs| && TakesBest(t, pairs[k], LeftFor(pairs, Except(left, first.1), k))
    ensures TakesBest(t, ([first] + pairs)[k + 1], LeftFor([first] + pairs, left, k + 1))
  {
    LaterLeft(first, pairs, left, k);
  }

  lemma {:induction false} FirstTakesBest(t: Task, i: nat, left: seq<nat>, c: nat)
    requires i < |t.extracted| && c < |left| && c == Choice(t, t.extracted[i], left)
    ensures TakesBest(t, (i, left[c]), left)
  {
    var texts := Texts(t, left);
    assert c == BestAt(t.extracted[i], texts, t.sim);
    assert forall j | 0 <= j < |left| :: texts[j] == TextAt(t, left[j]);
  }
}
