/** Bag-of-words cosine similarity. */
module Cosine {
  import opened SetSums
  import opened Reals

  type Bag = multiset<string>

  function Words(b: Bag): set<string> {
    set w | w in b
  }

  function Count(b: Bag, w: string): real {
    b[w] as real
  }

  function ProductAt(a: Bag, b: Bag): string -> real {
    (w: string) => Product(Count(a, w), Count(b, w))
  }

  /** Sum over the shared words of the products of their counts. */
  ghost function Dot(a: Bag, b: Bag): real {
    SetSum(Words(a) * Words(b), ProductAt(a, b))
  }

  ghost function SquaredNorm(a: Bag): real {
    SetSum(Words(a), ProductAt(a, a))
  }

  ghost predicate IsSqrt(sqrt: real -> real) {
    forall x | x >= 0.0 :: sqrt(x) >= 0.0 && Product(sqrt(x), sqrt(x)) == x
  }

  /** What `bow_cosine` returns for two token lists. */
  ghost function Similarity(ta: seq<string>, tb: seq<string>, sqrt: real -> real): real
    requires IsSqrt(sqrt)
  {
    var a, b := multiset(ta), multiset(tb);
    var norms := Product(sqrt(SquaredNorm(a)), sqrt(SquaredNorm(b)));
    if ta == [] || tb == [] || norms == 0.0 then 0.0 else Dot(a, b) / norms
  }

  // ----- Sums over more words than needed

  lemma {:induction false} SumOfZeros(s: set<string>, f: string -> real)
    requires forall w | w in s :: f(w) == 0.0
    ensures SetSum(s, f) == 0.0
    decreases |s|
  {
    if s != {} {
      var w :| w in s;
      SetSumPick(s, f, w);
      SumOfZeros(s - {w}, f);
    }
  }

  lemma ZeroProduct(x: real, y: real)
    requires x == 0.0 || y == 0.0
    ensures Product(x, y) == 0.0
  {
  }

  /** Words missing from either bag add nothing. */
  lemma WidenSum(a: Bag, b: Bag, all: set<string>)
    requires Words(a) * Words(b) <= all
    ensures SetSum(all, ProductAt(a, b)) == Dot(a, b)
  {
    var shared := Words(a) * Words(b);
    var f := ProductAt(a, b);
    forall w | w in all - shared ensures f(w) == 0.0 {
      ZeroProduct(Count(a, w), Count(b, w));
    }
    SumOfZeros(all - shared, f);
    SetSumUnion(shared, all - shared, f);
    assert shared + (all - shared) == all;
  }

  // ----- Cauchy-Schwarz

  ghost predicate Schwarz(s: real, a: real, b: real) {
    a >= 0.0 && b >= 0.0 && s >= 0.0 && Product(s, s) <= Product(a, b)
  }

  /** From s^2 <= ab, twice the cross term fits in a*y^2 + b*x^2. */
  lemma CrossTerm(s: real, a: real, b: real, x: real, y: real, p: real, q: real)
    requires a >= 0.0 && b >= 0.0 && s >= 0.0 && x >= 0.0 && y >= 0.0 && s * s <= a * b
    requires p == a * (y * y) && q == b * (x * x)
    ensures 2.0 * (s * x * y) <= p + q
  {
    var c := s * x * y;
    assert x * x >= 0.0 && y * y >= 0.0 && (x * x) * (y * y) >= 0.0;
    assert c * c == (s * s) * ((x * x) * (y * y));
    Scale(s * s, a * b, (x * x) * (y * y));
    assert p * q == (a * b) * ((x * x) * (y * y));
    assert p >= 0.0 && q >= 0.0 && c >= 0.0;
    MeanInequality(c, p, q);
  }

  lemma MeanInequality(c: real, p: real, q: real)
    requires c >= 0.0 && p >= 0.0 && q >= 0.0 && c * c <= p * q
    ensures 2.0 * c <= p + q
  {
    assert (p - q) * (p - q) >= 0.0;
    assert (p + q) * (p + q) >= 4.0 * (p * q) >= (2.0 * c) * (2.0 * c);
    SquareOrder(2.0 * c, p + q);
  }

  lemma SquareOrder(x: real, y: real)
    requires x >= 0.0 && y >= 0.0
    ensures x > y ==> x * x > y * y
  {
    var d := x - y;
    assert x * x == y * y + 2.0 * (d * y) + d * d;
    assert d > 0.0 ==> d * d > 0.0 && d * y >= 0.0;
  }

  lemma SchwarzStep(s: real, a: real, b: real, x: real, y: real)
    requires Schwarz(s, a, b) && x >= 0.0 && y >= 0.0
    ensures Schwarz(s + Product(x, y), a + Product(x, x), b + Product(y, y))
  {
    var p, q := a * (y * y), b * (x * x);
    CrossTerm(s, a, b, x, y, p, q);
    assert (s + x * y) * (s + x * y) == s * s + 2.0 * (s * x * y) + (x * y) * (x * y);
    assert (a + x * x) * (b + y * y) == a * b + p + q + (x * x) * (y * y);
    assert (x * y) * (x * y) == (x * x) * (y * y);
  }

  lemma SchwarzAdd(s: real, a: real, b: real, x: real, y: real, s': real, a': real, b': real)
    requires Schwarz(s, a, b) && x >= 0.0 && y >= 0.0
    requires s' == s + Product(x, y) && a' == a + Product(x, x) && b' == b + Product(y, y)
    ensures Schwarz(s', a', b')
  {
    SchwarzStep(s, a, b, x, y);
  }

  lemma {:induction false} SchwarzOver(all: set<string>, a: Bag, b: Bag, s: real, aa: real, bb: real)
    requires s == SetSum(all, ProductAt(a, b)) && aa == SetSum(all, ProductAt(a, a))
             && bb == SetSum(all, ProductAt(b, b))
    ensures Schwarz(s, aa, bb)
    decreases |all|
  {
    if all == {} {
      SchwarzZero();
    } else {
      var w :| w in all;
      SetSumPick(all, ProductAt(a, b), w);
      SetSumPick(all, ProductAt(a, a), w);
      SetSumPick(all, ProductAt(b, b), w);
      var x, y := Count(a, w), Count(b, w);
      var s', a', b' := s - Product(x, y), aa - Product(x, x), bb - Product(y, y);
      SchwarzOver(all - {w}, a, b, s', a', b');
      SchwarzAdd(s', a', b', x, y, s, aa, bb);
    }
  }

  lemma SchwarzZero()
    ensures Schwarz(0.0, 0.0, 0.0)
  {
  }

  /** The squared dot product over shared words is at most the product of the squared norms. */
  lemma CauchySchwarz(a: Bag, b: Bag)
    ensures Schwarz(Dot(a, b), SquaredNorm(a), SquaredNorm(b))
  {
    var all := Words(a) + Words(b);
    SchwarzOver(all, a, b, SetSum(all, ProductAt(a, b)), SetSum(all, ProductAt(a, a)), SetSum(all, ProductAt(b, b)));
    WidenSum(a, b, all);
    WidenSum(a, a, all);
    WidenSum(b, b, all);
    assert Words(a) * Words(a) == Words(a) && Words(b) * Words(b) == Words(b);
  }

  // ----- Bounds, symmetry, identity

  lemma RootBound(d: real, u: real, v: real)
    requires d >= 0.0 && u >= 0.0 && v >= 0.0
    requires Product(d, d) <= Product(Product(u, u), Product(v, v)) && Product(u, v) != 0.0
    ensures Product(u, v) > 0.0 && 0.0 <= d / Product(u, v) <= 1.0
  {
    var n := u * v;
    assert n >= 0.0 && (u * u) * (v * v) == n * n;
    SquareOrder(d, n);
  }

  lemma SimilarityBounds(ta: seq<string>, tb: seq<string>, sqrt: real -> real)
    requires IsSqrt(sqrt)
    ensures 0.0 <= Similarity(ta, tb, sqrt) <= 1.0
  {
    var a, b := multiset(ta), multiset(tb);
    CauchySchwarz(a, b);
    var u, v := sqrt(SquaredNorm(a)), sqrt(SquaredNorm(b));
    if Product(u, v) != 0.0 {
      RootBound(Dot(a, b), u, v);
    }
  }

  lemma ProductCommutes(x: real, y: real)
    ensures Product(x, y) == Product(y, x)
  {
  }

  lemma SimilaritySymmetric(ta: seq<string>, tb: seq<string>, sqrt: real -> real)
    requires IsSqrt(sqrt)
    ensures Similarity(ta, tb, sqrt) == Similarity(tb, ta, sqrt)
  {
    var a, b := multiset(ta), multiset(tb);
    forall w | w in Words(a) * Words(b) ensures ProductAt(a, b)(w) == ProductAt(b, a)(w) {
      ProductCommutes(Count(a, w), Count(b, w));
    }
    SumsAgree(Words(a) * Words(b), ProductAt(a, b), ProductAt(b, a));
    assert Words(a) * Words(b) == Words(b) * Words(a);
    ProductCommutes(sqrt(SquaredNorm(a)), sqrt(SquaredNorm(b)));
  }

  lemma NormIsPositive(a: Bag, w: string)
    requires w in a
    ensures SquaredNorm(a) >= 1.0
  {
    SetSumPick(Words(a), ProductAt(a, a), w);
    var rest := SetSum(Words(a) - {w}, ProductAt(a, a));
    SchwarzOver(Words(a) - {w}, a, a, rest, rest, rest);
    AtLeastOne(Count(a, w));
  }

  lemma AtLeastOne(x: real)
    requires x >= 1.0
    ensures Product(x, x) >= 1.0
  {
  }

  /** Token lists with the same words in the same numbers, in any order, are exactly similar. */
  lemma SameBagIsOne(ta: seq<string>, tb: seq<string>, sqrt: real -> real)
    requires IsSqrt(sqrt) && ta != [] && multiset(ta) == multiset(tb)
    ensures Similarity(ta, tb, sqrt) == 1.0
  {
    var a := multiset(ta);
    NormIsPositive(a, ta[0]);
    assert |ta| == |a| == |tb|;
    assert Words(a) * Words(a) == Words(a);
    assert sqrt(SquaredNorm(a)) >= 0.0;
  }

  /** Lists with no word in common score 0. */
  lemma DisjointIsZero(ta: seq<string>, tb: seq<string>, sqrt: real -> real)
    requires IsSqrt(sqrt) && forall w | w in ta :: w !in tb
    ensures Similarity(ta, tb, sqrt) == 0.0
  {
    var shared := Words(multiset(ta)) * Words(multiset(tb));
    assert forall w | w in shared :: w in ta && w in tb;
    assert shared == {};
  }

  // ----- The computation over counters

  /** `Counter(tokens)`: the words in first-seen order, and their counts. */
  method Counter(tokens: seq<string>) returns (counts: map<string, nat>, keys: seq<string>)
    ensures counts.Keys == Words(multiset(tokens)) == set i | 0 <= i < |keys| :: keys[i]
    ensures forall w | w in counts :: counts[w] == multiset(tokens)[w]
    ensures forall i, j | 0 <= i < j < |keys| :: keys[i] != keys[j]
  {
    counts, keys := map[], [];
    for k := 0 to |tokens|
      invariant counts.Keys == Words(multiset(tokens[..k])) == set i | 0 <= i < |keys| :: keys[i]
      invariant forall w | w in counts :: counts[w] == multiset(tokens[..k])[w]
      invariant forall i, j | 0 <= i < j < |keys| :: keys[i] != keys[j]
    {
      var w := tokens[k];
      assert tokens[..k + 1] == tokens[..k] + [w];
      if w !in counts {
        ghost var before := keys;
        keys := keys + [w];
        assert (set i | 0 <= i < |keys| :: keys[i]) == (set i | 0 <= i < |before| :: before[i]) + {w} by {
          assert forall i | 0 <= i < |before| :: keys[i] == before[i];
          assert keys[|before|] == w;
        }
      }
      counts := counts[w := (if w in counts then counts[w] else 0) + 1];
    }
    assert tokens[..|tokens|] == tokens;
  }

  /** One generator sum of the source: products of counts over the words both counters have. */
  method SumProducts(ghost a: Bag, ghost b: Bag, ca: map<string, nat>, keys: seq<string>, cb: map<string, nat>)
    returns (sum: real)
    requires ca.Keys == Words(a) == set i | 0 <= i < |keys| :: keys[i]
    requires cb.Keys == Words(b)
    requires forall w | w in ca :: ca[w] == a[w]
    requires forall w | w in cb :: cb[w] == b[w]
    requires forall i, j | 0 <= i < j < |keys| :: keys[i] != keys[j]
    ensures sum == Dot(a, b)
  {
    sum := 0.0;
    ghost var seen: set<string> := {};
    for k := 0 to |keys|
      invariant seen == set i | 0 <= i < k :: keys[i]
      invariant sum == SetSum(seen * Words(b), ProductAt(a, b))
    {
      var w := keys[k];
      assert w in ca && w !in seen;
      if w in cb {
        sum := sum + Product(ca[w] as real, cb[w] as real);
        SetSumPick((seen + {w}) * Words(b), ProductAt(a, b), w);
        assert (seen + {w}) * Words(b) - {w} == seen * Words(b);
      } else {
        assert (seen + {w}) * Words(b) == seen * Words(b);
      }
      seen := seen + {w};
    }
  }

  /** `bow_cosine` on tokens. */
  method BowCosine(ta: seq<string>, tb: seq<string>, sqrt: real -> real) returns (similarity: real)
    requires IsSqrt(sqrt)
    ensures similarity == Similarity(ta, tb, sqrt)
  {
    if ta == [] || tb == [] {
      return 0.0;
    }
    var ca, ka := Counter(ta);
    var cb, kb := Counter(tb);
    ghost var a, b := multiset(ta), multiset(tb);
    assert Words(a) * Words(a) == Words(a) && Words(b) * Words(b) == Words(b);
    var dot := SumProducts(a, b, ca, ka, cb);
    var squaresA := SumProducts(a, a, ca, ka, ca);
    var squaresB := SumProducts(b, b, cb, kb, cb);
    var na, nb := sqrt(squaresA), sqrt(squaresB);
    RootsVanish(na, nb);
    if na == 0.0 || nb == 0.0 {
      return 0.0;
    }
    similarity := dot / Product(na, nb);
  }

  lemma RootsVanish(u: real, v: real)
    ensures Product(u, v) == 0.0 <==> u == 0.0 || v == 0.0
  {
    if u != 0.0 && v != 0.0 {
      assert u * v / v == u;
    }
  }
}
