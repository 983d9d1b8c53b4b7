/** A stable sort, standing for Python's `sorted` and `list.sort`: what they promise is a
    permutation, in order, in which items that compare equal keep their input order. */
module Sorting {

  /** The order of strings, character by character. */
  predicate StringLe(a: string, b: string) {
    a == [] || (b != [] && (a[0] < b[0] || (a[0] == b[0] && StringLe(a[1..], b[1..]))))
  }

  /** `s[:k]`. */
  function Take<T>(s: seq<T>, k: nat): seq<T> {
    if k <= |s| then s[..k] else s
  }

  /** `le` compares every pair and is transitive: what a Python sort key gives. */
  ghost predicate TotalPreorder<T(!new)>(le: (T, T) -> bool) {
    && (forall x, y :: le(x, y) || le(y, x))
    && (forall x, y, z :: le(x, y) && le(y, z) ==> le(x, z))
  }

  ghost predicate SortedBy<T>(le: (T, T) -> bool, s: seq<T>) {
    forall i, j | 0 <= i < j < |s| :: le(s[i], s[j])
  }

  function Insert<T>(x: T, s: seq<T>, le: (T, T) -> bool): seq<T> {
    if s == [] || le(x, s[0]) then [x] + s else [s[0]] + Insert(x, s[1..], le)
  }

  function Sort<T>(s: seq<T>, le: (T, T) -> bool): seq<T> {
    if s == [] then [] else Insert(s[0], Sort(s[1..], le), le)
  }

  function Filter<T>(s: seq<T>, p: T -> bool): seq<T> {
    if s == [] then [] else (if p(s[0]) then [s[0]] else []) + Filter(s[1..], p)
  }

  lemma {:induction false} InsertIsPermutation<T>(x: T, s: seq<T>, le: (T, T) -> bool)
    ensures multiset(Insert(x, s, le)) == multiset{x} + multiset(s)
  {
    if s == [] || le(x, s[0]) {
    } else {
      InsertIsPermutation(x, s[1..], le);
      assert s == [s[0]] + s[1..];
    }
  }

  lemma {:induction false} SortIsPermutation<T>(s: seq<T>, le: (T, T) -> bool)
    ensures multiset(Sort(s, le)) == multiset(s)
    ensures |Sort(s, le)| == |s|
  {
    if s != [] {
      SortIsPermutation(s[1..], le);
      InsertIsPermutation(s[0], Sort(s[1..], le), le);
      assert s == [s[0]] + s[1..];
    }
    assert |multiset(Sort(s, le))| == |multiset(s)|;
  }

  lemma {:induction false} InsertIsSorted<T(!new)>(x: T, s: seq<T>, le: (T, T) -> bool)
    requires TotalPreorder(le) && SortedBy(le, s)
    ensures SortedBy(le, Insert(x, s, le))
  {
    if s == [] || le(x, s[0]) {
    } else {
      var r := Insert(x, s[1..], le);
      InsertIsSorted(x, s[1..], le);
      InsertIsPermutation(x, s[1..], le);
      forall j | 0 <= j < |r| ensures le(s[0], r[j]) {
        assert r[j] in multiset(r);
      }
    }
  }

  lemma {:induction false} SortIsSorted<T(!new)>(s: seq<T>, le: (T, T) -> bool)
    requires TotalPreorder(le)
    ensures SortedBy(le, Sort(s, le))
  {
    if s != [] {
      SortIsSorted(s[1..], le);
      InsertIsSorted(s[0], Sort(s[1..], le), le);
    }
  }

  ghost predicate Antisymmetric<T(!new)>(le: (T, T) -> bool) {
    forall x, y :: le(x, y) && le(y, x) ==> x == y
  }

  /** Two sorted arrangements of the same items are the same when only equal items tie. */
  lemma {:induction false} SortedIsUnique<T(!new)>(a: seq<T>, b: seq<T>, le: (T, T) -> bool)
    requires TotalPreorder(le) && Antisymmetric(le)
    requires SortedBy(le, a) && SortedBy(le, b) && multiset(a) == multiset(b)
    ensures a == b
  {
    assert |a| == |multiset(a)| == |multiset(b)| == |b|;
    if a != [] {
      HeadIsLeast(a, b, le);
      HeadIsLeast(b, a, le);
      assert a[0] == b[0];
      TailsAgree(a, b);
      SortedIsUnique(a[1..], b[1..], le);
      assert a == [a[0]] + a[1..] && b == [b[0]] + b[1..];
    }
  }

  lemma HeadIsLeast<T(!new)>(a: seq<T>, b: seq<T>, le: (T, T) -> bool)
    requires TotalPreorder(le) && SortedBy(le, a)
    requires multiset(a) == multiset(b) && a != [] && b != []
    ensures le(a[0], b[0])
  {
    assert b[0] in multiset(b);
    assert b[0] in multiset(a);
    var i :| 0 <= i < |a| && a[i] == b[0];
    assert le(a[0], a[i]);
  }

  lemma TailsAgree<T>(a: seq<T>, b: seq<T>)
    requires multiset(a) == multiset(b) && a != [] && b != [] && a[0] == b[0]
    ensures multiset(a[1..]) == multiset(b[1..])
  {
    assert a == [a[0]] + a[1..] && b == [b[0]] + b[1..];
    assert multiset(a) == multiset{a[0]} + multiset(a[1..]);
    assert multiset(b) == multiset{b[0]} + multiset(b[1..]);
    assert multiset(a[1..]) == multiset(a) - multiset{a[0]};
    assert multiset(b[1..]) == multiset(b) - multiset{b[0]};
  }

  lemma RemoveOne<T>(s: seq<T>, i: nat)
    requires i < |s|
    ensures multiset(s[..i] + s[i + 1..]) == multiset(s) - multiset{s[i]}
  {
    assert s == s[..i] + [s[i]] + s[i + 1..];
  }

  /** A permutation of a nonempty sequence holds its head somewhere; dropping both leaves a permutation. */
  lemma DropHead<T>(a: seq<T>, b: seq<T>) returns (i: nat)
    requires multiset(a) == multiset(b) && a != []
    ensures |a| == |b| && i < |b| && b[i] == a[0]
    ensures multiset(a[1..]) == multiset(b[..i] + b[i + 1..])
  {
    assert |a| == |multiset(a)| == |multiset(b)| == |b|;
    assert a[0] in multiset(b);
    i :| 0 <= i < |b| && b[i] == a[0];
    assert a == [a[0]] + a[1..];
    RemoveOne(b, i);
  }

  /** Items that all differ in some key still do when rearranged. */
  lemma {:induction false} ApartPermutes<T, K>(a: seq<T>, b: seq<T>, key: T -> K)
    requires multiset(b) == multiset(a)
    requires forall i, j | 0 <= i < j < |a| :: key(a[i]) != key(a[j])
    ensures forall i, j | 0 <= i < j < |b| :: key(b[i]) != key(b[j])
  {
    if b != [] {
      var i := DropHead(b, a);
      var rest := a[..i] + a[i + 1..];
      ApartPermutes(rest, b[1..], key);
      forall j | 0 <= j < |b[1..]| ensures key(b[1..][j]) != key(b[0]) {
        assert b[1..][j] in multiset(rest);
        var k :| 0 <= k < |rest| && rest[k] == b[1..][j];
        assert if k < i then key(a[k]) != key(a[i]) else key(a[i]) != key(a[k + 1]);
      }
    }
  }

  lemma {:induction false} StringTotal(a: string, b: string)
    ensures StringLe(a, b) || StringLe(b, a)
    ensures StringLe(a, b) && StringLe(b, a) ==> a == b
  {
    if a != [] && b != [] && a[0] == b[0] {
      StringTotal(a[1..], b[1..]);
      assert a == [a[0]] + a[1..] && b == [b[0]] + b[1..];
    }
  }

  lemma {:induction false} StringTransitive(a: string, b: string, c: string)
    requires StringLe(a, b) && StringLe(b, c)
    ensures StringLe(a, c)
  {
    if a != [] && a[0] == b[0] && b[0] == c[0] {
      StringTransitive(a[1..], b[1..], c[1..]);
    }
  }

  lemma {:induction false} StringOrder()
    ensures forall a, b :: StringLe(a, b) || StringLe(b, a)
    ensures forall a, b :: StringLe(a, b) && StringLe(b, a) ==> a == b
    ensures forall a, b, c :: StringLe(a, b) && StringLe(b, c) ==> StringLe(a, c)
  {
    forall a, b ensures (StringLe(a, b) || StringLe(b, a)) && (StringLe(a, b) && StringLe(b, a) ==> a == b) {
      StringTotal(a, b);
    }
    forall a, b, c | StringLe(a, b) && StringLe(b, c) ensures StringLe(a, c) {
      StringTransitive(a, b, c);
    }
  }

  lemma {:induction false} FilterTogether<T>(a: seq<T>, b: seq<T>, p: T -> bool)
    ensures Filter(a + b, p) == Filter(a, p) + Filter(b, p)
  {
    if a == [] {
      assert a + b == b;
      assert Filter(a, p) + Filter(b, p) == Filter(b, p);
    } else {
      var first := if p(a[0]) then [a[0]] else [];
      assert (a + b)[0] == a[0] && (a + b)[1..] == a[1..] + b;
      FilterTogether(a[1..], b, p);
      assert first + (Filter(a[1..], p) + Filter(b, p)) == (first + Filter(a[1..], p)) + Filter(b, p);
    }
  }

  lemma {:induction false} FilterFirst<T>(s: seq<T>, p: T -> bool)
    requires s != []
    ensures Filter(s, p) == if p(s[0]) then [s[0]] + Filter(s[1..], p) else Filter(s[1..], p)
  {
    assert [] + Filter(s[1..], p) == Filter(s[1..], p);
  }

  lemma {:induction false} FilterLast<T>(s: seq<T>, p: T -> bool)
    requires s != []
    ensures Filter(s, p) == Filter(s[..|s| - 1], p) + if p(s[|s| - 1]) then [s[|s| - 1]] else []
  {
    var front, last := s[..|s| - 1], [s[|s| - 1]];
    assert s == front + last;
    FilterTogether(front, last, p);
    assert last[1..] == [];
  }

  lemma {:induction false} FilterKeeps<T>(s: seq<T>, p: T -> bool)
    ensures forall x :: x in Filter(s, p) <==> x in s && p(x)
  {
    if s != [] {
      FilterKeeps(s[1..], p);
      assert s == [s[0]] + s[1..];
    }
  }

  lemma {:induction false} InsertBeforeAll<T(!new)>(x: T, s: seq<T>, le: (T, T) -> bool)
    requires forall y | y in s :: le(x, y)
    ensures Insert(x, s, le) == [x] + s
  {
  }

  lemma {:induction false} FilterInsert<T(!new)>(x: T, s: seq<T>, le: (T, T) -> bool, p: T -> bool)
    requires TotalPreorder(le) && SortedBy(le, s)
    ensures Filter(Insert(x, s, le), p) == if p(x) then Insert(x, Filter(s, p), le) else Filter(s, p)
  {
    if s == [] || le(x, s[0]) {
      assert ([x] + s)[1..] == s;
      FilterKeeps(s, p);
      InsertBeforeAll(x, Filter(s, p), le);
    } else {
      assert ([s[0]] + Insert(x, s[1..], le))[1..] == Insert(x, s[1..], le);
      FilterInsert(x, s[1..], le, p);
      assert p(s[0]) ==> ([s[0]] + Filter(s[1..], p))[1..] == Filter(s[1..], p);
      if p(x) && !p(s[0]) {
        assert Filter(s, p) == Filter(s[1..], p);
      }
    }
  }

  /** Sorting and then leaving some items out is leaving them out and then sorting. */
  lemma {:induction false} FilterSort<T(!new)>(s: seq<T>, le: (T, T) -> bool, p: T -> bool)
    requires TotalPreorder(le)
    ensures Filter(Sort(s, le), p) == Sort(Filter(s, p), le)
  {
    if s != [] {
      FilterSort(s[1..], le, p);
      SortIsSorted(s[1..], le);
      FilterInsert(s[0], Sort(s[1..], le), le, p);
      FilterFirst(s, p);
      assert p(s[0]) ==> ([s[0]] + Filter(s[1..], p))[1..] == Filter(s[1..], p);
    }
  }

  // ----- Ties

  /** The elements that come neither before nor after x. */
  function LevelWith<T>(x: T, le: (T, T) -> bool): T -> bool {
    (y: T) => le(x, y) && le(y, x)
  }

  lemma {:induction false} SortLevel<T(!new)>(s: seq<T>, le: (T, T) -> bool)
    requires forall i, j | 0 <= i < |s| && 0 <= j < |s| :: le(s[i], s[j])
    ensures Sort(s, le) == s
  {
    if s != [] {
      SortLevel(s[1..], le);
      forall y | y in s[1..] ensures le(s[0], y) {
        var k :| 0 <= k < |s[1..]| && s[1..][k] == y;
        assert s[k + 1] == y;
      }
      InsertBeforeAll(s[0], s[1..], le);
    }
  }

  /** Elements on one level come out of a sort in the order in which they went in. */
  lemma {:induction false} SortIsStable<T(!new)>(s: seq<T>, le: (T, T) -> bool, x: T)
    requires TotalPreorder(le)
    ensures Filter(Sort(s, le), LevelWith(x, le)) == Filter(s, LevelWith(x, le))
  {
    var level := Filter(s, LevelWith(x, le));
    FilterSort(s, le, LevelWith(x, le));
    FilterKeeps(s, LevelWith(x, le));
    forall i, j | 0 <= i < |level| && 0 <= j < |level| ensures le(level[i], level[j]) {
      assert level[i] in level && level[j] in level;
    }
    SortLevel(level, le);
  }

  /** The order of names is that of the dictionary: by the first letter in which they differ, a prefix before what it
      begins. */
  lemma {:induction false} StringLeIsLexicographic(a: string, b: string)
    ensures StringLe(a, b)
            <==> a <= b || exists k :: 0 <= k < |a| && k < |b| && a[..k] == b[..k] && a[k] < b[k]
  {
    if a != [] && b != [] {
      if a[0] == b[0] {
        StringLeIsLexicographic(a[1..], b[1..]);
        SameStart(a, b);
      } else {
        assert a[..0] == b[..0];
        forall k | 0 < k < |a| && k < |b| ensures a[..k] != b[..k] {
          assert a[..k][0] != b[..k][0];
        }
      }
    }
  }

  lemma {:induction false} SameStart(a: string, b: string)
    requires a != [] && b != [] && a[0] == b[0]
    ensures a <= b <==> a[1..] <= b[1..]
    ensures (exists k :: 0 <= k < |a| && k < |b| && a[..k] == b[..k] && a[k] < b[k])
            <==> exists k :: 0 <= k < |a[1..]| && k < |b[1..]| && a[1..][..k] == b[1..][..k] && a[1..][k] < b[1..][k]
  {
    if k :| 0 <= k < |a| && k < |b| && a[..k] == b[..k] && a[k] < b[k] {
      assert a[1..][..k - 1] == a[..k][1..] && b[1..][..k - 1] == b[..k][1..];
      assert a[1..][k - 1] < b[1..][k - 1];
    }
    if k :| 0 <= k < |a[1..]| && k < |b[1..]| && a[1..][..k] == b[1..][..k] && a[1..][k] < b[1..][k] {
      assert a[..k + 1] == [a[0]] + a[1..][..k] && b[..k + 1] == [b[0]] + b[1..][..k];
      assert a[k + 1] < b[k + 1];
    }
  }
}
