/** Sums over finite sets, whatever order they are taken in. */
module SetSums {

  ghost function SetSum<T>(s: set<T>, f: T -> real): real {
    if s == {} then 0.0 else
    var x :| x in s;
    f(x) + SetSum(s - {x}, f)
  }

  lemma {:induction false} SetSumPick<T>(s: set<T>, f: T -> real, y: T)
    requires y in s
    ensures SetSum(s, f) == f(y) + SetSum(s - {y}, f)
    decreases |s|
  {
    var x :| x in s && SetSum(s, f) == f(x) + SetSum(s - {x}, f);
    if x != y {
      SetSumPick(s - {x}, f, y);
      SetSumPick(s - {y}, f, x);
      assert s - {x} - {y} == s - {y} - {x};
    }
  }

  lemma {:induction false} SetSumUnion<T>(a: set<T>, b: set<T>, f: T -> real)
    requires a !! b
    ensures SetSum(a + b, f) == SetSum(a, f) + SetSum(b, f)
    decreases |a|
  {
    if a == {} {
      assert a + b == b;
    } else {
      var x :| x in a;
      SetSumPick(a, f, x);
      SetSumPick(a + b, f, x);
      assert a + b - {x} == (a - {x}) + b;
      SetSumUnion(a - {x}, b, f);
    }
  }

  lemma {:induction false} SetSumBijection<T, U>(s: set<T>, t: set<U>, h: T -> U, k: U -> T, f: U -> real, g: T -> real)
    requires forall x | x in s :: h(x) in t && k(h(x)) == x && g(x) == f(h(x))
    requires forall y | y in t :: k(y) in s && h(k(y)) == y
    ensures SetSum(t, f) == SetSum(s, g)
    decreases |s|
  {
    if s == {} {
      assert t == {};
    } else {
      var x :| x in s;
      SetSumPick(s, g, x);
      SetSumPick(t, f, h(x));
      SetSumBijection(s - {x}, t - {h(x)}, h, k, f, g);
    }
  }

  lemma {:induction false} SumsAgree<T>(s: set<T>, f: T -> real, g: T -> real)
    requires forall x | x in s :: f(x) == g(x)
    ensures SetSum(s, f) == SetSum(s, g)
    decreases |s|
  {
    if s != {} {
      var x :| x in s;
      SetSumPick(s, f, x);
      SetSumPick(s, g, x);
      SumsAgree(s - {x}, f, g);
    }
  }

  ghost function Image<S, T>(s: set<S>, h: S -> T): set<T> {
    set x | x in s :: h(x)
  }

  lemma {:induction false} ImageGrows<S, T>(s: set<S>, h: S -> T, x: S)
    requires x in s && forall y | y in s && y != x :: h(y) != h(x)
    ensures Image(s, h) == Image(s - {x}, h) + {h(x)} && h(x) !in Image(s - {x}, h)
  {
  }

  /** A sum taken through a one-to-one listing is the sum over what is listed. */
  lemma {:induction false} SumOfImage<S, T>(s: set<S>, h: S -> T, f: T -> real, g: S -> real)
    requires forall x | x in s :: g(x) == f(h(x))
    requires forall x, y | x in s && y in s && h(x) == h(y) :: x == y
    ensures SetSum(Image(s, h), f) == SetSum(s, g)
    ensures |Image(s, h)| == |s|
    decreases |s|
  {
    if s != {} {
      var x :| x in s;
      SumOfImage(s - {x}, h, f, g);
      ImageGrows(s, h, x);
      SetSumPick(s, g, x);
      SetSumPick(Image(s, h), f, h(x));
      assert Image(s, h) - {h(x)} == Image(s - {x}, h);
    }
  }

  /** No part is larger than the whole, and only the whole is as large. */
  lemma {:induction false} SubsetSize<T>(a: set<T>, b: set<T>)
    requires a <= b
    ensures |a| <= |b| && (|a| == |b| <==> a == b)
  {
    assert a + (b - a) == b;
  }
}
