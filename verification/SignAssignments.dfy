/** The 2^n equally likely sign assignments of the signed-rank test, and how many reach each rank sum. */
module SignAssignments {
  import opened SetSums
  import opened Reals

  function Pow2(n: nat): (p: nat)
    ensures p >= 1
  {
    if n == 0 then 1 else 2 * Pow2(n - 1)
  }

  function Extend(front: set<seq<bool>>, b: bool): set<seq<bool>> {
    set a | a in front :: a + [b]
  }

  /** Every way of giving n ranks a sign; true is plus. */
  function Assignments(n: nat): set<seq<bool>> {
    if n == 0 then {[]} else Extend(Assignments(n - 1), false) + Extend(Assignments(n - 1), true)
  }

  /** The statistic W+: the sum of the ranks signed plus. */
  function WPlus(ranks: seq<real>, a: seq<bool>): real
    requires |ranks| == |a|
  {
    if a == [] then 0.0 else
    var n := |a| - 1;
    WPlus(ranks[..n], a[..n]) + if a[n] then ranks[n] else 0.0
  }

  function WMinus(ranks: seq<real>, a: seq<bool>): real
    requires |ranks| == |a|
  {
    if a == [] then 0.0 else
    var n := |a| - 1;
    WMinus(ranks[..n], a[..n]) + if a[n] then 0.0 else ranks[n]
  }

  function Min(x: real, y: real): real {
    if x <= y then x else y
  }

  ghost function AtMost(ranks: seq<real>, w: real): set<seq<bool>> {
    set a | a in Assignments(|ranks|) && |a| == |ranks| && WPlus(ranks, a) <= w
  }

  /** The assignments at least as extreme as one whose statistic min(W+, W-) is w. */
  ghost function AsExtreme(ranks: seq<real>, w: real): set<seq<bool>> {
    set a | a in Assignments(|ranks|) && |a| == |ranks| && Min(WPlus(ranks, a), WMinus(ranks, a)) <= w
  }

  // ----- Assignments are all sequences of n booleans, 2^n of them

  lemma {:induction false} BijectionSize<T, U>(s: set<T>, t: set<U>, f: T -> U, g: U -> T)
    requires forall x | x in s :: f(x) in t && g(f(x)) == x
    requires forall y | y in t :: g(y) in s && f(g(y)) == y
    ensures |s| == |t|
  {
    if s == {} {
      assert t == {};
    } else {
      var x :| x in s;
      BijectionSize(s - {x}, t - {f(x)}, f, g);
    }
  }

  lemma ExtendMember(front: set<seq<bool>>, b: bool, a: seq<bool>)
    ensures a in Extend(front, b) <==> a != [] && a[|a| - 1] == b && a[..|a| - 1] in front
  {
    if a != [] && a[|a| - 1] == b && a[..|a| - 1] in front {
      assert a == a[..|a| - 1] + [b];
    }
  }

  lemma ExtendSize(front: set<seq<bool>>, b: bool)
    ensures |Extend(front, b)| == |front|
  {
    var f := (a: seq<bool>) => a + [b];
    var g := (a: seq<bool>) => if a == [] then a else a[..|a| - 1];
    forall a | a in Extend(front, b) ensures g(a) in front && f(g(a)) == a {
      ExtendMember(front, b, a);
    }
    BijectionSize(front, Extend(front, b), f, g);
  }

  lemma {:induction false} AssignmentsCover(n: nat, a: seq<bool>)
    ensures a in Assignments(n) <==> |a| == n
  {
    if n > 0 {
      ExtendMember(Assignments(n - 1), false, a);
      ExtendMember(Assignments(n - 1), true, a);
      if a != [] {
        AssignmentsCover(n - 1, a[..|a| - 1]);
      }
    }
  }

  lemma ExtendDisjoint(front: set<seq<bool>>)
    ensures Extend(front, false) !! Extend(front, true)
  {
    forall a | a in Extend(front, false) ensures a !in Extend(front, true) {
      ExtendMember(front, false, a);
      ExtendMember(front, true, a);
    }
  }

  lemma {:induction false} AssignmentsNumber(n: nat)
    ensures |Assignments(n)| == Pow2(n)
  {
    if n > 0 {
      AssignmentsNumber(n - 1);
      ExtendSize(Assignments(n - 1), false);
      ExtendSize(Assignments(n - 1), true);
      ExtendDisjoint(Assignments(n - 1));
    }
  }

  /** The assignments are all sequences of n signs, each once: 2^n of them. */
  lemma AssignmentsAreAll(n: nat)
    ensures |Assignments(n)| == Pow2(n)
    ensures forall a: seq<bool> :: a in Assignments(n) <==> |a| == n
  {
    AssignmentsNumber(n);
    forall a: seq<bool> ensures a in Assignments(n) <==> |a| == n {
      AssignmentsCover(n, a);
    }
  }

  // ----- Flipping every sign exchanges W+ and W-

  function Flip(a: seq<bool>): seq<bool> {
    seq(|a|, i requires 0 <= i < |a| => !a[i])
  }

  lemma {:induction false} FlipExchanges(ranks: seq<real>, a: seq<bool>)
    requires |ranks| == |a|
    ensures WPlus(ranks, Flip(a)) == WMinus(ranks, a)
    ensures WMinus(ranks, Flip(a)) == WPlus(ranks, a)
  {
    if a != [] {
      var n := |a| - 1;
      assert Flip(a)[..n] == Flip(a[..n]);
      FlipExchanges(ranks[..n], a[..n]);
    }
  }

  lemma {:induction false} PlusAndMinusMakeTotal(ranks: seq<real>, a: seq<bool>)
    requires |ranks| == |a|
    ensures WPlus(ranks, a) + WMinus(ranks, a) == Total(ranks)
  {
    if a != [] {
      var n := |a| - 1;
      PlusAndMinusMakeTotal(ranks[..n], a[..n]);
    }
  }

  ghost function MinusAtMost(ranks: seq<real>, w: real): set<seq<bool>> {
    set a | a in Assignments(|ranks|) && |a| == |ranks| && WMinus(ranks, a) <= w
  }

  lemma FlipMember(ranks: seq<real>, w: real, a: seq<bool>)
    ensures Flip(Flip(a)) == a
    ensures a in MinusAtMost(ranks, w) ==> Flip(a) in AtMost(ranks, w)
    ensures a in AtMost(ranks, w) ==> Flip(a) in MinusAtMost(ranks, w)
  {
    AssignmentsAreAll(|ranks|);
    if |a| == |ranks| {
      FlipExchanges(ranks, a);
    }
  }

  lemma FlippedAtMost(ranks: seq<real>, w: real)
    ensures |MinusAtMost(ranks, w)| == |AtMost(ranks, w)|
  {
    var f := (a: seq<bool>) => Flip(a);
    forall a ensures Flip(Flip(a)) == a
                     && (a in MinusAtMost(ranks, w) ==> Flip(a) in AtMost(ranks, w))
                     && (a in AtMost(ranks, w) ==> Flip(a) in MinusAtMost(ranks, w))
    {
      FlipMember(ranks, w, a);
    }
    BijectionSize(MinusAtMost(ranks, w), AtMost(ranks, w), f, f);
  }

  lemma TailsCover(ranks: seq<real>, w: real)
    ensures AsExtreme(ranks, w) == AtMost(ranks, w) + MinusAtMost(ranks, w)
    ensures 2.0 * w < Total(ranks) ==> AtMost(ranks, w) !! MinusAtMost(ranks, w)
    ensures 2.0 * w == Total(ranks) ==> AsExtreme(ranks, w) == Assignments(|ranks|)
  {
    forall a: seq<bool> | |a| == |ranks| ensures WPlus(ranks, a) + WMinus(ranks, a) == Total(ranks) {
      PlusAndMinusMakeTotal(ranks, a);
    }
    forall a ensures a in Assignments(|ranks|) <==> |a| == |ranks| {
      AssignmentsCover(|ranks|, a);
    }
  }

  /** Doubling the lower tail of W+ counts the assignments as extreme as w exactly, capped at all of them. */
  lemma TwoTails(ranks: seq<real>, w: real)
    requires 2.0 * w <= Total(ranks)
    ensures 2.0 * w < Total(ranks) ==> |AsExtreme(ranks, w)| == 2 * |AtMost(ranks, w)| <= Pow2(|ranks|)
    ensures 2.0 * w == Total(ranks) ==> |AsExtreme(ranks, w)| == Pow2(|ranks|) <= 2 * |AtMost(ranks, w)|
  {
    TailsCover(ranks, w);
    FlippedAtMost(ranks, w);
    AssignmentsNumber(|ranks|);
    SubsetSize(AsExtreme(ranks, w), Assignments(|ranks|));
    UnionSize(AtMost(ranks, w), MinusAtMost(ranks, w));
  }

  lemma UnionSize<T>(a: set<T>, b: set<T>)
    ensures |a + b| <= |a| + |b|
    ensures a !! b ==> |a + b| == |a| + |b|
  {
  }
}
