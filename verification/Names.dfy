/** Model names, compared without regard to case. */
module Names {

  function Lower(s: string): string {
    seq(|s|, i requires 0 <= i < |s| => if 'A' <= s[i] <= 'Z' then s[i] - 'A' + 'a' else s[i])
  }

  predicate Contains(s: string, pattern: string) {
    pattern <= s || (s != [] && Contains(s[1..], pattern))
  }

  /** The first two letters of the pattern stand here, with room for the rest. */
  predicate BeginsAt(s: string, pattern: string, i: nat)
    requires |pattern| >= 2
  {
    i + |pattern| <= |s| && s[i] == pattern[0] && s[i + 1] == pattern[1]
  }

  lemma {:induction false} FoundAt(s: string, pattern: string) returns (i: nat)
    requires Contains(s, pattern) && |pattern| >= 2
    ensures BeginsAt(s, pattern, i)
  {
    if pattern <= s {
      i := 0;
    } else {
      var k := FoundAt(s[1..], pattern);
      i := k + 1;
    }
  }

  lemma {:induction false} NotFound(s: string, pattern: string)
    requires |pattern| >= 2 && forall i :: !BeginsAt(s, pattern, i)
    ensures !Contains(s, pattern)
  {
    if Contains(s, pattern) {
      var i := FoundAt(s, pattern);
    }
  }
}
