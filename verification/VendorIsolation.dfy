/** Vendors by what a model's name mentions, and what excluding them keeps out of the recommendations. */
module VendorIsolation {
  import opened StatKinds
  import opened Names
  import opened Recommender

  /** The pattern occurs in the name, whatever the case of the name's letters. */
  ghost predicate Mentions(name: string, pattern: string) {
    exists i :: MentionsAt(name, pattern, i)
  }

  predicate MentionsAt(name: string, pattern: string, i: nat) {
    i + |pattern| <= |name| && forall k | 0 <= k < |pattern| :: SameLetter(name[i + k], pattern[k])
  }

  /** The same character, or the capital of it. */
  predicate SameLetter(c: char, small: char) {
    c == small || ('a' <= small <= 'z' && c as int == small as int - 32)
  }

  predicate NoCapitals(pattern: string) {
    forall k | 0 <= k < |pattern| :: !('A' <= pattern[k] <= 'Z')
  }

  lemma {:induction false} LowerMatches(name: string, pattern: string)
    requires NoCapitals(pattern)
    ensures pattern <= Lower(name) <==> MentionsAt(name, pattern, 0)
  {
    var lower := Lower(name);
    forall k | 0 <= k < |pattern| && k < |name|
      ensures lower[k] == pattern[k] <==> SameLetter(name[0 + k], pattern[k])
    {
    }
    if MentionsAt(name, pattern, 0) {
      forall k | 0 <= k < |pattern| ensures lower[k] == pattern[k] {
        assert SameLetter(name[0 + k], pattern[k]);
      }
    }
    if pattern <= lower {
      forall k | 0 <= k < |pattern| ensures SameLetter(name[0 + k], pattern[k]) {
        assert lower[k] == pattern[k];
      }
    }
  }

  lemma {:induction false} ContainsIsMentions(name: string, pattern: string)
    requires NoCapitals(pattern)
    ensures Contains(Lower(name), pattern) <==> Mentions(name, pattern)
  {
    LowerMatches(name, pattern);
    if name != [] {
      ContainsIsMentions(name[1..], pattern);
      assert Lower(name)[1..] == Lower(name[1..]);
      if i: nat :| MentionsAt(name[1..], pattern, i) {
        forall k | 0 <= k < |pattern| ensures SameLetter(name[i + 1 + k], pattern[k]) {
          assert name[1..][i + k] == name[i + 1 + k];
        }
        assert MentionsAt(name, pattern, i + 1);
      }
      if i: nat :| MentionsAt(name, pattern, i) {
        if i > 0 {
          forall k | 0 <= k < |pattern| ensures SameLetter(name[1..][i - 1 + k], pattern[k]) {
            assert name[1..][i - 1 + k] == name[i + k];
          }
          assert MentionsAt(name[1..], pattern, i - 1);
        }
      }
    } else if i: nat :| MentionsAt(name, pattern, i) {
      assert pattern == [];
    }
  }

  // ----- The vendors

  ghost predicate Anthropic(name: string) {
    Mentions(name, "claude") || Mentions(name, "opus") || Mentions(name, "sonnet") || Mentions(name, "haiku")
  }

  ghost predicate OpenAi(name: string) {
    !Anthropic(name)
    && (Mentions(name, "gpt") || Mentions(name, "o1") || Mentions(name, "o3") || Mentions(name, "codex"))
  }

  ghost predicate DeepSeek(name: string) {
    !Anthropic(name) && !OpenAi(name) && Mentions(name, "deepseek")
  }

  ghost predicate Google(name: string) {
    !Anthropic(name) && !OpenAi(name) && !DeepSeek(name) && Mentions(name, "gemini")
  }

  ghost predicate Cursor(name: string) {
    !Anthropic(name) && !OpenAi(name) && !DeepSeek(name) && !Google(name) && Mentions(name, "cursor")
  }

  lemma {:induction false} AllFound(lower: string, patterns: seq<(string, string)>, k: nat)
    requires k <= |patterns| && forall i | 0 <= i < k :: !Contains(lower, patterns[i].0)
    ensures VendorFrom(lower, patterns) == VendorFrom(lower, patterns[k..])
  {
    if k > 0 {
      AllFound(lower, patterns[1..], k - 1);
      assert patterns[1..][k - 1..] == patterns[k..];
    } else {
      assert patterns[0..] == patterns;
    }
  }

  /** The first pattern that occurs decides. */
  lemma {:induction false} FirstFound(lower: string, k: nat)
    requires k < |VENDOR_PATTERNS| && Contains(lower, VENDOR_PATTERNS[k].0)
    requires forall i | 0 <= i < k :: !Contains(lower, VENDOR_PATTERNS[i].0)
    ensures VendorFrom(lower, VENDOR_PATTERNS) == VENDOR_PATTERNS[k].1
  {
    AllFound(lower, VENDOR_PATTERNS, k);
    assert VENDOR_PATTERNS[k..][0] == VENDOR_PATTERNS[k];
  }

  ghost predicate Finds(name: string, k: nat)
    requires k < |VENDOR_PATTERNS|
  {
    Contains(Lower(name), VENDOR_PATTERNS[k].0)
  }

  lemma {:induction false} PatternsFound(name: string)
    ensures |VENDOR_PATTERNS| == 11
    ensures Finds(name, 0) <==> Mentions(name, "claude")
    ensures Finds(name, 1) <==> Mentions(name, "opus")
    ensures Finds(name, 2) <==> Mentions(name, "sonnet")
    ensures Finds(name, 3) <==> Mentions(name, "haiku")
    ensures Finds(name, 4) <==> Mentions(name, "gpt")
    ensures Finds(name, 5) <==> Mentions(name, "o1")
    ensures Finds(name, 6) <==> Mentions(name, "o3")
    ensures Finds(name, 7) <==> Mentions(name, "codex")
    ensures Finds(name, 8) <==> Mentions(name, "deepseek")
    ensures Finds(name, 9) <==> Mentions(name, "gemini")
    ensures Finds(name, 10) <==> Mentions(name, "cursor")
  {
    forall k | 0 <= k < |VENDOR_PATTERNS| ensures Finds(name, k) <==> Mentions(name, VENDOR_PATTERNS[k].0) {
      ContainsIsMentions(name, VENDOR_PATTERNS[k].0);
    }
  }

  /** The first of the eleven found, or none of them. */
  lemma {:induction false} VendorByFirst(name: string) returns (k: nat)
    ensures k <= |VENDOR_PATTERNS| && forall i | 0 <= i < k :: !Finds(name, i)
    ensures k < |VENDOR_PATTERNS| ==> Finds(name, k) && VendorForModel(name) == VENDOR_PATTERNS[k].1
    ensures k == |VENDOR_PATTERNS| ==> VendorForModel(name) == "unknown"
  {
    k := 0;
    while k < |VENDOR_PATTERNS| && !Finds(name, k)
      invariant k <= |VENDOR_PATTERNS| && forall i | 0 <= i < k :: !Finds(name, i)
    {
      k := k + 1;
    }
    forall i | 0 <= i < k ensures !Contains(Lower(name), VENDOR_PATTERNS[i].0) {
      assert !Finds(name, i);
    }
    if k < |VENDOR_PATTERNS| {
      FirstFound(Lower(name), k);
    } else {
      AllFound(Lower(name), VENDOR_PATTERNS, k);
    }
  }

  lemma {:induction false} PatternVendors()
    ensures |VENDOR_PATTERNS| == 11
    ensures forall k | 0 <= k < 4 :: VENDOR_PATTERNS[k].1 == "anthropic"
    ensures forall k | 4 <= k < 8 :: VENDOR_PATTERNS[k].1 == "openai"
    ensures VENDOR_PATTERNS[8].1 == "deepseek" && VENDOR_PATTERNS[9].1 == "google" && VENDOR_PATTERNS[10].1 == "cursor"
  {
  }

  /** The vendor of every name. */
  lemma {:induction false} VendorIs(name: string)
    ensures VendorForModel(name)
            == if Anthropic(name) then "anthropic" else if OpenAi(name) then "openai"
               else if DeepSeek(name) then "deepseek" else if Google(name) then "google"
               else if Cursor(name) then "cursor" else "unknown"
  {
    PatternsFound(name);
    PatternVendors();
    var k := VendorByFirst(name);
  }

  // ----- What exclusion keeps out

  /** No result is of an excluded vendor, by its name, and each says whose it is. */
  lemma {:induction false} ExcludedStayOut(r: Request, topK: nat, i: nat)
    requires i < |Recommended(r, topK)|
    ensures var row := Recommended(r, topK)[i].row;
            && ("anthropic" in r.excluded ==>
                  !Mentions(row.modelId, "claude") && !Mentions(row.modelId, "opus")
                  && !Mentions(row.modelId, "sonnet") && !Mentions(row.modelId, "haiku"))
            && ("openai" in r.excluded ==> !OpenAi(row.modelId))
            && ("deepseek" in r.excluded ==> !DeepSeek(row.modelId))
            && ("google" in r.excluded ==> !Google(row.modelId))
            && ("cursor" in r.excluded ==> !Cursor(row.modelId))
            && row.provider == VendorForModel(row.modelId) && row.provider !in r.excluded
  {
    RecommendationsAreRanked(r, topK);
    VendorIs(Recommended(r, topK)[i].row.modelId);
  }

  /** And a candidate with statistics of sufficient confidence is kept out by nothing else. */
  lemma {:induction false} OthersAreAdmitted(r: Request, m: string)
    requires m in Candidates(r)
    ensures Admit(r, m).Some?
            <==> StatFor(r, m).Some? && VendorForModel(m) !in r.excluded
                 && (r.minConfidence == Medium ==> StatFor(r, m).value.confidence != Low)
                 && (r.minConfidence == High ==> StatFor(r, m).value.confidence == High)
  {
  }
}
