/** Which lines of a filled-in text the parsed scores come from. */
module ParsedScores {
  import opened ScoringText
  import opened ScoringTemplate
  import opened ScoringRoundTrip

  /** The first place at which this name is listed. */
  predicate FirstOf(found: seq<(string, string)>, i: int, name: string) {
    0 <= i < |found| && found[i].0 == name && forall k | 0 <= k < i :: found[k].0 != name
  }

  predicate LastOf(found: seq<(string, string)>, i: int, name: string) {
    0 <= i < |found| && found[i].0 == name && forall k | i < k < |found| :: found[k].0 != name
  }

  predicate Listed(found: seq<(string, string)>, name: string) {
    exists i :: 0 <= i < |found| && found[i].0 == name
  }

  lemma {:induction false} FirstIsThere(found: seq<(string, string)>, name: string) returns (i: nat)
    requires Listed(found, name)
    ensures FirstOf(found, i, name)
  {
    i := 0;
    while found[i].0 != name
      invariant i < |found| && (forall k | 0 <= k < i :: found[k].0 != name) && Listed(found, name)
      decreases |found| - i
    {
      i := i + 1;
    }
  }

  lemma {:induction false} LastIsThere(found: seq<(string, string)>, name: string) returns (i: nat)
    requires Listed(found, name)
    ensures LastOf(found, i, name)
  {
    i := |found| - 1;
    while found[i].0 != name
      invariant i < |found| && (forall k | i < k < |found| :: found[k].0 != name) && Listed(found, name)
      decreases i
    {
      i := i - 1;
    }
  }

  // ----- Dictionaries

  lemma {:induction false} PutOver(dict: seq<(string, string)>, topic: string, body: string, k: nat)
    requires FirstOf(dict, k, topic)
    ensures Put(dict, topic, body) == dict[k := (topic, body)]
  {
    if k > 0 {
      assert forall i | 0 <= i < k - 1 :: dict[1..][i] == dict[i + 1];
      PutOver(dict[1..], topic, body, k - 1);
      assert dict[k := (topic, body)] == [dict[0]] + dict[1..][k - 1 := (topic, body)];
    }
  }

  /** Every topic found, once, with its last body. */
  lemma {:induction false} DictionaryIs(found: seq<(string, string)>)
    ensures DistinctKeys(Dictionary(found))
    ensures forall name :: Listed(Dictionary(found), name) <==> Listed(found, name)
    ensures forall k, i | 0 <= k < |Dictionary(found)| && LastOf(found, i, Dictionary(found)[k].0) ::
              Dictionary(found)[k].1 == found[i].1
  {
    if found != [] {
      var n := |found| - 1;
      var front, last := found[..n], found[n];
      DictionaryIs(front);
      ListedGrows(front, last);
      assert found == front + [last];
      PutIs(Dictionary(front), last);
      LastGrows(front, last);
      forall k, i | 0 <= k < |Dictionary(found)| && LastOf(found, i, Dictionary(found)[k].0)
        ensures Dictionary(found)[k].1 == found[i].1
      {
        var name := Dictionary(found)[k].0;
        if name != last.0 {
          assert LastOf(front, i, name) && k < |Dictionary(front)| && Dictionary(front)[k] == Dictionary(found)[k];
        }
      }
    }
  }

  lemma {:induction false} ListedGrows(front: seq<(string, string)>, last: (string, string))
    ensures forall name :: Listed(front + [last], name) <==> Listed(front, name) || name == last.0
  {
    var all := front + [last];
    assert all[|front|] == last;
    forall name | Listed(front, name) ensures Listed(all, name) {
      var i :| 0 <= i < |front| && front[i].0 == name;
      assert all[i] == front[i];
    }
  }

  lemma {:induction false} LastGrows(front: seq<(string, string)>, last: (string, string))
    ensures forall name, i | LastOf(front + [last], i, name) ::
              if name == last.0 then i == |front| else LastOf(front, i, name)
    ensures LastOf(front + [last], |front|, last.0)
  {
    var all := front + [last];
    assert all[|front|] == last && forall i | 0 <= i < |front| :: all[i] == front[i];
  }

  /** Assignment changes the entry of its topic, or adds one behind the others. */
  lemma {:induction false} PutIs(dict: seq<(string, string)>, last: (string, string))
    requires DistinctKeys(dict)
    ensures var all := Put(dict, last.0, last.1);
            && DistinctKeys(all) && |dict| <= |all| <= |dict| + 1
            && (forall name :: Listed(all, name) <==> Listed(dict, name) || name == last.0)
            && (forall k | 0 <= k < |dict| :: all[k].0 == dict[k].0)
            && (forall k | 0 <= k < |all| ::
                  if all[k].0 == last.0 then all[k] == last else k < |dict| && all[k] == dict[k])
  {
    if Listed(dict, last.0) {
      var k := FirstIsThere(dict, last.0);
      PutOver(dict, last.0, last.1, k);
      var all := dict[k := last];
      forall name | Listed(dict, name) ensures Listed(all, name) {
        var i :| 0 <= i < |dict| && dict[i].0 == name;
        assert all[i].0 == name;
      }
      forall name | Listed(all, name) ensures Listed(dict, name) {
        var i :| 0 <= i < |all| && all[i].0 == name;
        assert dict[i].0 == name;
      }
    } else {
      PutNew(dict, last.0, last.1);
      ListedGrows(dict, last);
    }
  }

  // ----- One section

  /** The scores of a list of lines: each dimension's is the number on its last line. */
  lemma {:induction false} ScoresAreLast(lines: seq<(string, string)>)
    ensures forall dim :: dim in ScoresOf(lines) <==> Listed(lines, dim)
    ensures forall dim, j | LastOf(lines, j, dim) ::
              dim in ScoresOf(lines) && ScoresOf(lines)[dim] == ValueOf(lines[j].1)
  {
    if lines != [] {
      var n := |lines| - 1;
      ScoresAreLast(lines[..n]);
      ListedGrows(lines[..n], lines[n]);
      LastGrows(lines[..n], lines[n]);
      assert lines == lines[..n] + [lines[n]];
    }
  }

  // ----- The whole text

  /** The score lines that the patterns find in a section. */
  function LinesOf(section: (string, string)): seq<(string, string)> {
    FindScores(section.1, true)
  }

  /** Whatever the text, if parsing succeeds: a topic has scores exactly when its last section has a score line, and
      then its score for a dimension is the number on the last line for that dimension in that section. */
  lemma {:induction false} LastSectionCounts(text: string, r: Outcome, topic: string, i: int)
    requires Parses(text, r) && r.Scores? && LastOf(Sections(text, true).1, i, topic)
    ensures var lines := LinesOf(Sections(text, true).1[i]);
            && (topic in r.byTopic <==> lines != [])
            && (topic in r.byTopic ==>
                  && (forall dim :: dim in r.byTopic[topic] <==> Listed(lines, dim))
                  && (forall dim, j | LastOf(lines, j, dim) ::
                        dim in r.byTopic[topic] && r.byTopic[topic][dim] == ValueOf(lines[j].1) <= 10))
  {
    var found := Sections(text, true).1;
    var sections, lines := Dictionary(found), LinesOf(found[i]);
    DictionaryIs(found);
    assert Listed(found, topic);
    assert Listed(sections, topic);
    var k :| 0 <= k < |sections| && sections[k].0 == topic;
    assert sections[k].1 == found[i].1;
    ParsesInRange(text, r);
    assert InRange(LinesOf(sections[k]));
    ScoresAreLast(lines);
    ResultHolds(sections);
    assert Section(sections, k, topic, ScoresOf(lines));
    EmptyExactlyWhen(lines);
    OnlySection(sections, k, topic);
  }

  lemma {:induction false} ParsesInRange(text: string, r: Outcome)
    requires Parses(text, r)
    ensures var sections := Dictionary(Sections(text, true).1);
            if AllInRange(sections) then r == Scores(ResultOf(sections)) else r.OutOfRange?
  {
    var sections := Dictionary(Sections(text, true).1);
    if FirstOutOfRange(sections, r) {
      var k :| 0 <= k < |sections| && AllInRange(sections[..k]) && ReadFails(sections[k], r);
    }
  }

  lemma {:induction false} EmptyExactlyWhen(lines: seq<(string, string)>)
    ensures ScoresOf(lines) == map[] <==> lines == []
  {
    if lines != [] {
      var n := |lines| - 1;
      assert lines[n].0 in ScoresOf(lines);
    }
  }

  lemma {:induction false} OnlySection(sections: seq<(string, string)>, k: nat, topic: string)
    requires DistinctKeys(sections) && k < |sections| && sections[k].0 == topic
    ensures forall j, scores | Section(sections, j, topic, scores) :: scores == ScoresAt(sections, k)
  {
  }

  /** Nothing else has scores. */
  lemma {:induction false} NoSectionNoScores(text: string, r: Outcome, topic: string)
    requires Parses(text, r) && r.Scores? && topic in r.byTopic
    ensures Listed(Sections(text, true).1, topic)
  {
    var found := Sections(text, true).1;
    var sections := Dictionary(found);
    ParsesInRange(text, r);
    DictionaryIs(found);
    ResultHolds(sections);
    var k :| Section(sections, k, topic, r.byTopic[topic]);
    assert Listed(sections, topic);
  }

  predicate TooHigh(found: seq<(string, string)>, i: int, topic: string, j: int) {
    LastOf(found, i, topic) && 0 <= j < |LinesOf(found[i])| && ValueOf(LinesOf(found[i])[j].1) > 10
  }

  /** The score line in question is the j-th in the last section of its topic, and too high. */
  predicate Blames(found: seq<(string, string)>, i: int, j: int, r: Outcome) {
    && r.OutOfRange? && TooHigh(found, i, r.topic, j)
    && LinesOf(found[i])[j].0 == r.dim && ValueOf(LinesOf(found[i])[j].1) == r.score
  }

  /** A failure names a score above 10 in the last section of its topic. */
  lemma {:induction false} FailureIsThere(text: string, r: Outcome) returns (i: nat, j: nat)
    requires Parses(text, r) && r.OutOfRange?
    ensures Blames(Sections(text, true).1, i, j, r)
  {
    var found := Sections(text, true).1;
    var sections := Dictionary(found);
    assert FirstOutOfRange(sections, r);
    var k :| 0 <= k < |sections| && AllInRange(sections[..k]) && ReadFails(sections[k], r);
    j :| FailsAt(LinesOf(sections[k]), j, r.dim, r.score);
    DictionaryIs(found);
    assert Listed(sections, r.topic);
    i := LastIsThere(found, r.topic);
    assert sections[k].1 == found[i].1;
  }

  /** And there is a failure whenever there is such a score. */
  lemma {:induction false} TooHighFails(text: string, r: Outcome, i: nat, topic: string, j: nat)
    requires Parses(text, r) && TooHigh(Sections(text, true).1, i, topic, j)
    ensures r.OutOfRange?
  {
    var found := Sections(text, true).1;
    var sections := Dictionary(found);
    DictionaryIs(found);
    assert Listed(found, topic);
    assert Listed(sections, topic);
    var k :| 0 <= k < |sections| && sections[k].0 == topic;
    assert sections[k].1 == found[i].1;
    assert !InRange(LinesOf(sections[k]));
    ParsesInRange(text, r);
  }
}
