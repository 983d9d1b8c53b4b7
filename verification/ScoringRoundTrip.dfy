/** Reading back a filled scoring template gives exactly the scores that were filled in. */
module ScoringRoundTrip {
  import opened Options
  import opened ScoringText
  import opened ScoringTemplate

  predicate WellNamed(spec: PromptSpec) {
    && |spec.categoryId| == 1 && Upper(spec.categoryId[0])
    && |spec.topicId| > 1 && Upper(spec.topicId[0]) && All(spec.topicId[1..], Digits())
    && forall k :: 0 <= k < |spec.rubricDims| ==> Name(spec.rubricDims[k])
  }

  predicate Name(s: string) {
    s != [] && All(s, WordChars())
  }

  /** A sheet between its header and its first score line. */
  function Lead(sheet: Sheet): string {
    " " + sheet.spec.categoryName + "\n"
    + Terminated(PromptLines(sheet.spec) + RetrievalLines(sheet.spec, sheet.record)) + Terminated(ScoresHeading())
  }

  function Tail(sheet: Sheet): string {
    Terminated(NotesLines(sheet.notes))
  }

  function Scored(sheet: Sheet): string
    requires Complete(sheet)
  {
    Terminated(ScoreLines(sheet.spec.rubricDims, sheet.answers))
  }

  /** A sheet after its header. */
  function Own(sheet: Sheet): string
    requires Complete(sheet)
  {
    Lead(sheet) + Scored(sheet) + Tail(sheet)
  }

  /** No header and no score line shows up in a sheet's free text: its category name, prompt, blocks and notes. */
  predicate ClearText(sheet: Sheet) {
    && FindScores(Lead(sheet), true) == [] && Sections(Lead(sheet), false).1 == []
    && FindScores(Tail(sheet), true) == [] && Sections(Tail(sheet), true).1 == []
  }

  /** What stands before the sheets ends in a rule and holds no header. */
  predicate ClearHead(head: seq<string>) {
    head != [] && head[|head| - 1] == "---" && Sections(Terminated(head), true).1 == []
  }

  predicate Proper(sheet: Sheet) {
    Complete(sheet) && WellNamed(sheet.spec) && ClearText(sheet)
  }

  // ----- Constant lines

  lemma {:induction false} IsOneLine(s: string)
    requires forall k :: 0 <= k < |s| ==> s[k] != '\n'
    ensures OneLine(s)
  {
    if s != [] {
      IsOneLine(s[1..]);
    }
  }

  lemma {:induction false} DashAt(s: string, k: nat)
    requires k < |s| && s[k] == '-'
    ensures Dash(s)
  {
    if k > 0 {
      DashAt(s[1..], k - 1);
    }
  }

  lemma EmptyLine(lineStart: bool)
    ensures NoScores("\n", lineStart) && NoHeaders("\n", lineStart)
  {
    assert "\n"[1..] == [];
  }

  lemma HeadingIsPlain(lineStart: bool)
    ensures Dash(Terminated(ScoresHeading()))
    ensures NoScores(Terminated(ScoresHeading()), lineStart) && NoHeaders(Terminated(ScoresHeading()), lineStart)
  {
    var line := "**Scores (0-10 each):**";
    assert ScoresHeading()[1..] == [""] && [""][1..] == [];
    assert Terminated(ScoresHeading()) == (line + "\n") + "\n";
    DashAt((line + "\n") + "\n", 11);
    IsOneLine(line);
    PlainLineNoScores(line, lineStart);
    PlainLineNoHeaders(line, lineStart);
    EmptyLine(true);
    NoScoresTogether(line + "\n", "\n", lineStart);
    NoHeadersTogether(line + "\n", "\n", lineStart);
  }

  lemma RuleIsPlain(lineStart: bool)
    ensures Dash("---\n") && NoScores("---\n", lineStart) && NoHeaders("---\n", lineStart)
  {
    var rest := "--\n";
    assert "---\n"[1..] == "--" + "\n" && "--"[1..] == "-" && "-"[1..] == [];
    PlainLineNoScores("--", false);
    PlainLineNoHeaders("--", false);
    assert Literal("---\n", "-") == Matched([], "--" + "\n");
  }

  lemma LeadIsClear(sheet: Sheet)
    requires ClearText(sheet)
    ensures NoScores(Lead(sheet), true) && NoHeaders(Lead(sheet), false)
  {
    var own := " " + sheet.spec.categoryName + "\n"
               + Terminated(PromptLines(sheet.spec) + RetrievalLines(sheet.spec, sheet.record));
    var end := Terminated(ScoresHeading());
    HeadingIsPlain(true);
    HeadingIsPlain(false);
    NoneFoundNoScores(own, end, true);
    NoneFoundNoHeaders(own, end, false);
  }

  /** Whatever ends in the line `---`, as the text before the sheets and every sheet do. */
  lemma RuledIsClear(lines: seq<string>)
    requires lines != [] && lines[|lines| - 1] == "---"
    ensures FindScores(Terminated(lines), true) == [] ==> NoScores(Terminated(lines), true)
    ensures Sections(Terminated(lines), true).1 == [] ==> NoHeaders(Terminated(lines), true)
  {
    var n := |lines| - 1;
    assert lines == lines[..n] + ["---"];
    TerminatedTogether(lines[..n], ["---"]);
    assert ["---"][1..] == [];
    assert Terminated(["---"]) == "---\n";
    RuleIsPlain(true);
    RuleIsPlain(false);
    if FindScores(Terminated(lines), true) == [] {
      NoneFoundNoScores(Terminated(lines[..n]), "---\n", true);
    }
    if Sections(Terminated(lines), true).1 == [] {
      NoneFoundNoHeaders(Terminated(lines[..n]), "---\n", true);
    }
  }

  // ----- What the patterns match

  lemma {:induction false} LiteralMatches(piece: string, t: string)
    ensures Literal(piece + t, piece) == Matched([], t)
  {
    if piece == [] {
      assert piece + t == t;
    } else {
      assert (piece + t)[1..] == piece[1..] + t;
      LiteralMatches(piece[1..], t);
    }
  }

  lemma {:induction false} RunMatches(word: string, t: string, p: char -> bool)
    requires All(word, p) && t != [] && !p(t[0])
    ensures Run(word + t, p) == word && AfterRun(word + t, p) == t
  {
    if word == [] {
      assert word + t == t;
    } else {
      assert (word + t)[1..] == word[1..] + t;
      RunMatches(word[1..], t, p);
    }
  }

  lemma HeaderMatches(spec: PromptSpec, t: string)
    requires WellNamed(spec)
    ensures ScanHeader(Header(spec) + t) == Matched(spec.topicId, t)
  {
    var category, letter, number := spec.categoryId, spec.topicId[0], spec.topicId[1..];
    var s5 := " -" + t;
    var s4 := number + s5;
    var s3 := [letter] + s4;
    var s2 := " / " + s3;
    var s1 := category + s2;
    assert spec.topicId == [letter] + number;
    assert Header(spec) + t == "## " + s1;
    LiteralMatches("## ", s1);
    assert s1[0] == category[0] && s1[1..] == s2;
    LiteralMatches(" / ", s3);
    assert s3[0] == letter && s3[1..] == s4;
    RunMatches(number, s5, Digits());
    LiteralMatches(" -", t);
  }

  /** A filled line is matched up to its closing backtick; an empty one is no match. */
  lemma ScoreLineScans(dim: string, answer: Option<nat>, t: string)
    requires Name(dim)
    ensures ScanScore(ScoreLine(dim, answer) + t)
            == if answer.Some? then Matched((dim, Decimal(answer.value)), t) else Mismatch
  {
    var s3 := ": `score: " + Entry(answer) + "`" + t;
    var s2 := dim + s3;
    var s1 := " " + s2;
    assert ScoreLine(dim, answer) + t == "-" + s1;
    LiteralMatches("-", s1);
    assert s1[1..] == s2;
    NameStarts(dim, s3);
    RunMatches(dim, s3, WordChars());
    AfterDimScans(dim, answer, t);
  }

  lemma NameStarts(dim: string, t: string)
    requires Name(dim)
    ensures AnySpaces(dim + t) == Matched([], dim + t)
  {
    assert (dim + t)[0] == dim[0];
  }

  lemma AfterDimScans(dim: string, answer: Option<nat>, t: string)
    ensures ScanAfterDim(": `score: " + Entry(answer) + "`" + t, dim)
            == if answer.Some? then Matched((dim, Decimal(answer.value)), t) else Mismatch
  {
    var s4 := Entry(answer) + ("`" + t);
    var s3 := "`score:" + (" " + s4);
    assert ": `score: " + Entry(answer) + "`" + t == ":" + (" " + s3);
    LiteralMatches(":", " " + s3);
    OneSpace(s3);
    LiteralMatches("`score:", " " + s4);
    if answer.Some? {
      DecimalRoundTrip(answer.value);
      assert s4[0] == Decimal(answer.value)[0];
      OneSpace(s4);
      RunMatches(Decimal(answer.value), "`" + t, Digits());
      LiteralMatches("`", t);
    } else {
      assert s4 == "`" + t;
      OneSpace(s4);
    }
  }

  lemma OneSpace(s: string)
    requires s != [] && !Space(s[0])
    ensures AnySpaces(" " + s) == Matched([], s)
  {
    assert (" " + s)[1..] == s && (" " + s)[0] == ' ';
    assert AfterRun(s, Spaces()) == s;
    assert AfterRun(" " + s, Spaces()) == AfterRun((" " + s)[1..], Spaces());
  }

  // ----- Score lines in a body

  /** The matches a sheet's score lines give. */
  function Entered(dims: seq<string>, answers: seq<Option<nat>>): seq<(string, string)>
    requires |dims| == |answers|
  {
    if dims == [] then []
    else (if answers[0].Some? then [(dims[0], Decimal(answers[0].value))] else []) + Entered(dims[1..], answers[1..])
  }

  lemma {:induction false} OneLineTogether(s: string, t: string)
    requires OneLine(s) && OneLine(t)
    ensures OneLine(s + t)
  {
    if s == [] {
      assert s + t == t;
    } else {
      assert (s + t)[1..] == s[1..] + t;
      OneLineTogether(s[1..], t);
    }
  }

  lemma {:induction false} WordIsOneLine(s: string, p: char -> bool)
    requires All(s, p) && !p('\n')
    ensures OneLine(s)
  {
    if s != [] {
      WordIsOneLine(s[1..], p);
    }
  }

  lemma ScoreLineIsOneLine(dim: string, answer: Option<nat>)
    requires Name(dim)
    ensures OneLine(ScoreLine(dim, answer)) && OneLine(ScoreLine(dim, answer)[1..])
  {
    WordIsOneLine(dim, WordChars());
    if answer.Some? {
      DecimalRoundTrip(answer.value);
      WordIsOneLine(Decimal(answer.value), Digits());
    }
    IsOneLine("- ");
    IsOneLine(": `score: ");
    IsOneLine("`");
    OneLineTogether("- ", dim);
    OneLineTogether("- " + dim, ": `score: ");
    OneLineTogether("- " + dim + ": `score: ", Entry(answer));
    OneLineTogether("- " + dim + ": `score: " + Entry(answer), "`");
  }

  lemma ScoreLineFound(dim: string, answer: Option<nat>, t: string)
    requires Name(dim)
    ensures FindScores(ScoreLine(dim, answer) + "\n" + t, true)
            == (if answer.Some? then [(dim, Decimal(answer.value))] else []) + FindScores(t, true)
  {
    var line := ScoreLine(dim, answer);
    var s := line + "\n" + t;
    assert s == line + ("\n" + t);
    ScoreLineScans(dim, answer, "\n" + t);
    if answer.Some? {
      assert ("\n" + t)[1..] == t;
      assert FindScores("\n" + t, false) == FindScores(t, true);
    } else {
      ScoreLineIsOneLine(dim, answer);
      PlainLineNoScores(line[1..], false);
      assert s[1..] == (line[1..] + "\n") + t;
      SkipNoScores(line[1..] + "\n", t, false);
    }
  }

  lemma {:induction false} ShiftScores(a: seq<(string, string)>, b: seq<(string, string)>, c: seq<(string, string)>)
    ensures (a + b) + c == a + (b + c)
  {
  }

  lemma {:induction false} ScoreLinesFound(dims: seq<string>, answers: seq<Option<nat>>, t: string)
    requires |dims| == |answers| && forall k :: 0 <= k < |dims| ==> Name(dims[k])
    ensures FindScores(Terminated(ScoreLines(dims, answers)) + t, true) == Entered(dims, answers) + FindScores(t, true)
  {
    if dims == [] {
      assert Terminated(ScoreLines(dims, answers)) + t == t;
      assert [] + FindScores(t, true) == FindScores(t, true);
    } else {
      var line, later := ScoreLine(dims[0], answers[0]), Terminated(ScoreLines(dims[1..], answers[1..]));
      assert ScoreLines(dims, answers)[1..] == ScoreLines(dims[1..], answers[1..]);
      ScoreLineFound(dims[0], answers[0], later + t);
      ScoreLinesFound(dims[1..], answers[1..], t);
      Shift(line + "\n", later, t);
      var first := if answers[0].Some? then [(dims[0], Decimal(answers[0].value))] else [];
      ShiftScores(first, Entered(dims[1..], answers[1..]), FindScores(t, true));
    }
  }

  lemma {:induction false} ScoreLinesNoHeaders(dims: seq<string>, answers: seq<Option<nat>>)
    requires |dims| == |answers| && forall k :: 0 <= k < |dims| ==> Name(dims[k])
    ensures NoHeaders(Terminated(ScoreLines(dims, answers)), true)
  {
    if dims != [] {
      var line, later := ScoreLine(dims[0], answers[0]), Terminated(ScoreLines(dims[1..], answers[1..]));
      assert ScoreLines(dims, answers)[1..] == ScoreLines(dims[1..], answers[1..]);
      ScoreLineIsOneLine(dims[0], answers[0]);
      PlainLineNoHeaders(line, true);
      ScoreLinesNoHeaders(dims[1..], answers[1..]);
      NoHeadersTogether(line + "\n", later, true);
    }
  }

  // ----- The file, sheet by sheet

  /** The sheets, each after the newline that separates it from what comes before. */
  function Groups(sheets: seq<Sheet>): string
    requires AllComplete(sheets)
  {
    if sheets == [] then [] else "\n" + (Terminated(SheetLines(sheets[0])) + Groups(sheets[1..]))
  }

  lemma {:induction false} LinesAsGroups(head: seq<string>, sheets: seq<Sheet>)
    requires AllComplete(sheets)
    ensures Joined(head + [""] + AllSheetLines(sheets)) == Terminated(head) + Groups(sheets)
    decreases |sheets|
  {
    if sheets == [] {
      assert head + [""] + [] == head + [""];
      JoinedWithEmptyEnd(head);
      assert Terminated(head) + [] == Terminated(head);
    } else {
      var own, later := SheetLines(sheets[0]), AllSheetLines(sheets[1..]);
      OneSheetApart(head, own, later);
      LinesAsGroups(head + ([""] + own), sheets[1..]);
      Reassociate(Terminated(head), Terminated(own), Groups(sheets[1..]));
    }
  }

  lemma OneSheetApart(head: seq<string>, own: seq<string>, later: seq<string>)
    ensures head + [""] + (own + [""] + later) == (head + ([""] + own)) + [""] + later
    ensures Terminated(head + ([""] + own)) == Terminated(head) + ("\n" + Terminated(own))
  {
    TerminatedTogether(head, [""] + own);
    assert ([""] + own)[1..] == own;
    assert Terminated([""] + own) == "\n" + Terminated(own);
  }

  lemma Reassociate(a: string, b: string, c: string)
    ensures (a + ("\n" + b)) + c == a + ("\n" + (b + c))
  {
  }

  lemma SheetTextSplits(sheet: Sheet)
    requires Complete(sheet)
    ensures Terminated(SheetLines(sheet)) == Header(sheet.spec) + Own(sheet)
  {
    var opening := PromptLines(sheet.spec) + RetrievalLines(sheet.spec, sheet.record);
    var scores := ScoreLines(sheet.spec.rubricDims, sheet.answers);
    var heading, notes := ScoresHeading(), NotesLines(sheet.notes);
    var first := [HeaderLine(sheet.spec)];
    LinesSplit(sheet);
    TerminatedTogether(first, opening + heading + scores + notes);
    TerminatedTogether(opening + heading + scores, notes);
    TerminatedTogether(opening + heading, scores);
    TerminatedTogether(opening, heading);
    assert first[1..] == [];
    assert Terminated(first) == Header(sheet.spec) + (" " + sheet.spec.categoryName + "\n");
    Regroup(Header(sheet.spec), " " + sheet.spec.categoryName + "\n", Terminated(opening), Terminated(heading),
            Terminated(scores), Terminated(notes));
  }

  lemma LinesSplit(sheet: Sheet)
    requires Complete(sheet)
    ensures SheetLines(sheet)
            == [HeaderLine(sheet.spec)]
               + (PromptLines(sheet.spec) + RetrievalLines(sheet.spec, sheet.record) + ScoresHeading()
                  + ScoreLines(sheet.spec.rubricDims, sheet.answers) + NotesLines(sheet.notes))
  {
  }

  lemma Regroup(h: string, n: string, o: string, s: string, x: string, t: string)
    ensures (h + n) + (o + s + x + t) == h + (n + o + s + x + t)
  {
  }

  /** What the section of a sheet holds, up to the next header. */
  function Body(sheet: Sheet, more: bool): string
    requires Complete(sheet)
  {
    Own(sheet) + (if more then "\n" else "")
  }

  function Bodies(sheets: seq<Sheet>): seq<(string, string)>
    requires AllComplete(sheets)
  {
    if sheets == [] then []
    else [(sheets[0].spec.topicId, Body(sheets[0], |sheets| > 1))] + Bodies(sheets[1..])
  }

  lemma SheetHasNoHeaders(sheet: Sheet)
    requires Proper(sheet)
    ensures NoHeaders(Own(sheet), false)
    ensures NoScores(Tail(sheet), true)
  {
    LeadIsClear(sheet);
    ScoreLinesNoHeaders(sheet.spec.rubricDims, sheet.answers);
    RuledIsClear(NotesLines(sheet.notes));
    NoHeadersTogether(Lead(sheet), Scored(sheet), false);
    NoHeadersTogether(Lead(sheet) + Scored(sheet), Tail(sheet), false);
  }

  /** One section: from its header to the next. */
  lemma SectionAt(spec: PromptSpec, own: string, later: string)
    requires WellNamed(spec) && NoHeaders(own, false)
    ensures Sections(Header(spec) + (own + later), true)
            == ([], [(spec.topicId, own + Sections(later, true).0)] + Sections(later, true).1)
  {
    HeaderMatches(spec, own + later);
    SkipNoHeaders(own, later, false);
  }

  lemma NewlineFirst(s: string)
    ensures Sections("\n" + s, true) == ("\n" + Sections(s, true).0, Sections(s, true).1)
  {
    EmptyLine(true);
    SkipNoHeaders("\n", s, true);
  }

  lemma Shift(a: string, b: string, c: string)
    ensures (a + b) + c == a + (b + c)
  {
  }

  lemma SheetIsSection(sheet: Sheet, later: string)
    requires Proper(sheet)
    ensures Sections("\n" + (Terminated(SheetLines(sheet)) + later), true)
            == ("\n", [(sheet.spec.topicId, Own(sheet) + Sections(later, true).0)] + Sections(later, true).1)
  {
    SheetTextSplits(sheet);
    SheetHasNoHeaders(sheet);
    SectionAt(sheet.spec, Own(sheet), later);
    Shift(Header(sheet.spec), Own(sheet), later);
    NewlineFirst(Header(sheet.spec) + (Own(sheet) + later));
    assert "\n" + [] == "\n";
  }

  /** Cutting at the headers gives each sheet its own body. */
  lemma {:induction false} SheetsAreSections(sheets: seq<Sheet>)
    requires AllComplete(sheets) && AllProper(sheets)
    ensures Sections(Groups(sheets), true) == (if sheets == [] then "" else "\n", Bodies(sheets))
  {
    if sheets != [] {
      SheetsAreSections(sheets[1..]);
      SheetIsSection(sheets[0], Groups(sheets[1..]));
    }
  }

  /** The score lines found in a sheet's body are the ones that were filled in. */
  lemma BodyHasItsScores(sheet: Sheet, more: bool)
    requires Proper(sheet)
    ensures FindScores(Body(sheet, more), true) == Entered(sheet.spec.rubricDims, sheet.answers)
  {
    var gap := if more then "\n" else "";
    LeadIsClear(sheet);
    SheetHasNoHeaders(sheet);
    TailHasNoScores(Tail(sheet), more);
    Shift(Lead(sheet) + Scored(sheet), Tail(sheet), gap);
    Shift(Lead(sheet), Scored(sheet), Tail(sheet) + gap);
    SkipNoScores(Lead(sheet), Scored(sheet) + (Tail(sheet) + gap), true);
    ScoreLinesFound(sheet.spec.rubricDims, sheet.answers, Tail(sheet) + gap);
    NothingAfter(Entered(sheet.spec.rubricDims, sheet.answers));
  }

  lemma NothingAfter<T>(s: seq<T>)
    ensures s + [] == s
  {
  }

  lemma TailHasNoScores(tail: string, more: bool)
    requires NoScores(tail, true)
    ensures FindScores(tail + (if more then "\n" else ""), true) == []
  {
    var gap := if more then "\n" else "";
    SkipNoScores(tail, gap, true);
    assert "\n"[1..] == [];
  }

  // ----- The dictionaries

  ghost predicate DistinctTopics(sheets: seq<Sheet>) {
    forall i, j :: 0 <= i < j < |sheets| ==> sheets[i].spec.topicId != sheets[j].spec.topicId
  }

  ghost predicate DistinctNames(names: seq<string>) {
    forall i, j :: 0 <= i < j < |names| ==> names[i] != names[j]
  }

  ghost predicate DistinctKeys(found: seq<(string, string)>) {
    forall i, j :: 0 <= i < j < |found| ==> found[i].0 != found[j].0
  }

  lemma {:induction false} PutNew(dict: seq<(string, string)>, topic: string, body: string)
    requires forall k :: 0 <= k < |dict| ==> dict[k].0 != topic
    ensures Put(dict, topic, body) == dict + [(topic, body)]
  {
    if dict != [] {
      PutNew(dict[1..], topic, body);
    }
  }

  lemma {:induction false} DictionaryOfDistinct(found: seq<(string, string)>)
    requires DistinctKeys(found)
    ensures Dictionary(found) == found
  {
    if found != [] {
      var n := |found| - 1;
      DictionaryOfDistinct(found[..n]);
      PutNew(found[..n], found[n].0, found[n].1);
      assert found == found[..n] + [found[n]];
    }
  }

  lemma {:induction false} ResultHolds(sections: seq<(string, string)>)
    requires DistinctKeys(sections)
    ensures forall t :: t in ResultOf(sections) ==>
              ResultOf(sections)[t] != map[] && exists k :: Section(sections, k, t, ResultOf(sections)[t])
    ensures forall k, t, scores :: Section(sections, k, t, scores) && scores != map[] ==>
              t in ResultOf(sections) && ResultOf(sections)[t] == scores
  {
    if sections != [] {
      var n := |sections| - 1;
      ResultHolds(sections[..n]);
      forall t | t in ResultOf(sections)
        ensures ResultOf(sections)[t] != map[] && exists k :: Section(sections, k, t, ResultOf(sections)[t])
      {
        if t == sections[n].0 && ScoresAt(sections, n) != map[] {
          assert Section(sections, n, t, ResultOf(sections)[t]);
        } else {
          var k :| Section(sections[..n], k, t, ResultOf(sections[..n])[t]);
          assert Section(sections, k, t, ResultOf(sections)[t]);
        }
      }
      forall k, t, scores | Section(sections, k, t, scores) && scores != map[]
        ensures t in ResultOf(sections) && ResultOf(sections)[t] == scores
      {
        if k < n {
          assert Section(sections[..n], k, t, scores);
        }
      }
    }
  }

  function ScoresAt(sections: seq<(string, string)>, k: nat): map<string, nat>
    requires k < |sections|
  {
    ScoresOf(FindScores(sections[k].1, true))
  }

  ghost predicate Section(sections: seq<(string, string)>, k: int, t: string, scores: map<string, nat>) {
    0 <= k < |sections| && sections[k].0 == t && ScoresAt(sections, k) == scores
  }

  lemma {:induction false} ScoresOfFirst(first: (string, string), lines: seq<(string, string)>)
    ensures ScoresOf([first] + lines) == map[first.0 := ValueOf(first.1)] + ScoresOf(lines)
  {
    var all, n := [first] + lines, |lines|;
    assert all[..n] == if n == 0 then [] else [first] + lines[..n - 1];
    if n > 0 {
      ScoresOfFirst(first, lines[..n - 1]);
    }
  }

  ghost predicate IsEntry(dims: seq<string>, answers: seq<Option<nat>>, j: int, d: string, v: nat) {
    0 <= j < |dims| == |answers| && dims[j] == d && answers[j] == Some(v)
  }

  lemma {:induction false} EnteredHolds(dims: seq<string>, answers: seq<Option<nat>>)
    requires |dims| == |answers| && DistinctNames(dims)
    ensures forall d :: d in ScoresOf(Entered(dims, answers)) ==>
              exists j :: IsEntry(dims, answers, j, d, ScoresOf(Entered(dims, answers))[d])
    ensures forall j, d, v :: IsEntry(dims, answers, j, d, v) ==>
              d in ScoresOf(Entered(dims, answers)) && ScoresOf(Entered(dims, answers))[d] == v
  {
    if dims != [] {
      EnteredHolds(dims[1..], answers[1..]);
      var later := ScoresOf(Entered(dims[1..], answers[1..]));
      assert forall j, v :: !IsEntry(dims[1..], answers[1..], j, dims[0], v);
      FirstEntered(dims, answers);
      forall d | d in ScoresOf(Entered(dims, answers))
        ensures exists j :: IsEntry(dims, answers, j, d, ScoresOf(Entered(dims, answers))[d])
      {
        if d in later {
          var j :| IsEntry(dims[1..], answers[1..], j, d, later[d]);
          assert IsEntry(dims, answers, j + 1, d, later[d]);
        } else {
          assert IsEntry(dims, answers, 0, d, ScoresOf(Entered(dims, answers))[d]);
        }
      }
      forall j, d, v | IsEntry(dims, answers, j, d, v)
        ensures d in ScoresOf(Entered(dims, answers)) && ScoresOf(Entered(dims, answers))[d] == v
      {
        if j > 0 {
          assert IsEntry(dims[1..], answers[1..], j - 1, d, v);
        }
      }
    }
  }

  lemma {:induction false} ScoresOfEntry(dim: string, v: nat, later: seq<(string, string)>)
    ensures ScoresOf([(dim, Decimal(v))] + later) == map[dim := v] + ScoresOf(later)
  {
    DecimalRoundTrip(v);
    ScoresOfFirst((dim, Decimal(v)), later);
  }

  lemma {:induction false} FirstEntered(dims: seq<string>, answers: seq<Option<nat>>)
    requires |dims| == |answers| > 0
    ensures ScoresOf(Entered(dims, answers))
            == (if answers[0].Some? then map[dims[0] := answers[0].value] else map[])
               + ScoresOf(Entered(dims[1..], answers[1..]))
  {
    var later := Entered(dims[1..], answers[1..]);
    if answers[0].Some? {
      ScoresOfEntry(dims[0], answers[0].value, later);
    } else {
      assert [] + later == later;
    }
  }

  lemma {:induction false} EnteredFrom(dims: seq<string>, answers: seq<Option<nat>>, k: nat) returns (j: nat)
    requires |dims| == |answers| && k < |Entered(dims, answers)|
    ensures IsEntry(dims, answers, j, Entered(dims, answers)[k].0, ValueOf(Entered(dims, answers)[k].1))
  {
    var n := if answers[0].Some? then 1 else 0;
    if k < n {
      DecimalRoundTrip(answers[0].value);
      j := 0;
    } else {
      assert Entered(dims, answers)[k] == Entered(dims[1..], answers[1..])[k - n];
      var i := EnteredFrom(dims[1..], answers[1..], k - n);
      j := i + 1;
    }
  }

  lemma {:induction false} EnteredAt(dims: seq<string>, answers: seq<Option<nat>>, j: nat) returns (k: nat)
    requires j < |dims| == |answers| && answers[j].Some?
    ensures k < |Entered(dims, answers)| && ValueOf(Entered(dims, answers)[k].1) == answers[j].value
  {
    if j == 0 {
      DecimalRoundTrip(answers[0].value);
      k := 0;
    } else {
      var i := EnteredAt(dims[1..], answers[1..], j - 1);
      k := if answers[0].Some? then i + 1 else i;
      assert Entered(dims, answers)[k] == Entered(dims[1..], answers[1..])[i];
    }
  }

  // ----- The round trip

  /** On sheet i, the j-th answer gives dimension d of topic t the score v. */
  ghost predicate Answered(sheets: seq<Sheet>, i: int, j: int, t: string, d: string, v: nat) {
    0 <= i < |sheets| && sheets[i].spec.topicId == t && IsEntry(sheets[i].spec.rubricDims, sheets[i].answers, j, d, v)
  }

  /** Topic t has score v for dimension d in the result. */
  ghost predicate Read(byTopic: map<string, map<string, nat>>, t: string, d: string, v: nat) {
    t in byTopic && d in byTopic[t] && byTopic[t][d] == v
  }

  predicate AllProper(sheets: seq<Sheet>) {
    forall k :: 0 <= k < |sheets| ==> Proper(sheets[k])
  }

  ghost predicate DistinctDims(sheets: seq<Sheet>) {
    forall k :: 0 <= k < |sheets| ==> DistinctNames(sheets[k].spec.rubricDims)
  }

  ghost predicate Ready(head: seq<string>, sheets: seq<Sheet>) {
    && ClearHead(head)
    && AllComplete(sheets) && AllProper(sheets)
    && DistinctTopics(sheets) && DistinctDims(sheets)
  }

  lemma {:induction false} BodyAt(sheets: seq<Sheet>)
    requires AllComplete(sheets)
    ensures |Bodies(sheets)| == |sheets|
    ensures forall k :: 0 <= k < |sheets| ==>
              Bodies(sheets)[k] == (sheets[k].spec.topicId, Body(sheets[k], k < |sheets| - 1))
  {
    if sheets != [] {
      BodyAt(sheets[1..]);
    }
  }

  lemma {:induction false} SheetsFound(head: seq<string>, sheets: seq<Sheet>)
    requires ClearHead(head) && AllComplete(sheets) && AllProper(sheets)
    ensures Sections(Template(head, sheets), true).1 == Bodies(sheets)
  {
    LinesAsGroups(head, sheets);
    RuledIsClear(head);
    SkipNoHeaders(Terminated(head), Groups(sheets), true);
    SheetsAreSections(sheets);
  }

  /** The sections found in a filled template are its sheets, with the scores that were filled in. */
  lemma TemplateSections(head: seq<string>, sheets: seq<Sheet>)
    requires Ready(head, sheets)
    ensures Dictionary(Sections(Template(head, sheets), true).1) == Bodies(sheets)
    ensures |Bodies(sheets)| == |sheets| && DistinctKeys(Bodies(sheets))
    ensures forall k :: 0 <= k < |sheets| ==>
              Bodies(sheets)[k].0 == sheets[k].spec.topicId
              && FindScores(Bodies(sheets)[k].1, true) == Entered(sheets[k].spec.rubricDims, sheets[k].answers)
  {
    SheetsFound(head, sheets);
    BodyAt(sheets);
    DictionaryOfDistinct(Bodies(sheets));
    forall k | 0 <= k < |sheets|
      ensures FindScores(Bodies(sheets)[k].1, true) == Entered(sheets[k].spec.rubricDims, sheets[k].answers)
    {
      BodyHasItsScores(sheets[k], k < |sheets| - 1);
    }
  }

  /** Parsing succeeds exactly when no filled-in score is above 10, and then it returns exactly the scores that were
      filled in, leaving out topics without any; when it fails it names a filled-in score above 10. */
  lemma RoundTrip(head: seq<string>, sheets: seq<Sheet>, r: Outcome)
    requires Ready(head, sheets) && Parses(Template(head, sheets), r)
    ensures r.Scores? <==> forall i, j, t, d, v :: Answered(sheets, i, j, t, d, v) ==> v <= 10
    ensures r.Scores? ==> forall t, d, v :: Read(r.byTopic, t, d, v) <==> exists i, j :: Answered(sheets, i, j, t, d, v)
    ensures r.Scores? ==> forall t :: t in r.byTopic ==> r.byTopic[t] != map[]
    ensures r.OutOfRange? ==> r.score > 10 && exists i, j :: Answered(sheets, i, j, r.topic, r.dim, r.score)
  {
    TemplateSections(head, sheets);
    var sections := Bodies(sheets);
    if AllInRange(sections) {
      ScoresWithinRange(sheets, sections);
      ReadIsAnswered(sheets, sections);
    } else {
      FailureIsAnswered(sheets, sections, r);
    }
  }

  ghost predicate SectionsOf(sheets: seq<Sheet>, sections: seq<(string, string)>) {
    && AllComplete(sheets) && DistinctDims(sheets)
    && |sections| == |sheets| && DistinctKeys(sections)
    && forall k :: 0 <= k < |sheets| ==>
         && sections[k].0 == sheets[k].spec.topicId
         && FindScores(sections[k].1, true) == Entered(sheets[k].spec.rubricDims, sheets[k].answers)
  }

  lemma ScoresWithinRange(sheets: seq<Sheet>, sections: seq<(string, string)>)
    requires SectionsOf(sheets, sections) && AllInRange(sections)
    ensures forall i, j, t, d, v :: Answered(sheets, i, j, t, d, v) ==> v <= 10
  {
    forall i, j, t, d, v | Answered(sheets, i, j, t, d, v)
      ensures v <= 10
    {
      var k := EnteredAt(sheets[i].spec.rubricDims, sheets[i].answers, j);
      assert InRange(FindScores(sections[i].1, true));
    }
  }

  lemma ReadIsAnswered(sheets: seq<Sheet>, sections: seq<(string, string)>)
    requires SectionsOf(sheets, sections)
    ensures forall t, d, v :: Read(ResultOf(sections), t, d, v) <==> exists i, j :: Answered(sheets, i, j, t, d, v)
    ensures forall t :: t in ResultOf(sections) ==> ResultOf(sections)[t] != map[]
  {
    var result := ResultOf(sections);
    ResultHolds(sections);
    forall t, d, v | Read(result, t, d, v)
      ensures exists i, j :: Answered(sheets, i, j, t, d, v)
    {
      var i :| Section(sections, i, t, result[t]);
      EnteredHolds(sheets[i].spec.rubricDims, sheets[i].answers);
      var j :| IsEntry(sheets[i].spec.rubricDims, sheets[i].answers, j, d, v);
      assert Answered(sheets, i, j, t, d, v);
    }
    forall i, j, t, d, v | Answered(sheets, i, j, t, d, v)
      ensures Read(result, t, d, v)
    {
      EnteredHolds(sheets[i].spec.rubricDims, sheets[i].answers);
      assert Section(sections, i, t, ScoresAt(sections, i));
    }
  }

  lemma FailureIsAnswered(sheets: seq<Sheet>, sections: seq<(string, string)>, r: Outcome)
    requires SectionsOf(sheets, sections) && FirstOutOfRange(sections, r)
    ensures r.score > 10 && exists i, j :: Answered(sheets, i, j, r.topic, r.dim, r.score)
  {
    var k :| 0 <= k < |sections| && ReadFails(sections[k], r);
    var j := FailingEntry(sheets[k], sections[k], r);
    assert Answered(sheets, k, j, r.topic, r.dim, r.score);
  }

  lemma FailingEntry(sheet: Sheet, section: (string, string), r: Outcome) returns (j: nat)
    requires Complete(sheet) && FindScores(section.1, true) == Entered(sheet.spec.rubricDims, sheet.answers)
    requires ReadFails(section, r)
    ensures IsEntry(sheet.spec.rubricDims, sheet.answers, j, r.dim, r.score) && r.score > 10
  {
    var n :| FailsAt(FindScores(section.1, true), n, r.dim, r.score);
    j := EnteredFrom(sheet.spec.rubricDims, sheet.answers, n);
  }

  // ----- The template as written

  lemma {:induction false} PutWithoutScores(dict: seq<(string, string)>, topic: string, body: string)
    requires forall k | 0 <= k < |dict| :: FindScores(dict[k].1, true) == []
    requires FindScores(body, true) == []
    ensures forall k | 0 <= k < |Put(dict, topic, body)| :: FindScores(Put(dict, topic, body)[k].1, true) == []
  {
    if dict != [] && dict[0].0 != topic {
      PutWithoutScores(dict[1..], topic, body);
    }
  }

  lemma {:induction false} DictionaryWithoutScores(found: seq<(string, string)>)
    requires forall k | 0 <= k < |found| :: FindScores(found[k].1, true) == []
    ensures forall k | 0 <= k < |Dictionary(found)| :: FindScores(Dictionary(found)[k].1, true) == []
  {
    if found != [] {
      var n := |found| - 1;
      DictionaryWithoutScores(found[..n]);
      PutWithoutScores(Dictionary(found[..n]), found[n].0, found[n].1);
    }
  }

  lemma {:induction false} NothingToRead(sections: seq<(string, string)>)
    requires forall k | 0 <= k < |sections| :: FindScores(sections[k].1, true) == []
    ensures AllInRange(sections) && ResultOf(sections) == map[]
  {
    if sections != [] {
      NothingToRead(sections[..|sections| - 1]);
    }
  }

  ghost predicate Blank(sheet: Sheet) {
    forall j | 0 <= j < |sheet.answers| :: sheet.answers[j].None?
  }

  lemma {:induction false} AllBlank(specs: seq<PromptSpec>, records: seq<RawRecord>)
    ensures forall k | 0 <= k < |BlankSheets(specs, records)| :: Blank(BlankSheets(specs, records)[k])
  {
    if specs != [] && records != [] {
      AllBlank(specs[1..], records[1..]);
    }
  }

  lemma {:induction false} NothingEntered(dims: seq<string>, answers: seq<Option<nat>>)
    requires |dims| == |answers| && forall j | 0 <= j < |answers| :: answers[j].None?
    ensures Entered(dims, answers) == []
  {
    if dims != [] {
      NothingEntered(dims[1..], answers[1..]);
    }
  }

  /** The template as written, before anyone fills it in, holds no scores, whatever topics and dimensions are
      repeated. */
  lemma {:induction false} BlankTemplateIsEmpty(specs: seq<PromptSpec>, records: seq<RawRecord>, head: seq<string>,
                                                r: Outcome)
    requires ClearHead(head) && AllProper(BlankSheets(specs, records))
    requires Parses(Template(head, BlankSheets(specs, records)), r)
    ensures r == Scores(map[])
  {
    var sheets := BlankSheets(specs, records);
    AllBlank(specs, records);
    SheetsFound(head, sheets);
    BodyAt(sheets);
    forall k | 0 <= k < |sheets| ensures FindScores(Bodies(sheets)[k].1, true) == [] {
      BodyHasItsScores(sheets[k], k < |sheets| - 1);
      NothingEntered(sheets[k].spec.rubricDims, sheets[k].answers);
    }
    DictionaryWithoutScores(Bodies(sheets));
    NothingToRead(Dictionary(Bodies(sheets)));
  }

  // ----- What stands before the sheets

  lemma {:induction false} NoHeadersNoSections(s: string, lineStart: bool)
    requires NoHeaders(s, lineStart)
    ensures Sections(s, lineStart).1 == []
  {
    SkipNoHeaders(s, "", lineStart);
    assert s + "" == s;
  }

  predicate PlainLine(line: string) {
    OneLine(line) && (line == [] || line[0] != '#')
  }

  lemma {:induction false} PlainLinesNoHeaders(lines: seq<string>)
    requires forall k | 0 <= k < |lines| :: PlainLine(lines[k])
    ensures NoHeaders(Terminated(lines), true)
  {
    if lines != [] {
      PlainLinesNoHeaders(lines[1..]);
      PlainLineNoHeaders(lines[0], true);
      NoHeadersTogether(lines[0] + "\n", Terminated(lines[1..]), true);
    }
  }

  lemma {:induction false} TitleNoHeaders(title: string)
    requires OneLine(title) && |title| > 1 && title[..2] == "# "
    ensures NoHeaders(title + "\n", true)
  {
    var rest := title[1..] + "\n";
    assert (title + "\n")[1..] == rest;
    assert title[0] == title[..2][0] == '#' && title[1] == title[..2][1] == ' ';
    assert "## "[1..] == "# ";
    assert Literal(title + "\n", "## ") == Literal(rest, "# ") == Mismatch;
    PlainLineNoHeaders(title[1..], false);
  }

  predicate OneLineRun(run: RunInfo) {
    '\n' !in run.mode && '\n' !in run.generated && '\n' !in run.version && '\n' !in run.profile
  }

  lemma {:induction false} NoBreakIsOneLine(s: string)
    requires '\n' !in s
    ensures OneLine(s)
  {
    if s != [] {
      assert s == [s[0]] + s[1..];
      NoBreakIsOneLine(s[1..]);
    }
  }

  lemma {:induction false} NoBreakInDigits(s: string)
    requires All(s, Digits())
    ensures '\n' !in s
  {
    if s != [] {
      assert s == [s[0]] + s[1..];
      NoBreakInDigits(s[1..]);
    }
  }

  lemma {:induction false} TitleIsOneLine(run: RunInfo)
    requires OneLineRun(run)
    ensures OneLine(Title(run)) && |Title(run)| > 1 && Title(run)[..2] == "# "
  {
    DecimalRoundTrip(run.number);
    NoBreakInDigits(Decimal(run.number));
    NoBreakIsOneLine(Title(run));
  }

  lemma {:induction false} RunFactsArePlain(run: RunInfo)
    requires OneLineRun(run)
    ensures forall k | 0 <= k < |RunFacts(run)| :: PlainLine(RunFacts(run)[k])
  {
    NoBreakIsOneLine(RunFacts(run)[0]);
    NoBreakIsOneLine(RunFacts(run)[1]);
    NoBreakIsOneLine(RunFacts(run)[2]);
  }

  lemma {:induction false} HowToFillIsPlain()
    ensures PlainLine(HowToFill())
  {
    assert '\n' !in "Fill in an integer";
    assert '\n' !in " score (0-10) in each";
    assert '\n' !in " `score: ` line.";
    NoBreakIsOneLine(HowToFill());
  }

  lemma {:induction false} WhatRetrievalMeansIsPlain()
    ensures PlainLine(WhatRetrievalMeans())
  {
    assert '\n' !in "Categories with";
    assert '\n' !in " `retrieval-only:";
    assert '\n' !in " true` have blocks";
    assert '\n' !in " from DepthFusion";
    assert '\n' !in " below the prompt.";
    NoBreakIsOneLine(WhatRetrievalMeans());
  }

  lemma {:induction false} WhatElseToRunIsPlain()
    ensures PlainLine(WhatElseToRun())
  {
    assert '\n' !in "Other categories";
    assert '\n' !in " require running the";
    assert '\n' !in " prompt through Claude";
    assert '\n' !in " Code in a fresh";
    assert '\n' !in " session";
    NoBreakIsOneLine(WhatElseToRun());
  }

  lemma {:induction false} HowToScoreIsPlain()
    ensures PlainLine(HowToScore())
  {
    assert '\n' !in "and scoring the";
    assert '\n' !in " response against the";
    assert '\n' !in " rubric.";
    NoBreakIsOneLine(HowToScore());
  }

  lemma {:induction false} PlainTogether(a: seq<string>, b: seq<string>)
    requires NoHeaders(Terminated(a), true) && NoHeaders(Terminated(b), true)
    ensures NoHeaders(Terminated(a + b), true)
  {
    TerminatedTogether(a, b);
    NoHeadersTogether(Terminated(a), Terminated(b), true);
  }

  /** The heading that is written is clear as soon as what goes into it has no line breaks. */
  lemma {:induction false} RunLinesAreClear(run: RunInfo)
    requires OneLineRun(run)
    ensures ClearHead(RunLines(run))
  {
    RunFactsArePlain(run);
    PlainLinesNoHeaders(RunFacts(run));
    InstructionsNoHeaders();
    NoBreakIsOneLine("---");
    PlainLinesNoHeaders([""]);
    PlainLinesNoHeaders(["", "---"]);
    TitleLinesNoHeaders(run);
    FiveTogether([Title(run), ""], RunFacts(run), [""], Instructions(), ["", "---"]);
    NoHeadersNoSections(Terminated(RunLines(run)), true);
  }

  lemma {:induction false} InstructionsNoHeaders()
    ensures NoHeaders(Terminated(Instructions()), true)
  {
    HowToFillIsPlain();
    WhatRetrievalMeansIsPlain();
    WhatElseToRunIsPlain();
    HowToScoreIsPlain();
    FourLines(HowToFill(), WhatRetrievalMeans(), WhatElseToRun(), HowToScore());
  }

  lemma {:induction false} FourLines(a: string, b: string, c: string, d: string)
    requires PlainLine(a) && PlainLine(b) && PlainLine(c) && PlainLine(d)
    ensures NoHeaders(Terminated([a, b, c, d]), true)
  {
    PlainLinesNoHeaders([a, b, c, d]);
  }

  lemma {:induction false} FiveTogether(a: seq<string>, b: seq<string>, c: seq<string>, d: seq<string>, e: seq<string>)
    requires NoHeaders(Terminated(a), true) && NoHeaders(Terminated(b), true) && NoHeaders(Terminated(c), true)
    requires NoHeaders(Terminated(d), true) && NoHeaders(Terminated(e), true)
    ensures NoHeaders(Terminated(a + b + c + d + e), true)
  {
    PlainTogether(a, b);
    PlainTogether(a + b, c);
    PlainTogether(a + b + c, d);
    PlainTogether(a + b + c + d, e);
  }

  lemma {:induction false} TitleLinesNoHeaders(run: RunInfo)
    requires OneLineRun(run)
    ensures NoHeaders(Terminated([Title(run), ""]), true)
  {
    TitleIsOneLine(run);
    TitleNoHeaders(Title(run));
    PlainLinesNoHeaders([""]);
    assert [Title(run), ""][1..] == [""];
    NoHeadersTogether(Title(run) + "\n", Terminated([""]), true);
  }

  /** So what is written for a run parses to no scores. */
  lemma {:induction false} WrittenTemplateIsEmpty(specs: seq<PromptSpec>, records: seq<RawRecord>, run: RunInfo,
                                                  r: Outcome)
    requires OneLineRun(run) && AllProper(BlankSheets(specs, records))
    requires Parses(Template(RunLines(run), BlankSheets(specs, records)), r)
    ensures r == Scores(map[])
  {
    RunLinesAreClear(run);
    BlankTemplateIsEmpty(specs, records, RunLines(run), r);
  }
}
