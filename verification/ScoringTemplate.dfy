/** The scoring template: writing it, filling it in, and reading the scores back. */
module ScoringTemplate {
  import opened Options
  import opened ScoringText

  datatype Block = Block(source: string, stem: string, score: string, snippet: string)

  datatype PromptSpec = PromptSpec(categoryId: string, topicId: string, categoryName: string,
                                   renderedPrompt: string, retrievalOnly: bool, rubricDims: seq<string>)

  datatype RawRecord = RawRecord(retrievalError: string, retrievalBlocks: seq<Block>)

  datatype RunInfo = RunInfo(mode: string, number: nat, generated: string, version: string, profile: string)

  /** One topic's part of the template, with what has been filled in so far. */
  datatype Sheet = Sheet(spec: PromptSpec, record: RawRecord, answers: seq<Option<nat>>, notes: string)

  // ----- Numbers

  function Decimal(n: nat): string {
    if n < 10 then [DigitOf(n)] else Decimal(n / 10) + [DigitOf(n % 10)]
  }

  function DigitOf(d: nat): char
    requires d < 10
  {
    '0' + d as char
  }

  /** `int` of a run of digits. */
  function ValueOf(digits: string): nat {
    if digits == [] then 0
    else 10 * ValueOf(digits[..|digits| - 1]) + FaceOf(digits[|digits| - 1])
  }

  function FaceOf(c: char): nat {
    if Digit(c) then c as nat - '0' as nat else 0
  }

  predicate All(s: string, p: char -> bool) {
    s == [] || (p(s[0]) && All(s[1..], p))
  }

  lemma {:induction false} AllTogether(s: string, t: string, p: char -> bool)
    requires All(s, p) && All(t, p)
    ensures All(s + t, p)
  {
    if s == [] {
      assert s + t == t;
    } else {
      assert (s + t)[1..] == s[1..] + t;
      AllTogether(s[1..], t, p);
    }
  }

  lemma {:induction false} DecimalRoundTrip(n: nat)
    ensures ValueOf(Decimal(n)) == n && Decimal(n) != [] && All(Decimal(n), Digits())
  {
    if n < 10 {
      assert Decimal(n)[..0] == [] && Decimal(n)[1..] == [];
    } else {
      DecimalRoundTrip(n / 10);
      var last := [DigitOf(n % 10)];
      assert Decimal(n)[..|Decimal(n)| - 1] == Decimal(n / 10);
      assert last[1..] == [];
      AllTogether(Decimal(n / 10), last, Digits());
    }
  }

  // ----- Writing

  function Joined(lines: seq<string>): string {
    if |lines| == 0 then [] else if |lines| == 1 then lines[0] else lines[0] + "\n" + Joined(lines[1..])
  }

  /** Every line with its newline. */
  function Terminated(lines: seq<string>): string {
    if lines == [] then [] else lines[0] + "\n" + Terminated(lines[1..])
  }

  lemma {:induction false} JoinedWithEmptyEnd(lines: seq<string>)
    ensures Joined(lines + [""]) == Terminated(lines)
  {
    if lines == [] {
      assert lines + [""] == [""];
    } else {
      assert (lines + [""])[1..] == lines[1..] + [""];
      JoinedWithEmptyEnd(lines[1..]);
    }
  }

  lemma {:induction false} TerminatedTogether(a: seq<string>, b: seq<string>)
    ensures Terminated(a + b) == Terminated(a) + Terminated(b)
  {
    if a == [] {
      assert a + b == b;
      assert Terminated(a) + Terminated(b) == Terminated(b);
    } else {
      assert (a + b)[1..] == a[1..] + b;
      TerminatedTogether(a[1..], b);
      assert a[0] + "\n" + (Terminated(a[1..]) + Terminated(b)) == (a[0] + "\n" + Terminated(a[1..])) + Terminated(b);
    }
  }

  function Title(run: RunInfo): string {
    "# CIQS Scoring Template - " + run.mode + " / run " + Decimal(run.number)
  }

  function RunFacts(run: RunInfo): seq<string> {
    ["> Generated: " + run.generated, "> DepthFusion version: " + run.version, "> Profile: " + run.profile]
  }

  function HowToFill(): string {
    "Fill in an integer" + " score (0-10) in each" + " `score: ` line."
  }

  function WhatRetrievalMeans(): string {
    "Categories with" + " `retrieval-only:" + " true` have blocks" + " from DepthFusion" + " below the prompt."
  }

  function WhatElseToRun(): string {
    "Other categories" + " require running the" + " prompt through Claude" + " Code in a fresh" + " session"
  }

  function HowToScore(): string {
    "and scoring the" + " response against the" + " rubric."
  }

  function Instructions(): seq<string> {
    [HowToFill(), WhatRetrievalMeans(), WhatElseToRun(), HowToScore()]
  }

  function RunLines(run: RunInfo): seq<string> {
    [Title(run), ""] + RunFacts(run) + [""] + Instructions() + ["", "---"]
  }

  function HeaderLine(spec: PromptSpec): string {
    Header(spec) + (" " + spec.categoryName)
  }

  /** What the header pattern matches. */
  function Header(spec: PromptSpec): string {
    "## " + spec.categoryId + " / " + spec.topicId + " -"
  }

  function StripEnd(s: string): string {
    if s != [] && Space(s[|s| - 1]) then StripEnd(s[..|s| - 1]) else s
  }

  function PromptLines(spec: PromptSpec): seq<string> {
    ["", "**Prompt:**", "", "```", StripEnd(spec.renderedPrompt), "```", "",
     "retrieval-only: " + (if spec.retrievalOnly then "True" else "False"), ""]
  }

  function BlockLines(blocks: seq<Block>, i: nat): seq<string> {
    if blocks == [] then []
    else [BlockLine(blocks[0], i), SnippetLine(blocks[0])] + BlockLines(blocks[1..], i + 1)
  }

  function BlockLine(b: Block, i: nat): string {
    Decimal(i) + ". `" + b.source + "` / `" + b.stem + "` (score=" + b.score + ")"
  }

  function SnippetLine(b: Block): string {
    "   > " + b.snippet[..if |b.snippet| < 240 then |b.snippet| else 240]
  }

  function RetrievalLines(spec: PromptSpec, record: RawRecord): seq<string> {
    if !spec.retrievalOnly then []
    else if record.retrievalError != "" then ["**Retrieval error:** `" + record.retrievalError + "`", ""]
    else if record.retrievalBlocks == [] then ["**Retrieval returned 0 blocks.**", ""]
    else ["**Retrieved " + Decimal(|record.retrievalBlocks|) + " blocks:**", ""]
         + BlockLines(record.retrievalBlocks, 1) + [""]
  }

  function ScoresHeading(): seq<string> {
    ["**Scores (0-10 each):**", ""]
  }

  function Entry(answer: Option<nat>): string {
    if answer.Some? then Decimal(answer.value) else ""
  }

  function ScoreLine(dim: string, answer: Option<nat>): string {
    "- " + dim + ": `score: " + Entry(answer) + "`"
  }

  function ScoreLines(dims: seq<string>, answers: seq<Option<nat>>): seq<string>
    requires |dims| == |answers|
  {
    if dims == [] then [] else [ScoreLine(dims[0], answers[0])] + ScoreLines(dims[1..], answers[1..])
  }

  function NotesLines(notes: string): seq<string> {
    ["", "**Notes:** " + notes, "", "---"]
  }

  predicate Complete(sheet: Sheet) {
    |sheet.spec.rubricDims| == |sheet.answers|
  }

  predicate AllComplete(sheets: seq<Sheet>) {
    forall k :: 0 <= k < |sheets| ==> Complete(sheets[k])
  }

  /** A sheet's lines, without the empty one that follows it. */
  function SheetLines(sheet: Sheet): seq<string>
    requires Complete(sheet)
  {
    [HeaderLine(sheet.spec)] + PromptLines(sheet.spec) + RetrievalLines(sheet.spec, sheet.record) + ScoresHeading()
    + ScoreLines(sheet.spec.rubricDims, sheet.answers) + NotesLines(sheet.notes)
  }

  function AllSheetLines(sheets: seq<Sheet>): seq<string>
    requires AllComplete(sheets)
  {
    if sheets == [] then [] else SheetLines(sheets[0]) + [""] + AllSheetLines(sheets[1..])
  }

  /** The template as a file: what stands before the sheets, and the sheets, as lines joined by newlines. */
  function Template(head: seq<string>, sheets: seq<Sheet>): string
    requires AllComplete(sheets)
  {
    Joined(head + [""] + AllSheetLines(sheets))
  }

  function BlankSheet(spec: PromptSpec, record: RawRecord): Sheet {
    Sheet(spec, record, seq(|spec.rubricDims|, _ => None), "")
  }

  /** What is written before anyone fills it in; `zip` stops with the shorter list. */
  function BlankSheets(specs: seq<PromptSpec>, records: seq<RawRecord>): (sheets: seq<Sheet>)
    ensures AllComplete(sheets)
  {
    if specs == [] || records == [] then []
    else [BlankSheet(specs[0], records[0])] + BlankSheets(specs[1..], records[1..])
  }

  method WriteScoringTemplate(specs: seq<PromptSpec>, records: seq<RawRecord>, run: RunInfo) returns (text: string)
    ensures text == Template(RunLines(run), BlankSheets(specs, records))
  {
    var lines := WriteSheets(RunLines(run) + [""], specs, records);
    text := Joined(lines);
  }

  /** The loop over the topics, appending to the lines written before. */
  method WriteSheets(before: seq<string>, specs: seq<PromptSpec>, records: seq<RawRecord>) returns (lines: seq<string>)
    ensures lines == before + AllSheetLines(BlankSheets(specs, records))
  {
    lines := before;
    ghost var whole := lines + AllSheetLines(BlankSheets(specs, records));
    var i := 0;
    assert specs[0..] == specs && records[0..] == records;
    while i < |specs| && i < |records|
      invariant i <= |specs| && i <= |records|
      invariant lines + AllSheetLines(BlankSheets(specs[i..], records[i..])) == whole
    {
      OneSheetMore(lines, specs[i..], records[i..]);
      assert specs[i..][1..] == specs[i + 1..] && records[i..][1..] == records[i + 1..];
      lines := WriteSheet(lines, specs[i], records[i]);
      i := i + 1;
    }
    assert lines + [] == lines;
  }

  /** One turn of that loop. */
  method WriteSheet(before: seq<string>, spec: PromptSpec, record: RawRecord) returns (lines: seq<string>)
    ensures lines == before + (SheetLines(BlankSheet(spec, record)) + [""])
  {
    var own := WriteOpening(spec);
    if spec.retrievalOnly {
      var retrieval := WriteRetrieval(record);
      own := own + retrieval;
    }
    assert own == [HeaderLine(spec)] + PromptLines(spec) + RetrievalLines(spec, record);
    own := own + ["**Scores (0-10 each):**", ""];
    var scores := WriteScoreLines(spec.rubricDims);
    own := own + scores;
    own := own + ["", "**Notes:** ", "", "---", ""];
    assert "**Notes:** " + "" == "**Notes:** ";
    assert ["", "**Notes:** ", "", "---", ""] == NotesLines("") + [""];
    lines := before + own;
  }

  method WriteOpening(spec: PromptSpec) returns (lines: seq<string>)
    ensures lines == [HeaderLine(spec)] + PromptLines(spec)
  {
    var header := "## " + spec.categoryId + " / " + spec.topicId + " - " + spec.categoryName;
    assert header == HeaderLine(spec);
    lines := [header, "", "**Prompt:**", "", "```"];
    var prompt := RStrip(spec.renderedPrompt);
    lines := lines + [prompt, "```", ""];
    lines := lines + ["retrieval-only: " + if spec.retrievalOnly then "True" else "False", ""];
  }

  /** `rstrip`. */
  method RStrip(s: string) returns (t: string)
    ensures t == StripEnd(s)
  {
    t := s;
    while t != [] && (t[|t| - 1] == ' ' || '\t' <= t[|t| - 1] <= '\r' || '\U{1C}' <= t[|t| - 1] <= '\U{1F}')
      invariant StripEnd(t) == StripEnd(s)
      decreases |t|
    {
      t := t[..|t| - 1];
    }
  }

  lemma OneSheetMore(lines: seq<string>, specs: seq<PromptSpec>, records: seq<RawRecord>)
    requires specs != [] && records != []
    ensures lines + AllSheetLines(BlankSheets(specs, records))
            == lines + (SheetLines(BlankSheet(specs[0], records[0])) + [""])
               + AllSheetLines(BlankSheets(specs[1..], records[1..]))
  {
    var sheets := BlankSheets(specs, records);
    assert sheets[1..] == BlankSheets(specs[1..], records[1..]);
    var first, later := SheetLines(sheets[0]) + [""], AllSheetLines(sheets[1..]);
    assert AllSheetLines(sheets) == first + later;
    assert lines + (first + later) == lines + first + later;
  }

  method WriteRetrieval(record: RawRecord) returns (lines: seq<string>)
    ensures forall spec: PromptSpec :: spec.retrievalOnly ==> lines == RetrievalLines(spec, record)
  {
    var blocks := record.retrievalBlocks;
    if record.retrievalError != "" {
      lines := ["**Retrieval error:** `" + record.retrievalError + "`", ""];
    } else if blocks == [] {
      lines := ["**Retrieval returned 0 blocks.**", ""];
    } else {
      lines := ["**Retrieved " + Decimal(|blocks|) + " blocks:**", ""];
      ghost var whole := lines + BlockLines(blocks, 1);
      var i := 0;
      while i < |blocks|
        invariant i <= |blocks|
        invariant lines + BlockLines(blocks[i..], i + 1) == whole
      {
        ghost var start := lines;
        var b := blocks[i];
        lines := lines + [Decimal(i + 1) + ". `" + b.source + "` / `" + b.stem + "` (score=" + b.score + ")"];
        var snippet := if |b.snippet| <= 240 then b.snippet else b.snippet[..240];
        assert |b.snippet| <= 240 ==> b.snippet[..|b.snippet|] == b.snippet;
        assert "   > " + snippet == SnippetLine(b);
        lines := lines + ["   > " + snippet];
        assert blocks[i..][1..] == blocks[i + 1..];
        assert start + ([BlockLine(blocks[i], i + 1), SnippetLine(blocks[i])] + BlockLines(blocks[i + 1..], i + 2))
            == lines + BlockLines(blocks[i + 1..], i + 2);
        i := i + 1;
      }
      assert lines + [] == lines;
      lines := lines + [""];
    }
  }

  method WriteScoreLines(dims: seq<string>) returns (lines: seq<string>)
    ensures lines == ScoreLines(dims, seq(|dims|, _ => None))
  {
    lines := [];
    ghost var none := seq(|dims|, _ => None);
    var i := 0;
    while i < |dims|
      invariant i <= |dims|
      invariant lines + ScoreLines(dims[i..], none[i..]) == ScoreLines(dims, none)
    {
      ghost var start := lines;
      lines := lines + ["- " + dims[i] + ": `score: `"];
      assert dims[i..][1..] == dims[i + 1..] && none[i..][1..] == none[i + 1..];
      assert "- " + dims[i] + ": `score: `" == ScoreLine(dims[i], None);
      assert start + ([ScoreLine(dims[i], None)] + ScoreLines(dims[i + 1..], none[i + 1..]))
          == lines + ScoreLines(dims[i + 1..], none[i + 1..]);
      i := i + 1;
    }
    assert lines + [] == lines;
  }

  // ----- Reading back

  /** The scores by topic and dimension, or the score that is out of range. */
  datatype Outcome = Scores(byTopic: map<string, map<string, nat>>) | OutOfRange(topic: string, dim: string, score: nat)

  /** Assignment to a key of an insertion-ordered dictionary. */
  function Put(dict: seq<(string, string)>, topic: string, body: string): seq<(string, string)> {
    if dict == [] then [(topic, body)]
    else if dict[0].0 == topic then [(topic, body)] + dict[1..]
    else [dict[0]] + Put(dict[1..], topic, body)
  }

  function Dictionary(found: seq<(string, string)>): seq<(string, string)> {
    if found == [] then [] else
    var n := |found| - 1;
    Put(Dictionary(found[..n]), found[n].0, found[n].1)
  }

  /** The dictionary of a section's score lines: the last line for a dimension counts. */
  function ScoresOf(lines: seq<(string, string)>): map<string, nat> {
    if lines == [] then map[] else
    var n := |lines| - 1;
    ScoresOf(lines[..n])[lines[n].0 := ValueOf(lines[n].1)]
  }

  predicate InRange(lines: seq<(string, string)>) {
    forall k :: 0 <= k < |lines| ==> ValueOf(lines[k].1) <= 10
  }

  predicate AllInRange(sections: seq<(string, string)>) {
    forall k :: 0 <= k < |sections| ==> InRange(FindScores(sections[k].1, true))
  }

  function ResultOf(sections: seq<(string, string)>): map<string, map<string, nat>> {
    if sections == [] then map[] else
    var n := |sections| - 1;
    WithScores(ResultOf(sections[..n]), sections[n].0, ScoresOf(FindScores(sections[n].1, true)))
  }

  /** A topic without scores is left out. */
  function WithScores(result: map<string, map<string, nat>>, topic: string, scores: map<string, nat>)
    : map<string, map<string, nat>>
  {
    if scores == map[] then result else result[topic := scores]
  }

  /** The first score out of range, section by section. */
  ghost predicate FirstOutOfRange(sections: seq<(string, string)>, r: Outcome) {
    exists k :: 0 <= k < |sections| && AllInRange(sections[..k]) && ReadFails(sections[k], r)
  }

  ghost predicate ReadFails(section: (string, string), r: Outcome) {
    r.OutOfRange? && r.topic == section.0 && exists j :: FailsAt(FindScores(section.1, true), j, r.dim, r.score)
  }

  ghost predicate FailsAt(lines: seq<(string, string)>, j: int, dim: string, score: nat) {
    && 0 <= j < |lines| && InRange(lines[..j])
    && lines[j].0 == dim && ValueOf(lines[j].1) == score && score > 10
  }

  /** What parsing promises for any text. */
  ghost predicate Parses(text: string, r: Outcome) {
    var sections := Dictionary(Sections(text, true).1);
    if AllInRange(sections) then r == Scores(ResultOf(sections)) else FirstOutOfRange(sections, r)
  }

  lemma FailureIsFirst(sections: seq<(string, string)>, k: nat, r: Outcome)
    requires k < |sections| && AllInRange(sections[..k]) && ReadFails(sections[k], r)
    ensures !AllInRange(sections) && FirstOutOfRange(sections, r)
  {
    var j :| FailsAt(FindScores(sections[k].1, true), j, r.dim, r.score);
    assert !InRange(FindScores(sections[k].1, true));
  }

  lemma OneSectionMore(sections: seq<(string, string)>, k: nat)
    requires k < |sections| && AllInRange(sections[..k]) && InRange(FindScores(sections[k].1, true))
    ensures AllInRange(sections[..k + 1])
    ensures ResultOf(sections[..k + 1])
            == WithScores(ResultOf(sections[..k]), sections[k].0, ScoresOf(FindScores(sections[k].1, true)))
  {
    assert sections[..k + 1][..k] == sections[..k];
  }

  method ParseScoringTemplate(text: string) returns (r: Outcome)
    ensures Parses(text, r)
  {
    var sections := CollectSections(Sections(text, true).1);
    var result: map<string, map<string, nat>> := map[];
    for k := 0 to |sections|
      invariant AllInRange(sections[..k]) && result == ResultOf(sections[..k])
    {
      var read := ReadScores(sections[k]);
      if read.OutOfRange? {
        FailureIsFirst(sections, k, read);
        return read;
      }
      OneSectionMore(sections, k);
      var scores := read.byTopic[sections[k].0];
      if scores != map[] {
        result := result[sections[k].0 := scores];
      }
    }
    assert sections[..|sections|] == sections;
    r := Scores(result);
  }

  method CollectSections(found: seq<(string, string)>) returns (sections: seq<(string, string)>)
    ensures sections == Dictionary(found)
  {
    sections := [];
    for i := 0 to |found|
      invariant sections == Dictionary(found[..i])
    {
      assert found[..i + 1][..i] == found[..i];
      sections := Put(sections, found[i].0, found[i].1);
    }
    assert found[..|found|] == found;
  }

  /** One section's scores, or its first score out of range. */
  method ReadScores(section: (string, string)) returns (r: Outcome)
    ensures var lines := FindScores(section.1, true);
            if r.Scores? then InRange(lines) && r.byTopic == map[section.0 := ScoresOf(lines)]
            else ReadFails(section, r)
  {
    var lines := FindScores(section.1, true);
    var scores: map<string, nat> := map[];
    for j := 0 to |lines|
      invariant InRange(lines[..j]) && scores == ScoresOf(lines[..j])
    {
      var value := ValueOf(lines[j].1);
      if value > 10 {
        r := OutOfRange(section.0, lines[j].0, value);
        assert FailsAt(lines, j, r.dim, r.score);
        return;
      }
      assert lines[..j + 1][..j] == lines[..j];
      scores := scores[lines[j].0 := value];
    }
    assert lines[..|lines|] == lines;
    r := Scores(map[section.0 := scores]);
  }
}
