/** What can be read in the scoring template as it is written. */
module TemplateText {
  import opened Options
  import opened ScoringText
  import opened ScoringTemplate

  /** `rstrip`: what is left of the text ends with no white space, and what is gone is nothing else. */
  ghost predicate IsStripped(s: string, t: string) {
    && t <= s && (t != [] ==> !White(t[|t| - 1])) && forall i | |t| <= i < |s| :: White(s[i])
  }

  predicate White(c: char) {
    c == ' ' || 9 <= c as int <= 13 || 28 <= c as int <= 31
  }

  lemma {:induction false} StripEndIs(s: string)
    ensures IsStripped(s, StripEnd(s))
  {
    if s != [] && Space(s[|s| - 1]) {
      StripEndIs(s[..|s| - 1]);
    }
  }

  /** The lines stand one after the other from this place on. */
  ghost predicate StandAt(lines: seq<string>, at: nat, part: seq<string>) {
    at + |part| <= |lines| && lines[at..at + |part|] == part
  }

  lemma {:induction false} StandsIn(before: seq<string>, part: seq<string>, after: seq<string>)
    ensures StandAt(before + part + after, |before|, part)
  {
  }

  lemma {:induction false} StandsWithin(lines: seq<string>, at: nat, part: seq<string>, inner: seq<string>, off: nat)
    requires StandAt(lines, at, part) && StandAt(part, off, inner)
    ensures StandAt(lines, at + off, inner)
  {
    forall k | 0 <= k < |inner| ensures lines[at + off + k] == inner[k] {
      assert part[off..off + |inner|][k] == part[off + k];
      assert lines[at..at + |part|][off + k] == lines[at + off + k];
    }
    assert lines[at + off..at + off + |inner|] == inner;
  }

  function Opening(spec: PromptSpec, prompt: string): seq<string> {
    ["## " + spec.categoryId + " / " + spec.topicId + " - " + spec.categoryName, "", "**Prompt:**", "",
     "```", prompt, "```", "",
     "retrieval-only: " + if spec.retrievalOnly then "True" else "False", ""]
  }

  /** A topic's heading and prompt. */
  ghost predicate ShowsPrompt(lines: seq<string>, at: nat, spec: PromptSpec) {
    exists prompt :: IsStripped(spec.renderedPrompt, prompt) && StandAt(lines, at, Opening(spec, prompt))
  }

  /** A retrieved block: its number, source, file and score, and the first 240 characters of its text. */
  ghost predicate ShowsBlock(lines: seq<string>, at: nat, b: Block, number: nat) {
    exists snippet :: (if |b.snippet| <= 240 then snippet == b.snippet else |snippet| == 240 && snippet <= b.snippet)
                      && StandAt(lines, at, BlockWith(b, number, snippet))
  }

  function BlockWith(b: Block, number: nat, snippet: string): seq<string> {
    [Decimal(number) + ". `" + b.source + "` / `" + b.stem + "` (score=" + b.score + ")", "   > " + snippet]
  }

  lemma {:induction false} OpeningIs(spec: PromptSpec)
    ensures [HeaderLine(spec)] + PromptLines(spec) == Opening(spec, StripEnd(spec.renderedPrompt))
  {
    assert "## " + spec.categoryId + " / " + spec.topicId + " - " + spec.categoryName == HeaderLine(spec);
  }

  lemma {:induction false} SheetIsParts(sheet: Sheet)
    requires Complete(sheet)
    ensures SheetLines(sheet)
            == ([HeaderLine(sheet.spec)] + PromptLines(sheet.spec)) + RetrievalLines(sheet.spec, sheet.record)
               + (ScoresHeading() + ScoreLines(sheet.spec.rubricDims, sheet.answers) + NotesLines(sheet.notes))
  {
  }

  lemma {:induction false} SheetShowsPrompt(sheet: Sheet)
    requires Complete(sheet)
    ensures ShowsPrompt(SheetLines(sheet), 0, sheet.spec)
  {
    var opening := [HeaderLine(sheet.spec)] + PromptLines(sheet.spec);
    var rest := RetrievalLines(sheet.spec, sheet.record)
                + (ScoresHeading() + ScoreLines(sheet.spec.rubricDims, sheet.answers) + NotesLines(sheet.notes));
    SheetIsParts(sheet);
    assert SheetLines(sheet) == [] + opening + rest;
    StandsIn([], opening, rest);
    StripEndIs(sheet.spec.renderedPrompt);
    OpeningIs(sheet.spec);
  }

  lemma {:induction false} FirstBlockShown(b: Block, i: nat, later: seq<string>)
    ensures ShowsBlock([BlockLine(b, i), SnippetLine(b)] + later, 0, b, i)
  {
    var snippet := b.snippet[..if |b.snippet| < 240 then |b.snippet| else 240];
    assert |b.snippet| <= 240 ==> snippet == b.snippet;
    assert BlockWith(b, i, snippet) == [BlockLine(b, i), SnippetLine(b)];
    assert [BlockLine(b, i), SnippetLine(b)] + later == [] + [BlockLine(b, i), SnippetLine(b)] + later;
    StandsIn([], [BlockLine(b, i), SnippetLine(b)], later);
  }

  lemma {:induction false} BlocksShown(blocks: seq<Block>, i: nat, k: nat)
    requires k < |blocks|
    ensures ShowsBlock(BlockLines(blocks, i), 2 * k, blocks[k], i + k)
  {
    var own, later := [BlockLine(blocks[0], i), SnippetLine(blocks[0])], BlockLines(blocks[1..], i + 1);
    if k == 0 {
      FirstBlockShown(blocks[0], i, later);
    } else {
      BlocksShown(blocks[1..], i + 1, k - 1);
      assert own + later == own + later + [];
      StandsIn(own, later, []);
      BlockWithin(own + later, 2, later, 2 * (k - 1), blocks[k], i + k);
    }
  }

  lemma {:induction false} BlockWithin(lines: seq<string>, at: nat, part: seq<string>, off: nat, b: Block, number: nat)
    requires StandAt(lines, at, part) && ShowsBlock(part, off, b, number)
    ensures ShowsBlock(lines, at + off, b, number)
  {
    var snippet :| (if |b.snippet| <= 240 then snippet == b.snippet else |snippet| == 240 && snippet <= b.snippet)
                   && StandAt(part, off, BlockWith(b, number, snippet));
    StandsWithin(lines, at, part, BlockWith(b, number, snippet), off);
  }

  /** Each dimension's line, with nothing filled in. */
  lemma {:induction false} ScoreLineAt(dims: seq<string>, answers: seq<Option<nat>>, j: nat)
    requires |dims| == |answers| && j < |dims| && answers[j].None?
    ensures |ScoreLines(dims, answers)| == |dims|
    ensures ScoreLines(dims, answers)[j] == "- " + dims[j] + ": `score: `"
  {
    if j > 0 {
      ScoreLineAt(dims[1..], answers[1..], j - 1);
    } else {
      ScoreLinesNumber(dims, answers);
      assert "- " + dims[0] + ": `score: " + "" + "`" == "- " + dims[0] + ": `score: `";
    }
  }

  lemma {:induction false} ScoreLinesNumber(dims: seq<string>, answers: seq<Option<nat>>)
    requires |dims| == |answers|
    ensures |ScoreLines(dims, answers)| == |dims|
  {
    if dims != [] {
      ScoreLinesNumber(dims[1..], answers[1..]);
    }
  }

  lemma {:induction false} Regroup(a: seq<string>, b: seq<string>, c: seq<string>, d: seq<string>)
    ensures a + (b + c + d) == a + b + (c + d) == (a + b + c) + d
  {
  }

  /** Where a sheet stands. */
  lemma {:induction false} SheetAt(before: seq<string>, sheets: seq<Sheet>, k: nat) returns (at: nat)
    requires AllComplete(sheets) && k < |sheets|
    ensures StandAt(before + AllSheetLines(sheets), at, SheetLines(sheets[k]))
    decreases k
  {
    var own, later := SheetLines(sheets[0]), AllSheetLines(sheets[1..]);
    Regroup(before, own, [""], later);
    if k == 0 {
      at := |before|;
      StandsIn(before, own, [""] + later);
    } else {
      at := SheetAt(before + own + [""], sheets[1..], k - 1);
    }
  }

  lemma {:induction false} BlankSheetsAre(specs: seq<PromptSpec>, records: seq<RawRecord>, k: nat)
    requires k < |specs| && k < |records|
    ensures k < |BlankSheets(specs, records)| && BlankSheets(specs, records)[k] == BlankSheet(specs[k], records[k])
  {
    if k > 0 {
      BlankSheetsAre(specs[1..], records[1..], k - 1);
    }
  }

  lemma {:induction false} PromptWithin(lines: seq<string>, at: nat, part: seq<string>, spec: PromptSpec)
    requires StandAt(lines, at, part) && ShowsPrompt(part, 0, spec)
    ensures ShowsPrompt(lines, at, spec)
  {
    var prompt :| IsStripped(spec.renderedPrompt, prompt) && StandAt(part, 0, Opening(spec, prompt));
    StandsWithin(lines, at, part, Opening(spec, prompt), 0);
  }

  /** What is written has a sheet for every topic. */
  lemma {:induction false} WrittenSheet(specs: seq<PromptSpec>, records: seq<RawRecord>, run: RunInfo, k: nat)
    returns (lines: seq<string>, at: nat, sheet: Sheet)
    requires k < |specs| && k < |records|
    ensures Template(RunLines(run), BlankSheets(specs, records)) == Joined(lines)
    ensures sheet == BlankSheet(specs[k], records[k]) && StandAt(lines, at, SheetLines(sheet))
  {
    var sheets := BlankSheets(specs, records);
    BlankSheetsAre(specs, records, k);
    lines, sheet := RunLines(run) + [""] + AllSheetLines(sheets), sheets[k];
    at := SheetAt(RunLines(run) + [""], sheets, k);
  }

  /** The file begins with what the run was. */
  lemma {:induction false} WrittenShowsRun(specs: seq<PromptSpec>, records: seq<RawRecord>, run: RunInfo)
    returns (lines: seq<string>)
    ensures Template(RunLines(run), BlankSheets(specs, records)) == Joined(lines)
    ensures StandAt(lines, 0, ["# CIQS Scoring Template - " + run.mode + " / run " + Decimal(run.number), "",
                               "> Generated: " + run.generated, "> DepthFusion version: " + run.version,
                               "> Profile: " + run.profile, ""])
  {
    lines := RunLines(run) + [""] + AllSheetLines(BlankSheets(specs, records));
    RunLinesBegin(run, [""] + AllSheetLines(BlankSheets(specs, records)));
  }

  lemma {:induction false} RunLinesBegin(run: RunInfo, later: seq<string>)
    ensures StandAt(RunLines(run) + later, 0, [Title(run), ""] + RunFacts(run) + [""])
  {
  }

  /** It shows every topic's heading and prompt. */
  lemma {:induction false} WrittenShowsPrompts(specs: seq<PromptSpec>, records: seq<RawRecord>, run: RunInfo, k: nat)
    returns (lines: seq<string>, at: nat)
    requires k < |specs| && k < |records|
    ensures Template(RunLines(run), BlankSheets(specs, records)) == Joined(lines) && ShowsPrompt(lines, at, specs[k])
  {
    var sheet;
    lines, at, sheet := WrittenSheet(specs, records, run, k);
    SheetShowsPrompt(sheet);
    PromptWithin(lines, at, SheetLines(sheet), specs[k]);
  }

  /** And every retrieved block of a topic that has them. */
  lemma {:induction false} WrittenShowsBlocks(specs: seq<PromptSpec>, records: seq<RawRecord>, run: RunInfo, k: nat,
                                              j: nat)
    returns (lines: seq<string>, at: nat)
    requires k < |specs| && k < |records| && specs[k].retrievalOnly && records[k].retrievalError == ""
    requires j < |records[k].retrievalBlocks|
    ensures Template(RunLines(run), BlankSheets(specs, records)) == Joined(lines)
    ensures ShowsBlock(lines, at, records[k].retrievalBlocks[j], j + 1)
  {
    var sheet;
    lines, at, sheet := WrittenSheet(specs, records, run, k);
    var off := SheetShowsBlock(sheet, j);
    BlockWithin(lines, at, SheetLines(sheet), off, records[k].retrievalBlocks[j], j + 1);
    at := at + off;
  }

  lemma {:induction false} FiveParts(a: seq<string>, b: seq<string>, c: seq<string>, d: seq<string>)
    ensures a + (b + c + [""]) + d == (a + b) + c + ([""] + d)
  {
  }

  lemma {:induction false} BlocksInSheet(sheet: Sheet) returns (before: seq<string>, after: seq<string>)
    requires Complete(sheet) && sheet.spec.retrievalOnly && sheet.record.retrievalError == ""
    requires sheet.record.retrievalBlocks != []
    ensures SheetLines(sheet) == before + BlockLines(sheet.record.retrievalBlocks, 1) + after
  {
    var blocks := sheet.record.retrievalBlocks;
    var opening := [HeaderLine(sheet.spec)] + PromptLines(sheet.spec);
    var head := ["**Retrieved " + Decimal(|blocks|) + " blocks:**", ""];
    var rest := ScoresHeading() + ScoreLines(sheet.spec.rubricDims, sheet.answers) + NotesLines(sheet.notes);
    SheetIsParts(sheet);
    FiveParts(opening, head, BlockLines(blocks, 1), rest);
    before, after := opening + head, [""] + rest;
  }

  lemma {:induction false} SheetShowsBlock(sheet: Sheet, j: nat) returns (off: nat)
    requires Complete(sheet) && sheet.spec.retrievalOnly && sheet.record.retrievalError == ""
    requires j < |sheet.record.retrievalBlocks|
    ensures ShowsBlock(SheetLines(sheet), off, sheet.record.retrievalBlocks[j], j + 1)
  {
    var blocks := sheet.record.retrievalBlocks;
    var before, after := BlocksInSheet(sheet);
    BlockBetween(SheetLines(sheet), before, blocks, after, j);
    off := |before| + 2 * j;
  }

  lemma {:induction false} BlockBetween(lines: seq<string>, before: seq<string>, blocks: seq<Block>, after: seq<string>,
                                        j: nat)
    requires j < |blocks| && lines == before + BlockLines(blocks, 1) + after
    ensures ShowsBlock(lines, |before| + 2 * j, blocks[j], j + 1)
  {
    BlocksShown(blocks, 1, j);
    StandsIn(before, BlockLines(blocks, 1), after);
    BlockWithin(lines, |before|, BlockLines(blocks, 1), 2 * j, blocks[j], j + 1);
  }

  /** And an empty score line for every dimension. */
  lemma {:induction false} WrittenShowsDims(specs: seq<PromptSpec>, records: seq<RawRecord>, run: RunInfo, k: nat,
                                            j: nat)
    returns (lines: seq<string>, at: nat)
    requires k < |specs| && k < |records| && j < |specs[k].rubricDims|
    ensures Template(RunLines(run), BlankSheets(specs, records)) == Joined(lines)
    ensures StandAt(lines, at, ["- " + specs[k].rubricDims[j] + ": `score: `"])
  {
    var sheet;
    lines, at, sheet := WrittenSheet(specs, records, run, k);
    var off := SheetShowsDim(sheet, j);
    StandsWithin(lines, at, SheetLines(sheet), ["- " + specs[k].rubricDims[j] + ": `score: `"], off);
    at := at + off;
  }

  lemma {:induction false} SheetShowsDim(sheet: Sheet, j: nat) returns (off: nat)
    requires Complete(sheet) && j < |sheet.spec.rubricDims| && sheet.answers[j].None?
    ensures StandAt(SheetLines(sheet), off, ["- " + sheet.spec.rubricDims[j] + ": `score: `"])
  {
    var dims, scores := sheet.spec.rubricDims, ScoreLines(sheet.spec.rubricDims, sheet.answers);
    var before := [HeaderLine(sheet.spec)] + PromptLines(sheet.spec) + RetrievalLines(sheet.spec, sheet.record)
                  + ScoresHeading();
    ScoreLineAt(dims, sheet.answers, j);
    StandsIn(before + scores[..j], [scores[j]], scores[j + 1..] + NotesLines(sheet.notes));
    assert scores == scores[..j] + [scores[j]] + scores[j + 1..];
    assert SheetLines(sheet) == before + scores[..j] + [scores[j]] + (scores[j + 1..] + NotesLines(sheet.notes));
    off := |before + scores[..j]|;
  }
}
