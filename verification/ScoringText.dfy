/** The two regular expressions of the scoring template, as matchers, and how they walk a text. */
module ScoringText {

  /** `\s`, `\w`, `\d` and `[A-Z]` on ASCII. */
  predicate Space(c: char) {
    c == ' ' || '\t' <= c <= '\r' || '\U{1C}' <= c <= '\U{1F}'
  }

  predicate Digit(c: char) {
    '0' <= c <= '9'
  }

  predicate Upper(c: char) {
    'A' <= c <= 'Z'
  }

  predicate WordChar(c: char) {
    Digit(c) || Upper(c) || 'a' <= c <= 'z' || c == '_'
  }

  function Digits(): char -> bool {
    (c: char) => Digit(c)
  }

  function WordChars(): char -> bool {
    (c: char) => WordChar(c)
  }

  /** The outcome of matching at one place: a match and what follows it, a character that rules a match out, or an
      end of input that leaves it open (and is no match if the input really ends there). */
  datatype Scan<T> = Matched(value: T, rest: string) | Mismatch | RanOut {
    predicate IsFailure() {
      !Matched?
    }

    function PropagateFailure<U>(): Scan<U>
      requires IsFailure()
    {
      if Mismatch? then Mismatch else RanOut
    }

    function Extract(): (T, string)
      requires Matched?
    {
      (value, rest)
    }
  }

  /** A fixed piece of the pattern. */
  function Literal(s: string, piece: string): Scan<string> {
    if piece == [] then Matched([], s)
    else if s == [] then RanOut
    else if s[0] != piece[0] then Mismatch
    else Literal(s[1..], piece[1..])
  }

  /** One character of a class. */
  function One(s: string, p: char -> bool): Scan<char> {
    if s == [] then RanOut else if p(s[0]) then Matched(s[0], s[1..]) else Mismatch
  }

  function Run(s: string, p: char -> bool): string {
    if s == [] || !p(s[0]) then [] else [s[0]] + Run(s[1..], p)
  }

  function AfterRun(s: string, p: char -> bool): string {
    if s == [] || !p(s[0]) then s else AfterRun(s[1..], p)
  }

  /** A nonempty run of a class, which the next character must close. */
  function SomeRun(s: string, p: char -> bool): Scan<string> {
    if AfterRun(s, p) == [] then RanOut
    else if Run(s, p) == [] then Mismatch
    else Matched(Run(s, p), AfterRun(s, p))
  }

  function Spaces(): char -> bool {
    (c: char) => Space(c)
  }

  /** `\s*` before something that is not a space. */
  function AnySpaces(s: string): Scan<string> {
    if AfterRun(s, Spaces()) == [] then RanOut else Matched([], AfterRun(s, Spaces()))
  }

  /** `-\s+(\w+):\s*`score:\s*(\d+)`` */
  function ScanScore(s: string): Scan<(string, string)> {
    var (_, s) :- Literal(s, "-");
    var (_, s) :- One(s, Spaces());
    var (_, s) :- AnySpaces(s);
    var (dim, s) :- SomeRun(s, WordChars());
    ScanAfterDim(s, dim)
  }

  function ScanAfterDim(s: string, dim: string): Scan<(string, string)> {
    var (_, s) :- Literal(s, ":");
    var (_, s) :- AnySpaces(s);
    var (_, s) :- Literal(s, "`score:");
    var (_, s) :- AnySpaces(s);
    var (digits, s) :- SomeRun(s, Digits());
    var (_, s) :- Literal(s, "`");
    Matched((dim, digits), s)
  }

  function UpperCase(): char -> bool {
    (c: char) => Upper(c)
  }

  /** `## ([A-Z]) / ([A-Z]\d+) -`, giving the topic. */
  function ScanHeader(s: string): Scan<string> {
    var (_, s) :- Literal(s, "## ");
    var (_, s) :- One(s, UpperCase());
    var (_, s) :- Literal(s, " / ");
    var (letter, s) :- One(s, UpperCase());
    var (number, s) :- SomeRun(s, Digits());
    var (_, s) :- Literal(s, " -");
    Matched([letter] + number, s)
  }

  // ----- What is decided stays decided when more text follows

  function Extend<T>(r: Scan<T>, t: string): Scan<T> {
    if r.Matched? then Matched(r.value, r.rest + t) else r
  }

  lemma {:induction false} LiteralExtends(s: string, piece: string, t: string)
    ensures Literal(s, piece) != RanOut ==> Literal(s + t, piece) == Extend(Literal(s, piece), t)
  {
    if piece != [] && s != [] && s[0] == piece[0] {
      assert (s + t)[1..] == s[1..] + t;
      LiteralExtends(s[1..], piece[1..], t);
    }
  }

  lemma OneExtends(s: string, p: char -> bool, t: string)
    ensures One(s, p) != RanOut ==> One(s + t, p) == Extend(One(s, p), t)
  {
    if s != [] {
      assert (s + t)[1..] == s[1..] + t;
    }
  }

  lemma {:induction false} RunExtends(s: string, p: char -> bool, t: string)
    ensures AfterRun(s, p) != [] ==> Run(s + t, p) == Run(s, p) && AfterRun(s + t, p) == AfterRun(s, p) + t
  {
    if s != [] && p(s[0]) {
      assert (s + t)[1..] == s[1..] + t;
      RunExtends(s[1..], p, t);
    }
  }

  lemma SomeRunExtends(s: string, p: char -> bool, t: string)
    ensures SomeRun(s, p) != RanOut ==> SomeRun(s + t, p) == Extend(SomeRun(s, p), t)
  {
    RunExtends(s, p, t);
  }

  lemma AnySpacesExtends(s: string, t: string)
    ensures AnySpaces(s) != RanOut ==> AnySpaces(s + t) == Extend(AnySpaces(s), t)
  {
    RunExtends(s, Spaces(), t);
  }

  lemma ScanAfterDimExtends(s: string, dim: string, t: string)
    ensures ScanAfterDim(s, dim) != RanOut ==> ScanAfterDim(s + t, dim) == Extend(ScanAfterDim(s, dim), t)
  {
    LiteralExtends(s, ":", t);
    if Literal(s, ":").Matched? {
      var s1 := Literal(s, ":").rest;
      AnySpacesExtends(s1, t);
      if AnySpaces(s1).Matched? {
        var s2 := AnySpaces(s1).rest;
        LiteralExtends(s2, "`score:", t);
        if Literal(s2, "`score:").Matched? {
          var s3 := Literal(s2, "`score:").rest;
          AnySpacesExtends(s3, t);
          if AnySpaces(s3).Matched? {
            var s4 := AnySpaces(s3).rest;
            SomeRunExtends(s4, Digits(), t);
            if SomeRun(s4, Digits()).Matched? {
              LiteralExtends(SomeRun(s4, Digits()).rest, "`", t);
            }
          }
        }
      }
    }
  }

  lemma ScanScoreExtends(s: string, t: string)
    ensures ScanScore(s) != RanOut ==> ScanScore(s + t) == Extend(ScanScore(s), t)
  {
    LiteralExtends(s, "-", t);
    if Literal(s, "-").Matched? {
      var s1 := Literal(s, "-").rest;
      OneExtends(s1, Spaces(), t);
      if One(s1, Spaces()).Matched? {
        var s2 := One(s1, Spaces()).rest;
        AnySpacesExtends(s2, t);
        if AnySpaces(s2).Matched? {
          var s3 := AnySpaces(s2).rest;
          SomeRunExtends(s3, WordChars(), t);
          if SomeRun(s3, WordChars()).Matched? {
            ScanAfterDimExtends(SomeRun(s3, WordChars()).rest, SomeRun(s3, WordChars()).value, t);
          }
        }
      }
    }
  }

  lemma ScanHeaderExtends(s: string, t: string)
    ensures ScanHeader(s) != RanOut ==> ScanHeader(s + t) == Extend(ScanHeader(s), t)
  {
    LiteralExtends(s, "## ", t);
    if Literal(s, "## ").Matched? {
      var s1 := Literal(s, "## ").rest;
      OneExtends(s1, UpperCase(), t);
      if One(s1, UpperCase()).Matched? {
        var s2 := One(s1, UpperCase()).rest;
        LiteralExtends(s2, " / ", t);
        if Literal(s2, " / ").Matched? {
          var s3 := Literal(s2, " / ").rest;
          OneExtends(s3, UpperCase(), t);
          if One(s3, UpperCase()).Matched? {
            var s4 := One(s3, UpperCase()).rest;
            SomeRunExtends(s4, Digits(), t);
            if SomeRun(s4, Digits()).Matched? {
              LiteralExtends(SomeRun(s4, Digits()).rest, " -", t);
            }
          }
        }
      }
    }
  }

  // ----- Matches consume input

  lemma {:induction false} LiteralShortens(s: string, piece: string)
    ensures Literal(s, piece).Matched? ==> |Literal(s, piece).rest| == |s| - |piece|
  {
    if piece != [] && s != [] && s[0] == piece[0] {
      LiteralShortens(s[1..], piece[1..]);
    }
  }

  lemma {:induction false} AfterRunShortens(s: string, p: char -> bool)
    ensures |AfterRun(s, p)| <= |s|
  {
    if s != [] && p(s[0]) {
      AfterRunShortens(s[1..], p);
    }
  }

  lemma ScanScoreShortens(s: string)
    ensures ScanScore(s).Matched? ==> |ScanScore(s).rest| < |s|
  {
    if ScanScore(s).Matched? {
      LiteralShortens(s, "-");
      var s1 := Literal(s, "-").rest;
      var s2 := One(s1, Spaces()).rest;
      AfterRunShortens(s2, Spaces());
      var s3 := AnySpaces(s2).rest;
      AfterRunShortens(s3, WordChars());
      ScanAfterDimShortens(SomeRun(s3, WordChars()).rest, SomeRun(s3, WordChars()).value);
    }
  }

  lemma ScanAfterDimShortens(s: string, dim: string)
    ensures ScanAfterDim(s, dim).Matched? ==> |ScanAfterDim(s, dim).rest| < |s|
  {
    if ScanAfterDim(s, dim).Matched? {
      LiteralShortens(s, ":");
      var s1 := Literal(s, ":").rest;
      AfterRunShortens(s1, Spaces());
      var s2 := AnySpaces(s1).rest;
      LiteralShortens(s2, "`score:");
      var s3 := Literal(s2, "`score:").rest;
      AfterRunShortens(s3, Spaces());
      var s4 := AnySpaces(s3).rest;
      AfterRunShortens(s4, Digits());
      LiteralShortens(SomeRun(s4, Digits()).rest, "`");
    }
  }

  lemma ScanHeaderShortens(s: string)
    ensures ScanHeader(s).Matched? ==> |ScanHeader(s).rest| < |s|
  {
    if ScanHeader(s).Matched? {
      LiteralShortens(s, "## ");
      var s1 := Literal(s, "## ").rest;
      var s2 := One(s1, UpperCase()).rest;
      LiteralShortens(s2, " / ");
      var s3 := Literal(s2, " / ").rest;
      var s4 := One(s3, UpperCase()).rest;
      AfterRunShortens(s4, Digits());
      LiteralShortens(SomeRun(s4, Digits()).rest, " -");
    }
  }

  // ----- Walking a text

  /** `_SCORE_LINE.finditer`: the matches from here on; `lineStart` says whether `^` matches here. */
  function FindScores(s: string, lineStart: bool): seq<(string, string)>
    decreases |s|
  {
    if s == [] then []
    else if lineStart && ScanScore(s).Matched? then
      ScanScoreShortens(s);
      [ScanScore(s).value] + FindScores(ScanScore(s).rest, false)
    else FindScores(s[1..], s[0] == '\n')
  }

  /** `_SECTION_HEADER.finditer`, cutting the text at its matches: what comes before the first header, and for each
      header its topic and the text up to the next. */
  function Sections(s: string, lineStart: bool): (string, seq<(string, string)>)
    decreases |s|
  {
    if s == [] then ([], [])
    else if lineStart && ScanHeader(s).Matched? then
      ScanHeaderShortens(s);
      var (body, later) := Sections(ScanHeader(s).rest, false);
      ([], [(ScanHeader(s).value, body)] + later)
    else
      var (body, later) := Sections(s[1..], s[0] == '\n');
      ([s[0]] + body, later)
  }

  /** Whole lines of which none is, or could go on to be, a score line. */
  predicate NoScores(s: string, lineStart: bool) {
    if s == [] then lineStart
    else (lineStart ==> ScanScore(s) == Mismatch) && NoScores(s[1..], s[0] == '\n')
  }

  predicate NoHeaders(s: string, lineStart: bool) {
    if s == [] then lineStart
    else (lineStart ==> ScanHeader(s) == Mismatch) && NoHeaders(s[1..], s[0] == '\n')
  }

  lemma {:induction false} SkipNoScores(s: string, t: string, lineStart: bool)
    requires NoScores(s, lineStart)
    ensures FindScores(s + t, lineStart) == FindScores(t, true)
  {
    if s == [] {
      assert s + t == t;
    } else {
      ScanScoreExtends(s, t);
      assert (s + t)[1..] == s[1..] + t;
      SkipNoScores(s[1..], t, s[0] == '\n');
    }
  }

  lemma {:induction false} SkipNoHeaders(s: string, t: string, lineStart: bool)
    requires NoHeaders(s, lineStart)
    ensures Sections(s + t, lineStart) == (s + Sections(t, true).0, Sections(t, true).1)
  {
    if s == [] {
      assert s + t == t;
      assert s + Sections(t, true).0 == Sections(t, true).0;
    } else {
      ScanHeaderExtends(s, t);
      assert (s + t)[1..] == s[1..] + t;
      SkipNoHeaders(s[1..], t, s[0] == '\n');
      assert [s[0]] + (s[1..] + Sections(t, true).0) == s + Sections(t, true).0;
    }
  }

  /** Pieces that are each free of matches are so together. */
  lemma {:induction false} NoScoresTogether(s: string, t: string, lineStart: bool)
    requires NoScores(s, lineStart) && NoScores(t, true)
    ensures NoScores(s + t, lineStart)
  {
    if s == [] {
      assert s + t == t;
    } else {
      ScanScoreExtends(s, t);
      assert (s + t)[1..] == s[1..] + t;
      NoScoresTogether(s[1..], t, s[0] == '\n');
    }
  }

  lemma {:induction false} NoHeadersTogether(s: string, t: string, lineStart: bool)
    requires NoHeaders(s, lineStart) && NoHeaders(t, true)
    ensures NoHeaders(s + t, lineStart)
  {
    if s == [] {
      assert s + t == t;
    } else {
      ScanHeaderExtends(s, t);
      assert (s + t)[1..] == s[1..] + t;
      NoHeadersTogether(s[1..], t, s[0] == '\n');
    }
  }

  predicate OneLine(s: string) {
    s == [] || (s[0] != '\n' && OneLine(s[1..]))
  }

  /** One line after its first character, or a line that does not begin with a dash, holds no score. */
  lemma {:induction false} PlainLineNoScores(line: string, lineStart: bool)
    requires OneLine(line) && (lineStart ==> line == [] || line[0] != '-')
    ensures NoScores(line + "\n", lineStart)
  {
    if line == [] {
      assert line + "\n" == "\n" && "\n"[1..] == [];
    } else {
      assert (line + "\n")[1..] == line[1..] + "\n";
      PlainLineNoScores(line[1..], false);
    }
  }

  lemma {:induction false} PlainLineNoHeaders(line: string, lineStart: bool)
    requires OneLine(line) && (lineStart ==> line == [] || line[0] != '#')
    ensures NoHeaders(line + "\n", lineStart)
  {
    if line == [] {
      assert line + "\n" == "\n" && "\n"[1..] == [];
    } else {
      assert (line + "\n")[1..] == line[1..] + "\n";
      PlainLineNoHeaders(line[1..], false);
    }
  }

  // ----- A dash settles what is still open

  predicate Dash(s: string) {
    s != [] && (s[0] == '-' || Dash(s[1..]))
  }

  lemma {:induction false} LiteralKeepsDash(s: string, piece: string)
    requires Dash(s) && !Dash(piece)
    ensures Literal(s, piece).Matched? ==> Dash(Literal(s, piece).rest)
    ensures Literal(s, piece) != RanOut
  {
    if piece != [] && s[0] == piece[0] {
      LiteralKeepsDash(s[1..], piece[1..]);
    }
  }

  lemma {:induction false} RunKeepsDash(s: string, p: char -> bool)
    requires Dash(s) && !p('-')
    ensures Dash(AfterRun(s, p))
  {
    if p(s[0]) {
      RunKeepsDash(s[1..], p);
    }
  }

  lemma ScoreAfterDimIsDecided(s: string, dim: string)
    requires Dash(s)
    ensures ScanAfterDim(s, dim) != RanOut
  {
    LiteralKeepsDash(s, ":");
    if Literal(s, ":").Matched? {
      var s1 := Literal(s, ":").rest;
      RunKeepsDash(s1, Spaces());
      var s2 := AnySpaces(s1).rest;
      LiteralKeepsDash(s2, "`score:");
      if Literal(s2, "`score:").Matched? {
        var s3 := Literal(s2, "`score:").rest;
        RunKeepsDash(s3, Spaces());
        var s4 := AnySpaces(s3).rest;
        RunKeepsDash(s4, Digits());
        if SomeRun(s4, Digits()).Matched? {
          LiteralKeepsDash(SomeRun(s4, Digits()).rest, "`");
        }
      }
    }
  }

  lemma ScoreIsDecided(s: string)
    requires s != [] && Dash(s[1..])
    ensures ScanScore(s) != RanOut
  {
    if s[0] == '-' {
      assert Literal(s, "-") == Matched([], s[1..]);
      var s1 := s[1..];
      if One(s1, Spaces()).Matched? {
        var s2 := One(s1, Spaces()).rest;
        RunKeepsDash(s2, Spaces());
        var s3 := AnySpaces(s2).rest;
        RunKeepsDash(s3, WordChars());
        if SomeRun(s3, WordChars()).Matched? {
          ScoreAfterDimIsDecided(SomeRun(s3, WordChars()).rest, SomeRun(s3, WordChars()).value);
        }
      }
    }
  }

  lemma HeaderIsDecided(s: string)
    requires Dash(s)
    ensures ScanHeader(s) != RanOut
  {
    LiteralKeepsDash(s, "## ");
    if Literal(s, "## ").Matched? {
      var s1 := Literal(s, "## ").rest;
      if One(s1, UpperCase()).Matched? {
        var s2 := One(s1, UpperCase()).rest;
        LiteralKeepsDash(s2, " / ");
        if Literal(s2, " / ").Matched? {
          var s3 := Literal(s2, " / ").rest;
          if One(s3, UpperCase()).Matched? {
            var s4 := One(s3, UpperCase()).rest;
            RunKeepsDash(s4, Digits());
            LiteralEndsAtDash(AfterRun(s4, Digits()));
          }
        }
      }
    }
  }

  lemma LiteralEndsAtDash(s: string)
    requires Dash(s)
    ensures Literal(s, " -") != RanOut
  {
    if s[0] == ' ' {
      assert " -"[1..] == "-" && "-"[1..] == [];
      assert Literal(s, " -") == Literal(s[1..], "-");
    }
  }

  lemma {:induction false} DashStays(s: string, end: string)
    requires Dash(end)
    ensures Dash(s + end)
  {
    if s == [] {
      assert s + end == end;
    } else {
      assert (s + end)[1..] == s[1..] + end;
      DashStays(s[1..], end);
    }
  }

  /** A text that ends in a settled way, with a dash, and in which no score line is found, leaves none open. */
  lemma {:induction false} NoneFoundNoScores(s: string, end: string, lineStart: bool)
    requires Dash(end) && NoScores(end, true) && NoScores(end, false)
    requires FindScores(s + end, lineStart) == []
    ensures NoScores(s + end, lineStart)
  {
    if s == [] {
      assert s + end == end;
    } else {
      assert (s + end)[1..] == s[1..] + end;
      DashStays(s[1..], end);
      ScoreIsDecided(s + end);
      NoneFoundNoScores(s[1..], end, s[0] == '\n');
    }
  }

  lemma {:induction false} NoneFoundNoHeaders(s: string, end: string, lineStart: bool)
    requires Dash(end) && NoHeaders(end, true) && NoHeaders(end, false)
    requires Sections(s + end, lineStart).1 == []
    ensures NoHeaders(s + end, lineStart)
  {
    if s == [] {
      assert s + end == end;
    } else {
      assert (s + end)[1..] == s[1..] + end;
      DashStays(s, end);
      HeaderIsDecided(s + end);
      NoneFoundNoHeaders(s[1..], end, s[0] == '\n');
    }
  }
}
