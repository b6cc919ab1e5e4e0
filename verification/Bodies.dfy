/** The bodies of code and math blocks (`block` and `math_body` in crates/mb-core/src/canonical.rs). */
module Bodies {
  import opened Strings

  // ---------------------------------------------------------------- code

  /** `replace("\r\n", "\n")`. */
  function ReplaceCrLf(s: string): string {
    if |s| >= 2 && s[0] == '\r' && s[1] == '\n' then "\n" + ReplaceCrLf(s[2..])
    else if s == "" then ""
    else [s[0]] + ReplaceCrLf(s[1..])
  }

  /** `replace('\r', "\n")`. */
  function ReplaceCr(s: string): string {
    if s == "" then "" else [if s[0] == '\r' then '\n' else s[0]] + ReplaceCr(s[1..])
  }

  /** `trim_end_matches('\n')`. */
  function DropFinalNewlines(s: string): (r: string)
    ensures |r| <= |s|
  {
    if s != "" && Last(s) == '\n' then DropFinalNewlines(Init(s)) else s
  }

  function CodeBody(code: string): string {
    DropFinalNewlines(ReplaceCr(ReplaceCrLf(code)))
  }

  lemma {:induction false} ReplaceCrLfShape(s: string)
    ensures NonWhite(ReplaceCrLf(s)) == NonWhite(s)
    ensures '\r' !in s ==> ReplaceCrLf(s) == s
    decreases |s|
  {
    if |s| >= 2 && s[0] == '\r' && s[1] == '\n' {
      ReplaceCrLfShape(s[2..]);
      assert s == s[..2] + s[2..];
      NonWhiteConcat(s[..2], s[2..]);
      NonWhiteConcat("\n", ReplaceCrLf(s[2..]));
      assert Init(s[..2]) == "\r" && Init("\r") == "" && Init("\n") == "";
    } else if s != "" {
      ReplaceCrLfShape(s[1..]);
      assert s == [s[0]] + s[1..];
      NonWhiteConcat([s[0]], s[1..]);
      NonWhiteConcat([s[0]], ReplaceCrLf(s[1..]));
    }
  }

  lemma {:induction false} ReplaceCrShape(s: string)
    ensures NonWhite(ReplaceCr(s)) == NonWhite(s)
    ensures '\r' !in ReplaceCr(s)
    ensures '\r' !in s ==> ReplaceCr(s) == s
    decreases |s|
  {
    if s != "" {
      var c := if s[0] == '\r' then '\n' else s[0];
      ReplaceCrShape(s[1..]);
      assert s == [s[0]] + s[1..];
      NonWhiteConcat([s[0]], s[1..]);
      NonWhiteConcat([c], ReplaceCr(s[1..]));
      assert Init([c]) == "" && Init([s[0]]) == "";
    }
  }

  lemma {:induction false} DropFinalNewlinesShape(s: string)
    ensures NonWhite(DropFinalNewlines(s)) == NonWhite(s)
    ensures DropFinalNewlines(s) == "" || Last(DropFinalNewlines(s)) != '\n'
    ensures DropFinalNewlines(s) == s[..|DropFinalNewlines(s)|]
    decreases |s|
  {
    if s != "" && Last(s) == '\n' {
      DropFinalNewlinesShape(Init(s));
    }
  }

  /** A code body is left alone exactly when it has no carriage return and does not end in a line break. */
  lemma CodeBodyFixedIff(code: string)
    ensures CodeBody(code) == code <==> '\r' !in code && (code == "" || Last(code) != '\n')
  {
    var a := ReplaceCrLf(code);
    ReplaceCrLfShape(code);
    ReplaceCrShape(a);
    DropFinalNewlinesShape(ReplaceCr(a));
  }

  /** Normalizing a code body keeps its visible characters and is idempotent. */
  lemma CodeBodyIsStable(code: string)
    ensures CodeBody(CodeBody(code)) == CodeBody(code)
    ensures NonWhite(CodeBody(code)) == NonWhite(code)
  {
    var a := ReplaceCrLf(code);
    ReplaceCrLfShape(code);
    ReplaceCrShape(a);
    DropFinalNewlinesShape(ReplaceCr(a));
    CodeBodyFixedIff(CodeBody(code));
  }

  // ---------------------------------------------------------------- math

  function DropLeadingNewlines(s: string): (r: string)
    ensures |r| <= |s|
  {
    if s != "" && s[0] == '\n' then DropLeadingNewlines(s[1..]) else s
  }

  /** `trim_matches('\n')`. */
  function DropOuterNewlines(s: string): string {
    DropFinalNewlines(DropLeadingNewlines(s))
  }

  function TrimEach(lines: seq<string>): seq<string> {
    if lines == [] then [] else [Trim(lines[0])] + TrimEach(lines[1..])
  }

  function JoinLines(lines: seq<string>): string {
    if lines == [] then ""
    else if |lines| == 1 then lines[0]
    else lines[0] + "\n" + JoinLines(lines[1..])
  }

  function MathBody(m: string): string {
    TrimLines(DropOuterNewlines(m))
  }

  /** `math_body` as the program runs it: one loop over the lines. */
  method MathBodyLoop(m: string) returns (out: string)
    ensures out == MathBody(m)
  {
    var lines := Lines(DropOuterNewlines(m));
    out := "";
    for i := 0 to |lines|
      invariant out == JoinLines(TrimEach(lines[..i]))
    {
      ghost var before := TrimEach(lines[..i]);
      TrimEachSnoc(lines[..i], lines[i]);
      JoinLinesSnoc(before, Trim(lines[i]));
      assert lines[..i] + [lines[i]] == lines[..i + 1];
      if i > 0 {
        out := out + "\n";
      }
      out := out + Trim(lines[i]);
    }
    assert lines[..|lines|] == lines;
  }

  lemma {:induction false} TrimEachSnoc(lines: seq<string>, line: string)
    ensures TrimEach(lines + [line]) == TrimEach(lines) + [Trim(line)]
    ensures |TrimEach(lines)| == |lines|
    decreases |lines|
  {
    if lines != [] {
      TrimEachSnoc(lines[1..], line);
      assert (lines + [line])[1..] == lines[1..] + [line];
    } else {
      assert [line][1..] == [];
    }
  }

  lemma {:induction false} JoinLinesSnoc(lines: seq<string>, line: string)
    ensures JoinLines(lines + [line]) == if lines == [] then line else JoinLines(lines) + "\n" + line
    decreases |lines|
  {
    if lines != [] {
      JoinLinesSnoc(lines[1..], line);
      assert (lines + [line])[1..] == lines[1..] + [line];
    }
  }

  lemma {:induction false} TrimEachIsPointwise(lines: seq<string>)
    ensures |TrimEach(lines)| == |lines|
    ensures forall i :: 0 <= i < |lines| ==> TrimEach(lines)[i] == Trim(lines[i])
    decreases |lines|
  {
    if lines != [] {
      TrimEachIsPointwise(lines[1..]);
    }
  }

  lemma {:induction false} DropLeadingNewlinesShape(s: string)
    ensures NonWhite(DropLeadingNewlines(s)) == NonWhite(s)
    ensures DropLeadingNewlines(s) == "" || DropLeadingNewlines(s)[0] != '\n'
    decreases |s|
  {
    if s != "" && s[0] == '\n' {
      DropLeadingNewlinesShape(s[1..]);
      assert s == [s[0]] + s[1..];
      NonWhiteConcat([s[0]], s[1..]);
      assert Init([s[0]]) == "";
    }
  }

  lemma OuterNewlinesShorten(s: string)
    requires s != "" && (s[0] == '\n' || Last(s) == '\n')
    ensures |DropOuterNewlines(s)| < |s|
  {
    if s[0] == '\n' {
      assert |DropLeadingNewlines(s[1..])| < |s|;
    } else {
      assert |DropFinalNewlines(Init(s))| < |s|;
    }
  }

  /** Outer newlines are dropped exactly when there are any. */
  lemma DropOuterNewlinesShape(s: string)
    ensures NonWhite(DropOuterNewlines(s)) == NonWhite(s)
    ensures |DropOuterNewlines(s)| <= |s|
    ensures DropOuterNewlines(s) == s <==> s == "" || (s[0] != '\n' && Last(s) != '\n')
  {
    var a := DropLeadingNewlines(s);
    DropLeadingNewlinesShape(s);
    DropFinalNewlinesShape(a);
    if s != "" && (s[0] == '\n' || Last(s) == '\n') {
      OuterNewlinesShorten(s);
    }
  }

  lemma {:induction false} LinesHaveNoNewline(s: string)
    ensures forall i :: 0 <= i < |Lines(s)| ==> '\n' !in Lines(s)[i]
    decreases |s|
  {
    if s != "" && Find(s, '\n') < |s| {
      LinesHaveNoNewline(s[Find(s, '\n') + 1..]);
    }
  }

  lemma StripCrInk(line: string)
    ensures NonWhite(StripCr(line)) == NonWhite(line) && |StripCr(line)| <= |line|
  {
  }

  lemma TrimmedSingleLine(s: string)
    ensures NonWhite(JoinLines(TrimEach([s]))) == NonWhite(s) && |JoinLines(TrimEach([s]))| <= |s|
  {
    TrimShape(s);
    assert [s][1..] == [];
    assert TrimEach([s]) == [Trim(s)];
  }

  function TrimLines(s: string): string {
    JoinLines(TrimEach(Lines(s)))
  }

  /** Trimming every line keeps the visible characters and makes the body no longer. */
  lemma {:induction false} TrimmedLinesShape(s: string)
    ensures NonWhite(TrimLines(s)) == NonWhite(s)
    ensures |TrimLines(s)| <= |s|
    decreases |s|
  {
    var n := Find(s, '\n');
    if s == "" {
    } else if n == |s| {
      assert Lines(s) == [s];
      TrimmedSingleLine(s);
    } else {
      TrimmedLinesShape(s[n + 1..]);
      TrimmedFirstLine(s, n);
    }
  }

  lemma TrimmedFirstLine(s: string, n: nat)
    requires n < |s| && n == Find(s, '\n')
    requires NonWhite(TrimLines(s[n + 1..])) == NonWhite(s[n + 1..]) && |TrimLines(s[n + 1..])| <= |s| - n - 1
    ensures NonWhite(TrimLines(s)) == NonWhite(s)
    ensures |TrimLines(s)| <= |s|
  {
    var line, lines := StripCr(s[..n]), Lines(s[n + 1..]);
    SplitAtNewline(s, n);
    FirstOfLines(s, n);
    TrimmedLineInFront(line, lines);
  }

  lemma FirstOfLines(s: string, n: nat)
    requires n < |s| && n == Find(s, '\n')
    ensures Lines(s) == [StripCr(s[..n])] + Lines(s[n + 1..])
  {
  }

  lemma SplitAtNewline(s: string, n: nat)
    requires n < |s| && s[n] == '\n'
    ensures NonWhite(s) == NonWhite(Trim(StripCr(s[..n]))) + NonWhite(s[n + 1..])
    ensures |Trim(StripCr(s[..n]))| <= n
  {
    assert s == s[..n] + "\n" + s[n + 1..];
    InkOfJoined(s[..n], s[n + 1..]);
    StripCrInk(s[..n]);
    TrimShape(StripCr(s[..n]));
  }

  lemma NewlineHasNoInk()
    ensures NonWhite("\n") == ""
  {
    assert Init("\n") == "";
  }

  lemma InkOfJoined(line: string, rest: string)
    ensures NonWhite(line + "\n" + rest) == NonWhite(line) + NonWhite(rest)
  {
    NonWhiteConcat(line + "\n", rest);
    NonWhiteConcat(line, "\n");
    NewlineHasNoInk();
    assert NonWhite(line) + "" == NonWhite(line);
  }

  lemma TrimmedLineInFront(line: string, lines: seq<string>)
    ensures var rest := JoinLines(TrimEach(lines));
      && NonWhite(JoinLines(TrimEach([line] + lines))) == NonWhite(Trim(line)) + NonWhite(rest)
      && |JoinLines(TrimEach([line] + lines))| <= |Trim(line)| + 1 + |rest|
  {
    assert ([line] + lines)[1..] == lines;
    var trimmed := TrimEach(lines);
    assert TrimEach([line] + lines) == [Trim(line)] + trimmed;
    assert ([Trim(line)] + trimmed)[1..] == trimmed;
    if trimmed == [] {
      assert NonWhite(Trim(line)) + NonWhite("") == NonWhite(Trim(line));
    } else {
      InkOfJoined(Trim(line), JoinLines(trimmed));
    }
  }

  /** A trimmed line: no break, no white space at its ends, so no carriage return either. */
  predicate IsCleanLine(line: string) {
    '\n' !in line && Trim(line) == line && StripCr(line) == line
  }

  /** Lines that hold no break, do not end in a carriage return and do not end empty are read back as they were. */
  lemma {:induction false} LinesOfJoined(lines: seq<string>)
    requires lines != [] && Last(lines) != ""
    requires forall i :: 0 <= i < |lines| ==> IsCleanLine(lines[i])
    ensures Lines(JoinLines(lines)) == lines
    decreases |lines|
  {
    var first, rest := lines[0], lines[1..];
    if rest == [] {
      LinesOfOne(first);
    } else {
      LinesOfJoined(rest);
      LinesUnfold(first, JoinLines(rest));
      assert [first] + rest == lines;
    }
  }

  lemma EndsBehindNewline(first: string, rest: string)
    ensures var s := first + "\n" + rest;
      && s != "" && s[0] == (if first == "" then '\n' else first[0])
      && Last(s) == (if rest == "" then '\n' else Last(rest))
  {
  }

  lemma {:induction false} JoinedEnds(lines: seq<string>)
    requires lines != []
    ensures var s := JoinLines(lines);
      if |lines| == 1 then s == lines[0]
      else && s != ""
           && s[0] == (if lines[0] == "" then '\n' else lines[0][0])
           && Last(s) == (if Last(lines) == "" then '\n' else Last(Last(lines)))
    decreases |lines|
  {
    if |lines| > 1 {
      var rest := lines[1..];
      JoinedEnds(rest);
      EndsBehindNewline(lines[0], JoinLines(rest));
      assert Last(rest) == Last(lines);
    }
  }

  lemma {:induction false} TrimEachFixed(lines: seq<string>)
    requires forall i :: 0 <= i < |lines| ==> IsCleanLine(lines[i])
    ensures TrimEach(lines) == lines
    decreases |lines|
  {
    if lines != [] {
      assert forall i :: 0 <= i < |lines[1..]| ==> lines[1..][i] == lines[i + 1];
      TrimEachFixed(lines[1..]);
    }
  }

  /** A math body of several lines has something visible on its first and on its last line. */
  predicate VisibleEdges(m: string) {
    var lines := Lines(DropOuterNewlines(m));
    |lines| <= 1 || (Trim(lines[0]) != "" && Trim(Last(lines)) != "")
  }

  lemma MathBodyLines(m: string, lines: seq<string>)
    requires lines == TrimEach(Lines(DropOuterNewlines(m)))
    ensures forall i :: 0 <= i < |lines| ==> IsCleanLine(lines[i])
  {
    var raw := Lines(DropOuterNewlines(m));
    LinesHaveNoNewline(DropOuterNewlines(m));
    TrimEachIsPointwise(raw);
    forall i | 0 <= i < |raw|
      ensures IsCleanLine(Trim(raw[i]))
    {
      TrimShape(raw[i]);
    }
  }

  lemma MathBodyShape(m: string)
    ensures NonWhite(MathBody(m)) == NonWhite(m)
    ensures |MathBody(m)| <= |m|
    ensures MathBody(m) == m ==> m == "" || (m[0] != '\n' && Last(m) != '\n')
  {
    DropOuterNewlinesShape(m);
    TrimmedLinesShape(DropOuterNewlines(m));
    if m != "" && (m[0] == '\n' || Last(m) == '\n') {
      OuterNewlinesShorten(m);
    }
  }

  /** `math_body` is idempotent exactly when no outer line of a longer body is blank; it always keeps the ink. */
  lemma MathBodyIdempotentIff(m: string)
    ensures MathBody(MathBody(m)) == MathBody(m) <==> VisibleEdges(m)
    ensures NonWhite(MathBody(m)) == NonWhite(m)
  {
    MathBodyShape(m);
    if VisibleEdges(m) {
      VisibleEdgesAreStable(m);
    } else {
      BlankEdgesAreNot(m);
    }
  }

  lemma VisibleEdgesAreStable(m: string)
    requires VisibleEdges(m)
    ensures MathBody(MathBody(m)) == MathBody(m)
  {
    var raw := Lines(DropOuterNewlines(m));
    if MathBody(m) == "" {
      MathBodyShape("");
    } else {
      var lines := TrimEach(raw);
      TrimEachIsPointwise(raw);
      assert MathBody(m) == JoinLines(lines);
      MathBodyLines(m, lines);
      JoinedEnds(lines);
      MathBodyOfVisibleLines(lines);
    }
  }

  lemma BlankEdgesAreNot(m: string)
    requires !VisibleEdges(m)
    ensures MathBody(MathBody(m)) != MathBody(m)
  {
    var raw := Lines(DropOuterNewlines(m));
    TrimEachIsPointwise(raw);
    JoinedEnds(TrimEach(raw));
    MathBodyShape(MathBody(m));
  }

  lemma MathBodyOfVisibleLines(lines: seq<string>)
    requires lines != [] && lines[0] != "" && Last(lines) != ""
    requires forall i :: 0 <= i < |lines| ==> IsCleanLine(lines[i])
    ensures MathBody(JoinLines(lines)) == JoinLines(lines)
  {
    JoinedEnds(lines);
    assert lines[0][0] != '\n' && Last(Last(lines)) != '\n';
    DropOuterNewlinesShape(JoinLines(lines));
    LinesOfJoined(lines);
    TrimEachFixed(lines);
  }

  /** A body with a blank first line: the first pass leaves the line break that the second one drops. */
  lemma MathBodyNotIdempotent()
    ensures !VisibleEdges(" \nx")
    ensures MathBody(MathBody(" \nx")) != MathBody(" \nx")
  {
    var m := " \nx";
    DropOuterNewlinesShape(m);
    FindIs(m, '\n', 1);
    assert m[..1] == " " && m[2..] == "x";
    FindIs("x", '\n', 1);
    assert Lines("x") == ["x"];
    assert Lines(m) == [" ", "x"];
    assert TrimStart(" ") == TrimStart("");
    MathBodyIdempotentIff(m);
  }
}
