/** What becomes of the lines of a code or math block (`block` and `math_body` in crates/mb-core/src/canonical.rs). */
module BodyText {
  import opened Strings
  import opened Bodies

  // ---------------------------------------------------------------- code

  /** A line and how it ends, in the manner of Unix, Windows or old Macintoshes. */
  datatype Ended = Ended(text: string, end: string)

  predicate GoodLine(l: Ended) {
    '\r' !in l.text && '\n' !in l.text && l.end in {"\n", "\r\n", "\r"}
  }

  /** An empty line that ends in `\n` is none behind one that ends in `\r`: the two are one line break. */
  predicate GoodLines(lines: seq<Ended>) {
    && (forall l :: l in lines ==> GoodLine(l))
    && forall i :: 0 <= i < |lines| - 1 && lines[i].end == "\r" ==> lines[i + 1] != Ended("", "\n")
  }

  /** The lines as they are typed. */
  function Typed(lines: seq<Ended>): string {
    if lines == [] then "" else lines[0].text + (lines[0].end + Typed(lines[1..]))
  }

  /** The same lines, ending as they do in a note. */
  function Unix(lines: seq<Ended>): string {
    if lines == [] then "" else lines[0].text + ("\n" + Unix(lines[1..]))
  }

  lemma {:induction false} PlainInFront(text: string, s: string)
    requires '\r' !in text
    ensures ReplaceCrLf(text + s) == text + ReplaceCrLf(s) && ReplaceCr(text + s) == text + ReplaceCr(s)
    decreases |text|
  {
    if text == "" {
      assert text + s == s && text + ReplaceCrLf(s) == ReplaceCrLf(s) && text + ReplaceCr(s) == ReplaceCr(s);
    } else {
      PlainInFront(text[1..], s);
      TailOfConcat(text, s);
      assert [text[0]] + (text[1..] + ReplaceCrLf(s)) == text + ReplaceCrLf(s);
      assert [text[0]] + (text[1..] + ReplaceCr(s)) == text + ReplaceCr(s);
    }
  }

  function Unified(s: string): string {
    ReplaceCr(ReplaceCrLf(s))
  }

  lemma EndIsUnified(end: string, s: string)
    requires end in {"\n", "\r\n", "\r"} && (end == "\r" ==> s == "" || s[0] != '\n')
    ensures Unified(end + s) == "\n" + Unified(s)
  {
    if end == "\r\n" {
      assert (end + s)[2..] == s;
    } else {
      assert (end + s)[1..] == s;
    }
    var t := ReplaceCrLf(s);
    assert ("\n" + t)[1..] == t && ("\r" + t)[1..] == t;
  }

  lemma {:induction false} LinesAreUnified(lines: seq<Ended>, last: string)
    requires GoodLines(lines) && '\r' !in last && '\n' !in last
    ensures Unified(Typed(lines) + last) == Unix(lines) + last
    decreases |lines|
  {
    if lines == [] {
      PlainInFront(last, "");
      assert last + "" == last && "" + last == last;
    } else {
      var l, s := lines[0], Typed(lines[1..]) + last;
      assert GoodLine(l);
      LinesAreUnified(lines[1..], last);
      Associate(l.text, l.end + Typed(lines[1..]), last);
      Associate(l.end, Typed(lines[1..]), last);
      PlainInFront(l.text, l.end + s);
      NextIsNoNewline(lines, last);
      EndIsUnified(l.end, s);
      PlainInFront(l.text, ReplaceCrLf(l.end + s));
      Associate(l.text, "\n" + Unix(lines[1..]), last);
      Associate("\n", Unix(lines[1..]), last);
    }
  }

  lemma NextIsNoNewline(lines: seq<Ended>, last: string)
    requires GoodLines(lines) && lines != [] && '\n' !in last
    ensures var s := Typed(lines[1..]) + last; lines[0].end == "\r" ==> s == "" || s[0] != '\n'
  {
    if |lines| > 1 {
      assert lines[1..][0] == lines[1] && GoodLine(lines[1]);
    }
  }

  /** That many line breaks. */
  function Newlines(n: nat): string {
    if n == 0 then "" else "\n" + Newlines(n - 1)
  }

  lemma {:induction false} NewlinesSnoc(n: nat)
    ensures Newlines(n + 1) == Newlines(n) + "\n"
  {
    if n > 0 {
      NewlinesSnoc(n - 1);
    }
  }

  lemma {:induction false} BlankLines(blank: seq<Ended>)
    requires forall l :: l in blank ==> l.text == ""
    ensures Unix(blank) == Newlines(|blank|)
  {
    if blank != [] {
      BlankLines(blank[1..]);
      assert "" + ("\n" + Newlines(|blank| - 1)) == Newlines(|blank|);
    }
  }

  lemma {:induction false} DropsNewlines(s: string, n: nat)
    requires s == "" || Last(s) != '\n'
    ensures DropFinalNewlines(s + Newlines(n)) == s
  {
    if n == 0 {
      assert s + "" == s;
    } else {
      NewlinesSnoc(n - 1);
      Associate(s, Newlines(n - 1), "\n");
      SnocInit(s + Newlines(n - 1), '\n');
      DropsNewlines(s, n - 1);
    }
  }

  lemma {:induction false} TypedConcat(a: seq<Ended>, b: seq<Ended>)
    ensures Unix(a + b) == Unix(a) + Unix(b)
    decreases |a|
  {
    if a == [] {
      assert a + b == b && "" + Unix(b) == Unix(b);
    } else {
      TailOfConcat(a, b);
      TypedConcat(a[1..], b);
      Associate("\n", Unix(a[1..]), Unix(b));
      Associate(a[0].text, "\n" + Unix(a[1..]), Unix(b));
    }
  }

  /** Code keeps its lines, with line breaks of one kind; a last line that is not broken off stays as it is. */
  lemma CodeKeepsLines(lines: seq<Ended>, last: string)
    requires GoodLines(lines) && '\r' !in last && '\n' !in last && last != ""
    ensures CodeBody(Typed(lines) + last) == Unix(lines) + last
  {
    LinesAreUnified(lines, last);
    var s := Unix(lines) + last;
    assert Last(s) == Last(last);
    DropsNewlines(s, 0);
    assert s + "" == s;
  }

  /** And blank lines behind the last are dropped, with its own break. */
  lemma CodeDropsBlankEnd(lines: seq<Ended>, last: Ended, blank: seq<Ended>)
    requires GoodLines(lines + [last] + blank) && last.text != "" && forall l :: l in blank ==> l.text == ""
    ensures CodeBody(Typed(lines + [last] + blank)) == Unix(lines) + last.text
  {
    var all := lines + [last] + blank;
    LinesAreUnified(all, "");
    assert Typed(all) + "" == Typed(all) && Unix(all) + "" == Unix(all);
    TypedConcat(lines + [last], blank);
    TypedConcat(lines, [last]);
    BlankLines(blank);
    assert all[|lines|] == last && GoodLine(last);
    EndsInLine(Unix(lines), last, |blank|);
  }

  lemma EndsInLine(front: string, last: Ended, n: nat)
    requires GoodLine(last) && last.text != ""
    ensures DropFinalNewlines(front + Unix([last]) + Newlines(n)) == front + last.text
  {
    var s := front + last.text;
    assert Unix([last]) == last.text + "\n";
    assert Last(s) == Last(last.text);
    DropsNewlines(s, n + 1);
    assert s + ("\n" + Newlines(n)) == front + (last.text + "\n") + Newlines(n);
  }

  // ---------------------------------------------------------------- math

  /** A line of mathematics, with white space around it. */
  datatype Padded = Padded(lead: string, core: string, tail: string)

  function Spelled(l: Padded): string {
    l.lead + (l.core + l.tail)
  }

  predicate IsBlank(s: string) {
    forall c :: c in s ==> IsWhite(c)
  }

  predicate GoodPadded(l: Padded) {
    && '\n' !in Spelled(l) && IsBlank(l.lead) && IsBlank(l.tail)
    && (l.core == "" || (!IsWhite(l.core[0]) && !IsWhite(Last(l.core))))
  }

  lemma {:induction false} TrimsFront(lead: string, s: string)
    requires IsBlank(lead)
    ensures TrimStart(lead + s) == TrimStart(s)
    decreases |lead|
  {
    if lead == "" {
      assert lead + s == s;
    } else {
      TailOfConcat(lead, s);
      TrimsFront(lead[1..], s);
    }
  }

  lemma {:induction false} TrimsBack(s: string, tail: string)
    requires IsBlank(tail)
    ensures TrimEnd(s + tail) == TrimEnd(s)
    decreases |tail|
  {
    if tail == "" {
      assert s + tail == s;
    } else {
      InitOfConcat(s, tail);
      TrimsBack(s, Init(tail));
    }
  }

  lemma PaddingIsTrimmed(l: Padded)
    requires GoodPadded(l)
    ensures Trim(Spelled(l)) == l.core
  {
    TrimsFront(l.lead, l.core + l.tail);
    if l.core == "" {
      assert l.core + l.tail == l.tail && l.tail + "" == l.tail;
      TrimsFront(l.tail, "");
    } else {
      TrimStartFixed(l.core + l.tail);
      TrimsBack(l.core, l.tail);
      TrimEndFixed(l.core);
    }
  }

  lemma CrIsTrimmed(line: string)
    ensures Trim(StripCr(line)) == Trim(line)
  {
    if line != "" && Last(line) == '\r' {
      var init := Init(line);
      InitLast(line);
      assert IsBlank("\r");
      TrimIsBothWays(init, "\r");
    }
  }

  lemma TrimIsBothWays(s: string, tail: string)
    requires IsBlank(tail)
    ensures Trim(s + tail) == Trim(s)
  {
    if IsBlank(s) {
      TrimsFront(s, tail);
      TrimsFront(s, "");
      TrimsFront(tail, "");
      assert s + "" == s && tail + "" == tail;
    } else {
      StartOfConcat(s, tail);
      TrimsBack(TrimStart(s), tail);
    }
  }

  lemma {:induction false} StartOfConcat(s: string, tail: string)
    requires !IsBlank(s)
    ensures TrimStart(s + tail) == TrimStart(s) + tail
    decreases |s|
  {
    TailOfConcat(s, tail);
    if IsWhite(s[0]) {
      StartOfConcat(s[1..], tail);
    }
  }

  function SpelledAll(lines: seq<Padded>): seq<string> {
    if lines == [] then [] else [Spelled(lines[0])] + SpelledAll(lines[1..])
  }

  function Cores(lines: seq<Padded>): seq<string> {
    if lines == [] then [] else [lines[0].core] + Cores(lines[1..])
  }

  /** The lines of a body, from the first that is not empty to the last. */
  predicate GoodMath(lines: seq<Padded>) {
    lines != [] && (forall l :: l in lines ==> GoodPadded(l)) && Spelled(Last(lines)) != ""
  }

  lemma {:induction false} LinesAreTrimmed(lines: seq<Padded>)
    requires GoodMath(lines)
    ensures TrimEach(Lines(JoinLines(SpelledAll(lines)))) == Cores(lines)
    ensures var s := JoinLines(SpelledAll(lines)); s != "" && Last(s) != '\n'
    decreases |lines|
  {
    var line := Spelled(lines[0]);
    PaddingIsTrimmed(lines[0]);
    if |lines| == 1 {
      assert lines[1..] == [] && SpelledAll(lines) == [line];
      LinesOfOne(line);
    } else {
      var more := JoinLines(SpelledAll(lines[1..]));
      LinesAreTrimmed(lines[1..]);
      SpelledLength(lines[1..]);
      assert SpelledAll(lines)[1..] == SpelledAll(lines[1..]);
      FirstLineIs(line, more);
      CrIsTrimmed(line);
      assert ([StripCr(line)] + Lines(more))[1..] == Lines(more);
    }
  }

  lemma {:induction false} SpelledLength(lines: seq<Padded>)
    ensures |SpelledAll(lines)| == |lines|
  {
    if lines != [] {
      SpelledLength(lines[1..]);
    }
  }

  lemma FirstLineIs(line: string, more: string)
    requires '\n' !in line && more != "" && Last(more) != '\n'
    ensures var s := line + "\n" + more; Lines(s) == [StripCr(line)] + Lines(more) && s != "" && Last(s) == Last(more)
  {
    var s := line + "\n" + more;
    FindIs(s, '\n', |line|);
    FirstOfLines(s, |line|);
    assert s[..|line|] == line && s[|line| + 1..] == more;
  }

  lemma {:induction false} DropsLeadingNewlines(n: nat, s: string)
    requires s == "" || s[0] != '\n'
    ensures DropLeadingNewlines(Newlines(n) + s) == s
  {
    if n == 0 {
      assert "" + s == s;
    } else {
      Associate("\n", Newlines(n - 1), s);
      assert ("\n" + (Newlines(n - 1) + s))[1..] == Newlines(n - 1) + s;
      DropsLeadingNewlines(n - 1, s);
    }
  }

  lemma StartsWithLine(lines: seq<Padded>)
    requires GoodMath(lines) && Spelled(lines[0]) != ""
    ensures var s := JoinLines(SpelledAll(lines)); s != "" && s[0] != '\n'
  {
    LinesAreTrimmed(lines);
    assert GoodPadded(lines[0]);
    assert SpelledAll(lines)[0] == Spelled(lines[0]);
  }

  /** A math body keeps its lines without the white space around them, and loses the line breaks around all of them. */
  lemma MathKeepsLines(before: nat, lines: seq<Padded>, after: nat)
    requires GoodMath(lines) && Spelled(lines[0]) != ""
    ensures MathBody(Newlines(before) + (JoinLines(SpelledAll(lines)) + Newlines(after))) == JoinLines(Cores(lines))
  {
    var s := JoinLines(SpelledAll(lines));
    LinesAreTrimmed(lines);
    StartsWithLine(lines);
    DropsLeadingNewlines(before, s + Newlines(after));
    DropsNewlines(s, after);
  }
}
