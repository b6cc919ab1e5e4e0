/** Frontmatter as people and other programs write it: block lists, bare words, block scalars (crates/mb-core/src/frontmatter.rs). */
module FrontmatterWritten {
  import opened Strings
  import opened Frontmatter
  import opened FrontmatterRoundTrip
  import opened FrontmatterDocument

  // ---------------------------------------------------------------- how it is written

  predicate IsBlank(s: string) {
    forall c :: c in s ==> c == ' ' || c == '\t'
  }

  /** A value in quotes of one kind, or bare. */
  datatype Word = Bare(text: string) | Quoted(quote: char, text: string)

  function Spelled(w: Word): string {
    match w case Bare(t) => t case Quoted(q, t) => [q] + t + [q]
  }

  predicate InQuotes(t: string, q: char) {
    |t| >= 2 && t[0] == q && Last(t) == q
  }

  predicate GoodWord(w: Word) {
    '\n' !in w.text && match w
      case Bare(t) => (t == "" || (!IsWhite(t[0]) && !IsWhite(Last(t)))) && !InQuotes(t, '"') && !InQuotes(t, '\'')
      case Quoted(q, _) => q == '"' || q == '\''
  }

  /** One item of a block list: any indentation, one dash, a blank or more, the item. */
  datatype Dashed = Dashed(pad: string, gap: string, word: Word)

  function DashedLine(d: Dashed): string {
    d.pad + ("- " + d.gap + Spelled(d.word))
  }

  predicate GoodDashed(d: Dashed) {
    IsBlank(d.pad) && IsBlank(d.gap) && GoodWord(d.word)
  }

  /** What stands in a note's frontmatter under one key, or between two. */
  datatype Chunk =
    | Dashes(key: string, gap: string, items: seq<Dashed>)
    | Plain(key: string, gap: string, word: Word)
    | Block(key: string, gap: string, header: string, body: seq<string>)
    | Blank(line: string)

  function DashedLines(items: seq<Dashed>): seq<string> {
    if items == [] then [] else [DashedLine(items[0])] + DashedLines(items[1..])
  }

  function ChunkLines(c: Chunk): seq<string> {
    match c
    case Dashes(key, gap, items) => [key + ":" + gap] + DashedLines(items)
    case Plain(key, gap, word) => [key + ":" + (gap + Spelled(word))]
    case Block(key, gap, header, body) => [key + ":" + (gap + header)] + body
    case Blank(line) => [line]
  }

  /** `|` or `>`, as block scalars start, with what may follow. */
  predicate GoodHeader(h: string) {
    h != "" && (h[0] == '|' || h[0] == '>') && forall i :: 1 <= i < |h| ==> h[i] in "+-0123456789"
  }

  predicate GoodBodyLine(line: string) {
    line != "" && (line[0] == ' ' || line[0] == '\t') && '\n' !in line && Last(line) != '\r' && exists i :: 0 <= i < |line| && !IsWhite(line[i])
  }

  predicate StartsItem(line: string) {
    "- " <= TrimStart(line) || Trim(line) == "-"
  }

  predicate AllDashed(items: seq<Dashed>) {
    items == [] || (GoodDashed(items[0]) && AllDashed(items[1..]))
  }

  predicate AllIndented(body: seq<string>) {
    body == [] || (GoodBodyLine(body[0]) && AllIndented(body[1..]))
  }

  predicate GoodChunk(c: Chunk) {
    match c
    case Dashes(key, gap, items) => GoodKey(key) && IsBlank(gap) && items != [] && AllDashed(items)
    case Plain(key, gap, word) =>
      GoodKey(key) && IsBlank(gap) && GoodWord(word) && !(word.Bare? && word.text != "" && word.text[0] == '[')
    case Block(key, gap, header, body) =>
      GoodKey(key) && IsBlank(gap) && body != [] && AllIndented(body)
      && (GoodHeader(header) || (header == "" && !StartsItem(body[0])))
    case Blank(line) => IsBlank(line)
  }

  lemma {:induction false} EachDashed(items: seq<Dashed>)
    requires AllDashed(items)
    ensures forall d :: d in items ==> GoodDashed(d)
  {
    if items != [] {
      EachDashed(items[1..]);
    }
  }

  lemma {:induction false} EachIndented(body: seq<string>)
    requires AllIndented(body)
    ensures forall line :: line in body ==> GoodBodyLine(line)
  {
    if body != [] {
      EachIndented(body[1..]);
    }
  }

  function AllLines(chunks: seq<Chunk>): seq<string> {
    if chunks == [] then [] else ChunkLines(chunks[0]) + AllLines(chunks[1..])
  }

  // ---------------------------------------------------------------- what it means

  function Texts(items: seq<Dashed>): seq<string> {
    if items == [] then [] else [items[0].word.text] + Texts(items[1..])
  }

  /** The entry a chunk stands for; a blank line stands for none. */
  function Meant(c: Chunk): Option<Entry> {
    match c
    case Dashes(key, _, items) => Some((key, List(Texts(items))))
    case Plain(key, _, word) => Some((key, Scalar(word.text)))
    case Block(key, _, _, _) => Some((key, Raw(ChunkLines(c))))
    case Blank(_) => None
  }

  function With(fm: Frontmatter, e: Option<Entry>): Frontmatter {
    match e
    case None => fm
    case Some((key, value)) => if value.Raw? then fm.(extra := Insert(fm.extra, key, value)) else Assign(fm, key, value)
  }

  function Given(fm: Frontmatter, c: Chunk): Frontmatter {
    With(fm, Meant(c))
  }

  function GivenAll(fm: Frontmatter, chunks: seq<Chunk>): Frontmatter
    decreases |chunks|
  {
    if chunks == [] then fm else GivenAll(Given(fm, chunks[0]), chunks[1..])
  }

  // ---------------------------------------------------------------- one item

  lemma {:induction false} TrimStartBlank(pad: string, s: string)
    requires IsBlank(pad) && (s == "" || !IsWhite(s[0]))
    ensures TrimStart(pad + s) == s
    decreases |pad|
  {
    if pad == "" {
      assert pad + s == s;
      TrimStartFixed(s);
    } else {
      assert pad[0] in pad && forall c :: c in pad[1..] ==> c in pad;
      TrimStartBlank(pad[1..], s);
      TailOfConcat(pad, s);
    }
  }

  lemma TrimBlank(pad: string, s: string)
    requires IsBlank(pad) && (s == "" || (!IsWhite(s[0]) && !IsWhite(Last(s))))
    ensures Trim(pad + s) == s
  {
    TrimStartBlank(pad, s);
    TrimEndFixed(s);
  }

  lemma SpelledShape(w: Word)
    requires GoodWord(w)
    ensures var s := Spelled(w); (s == "" || (!IsWhite(s[0]) && !IsWhite(Last(s)))) && Unquote(s) == w.text && '\n' !in s
  {
    var s := Spelled(w);
    TrimBlank("", s);
    assert "" + s == s;
    if w.Quoted? {
      assert s[1..|s| - 1] == w.text;
    }
  }

  lemma OneDashIsDropped(behind: string)
    ensures DropDashes("- " + behind) == " " + behind
  {
    var line := "- " + behind;
    assert line[1..] == " " + behind;
    assert DropDashes(line) == DropDashes(line[1..]) == line[1..];
  }

  /** The line of an item starts a list item, and the item is read from it. */
  lemma DashedIsRead(d: Dashed)
    requires GoodDashed(d)
    ensures "- " <= TrimStart(DashedLine(d)) && ListItem(DashedLine(d)) == d.word.text
  {
    var text := Spelled(d.word);
    Associate("- ", d.gap, text);
    TrimStartBlank(d.pad, "- " + (d.gap + text));
    OneDashIsDropped(d.gap + text);
    SpelledShape(d.word);
    Associate(" ", d.gap, text);
    TrimBlank(" " + d.gap, text);
  }

  lemma {:induction false} DashesAreRead(items: seq<Dashed>)
    requires forall d :: d in items ==> GoodDashed(d)
    ensures ListItems(DashedLines(items)) == Texts(items)
  {
    if items != [] {
      DashedIsRead(items[0]);
      DashesAreRead(items[1..]);
      assert DashedLines(items)[1..] == DashedLines(items[1..]);
    }
  }

  // ---------------------------------------------------------------- one chunk

  /** The line continues nothing above it. */
  predicate Fresh(line: string) {
    !StartsItem(line) && !((" " <= line || "\t" <= line) && Trim(line) != "")
  }

  predicate FreshFrom(after: seq<string>) {
    after == [] || Fresh(after[0])
  }

  lemma KeyLineIsFresh(key: string, tail: string)
    requires GoodKey(key)
    ensures Fresh(key + ":" + tail)
  {
    var line := key + ":" + tail;
    TrimShape(key);
    assert line[0] == key[0];
    TrimStartFixed(line);
    TrimIsInk(line);
    TrimStartsAs(line);
  }

  lemma TrimStartsAs(s: string)
    requires s != "" && !IsWhite(s[0])
    ensures Trim(s) != "" && Trim(s)[0] == s[0]
  {
    TrimStartFixed(s);
    TrimIsInk(s);
    TrimEndKeepsInk(s);
  }

  lemma BlankLineIsFresh(line: string)
    requires IsBlank(line)
    ensures Fresh(line) && Trim(line) == ""
  {
    TrimBlank(line, "");
    TrimStartBlank(line, "");
    assert line + "" == line;
  }

  lemma ChunkIsFresh(c: Chunk)
    requires GoodChunk(c)
    ensures ChunkLines(c) != [] && Fresh(ChunkLines(c)[0])
  {
    match c
    case Dashes(key, gap, items) => KeyLineIsFresh(key, gap);
    case Plain(key, gap, word) => KeyLineIsFresh(key, gap + Spelled(word));
    case Block(key, gap, header, body) => KeyLineIsFresh(key, gap + header);
    case Blank(line) => BlankLineIsFresh(line);
  }

  /** From line `i` on there are these lines, and then others. */
  predicate StandsAt(lines: seq<string>, i: nat, some: seq<string>, after: seq<string>) {
    i <= |lines| && lines[i..] == some + after
  }

  lemma SliceAt(lines: seq<string>, i: nat, some: seq<string>, after: seq<string>) returns (n: nat)
    requires StandsAt(lines, i, some, after)
    ensures n == i + |some| <= |lines| && lines[i..n] == some && lines[n..] == after
  {
    n := i + |some|;
    var rest := lines[i..];
    assert rest[..|some|] == some && rest[|some|..] == after;
    assert lines[i..n] == rest[..|some|] && lines[n..] == rest[|some|..];
  }

  lemma LinesAt(lines: seq<string>, i: nat, some: seq<string>, after: seq<string>)
    requires StandsAt(lines, i, some, after)
    ensures i + |some| <= |lines| && lines[i..i + |some|] == some && lines[i + |some|..] == after
    ensures forall k :: 0 <= k < |some| ==> lines[i + k] == some[k]
    ensures i + |some| < |lines| ==> after != [] && lines[i + |some|] == after[0]
  {
    var rest := lines[i..];
    assert forall k :: 0 <= k < |rest| ==> lines[i + k] == rest[k];
    assert lines[i..i + |some|] == rest[..|some|] && lines[i + |some|..] == rest[|some|..];
  }

  lemma NextAt(lines: seq<string>, i: nat, first: string, more: seq<string>, after: seq<string>)
    requires StandsAt(lines, i, [first] + more, after)
    ensures i < |lines| && lines[i] == first && StandsAt(lines, i + 1, more, after)
  {
    LinesAt(lines, i, [first] + more, after);
    assert lines[i + 1..] == lines[i..][1..] == more + after;
    assert lines[i] == ([first] + more)[0];
  }

  lemma {:induction false} DashesEnd(lines: seq<string>, i: nat, items: seq<Dashed>, after: seq<string>)
    requires forall d :: d in items ==> GoodDashed(d)
    requires StandsAt(lines, i, DashedLines(items), after) && FreshFrom(after)
    ensures ListEnd(lines, i) == i + |items|
    decreases |items|
  {
    if items == [] {
      LinesAt(lines, i, [], after);
    } else {
      var d, more := items[0], items[1..];
      assert d in items && forall x :: x in more ==> x in items;
      NextAt(lines, i, DashedLine(d), DashedLines(more), after);
      DashedIsRead(d);
      DashesEnd(lines, i + 1, more, after);
    }
  }

  lemma {:induction false} DashedLinesLength(items: seq<Dashed>)
    ensures |DashedLines(items)| == |items|
  {
    if items != [] {
      DashedLinesLength(items[1..]);
    }
  }

  lemma {:induction false} BodyEnd(lines: seq<string>, i: nat, body: seq<string>, after: seq<string>)
    requires forall line :: line in body ==> GoodBodyLine(line)
    requires StandsAt(lines, i, body, after) && FreshFrom(after)
    ensures IndentEnd(lines, i) == i + |body|
    decreases |body|
  {
    if body == [] {
      LinesAt(lines, i, [], after);
    } else {
      var first, more := body[0], body[1..];
      assert first in body && forall x :: x in more ==> x in body;
      assert body == [first] + more;
      NextAt(lines, i, first, more, after);
      BodyLineIsIndented(lines, i);
      BodyEnd(lines, i + 1, more, after);
    }
  }

  lemma BodyLineIsIndented(lines: seq<string>, i: nat)
    requires i < |lines| && GoodBodyLine(lines[i])
    ensures IsIndented(lines, i)
  {
    var k :| 0 <= k < |lines[i]| && !IsWhite(lines[i][k]);
    InkIsNotBlank(lines[i], k);
  }

  lemma InkIsNotBlank(s: string, k: nat)
    requires k < |s| && !IsWhite(s[k])
    ensures Trim(s) != ""
  {
    TrimShape(s);
    NonWhiteHas(s, k);
  }

  lemma {:induction false} NonWhiteHas(s: string, k: nat)
    requires k < |s| && !IsWhite(s[k])
    ensures NonWhite(s) != ""
    decreases |s|
  {
    if k < |s| - 1 {
      NonWhiteHas(Init(s), k);
    }
  }

  /** A line that is a key with its value: what is split from it. */
  predicate KeyLine(line: string, key: string, gap: string, value: string) {
    && GoodKey(key) && IsBlank(gap) && (value == "" || (!IsWhite(value[0]) && !IsWhite(Last(value))))
    && line == key + ":" + (gap + value)
  }

  lemma KeyLineIsSplit(line: string, key: string, gap: string, value: string)
    requires KeyLine(line, key, gap, value)
    ensures Trim(line) != "" && SplitKey(line) == Some((key, gap + value)) && Trim(gap + value) == value
  {
    KeyIsSplit(key, gap + value);
    TrimBlank(gap, value);
  }

  lemma KeyStep(lines: seq<string>, i: nat, fm: Frontmatter, key: string, gap: string, value: string)
    requires i < |lines| && KeyLine(lines[i], key, gap, value)
    ensures ParseStep(lines, i, fm) == ParseValue(lines, i, fm, key, value)
  {
    KeyLineIsSplit(lines[i], key, gap, value);
  }

  /** The parser goes from line `i` on to line `n`, and has read the entry `e`, whatever it has read before. */
  ghost predicate Says(lines: seq<string>, i: nat, n: nat, e: Option<Entry>) {
    && i < n <= |lines|
    && forall fm :: ParseStep(lines, i, fm) == (n, With(fm, e))
  }

  lemma ListStep(lines: seq<string>, i: nat, key: string, gap: string, n: nat, items: seq<string>)
    requires i < |lines| && KeyLine(lines[i], key, gap, "")
    requires IsListStart(lines, i + 1) && ListEnd(lines, i + 1) == n && ListItems(lines[i + 1..n]) == items
    ensures Says(lines, i, n, Some((key, List(items))))
  {
    forall fm ensures ParseStep(lines, i, fm) == (n, With(fm, Some((key, List(items))))) {
      KeyStep(lines, i, fm, key, gap, "");
    }
  }

  lemma DashesStart(lines: seq<string>, i: nat, items: seq<Dashed>, after: seq<string>)
    requires items != [] && GoodDashed(items[0]) && StandsAt(lines, i, DashedLines(items), after)
    ensures IsListStart(lines, i)
  {
    LinesAt(lines, i, DashedLines(items), after);
    assert lines[i + 0] == DashedLine(items[0]);
    DashedIsRead(items[0]);
  }

  lemma DashesItems(lines: seq<string>, i: nat, items: seq<Dashed>, after: seq<string>) returns (n: nat)
    requires forall d :: d in items ==> GoodDashed(d)
    requires StandsAt(lines, i, DashedLines(items), after)
    ensures n == i + |items| <= |lines| && ListItems(lines[i..n]) == Texts(items)
  {
    n := SliceAt(lines, i, DashedLines(items), after);
    DashedLinesLength(items);
    DashesAreRead(items);
  }

  // ---------------------------------------------------------------- a list in brackets

  /** One item of a list in brackets, between blanks. */
  datatype Spaced = Spaced(lead: string, word: Word, tail: string)

  function SpacedText(s: Spaced): string {
    s.lead + (Spelled(s.word) + s.tail)
  }

  predicate GoodSpaced(s: Spaced) {
    IsBlank(s.lead) && IsBlank(s.tail) && GoodWord(s.word) && Spelled(s.word) != "" && ',' !in s.word.text
  }

  function Commas(row: seq<Spaced>): string {
    if row == [] then "" else "," + (SpacedText(row[0]) + Commas(row[1..]))
  }

  /** The items between commas. */
  function FlowInner(row: seq<Spaced>): string {
    if row == [] then "" else SpacedText(row[0]) + Commas(row[1..])
  }

  function FlowText(row: seq<Spaced>): string {
    "[" + FlowInner(row) + "]"
  }

  function RowWords(row: seq<Spaced>): seq<string> {
    if row == [] then [] else [row[0].word.text] + RowWords(row[1..])
  }

  lemma {:induction false} TrimEndBlank(s: string, tail: string)
    requires IsBlank(tail) && s != "" && !IsWhite(Last(s))
    ensures TrimEnd(s + tail) == s
    decreases |tail|
  {
    if tail == "" {
      assert s + tail == s;
      TrimEndFixed(s);
    } else {
      InitOfConcat(s, tail);
      assert Last(tail) in tail && forall c :: c in Init(tail) ==> c in tail;
      TrimEndBlank(s, Init(tail));
    }
  }

  lemma SpacedIsTrimmed(s: Spaced)
    requires GoodSpaced(s)
    ensures Trim(SpacedText(s)) == Spelled(s.word)
  {
    var text := Spelled(s.word);
    SpelledShape(s.word);
    TrimStartBlank(s.lead, text + s.tail);
    TrimEndBlank(text, s.tail);
  }

  lemma SpacedIsRead(s: Spaced)
    requires GoodSpaced(s)
    ensures Unquote(Trim(SpacedText(s))) == s.word.text
  {
    SpacedIsTrimmed(s);
    SpelledShape(s.word);
  }

  lemma SpelledIsTame(w: Word)
    requires GoodWord(w) && ',' !in w.text
    ensures ',' !in Spelled(w)
  {
  }

  lemma SpacedIsTame(s: Spaced)
    requires GoodSpaced(s)
    ensures ',' !in SpacedText(s)
  {
    SpelledIsTame(s.word);
  }

  lemma SplitAtComma(front: string, more: string)
    requires ',' !in front
    ensures SplitOn(front + ("," + more), ',') == [front] + SplitOn(more, ',') && SplitOn(front, ',') == [front]
  {
    var s := front + ("," + more);
    FindIs(front, ',', |front|);
    FindIs(s, ',', |front|);
    assert s[..|front|] == front && s[|front| + 1..] == more;
  }

  lemma UnquoteFirst(part: string, parts: seq<string>)
    ensures UnquoteAll([part] + parts) == [Unquote(Trim(part))] + UnquoteAll(parts) && UnquoteAll([part]) == [Unquote(Trim(part))]
  {
    assert ([part] + parts)[1..] == parts && [part][1..] == [];
  }

  lemma {:induction false} CommasSplit(front: string, row: seq<Spaced>)
    requires ',' !in front && forall s :: s in row ==> GoodSpaced(s)
    ensures UnquoteAll(SplitOn(front + Commas(row), ',')) == [Unquote(Trim(front))] + RowWords(row)
    decreases |row|
  {
    if row == [] {
      assert front + "" == front;
      SplitAtComma(front, "");
      UnquoteFirst(front, []);
    } else {
      var text := SpacedText(row[0]);
      assert row[0] in row && forall x :: x in row[1..] ==> x in row;
      SpacedIsRead(row[0]);
      SpacedIsTame(row[0]);
      CommasSplit(text, row[1..]);
      SplitAtComma(front, text + Commas(row[1..]));
      UnquoteFirst(front, SplitOn(text + Commas(row[1..]), ','));
    }
  }

  lemma InkBehindBlank(pad: string, s: string)
    requires IsBlank(pad) && s != "" && !IsWhite(s[0])
    ensures Trim(pad + s) != ""
  {
    TrimStartBlank(pad, s);
    TrimStartFixed(s);
    TrimStartsAs(s);
  }

  lemma FlowIsInk(row: seq<Spaced>)
    requires row != [] && GoodSpaced(row[0])
    ensures Trim(FlowInner(row)) != ""
  {
    var s, more := row[0], Commas(row[1..]);
    SpelledShape(s.word);
    Associate(s.lead, Spelled(s.word) + s.tail, more);
    InkBehindBlank(s.lead, Spelled(s.word) + s.tail + more);
  }

  lemma BracketsAreRead(inner: string)
    ensures ParseFlowList("[" + inner + "]") == Some(if Trim(inner) == "" then [] else UnquoteAll(SplitOn(inner, ',')))
  {
    var value := "[" + inner + "]";
    assert value[1..|value| - 1] == inner;
  }

  /** A list in brackets is read item by item, whatever blanks and quotes surround each. */
  lemma FlowIsRead(row: seq<Spaced>)
    requires forall s :: s in row ==> GoodSpaced(s)
    ensures ParseFlowList(FlowText(row)) == Some(RowWords(row))
  {
    BracketsAreRead(FlowInner(row));
    if row != [] {
      assert row[0] in row && forall x :: x in row[1..] ==> x in row;
      FlowIsInk(row);
      SpacedIsRead(row[0]);
      SpacedIsTame(row[0]);
      CommasSplit(SpacedText(row[0]), row[1..]);
    }
  }

  lemma NotFlow(s: string)
    requires s == "" || s[0] != '['
    ensures ParseFlowList(s) == None
  {
  }

  lemma PlainValue(lines: seq<string>, i: nat, fm: Frontmatter, key: string, word: Word)
    requires i < |lines| && GoodWord(word) && (word.Bare? && word.text != "" ==> word.text[0] != '[')
    requires !IsListStart(lines, i + 1) && !IsIndented(lines, i + 1)
    ensures ParseValue(lines, i, fm, key, Spelled(word)) == (i + 1, Assign(fm, key, Scalar(word.text)))
  {
    SpelledShape(word);
    NotFlow(Spelled(word));
  }

  lemma RawValue(lines: seq<string>, i: nat, fm: Frontmatter, key: string, value: string, n: nat)
    requires i < |lines| && (value == "" || IsBlockScalar(value)) && ParseFlowList(value) == None
    requires !(value == "" && IsListStart(lines, i + 1)) && IsIndented(lines, i + 1) && IndentEnd(lines, i + 1) == n
    ensures ParseValue(lines, i, fm, key, value) == (n, fm.(extra := Insert(fm.extra, key, Raw(lines[i..n]))))
  {
  }

  lemma BodyIsIndented(lines: seq<string>, i: nat, body: seq<string>, after: seq<string>)
    requires body != [] && (forall line :: line in body ==> GoodBodyLine(line))
    requires StandsAt(lines, i, body, after) && FreshFrom(after)
    ensures IsIndented(lines, i) && lines[i] == body[0] && IndentEnd(lines, i) == i + |body|
  {
    BodyEnd(lines, i, body, after);
    LinesAt(lines, i, body, after);
    assert lines[i + 0] == body[0] && body[0] in body;
    BodyLineIsIndented(lines, i);
  }

  lemma HeaderIsTrimmed(h: string)
    requires GoodHeader(h)
    ensures !IsWhite(h[0]) && !IsWhite(Last(h)) && IsBlockScalar(h)
  {
    assert forall i :: 1 <= i < |h| ==> h[i] == '-' || h[i] == '+' || '0' <= h[i] <= '9';
  }

  lemma DashesFacts(lines: seq<string>, i: nat, items: seq<Dashed>, after: seq<string>) returns (n: nat, texts: seq<string>)
    requires items != [] && (forall d :: d in items ==> GoodDashed(d))
    requires StandsAt(lines, i + 1, DashedLines(items), after) && FreshFrom(after)
    ensures n == i + 1 + |items| && texts == Texts(items)
    ensures IsListStart(lines, i + 1) && ListEnd(lines, i + 1) == n && ListItems(lines[i + 1..n]) == texts
  {
    texts := Texts(items);
    n := DashesItems(lines, i + 1, items, after);
    DashesEnd(lines, i + 1, items, after);
    assert items[0] in items;
    DashesStart(lines, i + 1, items, after);
  }

  lemma DashesStep(lines: seq<string>, i: nat, c: Chunk, after: seq<string>) returns (n: nat, key: string, gap: string, texts: seq<string>)
    requires c.Dashes? && GoodChunk(c) && StandsAt(lines, i, ChunkLines(c), after) && FreshFrom(after)
    ensures n == i + |ChunkLines(c)| && Meant(c) == Some((key, List(texts))) && i < |lines| && KeyLine(lines[i], key, gap, "")
    ensures IsListStart(lines, i + 1) && ListEnd(lines, i + 1) == n && ListItems(lines[i + 1..n]) == texts
  {
    key, gap := c.key, c.gap;
    EachDashed(c.items);
    NextAt(lines, i, key + ":" + gap, DashedLines(c.items), after);
    assert gap + "" == gap;
    n, texts := DashesFacts(lines, i, c.items, after);
    DashedLinesLength(c.items);
  }

  lemma PlainStep(lines: seq<string>, i: nat, c: Chunk, after: seq<string>) returns (value: string)
    requires c.Plain? && GoodChunk(c) && StandsAt(lines, i, ChunkLines(c), after) && FreshFrom(after)
    ensures value == Spelled(c.word) && i < |lines| && KeyLine(lines[i], c.key, c.gap, value)
    ensures !IsListStart(lines, i + 1) && !IsIndented(lines, i + 1)
  {
    value := Spelled(c.word);
    SpelledShape(c.word);
    NextAt(lines, i, c.key + ":" + (c.gap + value), [], after);
    LinesAt(lines, i + 1, [], after);
  }

  lemma BlockStep(lines: seq<string>, i: nat, c: Chunk, after: seq<string>) returns (n: nat, block: seq<string>)
    requires c.Block? && GoodChunk(c) && StandsAt(lines, i, ChunkLines(c), after) && FreshFrom(after)
    ensures n == i + |ChunkLines(c)| <= |lines| && block == ChunkLines(c) == lines[i..n]
    ensures i < |lines| && KeyLine(lines[i], c.key, c.gap, c.header)
    ensures (c.header == "" || IsBlockScalar(c.header)) && ParseFlowList(c.header) == None
    ensures !(c.header == "" && IsListStart(lines, i + 1)) && IsIndented(lines, i + 1) && IndentEnd(lines, i + 1) == n
  {
    EachIndented(c.body);
    block := ChunkLines(c);
    n := SliceAt(lines, i, block, after);
    if c.header != "" {
      HeaderIsTrimmed(c.header);
    }
    NextAt(lines, i, c.key + ":" + (c.gap + c.header), c.body, after);
    NotFlow(c.header);
    BodyIsIndented(lines, i + 1, c.body, after);
  }

  lemma DashesChunk(lines: seq<string>, i: nat, c: Chunk, after: seq<string>)
    requires c.Dashes? && GoodChunk(c) && StandsAt(lines, i, ChunkLines(c), after) && FreshFrom(after)
    ensures Says(lines, i, i + |ChunkLines(c)|, Meant(c))
  {
    var n, key, gap, texts := DashesStep(lines, i, c, after);
    ListStep(lines, i, key, gap, n, texts);
  }

  lemma ScalarStep(lines: seq<string>, i: nat, key: string, gap: string, word: Word)
    requires i < |lines| && KeyLine(lines[i], key, gap, Spelled(word))
    requires GoodWord(word) && (word.Bare? && word.text != "" ==> word.text[0] != '[')
    requires !IsListStart(lines, i + 1) && !IsIndented(lines, i + 1)
    ensures Says(lines, i, i + 1, Some((key, Scalar(word.text))))
  {
    forall fm ensures ParseStep(lines, i, fm) == (i + 1, With(fm, Some((key, Scalar(word.text))))) {
      PlainValue(lines, i, fm, key, word);
      KeyStep(lines, i, fm, key, gap, Spelled(word));
    }
  }

  lemma PlainChunk(lines: seq<string>, i: nat, c: Chunk, after: seq<string>)
    requires c.Plain? && GoodChunk(c) && StandsAt(lines, i, ChunkLines(c), after) && FreshFrom(after)
    ensures Says(lines, i, i + |ChunkLines(c)|, Meant(c))
  {
    var value := PlainStep(lines, i, c, after);
    ScalarStep(lines, i, c.key, c.gap, c.word);
  }

  lemma RawStep(lines: seq<string>, i: nat, key: string, gap: string, value: string, n: nat, block: seq<string>)
    requires i < n <= |lines| && KeyLine(lines[i], key, gap, value) && block == lines[i..n]
    requires (value == "" || IsBlockScalar(value)) && ParseFlowList(value) == None
    requires !(value == "" && IsListStart(lines, i + 1)) && IsIndented(lines, i + 1) && IndentEnd(lines, i + 1) == n
    ensures Says(lines, i, n, Some((key, Raw(block))))
  {
    forall fm ensures ParseStep(lines, i, fm) == (n, With(fm, Some((key, Raw(block))))) {
      RawValue(lines, i, fm, key, value, n);
      KeyStep(lines, i, fm, key, gap, value);
    }
  }

  lemma BlockChunk(lines: seq<string>, i: nat, c: Chunk, after: seq<string>)
    requires c.Block? && GoodChunk(c) && StandsAt(lines, i, ChunkLines(c), after) && FreshFrom(after)
    ensures Says(lines, i, i + |ChunkLines(c)|, Meant(c))
  {
    var n, block := BlockStep(lines, i, c, after);
    RawStep(lines, i, c.key, c.gap, c.header, n, block);
  }

  lemma BlankChunk(lines: seq<string>, i: nat, c: Chunk, after: seq<string>)
    requires c.Blank? && GoodChunk(c) && StandsAt(lines, i, ChunkLines(c), after)
    ensures Says(lines, i, i + |ChunkLines(c)|, Meant(c))
  {
    LinesAt(lines, i, [c.line], after);
    assert lines[i + 0] == c.line;
    BlankLineIsFresh(c.line);
  }

  lemma ChunkStep(lines: seq<string>, i: nat, c: Chunk, after: seq<string>)
    requires GoodChunk(c) && StandsAt(lines, i, ChunkLines(c), after) && FreshFrom(after)
    ensures Says(lines, i, i + |ChunkLines(c)|, Meant(c))
  {
    if c.Dashes? {
      DashesChunk(lines, i, c, after);
    } else if c.Plain? {
      PlainChunk(lines, i, c, after);
    } else if c.Block? {
      BlockChunk(lines, i, c, after);
    } else {
      BlankChunk(lines, i, c, after);
    }
  }

  // ---------------------------------------------------------------- all of it

  lemma ChunksAreFresh(chunks: seq<Chunk>)
    requires forall c :: c in chunks ==> GoodChunk(c)
    ensures FreshFrom(AllLines(chunks))
  {
    if chunks != [] {
      assert chunks[0] in chunks;
      ChunkIsFresh(chunks[0]);
      assert AllLines(chunks)[0] == ChunkLines(chunks[0])[0];
    }
  }

  lemma FirstAndRest(chunks: seq<Chunk>) returns (c: Chunk, after: seq<string>)
    requires chunks != [] && forall c :: c in chunks ==> GoodChunk(c)
    ensures c == chunks[0] && GoodChunk(c) && after == AllLines(chunks[1..]) && FreshFrom(after)
    ensures AllLines(chunks) == ChunkLines(c) + after
  {
    c, after := chunks[0], AllLines(chunks[1..]);
    assert chunks[0] in chunks && forall x :: x in chunks[1..] ==> x in chunks;
    ChunksAreFresh(chunks[1..]);
  }

  lemma FirstChunk(lines: seq<string>, i: nat, chunks: seq<Chunk>) returns (n: nat)
    requires chunks != [] && (forall c :: c in chunks ==> GoodChunk(c)) && i <= |lines| && lines[i..] == AllLines(chunks)
    ensures Says(lines, i, n, Meant(chunks[0]))
    ensures n <= |lines| && lines[n..] == AllLines(chunks[1..])
  {
    var c, after := FirstAndRest(chunks);
    n := SliceAt(lines, i, ChunkLines(c), after);
    ChunkStep(lines, i, c, after);
  }

  lemma {:induction false} ChunksAreRead(lines: seq<string>, i: nat, fm: Frontmatter, chunks: seq<Chunk>)
    requires (forall c :: c in chunks ==> GoodChunk(c)) && i <= |lines| && lines[i..] == AllLines(chunks)
    ensures ParseFrom(lines, i, fm) == GivenAll(fm, chunks)
    decreases |chunks|
  {
    if chunks == [] {
      assert |lines[i..]| == 0;
    } else {
      var n := FirstChunk(lines, i, chunks);
      assert forall x :: x in chunks[1..] ==> x in chunks;
      ChunksAreRead(lines, n, Given(fm, chunks[0]), chunks[1..]);
      ParseFromSays(lines, i, fm, n, Meant(chunks[0]));
    }
  }

  lemma ParseFromSays(lines: seq<string>, i: nat, fm: Frontmatter, n: nat, e: Option<Entry>)
    requires Says(lines, i, n, e)
    ensures ParseFrom(lines, i, fm) == ParseFrom(lines, n, With(fm, e))
  {
    assert ParseStep(lines, i, fm) == (n, With(fm, e));
  }

  lemma DashedLineIsLine(d: Dashed)
    requires GoodDashed(d)
    ensures '\n' !in DashedLine(d) && DashedLine(d) != "" && Last(DashedLine(d)) != '\r'
  {
    var text := Spelled(d.word);
    SpelledShape(d.word);
    DashedParts(d.pad, d.gap, text);
    EndsWell(d.pad + "-", " " + d.gap, text);
  }

  lemma DashedParts(pad: string, gap: string, text: string)
    ensures pad + ("- " + gap + text) == (pad + "-") + ((" " + gap) + text)
  {
    Associate("-", " ", gap);
    Associate("-", " " + gap, text);
    Associate(pad, "-", (" " + gap) + text);
    assert "-" + " " == "- ";
  }

  lemma EndsWell(front: string, gap: string, value: string)
    requires front != "" && Last(front) != '\r' && IsBlank(gap) && (value == "" || !IsWhite(Last(value)))
    ensures var line := front + (gap + value); line != "" && Last(line) != '\r'
  {
    var line := front + (gap + value);
    if value != "" {
      assert Last(line) == Last(value);
    } else if gap != "" {
      assert Last(line) == Last(gap) && Last(gap) in gap;
    } else {
      assert Last(line) == Last(front);
    }
  }

  lemma {:induction false} DashedLinesAreLines(items: seq<Dashed>)
    requires forall d :: d in items ==> GoodDashed(d)
    ensures forall line :: line in DashedLines(items) ==> '\n' !in line && (line == "" || Last(line) != '\r')
  {
    if items != [] {
      assert items[0] in items && forall x :: x in items[1..] ==> x in items;
      DashedLineIsLine(items[0]);
      DashedLinesAreLines(items[1..]);
    }
  }

  lemma ChunkLinesAreLines(c: Chunk)
    requires GoodChunk(c)
    ensures forall line :: line in ChunkLines(c) ==> '\n' !in line && (line == "" || Last(line) != '\r')
  {
    match c
    case Dashes(key, gap, items) =>
      EachDashed(items);
      DashedLinesAreLines(items);
      assert gap + "" == gap;
      KeyLineIsLine(key, gap, "");
    case Plain(key, gap, word) => SpelledShape(word); KeyLineIsLine(key, gap, Spelled(word));
    case Block(key, gap, header, body) => BlockLinesAreLines(c);
    case Blank(line) => assert line != "" ==> Last(line) in line;
  }

  lemma KeyLineIsLine(key: string, gap: string, value: string)
    requires GoodKey(key) && IsBlank(gap) && '\n' !in value && (value == "" || !IsWhite(Last(value)))
    ensures var line := key + ":" + (gap + value); '\n' !in line && line != "" && Last(line) != '\r'
  {
    EndsWell(key + ":", gap, value);
  }

  lemma BlockLinesAreLines(c: Chunk)
    requires GoodChunk(c) && c.Block?
    ensures forall line :: line in ChunkLines(c) ==> '\n' !in line && (line == "" || Last(line) != '\r')
  {
    EachIndented(c.body);
    if c.header != "" {
      HeaderIsTrimmed(c.header);
      HeaderHasNoNewline(c.header);
    }
    KeyLineIsLine(c.key, c.gap, c.header);
  }

  lemma HeaderHasNoNewline(h: string)
    requires GoodHeader(h)
    ensures '\n' !in h
  {
    assert forall i :: 0 <= i < |h| ==> h[i] != '\n';
  }

  lemma {:induction false} AllLinesAreLines(chunks: seq<Chunk>)
    requires forall c :: c in chunks ==> GoodChunk(c)
    ensures forall line :: line in AllLines(chunks) ==> '\n' !in line && (line == "" || Last(line) != '\r')
  {
    if chunks != [] {
      assert chunks[0] in chunks && forall x :: x in chunks[1..] ==> x in chunks;
      ChunkLinesAreLines(chunks[0]);
      AllLinesAreLines(chunks[1..]);
    }
  }

  /** Frontmatter written that way is read chunk by chunk, each as what it stands for. */
  lemma WrittenIsRead(chunks: seq<Chunk>)
    requires forall c :: c in chunks ==> GoodChunk(c)
    ensures Parse(Unlines(AllLines(chunks))) == GivenAll(EMPTY, chunks)
  {
    AllLinesAreLines(chunks);
    LinesUndoUnlines(AllLines(chunks));
    assert AllLines(chunks)[0..] == AllLines(chunks);
    ChunksAreRead(AllLines(chunks), 0, EMPTY, chunks);
  }

  // ---------------------------------------------------------------- each key's own value

  /** The chunk says nothing about the key. */
  predicate Silent(c: Chunk, key: string) {
    c.Blank? || c.key != key
  }

  /** What the frontmatter holds under a user's key. */
  predicate HasExtra(fm: Frontmatter, key: string, value: YamlValue) {
    (key, value) in fm.extra
  }

  lemma {:induction false} InsertIsIn(entries: seq<Entry>, key: string, value: YamlValue)
    ensures (key, value) in Insert(entries, key, value)
    ensures forall e :: e in entries && e.0 != key ==> e in Insert(entries, key, value)
  {
    if entries != [] {
      InsertIsIn(entries[1..], key, value);
      assert entries == [entries[0]] + entries[1..];
      if entries[0].0 != key && !Less(key, entries[0].0) {
        var next := Insert(entries[1..], key, value);
        assert Insert(entries, key, value) == [entries[0]] + next;
        assert forall e :: e in next ==> e in [entries[0]] + next;
      }
    }
  }

  lemma SilentKeeps(fm: Frontmatter, c: Chunk, key: string)
    requires Silent(c, key)
    ensures key == "tags" ==> Given(fm, c).tags == fm.tags
    ensures key == "aliases" ==> Given(fm, c).aliases == fm.aliases
    ensures forall v :: HasExtra(fm, key, v) ==> HasExtra(Given(fm, c), key, v)
  {
    if !c.Blank? {
      InsertIsIn(fm.extra, c.key, Meant(c).value.1);
    }
  }

  lemma {:induction false} SilentKeep(fm: Frontmatter, chunks: seq<Chunk>, key: string)
    requires forall c :: c in chunks ==> Silent(c, key)
    ensures key == "tags" ==> GivenAll(fm, chunks).tags == fm.tags
    ensures key == "aliases" ==> GivenAll(fm, chunks).aliases == fm.aliases
    ensures forall v :: HasExtra(fm, key, v) ==> HasExtra(GivenAll(fm, chunks), key, v)
    decreases |chunks|
  {
    if chunks != [] {
      assert chunks[0] in chunks && forall x :: x in chunks[1..] ==> x in chunks;
      SilentKeeps(fm, chunks[0], key);
      SilentKeep(Given(fm, chunks[0]), chunks[1..], key);
    }
  }

  lemma {:induction false} GivenConcat(fm: Frontmatter, a: seq<Chunk>, b: seq<Chunk>)
    ensures GivenAll(fm, a + b) == GivenAll(GivenAll(fm, a), b)
    decreases |a|
  {
    if a == [] {
      assert a + b == b;
    } else {
      TailOfConcat(a, b);
      GivenConcat(Given(fm, a[0]), a[1..], b);
    }
  }

  /** A note's frontmatter with a chunk among others that are silent about its key behind it. */
  predicate Among(front: seq<Chunk>, c: Chunk, back: seq<Chunk>) {
    && !c.Blank? && GoodChunk(c) && (forall x :: x in front + back ==> GoodChunk(x))
    && forall x :: x in back ==> Silent(x, c.key)
  }

  function ReadAmong(front: seq<Chunk>, c: Chunk, back: seq<Chunk>): Frontmatter {
    Parse(Unlines(AllLines(front + [c] + back)))
  }

  lemma AmongIsRead(front: seq<Chunk>, c: Chunk, back: seq<Chunk>)
    requires Among(front, c, back)
    ensures ReadAmong(front, c, back) == GivenAll(Given(GivenAll(EMPTY, front), c), back)
  {
    WrittenIsRead(front + [c] + back);
    GivenConcat(EMPTY, front + [c], back);
    GivenConcat(EMPTY, front, [c]);
    assert [c][1..] == [];
    assert GivenAll(GivenAll(EMPTY, front), [c]) == GivenAll(Given(GivenAll(EMPTY, front), c), []);
  }

  /** Keys whose scalars the parser keeps in fields of their own. */
  const SCALAR_FIELDS := {"id", "created", "updated", "icon", "tags", "aliases"}

  lemma FieldKeeps(fm: Frontmatter, c: Chunk)
    ensures Silent(c, "id") ==> Given(fm, c).id == fm.id
    ensures Silent(c, "created") ==> Given(fm, c).created == fm.created
    ensures Silent(c, "updated") ==> Given(fm, c).updated == fm.updated
    ensures Silent(c, "icon") ==> Given(fm, c).icon == fm.icon
  {
  }

  lemma {:induction false} FieldsKeep(fm: Frontmatter, chunks: seq<Chunk>, key: string)
    requires forall c :: c in chunks ==> Silent(c, key)
    ensures key == "id" ==> GivenAll(fm, chunks).id == fm.id
    ensures key == "created" ==> GivenAll(fm, chunks).created == fm.created
    ensures key == "updated" ==> GivenAll(fm, chunks).updated == fm.updated
    ensures key == "icon" ==> GivenAll(fm, chunks).icon == fm.icon
    decreases |chunks|
  {
    if chunks != [] {
      assert chunks[0] in chunks && forall x :: x in chunks[1..] ==> x in chunks;
      FieldKeeps(fm, chunks[0]);
      FieldsKeep(Given(fm, chunks[0]), chunks[1..], key);
    }
  }

  /** What is read under a key is what its chunk gives there, whatever else the frontmatter holds. */
  lemma AmongGives(front: seq<Chunk>, c: Chunk, back: seq<Chunk>) returns (before: Frontmatter)
    requires Among(front, c, back)
    ensures var g, fm := Given(before, c), ReadAmong(front, c, back);
      && (c.key == "tags" ==> fm.tags == g.tags) && (c.key == "aliases" ==> fm.aliases == g.aliases)
      && (c.key == "id" ==> fm.id == g.id) && (c.key == "created" ==> fm.created == g.created)
      && (c.key == "updated" ==> fm.updated == g.updated) && (c.key == "icon" ==> fm.icon == g.icon)
      && forall v :: HasExtra(g, c.key, v) ==> HasExtra(fm, c.key, v)
  {
    before := GivenAll(EMPTY, front);
    AmongIsRead(front, c, back);
    SilentKeep(Given(before, c), back, c.key);
    FieldsKeep(Given(before, c), back, c.key);
  }

  /** A list in block style, whatever is written around it, is read item by item under its key. */
  lemma BlockListIsRead(front: seq<Chunk>, c: Chunk, back: seq<Chunk>)
    requires Among(front, c, back) && c.Dashes?
    ensures var fm, items := ReadAmong(front, c, back), Texts(c.items);
      if c.key == "tags" then fm.tags == items
      else if c.key == "aliases" then fm.aliases == items
      else HasExtra(fm, c.key, List(items))
  {
    var before := AmongGives(front, c, back);
    InsertIsIn(before.extra, c.key, List(Texts(c.items)));
  }

  /** One alias written behind its key is one alias; any other user's key keeps its scalar. */
  lemma ScalarIsRead(front: seq<Chunk>, c: Chunk, back: seq<Chunk>)
    requires Among(front, c, back) && c.Plain?
    ensures var fm := ReadAmong(front, c, back);
      && (c.key == "aliases" ==> fm.aliases == [c.word.text])
      && (c.key !in SCALAR_FIELDS ==> HasExtra(fm, c.key, Scalar(c.word.text)))
  {
    var before := AmongGives(front, c, back);
    InsertIsIn(before.extra, c.key, Scalar(c.word.text));
  }

  /** A field's scalar is kept as that field. */
  lemma FieldIsRead(front: seq<Chunk>, c: Chunk, back: seq<Chunk>)
    requires Among(front, c, back) && c.Plain?
    ensures var fm := ReadAmong(front, c, back);
      && (c.key == "id" ==> fm.id == Some(c.word.text)) && (c.key == "created" ==> fm.created == Some(c.word.text))
      && (c.key == "updated" ==> fm.updated == Some(c.word.text)) && (c.key == "icon" ==> fm.icon == Some(c.word.text))
  {
    var before := AmongGives(front, c, back);
  }

  /** The lines of a block scalar, or of whatever is indented under a key, are kept as they are, the key's line included. */
  lemma BlockIsKept(front: seq<Chunk>, c: Chunk, back: seq<Chunk>)
    requires Among(front, c, back) && c.Block?
    ensures HasExtra(ReadAmong(front, c, back), c.key, Raw([c.key + ":" + (c.gap + c.header)] + c.body))
  {
    var before := AmongGives(front, c, back);
    InsertIsIn(before.extra, c.key, Raw(ChunkLines(c)));
  }

  // ---------------------------------------------------------------- tags in a row

  /** A tag, the commas right behind it, and the blanks in front of the next. */
  datatype RowTag = RowTag(tag: string, commas: string, blanks: string)

  predicate GoodTag(t: RowTag) {
    && t.tag != "" && t.tag[0] != ',' && Last(t.tag) != ',' && (forall c :: c in t.tag ==> !IsWhite(c))
    && (forall c :: c in t.commas ==> c == ',') && IsBlank(t.blanks)
  }

  predicate GoodRow(row: seq<RowTag>) {
    && (forall t :: t in row ==> GoodTag(t))
    && forall i :: 0 <= i < |row| - 1 ==> row[i].blanks != ""
  }

  function RowText(row: seq<RowTag>): string {
    if row == [] then "" else row[0].tag + row[0].commas + (row[0].blanks + RowText(row[1..]))
  }

  function RowTags(row: seq<RowTag>): seq<string> {
    if row == [] then [] else [row[0].tag] + RowTags(row[1..])
  }

  lemma {:induction false} DropsEndCommas(tag: string, commas: string)
    requires tag != "" && Last(tag) != ',' && forall c :: c in commas ==> c == ','
    ensures DropEndCommas(tag + commas) == tag
    decreases |commas|
  {
    if commas == "" {
      assert tag + commas == tag;
    } else {
      InitOfConcat(tag, commas);
      assert Last(commas) in commas && forall c :: c in Init(commas) ==> c in commas;
      DropsEndCommas(tag, Init(commas));
    }
  }

  lemma {:induction false} FindsWhite(word: string, rest: string)
    requires (forall c :: c in word ==> !IsWhite(c)) && (rest == "" || IsWhite(rest[0]))
    ensures FindWhite(word + rest) == |word|
    decreases |word|
  {
    if word == "" {
      assert word + rest == rest;
    } else {
      assert word[0] in word && forall c :: c in word[1..] ==> c in word;
      TailOfConcat(word, rest);
      FindsWhite(word[1..], rest);
    }
  }

  /** Tags in a row, separated by blanks and with commas or without, are read one by one. */
  lemma {:induction false} RowIsRead(lead: string, row: seq<RowTag>)
    requires IsBlank(lead) && GoodRow(row)
    ensures InlineTags(lead + RowText(row)) == RowTags(row)
    decreases |row|
  {
    var text := RowText(row);
    if row == [] {
      TrimStartBlank(lead, "");
    } else {
      var t, more := row[0], row[1..];
      assert t in row && forall x :: x in more ==> x in row;
      var word, rest := t.tag + t.commas, t.blanks + RowText(more);
      TrimStartBlank(lead, text);
      RowRest(t, more);
      FindsWhite(word, rest);
      DropsEndCommas(t.tag, t.commas);
      assert text[..|word|] == word && text[|word|..] == rest;
      assert word[0] == t.tag[0];
      RowIsRead(t.blanks, more);
      InlineStep(lead + text, text, |word|, t.tag);
    }
  }

  lemma RowRest(t: RowTag, more: seq<RowTag>)
    requires GoodTag(t) && GoodRow([t] + more)
    ensures var rest := t.blanks + RowText(more); rest == "" || IsWhite(rest[0])
    ensures GoodRow(more) && forall c :: c in t.tag + t.commas ==> !IsWhite(c)
  {
    var all := [t] + more;
    assert all[0] == t && forall i :: 0 <= i < |more| ==> more[i] == all[i + 1];
    assert forall x :: x in more ==> x in all;
    if t.blanks != "" {
      assert t.blanks[0] in t.blanks;
    }
  }

  lemma InlineStep(v: string, s: string, n: nat, word: string)
    requires TrimStart(v) == s && s != "" && n == FindWhite(s) && n > 0 && word != ""
    requires DropEndCommas(DropCommas(s[..n])) == word
    ensures |s[n..]| < |v| && InlineTags(v) == [word] + InlineTags(s[n..])
  {
    TrimStartKeepsInk(v);
  }

  /** So `tags: a, b` is read as the tags in it. */
  lemma TagRowIsRead(front: seq<Chunk>, c: Chunk, back: seq<Chunk>, row: seq<RowTag>)
    requires Among(front, c, back) && c.Plain? && c.key == "tags" && GoodRow(row) && c.word.text == RowText(row)
    ensures ReadAmong(front, c, back).tags == RowTags(row)
  {
    var before := AmongGives(front, c, back);
    RowIsRead("", row);
    assert "" + RowText(row) == RowText(row);
  }

  // ---------------------------------------------------------------- lines without a key

  lemma {:induction false} RawEndIs(lines: seq<string>, i: nat, n: nat)
    requires 0 < i < n <= |lines| && (forall j :: i <= j < n ==> !IsTopKey(lines, j)) && (n < |lines| ==> IsTopKey(lines, n))
    ensures RawEnd(lines, i) == n
    decreases n - i
  {
    if i + 1 < n {
      RawEndIs(lines, i + 1, n);
    }
  }

  /** Lines up to the next key, none of which starts with one, are kept together as they are. */
  lemma LooseLinesAreKept(lines: seq<string>, i: nat, n: nat, fm: Frontmatter)
    requires i < n <= |lines| && Trim(lines[i]) != "" && SplitKey(lines[i]) == None
    requires (forall j :: i < j < n ==> !IsTopKey(lines, j)) && (n < |lines| ==> IsTopKey(lines, n))
    ensures ParseStep(lines, i, fm).0 == n && HasExtra(ParseStep(lines, i, fm).1, "~raw" + Decimal(n), Raw(lines[i..n]))
  {
    if i + 1 < n {
      RawEndIs(lines, i + 1, n);
    }
    assert RawEnd(lines, i) == n;
    InsertIsIn(fm.extra, "~raw" + Decimal(n), Raw(lines[i..n]));
  }
}
