/** The visible text of inlines and blocks (`plain_text`, `block_text` and `joined` in crates/mb-core/src/extract.rs). */
module PlainText {
  import opened Strings
  import opened Model
  import opened Flanking
  import opened Inlines
  import opened CanonicalInlines
  import opened CanonicalBlocks

  function InlineText(item: Inline): string
    decreases item
  {
    match item
    case Text(t) => t
    case Code(c) => c
    case Math(m) => m
    case Mark(_, c) => Plain(c)
    case Link(_, _, c) => Plain(c)
    case Image(_, alt) => alt
    case Wiki(w) => if w.alias.Some? then w.alias.value else w.target
    case Tag(t) => "#" + t
    case Emoji(e) => ":" + e + ":"
    case FootnoteRef(_) => ""
    case SoftBreak => " "
    case HardBreak => " "
  }

  /** `plain_text`. */
  function Plain(items: seq<Inline>): string
    decreases items
  {
    if items == [] then "" else Plain(Init(items)) + InlineText(Last(items))
  }

  /** `joined`: the non-empty parts, separated by spaces. */
  function Joined(parts: seq<string>): string {
    if parts == [] then ""
    else
      var out, part := Joined(Init(parts)), Last(parts);
      if part == "" then out else if out == "" then part else out + " " + part
  }

  /** `block_text`. */
  function BlockText(b: Block): string
    decreases b
  {
    match b.kind
    case Paragraph(c) => Plain(c)
    case Heading(_, c) => Plain(c)
    case CodeBlock(_, code) => code
    case MathBlock(m) => m
    case Blockquote(inner) => Joined(RunTexts(inner))
    case Callout(_, _, title, body) => Joined([Plain(title)] + RunTexts(body))
    case List(_, _, items) => Joined(ItemTexts(items))
    case TableBlock(t) => Joined(RowTexts(t.head) + RowsTexts(t.rows))
    case Divider => ""
  }

  function RunTexts(blocks: seq<Block>): seq<string>
    decreases blocks
  {
    if blocks == [] then [] else RunTexts(Init(blocks)) + [BlockText(Last(blocks))]
  }

  function ItemTexts(items: seq<ListItem>): seq<string>
    decreases items
  {
    if items == [] then [] else ItemTexts(Init(items)) + RunTexts(Last(items).content)
  }

  function RowTexts(row: seq<seq<Inline>>): seq<string> {
    if row == [] then [] else RowTexts(Init(row)) + [Plain(Last(row))]
  }

  function RowsTexts(rows: seq<seq<seq<Inline>>>): seq<string> {
    if rows == [] then [] else RowsTexts(Init(rows)) + RowTexts(Last(rows))
  }

  // ---------------------------------------------------------------- the visible characters are in the ink

  function GlyphText(read: Inline -> string, g: Glyph): string {
    match g
    case Ch(c) => [c]
    case CodeCh(c) => [c]
    case MathCh(c) => [c]
    case Atom(item) => read(item)
    case LinkOpen(_, _) => ""
    case LinkClose => ""
  }

  /** The non-white characters of a run of glyphs, given the text that stands for each reference. */
  function Visible(read: Inline -> string, ink: seq<Glyph>): string {
    if ink == [] then "" else Visible(read, Init(ink)) + NonWhite(GlyphText(read, Last(ink)))
  }

  lemma VisibleSnoc(read: Inline -> string, ink: seq<Glyph>, g: Glyph)
    ensures Visible(read, ink + [g]) == Visible(read, ink) + NonWhite(GlyphText(read, g))
  {
    SnocInit(ink, g);
  }

  lemma {:induction false} VisibleConcat(read: Inline -> string, a: seq<Glyph>, b: seq<Glyph>)
    ensures Visible(read, a + b) == Visible(read, a) + Visible(read, b)
  {
    if b == [] {
      assert a + b == a;
    } else {
      var front, g := Init(b), Last(b);
      VisibleConcat(read, a, front);
      InitLast(b);
      Associate(a, front, [g]);
      VisibleSnoc(read, a + front, g);
      VisibleSnoc(read, front, g);
      Associate(Visible(read, a), Visible(read, front), NonWhite(GlyphText(read, g)));
    }
  }

  lemma NonWhiteOne(c: char)
    ensures NonWhite([c]) == if IsWhite(c) then "" else [c]
  {
    assert Init([c]) == "";
  }

  lemma NonWhiteSnoc(s: string, c: char)
    ensures NonWhite(s + [c]) == NonWhite(s) + NonWhite([c])
  {
    SnocInit(s, c);
    NonWhiteOne(c);
  }

  lemma {:induction false} VisibleCode(read: Inline -> string, s: string)
    ensures Visible(read, CodeChars(s)) == NonWhite(s)
    ensures Visible(read, MathChars(s)) == NonWhite(s)
    decreases |s|
  {
    if s != "" {
      var front, c := Init(s), Last(s);
      VisibleCode(read, front);
      InitLast(s);
      NonWhiteSnoc(front, c);
      assert CodeChars(s) == CodeChars(front) + [CodeCh(c)] && MathChars(s) == MathChars(front) + [MathCh(c)];
      VisibleSnoc(read, CodeChars(front), CodeCh(c));
      VisibleSnoc(read, MathChars(front), MathCh(c));
    }
  }

  lemma {:induction false} NonWhiteTwice(s: string)
    ensures NonWhite(NonWhite(s)) == NonWhite(s)
    decreases |s|
  {
    if s != "" {
      var init := NonWhite(Init(s));
      NonWhiteTwice(Init(s));
      if IsWhite(Last(s)) {
        assert NonWhite(s) == init;
      } else {
        SnocInit(init, Last(s));
      }
    }
  }

  lemma {:induction false} VisibleChars(read: Inline -> string, t: string)
    ensures Visible(read, PlainChars(t)) == NonWhite(t)
    decreases |t|
  {
    if t != "" {
      VisibleChars(read, Init(t));
      NonWhiteOne(Last(t));
      assert Init(PlainChars(t)) == PlainChars(Init(t));
    }
  }

  lemma VisibleText(read: Inline -> string, s: string)
    ensures Visible(read, Chars(s)) == NonWhite(s)
  {
    VisibleChars(read, NonWhite(s));
    NonWhiteTwice(s);
  }

  /** The visible characters of a run's text are those of its ink. */
  lemma {:induction false} TextIsInk(items: seq<Inline>)
    ensures NonWhite(Plain(items)) == Visible(InlineText, InkAll(items))
    decreases items
  {
    if items != [] {
      TextIsInk(Init(items));
      InlineTextIsInk(Last(items));
      NonWhiteConcat(Plain(Init(items)), InlineText(Last(items)));
      VisibleConcat(InlineText, InkAll(Init(items)), Ink(Last(items)));
    }
  }

  lemma VisibleOne(read: Inline -> string, g: Glyph)
    ensures Visible(read, [g]) == NonWhite(GlyphText(read, g))
  {
    assert Init([g]) == [];
  }

  lemma LinkIsTransparent(read: Inline -> string, d: string, t: Option<string>, ink: seq<Glyph>)
    ensures Visible(read, [LinkOpen(d, t)] + ink + [LinkClose]) == Visible(read, ink)
  {
    VisibleOne(read, LinkOpen(d, t));
    VisibleOne(read, LinkClose);
    VisibleConcat(read, [LinkOpen(d, t)], ink);
    VisibleConcat(read, [LinkOpen(d, t)] + ink, [LinkClose]);
    assert "" + Visible(read, ink) + "" == Visible(read, ink);
  }

  lemma TagIsVisible(read: Inline -> string, t: string)
    ensures NonWhite("#" + t) == Visible(read, [Ch('#')] + Chars(t))
  {
    VisibleText(read, t);
    VisibleOne(read, Ch('#'));
    VisibleConcat(read, [Ch('#')], Chars(t));
    NonWhiteConcat("#", t);
  }

  lemma {:induction false} InlineTextIsInk(item: Inline)
    ensures NonWhite(InlineText(item)) == Visible(InlineText, Ink(item))
    decreases item
  {
    match item
    case Text(t) => VisibleText(InlineText, t);
    case Code(c) => VisibleCode(InlineText, c);
    case Math(m) => VisibleCode(InlineText, m);
    case Mark(_, c) => TextIsInk(c);
    case Link(d, t, c) => TextIsInk(c); LinkIsTransparent(InlineText, d, t, InkAll(c));
    case Tag(t) => TagIsVisible(InlineText, t);
    case SoftBreak => NonWhiteOne(' ');
    case HardBreak => NonWhiteOne(' ');
    case _ => VisibleOne(InlineText, Atom(item));
  }

  /** Canonicalizing a run keeps every visible character of its text, in order. */
  lemma CanonicalKeepsText(u: Classifier, items: seq<Inline>)
    ensures NonWhite(Plain(Canonical(u, items))) == NonWhite(Plain(items))
  {
    CanonicalKeepsInk(u, items);
    TextIsInk(items);
    TextIsInk(Canonical(u, items));
  }

  // ---------------------------------------------------------------- blocks

  /** The visible characters of several texts. */
  function AllNonWhite(parts: seq<string>): string {
    if parts == [] then "" else AllNonWhite(Init(parts)) + NonWhite(Last(parts))
  }

  lemma {:induction false} AllNonWhiteConcat(a: seq<string>, b: seq<string>)
    ensures AllNonWhite(a + b) == AllNonWhite(a) + AllNonWhite(b)
  {
    if b == [] {
      assert a + b == a;
    } else {
      InitOfConcat(a, b);
      AllNonWhiteConcat(a, Init(b));
      Associate(AllNonWhite(a), AllNonWhite(Init(b)), NonWhite(Last(b)));
    }
  }

  lemma AllNonWhiteOne(part: string)
    ensures AllNonWhite([part]) == NonWhite(part)
  {
    assert Init([part]) == [];
  }

  lemma {:induction false} JoinedKeepsVisible(parts: seq<string>)
    ensures NonWhite(Joined(parts)) == AllNonWhite(parts)
  {
    if parts != [] {
      var out, part := Joined(Init(parts)), Last(parts);
      JoinedKeepsVisible(Init(parts));
      NonWhiteOne(' ');
      NonWhiteConcat(out + " ", part);
      NonWhiteConcat(out, " ");
      assert NonWhite(out) + "" == NonWhite(out);
    }
  }

  lemma BodyTextIsInk(read: Inline -> string, s: string)
    ensures Visible(read, CodeChars(NonWhite(s))) == NonWhite(s)
    ensures Visible(read, MathChars(NonWhite(s))) == NonWhite(s)
  {
    VisibleCode(read, NonWhite(s));
    NonWhiteTwice(s);
  }

  /** The visible characters of a block's text are those of its ink. */
  lemma {:induction false} BlockTextIsInk(b: Block)
    ensures NonWhite(BlockText(b)) == Visible(InlineText, BlockInk(b))
    decreases b
  {
    match b.kind
    case Blockquote(inner) =>
      RunTextsAreInk(inner);
      JoinedKeepsVisible(RunTexts(inner));
    case Callout(_, _, title, body) =>
      RunTextsAreInk(body);
      CalloutTextIsInk(title, body);
    case List(_, _, items) =>
      ItemTextsAreInk(items);
      JoinedKeepsVisible(ItemTexts(items));
    case _ => LeafTextIsInk(b);
  }

  lemma LeafTextIsInk(b: Block)
    requires !b.kind.List? && !b.kind.Blockquote? && !b.kind.Callout?
    ensures NonWhite(BlockText(b)) == Visible(InlineText, BlockInk(b))
  {
    if b.kind.Paragraph? {
      TextIsInk(b.kind.text);
    } else if b.kind.Heading? {
      TextIsInk(b.kind.content);
    } else if b.kind.CodeBlock? {
      BodyTextIsInk(InlineText, b.kind.code);
    } else if b.kind.MathBlock? {
      BodyTextIsInk(InlineText, b.kind.tex);
    } else if b.kind.TableBlock? {
      TableTextIsInk(b.kind.table);
    }
  }

  lemma CalloutTextIsInk(title: seq<Inline>, body: seq<Block>)
    requires AllNonWhite(RunTexts(body)) == Visible(InlineText, RunInk(body))
    ensures NonWhite(Joined([Plain(title)] + RunTexts(body))) == Visible(InlineText, InkAll(title) + RunInk(body))
  {
    TextIsInk(title);
    JoinedPair([Plain(title)], RunTexts(body));
    AllNonWhiteOne(Plain(title));
    VisibleConcat(InlineText, InkAll(title), RunInk(body));
  }

  lemma JoinedPair(a: seq<string>, b: seq<string>)
    ensures NonWhite(Joined(a + b)) == AllNonWhite(a) + AllNonWhite(b)
  {
    JoinedKeepsVisible(a + b);
    AllNonWhiteConcat(a, b);
  }

  lemma TableTextIsInk(t: Table)
    ensures NonWhite(Joined(RowTexts(t.head) + RowsTexts(t.rows))) == Visible(InlineText, TableInk(t))
  {
    JoinedPair(RowTexts(t.head), RowsTexts(t.rows));
    RowTextsAreInk(t.head);
    RowsTextsAreInk(t.rows);
    VisibleConcat(InlineText, RowInk(t.head), RowsInk(t.rows));
  }

  lemma {:induction false} RunTextsAreInk(blocks: seq<Block>)
    ensures AllNonWhite(RunTexts(blocks)) == Visible(InlineText, RunInk(blocks))
    decreases blocks
  {
    if blocks != [] {
      RunTextsAreInk(Init(blocks));
      BlockTextIsInk(Last(blocks));
      AllNonWhiteConcat(RunTexts(Init(blocks)), [BlockText(Last(blocks))]);
      AllNonWhiteOne(BlockText(Last(blocks)));
      VisibleConcat(InlineText, RunInk(Init(blocks)), BlockInk(Last(blocks)));
    }
  }

  lemma {:induction false} ItemTextsAreInk(items: seq<ListItem>)
    ensures AllNonWhite(ItemTexts(items)) == Visible(InlineText, ItemsInk(items))
    decreases items
  {
    if items != [] {
      ItemTextsAreInk(Init(items));
      RunTextsAreInk(Last(items).content);
      AllNonWhiteConcat(ItemTexts(Init(items)), RunTexts(Last(items).content));
      VisibleConcat(InlineText, ItemsInk(Init(items)), RunInk(Last(items).content));
    }
  }

  lemma {:induction false} RowTextsAreInk(row: seq<seq<Inline>>)
    ensures AllNonWhite(RowTexts(row)) == Visible(InlineText, RowInk(row))
  {
    if row != [] {
      RowTextsAreInk(Init(row));
      TextIsInk(Last(row));
      AllNonWhiteConcat(RowTexts(Init(row)), [Plain(Last(row))]);
      AllNonWhiteOne(Plain(Last(row)));
      VisibleConcat(InlineText, RowInk(Init(row)), InkAll(Last(row)));
    }
  }

  lemma {:induction false} RowsTextsAreInk(rows: seq<seq<seq<Inline>>>)
    ensures AllNonWhite(RowsTexts(rows)) == Visible(InlineText, RowsInk(rows))
  {
    if rows != [] {
      RowsTextsAreInk(Init(rows));
      RowTextsAreInk(Last(rows));
      AllNonWhiteConcat(RowsTexts(Init(rows)), RowTexts(Last(rows)));
      VisibleConcat(InlineText, RowsInk(Init(rows)), RowInk(Last(rows)));
    }
  }

  /** Canonicalizing a document keeps every visible character of its blocks' texts, in order. */
  lemma DocumentKeepsText(u: Classifier, blocks: seq<Block>)
    ensures AllNonWhite(RunTexts(CanonicalRun(u, blocks))) == AllNonWhite(RunTexts(blocks))
  {
    DocumentKeepsInk(u, blocks);
    RunTextsAreInk(blocks);
    RunTextsAreInk(CanonicalRun(u, blocks));
  }

  // ---------------------------------------------------------------- the blanks between

  lemma {:induction false} PlainConcat(a: seq<Inline>, b: seq<Inline>)
    ensures Plain(a + b) == Plain(a) + Plain(b)
  {
    if b == [] {
      assert a + b == a && Plain(a) + "" == Plain(a);
    } else {
      InitOfConcat(a, b);
      PlainConcat(a, Init(b));
      Associate(Plain(a), Plain(Init(b)), InlineText(Last(b)));
    }
  }

  /** A line break, soft or hard, is one blank in the text; nothing else comes between neighbours. */
  lemma BreaksAreBlanks(a: seq<Inline>, hard: bool, b: seq<Inline>)
    ensures Plain(a + [if hard then HardBreak else SoftBreak] + b) == Plain(a) + " " + Plain(b)
    ensures Plain(a + b) == Plain(a) + Plain(b)
  {
    var one := [if hard then HardBreak else SoftBreak];
    PlainConcat(a + one, b);
    PlainConcat(a, one);
    PlainConcat(a, b);
    assert Init(one) == [] && Plain(one) == "" + " " == " ";
  }

  lemma {:induction false} SplitLast(s: string, part: string)
    requires ' ' !in part
    ensures SplitOn(s + (" " + part), ' ') == SplitOn(s, ' ') + [part]
    decreases |s|
  {
    var whole, n := s + (" " + part), Find(s, ' ');
    if n == |s| {
      FindIs(whole, ' ', n);
      FindIs(part, ' ', |part|);
      assert whole[..n] == s && whole[n + 1..] == part;
    } else {
      FindIs(whole, ' ', n);
      assert whole[..n] == s[..n] && whole[n + 1..] == s[n + 1..] + (" " + part);
      SplitLast(s[n + 1..], part);
      Associate([s[..n]], SplitOn(s[n + 1..], ' '), [part]);
    }
  }

  predicate IsWord(part: string) {
    part != "" && ' ' !in part
  }

  lemma JoinedEnds(parts: seq<string>)
    requires parts != [] && Last(parts) != ""
    ensures Joined(parts) == (if Joined(Init(parts)) == "" then Last(parts) else Joined(Init(parts)) + (" " + Last(parts)))
    ensures Joined(parts) != ""
  {
    Associate(Joined(Init(parts)), " ", Last(parts));
  }

  /** Parts without blanks are separated by exactly one blank each, so that they can be told apart. */
  lemma {:induction false} JoinedSplits(parts: seq<string>)
    requires parts != [] && forall part :: part in parts ==> IsWord(part)
    ensures SplitOn(Joined(parts), ' ') == parts
    decreases |parts|
  {
    var init, last := Init(parts), Last(parts);
    InitLast(parts);
    assert last in parts && forall part :: part in init ==> part in parts;
    JoinedEnds(parts);
    if init == [] {
      FindIs(last, ' ', |last|);
    } else {
      JoinedSplits(init);
      assert Last(init) in init;
      JoinedEnds(init);
      SplitLast(Joined(init), last);
    }
  }

  /** Empty parts leave no trace. */
  lemma {:induction false} JoinedSkipsEmpty(a: seq<string>, b: seq<string>)
    ensures Joined(a + [""] + b) == Joined(a + b)
    decreases |b|
  {
    if b == [] {
      assert a + [""] + b == a + [""] && a + b == a;
      SnocInit(a, "");
    } else {
      InitOfConcat(a + [""], b);
      InitOfConcat(a, b);
      JoinedSkipsEmpty(a, Init(b));
    }
  }
}
