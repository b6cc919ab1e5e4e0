/** The characters a rendered page shows are those of the note, in order (crates/mb-core/src/html.rs). */
module HtmlText {
  import opened Strings
  import opened Model
  import opened Escaping
  import opened HtmlTree
  import opened HtmlParser
  import opened HtmlRoundTrip
  import opened HtmlMarkup
  import opened HtmlDocuments

  // ---------------------------------------------------------------- what a reader sees of a note

  /** An image shows no characters; a wikilink shows its alias, or else its target. */
  function Shown(items: seq<Inline>): string
    decreases items
  {
    if items == [] then "" else ShownItem(items[0]) + Shown(items[1..])
  }

  function ShownItem(item: Inline): string
    decreases item
  {
    match item
    case Text(t) => NonWhite(t)
    case Mark(_, children) => Shown(children)
    case Code(c) => NonWhite(c)
    case Math(m) => NonWhite(m)
    case Link(_, _, content) => Shown(content)
    case Image(_, _) => ""
    case Wiki(w) => NonWhite(if w.alias.Some? then w.alias.value else w.target)
    case Tag(t) => "#" + NonWhite(t)
    case Emoji(e) => ":" + NonWhite(e) + ":"
    case FootnoteRef(note) => NonWhite(note)
    case SoftBreak => ""
    case HardBreak => ""
  }

  function ShownCells(cells: seq<seq<Inline>>): string {
    if cells == [] then "" else Shown(cells[0]) + ShownCells(cells[1..])
  }

  function ShownRows(rows: seq<seq<seq<Inline>>>): string {
    if rows == [] then "" else ShownCells(rows[0]) + ShownRows(rows[1..])
  }

  function ShownRun(blocks: seq<Block>): string
    decreases blocks
  {
    if blocks == [] then "" else ShownBlock(blocks[0]) + ShownRun(blocks[1..])
  }

  /** A callout without a title shows its kind. */
  function ShownBlock(b: Block): string
    decreases b
  {
    match b.kind
    case Paragraph(content) => Shown(content)
    case Heading(_, content) => Shown(content)
    case List(_, _, items) => ShownItems(items)
    case Blockquote(quoted) => ShownRun(quoted)
    case Callout(kind, _, title, body) => (if title == [] then NonWhite(kind) else Shown(title)) + ShownRun(body)
    case CodeBlock(_, code) => NonWhite(code)
    case Divider => ""
    case TableBlock(t) => ShownCells(t.head) + ShownRows(t.rows)
    case MathBlock(m) => NonWhite(m)
  }

  function ShownItems(items: seq<ListItem>): string
    decreases items
  {
    if items == [] then "" else ShownRun(items[0].content) + ShownItems(items[1..])
  }

  // ---------------------------------------------------------------- what the markup shows

  function Seen(run: seq<Markup>): string {
    NonWhite(RawText(run))
  }

  lemma SeenFirst(m: Markup, more: seq<Markup>)
    ensures Seen([m] + more) == NonWhite(RawTextOne(m)) + Seen(more)
  {
    assert ([m] + more)[1..] == more;
    NonWhiteConcat(RawTextOne(m), RawText(more));
  }

  lemma SeenSingle(m: Markup)
    ensures Seen([m]) == NonWhite(RawTextOne(m))
  {
    SeenFirst(m, []);
    assert [m] + [] == [m];
    assert NonWhite(RawTextOne(m)) + "" == NonWhite(RawTextOne(m));
  }

  lemma {:induction false} SeenConcat(a: seq<Markup>, b: seq<Markup>)
    ensures Seen(a + b) == Seen(a) + Seen(b)
    decreases |a|
  {
    if a == [] {
      assert a + b == b && "" + Seen(b) == Seen(b);
    } else {
      var m, more := a[0], a[1..];
      SeenConcat(more, b);
      assert a == [m] + more && a + b == [m] + (more + b);
      SeenFirst(m, more);
      SeenFirst(m, more + b);
      Associate(NonWhite(RawTextOne(m)), Seen(more), Seen(b));
    }
  }

  lemma NewlineShowsNothing()
    ensures NonWhite("\n") == "" && Seen([Chars("\n")]) == "" && Seen([Chars(" ")]) == ""
  {
    assert Init("\n") == "" && Init(" ") == "";
    SeenSingle(Chars("\n"));
    SeenSingle(Chars(" "));
  }

  /** An element on a line of its own shows what the element shows. */
  lemma SeenLine(m: Markup, more: seq<Markup>)
    ensures Seen([m, Chars("\n")] + more) == NonWhite(RawTextOne(m)) + Seen(more)
    ensures Seen([Chars("\n")] + more) == Seen(more)
  {
    NewlineShowsNothing();
    SeenConcat([Chars("\n")], more);
    assert "" + Seen(more) == Seen(more);
    SeenFirst(m, [Chars("\n")] + more);
    assert [m, Chars("\n")] + more == [m] + ([Chars("\n")] + more);
  }

  lemma SeenOneLine(m: Markup)
    ensures Seen([m, Chars("\n")]) == NonWhite(RawTextOne(m))
  {
    SeenLine(m, []);
    assert [m, Chars("\n")] + [] == [m, Chars("\n")];
    assert NonWhite(RawTextOne(m)) + "" == NonWhite(RawTextOne(m));
  }

  lemma SeenTag(n: string, attrs: seq<Attr>, content: seq<Markup>)
    ensures NonWhite(RawTextOne(Markup.Tag(n, attrs, content))) == Seen(content)
  {
  }

  // ---------------------------------------------------------------- inlines

  lemma {:induction false} InlinesShow(items: seq<Inline>, urls: Urls)
    ensures Seen(InlinesMarkup(items, urls)) == Shown(items)
    decreases items
  {
    if items != [] {
      InlineShows(items[0], urls);
      InlinesShow(items[1..], urls);
      SeenFirst(InlineMarkup(items[0], urls), InlinesMarkup(items[1..], urls));
    }
  }

  lemma {:induction false} InlineShows(item: Inline, urls: Urls)
    ensures NonWhite(RawTextOne(InlineMarkup(item, urls))) == ShownItem(item)
    decreases item
  {
    match item
    case Mark(kind, children) => InlinesShow(children, urls);
    case Link(_, _, content) => InlinesShow(content, urls);
    case Wiki(w) => SeenSingle(Chars(WikiText(w)));
    case Code(c) => SeenSingle(Chars(c));
    case Math(m) => SeenSingle(Chars(m));
    case FootnoteRef(note) => SeenSingle(Chars(note));
    case Tag(t) => TagShows(t);
    case Emoji(e) => EmojiShows(e);
    case SoftBreak => NewlineShowsNothing();
    case _ =>
  }

  lemma TagShows(t: string)
    ensures Seen([Chars("#"), Chars(t)]) == "#" + NonWhite(t)
  {
    SeenFirst(Chars("#"), [Chars(t)]);
    SeenSingle(Chars(t));
    assert Init("#") == "" && NonWhite("#") == "#";
    assert [Chars("#")] + [Chars(t)] == [Chars("#"), Chars(t)];
  }

  lemma ColonShows()
    ensures NonWhite(":") == ":"
  {
    assert Init(":") == "" && "" + ":" == ":";
  }

  lemma SeenTwo(a: Markup, b: Markup)
    ensures Seen([a, b]) == NonWhite(RawTextOne(a)) + NonWhite(RawTextOne(b))
  {
    SeenFirst(a, [b]);
    SeenSingle(b);
    assert [a] + [b] == [a, b];
  }

  lemma EmojiShows(e: string)
    ensures Seen([Chars(":"), Chars(e), Chars(":")]) == ":" + NonWhite(e) + ":"
  {
    ColonShows();
    SeenTwo(Chars(e), Chars(":"));
    SeenFirst(Chars(":"), [Chars(e), Chars(":")]);
    assert [Chars(":")] + [Chars(e), Chars(":")] == [Chars(":"), Chars(e), Chars(":")];
    Associate(":", NonWhite(e), ":");
  }

  // ---------------------------------------------------------------- blocks

  lemma {:induction false} CellsShow(cells: seq<seq<Inline>>, alignments: seq<CellAlignment>, tag: string, urls: Urls)
    ensures Seen(CellsMarkup(cells, alignments, tag, urls)) == ShownCells(cells)
    decreases cells
  {
    if cells != [] {
      var more := if alignments == [] then [] else alignments[1..];
      InlinesShow(cells[0], urls);
      SeenTag(tag, CellAttrs(alignments), InlinesMarkup(cells[0], urls));
      CellsShow(cells[1..], more, tag, urls);
      SeenFirst(CellMarkup(cells[0], alignments, tag, urls), CellsMarkup(cells[1..], more, tag, urls));
    }
  }

  lemma RowShows(cells: seq<seq<Inline>>, alignments: seq<CellAlignment>, tag: string, urls: Urls)
    ensures Seen(RowMarkup(cells, alignments, tag, urls)) == ShownCells(cells)
  {
    CellsShow(cells, alignments, tag, urls);
    SeenTag("tr", [], CellsMarkup(cells, alignments, tag, urls));
    SeenOneLine(Markup.Tag("tr", [], CellsMarkup(cells, alignments, tag, urls)));
  }

  lemma {:induction false} RowsShow(rows: seq<seq<seq<Inline>>>, alignments: seq<CellAlignment>, urls: Urls)
    ensures Seen(RowsMarkup(rows, alignments, urls)) == ShownRows(rows)
    decreases rows
  {
    if rows != [] {
      RowShows(rows[0], alignments, "td", urls);
      RowsShow(rows[1..], alignments, urls);
      SeenConcat(RowMarkup(rows[0], alignments, "td", urls), RowsMarkup(rows[1..], alignments, urls));
    }
  }

  lemma HeadShows(t: Table, urls: Urls)
    ensures NonWhite(RawTextOne(HeadMarkup(t, urls))) == ShownCells(t.head)
  {
    RowShows(t.head, t.alignments, "th", urls);
    SeenLine(Chars(""), RowMarkup(t.head, t.alignments, "th", urls));
  }

  lemma TableBodyShows(t: Table, urls: Urls)
    ensures NonWhite(RawTextOne(TableBodyMarkup(t, urls))) == ShownRows(t.rows)
  {
    RowsShow(t.rows, t.alignments, urls);
    SeenLine(Chars(""), RowsMarkup(t.rows, t.alignments, urls));
  }

  lemma TwoLinesShow(head: Markup, body: Markup)
    ensures Seen([Chars("\n"), head, Chars("\n"), body, Chars("\n")])
         == NonWhite(RawTextOne(head)) + NonWhite(RawTextOne(body))
  {
    SeenOneLine(body);
    SeenLine(head, [body, Chars("\n")]);
    SeenLine(head, [head, Chars("\n")] + [body, Chars("\n")]);
    assert [Chars("\n"), head, Chars("\n"), body, Chars("\n")]
        == [Chars("\n")] + ([head, Chars("\n")] + [body, Chars("\n")]);
  }

  lemma TableShows(t: Table, urls: Urls)
    ensures Seen(TableContent(t, urls)) == ShownCells(t.head) + ShownRows(t.rows)
  {
    HeadShows(t, urls);
    TableBodyShows(t, urls);
    TwoLinesShow(HeadMarkup(t, urls), TableBodyMarkup(t, urls));
  }

  /** The page shows exactly the visible characters of the note. */
  lemma {:induction false} RunShows(blocks: seq<Block>, urls: Urls)
    ensures Seen(RunMarkup(blocks, urls)) == ShownRun(blocks)
    decreases blocks, 0
  {
    if blocks != [] {
      BlockShows(blocks[0], urls);
      RunShows(blocks[1..], urls);
      SeenLine(BlockMarkup(blocks[0], urls), RunMarkup(blocks[1..], urls));
    }
  }

  lemma {:induction false} BlockShows(b: Block, urls: Urls)
    ensures NonWhite(RawTextOne(BlockMarkup(b, urls))) == ShownBlock(b)
    decreases b, 1
  {
    match b.kind
    case List(_, _, items) =>
      ItemsShow(items, urls);
      SeenLine(Chars(""), ItemsMarkup(items, urls));
    case Blockquote(quoted) => RunShows(quoted, urls);
    case Callout(kind, fold, title, body) => CalloutShows(kind, fold, title, body, b.anchor, urls);
    case _ => LeafBlockShows(b, urls);
  }

  lemma LeafBlockShows(b: Block, urls: Urls)
    requires !b.kind.List? && !b.kind.Blockquote? && !b.kind.Callout?
    ensures NonWhite(RawTextOne(BlockMarkup(b, urls))) == ShownBlock(b)
  {
    match b.kind
    case Paragraph(content) => InlinesShow(content, urls);
    case Heading(_, content) => InlinesShow(content, urls);
    case CodeBlock(lang, code) =>
      SeenSingle(Markup.Tag("code", CodeAttrs(lang), [Chars(code)]));
      SeenSingle(Chars(code));
    case Divider =>
    case TableBlock(t) => TableShows(t, urls);
    case MathBlock(m) => SeenSingle(Chars(m));
  }

  lemma CalloutHeadShows(kind: string, fold: Fold, title: seq<Inline>, urls: Urls)
    ensures Seen(CalloutHead(kind, fold, title, urls)) == if title == [] then NonWhite(kind) else Shown(title)
  {
    var m := Markup.Tag(TitleTag(fold), [Named("class", "mb-callout-title")], TitleMarkup(kind, title, urls));
    InlinesShow(title, urls);
    SeenSingle(Chars(kind));
    SeenOneLine(m);
    SeenLine(m, [m, Chars("\n")]);
    assert CalloutHead(kind, fold, title, urls) == [Chars("\n")] + [m, Chars("\n")];
  }

  lemma {:induction false} CalloutShows(kind: string, fold: Fold, title: seq<Inline>, body: seq<Block>,
                                        anchor: Option<string>, urls: Urls)
    ensures NonWhite(RawTextOne(CalloutMarkup(kind, fold, title, body, anchor, urls)))
         == (if title == [] then NonWhite(kind) else Shown(title)) + ShownRun(body)
    decreases body, 1
  {
    RunShows(body, urls);
    if body != [] {
      SeenLine(Chars(""), RunMarkup(body, urls));
      SeenOneLine(BodyElement(body, urls));
    }
    CalloutHeadShows(kind, fold, title, urls);
    SeenConcat(CalloutHead(kind, fold, title, urls), BodyMarkup(body, urls));
  }

  lemma {:induction false} ItemsShow(items: seq<ListItem>, urls: Urls)
    ensures Seen(ItemsMarkup(items, urls)) == ShownItems(items)
    decreases items, 0
  {
    if items != [] {
      ItemShows(items[0], urls);
      ItemsShow(items[1..], urls);
      SeenLine(ItemMarkup(items[0], urls), ItemsMarkup(items[1..], urls));
    }
  }

  lemma {:induction false} ItemShows(item: ListItem, urls: Urls)
    ensures NonWhite(RawTextOne(ItemMarkup(item, urls))) == ShownRun(item.content)
    decreases item, 0
  {
    RunShows(item.content, urls);
    SeenConcat(Checkbox(item.task), RunMarkup(item.content, urls));
    if item.task.Some? {
      NewlineShowsNothing();
      SeenFirst(Void("input", BoxAttrs(item.task.value)), [Chars(" ")]);
      assert Checkbox(item.task) == [Void("input", BoxAttrs(item.task.value))] + [Chars(" ")];
    }
  }

  /** Reading the rendered page back, its visible characters are exactly those of the note, in order. */
  lemma PageShowsTheNote(blocks: seq<Block>, urls: Urls)
    ensures NonWhite(NodesText(ParseHtml(Serialize(RunMarkup(blocks, urls))).children)) == ShownRun(blocks)
  {
    RenderReadsBack(blocks, urls);
    RunShows(blocks, urls);
  }
}
