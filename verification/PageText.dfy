/**
 * What canonicalizing a note changes on its rendered page (crates/mb-core/src/canonical.rs and
 * crates/mb-core/src/html.rs): nothing a reader sees, but for the kind of a callout whose title was blank.
 */
module PageText {
  import opened Strings
  import opened Model
  import opened Flanking
  import opened Inlines
  import opened Trimming
  import opened Cells
  import opened CanonicalBlocks
  import opened PlainText
  import opened HtmlText
  import HtmlTree
  import HtmlParser
  import HtmlRoundTrip
  import HtmlMarkup

  // ---------------------------------------------------------------- what is shown is in the ink

  /** The text a page shows for a reference. */
  function PageAtom(item: Inline): string {
    match item
    case Wiki(w) => if w.alias.Some? then w.alias.value else w.target
    case Emoji(e) => ":" + e + ":"
    case FootnoteRef(note) => note
    case _ => ""
  }

  function OnPage(ink: seq<Glyph>): string {
    Visible(PageAtom, ink)
  }

  lemma {:induction false} ShownSnoc(items: seq<Inline>)
    requires items != []
    ensures Shown(items) == Shown(Init(items)) + ShownItem(Last(items))
    decreases |items|
  {
    if |items| > 1 {
      ShownSnoc(items[1..]);
      assert Init(items[1..]) == Init(items)[1..] && Init(items)[0] == items[0];
      Associate(ShownItem(items[0]), Shown(Init(items)[1..]), ShownItem(Last(items)));
    } else {
      assert Init(items) == [] && items[1..] == [];
      assert ShownItem(items[0]) + "" == ShownItem(items[0]) == "" + ShownItem(items[0]);
    }
  }

  lemma EmojiOnPage(e: string)
    ensures NonWhite(":" + e + ":") == ":" + NonWhite(e) + ":"
  {
    ColonShows();
    NonWhiteConcat(":" + e, ":");
    NonWhiteConcat(":", e);
  }

  lemma {:induction false} ShownIsInk(items: seq<Inline>)
    ensures Shown(items) == OnPage(InkAll(items))
    decreases items
  {
    if items != [] {
      ShownSnoc(items);
      ShownIsInk(Init(items));
      ShownItemIsInk(Last(items));
      VisibleConcat(PageAtom, InkAll(Init(items)), Ink(Last(items)));
    }
  }

  lemma {:induction false} ShownItemIsInk(item: Inline)
    ensures ShownItem(item) == OnPage(Ink(item))
    decreases item
  {
    match item
    case Text(t) => VisibleText(PageAtom, t);
    case Code(c) => VisibleCode(PageAtom, c);
    case Math(m) => VisibleCode(PageAtom, m);
    case Mark(_, c) => ShownIsInk(c);
    case Link(d, t, c) => ShownIsInk(c); LinkIsTransparent(PageAtom, d, t, InkAll(c));
    case Tag(t) => ShownTagIsInk(t);
    case SoftBreak =>
    case HardBreak =>
    case Emoji(e) => EmojiOnPage(e); VisibleOne(PageAtom, Atom(item));
    case _ => VisibleOne(PageAtom, Atom(item));
  }

  lemma ShownTagIsInk(t: string)
    ensures "#" + NonWhite(t) == OnPage([Ch('#')] + Chars(t))
  {
    TagIsVisible(PageAtom, t);
    NonWhiteConcat("#", t);
    NonWhiteOne('#');
  }

  lemma {:induction false} ShownCellsAreInk(row: seq<seq<Inline>>)
    ensures ShownCells(row) == OnPage(RowInk(row))
    decreases |row|
  {
    if row != [] {
      ShownCellsSnoc(row);
      ShownCellsAreInk(Init(row));
      ShownIsInk(Last(row));
      VisibleConcat(PageAtom, RowInk(Init(row)), InkAll(Last(row)));
    }
  }

  lemma {:induction false} ShownCellsSnoc(row: seq<seq<Inline>>)
    requires row != []
    ensures ShownCells(row) == ShownCells(Init(row)) + Shown(Last(row))
    decreases |row|
  {
    if |row| > 1 {
      ShownCellsSnoc(row[1..]);
      assert Init(row[1..]) == Init(row)[1..] && Init(row)[0] == row[0];
      Associate(Shown(row[0]), ShownCells(Init(row)[1..]), Shown(Last(row)));
    } else {
      assert Init(row) == [] && row[1..] == [];
      assert Shown(row[0]) + "" == Shown(row[0]) == "" + Shown(row[0]);
    }
  }

  lemma {:induction false} ShownRowsAreInk(rows: seq<seq<seq<Inline>>>)
    ensures ShownRows(rows) == OnPage(RowsInk(rows))
    decreases |rows|
  {
    if rows != [] {
      ShownRowsSnoc(rows);
      ShownRowsAreInk(Init(rows));
      ShownCellsAreInk(Last(rows));
      VisibleConcat(PageAtom, RowsInk(Init(rows)), RowInk(Last(rows)));
    }
  }

  lemma {:induction false} ShownRowsSnoc(rows: seq<seq<seq<Inline>>>)
    requires rows != []
    ensures ShownRows(rows) == ShownRows(Init(rows)) + ShownCells(Last(rows))
    decreases |rows|
  {
    if |rows| > 1 {
      ShownRowsSnoc(rows[1..]);
      assert Init(rows[1..]) == Init(rows)[1..] && Init(rows)[0] == rows[0];
      Associate(ShownCells(rows[0]), ShownRows(Init(rows)[1..]), ShownCells(Last(rows)));
    } else {
      assert Init(rows) == [] && rows[1..] == [];
      assert ShownCells(rows[0]) + "" == ShownCells(rows[0]) == "" + ShownCells(rows[0]);
    }
  }

  predicate IsLeaf(b: Block) {
    !b.kind.List? && !b.kind.Blockquote? && !b.kind.Callout?
  }

  lemma ShownLeafIsInk(b: Block)
    requires IsLeaf(b)
    ensures ShownBlock(b) == OnPage(BlockInk(b))
  {
    if b.kind.Paragraph? {
      ShownIsInk(b.kind.text);
    } else if b.kind.Heading? {
      ShownIsInk(b.kind.content);
    } else if b.kind.CodeBlock? {
      BodyTextIsInk(PageAtom, b.kind.code);
    } else if b.kind.MathBlock? {
      BodyTextIsInk(PageAtom, b.kind.tex);
    } else if b.kind.TableBlock? {
      ShownCellsAreInk(b.kind.table.head);
      ShownRowsAreInk(b.kind.table.rows);
      VisibleConcat(PageAtom, RowInk(b.kind.table.head), RowsInk(b.kind.table.rows));
    }
  }

  // ---------------------------------------------------------------- what canonicalizing shows

  /** The title has something in it, and nothing once it is canonical. */
  predicate BlankTitle(u: Classifier, title: seq<Inline>) {
    title != [] && Line(u, FlattenBreaks(title)) == []
  }

  /** What the canonical note shows: the note itself, but the kind of each callout with a blank title. */
  function AfterRun(u: Classifier, blocks: seq<Block>): string
    decreases blocks
  {
    if blocks == [] then "" else AfterRun(u, Init(blocks)) + AfterBlock(u, Last(blocks))
  }

  function AfterBlock(u: Classifier, b: Block): string
    decreases b
  {
    match b.kind
    case List(_, _, items) => AfterItems(u, items)
    case Blockquote(quoted) => AfterRun(u, quoted)
    case Callout(kind, _, title, body) =>
      (if title == [] || BlankTitle(u, title) then NonWhite(kind) else Shown(title)) + AfterRun(u, body)
    case _ => ShownBlock(b)
  }

  function AfterItems(u: Classifier, items: seq<ListItem>): string
    decreases items
  {
    if items == [] then "" else AfterItems(u, Init(items)) + AfterRun(u, Last(items).content)
  }

  lemma ShownRunSnoc(blocks: seq<Block>, b: Block)
    ensures ShownRun(blocks + [b]) == ShownRun(blocks) + ShownBlock(b)
  {
    ShownRunConcat(blocks, [b]);
    assert [b][1..] == [] && ShownBlock(b) + "" == ShownBlock(b);
  }

  lemma {:induction false} ShownRunConcat(a: seq<Block>, b: seq<Block>)
    ensures ShownRun(a + b) == ShownRun(a) + ShownRun(b)
    decreases |a|
  {
    if a == [] {
      assert a + b == b && "" + ShownRun(b) == ShownRun(b);
    } else {
      TailOfConcat(a, b);
      ShownRunConcat(a[1..], b);
      Associate(ShownBlock(a[0]), ShownRun(a[1..]), ShownRun(b));
    }
  }

  lemma {:induction false} ShownItemsConcat(a: seq<ListItem>, b: seq<ListItem>)
    ensures ShownItems(a + b) == ShownItems(a) + ShownItems(b)
    decreases |a|
  {
    if a == [] {
      assert a + b == b && "" + ShownItems(b) == ShownItems(b);
    } else {
      TailOfConcat(a, b);
      ShownItemsConcat(a[1..], b);
      Associate(ShownRun(a[0].content), ShownItems(a[1..]), ShownItems(b));
    }
  }

  lemma ShownItemsSnoc(items: seq<ListItem>, item: ListItem)
    ensures ShownItems(items + [item]) == ShownItems(items) + ShownRun(item.content)
  {
    ShownItemsConcat(items, [item]);
    assert [item][1..] == [] && ShownRun(item.content) + "" == ShownRun(item.content);
  }

  lemma PushBlockShows(out: seq<Block>, b: Block)
    ensures ShownRun(PushBlock(out, b)) == ShownRun(out) + ShownBlock(b)
  {
    ShownRunSnoc(out, b);
    if out != [] && Mergeable(Last(out), b) {
      var prev := Last(out);
      var merged := prev.(kind := prev.kind.(items := prev.kind.items + b.kind.items));
      ShownItemsConcat(prev.kind.items, b.kind.items);
      ShownRunSnoc(Init(out), merged);
      ShownRunSnoc(Init(out), prev);
      InitLast(out);
      Associate(ShownRun(Init(out)), ShownBlock(prev), ShownBlock(b));
    }
  }

  lemma {:induction false} MergeListsShows(items: seq<Block>)
    ensures ShownRun(MergeLists(items)) == ShownRun(items)
  {
    if items != [] {
      MergeListsShows(Init(items));
      PushBlockShows(MergeLists(Init(items)), Last(items));
      InitLast(items);
      ShownRunSnoc(Init(items), Last(items));
    }
  }

  function ShownOption(b: Option<Block>): string {
    match b case None => "" case Some(b) => ShownBlock(b)
  }

  lemma {:induction false} CanonicalShows(u: Classifier, blocks: seq<Block>)
    ensures ShownRun(CanonicalRun(u, blocks)) == AfterRun(u, blocks)
    decreases blocks, 1
  {
    KeepEachShows(u, blocks);
    MergeListsShows(KeepEach(u, blocks));
  }

  lemma {:induction false} KeepEachShows(u: Classifier, blocks: seq<Block>)
    ensures ShownRun(KeepEach(u, blocks)) == AfterRun(u, blocks)
    decreases blocks, 0
  {
    if blocks != [] {
      var kept := KeepEach(u, Init(blocks));
      KeepEachShows(u, Init(blocks));
      BlockShowsAfter(u, Last(blocks));
      match CanonicalBlock(u, Last(blocks))
      case None => assert kept + [] == kept && ShownRun(kept) + "" == ShownRun(kept);
      case Some(b) => ShownRunSnoc(kept, b);
    }
  }

  lemma {:induction false} BlockShowsAfter(u: Classifier, b: Block)
    ensures ShownOption(CanonicalBlock(u, b)) == AfterBlock(u, b)
    decreases b, 0
  {
    match b.kind
    case List(_, _, items) => ItemsShowAfter(u, items);
    case Blockquote(inner) => CanonicalShows(u, inner);
    case Callout(_, _, title, body) =>
      CanonicalShows(u, body);
      CalloutShowsAfter(u, b);
    case _ => LeafShowsAfter(u, b);
  }

  lemma TitleShows(u: Classifier, title: seq<Inline>)
    ensures Shown(Line(u, FlattenBreaks(title))) == Shown(title)
    ensures title == [] ==> Line(u, FlattenBreaks(title)) == []
  {
    HeadingLineInk(u, title);
    ShownIsInk(title);
    ShownIsInk(Line(u, FlattenBreaks(title)));
    if title == [] {
      EmptyLineIsEmpty(u);
    }
  }

  lemma EmptyLineIsEmpty(u: Classifier)
    ensures Line(u, FlattenBreaks([])) == []
  {
    LineShape(u, []);
  }

  lemma CalloutShowsAfter(u: Classifier, b: Block)
    requires b.kind.Callout? && ShownRun(CanonicalRun(u, b.kind.body)) == AfterRun(u, b.kind.body)
    ensures ShownOption(CanonicalBlock(u, b)) == AfterBlock(u, b)
  {
    var c := CalloutIs(u, b);
    TitleShows(u, b.kind.title);
    CalloutText(u, b, c);
  }

  lemma CalloutText(u: Classifier, b: Block, c: Block)
    requires b.kind.Callout? && c.kind.Callout? && c.kind.kind == b.kind.kind
    requires c.kind.title == Line(u, FlattenBreaks(b.kind.title)) && Shown(c.kind.title) == Shown(b.kind.title)
    requires (b.kind.title == [] ==> c.kind.title == []) && ShownRun(c.kind.body) == AfterRun(u, b.kind.body)
    ensures ShownBlock(c) == AfterBlock(u, b)
  {
  }

  lemma LeafShowsAfter(u: Classifier, b: Block)
    requires IsLeaf(b)
    ensures ShownOption(CanonicalBlock(u, b)) == ShownBlock(b)
  {
    CanonicalBlockInk(u, b);
    ShownLeafIsInk(b);
    match CanonicalBlock(u, b)
    case None =>
    case Some(c) => LeafStaysLeaf(u, b); ShownLeafIsInk(c);
  }

  lemma LeafStaysLeaf(u: Classifier, b: Block)
    requires IsLeaf(b) && CanonicalBlock(u, b).Some?
    ensures IsLeaf(CanonicalBlock(u, b).value)
  {
  }

  lemma {:induction false} ItemsShowAfter(u: Classifier, items: seq<ListItem>)
    ensures ShownItems(CanonicalItems(u, items)) == AfterItems(u, items)
    decreases items, 0
  {
    if items != [] {
      ItemsShowAfter(u, Init(items));
      CanonicalShows(u, Last(items).content);
      ShownItemsSnoc(CanonicalItems(u, Init(items)), CanonicalListItem(u, Last(items)));
    }
  }

  // ---------------------------------------------------------------- when that is what was shown before

  /** No callout, at any depth, has a blank title and a kind to show in its place. */
  predicate TitlesShow(u: Classifier, blocks: seq<Block>)
    decreases blocks
  {
    forall i: nat | i < |blocks| :: TitlesShowIn(u, blocks[i])
  }

  predicate TitlesShowIn(u: Classifier, b: Block)
    decreases b
  {
    match b.kind
    case List(_, _, items) => TitlesShowInItems(u, items)
    case Blockquote(quoted) => TitlesShow(u, quoted)
    case Callout(kind, _, title, body) => (BlankTitle(u, title) ==> NonWhite(kind) == "") && TitlesShow(u, body)
    case _ => true
  }

  predicate TitlesShowInItems(u: Classifier, items: seq<ListItem>)
    decreases items
  {
    forall i: nat | i < |items| :: TitlesShow(u, items[i].content)
  }

  /** What is shown after is no shorter than before, and as long only where it is the same. */
  predicate Grows(after: string, before: string, same: bool) {
    |after| >= |before| && (same <==> |after| == |before|) && (same ==> after == before)
  }

  lemma GrowTogether(a: string, b: string, c: string, d: string, first: bool, second: bool)
    requires Grows(a, c, first) && Grows(b, d, second)
    ensures Grows(a + b, c + d, first && second)
  {
  }

  lemma {:induction false} RunGrows(u: Classifier, blocks: seq<Block>)
    ensures Grows(AfterRun(u, blocks), ShownRun(blocks), TitlesShow(u, blocks))
    decreases blocks
  {
    if blocks != [] {
      var init, last := Init(blocks), Last(blocks);
      RunGrows(u, init);
      BlockGrows(u, last);
      InitLast(blocks);
      ShownRunSnoc(init, last);
      GrowTogether(AfterRun(u, init), AfterBlock(u, last), ShownRun(init), ShownBlock(last),
                   TitlesShow(u, init), TitlesShowIn(u, last));
      assert forall i: nat | i < |init| :: init[i] == blocks[i];
      assert TitlesShow(u, blocks) <==> TitlesShow(u, init) && TitlesShowIn(u, last);
    }
  }

  lemma {:induction false} BlockGrows(u: Classifier, b: Block)
    ensures Grows(AfterBlock(u, b), ShownBlock(b), TitlesShowIn(u, b))
    decreases b
  {
    match b.kind
    case List(_, _, items) => ItemsGrow(u, items);
    case Blockquote(quoted) => RunGrows(u, quoted);
    case Callout(kind, _, title, body) =>
      RunGrows(u, body);
      TitleShows(u, title);
      GrowTogether(if title == [] || BlankTitle(u, title) then NonWhite(kind) else Shown(title), AfterRun(u, body),
                   if title == [] then NonWhite(kind) else Shown(title), ShownRun(body),
                   BlankTitle(u, title) ==> NonWhite(kind) == "", TitlesShow(u, body));
    case _ =>
  }

  lemma TitlesSnoc(u: Classifier, items: seq<ListItem>, item: ListItem)
    ensures TitlesShowInItems(u, items + [item]) <==> TitlesShowInItems(u, items) && TitlesShow(u, item.content)
  {
    var all := items + [item];
    assert forall i: nat | i < |items| :: all[i] == items[i];
    assert all[|items|] == item;
  }

  lemma {:induction false} ItemsGrow(u: Classifier, items: seq<ListItem>)
    ensures Grows(AfterItems(u, items), ShownItems(items), TitlesShowInItems(u, items))
    decreases items
  {
    if items != [] {
      var init, last := Init(items), Last(items);
      ItemsGrow(u, init);
      RunGrows(u, last.content);
      InitLast(items);
      ShownItemsSnoc(init, last);
      TitlesSnoc(u, init, last);
      GrowTogether(AfterItems(u, init), AfterRun(u, last.content), ShownItems(init), ShownRun(last.content),
                   TitlesShowInItems(u, init), TitlesShow(u, last.content));
    }
  }

  /** The visible characters of a page: what is read back from the text it is written as. */
  function PageOf(blocks: seq<Block>, urls: HtmlMarkup.Urls): string {
    NonWhite(HtmlRoundTrip.NodesText(HtmlParser.ParseHtml(HtmlTree.Serialize(HtmlMarkup.RunMarkup(blocks, urls))).children))
  }

  /**
   * The page of a canonicalized note shows what the page of the note shows, and in addition the kind of each callout
   * whose title was blank; so the two show the same exactly when no such callout has a kind that can be seen.
   */
  lemma CanonicalizingKeepsThePage(u: Classifier, blocks: seq<Block>, urls: HtmlMarkup.Urls)
    ensures PageOf(CanonicalRun(u, blocks), urls) == AfterRun(u, blocks)
    ensures PageOf(CanonicalRun(u, blocks), urls) == PageOf(blocks, urls) <==> TitlesShow(u, blocks)
  {
    PageShowsTheNote(blocks, urls);
    PageShowsTheNote(CanonicalRun(u, blocks), urls);
    CanonicalShows(u, blocks);
    RunGrows(u, blocks);
  }
}
