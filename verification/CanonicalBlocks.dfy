/**
 * The canonical form of blocks (`document`, `blocks`, `block`, `list_item`, `merge_adjacent_lists` and `table` in
 * crates/mb-core/src/canonical.rs): nothing visible is lost, and exactly which documents one pass settles.
 */
module CanonicalBlocks {
  import opened Strings
  import opened Model
  import opened Flanking
  import opened Inlines
  import opened CanonicalInlines
  import opened Shapes
  import opened Trimming
  import opened Bodies
  import opened Cells

  // ---------------------------------------------------------------- lists side by side

  /** Two neighbouring lists that Markdown would read back as one. */
  predicate Mergeable(prev: Block, next: Block) {
    && prev.anchor == None && next.anchor == None
    && prev.kind.List? && next.kind.List?
    && prev.kind.ordered == next.kind.ordered
  }

  function PushBlock(out: seq<Block>, b: Block): seq<Block> {
    if out != [] && Mergeable(Last(out), b) then
      var prev := Last(out);
      Init(out) + [prev.(kind := prev.kind.(items := prev.kind.items + b.kind.items))]
    else out + [b]
  }

  function MergeLists(items: seq<Block>): seq<Block> {
    if items == [] then [] else PushBlock(MergeLists(Init(items)), Last(items))
  }

  /** `merge_adjacent_lists` as the program runs it. */
  method MergeAdjacentLists(items: seq<Block>) returns (out: seq<Block>)
    ensures out == MergeLists(items)
  {
    out := [];
    for i := 0 to |items|
      invariant out == MergeLists(items[..i])
    {
      assert items[..i + 1] == items[..i] + [items[i]];
      SnocInit(items[..i], items[i]);
      out := PushBlock(out, items[i]);
    }
    assert items[..|items|] == items;
  }

  // ---------------------------------------------------------------- tables

  function Max(a: nat, b: nat): nat {
    if a < b then b else a
  }

  function WidestRow(rows: seq<seq<seq<Inline>>>): nat {
    if rows == [] then 0 else Max(WidestRow(Init(rows)), |Last(rows)|)
  }

  function Columns(t: Table): nat {
    Max(|t.alignments|, Max(|t.head|, WidestRow(t.rows)))
  }

  function PadAlignments(alignments: seq<CellAlignment>, cols: nat): seq<CellAlignment>
    requires |alignments| <= cols
  {
    alignments + seq(cols - |alignments|, _ => Default)
  }

  /** A row squared off to `cols` cells, each canonical. */
  function CanonicalRow(u: Classifier, row: seq<seq<Inline>>, cols: nat): seq<seq<Inline>>
    requires |row| <= cols
  {
    seq(cols, i requires 0 <= i < cols => Cell(u, if i < |row| then row[i] else []))
  }

  lemma {:induction false} RowsFit(rows: seq<seq<seq<Inline>>>, cols: nat)
    requires WidestRow(rows) <= cols
    ensures forall i :: 0 <= i < |rows| ==> |rows[i]| <= cols
  {
    if rows != [] {
      RowsFit(Init(rows), cols);
      InitLast(rows);
    }
  }

  function CanonicalRows(u: Classifier, rows: seq<seq<seq<Inline>>>, cols: nat): seq<seq<seq<Inline>>>
    requires forall i :: 0 <= i < |rows| ==> |rows[i]| <= cols
  {
    seq(|rows|, i requires 0 <= i < |rows| => CanonicalRow(u, rows[i], cols))
  }

  /** `table`: rows are widened, never cut, and a table without columns is dropped. */
  function CanonicalTable(u: Classifier, t: Table): Option<Table> {
    var cols := Columns(t);
    RowsFit(t.rows, cols);
    if cols == 0 then None
    else Some(Table(PadAlignments(t.alignments, cols), CanonicalRow(u, t.head, cols), CanonicalRows(u, t.rows, cols)))
  }

  // ---------------------------------------------------------------- blocks

  function CanonicalRun(u: Classifier, blocks: seq<Block>): seq<Block>
    decreases blocks, 1
  {
    MergeLists(KeepEach(u, blocks))
  }

  function KeepEach(u: Classifier, blocks: seq<Block>): seq<Block>
    decreases blocks, 0
  {
    if blocks == [] then []
    else KeepEach(u, Init(blocks)) + match CanonicalBlock(u, Last(blocks)) case None => [] case Some(b) => [b]
  }

  /** `block`: the canonical block, or nothing when it would render as nothing. */
  function CanonicalBlock(u: Classifier, b: Block): Option<Block>
    decreases b, 0
  {
    match b.kind
    case Paragraph(c) =>
      var line := Line(u, c);
      if line == [] && b.anchor == None then None else Some(b.(kind := Paragraph(line)))
    case Heading(level, c) => Some(b.(kind := Heading(level, Line(u, FlattenBreaks(c)))))
    case List(ordered, start, items) =>
      if items == [] then None
      else Some(b.(kind := List(ordered, if ordered then Max(start, 1) else 1, CanonicalItems(u, items))))
    case Blockquote(inner) => Some(b.(kind := Blockquote(CanonicalRun(u, inner))))
    case Callout(kind, fold, title, body) =>
      Some(b.(kind := Callout(kind, fold, Line(u, FlattenBreaks(title)), CanonicalRun(u, body))))
    case CodeBlock(lang, code) => Some(b.(kind := CodeBlock(lang, CodeBody(code))))
    case MathBlock(m) => Some(b.(kind := MathBlock(MathBody(m))))
    case TableBlock(t) =>
      (match CanonicalTable(u, t)
       case None => None
       case Some(table) => Some(b.(kind := TableBlock(table))))
    case Divider => Some(b)
  }

  function CanonicalItems(u: Classifier, items: seq<ListItem>): seq<ListItem>
    decreases items, 0
  {
    if items == [] then [] else CanonicalItems(u, Init(items)) + [CanonicalListItem(u, Last(items))]
  }

  /** Only an item that is empty or opens with a paragraph can carry a task marker. */
  predicate CarriesMarker(content: seq<Block>) {
    content == [] || content[0].kind.Paragraph?
  }

  function CanonicalListItem(u: Classifier, item: ListItem): ListItem
    decreases item, 0
  {
    var content := CanonicalRun(u, item.content);
    ListItem(if CarriesMarker(content) then item.task else None, content)
  }

  // ---------------------------------------------------------------- nothing visible is lost

  function BlockInk(b: Block): seq<Glyph>
    decreases b
  {
    match b.kind
    case Paragraph(c) => InkAll(c)
    case Heading(_, c) => InkAll(c)
    case List(_, _, items) => ItemsInk(items)
    case Blockquote(inner) => RunInk(inner)
    case Callout(_, _, title, body) => InkAll(title) + RunInk(body)
    case CodeBlock(_, code) => CodeChars(NonWhite(code))
    case MathBlock(m) => MathChars(NonWhite(m))
    case TableBlock(t) => TableInk(t)
    case Divider => []
  }

  function TableInk(t: Table): seq<Glyph> {
    RowInk(t.head) + RowsInk(t.rows)
  }

  function RunInk(blocks: seq<Block>): seq<Glyph>
    decreases blocks
  {
    if blocks == [] then [] else RunInk(Init(blocks)) + BlockInk(Last(blocks))
  }

  function ItemsInk(items: seq<ListItem>): seq<Glyph>
    decreases items
  {
    if items == [] then [] else ItemsInk(Init(items)) + RunInk(Last(items).content)
  }

  function RowInk(row: seq<seq<Inline>>): seq<Glyph> {
    if row == [] then [] else RowInk(Init(row)) + InkAll(Last(row))
  }

  function RowsInk(rows: seq<seq<seq<Inline>>>): seq<Glyph> {
    if rows == [] then [] else RowsInk(Init(rows)) + RowInk(Last(rows))
  }

  lemma ItemsInkSnoc(items: seq<ListItem>, item: ListItem)
    ensures ItemsInk(items + [item]) == ItemsInk(items) + RunInk(item.content)
  {
    SnocInit(items, item);
  }

  lemma {:induction false} ItemsInkConcat(a: seq<ListItem>, b: seq<ListItem>)
    ensures ItemsInk(a + b) == ItemsInk(a) + ItemsInk(b)
  {
    if b == [] {
      assert a + b == a;
    } else {
      var front, item := Init(b), Last(b);
      ItemsInkConcat(a, front);
      InitLast(b);
      Associate(a, front, [item]);
      ItemsInkSnoc(a + front, item);
      ItemsInkSnoc(front, item);
      Associate(ItemsInk(a), ItemsInk(front), RunInk(item.content));
    }
  }

  lemma RunInkSnoc(blocks: seq<Block>, b: Block)
    ensures RunInk(blocks + [b]) == RunInk(blocks) + BlockInk(b)
  {
    SnocInit(blocks, b);
  }

  lemma PushBlockInk(out: seq<Block>, b: Block)
    ensures RunInk(PushBlock(out, b)) == RunInk(out) + BlockInk(b)
  {
    RunInkSnoc(out, b);
    if out != [] && Mergeable(Last(out), b) {
      var prev := Last(out);
      var merged := prev.(kind := prev.kind.(items := prev.kind.items + b.kind.items));
      ItemsInkConcat(prev.kind.items, b.kind.items);
      RunInkSnoc(Init(out), merged);
      Associate(RunInk(Init(out)), BlockInk(prev), BlockInk(b));
    }
  }

  lemma {:induction false} MergeListsInk(items: seq<Block>)
    ensures RunInk(MergeLists(items)) == RunInk(items)
  {
    if items != [] {
      MergeListsInk(Init(items));
      PushBlockInk(MergeLists(Init(items)), Last(items));
    }
  }

  lemma {:induction false} RowInkPadded(row: seq<seq<Inline>>, other: seq<seq<Inline>>)
    requires |row| <= |other|
    requires forall i :: 0 <= i < |row| ==> InkAll(other[i]) == InkAll(row[i])
    requires forall i :: |row| <= i < |other| ==> InkAll(other[i]) == []
    ensures RowInk(other) == RowInk(row)
    decreases |other|
  {
    if |row| < |other| {
      RowInkPadded(row, Init(other));
    } else if row != [] {
      RowInkPadded(Init(row), Init(other));
    }
  }

  lemma CanonicalRowInk(u: Classifier, row: seq<seq<Inline>>, cols: nat)
    requires |row| <= cols
    ensures RowInk(CanonicalRow(u, row, cols)) == RowInk(row)
  {
    var other := CanonicalRow(u, row, cols);
    forall i | 0 <= i < cols
      ensures InkAll(other[i]) == if i < |row| then InkAll(row[i]) else []
    {
      CellInk(u, if i < |row| then row[i] else []);
    }
    RowInkPadded(row, other);
  }

  lemma RowsInkSnoc(rows: seq<seq<seq<Inline>>>, row: seq<seq<Inline>>)
    ensures RowsInk(rows + [row]) == RowsInk(rows) + RowInk(row)
  {
    SnocInit(rows, row);
  }

  lemma CanonicalRowsSnoc(u: Classifier, rows: seq<seq<seq<Inline>>>, row: seq<seq<Inline>>, cols: nat)
    requires |row| <= cols && forall i :: 0 <= i < |rows| ==> |rows[i]| <= cols
    ensures CanonicalRows(u, rows + [row], cols) == CanonicalRows(u, rows, cols) + [CanonicalRow(u, row, cols)]
  {
  }

  lemma {:induction false} CanonicalRowsInk(u: Classifier, rows: seq<seq<seq<Inline>>>, cols: nat)
    requires forall i :: 0 <= i < |rows| ==> |rows[i]| <= cols
    ensures RowsInk(CanonicalRows(u, rows, cols)) == RowsInk(rows)
    decreases |rows|
  {
    if rows != [] {
      var front, row := Init(rows), Last(rows);
      InitLast(rows);
      CanonicalRowsInk(u, front, cols);
      CanonicalRowInk(u, row, cols);
      CanonicalRowsSnoc(u, front, row, cols);
      RowsInkSnoc(front, row);
      RowsInkSnoc(CanonicalRows(u, front, cols), CanonicalRow(u, row, cols));
    }
  }

  lemma {:induction false} NoColumnsNoInk(rows: seq<seq<seq<Inline>>>)
    requires WidestRow(rows) == 0
    ensures RowsInk(rows) == []
  {
    if rows != [] {
      NoColumnsNoInk(Init(rows));
      assert Last(rows) == [];
    }
  }

  lemma CanonicalTableInk(u: Classifier, t: Table)
    ensures TableInk(t) == match CanonicalTable(u, t) case None => [] case Some(r) => TableInk(r)
  {
    var cols := Columns(t);
    RowsFit(t.rows, cols);
    if cols == 0 {
      NoColumnsNoInk(t.rows);
      assert t.head == [];
    } else {
      CanonicalRowInk(u, t.head, cols);
      CanonicalRowsInk(u, t.rows, cols);
    }
  }

  function OptionalInk(b: Option<Block>): seq<Glyph> {
    match b case None => [] case Some(b) => BlockInk(b)
  }

  /** Canonicalizing a document keeps its visible characters and its references, in order. */
  lemma {:induction false} DocumentKeepsInk(u: Classifier, blocks: seq<Block>)
    ensures RunInk(CanonicalRun(u, blocks)) == RunInk(blocks)
    decreases blocks, 1
  {
    KeepEachInk(u, blocks);
    MergeListsInk(KeepEach(u, blocks));
  }

  lemma {:induction false} KeepEachInk(u: Classifier, blocks: seq<Block>)
    ensures RunInk(KeepEach(u, blocks)) == RunInk(blocks)
    decreases blocks, 0
  {
    if blocks != [] {
      var kept := KeepEach(u, Init(blocks));
      KeepEachInk(u, Init(blocks));
      CanonicalBlockInk(u, Last(blocks));
      match CanonicalBlock(u, Last(blocks))
      case None => assert kept + [] == kept;
      case Some(b) => RunInkSnoc(kept, b);
    }
  }

  lemma {:induction false} CanonicalBlockInk(u: Classifier, b: Block)
    ensures OptionalInk(CanonicalBlock(u, b)) == BlockInk(b)
    decreases b, 0
  {
    match b.kind
    case Paragraph(c) => LineShape(u, c);
    case Heading(_, c) => HeadingLineInk(u, c);
    case List(_, _, items) => CanonicalItemsInk(u, items);
    case Blockquote(inner) => DocumentKeepsInk(u, inner);
    case Callout(_, _, title, body) =>
      DocumentKeepsInk(u, body);
      CalloutInk(u, b);
    case _ => LeafBlockInk(u, b);
  }

  lemma CalloutIs(u: Classifier, b: Block) returns (c: Block)
    requires b.kind.Callout?
    ensures CanonicalBlock(u, b) == Some(c) && c.kind.Callout? && c.kind.kind == b.kind.kind
    ensures c.kind.title == Line(u, FlattenBreaks(b.kind.title)) && c.kind.body == CanonicalRun(u, b.kind.body)
  {
    c := CanonicalBlock(u, b).value;
  }

  lemma SameCalloutInk(b: Block, c: Block)
    requires b.kind.Callout? && c.kind.Callout?
    requires InkAll(c.kind.title) == InkAll(b.kind.title) && RunInk(c.kind.body) == RunInk(b.kind.body)
    ensures BlockInk(c) == BlockInk(b)
  {
  }

  lemma CalloutInk(u: Classifier, b: Block)
    requires b.kind.Callout? && RunInk(CanonicalRun(u, b.kind.body)) == RunInk(b.kind.body)
    ensures OptionalInk(CanonicalBlock(u, b)) == BlockInk(b)
  {
    var c := CalloutIs(u, b);
    HeadingLineInk(u, b.kind.title);
    SameCalloutInk(b, c);
  }

  lemma LeafBlockInk(u: Classifier, b: Block)
    requires b.kind.CodeBlock? || b.kind.MathBlock? || b.kind.TableBlock? || b.kind.Divider?
    ensures OptionalInk(CanonicalBlock(u, b)) == BlockInk(b)
  {
    if b.kind.TableBlock? {
      TableBlockInk(u, b);
    } else if b.kind.CodeBlock? {
      CodeBlockInk(u, b);
    } else if b.kind.MathBlock? {
      MathBlockInk(u, b);
    }
  }

  lemma MathBlockIs(u: Classifier, tex: string, anchor: Option<string>)
    ensures CanonicalBlock(u, Block(MathBlock(tex), anchor)) == Some(Block(MathBlock(MathBody(tex)), anchor))
  {
  }

  lemma SameMathInk(tex: string, body: string, b: Block, c: Block)
    requires b.kind == MathBlock(tex) && c.kind == MathBlock(body) && NonWhite(body) == NonWhite(tex)
    ensures BlockInk(c) == BlockInk(b)
  {
  }

  lemma MathBlockInk(u: Classifier, b: Block)
    requires b.kind.MathBlock?
    ensures OptionalInk(CanonicalBlock(u, b)) == BlockInk(b)
  {
    var body := MathBody(b.kind.tex);
    MathBlockIs(u, b.kind.tex, b.anchor);
    MathBodyShape(b.kind.tex);
    SameMathInk(b.kind.tex, body, b, b.(kind := MathBlock(body)));
  }

  lemma CodeBlockInk(u: Classifier, b: Block)
    requires b.kind.CodeBlock?
    ensures OptionalInk(CanonicalBlock(u, b)) == BlockInk(b)
  {
    CodeBodyIsStable(b.kind.code);
  }

  lemma TableBlockInk(u: Classifier, b: Block)
    requires b.kind.TableBlock?
    ensures OptionalInk(CanonicalBlock(u, b)) == BlockInk(b)
  {
    CanonicalTableInk(u, b.kind.table);
  }

  lemma HeadingLineInk(u: Classifier, c: seq<Inline>)
    ensures InkAll(Line(u, FlattenBreaks(c))) == InkAll(c)
  {
    FlattenBreaksInk(c);
    LineShape(u, FlattenBreaks(c));
  }

  lemma {:induction false} CanonicalItemsInk(u: Classifier, items: seq<ListItem>)
    ensures ItemsInk(CanonicalItems(u, items)) == ItemsInk(items)
    decreases items, 0
  {
    if items != [] {
      CanonicalItemsInk(u, Init(items));
      DocumentKeepsInk(u, Last(items).content);
      SnocInit(CanonicalItems(u, Init(items)), CanonicalListItem(u, Last(items)));
    }
  }

  // ---------------------------------------------------------------- which task markers survive

  /** The block renders as nothing: an empty paragraph without an anchor, a list without items, a table without columns. */
  predicate Vanishes(u: Classifier, b: Block) {
    match b.kind
    case Paragraph(c) => Line(u, c) == [] && b.anchor == None
    case List(_, _, items) => items == []
    case TableBlock(t) => Columns(t) == 0
    case _ => false
  }

  /** The first block that does not vanish. */
  function FirstKept(u: Classifier, blocks: seq<Block>): Option<Block> {
    if blocks == [] then None
    else match FirstKept(u, Init(blocks))
      case Some(b) => Some(b)
      case None => if Vanishes(u, Last(blocks)) then None else Some(Last(blocks))
  }

  lemma KeptUnlessVanishes(u: Classifier, b: Block)
    ensures CanonicalBlock(u, b).None? <==> Vanishes(u, b)
    ensures CanonicalBlock(u, b).Some? ==> (CanonicalBlock(u, b).value.kind.Paragraph? <==> b.kind.Paragraph?)
  {
  }

  /** The first block of a run, if there is one, and whether it is a paragraph. */
  predicate StartsAs(blocks: seq<Block>, first: Option<Block>) {
    match first
    case None => blocks == []
    case Some(b) => blocks != [] && (blocks[0].kind.Paragraph? <==> b.kind.Paragraph?)
  }

  lemma {:induction false} KeepEachStarts(u: Classifier, blocks: seq<Block>)
    ensures StartsAs(KeepEach(u, blocks), FirstKept(u, blocks))
  {
    if blocks != [] {
      KeepEachStarts(u, Init(blocks));
      KeptUnlessVanishes(u, Last(blocks));
    }
  }

  lemma {:induction false} MergeListsStarts(items: seq<Block>)
    ensures |MergeLists(items)| > 0 <==> |items| > 0
    ensures items != [] ==> (MergeLists(items)[0].kind.Paragraph? <==> items[0].kind.Paragraph?)
  {
    if |items| > 1 {
      MergeListsStarts(Init(items));
    } else if items != [] {
      assert Init(items) == [];
    }
  }

  /** An item keeps its task marker exactly when its first block that does not vanish, if there is one, is a paragraph. */
  lemma MarkerSurvivesIff(u: Classifier, item: ListItem)
    ensures var first := FirstKept(u, item.content);
      CanonicalListItem(u, item).task == (if first == None || first.value.kind.Paragraph? then item.task else None)
  {
    KeepEachStarts(u, item.content);
    MergeListsStarts(KeepEach(u, item.content));
  }

  // ---------------------------------------------------------------- documents that one pass leaves alone

  predicate HeadingNormal(u: Classifier, c: seq<Inline>) {
    LineNormal(u, c) && Fits(c, BREAK_FREE)
  }

  predicate TableNormal(u: Classifier, t: Table) {
    && |t.alignments| == |t.head| > 0
    && (forall i :: 0 <= i < |t.rows| ==> |t.rows[i]| == |t.head|)
    && (forall j :: 0 <= j < |t.head| ==> CellNormal(u, t.head[j]))
    && (forall i, j :: 0 <= i < |t.rows| && 0 <= j < |t.rows[i]| ==> CellNormal(u, t.rows[i][j]))
  }

  predicate ListNormal(ordered: bool, start: nat, items: seq<ListItem>) {
    && items != []
    && (if ordered then start >= 1 else start == 1)
    && forall i :: 0 <= i < |items| ==> items[i].task.Some? ==> CarriesMarker(items[i].content)
  }

  /** The normal form of a run of blocks: every block is normal and no two neighbours would be read as one list. */
  predicate RunNormal(u: Classifier, blocks: seq<Block>)
    decreases blocks
  {
    && NoAdjacentLists(blocks)
    && forall i: nat | i < |blocks| :: BlockNormal(u, blocks[i])
  }

  predicate NoAdjacentLists(blocks: seq<Block>) {
    forall i: nat | i < |blocks| :: i > 0 ==> !Mergeable(blocks[i - 1], blocks[i])
  }

  predicate BlockNormal(u: Classifier, b: Block)
    decreases b
  {
    match b.kind
    case Paragraph(c) => LineNormal(u, c) && (c != [] || b.anchor.Some?)
    case Heading(_, c) => HeadingNormal(u, c)
    case List(ordered, start, items) =>
      ListNormal(ordered, start, items) && forall i: nat | i < |items| :: RunNormal(u, items[i].content)
    case Blockquote(inner) => RunNormal(u, inner)
    case Callout(_, _, title, body) => HeadingNormal(u, title) && RunNormal(u, body)
    case CodeBlock(_, code) => '\r' !in code && (code == "" || Last(code) != '\n')
    case MathBlock(m) => MathBody(m) == m
    case TableBlock(t) => TableNormal(u, t)
    case Divider => true
  }

  // ---------------------------------------------------------------- fixed points of each step

  lemma HeadingFixedIff(u: Classifier, c: seq<Inline>)
    ensures Line(u, FlattenBreaks(c)) == c <==> HeadingNormal(u, c)
  {
    if Line(u, FlattenBreaks(c)) == c {
      FlattenedIsBreakFree(c);
      LineFits(u, FlattenBreaks(c), BREAK_FREE);
      BreakFreeFlattenWeight(c);
      LineShape(u, FlattenBreaks(c));
      LineFixedIff(u, c);
    }
    if HeadingNormal(u, c) {
      BreakFreeNormalIsFlattened(u, c, TOP);
      LineFixedIff(u, c);
    }
  }

  lemma CanonicalRowFixedIff(u: Classifier, row: seq<seq<Inline>>, cols: nat)
    requires |row| <= cols
    ensures CanonicalRow(u, row, cols) == row <==>
              |row| == cols && forall j :: 0 <= j < |row| ==> CellNormal(u, row[j])
  {
    var r := CanonicalRow(u, row, cols);
    assert |r| == cols;
    forall j | 0 <= j < |row| ensures r[j] == row[j] <==> CellNormal(u, row[j]) {
      CellFixed(u, row[j]);
    }
    if r == row {
      forall j | 0 <= j < |row| ensures CellNormal(u, row[j]) {
        assert r[j] == row[j];
      }
    }
  }

  lemma {:induction false} WidestOfEqualRows(rows: seq<seq<seq<Inline>>>, cols: nat)
    requires forall i :: 0 <= i < |rows| ==> |rows[i]| == cols
    ensures WidestRow(rows) <= cols
  {
    if rows != [] {
      WidestOfEqualRows(Init(rows), cols);
    }
  }

  lemma CanonicalTableFixedIff(u: Classifier, t: Table)
    ensures CanonicalTable(u, t) == Some(t) <==> TableNormal(u, t)
  {
    var cols := Columns(t);
    RowsFit(t.rows, cols);
    if TableNormal(u, t) {
      WidestOfEqualRows(t.rows, |t.head|);
    }
    CanonicalRowFixedIff(u, t.head, cols);
    forall i | 0 <= i < |t.rows|
      ensures CanonicalRow(u, t.rows[i], cols) == t.rows[i] <==>
                |t.rows[i]| == cols && forall j :: 0 <= j < |t.rows[i]| ==> CellNormal(u, t.rows[i][j])
    {
      CanonicalRowFixedIff(u, t.rows[i], cols);
    }
    if CanonicalTable(u, t) == Some(t) {
      assert |PadAlignments(t.alignments, cols)| == cols;
      assert CanonicalRow(u, t.head, cols) == t.head;
      forall i | 0 <= i < |t.rows| ensures CanonicalRow(u, t.rows[i], cols) == t.rows[i] {
        assert CanonicalRows(u, t.rows, cols)[i] == t.rows[i];
      }
    }
    if TableNormal(u, t) {
      assert cols == |t.head|;
      assert PadAlignments(t.alignments, cols) == t.alignments;
      assert CanonicalRows(u, t.rows, cols) == t.rows;
    }
  }

  lemma {:induction false} CanonicalItemsArePointwise(u: Classifier, items: seq<ListItem>)
    ensures |CanonicalItems(u, items)| == |items|
    ensures forall i: nat | i < |items| :: CanonicalItems(u, items)[i] == CanonicalListItem(u, items[i])
    decreases |items|
  {
    if items != [] {
      CanonicalItemsArePointwise(u, Init(items));
    }
  }

  lemma {:induction false} MergeListsLength(items: seq<Block>)
    ensures |MergeLists(items)| <= |items|
    ensures |MergeLists(items)| == |items| ==> MergeLists(items) == items
    ensures MergeLists(items) == items <==> NoAdjacentLists(items)
    decreases |items|
  {
    if items != [] {
      var init := Init(items);
      MergeListsLength(init);
      InitLast(items);
      assert NoAdjacentLists(items) <==>
             NoAdjacentLists(init) && (init != [] ==> !Mergeable(Last(init), Last(items))) by {
        assert forall i: nat | i < |init| :: init[i] == items[i];
      }
    }
  }

  /** A pass leaves no two neighbouring lists that would be read as one. */
  lemma {:induction false} MergedListsStayApart(items: seq<Block>)
    ensures NoAdjacentLists(MergeLists(items))
    decreases |items|
  {
    if items != [] {
      MergedListsStayApart(Init(items));
    }
  }

  lemma {:induction false} KeepEachLength(u: Classifier, blocks: seq<Block>)
    ensures |KeepEach(u, blocks)| <= |blocks|
    ensures KeepEach(u, blocks) == blocks <==>
              forall i: nat | i < |blocks| :: CanonicalBlock(u, blocks[i]) == Some(blocks[i])
    decreases |blocks|
  {
    if blocks != [] {
      var init := Init(blocks);
      KeepEachLength(u, init);
      InitLast(blocks);
      assert forall i: nat | i < |init| :: init[i] == blocks[i];
      if KeepEach(u, blocks) == blocks {
        assert KeepEach(u, init) == init && CanonicalBlock(u, Last(blocks)) == Some(Last(blocks)) by {
          assert |KeepEach(u, blocks)| == |init| + 1;
          assert CanonicalBlock(u, Last(blocks)).Some?;
        }
      }
    }
  }

  /** A run of blocks is a fixed point of canonicalization exactly when it is in normal form. */
  lemma {:induction false} DocumentFixedIffNormal(u: Classifier, blocks: seq<Block>)
    ensures CanonicalRun(u, blocks) == blocks <==> RunNormal(u, blocks)
    decreases blocks, 1
  {
    var kept := KeepEach(u, blocks);
    KeepEachLength(u, blocks);
    MergeListsLength(kept);
    forall i: nat | i < |blocks|
      ensures CanonicalBlock(u, blocks[i]) == Some(blocks[i]) <==> BlockNormal(u, blocks[i])
    {
      BlockFixedIffNormal(u, blocks[i]);
    }
    if CanonicalRun(u, blocks) == blocks {
      assert kept == blocks;
    }
  }

  lemma {:induction false} BlockFixedIffNormal(u: Classifier, b: Block)
    ensures CanonicalBlock(u, b) == Some(b) <==> BlockNormal(u, b)
    decreases b, 0
  {
    match b.kind
    case Paragraph(c) => LineFixedIff(u, c);
    case Heading(_, c) => HeadingFixedIff(u, c);
    case List(ordered, start, items) => ListFixedIffNormal(u, b);
    case Blockquote(inner) => DocumentFixedIffNormal(u, inner);
    case Callout(_, _, title, body) => HeadingFixedIff(u, title); DocumentFixedIffNormal(u, body);
    case CodeBlock(_, code) => CodeBodyFixedIff(code);
    case MathBlock(m) =>
    case TableBlock(t) => CanonicalTableFixedIff(u, t);
    case Divider =>
  }

  lemma ItemFixedIff(u: Classifier, item: ListItem)
    ensures CanonicalListItem(u, item) == item <==>
            CanonicalRun(u, item.content) == item.content && (item.task.Some? ==> CarriesMarker(item.content))
  {
  }

  lemma {:induction false} ItemsFixedIffNormal(u: Classifier, items: seq<ListItem>)
    ensures CanonicalItems(u, items) == items <==>
            forall i: nat | i < |items| :: RunNormal(u, items[i].content) && (items[i].task.Some? ==> CarriesMarker(items[i].content))
    decreases items, 0
  {
    CanonicalItemsArePointwise(u, items);
    forall i: nat | i < |items|
      ensures CanonicalListItem(u, items[i]) == items[i] <==>
                RunNormal(u, items[i].content) && (items[i].task.Some? ==> CarriesMarker(items[i].content))
    {
      ItemFixedIff(u, items[i]);
      DocumentFixedIffNormal(u, items[i].content);
    }
  }

  lemma {:induction false} ListFixedIffNormal(u: Classifier, b: Block)
    requires b.kind.List?
    ensures CanonicalBlock(u, b) == Some(b) <==> BlockNormal(u, b)
    decreases b.kind, 0
  {
    ItemsFixedIffNormal(u, b.kind.items);
  }

  // ---------------------------------------------------------------- what one pass may leave behind

  predicate TableSettled(t: Table) {
    && (forall j :: 0 <= j < |t.head| ==> Flat(t.head[j]) && NoSoftBreak(t.head[j]))
    && (forall i, j :: 0 <= i < |t.rows| && 0 <= j < |t.rows[i]| ==> Flat(t.rows[i][j]) && NoSoftBreak(t.rows[i][j]))
  }

  /**
   * The only three things a first pass can leave for a second: a mark directly inside its own kind, a soft break
   * in a table cell, and a blank outer line in a math body.
   */
  predicate Settled(blocks: seq<Block>)
    decreases blocks
  {
    forall i: nat | i < |blocks| :: BlockSettled(blocks[i])
  }

  predicate BlockSettled(b: Block)
    decreases b
  {
    match b.kind
    case Paragraph(c) => Flat(c)
    case Heading(_, c) => Flat(c)
    case List(_, _, items) => forall i: nat | i < |items| :: Settled(items[i].content)
    case Blockquote(inner) => Settled(inner)
    case Callout(_, _, title, body) => Flat(title) && Settled(body)
    case MathBlock(m) => MathBody(m) == m
    case TableBlock(t) => TableSettled(t)
    case _ => true
  }

  lemma FlattenedHeadingNormal(u: Classifier, c: seq<Inline>)
    ensures Flat(Line(u, FlattenBreaks(c))) <==> HeadingNormal(u, Line(u, FlattenBreaks(c)))
  {
    FlattenedIsBreakFree(c);
    LineFits(u, FlattenBreaks(c), BREAK_FREE);
    LineShape(u, FlattenBreaks(c));
  }

  lemma CanonicalTableNormal(u: Classifier, t: Table)
    requires CanonicalTable(u, t).Some?
    ensures TableSettled(CanonicalTable(u, t).value) <==> TableNormal(u, CanonicalTable(u, t).value)
  {
    var cols := Columns(t);
    RowsFit(t.rows, cols);
    var r := CanonicalTable(u, t).value;
    forall c ensures CellNormal(u, Cell(u, c)) <==> NoSoftBreak(Cell(u, c)) && Flat(Cell(u, c)) {
      CellNormalIff(u, Cell(u, c));
      CellLines(u, c);
    }
    forall j | 0 <= j < cols
      ensures CellNormal(u, r.head[j]) <==> Flat(r.head[j]) && NoSoftBreak(r.head[j])
    {
    }
    forall i, j | 0 <= i < |r.rows| && 0 <= j < |r.rows[i]|
      ensures CellNormal(u, r.rows[i][j]) <==> Flat(r.rows[i][j]) && NoSoftBreak(r.rows[i][j])
    {
      assert r.rows[i] == CanonicalRow(u, t.rows[i], cols);
    }
  }

  lemma {:induction false} NormalIsSettled(u: Classifier, blocks: seq<Block>)
    requires RunNormal(u, blocks)
    ensures Settled(blocks)
    decreases blocks
  {
    forall i: nat | i < |blocks| ensures BlockSettled(blocks[i]) {
      NormalBlockIsSettled(u, blocks[i]);
    }
  }

  lemma {:induction false} NormalBlockIsSettled(u: Classifier, b: Block)
    requires BlockNormal(u, b)
    ensures BlockSettled(b)
    decreases b
  {
    match b.kind
    case List(_, _, items) =>
      forall j: nat | j < |items| ensures Settled(items[j].content) {
        NormalIsSettled(u, items[j].content);
      }
    case Blockquote(inner) => NormalIsSettled(u, inner);
    case Callout(_, _, title, body) => NormalIsSettled(u, body);
    case TableBlock(t) => NormalTableIsSettled(u, t);
    case _ =>
  }

  lemma NormalTableIsSettled(u: Classifier, t: Table)
    requires TableNormal(u, t)
    ensures TableSettled(t)
  {
    forall c: seq<Inline> | CellNormal(u, c) ensures Flat(c) && NoSoftBreak(c) {
      CellNormalIff(u, c);
    }
  }

  lemma {:induction false} SettledRunIsNormal(u: Classifier, blocks: seq<Block>)
    requires Settled(CanonicalRun(u, blocks))
    ensures RunNormal(u, CanonicalRun(u, blocks))
    decreases blocks, 1
  {
    var kept := KeepEach(u, blocks);
    MergedListsStayApart(kept);
    MergedPartsSettled(kept);
    KeptAreNormal(u, blocks);
    MergedAreNormal(u, kept);
  }

  lemma {:induction false} KeptAreNormal(u: Classifier, blocks: seq<Block>)
    requires Settled(KeepEach(u, blocks))
    ensures forall i: nat | i < |KeepEach(u, blocks)| :: BlockNormal(u, KeepEach(u, blocks)[i])
    decreases blocks, 0
  {
    if blocks != [] {
      var kept, init := KeepEach(u, blocks), KeepEach(u, Init(blocks));
      assert forall i: nat | i < |init| :: kept[i] == init[i];
      KeptAreNormal(u, Init(blocks));
      match CanonicalBlock(u, Last(blocks))
      case None => assert kept == init;
      case Some(b) =>
        assert kept[|init|] == b;
        CanonicalBlockSettled(u, Last(blocks));
    }
  }

  lemma {:induction false} CanonicalBlockSettled(u: Classifier, b: Block)
    requires CanonicalBlock(u, b).Some? && BlockSettled(CanonicalBlock(u, b).value)
    ensures BlockNormal(u, CanonicalBlock(u, b).value)
    decreases b, 0
  {
    match b.kind
    case List(_, _, items) => CanonicalListSettled(u, b);
    case Blockquote(inner) => SettledRunIsNormal(u, inner);
    case Callout(_, _, title, body) => FlattenedHeadingNormal(u, title); SettledRunIsNormal(u, body);
    case _ => CanonicalLeafSettled(u, b);
  }

  lemma CanonicalLeafSettled(u: Classifier, b: Block)
    requires !b.kind.List? && !b.kind.Blockquote? && !b.kind.Callout?
    requires CanonicalBlock(u, b).Some? && BlockSettled(CanonicalBlock(u, b).value)
    ensures BlockNormal(u, CanonicalBlock(u, b).value)
  {
    match b.kind
    case Paragraph(c) => LineShape(u, c);
    case Heading(_, c) => FlattenedHeadingNormal(u, c);
    case TableBlock(t) => CanonicalTableNormal(u, t);
    case _ => CanonicalBodySettled(u, b);
  }

  lemma CodeIsNormal(u: Classifier, b: Block)
    requires b.kind.CodeBlock?
    ensures CanonicalBlock(u, b).Some? && BlockNormal(u, CanonicalBlock(u, b).value)
  {
    CodeBodyIsStable(b.kind.code);
    CodeBodyFixedIff(CodeBody(b.kind.code));
  }

  lemma SettledMathIsNormal(u: Classifier, b: Block)
    requires b.kind.MathBlock? && CanonicalBlock(u, b).Some? && BlockSettled(CanonicalBlock(u, b).value)
    ensures BlockNormal(u, CanonicalBlock(u, b).value)
  {
    MathBlockIs(u, b.kind.tex, b.anchor);
  }

  lemma CanonicalBodySettled(u: Classifier, b: Block)
    requires b.kind.CodeBlock? || b.kind.MathBlock? || b.kind.Divider?
    requires CanonicalBlock(u, b).Some? && BlockSettled(CanonicalBlock(u, b).value)
    ensures BlockNormal(u, CanonicalBlock(u, b).value)
  {
    if b.kind.CodeBlock? {
      CodeIsNormal(u, b);
    } else if b.kind.MathBlock? {
      SettledMathIsNormal(u, b);
    }
  }

  lemma {:induction false} CanonicalListSettled(u: Classifier, b: Block)
    requires b.kind.List? && b.kind.items != [] && BlockSettled(CanonicalBlock(u, b).value)
    ensures BlockNormal(u, CanonicalBlock(u, b).value)
    decreases b.kind, 0
  {
    var items := b.kind.items;
    var result := CanonicalItems(u, items);
    CanonicalItemsArePointwise(u, items);
    forall i: nat | i < |result| ensures RunNormal(u, result[i].content) {
      assert Settled(result[i].content);
      SettledRunIsNormal(u, items[i].content);
    }
  }

  /** When a merged run is settled, so was each block before merging. */
  lemma {:induction false} MergedPartsSettled(items: seq<Block>)
    requires Settled(MergeLists(items))
    ensures Settled(items)
    decreases |items|
  {
    if items != [] {
      var out, b := MergeLists(Init(items)), Last(items);
      var merged := MergeLists(items);
      InitLast(items);
      if out != [] && Mergeable(Last(out), b) {
        var n := |out| - 1;
        var all := Last(merged).kind.items;
        assert BlockSettled(merged[n]);
        assert all == Last(out).kind.items + b.kind.items;
        assert forall i: nat | i < |b.kind.items| :: b.kind.items[i] == all[|Last(out).kind.items| + i];
        assert forall i: nat | i < |Last(out).kind.items| :: Last(out).kind.items[i] == all[i];
        assert BlockSettled(b) && BlockSettled(Last(out));
        assert forall i: nat | i < n :: out[i] == merged[i];
      } else {
        assert merged == out + [b];
        assert forall i: nat | i < |out| :: out[i] == merged[i];
        assert merged[|out|] == b;
      }
      MergedPartsSettled(Init(items));
    }
  }

  lemma {:induction false} MergedAreNormal(u: Classifier, items: seq<Block>)
    requires forall i: nat | i < |items| :: BlockNormal(u, items[i])
    ensures forall i: nat | i < |MergeLists(items)| :: BlockNormal(u, MergeLists(items)[i])
    decreases |items|
  {
    if items != [] {
      var out, b := MergeLists(Init(items)), Last(items);
      MergedAreNormal(u, Init(items));
      if out != [] && Mergeable(Last(out), b) {
        MergedListIsNormal(u, Last(out), b);
      }
    }
  }

  lemma MergedListIsNormal(u: Classifier, prev: Block, b: Block)
    requires Mergeable(prev, b) && BlockNormal(u, prev) && BlockNormal(u, b)
    ensures BlockNormal(u, prev.(kind := prev.kind.(items := prev.kind.items + b.kind.items)))
  {
    var all := prev.kind.items + b.kind.items;
    forall i: nat | i < |all|
      ensures RunNormal(u, all[i].content) && (all[i].task.Some? ==> CarriesMarker(all[i].content))
    {
      if i >= |prev.kind.items| {
        assert all[i] == b.kind.items[i - |prev.kind.items|];
      }
    }
  }

  /** Canonicalizing a document twice is canonicalizing it once exactly when the first pass left it settled. */
  lemma DocumentIdempotentIff(u: Classifier, blocks: seq<Block>)
    ensures CanonicalRun(u, CanonicalRun(u, blocks)) == CanonicalRun(u, blocks) <==> Settled(CanonicalRun(u, blocks))
  {
    var once := CanonicalRun(u, blocks);
    DocumentFixedIffNormal(u, once);
    if RunNormal(u, once) {
      NormalIsSettled(u, once);
    }
    if Settled(once) {
      SettledRunIsNormal(u, blocks);
    }
  }

  // ---------------------------------------------------------------- documents one pass is enough for

  predicate TablePlain(t: Table) {
    && (forall j :: 0 <= j < |t.head| ==> CellFits(t.head[j]))
    && (forall i, j :: 0 <= i < |t.rows| && 0 <= j < |t.rows[i]| ==> CellFits(t.rows[i][j]))
  }

  /**
   * No mark inside its own kind, no soft break inside an item of a table cell, and no blank outer line in a math
   * body: what a caller can check before canonicalizing.
   */
  predicate Plain(blocks: seq<Block>)
    decreases blocks
  {
    forall i: nat | i < |blocks| :: BlockPlain(blocks[i])
  }

  predicate BlockPlain(b: Block)
    decreases b
  {
    match b.kind
    case Paragraph(c) => Fits(c, UNNESTED)
    case Heading(_, c) => Fits(c, UNNESTED)
    case List(_, _, items) => forall i: nat | i < |items| :: Plain(items[i].content)
    case Blockquote(inner) => Plain(inner)
    case Callout(_, _, title, body) => Fits(title, UNNESTED) && Plain(body)
    case MathBlock(m) => VisibleEdges(m)
    case TableBlock(t) => TablePlain(t)
    case _ => true
  }

  lemma UnnestedLineIsFlat(u: Classifier, c: seq<Inline>)
    requires Fits(c, UNNESTED)
    ensures Flat(Line(u, c)) && Flat(Line(u, FlattenBreaks(c)))
  {
    LineFits(u, c, UNNESTED);
    UnnestedIsFlat(Line(u, c), UNNESTED);
    FlattenBreaksFits(c, UNNESTED);
    LineFits(u, FlattenBreaks(c), Without(UNNESTED));
    UnnestedIsFlat(Line(u, FlattenBreaks(c)), Without(UNNESTED));
  }

  lemma PlainTableSettles(u: Classifier, t: Table)
    requires TablePlain(t) && CanonicalTable(u, t).Some?
    ensures TableSettled(CanonicalTable(u, t).value)
  {
    var cols := Columns(t);
    RowsFit(t.rows, cols);
    var r := CanonicalTable(u, t).value;
    forall c: seq<Inline> | CellFits(c) ensures Flat(Cell(u, c)) && NoSoftBreak(Cell(u, c)) {
      FittingCellStaysFitting(u, c);
      FittingCellIsFlat(Cell(u, c));
    }
    assert CellFits([]);
    forall j | 0 <= j < cols ensures Flat(r.head[j]) && NoSoftBreak(r.head[j]) {
      assert CellFits(if j < |t.head| then t.head[j] else []);
    }
    forall i, j | 0 <= i < |r.rows| && 0 <= j < |r.rows[i]|
      ensures Flat(r.rows[i][j]) && NoSoftBreak(r.rows[i][j])
    {
      assert r.rows[i] == CanonicalRow(u, t.rows[i], cols);
      assert CellFits(if j < |t.rows[i]| then t.rows[i][j] else []);
    }
  }

  lemma {:induction false} PlainRunSettles(u: Classifier, blocks: seq<Block>)
    requires Plain(blocks)
    ensures Settled(CanonicalRun(u, blocks))
    decreases blocks, 1
  {
    PlainKeptSettle(u, blocks);
    SettledStaysSettledMerged(KeepEach(u, blocks));
  }

  lemma {:induction false} PlainKeptSettle(u: Classifier, blocks: seq<Block>)
    requires Plain(blocks)
    ensures Settled(KeepEach(u, blocks))
    decreases blocks, 0
  {
    if blocks != [] {
      assert forall i: nat | i < |Init(blocks)| :: Init(blocks)[i] == blocks[i];
      assert BlockPlain(Last(blocks));
      PlainKeptSettle(u, Init(blocks));
      if CanonicalBlock(u, Last(blocks)).Some? {
        PlainBlockSettles(u, Last(blocks));
      }
    }
  }

  lemma {:induction false} PlainBlockSettles(u: Classifier, b: Block)
    requires BlockPlain(b) && CanonicalBlock(u, b).Some?
    ensures BlockSettled(CanonicalBlock(u, b).value)
    decreases b, 0
  {
    match b.kind
    case Paragraph(c) => UnnestedLineIsFlat(u, c);
    case Heading(_, c) => UnnestedLineIsFlat(u, c);
    case List(_, _, items) =>
      CanonicalItemsArePointwise(u, items);
      forall i: nat | i < |items| ensures Settled(CanonicalItems(u, items)[i].content) {
        PlainRunSettles(u, items[i].content);
      }
    case Blockquote(inner) => PlainRunSettles(u, inner);
    case Callout(_, _, title, body) => UnnestedLineIsFlat(u, title); PlainRunSettles(u, body);
    case MathBlock(m) => MathBodyIdempotentIff(m);
    case TableBlock(t) => PlainTableSettles(u, t);
    case _ =>
  }

  lemma {:induction false} SettledStaysSettledMerged(items: seq<Block>)
    requires Settled(items)
    ensures Settled(MergeLists(items))
    decreases |items|
  {
    if items != [] {
      var init, b := Init(items), Last(items);
      assert forall i: nat | i < |init| :: init[i] == items[i];
      assert BlockSettled(b);
      SettledStaysSettledMerged(init);
      var out := MergeLists(init);
      if out != [] && Mergeable(Last(out), b) {
        assert BlockSettled(Last(out));
        var all := Last(out).kind.items + b.kind.items;
        forall i: nat | i < |all| ensures Settled(all[i].content) {
          if i >= |Last(out).kind.items| {
            assert all[i] == b.kind.items[i - |Last(out).kind.items|];
          }
        }
      }
    }
  }

  /** `document` is idempotent on every plain document. */
  lemma PlainDocumentIsIdempotent(u: Classifier, blocks: seq<Block>)
    requires Plain(blocks)
    ensures CanonicalRun(u, CanonicalRun(u, blocks)) == CanonicalRun(u, blocks)
  {
    PlainRunSettles(u, blocks);
    DocumentIdempotentIff(u, blocks);
  }
}
