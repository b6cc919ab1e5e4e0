/** What canonicalization keeps of blocks besides their ink: kinds, levels, numbering, and the rectangle of a table
  * (crates/mb-core/src/canonical.rs). */
module BlockShapes {
  import opened Strings
  import opened Model
  import opened Flanking
  import opened Inlines
  import opened CanonicalInlines
  import opened Trimming
  import opened Cells
  import opened CanonicalBlocks

  // ---------------------------------------------------------------- tables

  /** The same cells, in as many columns as the widest part of the table has; cells that were not there are empty. */
  predicate SameRow(before: seq<seq<Inline>>, after: seq<seq<Inline>>, cols: nat) {
    && |before| <= cols == |after|
    && (forall i :: 0 <= i < |before| ==> InkAll(after[i]) == InkAll(before[i]))
    && (forall i :: |before| <= i < cols ==> after[i] == [])
  }

  /** The columns of a table: as many as its widest part has. */
  predicate IsWidth(t: Table, cols: nat) {
    && |t.alignments| <= cols && |t.head| <= cols && (forall i :: 0 <= i < |t.rows| ==> |t.rows[i]| <= cols)
    && (cols == |t.alignments| || cols == |t.head| || exists i :: 0 <= i < |t.rows| && cols == |t.rows[i]|)
  }

  predicate SameTable(t: Table, r: Table) {
    var cols := |r.head|;
    && IsWidth(t, cols) && |r.alignments| == cols && |r.rows| == |t.rows|
    && r.alignments[..|t.alignments|] == t.alignments
    && (forall i :: |t.alignments| <= i < cols ==> r.alignments[i] == Default)
    && SameRow(t.head, r.head, cols)
    && (forall i :: 0 <= i < |t.rows| ==> SameRow(t.rows[i], r.rows[i], cols))
  }

  lemma EmptyCell(u: Classifier)
    ensures Cell(u, []) == []
  {
    CellInk(u, []);
    LineShape(u, []);
    assert Line(u, []) == [];
  }

  lemma RowKeeps(u: Classifier, row: seq<seq<Inline>>, cols: nat)
    requires |row| <= cols
    ensures SameRow(row, CanonicalRow(u, row, cols), cols)
  {
    EmptyCell(u);
    forall i | 0 <= i < |row| ensures InkAll(CanonicalRow(u, row, cols)[i]) == InkAll(row[i]) {
      CellInk(u, row[i]);
    }
  }

  lemma {:induction false} WidestIs(rows: seq<seq<seq<Inline>>>)
    ensures forall i :: 0 <= i < |rows| ==> |rows[i]| <= WidestRow(rows)
    ensures WidestRow(rows) > 0 ==> exists i :: 0 <= i < |rows| && |rows[i]| == WidestRow(rows)
  {
    if rows != [] {
      WidestIs(Init(rows));
      InitLast(rows);
      assert forall i :: 0 <= i < |Init(rows)| ==> Init(rows)[i] == rows[i];
      if WidestRow(rows) > 0 && WidestRow(rows) != |Last(rows)| {
        var i :| 0 <= i < |Init(rows)| && |Init(rows)[i]| == WidestRow(Init(rows));
        assert |rows[i]| == WidestRow(rows);
      }
    }
  }

  lemma ColumnsAreWidth(t: Table)
    requires Columns(t) > 0
    ensures IsWidth(t, Columns(t))
  {
    WidestIs(t.rows);
  }

  /** Squaring a table off adds columns on the right, aligned as by default, and cells that are empty. */
  lemma TableKeeps(u: Classifier, t: Table)
    requires CanonicalTable(u, t).Some?
    ensures SameTable(t, CanonicalTable(u, t).value)
  {
    var cols := Columns(t);
    ColumnsAreWidth(t);
    RowsFit(t.rows, cols);
    RowKeeps(u, t.head, cols);
    forall i | 0 <= i < |t.rows| ensures SameRow(t.rows[i], CanonicalRow(u, t.rows[i], cols), cols) {
      RowKeeps(u, t.rows[i], cols);
    }
  }

  // ---------------------------------------------------------------- blocks

  /** Numbering starts where it started, at least at 1; without numbers it is 1. */
  function StartOf(ordered: bool, start: nat): nat {
    if ordered && start > 1 then start else 1
  }

  /** The same block, as far as its content is left aside. */
  predicate SameShape(b: Block, r: Block) {
    && b.anchor == r.anchor
    && match b.kind
       case Paragraph(_) => r.kind.Paragraph?
       case Heading(level, _) => r.kind.Heading? && r.kind.level == level
       case List(ordered, start, items) =>
         r.kind.List? && r.kind.ordered == ordered && r.kind.start == StartOf(ordered, start) && |r.kind.items| == |items|
       case Blockquote(_) => r.kind.Blockquote?
       case Callout(kind, fold, _, _) => r.kind.Callout? && r.kind.kind == kind && r.kind.fold == fold
       case CodeBlock(lang, _) => r.kind.CodeBlock? && r.kind.lang == lang
       case Divider => r.kind.Divider?
       case TableBlock(t) => r.kind.TableBlock? && SameTable(t, r.kind.table)
       case MathBlock(_) => r.kind.MathBlock?
  }

  /** A block that does not vanish keeps its shape. */
  lemma BlockKeepsShape(u: Classifier, b: Block)
    requires CanonicalBlock(u, b).Some?
    ensures SameShape(b, CanonicalBlock(u, b).value)
  {
    match b.kind
    case List(_, _, items) => CanonicalItemsArePointwise(u, items);
    case TableBlock(t) => TableKeeps(u, t);
    case _ =>
  }

  /** The blocks that do not vanish, in their order. */
  function Remaining(u: Classifier, blocks: seq<Block>): seq<Block> {
    if blocks == [] then [] else Remaining(u, Init(blocks)) + if Vanishes(u, Last(blocks)) then [] else [Last(blocks)]
  }

  /** Before lists are joined, a run has the shapes of its remaining blocks, one by one. */
  lemma {:induction false} RunKeepsShapes(u: Classifier, blocks: seq<Block>)
    ensures |KeepEach(u, blocks)| == |Remaining(u, blocks)|
    ensures forall i: nat | i < |Remaining(u, blocks)| :: SameShape(Remaining(u, blocks)[i], KeepEach(u, blocks)[i])
  {
    if blocks != [] {
      RunKeepsShapes(u, Init(blocks));
      KeptUnlessVanishes(u, Last(blocks));
      if !Vanishes(u, Last(blocks)) {
        BlockKeepsShape(u, Last(blocks));
      }
    }
  }

  // ---------------------------------------------------------------- lists side by side

  /** A list that can be joined with others of its kind. */
  predicate IsJoinable(b: Block, ordered: bool) {
    b.kind.List? && b.kind.ordered == ordered && b.anchor == None
  }

  function AllItems(lists: seq<Block>, ordered: bool): seq<ListItem>
    requires forall b :: b in lists ==> IsJoinable(b, ordered)
  {
    if lists == [] then [] else
      assert Last(lists) in lists && IsJoinable(Last(lists), ordered) && forall b :: b in Init(lists) ==> b in lists;
      AllItems(Init(lists), ordered) + Last(lists).kind.items
  }

  /** Lists of one kind side by side become one, which starts where the first started and has the items of all. */
  lemma {:induction false} ListsAreJoined(first: Block, more: seq<Block>, ordered: bool)
    requires IsJoinable(first, ordered) && forall b :: b in more ==> IsJoinable(b, ordered)
    ensures MergeLists([first] + more)
         == [Block(List(ordered, first.kind.start, first.kind.items + AllItems(more, ordered)), None)]
    decreases |more|
  {
    if more == [] {
      assert [first] + more == [first] && Init([first]) == [] && MergeLists([]) == [];
      assert first.kind.items + [] == first.kind.items;
      assert PushBlock([], first) == [first];
    } else {
      assert Last(more) in more && forall b :: b in Init(more) ==> b in more;
      InitOfConcat([first], more);
      ListsAreJoined(first, Init(more), ordered);
      var out := MergeLists([first] + Init(more));
      assert Init(out) == [];
      Associate(first.kind.items, AllItems(Init(more), ordered), Last(more).kind.items);
    }
  }
}
