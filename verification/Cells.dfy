/** Table cells: lines separated by hard breaks, each canonicalized alone (`table` in crates/mb-core/src/canonical.rs). */
module Cells {
  import opened Strings
  import opened Model
  import opened Flanking
  import opened Inlines
  import opened Settling
  import opened CanonicalInlines
  import opened Shapes
  import opened Trimming

  // ---------------------------------------------------------------- one line

  /** A paragraph's or a cell line's content: canonical, with nothing blank at its edges. */
  function Line(u: Classifier, items: seq<Inline>): seq<Inline> {
    TrimEdges(Canonical(u, items))
  }

  /** The normal form of a line. */
  predicate LineNormal(u: Classifier, items: seq<Inline>) {
    Normal(u, items, TOP) && Flat(items) && Trimmed(items)
  }

  /** Whatever it starts from, a line is normal and trimmed; only flatness may be missing. */
  lemma LineShape(u: Classifier, items: seq<Inline>)
    ensures Normal(u, Line(u, items), TOP) && Trimmed(Line(u, items))
    ensures InkAll(Line(u, items)) == InkAll(items)
    ensures WeightAll(Line(u, items)) <= WeightAll(items)
    ensures WeightAll(Line(u, items)) == WeightAll(items) ==> Line(u, items) == items
  {
    SettleIsNormal(u, PushAll([], CanonicalEach(u, items)), TOP);
    TrimEdgesIsNormal(u, Canonical(u, items));
    TrimEdgesIsTrimmed(Canonical(u, items));
    CanonicalKeepsInk(u, items);
    TrimEdgesInk(Canonical(u, items));
    CanonicalWeight(u, items);
  }

  lemma LineFixedIff(u: Classifier, items: seq<Inline>)
    ensures Line(u, items) == items <==> LineNormal(u, items)
  {
    if Line(u, items) == items {
      LineShape(u, items);
      CanonicalWeight(u, items);
      FixedIffNormalAndFlat(u, items);
    }
    if LineNormal(u, items) {
      FixedIffNormalAndFlat(u, items);
      TrimEdgesIsTrimmed(items);
    }
  }

  lemma LineFits(u: Classifier, items: seq<Inline>, s: Shape)
    requires Fits(items, s)
    ensures Fits(Line(u, items), s)
  {
    CanonicalFits(u, items, s);
    TrimEdgesFits(Canonical(u, items), s);
  }

  // ---------------------------------------------------------------- a cell

  /** The items behind the last top-level break: the line being collected. */
  function Tail(items: seq<Inline>): seq<Inline> {
    if items == [] || IsBreak(Last(items)) then [] else Tail(Init(items)) + [Last(items)]
  }

  /** Everything up to and including the last top-level break. */
  function Lead(items: seq<Inline>): seq<Inline> {
    if items == [] || IsBreak(Last(items)) then items else Lead(Init(items))
  }

  /** What has been emitted at the last top-level break. */
  function Flushed(u: Classifier, items: seq<Inline>): seq<Inline>
    decreases |items|, 0
  {
    if items == [] then []
    else if IsBreak(Last(items)) then Cell(u, Init(items)) + [HardBreak]
    else Flushed(u, Init(items))
  }

  function Cell(u: Classifier, items: seq<Inline>): seq<Inline>
    decreases |items|, 1
  {
    Flushed(u, items) + Line(u, Tail(items))
  }

  /** A cell as the program builds it: one loop that collects a line and flushes it at every break. */
  method CellLoop(u: Classifier, content: seq<Inline>) returns (output: seq<Inline>)
    ensures output == Cell(u, content)
  {
    output := [];
    var line := [];
    for i := 0 to |content|
      invariant line == Tail(content[..i])
      invariant output == Flushed(u, content[..i])
    {
      assert content[..i + 1] == content[..i] + [content[i]];
      SnocInit(content[..i], content[i]);
      if IsBreak(content[i]) {
        output := output + Line(u, line);
        output := output + [HardBreak];
        line := [];
      } else {
        line := line + [content[i]];
      }
    }
    assert content[..|content|] == content;
    output := output + Line(u, line);
  }

  lemma {:induction false} LeadAndTail(items: seq<Inline>)
    ensures Lead(items) + Tail(items) == items
    ensures forall i: nat | i < |Tail(items)| :: !IsBreak(Tail(items)[i])
    decreases |items|
  {
    if items != [] && !IsBreak(Last(items)) {
      LeadAndTail(Init(items));
      InitLast(items);
    }
  }

  lemma {:induction false} FlushedInk(u: Classifier, items: seq<Inline>)
    ensures InkAll(Flushed(u, items)) == InkAll(Lead(items))
    decreases |items|, 0
  {
    if items != [] {
      if IsBreak(Last(items)) {
        CellInk(u, Init(items));
        BreakAddsNoInk(Cell(u, Init(items)), HardBreak);
        BreakAddsNoInk(Init(items), Last(items));
        InitLast(items);
      } else {
        FlushedInk(u, Init(items));
      }
    }
  }

  lemma {:induction false} CellInk(u: Classifier, items: seq<Inline>)
    ensures InkAll(Cell(u, items)) == InkAll(items)
    decreases |items|, 1
  {
    FlushedInk(u, items);
    LineShape(u, Tail(items));
    LeadAndTail(items);
    InkConcat(Lead(items), Tail(items));
    InkConcat(Flushed(u, items), Line(u, Tail(items)));
  }

  // ---------------------------------------------------------------- fixed points

  /** Every top-level line is normal, and hard breaks separate the lines. */
  predicate CellNormal(u: Classifier, items: seq<Inline>)
    decreases |items|, 1
  {
    FlushedNormal(u, items) && LineNormal(u, Tail(items))
  }

  predicate FlushedNormal(u: Classifier, items: seq<Inline>)
    decreases |items|, 0
  {
    if items == [] then true
    else if IsBreak(Last(items)) then Last(items) == HardBreak && CellNormal(u, Init(items))
    else FlushedNormal(u, Init(items))
  }

  lemma {:induction false} FlushedFixed(u: Classifier, items: seq<Inline>)
    ensures WeightAll(Flushed(u, items)) <= WeightAll(Lead(items))
    ensures Flushed(u, items) == Lead(items) <==> FlushedNormal(u, items)
    decreases |items|, 0
  {
    if items != [] {
      if IsBreak(Last(items)) {
        var init, last := Init(items), Last(items);
        CellFixed(u, init);
        InitLast(items);
        WeightSnoc(init, last);
        WeightSnoc(Cell(u, init), HardBreak);
        SnocInit(Cell(u, init), HardBreak);
      } else {
        FlushedFixed(u, Init(items));
      }
    }
  }

  /** A cell is a fixed point exactly when it is in normal form. */
  lemma {:induction false} CellFixed(u: Classifier, items: seq<Inline>)
    ensures WeightAll(Cell(u, items)) <= WeightAll(items)
    ensures Cell(u, items) == items <==> CellNormal(u, items)
    decreases |items|, 1
  {
    var flushed, line := Flushed(u, items), Line(u, Tail(items));
    FlushedFixed(u, items);
    LineShape(u, Tail(items));
    LineFixedIff(u, Tail(items));
    LeadAndTail(items);
    WeightConcat(Lead(items), Tail(items));
    WeightConcat(flushed, line);
    if flushed + line == items {
      assert line == Tail(items);
      assert |flushed| == |Lead(items)|;
      assert flushed == items[..|flushed|] == Lead(items);
    }
  }

  // ---------------------------------------------------------------- what one pass guarantees

  predicate NoSoftBreak(items: seq<Inline>) {
    forall i: nat | i < |items| :: items[i] != SoftBreak
  }

  /** Every finished line is normal and trimmed, whatever separates the lines. */
  predicate LeadLines(u: Classifier, items: seq<Inline>)
    decreases |items|
  {
    if items == [] then true
    else LeadLines(u, Init(items)) && (IsBreak(Last(items)) ==> LineOk(u, Tail(Init(items))))
  }

  predicate LineOk(u: Classifier, line: seq<Inline>) {
    Normal(u, line, TOP) && Trimmed(line)
  }

  predicate AllLines(u: Classifier, items: seq<Inline>) {
    LeadLines(u, items) && LineOk(u, Tail(items))
  }

  lemma {:induction false} FlushedNormalIff(u: Classifier, items: seq<Inline>)
    ensures FlushedNormal(u, items) <==> LeadLines(u, items) && NoSoftBreak(items) && Flat(Lead(items))
    decreases |items|
  {
    if items != [] {
      var init, last := Init(items), Last(items);
      InitLast(items);
      FlushedNormalIff(u, init);
      FlatConcat(init, [last]);
      LeadAndTail(init);
      FlatConcat(Lead(init), Tail(init));
      assert NoSoftBreak(items) <==> NoSoftBreak(init) && last != SoftBreak;
    }
  }

  lemma CellNormalIff(u: Classifier, items: seq<Inline>)
    ensures CellNormal(u, items) <==> AllLines(u, items) && NoSoftBreak(items) && Flat(items)
  {
    FlushedNormalIff(u, items);
    LeadAndTail(items);
    FlatConcat(Lead(items), Tail(items));
  }

  lemma {:induction false} DropManyIsNormal(u: Classifier, items: seq<Inline>, n: nat)
    requires n <= |items| && Normal(u, items, TOP)
    ensures Normal(u, items[n..], TOP)
  {
    if n > 0 {
      DropManyIsNormal(u, items, n - 1);
      DropFirstIsNormal(u, items[n - 1..]);
      assert items[n - 1..][1..] == items[n..];
    }
  }

  lemma TrimBackIff(items: seq<Inline>)
    requires items != []
    ensures TrimBack(items) == items <==>
              !IsBreak(Last(items)) && (Last(items).Text? ==> TrimEnd(Last(items).text) == Last(items).text)
  {
    InitLast(items);
  }

  lemma TrimFrontIff(items: seq<Inline>)
    requires items != []
    ensures TrimFront(items) == items <==>
              !IsBreak(items[0]) && (items[0].Text? ==> TrimStart(items[0].text) == items[0].text)
  {
    if items[0].Text? {
      assert ([Text(TrimStart(items[0].text))] + items[1..])[0] == Text(TrimStart(items[0].text));
    }
  }

  lemma TailOfNormalIsNormal(u: Classifier, items: seq<Inline>)
    requires Normal(u, items, TOP)
    ensures Normal(u, Tail(items), TOP)
  {
    LeadAndTail(items);
    DropManyIsNormal(u, items, |Lead(items)|);
    assert Tail(items) == items[|Lead(items)|..];
  }

  lemma InitTrimmedAtFront(items: seq<Inline>)
    requires items != [] && TrimFront(items) == items
    ensures TrimFront(Init(items)) == Init(items)
  {
    TrimFrontIff(items);
    if Init(items) != [] {
      TrimFrontIff(Init(items));
    }
  }

  lemma LastIsApart(u: Classifier, items: seq<Inline>)
    requires |items| > 1 && Normal(u, items, TOP)
    ensures Apart(Last(Init(items)), Last(items))
  {
    assert NormalAt(u, items, |items| - 1, TOP);
    assert SpacedAt(items, |items| - 1);
  }

  /** The lines a normal run splits into are normal and trimmed: breaks in it carry no white space. */
  lemma {:induction false} NormalRunSplits(u: Classifier, items: seq<Inline>)
    requires Normal(u, items, TOP) && TrimFront(items) == items
    ensures LeadLines(u, items)
    ensures Normal(u, Tail(items), TOP) && TrimFront(Tail(items)) == Tail(items)
    decreases |items|
  {
    if items != [] {
      var init, last := Init(items), Last(items);
      DropLastIsNormal(u, items);
      InitTrimmedAtFront(items);
      NormalRunSplits(u, init);
      TailOfNormalIsNormal(u, items);
      if init != [] {
        LastIsApart(u, items);
      } else {
        TrimFrontIff(items);
      }
      if IsBreak(last) {
        LineBeforeBreak(u, init, last);
      } else {
        LineBehindBreak(init, last);
      }
    }
  }

  lemma LineBeforeBreak(u: Classifier, init: seq<Inline>, br: Inline)
    requires IsBreak(br) && (init != [] ==> Apart(Last(init), br))
    requires Normal(u, Tail(init), TOP) && TrimFront(Tail(init)) == Tail(init)
    ensures LineOk(u, Tail(init))
  {
    if Tail(init) != [] {
      TrimBackIff(Tail(init));
    }
  }

  lemma LineBehindBreak(init: seq<Inline>, item: Inline)
    requires !IsBreak(item) && TrimFront(Tail(init)) == Tail(init)
    requires init == [] ==> item.Text? ==> TrimStart(item.text) == item.text
    requires init != [] ==> Apart(Last(init), item)
    ensures TrimFront(Tail(init) + [item]) == Tail(init) + [item]
  {
    TrimFrontIff(Tail(init) + [item]);
    if Tail(init) != [] {
      TrimFrontIff(Tail(init));
    }
  }

  lemma {:induction false} LinesBehindHardBreak(u: Classifier, a: seq<Inline>, b: seq<Inline>)
    requires AllLines(u, a) && LeadLines(u, b)
    ensures LeadLines(u, a + [HardBreak] + b) && Tail(a + [HardBreak] + b) == Tail(b)
    decreases |b|
  {
    var front := a + [HardBreak];
    SnocInit(a, HardBreak);
    if b == [] {
      assert front + b == front;
    } else {
      LinesBehindHardBreak(u, a, Init(b));
      assert Init(front + b) == front + Init(b) && Last(front + b) == Last(b);
    }
  }

  lemma LineSplits(u: Classifier, items: seq<Inline>)
    ensures AllLines(u, Line(u, items))
  {
    var line := Line(u, items);
    LineShape(u, items);
    NormalRunSplits(u, line);
    if Tail(line) != [] {
      TrimBackIff(line);
      TrimBackIff(Tail(line));
    }
  }

  lemma {:induction false} CellLines(u: Classifier, items: seq<Inline>)
    ensures AllLines(u, Cell(u, items))
    decreases |items|, 1
  {
    LineSplits(u, Tail(items));
    FlushedLines(u, items, Line(u, Tail(items)));
  }

  lemma {:induction false} FlushedLines(u: Classifier, items: seq<Inline>, line: seq<Inline>)
    requires AllLines(u, line)
    ensures AllLines(u, Flushed(u, items) + line)
    decreases |items|, 0
  {
    if items == [] {
      assert [] + line == line;
    } else if IsBreak(Last(items)) {
      CellLines(u, Init(items));
      LinesBehindHardBreak(u, Cell(u, Init(items)), line);
    } else {
      FlushedLines(u, Init(items), line);
    }
  }

  /** A second pass over a cell changes nothing exactly when the first exposed no soft break and left it flat. */
  lemma CellIdempotentIff(u: Classifier, items: seq<Inline>)
    ensures Cell(u, Cell(u, items)) == Cell(u, items) <==>
              NoSoftBreak(Cell(u, items)) && Flat(Cell(u, items))
  {
    CellFixed(u, Cell(u, items));
    CellNormalIff(u, Cell(u, items));
    CellLines(u, items);
  }

  // ---------------------------------------------------------------- cells one pass is enough for

  /** Marks never inside their own kind, and no soft break below the top level. */
  const CELL := Shape({}, false, false, true)

  predicate CellFits(items: seq<Inline>) {
    forall i: nat | i < |items| :: IsBreak(items[i]) || FitsItem(items[i], CELL)
  }

  lemma {:induction false} FlushedFits(u: Classifier, items: seq<Inline>)
    requires CellFits(items)
    ensures Fits(Flushed(u, items), CELL)
    decreases |items|, 0
  {
    if items != [] {
      assert forall i: nat | i < |Init(items)| :: Init(items)[i] == items[i];
      if IsBreak(Last(items)) {
        FittingCellStaysFitting(u, Init(items));
        FitsConcat(Cell(u, Init(items)), [HardBreak], CELL);
      } else {
        FlushedFits(u, Init(items));
      }
    }
  }

  lemma {:induction false} FittingCellStaysFitting(u: Classifier, items: seq<Inline>)
    requires CellFits(items)
    ensures Fits(Cell(u, items), CELL)
    decreases |items|, 1
  {
    LeadAndTail(items);
    var tail := Tail(items);
    forall i: nat | i < |tail| ensures FitsItem(tail[i], CELL) {
      assert tail[i] == items[|Lead(items)| + i];
    }
    LineFits(u, tail, CELL);
    FlushedFits(u, items);
    FitsConcat(Flushed(u, items), Line(u, tail), CELL);
  }

  lemma FittingCellIsFlat(items: seq<Inline>)
    requires Fits(items, CELL)
    ensures Flat(items) && NoSoftBreak(items)
  {
    UnnestedIsFlat(items, CELL);
    assert forall i: nat | i < |items| :: FitsItem(items[i], CELL);
  }

  // ---------------------------------------------------------------- where one pass is not enough

  const SOFT_IN_STRONG := Mark(Strong, [Text("["), SoftBreak, Text("b")])
  const EXPOSED := [Text("a["), SoftBreak, Text("b")]

  lemma ExposedIsNormal(u: Classifier)
    ensures Normal(u, EXPOSED, TOP) && Trimmed(EXPOSED)
  {
    assert TrimEnd("a[") == "a[" && TrimStart("b") == "b" && TrimEnd("b") == "b" && TrimStart("a[") == "a[";
    assert SpacedAt(EXPOSED, 0) && SpacedAt(EXPOSED, 1) && SpacedAt(EXPOSED, 2);
  }

  lemma SoftInStrongIsFixed(u: Classifier)
    ensures CanonicalItem(u, SOFT_IN_STRONG) == SOFT_IN_STRONG
  {
    var c := SOFT_IN_STRONG.children;
    assert TrimEnd("[") == "[" && TrimStart("b") == "b";
    assert SpacedAt(c, 0) && SpacedAt(c, 1) && SpacedAt(c, 2);
    assert Normal(u, c, MarkContext(Strong, false));
    FlatNormalItemFixed(u, SOFT_IN_STRONG, false);
  }

  lemma PushExposedFront()
    ensures PushAll([Text("a")], [Text("["), SoftBreak]) == [Text("a["), SoftBreak]
  {
    assert Init([Text("["), SoftBreak]) == [Text("[")] && Init([Text("[")]) == [] && Init([Text("a")]) == [];
    assert "a" + "[" == "a[" && TrimEnd("a[") == "a[";
    assert PushAll([Text("a")], [Text("[")]) == [Text("a[")];
    assert TrimBeforeBreak([Text("a[")]) == [Text("a[")];
  }

  lemma PushExposedLast()
    ensures Push([Text("a["), SoftBreak], Text("b")) == EXPOSED
  {
    assert TrimStart("b") == "b";
  }

  lemma PushExposed()
    ensures PushAll([Text("a")], SOFT_IN_STRONG.children) == EXPOSED
  {
    var c := SOFT_IN_STRONG.children;
    assert Init(c) == [Text("["), SoftBreak] && Last(c) == Text("b");
    PushExposedFront();
    PushExposedLast();
  }

  lemma StrongIsDropped(u: Classifier)
    ensures DropMarks(u, [Text("a"), SOFT_IN_STRONG], TOP) == EXPOSED
  {
    var items := [Text("a"), SOFT_IN_STRONG];
    LettersAndDelimiters(u);
    assert DropPrefix(u, items, 0, TOP) == [] && DropPrefix(u, items, 1, TOP) == [Text("a")];
    assert MustDrop(u, items, 1, [Text("a")], TOP) by {
      assert !CanOpen(u, Strong, SOFT_IN_STRONG.children, Some('a'));
    }
    PushExposed();
  }

  lemma SoftInStrongIsBuiltAsIs(u: Classifier)
    ensures PushAll([], CanonicalEach(u, [Text("a"), SOFT_IN_STRONG])) == [Text("a"), SOFT_IN_STRONG]
  {
    var items := [Text("a"), SOFT_IN_STRONG];
    SoftInStrongIsFixed(u);
    CanonicalEachIsPointwise(u, items);
    assert CanonicalEach(u, items) == items;
    assert SpacedAt(items, 0) && SpacedAt(items, 1);
    SpacedIffPushable(items);
  }

  lemma SoftInStrongPass(u: Classifier)
    ensures SettlePass(u, [Text("a"), SOFT_IN_STRONG], TOP) == EXPOSED
  {
    StrongIsDropped(u);
    SettleEachFixed(u, EXPOSED, false);
  }

  lemma SoftInStrongSettles(u: Classifier)
    ensures Settle(u, [Text("a"), SOFT_IN_STRONG], TOP) == EXPOSED
  {
    SoftInStrongPass(u);
    ExposedIsNormal(u);
    SettledIffNormal(u, EXPOSED, TOP);
    assert [Text("a"), SOFT_IN_STRONG][1] != EXPOSED[1];
  }

  lemma SoftInStrongCanonical(u: Classifier)
    ensures Canonical(u, [Text("a"), SOFT_IN_STRONG]) == EXPOSED
  {
    SoftInStrongIsBuiltAsIs(u);
    SoftInStrongSettles(u);
  }

  lemma ExposedLine(u: Classifier)
    ensures Line(u, [Text("a"), SOFT_IN_STRONG]) == EXPOSED
  {
    SoftInStrongCanonical(u);
    ExposedIsNormal(u);
    TrimEdgesIsTrimmed(EXPOSED);
  }

  lemma ExposedHasOneLine(u: Classifier)
    ensures Tail([Text("a"), SOFT_IN_STRONG]) == [Text("a"), SOFT_IN_STRONG]
    ensures Flushed(u, [Text("a"), SOFT_IN_STRONG]) == []
  {
    var items := [Text("a"), SOFT_IN_STRONG];
    assert Init(items) == [Text("a")] && Init([Text("a")]) == [];
    assert Tail([Text("a")]) == [Text("a")];
    assert Flushed(u, [Text("a")]) == [];
  }

  /** A soft break inside a mark that gets dropped: the second pass turns it into a hard break. */
  lemma CellNotIdempotent(u: Classifier)
    ensures Cell(u, [Text("a"), SOFT_IN_STRONG]) == EXPOSED
    ensures Cell(u, Cell(u, [Text("a"), SOFT_IN_STRONG])) != Cell(u, [Text("a"), SOFT_IN_STRONG])
  {
    var items := [Text("a"), SOFT_IN_STRONG];
    ExposedLine(u);
    ExposedHasOneLine(u);
    assert [] + EXPOSED == EXPOSED;
    assert EXPOSED[1] == SoftBreak;
    CellIdempotentIff(u, items);
  }
}
