/**
 * How many marks a settling pass removes (`settle` and `drop_unexpressible_marks` in
 * crates/mb-core/src/canonical.rs): never fewer than none, one at least on a well-spaced tree, and none on some others.
 */
module Marks {
  import opened Strings
  import opened Model
  import opened Syntax
  import opened Flanking
  import opened Inlines
  import opened Settling

  // ---------------------------------------------------------------- counting marks

  /** The marks of a tree, at every depth. */
  function Marks(item: Inline): nat
    decreases item
  {
    match item
    case Mark(_, c) => 1 + MarksAll(c)
    case Link(_, _, c) => MarksAll(c)
    case _ => 0
  }

  function MarksAll(items: seq<Inline>): nat
    decreases items
  {
    if items == [] then 0 else MarksAll(Init(items)) + Marks(Last(items))
  }

  lemma MarksSnoc(a: seq<Inline>, x: Inline)
    ensures MarksAll(a + [x]) == MarksAll(a) + Marks(x)
  {
    SnocInit(a, x);
  }

  lemma MarksPair(a: seq<Inline>, x: Inline, y: Inline)
    ensures MarksAll(a + [x, y]) == MarksAll(a) + Marks(x) + Marks(y)
  {
    MarksSnoc(a, x);
    MarksSnoc(a + [x], y);
    assert a + [x] + [y] == a + [x, y];
  }

  // ---------------------------------------------------------------- a push

  /** The item becomes one with the mark in front of it. */
  predicate Joins(out: seq<Inline>, item: Inline) {
    out != [] && Last(out).Mark? && item.Mark? && Last(out).kind == item.kind
  }

  lemma PushBreakMarks(out: seq<Inline>, item: Inline)
    requires IsBreak(item)
    ensures MarksAll(PushBreak(TrimBeforeBreak(out), item)) == MarksAll(out)
  {
    if out != [] && Last(out).Text? {
      MarksSnoc(Init(out), Text(TrimEnd(Last(out).text)));
    }
    var trimmed := TrimBeforeBreak(out);
    MarksSnoc(trimmed, item);
    if trimmed != [] {
      MarksSnoc(Init(trimmed), HardBreak);
    }
  }

  lemma {:induction false} PushTagMarks(out: seq<Inline>, tag: string)
    requires tag != "" && Last(tag) == '_'
    ensures MarksAll(Push(out, Tag(tag))) == MarksAll(out)
    decreases Weight(Tag(tag)), 0
  {
    var name := Init(tag);
    if name == "" {
      PushMarks(out, Text("#_"));
    } else {
      PushMarks(out, Tag(name));
      PushMarks(Push(out, Tag(name)), Text("_"));
    }
  }

  lemma AbsorbedMarks(init: seq<Inline>, tag: string, text: string)
    requires Absorbs(tag, text)
    ensures MarksAll(init + Absorbed(tag, text)) == MarksAll(init)
  {
    var combined := tag + text;
    var n := TagLength(combined).value;
    if n == |combined| {
      MarksSnoc(init, Tag(combined));
    } else {
      MarksPair(init, Tag(combined[..n]), Text(combined[n..]));
    }
  }

  lemma {:induction false} PushLastMarks(init: seq<Inline>, last: Inline, item: Inline)
    ensures if last.Mark? && item.Mark? && last.kind == item.kind
            then MarksAll(PushLast(init, last, item)) < MarksAll(init) + Marks(last) + Marks(item)
            else MarksAll(PushLast(init, last, item)) == MarksAll(init) + Marks(last) + Marks(item)
    decreases Weight(item), 0
  {
    MarksPair(init, last, item);
    if last.Tag? && item.Text? && Absorbs(last.name, item.text) {
      AbsorbedMarks(init, last.name, item.text);
    } else if last.Text? && item.Text? {
      MarksSnoc(init, Text(last.text + item.text));
    } else if last.Code? && item.Code? {
      MarksSnoc(init, Code(last.code + item.code));
    } else if last.Math? && item.Math? {
      MarksSnoc(init, Math(last.tex + item.tex));
    } else if last.Mark? && item.Mark? && last.kind == item.kind {
      MarksSnoc(init, Mark(last.kind, PushAll(last.children, item.children)));
      PushAllMarks(last.children, item.children);
    }
  }

  /** A push costs a mark exactly when two of one kind become one. */
  lemma {:induction false} PushMarks(out: seq<Inline>, item: Inline)
    ensures if Joins(out, item) then MarksAll(Push(out, item)) < MarksAll(out) + Marks(item)
            else MarksAll(Push(out, item)) == MarksAll(out) + Marks(item)
    decreases Weight(item), 2
  {
    if item == Text("") {
    } else if IsBreak(item) {
      PushBreakMarks(out, item);
    } else if item.Tag? && item.name != "" && Last(item.name) == '_' {
      PushTagMarks(out, item.name);
    } else if out == [] {
      MarksSnoc([], item);
      assert [] + [item] == [item];
    } else if IsBreak(Last(out)) && item.Text? {
      MarksSnoc(out, Text(TrimStart(item.text)));
    } else {
      PushLastMarks(Init(out), Last(out), item);
    }
  }

  lemma {:induction false} PushAllMarks(out: seq<Inline>, items: seq<Inline>)
    ensures MarksAll(PushAll(out, items)) <= MarksAll(out) + MarksAll(items)
    decreases WeightAll(items), 3
  {
    if items != [] {
      PushAllMarks(out, Init(items));
      PushMarks(PushAll(out, Init(items)), Last(items));
    }
  }

  // ---------------------------------------------------------------- one level of a pass

  /** Item `i` neither is dropped nor joins the mark in front of it. */
  predicate KeptAt(u: Classifier, items: seq<Inline>, i: nat, ctx: Context)
    requires i < |items|
  {
    var out := DropPrefix(u, items, i, ctx);
    !MustDrop(u, items, i, out, ctx) && !Joins(out, items[i])
  }

  lemma DropStepMarks(u: Classifier, items: seq<Inline>, n: nat, ctx: Context)
    requires n < |items|
    ensures var before, out := DropPrefix(u, items, n, ctx), DropPrefix(u, items, n + 1, ctx);
      if KeptAt(u, items, n, ctx) then MarksAll(out) == MarksAll(before) + Marks(items[n])
      else MarksAll(out) < MarksAll(before) + Marks(items[n])
  {
    var before := DropPrefix(u, items, n, ctx);
    if MustDrop(u, items, n, before, ctx) {
      PushAllMarks(before, items[n].children);
    } else {
      PushMarks(before, items[n]);
    }
  }

  /** A pass removes no mark from a run exactly when it keeps every item as it comes. */
  lemma {:induction false} DropPrefixMarks(u: Classifier, items: seq<Inline>, n: nat, ctx: Context)
    requires n <= |items|
    ensures MarksAll(DropPrefix(u, items, n, ctx)) <= MarksAll(items[..n])
    ensures MarksAll(DropPrefix(u, items, n, ctx)) == MarksAll(items[..n]) <==>
            forall i: nat | i < n :: KeptAt(u, items, i, ctx)
  {
    if n > 0 {
      DropPrefixMarks(u, items, n - 1, ctx);
      DropStepMarks(u, items, n - 1, ctx);
      TakeSnoc(items, n - 1);
      MarksSnoc(items[..n - 1], items[n - 1]);
    }
  }

  lemma {:induction false} SpacedPrefixKept(u: Classifier, items: seq<Inline>, n: nat, ctx: Context)
    requires n <= |items| && Spaced(items) && forall i: nat | i < n :: KeptAt(u, items, i, ctx)
    ensures DropPrefix(u, items, n, ctx) == items[..n]
  {
    if n > 0 {
      SpacedPrefixKept(u, items, n - 1, ctx);
      assert SpacedAt(items, n - 1) && KeptAt(u, items, n - 1, ctx);
      PushWeight(items[..n - 1], items[n - 1]);
      TakeSnoc(items, n - 1);
    }
  }

  predicate LevelKept(u: Classifier, items: seq<Inline>, ctx: Context) {
    forall i: nat | i < |items| :: KeptAt(u, items, i, ctx)
  }

  lemma DropMarksCount(u: Classifier, items: seq<Inline>, ctx: Context)
    ensures MarksAll(DropMarks(u, items, ctx)) <= MarksAll(items)
    ensures MarksAll(DropMarks(u, items, ctx)) == MarksAll(items) <==> LevelKept(u, items, ctx)
    ensures Spaced(items) && LevelKept(u, items, ctx) ==> DropMarks(u, items, ctx) == items
  {
    DropPrefixMarks(u, items, |items|, ctx);
    assert items[..|items|] == items;
    if Spaced(items) && LevelKept(u, items, ctx) {
      SpacedPrefixKept(u, items, |items|, ctx);
    }
  }

  // ---------------------------------------------------------------- every depth

  /** No pass of settling the run drops or joins a mark, at any depth. */
  predicate SettleKept(u: Classifier, items: seq<Inline>, ctx: Context)
    decreases WeightAll(items), 2, 0
  {
    DropMarksWeight(u, items, ctx);
    && LevelKept(u, items, ctx)
    && EachKept(u, DropMarks(u, items, ctx), ctx.inside)
    && (SettlePass(u, items, ctx) == items || SettleKept(u, SettlePass(u, items, ctx), ctx))
  }

  predicate EachKept(u: Classifier, items: seq<Inline>, inside: bool)
    decreases WeightAll(items), 1, |items|
  {
    items == [] || (EachKept(u, Init(items), inside) && ItemKept(u, Last(items), inside))
  }

  predicate ItemKept(u: Classifier, item: Inline, inside: bool)
    decreases Weight(item), 0, 0
  {
    match item
    case Mark(k, c) => SettleKept(u, c, MarkContext(k, inside))
    case Link(_, _, c) => SettleKept(u, c, LinkContext(inside))
    case _ => true
  }

  /** One pass drops and joins nothing: not in this run, and not while it settles what the marks and links hold. */
  predicate PassKept(u: Classifier, items: seq<Inline>, ctx: Context) {
    LevelKept(u, items, ctx) && EachKept(u, DropMarks(u, items, ctx), ctx.inside)
  }

  /** Settling never adds a mark, and keeps their number exactly when no pass drops or joins one. */
  lemma {:induction false} SettleMarks(u: Classifier, items: seq<Inline>, ctx: Context)
    ensures MarksAll(Settle(u, items, ctx)) <= MarksAll(items)
    ensures MarksAll(Settle(u, items, ctx)) == MarksAll(items) <==> SettleKept(u, items, ctx)
    decreases WeightAll(items), 2, 0
  {
    var next := SettlePass(u, items, ctx);
    DropMarksWeight(u, items, ctx);
    DropMarksCount(u, items, ctx);
    SettleEachMarks(u, DropMarks(u, items, ctx), ctx.inside);
    if next != items {
      SettleMarks(u, next, ctx);
    }
  }

  lemma {:induction false} SettleEachMarks(u: Classifier, items: seq<Inline>, inside: bool)
    ensures MarksAll(SettleEach(u, items, inside)) <= MarksAll(items)
    ensures MarksAll(SettleEach(u, items, inside)) == MarksAll(items) <==> EachKept(u, items, inside)
    decreases WeightAll(items), 1, |items|
  {
    if items != [] {
      SettleEachMarks(u, Init(items), inside);
      SettleItemMarks(u, Last(items), inside);
      MarksSnoc(SettleEach(u, Init(items), inside), SettleItem(u, Last(items), inside));
    }
  }

  lemma {:induction false} SettleItemMarks(u: Classifier, item: Inline, inside: bool)
    ensures Marks(SettleItem(u, item, inside)) <= Marks(item)
    ensures Marks(SettleItem(u, item, inside)) == Marks(item) <==> ItemKept(u, item, inside)
    decreases Weight(item), 0, 0
  {
    match item
    case Mark(k, c) => SettleMarks(u, c, MarkContext(k, inside));
    case Link(_, _, c) => SettleMarks(u, c, LinkContext(inside));
    case _ =>
  }

  /** At every depth, no push would change the run. */
  predicate Deep(items: seq<Inline>)
    decreases items
  {
    Spaced(items) && forall i: nat | i < |items| :: DeepWithin(items[i])
  }

  predicate DeepWithin(item: Inline)
    decreases item
  {
    match item
    case Mark(_, c) => Deep(c)
    case Link(_, _, c) => Deep(c)
    case _ => true
  }

  lemma {:induction false} DeepEachKept(u: Classifier, items: seq<Inline>, inside: bool)
    requires EachKept(u, items, inside) && forall i: nat | i < |items| :: DeepWithin(items[i])
    ensures SettleEach(u, items, inside) == items
    decreases WeightAll(items), 1, |items|
  {
    if items != [] {
      assert forall i: nat | i < |Init(items)| :: Init(items)[i] == items[i];
      DeepEachKept(u, Init(items), inside);
      DeepItemKept(u, Last(items), inside);
      InitLast(items);
    }
  }

  lemma {:induction false} DeepItemKept(u: Classifier, item: Inline, inside: bool)
    requires ItemKept(u, item, inside) && DeepWithin(item)
    ensures SettleItem(u, item, inside) == item
    decreases Weight(item), 0, 0
  {
    match item
    case Mark(k, c) => DeepKept(u, c, MarkContext(k, inside));
    case Link(_, _, c) => DeepKept(u, c, LinkContext(inside));
    case _ =>
  }

  lemma {:induction false} DeepKept(u: Classifier, items: seq<Inline>, ctx: Context)
    requires PassKept(u, items, ctx) && Deep(items)
    ensures SettlePass(u, items, ctx) == items && Settle(u, items, ctx) == items
    decreases WeightAll(items), 2, 0
  {
    DropMarksCount(u, items, ctx);
    DeepEachKept(u, items, ctx.inside);
  }

  // ---------------------------------------------------------------- what a pass removes

  lemma PassMarks(u: Classifier, items: seq<Inline>, ctx: Context)
    ensures MarksAll(SettlePass(u, items, ctx)) <= MarksAll(items)
    ensures MarksAll(SettlePass(u, items, ctx)) == MarksAll(items) <==> PassKept(u, items, ctx)
  {
    DropMarksCount(u, items, ctx);
    SettleEachMarks(u, DropMarks(u, items, ctx), ctx.inside);
  }

  /** What the comment at the loop says of a pass: it removes a mark, unless it was the last and changed nothing. */
  predicate RemovesAMark(u: Classifier, items: seq<Inline>, ctx: Context) {
    SettlePass(u, items, ctx) == items || MarksAll(SettlePass(u, items, ctx)) < MarksAll(items)
  }

  /** It is true of a pass exactly where the run is in normal form already, or some mark is dropped or joined. */
  lemma RemovesAMarkIff(u: Classifier, items: seq<Inline>, ctx: Context)
    ensures RemovesAMark(u, items, ctx) <==> Normal(u, items, ctx) || !PassKept(u, items, ctx)
  {
    PassMarks(u, items, ctx);
    SettleIsFixpoint(u, items, ctx);
    SettledIffNormal(u, items, ctx);
  }

  /** So it is true, in every context, of a tree in which no push would change anything; and so it is of settling. */
  lemma DeepRemovesAMark(u: Classifier, items: seq<Inline>, ctx: Context)
    requires Deep(items)
    ensures RemovesAMark(u, items, ctx)
    ensures Settle(u, items, ctx) == items || MarksAll(Settle(u, items, ctx)) < MarksAll(items)
  {
    PassMarks(u, items, ctx);
    SettleMarks(u, items, ctx);
    if PassKept(u, items, ctx) {
      DeepKept(u, items, ctx);
    }
  }

  // ---------------------------------------------------------------- passes that remove none

  /** A blank text behind a break: building the run leaves an empty text, which the first pass takes away. */
  lemma BlankIsPushed()
    ensures PushAll([], [SoftBreak, Text(" ")]) == [SoftBreak, Text("")]
  {
    assert Init([SoftBreak, Text(" ")]) == [SoftBreak] && Init([SoftBreak]) == [];
    assert PushAll([], [SoftBreak]) == [SoftBreak];
    assert TrimStart(" ") == "";
  }

  lemma EmptyTextGoes(u: Classifier, ctx: Context)
    ensures SettlePass(u, [SoftBreak, Text("")], ctx) == [SoftBreak]
  {
    var items := [SoftBreak, Text("")];
    assert DropPrefix(u, items, 1, ctx) == [SoftBreak];
    assert DropPrefix(u, items, 2, ctx) == [SoftBreak];
    SettleEachFixed(u, [SoftBreak], ctx.inside);
  }

  lemma ScansTag()
    ensures TagLength("a_b") == Some(3) && TagLength("a_") == Some(1)
  {
    TagRunUnique("a_b", 3);
    TagRunUnique("a_", 2);
    assert "a_b"[..3] == "a_b" && "a_"[..2] == "a_" && IsLetter("a_b"[0]) && IsLetter("a_"[0]);
    assert Init("a_") == "a" && Last("a_") == '_';
  }

  lemma TagIsPushed()
    ensures Push([], Tag("a_")) == [Tag("a"), Text("_")]
  {
    ScansTag();
    assert Init("a_") == "a" && Last("a_") == '_' && "a" + "_" == "a_";
    assert Push([], Tag("a")) == [Tag("a")] && Init([Tag("a")]) == [];
    assert [] + [Tag("a"), Text("_")] == [Tag("a"), Text("_")];
  }

  /** A text behind a tag that sheds its underscore: building the run leaves what the tag absorbs in the first pass. */
  lemma UnderscoreIsPushed()
    ensures PushAll([], [Tag("a_"), Text("b")]) == [Tag("a"), Text("_b")]
  {
    TagIsPushed();
    assert Init([Tag("a_"), Text("b")]) == [Tag("a_")] && Init([Tag("a_")]) == [];
    assert PushAll([], [Tag("a_")]) == [Tag("a"), Text("_")];
    assert Init([Tag("a"), Text("_")]) == [Tag("a")] && "_" + "b" == "_b";
    assert [Tag("a")] + [Text("_b")] == [Tag("a"), Text("_b")];
  }

  lemma TagGrows()
    ensures Push([Tag("a")], Text("_b")) == [Tag("a_b")]
  {
    ScansTag();
    assert "a" + "_b" == "a_b" && |"a_b"| == 3;
    assert Absorbs("a", "_b") && Absorbed("a", "_b") == [Tag("a_b")];
    assert Init([Tag("a")]) + [Tag("a_b")] == [Tag("a_b")];
  }

  lemma TextIsAbsorbed(u: Classifier, ctx: Context)
    ensures SettlePass(u, [Tag("a"), Text("_b")], ctx) == [Tag("a_b")]
  {
    var items := [Tag("a"), Text("_b")];
    TagGrows();
    assert DropPrefix(u, items, 1, ctx) == [Tag("a")];
    assert DropPrefix(u, items, 2, ctx) == [Tag("a_b")];
    SettleEachFixed(u, [Tag("a_b")], ctx.inside);
  }

  lemma NoMarks(a: Inline, b: Inline)
    requires Marks(a) == 0 && Marks(b) == 0
    ensures MarksAll([a, b]) == 0
  {
    MarksPair([], a, b);
    assert [] + [a, b] == [a, b];
  }

  lemma ChangesWithoutMarks(u: Classifier, items: seq<Inline>, ctx: Context)
    requires MarksAll(items) == 0 && SettlePass(u, items, ctx) != items
    ensures !RemovesAMark(u, items, ctx)
  {
  }

  lemma BlankPass(u: Classifier, ctx: Context)
    ensures MarksAll([SoftBreak, Text("")]) == 0 && SettlePass(u, [SoftBreak, Text("")], ctx) == [SoftBreak]
    ensures !RemovesAMark(u, [SoftBreak, Text("")], ctx)
  {
    EmptyTextGoes(u, ctx);
    NoMarks(SoftBreak, Text(""));
    ChangesWithoutMarks(u, [SoftBreak, Text("")], ctx);
  }

  lemma UnderscorePass(u: Classifier, ctx: Context)
    ensures MarksAll([Tag("a"), Text("_b")]) == 0 && SettlePass(u, [Tag("a"), Text("_b")], ctx) == [Tag("a_b")]
    ensures !RemovesAMark(u, [Tag("a"), Text("_b")], ctx)
  {
    TextIsAbsorbed(u, ctx);
    NoMarks(Tag("a"), Text("_b"));
    ChangesWithoutMarks(u, [Tag("a"), Text("_b")], ctx);
  }

  /** Two runs without a mark that a pass changes, and the pushes that build them: an empty text goes, a tag grows. */
  lemma PassWithoutMarks(u: Classifier, ctx: Context)
    ensures PushAll([], [SoftBreak, Text(" ")]) == [SoftBreak, Text("")]
    ensures MarksAll([SoftBreak, Text("")]) == 0 && SettlePass(u, [SoftBreak, Text("")], ctx) == [SoftBreak]
    ensures !RemovesAMark(u, [SoftBreak, Text("")], ctx)
    ensures PushAll([], [Tag("a_"), Text("b")]) == [Tag("a"), Text("_b")]
    ensures MarksAll([Tag("a"), Text("_b")]) == 0 && SettlePass(u, [Tag("a"), Text("_b")], ctx) == [Tag("a_b")]
    ensures !RemovesAMark(u, [Tag("a"), Text("_b")], ctx)
  {
    BlankIsPushed();
    BlankPass(u, ctx);
    UnderscoreIsPushed();
    UnderscorePass(u, ctx);
  }
}
