/**
 * Restrictions on runs that every canonicalization step keeps, and what follows from them: a run in which no
 * mark occurs inside its own kind is canonicalized once and for all.
 */
module Shapes {
  import opened Strings
  import opened Model
  import opened Flanking
  import opened Inlines
  import opened Settling
  import opened CanonicalInlines

  /**
   * What a run may hold: marks of no kind in `above`, and breaks only where allowed. Unless `nested`, a mark's
   * own kind is added to `above` for everything inside it.
   */
  datatype Shape = Shape(above: set<MarkKind>, nested: bool, soft: bool, hard: bool)

  /** No mark occurs, however deep, inside its own kind. */
  const UNNESTED := Shape({}, false, true, true)

  /** No line break at any depth. */
  const BREAK_FREE := Shape({}, true, false, false)

  function Under(s: Shape, k: MarkKind): Shape {
    if s.nested then s else s.(above := s.above + {k})
  }

  predicate Fits(items: seq<Inline>, s: Shape)
    decreases items
  {
    forall i: nat | i < |items| :: FitsItem(items[i], s)
  }

  predicate FitsItem(item: Inline, s: Shape)
    decreases item
  {
    match item
    case Mark(k, c) => k !in s.above && Fits(c, Under(s, k))
    case Link(_, _, c) => Fits(c, s)
    case SoftBreak => s.soft
    case HardBreak => s.hard
    case _ => true
  }

  predicate Allows(loose: Shape, s: Shape) {
    && loose.above <= s.above
    && loose.nested == s.nested
    && (s.soft ==> loose.soft)
    && (s.hard ==> loose.hard)
  }

  lemma {:induction false} FitsLooser(items: seq<Inline>, s: Shape, loose: Shape)
    requires Fits(items, s) && Allows(loose, s)
    ensures Fits(items, loose)
    decreases items
  {
    forall i: nat | i < |items| ensures FitsItem(items[i], loose) {
      assert FitsItem(items[i], s);
      match items[i]
      case Mark(k, c) => FitsLooser(c, Under(s, k), Under(loose, k));
      case Link(_, _, c) => FitsLooser(c, s, loose);
      case _ =>
    }
  }

  lemma {:induction false} UnnestedIsFlat(items: seq<Inline>, s: Shape)
    requires Fits(items, s) && !s.nested
    ensures Flat(items)
    decreases items
  {
    forall i: nat | i < |items| ensures FlatItem(items[i]) {
      assert FitsItem(items[i], s);
      match items[i]
      case Mark(k, c) =>
        UnnestedIsFlat(c, Under(s, k));
        assert forall j: nat | j < |c| :: FitsItem(c[j], Under(s, k));
      case Link(_, _, c) => UnnestedIsFlat(c, s);
      case _ =>
    }
  }

  lemma FitsConcat(a: seq<Inline>, b: seq<Inline>, s: Shape)
    ensures Fits(a + b, s) <==> Fits(a, s) && Fits(b, s)
  {
    var all := a + b;
    assert forall i: nat | i < |a| :: all[i] == a[i];
    assert forall i: nat | i < |b| :: all[|a| + i] == b[i];
    if Fits(all, s) {
      forall i: nat | i < |b| ensures FitsItem(b[i], s) {
        assert FitsItem(all[|a| + i], s);
      }
    }
  }

  lemma {:induction false} PushFits(out: seq<Inline>, item: Inline, s: Shape)
    requires Fits(out, s) && FitsItem(item, s)
    ensures Fits(Push(out, item), s)
    decreases Weight(item), 1
  {
    if item == Text("") {
    } else if IsBreak(item) {
      assert Fits(TrimBeforeBreak(out), s);
      assert Fits(PushBreak(TrimBeforeBreak(out), item), s);
    } else if item.Tag? && item.name != "" && Last(item.name) == '_' {
      var name := Init(item.name);
      if name == "" {
        PushFits(out, Text("#_"), s);
      } else {
        PushFits(out, Tag(name), s);
        PushFits(Push(out, Tag(name)), Text("_"), s);
      }
    } else if out != [] {
      var last := Last(out);
      assert FitsItem(last, s);
      assert Fits(Init(out), s);
      if last.Mark? && item.Mark? && last.kind == item.kind {
        PushAllFits(last.children, item.children, Under(s, last.kind));
      }
    }
  }

  lemma {:induction false} PushAllFits(out: seq<Inline>, items: seq<Inline>, s: Shape)
    requires Fits(out, s) && Fits(items, s)
    ensures Fits(PushAll(out, items), s)
    decreases WeightAll(items), 2
  {
    if items != [] {
      InitLast(items);
      FitsConcat(Init(items), [Last(items)], s);
      PushAllFits(out, Init(items), s);
      PushFits(PushAll(out, Init(items)), Last(items), s);
    }
  }

  lemma {:induction false} DropFits(u: Classifier, items: seq<Inline>, n: nat, ctx: Context, s: Shape)
    requires n <= |items| && Fits(items, s)
    ensures Fits(DropPrefix(u, items, n, ctx), s)
  {
    if n > 0 {
      DropFits(u, items, n - 1, ctx, s);
      var out, item := DropPrefix(u, items, n - 1, ctx), items[n - 1];
      assert FitsItem(item, s);
      if MustDrop(u, items, n - 1, out, ctx) {
        FitsLooser(item.children, Under(s, item.kind), s);
        PushAllFits(out, item.children, s);
      } else {
        PushFits(out, item, s);
      }
    }
  }

  lemma {:induction false} SettleFits(u: Classifier, items: seq<Inline>, ctx: Context, s: Shape)
    requires Fits(items, s)
    ensures Fits(Settle(u, items, ctx), s)
    decreases WeightAll(items), 2, 0
  {
    DropMarksWeight(u, items, ctx);
    DropFits(u, items, |items|, ctx, s);
    SettleEachFits(u, DropMarks(u, items, ctx), ctx.inside, s);
    var next := SettlePass(u, items, ctx);
    if next != items {
      SettleFits(u, next, ctx, s);
    }
  }

  lemma {:induction false} SettleEachFits(u: Classifier, items: seq<Inline>, inside: bool, s: Shape)
    requires Fits(items, s)
    ensures Fits(SettleEach(u, items, inside), s)
    decreases WeightAll(items), 1, |items|
  {
    if items != [] {
      InitLast(items);
      FitsConcat(Init(items), [Last(items)], s);
      WeightSnoc(Init(items), Last(items));
      assert FitsItem([Last(items)][0], s);
      SettleEachFits(u, Init(items), inside, s);
      SettleItemFits(u, Last(items), inside, s);
      FitsConcat(SettleEach(u, Init(items), inside), [SettleItem(u, Last(items), inside)], s);
    }
  }

  lemma {:induction false} SettleItemFits(u: Classifier, item: Inline, inside: bool, s: Shape)
    requires FitsItem(item, s)
    ensures FitsItem(SettleItem(u, item, inside), s)
    decreases Weight(item), 0, 0
  {
    match item
    case Mark(k, c) => SettleFits(u, c, MarkContext(k, inside), Under(s, k));
    case Link(_, _, c) => SettleFits(u, c, LinkContext(inside), s);
    case _ =>
  }

  lemma {:induction false} UnwrapFits(children: seq<Inline>, kind: MarkKind, s: Shape)
    requires Fits(children, s)
    ensures Fits(UnwrapSame(children, kind), s)
    decreases children
  {
    if children != [] {
      var child := Last(children);
      InitLast(children);
      FitsConcat(Init(children), [child], s);
      assert FitsItem([child][0], s);
      UnwrapFits(Init(children), kind, s);
      var out := UnwrapSame(Init(children), kind);
      if child.Mark? && child.kind == kind {
        FitsLooser(child.children, Under(s, kind), s);
        UnwrapFits(child.children, kind, s);
        PushAllFits(out, UnwrapSame(child.children, kind), s);
      } else {
        PushFits(out, child, s);
      }
    }
  }

  /** Canonicalizing a run keeps its shape. */
  lemma {:induction false} CanonicalFits(u: Classifier, items: seq<Inline>, s: Shape)
    requires Fits(items, s)
    ensures Fits(Canonical(u, items), s)
    decreases items, 1
  {
    CanonicalEachIsPointwise(u, items);
    forall i: nat | i < |items| ensures FitsItem(CanonicalItem(u, items[i]), s) {
      CanonicalItemFits(u, items[i], s);
    }
    PushAllFits([], CanonicalEach(u, items), s);
    SettleFits(u, PushAll([], CanonicalEach(u, items)), TOP, s);
  }

  lemma {:induction false} CanonicalItemFits(u: Classifier, item: Inline, s: Shape)
    requires FitsItem(item, s)
    ensures FitsItem(CanonicalItem(u, item), s)
    decreases item, 0
  {
    match item
    case Mark(k, c) =>
      CanonicalFits(u, c, Under(s, k));
      UnwrapFits(Canonical(u, c), k, Under(s, k));
      SettleFits(u, UnwrapSame(Canonical(u, c), k), MarkContext(k, false), Under(s, k));
    case Link(_, _, c) => CanonicalFits(u, c, s);
    case _ =>
  }

  /** `inlines` is idempotent on every run in which no mark occurs, however deep, inside its own kind. */
  lemma UnnestedIsIdempotent(u: Classifier, items: seq<Inline>)
    requires Fits(items, UNNESTED)
    ensures Canonical(u, Canonical(u, items)) == Canonical(u, items)
  {
    CanonicalFits(u, items, UNNESTED);
    UnnestedIsFlat(Canonical(u, items), UNNESTED);
    IdempotentIffFlat(u, items);
  }

  // ---------------------------------------------------------------- where one pass is not enough

  function Em(c: seq<Inline>): Inline {
    Mark(Emphasis, c)
  }

  const EM_A := Em([Text("a")])
  const EM_X := Em([Text("x")])
  const STRONG := Mark(Strong, [Text("["), EM_X])

  /** `*[*a*, **[, *x***]*`: unwrapping the inner emphasis puts the strong against a letter, and dropping that
      leaves an emphasis directly inside an emphasis, which only a second pass unwraps. */
  const NESTED := [Em([EM_A, STRONG])]
  const NESTED_ONCE := [Em([Text("a["), EM_X])]

  lemma LettersAndDelimiters(u: Classifier)
    ensures u('a') == u('x') == Other
    ensures u('[') == u('*') == Punctuation
  {
    assert AsciiClass('a') == AsciiClass('x') == Other;
    assert AsciiClass('[') == AsciiClass('*') == Punctuation;
  }

  lemma PlainTextIsNormal(u: Classifier, t: string, ctx: Context)
    requires t != ""
    ensures Normal(u, [Text(t)], ctx)
  {
  }

  lemma BracketThenEmphasis(u: Classifier, t: string, ctx: Context)
    requires t == "[" || t == "a["
    requires ctx == TOP || ctx == MarkContext(Strong, false) || ctx == MarkContext(Emphasis, false)
    ensures Normal(u, [Text(t), EM_X], ctx)
  {
    var run := [Text(t), EM_X];
    LettersAndDelimiters(u);
    PlainTextIsNormal(u, "x", MarkContext(Emphasis, ctx.inside));
    assert LastChar(run[0]) == Some('[');
    assert NormalAt(u, run, 0, ctx) && NormalAt(u, run, 1, ctx);
  }

  lemma NestedChildrenAreNormal(u: Classifier)
    ensures Normal(u, [EM_A, STRONG], TOP)
  {
    var run := [EM_A, STRONG];
    LettersAndDelimiters(u);
    PlainTextIsNormal(u, "a", MarkContext(Emphasis, false));
    BracketThenEmphasis(u, "[", MarkContext(Strong, false));
    assert NormalAt(u, run, 0, TOP) by {
      assert After(run, 0, TOP) == Some('*') && CharBefore(run, 0, TOP) == None;
    }
    assert NormalAt(u, run, 1, TOP) by {
      assert After(run, 1, TOP) == None && CharBefore(run, 1, TOP) == Some('*');
      assert LastChar(Last(STRONG.children)) == Some('*');
    }
  }

  lemma PushAllTwo(out: seq<Inline>, a: Inline, b: Inline)
    ensures PushAll(out, [a, b]) == Push(Push(out, a), b)
  {
    assert Init([a, b]) == [a] && Init([a]) == [];
    assert PushAll(out, []) == out;
    assert PushAll(out, [a]) == Push(out, a);
  }

  lemma PushTextBehindText(a: string, b: string)
    requires b != ""
    ensures Push([Text(a)], Text(b)) == [Text(a + b)]
  {
    assert Init([Text(a)]) == [];
  }

  lemma PushIntoEmphasis()
    ensures PushAll([Text("a")], STRONG.children) == [Text("a["), EM_X]
  {
    PushAllTwo([Text("a")], Text("["), EM_X);
    PushTextBehindText("a", "[");
    assert "a" + "[" == "a[" && Init([Text("a[")]) == [];
  }

  lemma StrongAgainstLetterIsDropped(u: Classifier)
    ensures Settle(u, [Text("a"), STRONG], MarkContext(Emphasis, false)) == [Text("a["), EM_X]
  {
    var ctx := MarkContext(Emphasis, false);
    var run, result := [Text("a"), STRONG], [Text("a["), EM_X];
    LettersAndDelimiters(u);
    assert DropPrefix(u, run, 0, ctx) == [];
    assert DropPrefix(u, run, 1, ctx) == Push([], Text("a")) == [Text("a")];
    assert MustDrop(u, run, 1, [Text("a")], ctx) by {
      assert !CanOpen(u, Strong, STRONG.children, Some('a'));
    }
    PushIntoEmphasis();
    assert DropMarks(u, run, ctx) == result;
    BracketThenEmphasis(u, "a[", ctx);
    SettledIffNormal(u, result, ctx);
    SettleIsFixpoint(u, result, ctx);
    DropsNothing(u, result, ctx);
    assert SettleEach(u, result, ctx.inside) == result;
  }

  lemma UnwrapNestedChildren()
    ensures UnwrapSame([EM_A, STRONG], Emphasis) == [Text("a"), STRONG]
  {
    var run := [EM_A, STRONG];
    assert Init(run) == [EM_A] && Init([EM_A]) == [] && Init([Text("a")]) == [];
    assert Push([], Text("a")) == [Text("a")];
    assert UnwrapSame([Text("a")], Emphasis) == [Text("a")];
    assert PushAll([], [Text("a")]) == [Text("a")];
    assert UnwrapSame([EM_A], Emphasis) == [Text("a")];
    assert Push([Text("a")], STRONG) == [Text("a"), STRONG];
  }

  lemma NestedOnceIsNormal(u: Classifier)
    ensures Normal(u, NESTED_ONCE, TOP)
  {
    LettersAndDelimiters(u);
    BracketThenEmphasis(u, "a[", MarkContext(Emphasis, false));
    assert NormalAt(u, NESTED_ONCE, 0, TOP);
  }

  /** The documentation's unrestricted claim of idempotence fails: this run needs a second pass. */
  lemma NotIdempotent(u: Classifier)
    ensures Canonical(u, NESTED) == NESTED_ONCE
    ensures Canonical(u, Canonical(u, NESTED)) != Canonical(u, NESTED)
  {
    NestedChildrenAreNormal(u);
    assert Flat([EM_A, STRONG]) by {
      assert Flat(STRONG.children) && Flat(EM_A.children) && Flat(EM_X.children);
      assert FlatItem(EM_A) && FlatItem(STRONG);
    }
    FixedIffNormalAndFlat(u, [EM_A, STRONG]);
    UnwrapNestedChildren();
    StrongAgainstLetterIsDropped(u);
    CanonicalEachIsPointwise(u, NESTED);
    assert CanonicalEach(u, NESTED) == NESTED_ONCE;
    NestedOnceIsNormal(u);
    NormalIsSpaced(u, NESTED_ONCE, TOP);
    SpacedIffPushable(NESTED_ONCE);
    SettledIffNormal(u, NESTED_ONCE, TOP);
    assert !FlatItem(NESTED_ONCE[0]) by {
      assert NESTED_ONCE[0].children[1].Mark?;
    }
    IdempotentIffFlat(u, NESTED);
  }
}
