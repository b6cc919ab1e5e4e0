/**
 * Dropping the marks Markdown cannot write, to a fixed point at every depth
 * (`settle` and `drop_unexpressible_marks` in crates/mb-core/src/canonical.rs).
 */
module Settling {
  import opened Strings
  import opened Model
  import opened Flanking
  import opened Inlines

  // ---------------------------------------------------------------- one pass

  /** Whether `items[i]` is a mark that cannot be written between what was emitted before it and what follows. */
  predicate MustDrop(u: Classifier, items: seq<Inline>, i: nat, out: seq<Inline>, ctx: Context)
    requires i < |items|
  {
    && items[i].Mark?
    && !Expressible(u, items[i].kind, items[i].children, Before(out, ctx), After(items, i, ctx), ctx.inside)
  }

  /** What one pass has emitted after the first `n` items. */
  function DropPrefix(u: Classifier, items: seq<Inline>, n: nat, ctx: Context): seq<Inline>
    requires n <= |items|
  {
    if n == 0 then []
    else
      var out := DropPrefix(u, items, n - 1, ctx);
      if MustDrop(u, items, n - 1, out, ctx) then PushAll(out, items[n - 1].children)
      else Push(out, items[n - 1])
  }

  function DropMarks(u: Classifier, items: seq<Inline>, ctx: Context): seq<Inline> {
    DropPrefix(u, items, |items|, ctx)
  }

  /** The pass as the program runs it: one loop that appends to an output run. */
  method DropUnexpressibleMarks(u: Classifier, items: seq<Inline>, ctx: Context) returns (out: seq<Inline>)
    ensures out == DropMarks(u, items, ctx)
  {
    out := [];
    for i := 0 to |items|
      invariant out == DropPrefix(u, items, i, ctx)
    {
      if items[i].Mark? {
        var prev := Before(out, ctx);
        var next := After(items, i, ctx);
        if Expressible(u, items[i].kind, items[i].children, prev, next, ctx.inside) {
          out := Push(out, items[i]);
        } else {
          var children := items[i].children;
          var emitted := out;
          for c := 0 to |children|
            invariant out == PushAll(emitted, children[..c])
          {
            assert children[..c + 1] == children[..c] + [children[c]];
            SnocInit(children[..c], children[c]);
            out := Push(out, children[c]);
          }
          assert children[..|children|] == children;
        }
      } else {
        out := Push(out, items[i]);
      }
    }
  }

  lemma {:induction false} DropPrefixWeight(u: Classifier, items: seq<Inline>, n: nat, ctx: Context)
    requires n <= |items|
    ensures var out := DropPrefix(u, items, n, ctx);
      && WeightAll(out) <= WeightAll(items[..n])
      && (WeightAll(out) == WeightAll(items[..n]) ==>
            && out == items[..n]
            && Spaced(out)
            && forall i: nat | i < n :: !MustDrop(u, items, i, items[..i], ctx))
  {
    if n > 0 {
      DropPrefixWeight(u, items, n - 1, ctx);
      DropStepWeight(u, items, n - 1, ctx);
    }
  }

  lemma DropStepWeight(u: Classifier, items: seq<Inline>, n: nat, ctx: Context)
    requires n < |items|
    requires var out := DropPrefix(u, items, n, ctx);
      WeightAll(out) <= WeightAll(items[..n]) && (WeightAll(out) == WeightAll(items[..n]) ==> out == items[..n] && Spaced(out))
    ensures var before, out := DropPrefix(u, items, n, ctx), DropPrefix(u, items, n + 1, ctx);
      && WeightAll(out) <= WeightAll(items[..n + 1])
      && (WeightAll(out) == WeightAll(items[..n + 1]) ==>
            && out == items[..n + 1] && Spaced(out) && WeightAll(before) == WeightAll(items[..n])
            && !MustDrop(u, items, n, items[..n], ctx))
  {
    var before, item := DropPrefix(u, items, n, ctx), items[n];
    TakeSnoc(items, n);
    WeightSnoc(items[..n], item);
    if MustDrop(u, items, n, before, ctx) {
      PushAllWeight(before, item.children);
    } else {
      PushWeight(before, item);
      WeightSnoc(before, item);
      SpacedSnoc(before, item);
    }
  }

  /** A pass never makes a run heavier, and leaves it alone when it keeps its weight. */
  lemma DropMarksWeight(u: Classifier, items: seq<Inline>, ctx: Context)
    ensures WeightAll(DropMarks(u, items, ctx)) <= WeightAll(items)
    ensures WeightAll(DropMarks(u, items, ctx)) == WeightAll(items) ==> DropMarks(u, items, ctx) == items
  {
    DropPrefixWeight(u, items, |items|, ctx);
    assert items[..|items|] == items;
  }

  lemma DropStepInk(u: Classifier, items: seq<Inline>, n: nat, ctx: Context)
    requires n < |items|
    ensures InkAll(DropPrefix(u, items, n + 1, ctx)) == InkAll(DropPrefix(u, items, n, ctx)) + Ink(items[n])
  {
    var before := DropPrefix(u, items, n, ctx);
    if MustDrop(u, items, n, before, ctx) {
      PushAllInk(before, items[n].children);
    } else {
      PushInk(before, items[n]);
    }
  }

  lemma {:induction false} DropPrefixInk(u: Classifier, items: seq<Inline>, n: nat, ctx: Context)
    requires n <= |items|
    ensures InkAll(DropPrefix(u, items, n, ctx)) == InkAll(items[..n])
  {
    if n > 0 {
      DropPrefixInk(u, items, n - 1, ctx);
      DropStepInk(u, items, n - 1, ctx);
      TakeSnoc(items, n - 1);
      InkSnoc(items[..n - 1], items[n - 1]);
    }
  }

  lemma DropMarksInk(u: Classifier, items: seq<Inline>, ctx: Context)
    ensures InkAll(DropMarks(u, items, ctx)) == InkAll(items)
  {
    DropPrefixInk(u, items, |items|, ctx);
    assert items[..|items|] == items;
  }

  // ---------------------------------------------------------------- to a fixed point

  /** `settle`: rounds of dropping marks here and then below, as long as a round makes a difference. */
  function Settle(u: Classifier, items: seq<Inline>, ctx: Context): (r: seq<Inline>)
    ensures WeightAll(r) <= WeightAll(items)
    ensures WeightAll(r) == WeightAll(items) ==> r == items
    decreases WeightAll(items), 2, 0
  {
    DropMarksWeight(u, items, ctx);
    var next := SettleEach(u, DropMarks(u, items, ctx), ctx.inside);
    if next == items then items else Settle(u, next, ctx)
  }

  function SettleEach(u: Classifier, items: seq<Inline>, inside: bool): (r: seq<Inline>)
    ensures WeightAll(r) <= WeightAll(items)
    ensures WeightAll(r) == WeightAll(items) ==> r == items
    decreases WeightAll(items), 1, |items|
  {
    if items == [] then []
    else
      var init := SettleEach(u, Init(items), inside);
      var last := SettleItem(u, Last(items), inside);
      WeightSnoc(init, last);
      InitLast(items);
      init + [last]
  }

  function SettleItem(u: Classifier, item: Inline, inside: bool): (r: Inline)
    ensures Weight(r) <= Weight(item)
    ensures Weight(r) == Weight(item) ==> r == item
    decreases Weight(item), 0, 0
  {
    match item
    case Mark(k, c) => Mark(k, Settle(u, c, MarkContext(k, inside)))
    case Link(d, t, c) => Link(d, t, Settle(u, c, LinkContext(inside)))
    case _ => item
  }

  function SettlePass(u: Classifier, items: seq<Inline>, ctx: Context): seq<Inline> {
    SettleEach(u, DropMarks(u, items, ctx), ctx.inside)
  }

  /** `settle` as the program runs it: a loop that compares each pass with its input. */
  method SettleLoop(u: Classifier, items: seq<Inline>, ctx: Context) returns (r: seq<Inline>)
    ensures r == Settle(u, items, ctx)
  {
    r := items;
    while true
      invariant Settle(u, r, ctx) == Settle(u, items, ctx)
      decreases WeightAll(r)
    {
      var dropped := DropUnexpressibleMarks(u, r, ctx);
      DropMarksWeight(u, r, ctx);
      var next := SettleEach(u, dropped, ctx.inside);
      if next == r {
        return;
      }
      r := next;
    }
  }

  /** What `settle` returns is a fixed point of its pass, and it returns its input exactly when that is one. */
  lemma {:induction false} SettleIsFixpoint(u: Classifier, items: seq<Inline>, ctx: Context)
    ensures SettlePass(u, Settle(u, items, ctx), ctx) == Settle(u, items, ctx)
    ensures Settle(u, items, ctx) == items <==> SettlePass(u, items, ctx) == items
    decreases WeightAll(items)
  {
    DropMarksWeight(u, items, ctx);
    var next := SettlePass(u, items, ctx);
    if next != items {
      SettleIsFixpoint(u, next, ctx);
    }
  }

  lemma {:induction false} SettleInk(u: Classifier, items: seq<Inline>, ctx: Context)
    ensures InkAll(Settle(u, items, ctx)) == InkAll(items)
    decreases WeightAll(items), 2, 0
  {
    DropMarksWeight(u, items, ctx);
    DropMarksInk(u, items, ctx);
    var dropped := DropMarks(u, items, ctx);
    SettleEachInk(u, dropped, ctx.inside);
    var next := SettleEach(u, dropped, ctx.inside);
    if next != items {
      SettleInk(u, next, ctx);
    }
  }

  lemma {:induction false} SettleEachInk(u: Classifier, items: seq<Inline>, inside: bool)
    ensures InkAll(SettleEach(u, items, inside)) == InkAll(items)
    decreases WeightAll(items), 1, |items|
  {
    if items != [] {
      SettleEachInk(u, Init(items), inside);
      SettleItemInk(u, Last(items), inside);
      InkSnoc(SettleEach(u, Init(items), inside), SettleItem(u, Last(items), inside));
    }
  }

  lemma {:induction false} SettleItemInk(u: Classifier, item: Inline, inside: bool)
    ensures Ink(SettleItem(u, item, inside)) == Ink(item)
    decreases Weight(item), 0, 0
  {
    match item
    case Mark(k, c) => SettleInk(u, c, MarkContext(k, inside));
    case Link(d, t, c) => SettleInk(u, c, LinkContext(inside));
    case _ =>
  }

  // ---------------------------------------------------------------- the normal form

  /** The character in front of position `i`. */
  function CharBefore(items: seq<Inline>, i: nat, ctx: Context): Option<char>
    requires i < |items|
  {
    if i == 0 then ctx.prev else OrElse(LastChar(items[i - 1]), ctx.prev)
  }

  /** Position `i` needs no rewriting: it is apart from its neighbour and, if a mark, can be written where it is. */
  predicate NormalAt(u: Classifier, items: seq<Inline>, i: nat, ctx: Context)
    requires i < |items|
  {
    && SpacedAt(items, i)
    && (items[i].Mark? ==>
          Expressible(u, items[i].kind, items[i].children, CharBefore(items, i, ctx), After(items, i, ctx), ctx.inside))
  }

  /**
   * The normal form: at every depth, no two neighbours merge, and every mark can open, can close and has a
   * delimiter left, given the characters that really surround it.
   */
  predicate Normal(u: Classifier, items: seq<Inline>, ctx: Context)
    decreases items
  {
    forall i: nat | i < |items| :: NormalAt(u, items, i, ctx) && NormalWithin(u, items[i], ctx.inside)
  }

  predicate NormalWithin(u: Classifier, item: Inline, inside: bool)
    decreases item
  {
    match item
    case Mark(k, c) => Normal(u, c, MarkContext(k, inside))
    case Link(_, _, c) => Normal(u, c, LinkContext(inside))
    case _ => true
  }

  lemma DropsNothing(u: Classifier, items: seq<Inline>, ctx: Context)
    ensures DropMarks(u, items, ctx) == items <==> forall i: nat | i < |items| :: NormalAt(u, items, i, ctx)
  {
    assert items[..|items|] == items;
    assert forall i: nat | i < |items| :: Before(items[..i], ctx) == CharBefore(items, i, ctx);
    if DropMarks(u, items, ctx) == items {
      DropPrefixWeight(u, items, |items|, ctx);
      forall i: nat | i < |items| ensures NormalAt(u, items, i, ctx) {
        assert !MustDrop(u, items, i, items[..i], ctx);
        assert SpacedAt(items, i);
      }
    }
    if forall i: nat | i < |items| :: NormalAt(u, items, i, ctx) {
      NormalPrefixKept(u, items, |items|, ctx);
    }
  }

  lemma {:induction false} NormalPrefixKept(u: Classifier, items: seq<Inline>, n: nat, ctx: Context)
    requires n <= |items|
    requires forall i: nat | i < |items| :: NormalAt(u, items, i, ctx)
    ensures DropPrefix(u, items, n, ctx) == items[..n]
  {
    if n > 0 {
      NormalPrefixKept(u, items, n - 1, ctx);
      var before := items[..n - 1];
      assert NormalAt(u, items, n - 1, ctx);
      assert Before(before, ctx) == CharBefore(items, n - 1, ctx);
      PushWeight(before, items[n - 1]);
      assert items[..n] == before + [items[n - 1]];
    }
  }

  lemma {:induction false} SettleEachFixed(u: Classifier, items: seq<Inline>, inside: bool)
    ensures SettleEach(u, items, inside) == items <==>
            forall i: nat | i < |items| :: SettleItem(u, items[i], inside) == items[i]
    decreases |items|
  {
    if items != [] {
      SettleEachFixed(u, Init(items), inside);
      assert forall i: nat | i < |Init(items)| :: Init(items)[i] == items[i];
      InitLast(items);
      var r := SettleEach(u, items, inside);
      var init := SettleEach(u, Init(items), inside);
      if r == items {
        assert |init| == |items| - 1;
        assert init == items[..|items| - 1];
      }
    }
  }

  /** A pass leaves a run alone exactly when it needs no rewriting itself and no pass changes what its items hold. */
  lemma PassFixedIff(u: Classifier, items: seq<Inline>, ctx: Context)
    ensures SettlePass(u, items, ctx) == items <==>
            && (forall i: nat | i < |items| :: NormalAt(u, items, i, ctx))
            && (forall i: nat | i < |items| :: SettleItem(u, items[i], ctx.inside) == items[i])
  {
    DropMarksWeight(u, items, ctx);
    DropsNothing(u, items, ctx);
    SettleEachFixed(u, items, ctx.inside);
    if SettlePass(u, items, ctx) == items {
      assert DropMarks(u, items, ctx) == items;
    }
  }

  /** A run is settled exactly when it is in normal form at every depth. */
  lemma {:induction false} SettledIffNormal(u: Classifier, items: seq<Inline>, ctx: Context)
    ensures Settle(u, items, ctx) == items <==> Normal(u, items, ctx)
    decreases items
  {
    SettleIsFixpoint(u, items, ctx);
    PassFixedIff(u, items, ctx);
    forall i: nat | i < |items|
      ensures SettleItem(u, items[i], ctx.inside) == items[i] <==> NormalWithin(u, items[i], ctx.inside)
    {
      match items[i]
      case Mark(k, c) => SettledIffNormal(u, c, MarkContext(k, ctx.inside));
      case Link(_, _, c) => SettledIffNormal(u, c, LinkContext(ctx.inside));
      case _ =>
    }
    NormalInParts(u, items, ctx);
  }

  lemma NormalInParts(u: Classifier, items: seq<Inline>, ctx: Context)
    ensures Normal(u, items, ctx) <==>
            && (forall i: nat | i < |items| :: NormalAt(u, items, i, ctx))
            && (forall i: nat | i < |items| :: NormalWithin(u, items[i], ctx.inside))
  {
    if Normal(u, items, ctx) {
      assert forall i: nat | i < |items| :: NormalAt(u, items, i, ctx);
      assert forall i: nat | i < |items| :: NormalWithin(u, items[i], ctx.inside);
    }
  }

  /** Whatever it is given, `settle` returns a normal form. */
  lemma SettleIsNormal(u: Classifier, items: seq<Inline>, ctx: Context)
    ensures Normal(u, Settle(u, items, ctx), ctx)
  {
    var r := Settle(u, items, ctx);
    SettleIsFixpoint(u, items, ctx);
    SettleIsFixpoint(u, r, ctx);
    SettledIffNormal(u, r, ctx);
  }

  // ---------------------------------------------------------------- looser contexts

  lemma {:induction false} NormalInLooserContext(u: Classifier, items: seq<Inline>, strict: Context, ctx: Context)
    requires Normal(u, items, strict)
    requires Looser(ctx, strict)
    ensures Normal(u, items, ctx)
    decreases items
  {
    forall i: nat | i < |items|
      ensures NormalAt(u, items, i, ctx) && NormalWithin(u, items[i], ctx.inside)
    {
      assert NormalAt(u, items, i, strict) && NormalWithin(u, items[i], strict.inside);
      if items[i].Mark? {
        OpenEdgeIsLooser(u, items[i].kind, items[i].children,
                         CharBefore(items, i, strict), After(items, i, strict), strict.inside,
                         CharBefore(items, i, ctx), After(items, i, ctx), ctx.inside);
      }
      NormalWithinLooser(u, items[i], strict.inside, ctx.inside);
    }
  }

  lemma {:induction false} NormalWithinLooser(u: Classifier, item: Inline, strict: bool, inside: bool)
    requires NormalWithin(u, item, strict)
    requires inside ==> strict
    ensures NormalWithin(u, item, inside)
    decreases item
  {
    match item
    case Mark(k, c) => NormalInLooserContext(u, c, MarkContext(k, strict), MarkContext(k, inside));
    case Link(_, _, c) => NormalInLooserContext(u, c, LinkContext(strict), LinkContext(inside));
    case _ =>
  }
}
