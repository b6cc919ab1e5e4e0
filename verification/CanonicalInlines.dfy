/**
 * The canonical form of a run of inlines (`inlines`, `canonical_inline` and `unwrap_same` in
 * crates/mb-core/src/canonical.rs): when it is a fixed point, and when canonicalizing twice changes nothing.
 */
module CanonicalInlines {
  import opened Strings
  import opened Model
  import opened Flanking
  import opened Inlines
  import opened Settling

  /** A mark directly inside one of its own kind adds nothing, so its content takes its place. */
  function UnwrapSame(children: seq<Inline>, kind: MarkKind): seq<Inline>
    decreases children
  {
    if children == [] then []
    else
      var out := UnwrapSame(Init(children), kind);
      var child := Last(children);
      if child.Mark? && child.kind == kind then PushAll(out, UnwrapSame(child.children, kind))
      else Push(out, child)
  }

  /** `inlines`: canonical items, built into a run, then settled. */
  function Canonical(u: Classifier, items: seq<Inline>): seq<Inline>
    decreases items, 1
  {
    Settle(u, PushAll([], CanonicalEach(u, items)), TOP)
  }

  function CanonicalEach(u: Classifier, items: seq<Inline>): seq<Inline>
    decreases items, 0
  {
    if items == [] then [] else CanonicalEach(u, Init(items)) + [CanonicalItem(u, Last(items))]
  }

  function CanonicalItem(u: Classifier, item: Inline): Inline
    decreases item, 0
  {
    match item
    case Mark(k, c) => Mark(k, Settle(u, UnwrapSame(Canonical(u, c), k), MarkContext(k, false)))
    case Link(d, t, c) => Link(d, t, Canonical(u, c))
    case _ => item
  }

  // ---------------------------------------------------------------- ink and weight

  lemma {:induction false} UnwrapSameInk(children: seq<Inline>, kind: MarkKind)
    ensures InkAll(UnwrapSame(children, kind)) == InkAll(children)
    decreases children
  {
    if children != [] {
      var out, child := UnwrapSame(Init(children), kind), Last(children);
      UnwrapSameInk(Init(children), kind);
      if child.Mark? && child.kind == kind {
        UnwrapSameInk(child.children, kind);
        PushAllInk(out, UnwrapSame(child.children, kind));
      } else {
        PushInk(out, child);
      }
    }
  }

  /**
   * Canonicalizing keeps every visible character, code span, formula, reference and link, in order and with the
   * links around the same text: only marks, breaks and white space can go.
   */
  lemma {:induction false} CanonicalKeepsInk(u: Classifier, items: seq<Inline>)
    ensures InkAll(Canonical(u, items)) == InkAll(items)
    decreases items, 1
  {
    CanonicalEachInk(u, items);
    var each := CanonicalEach(u, items);
    PushAllInk([], each);
    assert InkAll([]) + InkAll(each) == InkAll(each);
    SettleInk(u, PushAll([], each), TOP);
  }

  lemma {:induction false} CanonicalEachInk(u: Classifier, items: seq<Inline>)
    ensures InkAll(CanonicalEach(u, items)) == InkAll(items)
    decreases items, 0
  {
    if items != [] {
      CanonicalEachInk(u, Init(items));
      var item := Last(items);
      InkSnoc(CanonicalEach(u, Init(items)), CanonicalItem(u, item));
      match item
      case Mark(k, c) =>
        CanonicalKeepsInk(u, c);
        UnwrapSameInk(Canonical(u, c), k);
        SettleInk(u, UnwrapSame(Canonical(u, c), k), MarkContext(k, false));
      case Link(_, _, c) => CanonicalKeepsInk(u, c);
      case _ =>
    }
  }

  lemma {:induction false} UnwrapSameWeight(children: seq<Inline>, kind: MarkKind)
    ensures WeightAll(UnwrapSame(children, kind)) <= WeightAll(children)
    ensures WeightAll(UnwrapSame(children, kind)) == WeightAll(children) ==>
              && UnwrapSame(children, kind) == children
              && forall i: nat | i < |children| :: !(children[i].Mark? && children[i].kind == kind)
    decreases children
  {
    if children != [] {
      var init, child := Init(children), Last(children);
      var out := UnwrapSame(init, kind);
      UnwrapSameWeight(init, kind);
      InitLast(children);
      assert forall i: nat | i < |init| :: init[i] == children[i];
      if child.Mark? && child.kind == kind {
        UnwrapSameWeight(child.children, kind);
        PushAllWeight(out, UnwrapSame(child.children, kind));
      } else {
        PushWeight(out, child);
        WeightSnoc(out, child);
      }
    }
  }

  /** Canonicalizing never makes a run heavier, and changes it only by making it lighter. */
  lemma {:induction false} CanonicalWeight(u: Classifier, items: seq<Inline>)
    ensures WeightAll(Canonical(u, items)) <= WeightAll(items)
    ensures WeightAll(Canonical(u, items)) == WeightAll(items) ==> Canonical(u, items) == items
    ensures Canonical(u, items) == items ==> CanonicalEach(u, items) == items
    decreases items, 1
  {
    CanonicalEachWeight(u, items);
    var each := CanonicalEach(u, items);
    PushAllWeight([], each);
    assert [] + each == each;
  }

  lemma {:induction false} CanonicalEachWeight(u: Classifier, items: seq<Inline>)
    ensures WeightAll(CanonicalEach(u, items)) <= WeightAll(items)
    ensures WeightAll(CanonicalEach(u, items)) == WeightAll(items) ==> CanonicalEach(u, items) == items
    decreases items, 0
  {
    if items != [] {
      var init, last := CanonicalEach(u, Init(items)), CanonicalItem(u, Last(items));
      CanonicalEachWeight(u, Init(items));
      CanonicalItemWeight(u, Last(items));
      WeightSnoc(init, last);
      InitLast(items);
    }
  }

  lemma {:induction false} CanonicalItemWeight(u: Classifier, item: Inline)
    ensures Weight(CanonicalItem(u, item)) <= Weight(item)
    ensures Weight(CanonicalItem(u, item)) == Weight(item) ==> CanonicalItem(u, item) == item
    ensures CanonicalItem(u, item) == item ==>
              match item
              case Mark(k, c) => Canonical(u, c) == c && UnwrapSame(c, k) == c
              case Link(_, _, c) => Canonical(u, c) == c
              case _ => true
    decreases item, 0
  {
    match item
    case Mark(k, c) =>
      CanonicalWeight(u, c);
      UnwrapSameWeight(Canonical(u, c), k);
    case Link(_, _, c) => CanonicalWeight(u, c);
    case _ =>
  }

  // ---------------------------------------------------------------- fixed points

  /** No mark, at any depth, has a mark of its own kind directly under it. */
  predicate Flat(items: seq<Inline>)
    decreases items
  {
    forall i: nat | i < |items| :: FlatItem(items[i])
  }

  predicate FlatItem(item: Inline)
    decreases item
  {
    match item
    case Mark(k, c) => Flat(c) && forall i: nat | i < |c| :: !(c[i].Mark? && c[i].kind == k)
    case Link(_, _, c) => Flat(c)
    case _ => true
  }

  lemma {:induction false} UnwrapNothing(c: seq<Inline>, kind: MarkKind)
    requires Spaced(c)
    requires forall i: nat | i < |c| :: !(c[i].Mark? && c[i].kind == kind)
    ensures UnwrapSame(c, kind) == c
    decreases |c|
  {
    if c != [] {
      var init := Init(c);
      InitLast(c);
      SpacedSnoc(init, Last(c));
      assert forall i: nat | i < |init| :: init[i] == c[i];
      UnwrapNothing(init, kind);
      PushWeight(init, Last(c));
    }
  }

  lemma {:induction false} CanonicalEachIsPointwise(u: Classifier, items: seq<Inline>)
    ensures |CanonicalEach(u, items)| == |items|
    ensures forall i: nat | i < |items| :: CanonicalEach(u, items)[i] == CanonicalItem(u, items[i])
    decreases |items|
  {
    if items != [] {
      CanonicalEachIsPointwise(u, Init(items));
    }
  }

  lemma {:induction false} FlatNormalIsFixed(u: Classifier, items: seq<Inline>, ctx: Context)
    requires Normal(u, items, ctx) && Flat(items)
    ensures Canonical(u, items) == items
    decreases items, 1
  {
    forall i: nat | i < |items| ensures CanonicalItem(u, items[i]) == items[i] {
      assert NormalAt(u, items, i, ctx) && NormalWithin(u, items[i], ctx.inside) && FlatItem(items[i]);
      FlatNormalItemFixed(u, items[i], ctx.inside);
    }
    CanonicalEachIsPointwise(u, items);
    assert CanonicalEach(u, items) == items;
    NormalIsSpaced(u, items, ctx);
    SpacedIffPushable(items);
    NormalInLooserContext(u, items, ctx, TOP);
    SettledIffNormal(u, items, TOP);
  }

  lemma NormalIsSpaced(u: Classifier, items: seq<Inline>, ctx: Context)
    requires Normal(u, items, ctx)
    ensures Spaced(items)
  {
    forall i: nat | i < |items| ensures SpacedAt(items, i) {
      assert NormalAt(u, items, i, ctx);
    }
  }

  lemma {:induction false} FlatNormalItemFixed(u: Classifier, item: Inline, inside: bool)
    requires NormalWithin(u, item, inside) && FlatItem(item)
    ensures CanonicalItem(u, item) == item
    decreases item, 0
  {
    match item
    case Mark(k, c) =>
      FlatNormalIsFixed(u, c, MarkContext(k, inside));
      NormalIsSpaced(u, c, MarkContext(k, inside));
      UnwrapNothing(c, k);
      NormalInLooserContext(u, c, MarkContext(k, inside), MarkContext(k, false));
      SettledIffNormal(u, c, MarkContext(k, false));
    case Link(_, _, c) => FlatNormalIsFixed(u, c, LinkContext(inside));
    case _ =>
  }

  lemma {:induction false} FixedIsFlat(u: Classifier, items: seq<Inline>)
    requires Canonical(u, items) == items
    ensures Flat(items)
    decreases items, 1
  {
    CanonicalWeight(u, items);
    CanonicalEachIsPointwise(u, items);
    forall i: nat | i < |items| ensures FlatItem(items[i]) {
      assert CanonicalItem(u, items[i]) == items[i];
      FixedItemIsFlat(u, items[i]);
    }
  }

  lemma {:induction false} FixedItemIsFlat(u: Classifier, item: Inline)
    requires CanonicalItem(u, item) == item
    ensures FlatItem(item)
    decreases item, 0
  {
    CanonicalItemWeight(u, item);
    match item
    case Mark(k, c) =>
      FixedIsFlat(u, c);
      UnwrapSameWeight(c, k);
    case Link(_, _, c) => FixedIsFlat(u, c);
    case _ =>
  }

  /** The fixed points of `inlines` are exactly the normal forms without a mark directly inside its own kind. */
  lemma FixedIffNormalAndFlat(u: Classifier, items: seq<Inline>)
    ensures Canonical(u, items) == items <==> Normal(u, items, TOP) && Flat(items)
  {
    if Canonical(u, items) == items {
      SettleIsNormal(u, PushAll([], CanonicalEach(u, items)), TOP);
      FixedIsFlat(u, items);
    }
    if Normal(u, items, TOP) && Flat(items) {
      FlatNormalIsFixed(u, items, TOP);
    }
  }

  /** Canonicalizing twice is canonicalizing once exactly when the first result is flat. */
  lemma IdempotentIffFlat(u: Classifier, items: seq<Inline>)
    ensures Canonical(u, Canonical(u, items)) == Canonical(u, items) <==> Flat(Canonical(u, items))
  {
    SettleIsNormal(u, PushAll([], CanonicalEach(u, items)), TOP);
    FixedIffNormalAndFlat(u, Canonical(u, items));
  }

  function Repeat(u: Classifier, items: seq<Inline>, times: nat): seq<Inline>
    decreases times
  {
    if times == 0 then items else Repeat(u, Canonical(u, items), times - 1)
  }

  /** Even where one pass is not enough, repeating it always reaches a fixed point: every effective pass weighs less. */
  lemma {:induction false} RepeatReachesFixpoint(u: Classifier, items: seq<Inline>, times: nat)
    requires times >= WeightAll(items)
    ensures Canonical(u, Repeat(u, items, times)) == Repeat(u, items, times)
    decreases times
  {
    CanonicalWeight(u, items);
    if Canonical(u, items) == items {
      RepeatFixed(u, items, times);
    } else {
      RepeatReachesFixpoint(u, Canonical(u, items), times - 1);
    }
  }

  lemma {:induction false} RepeatFixed(u: Classifier, items: seq<Inline>, times: nat)
    requires Canonical(u, items) == items
    ensures Repeat(u, items, times) == items
  {
    if times > 0 {
      RepeatFixed(u, items, times - 1);
    }
  }
}
