/** Block edges carry no white space (`trim_edges` and `flatten_breaks` in crates/mb-core/src/canonical.rs). */
module Trimming {
  import opened Strings
  import opened Model
  import opened Syntax
  import opened Flanking
  import opened Inlines
  import opened Settling
  import opened CanonicalInlines
  import opened Shapes

  // ---------------------------------------------------------------- trim_edges

  function TrimFront(items: seq<Inline>): (r: seq<Inline>)
    ensures r == items || WeightAll(r) < WeightAll(items)
  {
    if items == [] then items
    else
      WeightConcat([items[0]], items[1..]);
      assert items == [items[0]] + items[1..];
      WeightSnoc([], items[0]);
      assert [] + [items[0]] == [items[0]];
      if IsBreak(items[0]) then items[1..]
      else if !items[0].Text? then items
      else
        var t := TrimStart(items[0].text);
        TrimStartKeepsInk(items[0].text);
        WeightConcat([Text(t)], items[1..]);
        WeightSnoc([], Text(t));
        assert [] + [Text(t)] == [Text(t)];
        if t == items[0].text then items
        else if t == "" then items[1..]
        else [Text(t)] + items[1..]
  }

  function TrimBack(items: seq<Inline>): (r: seq<Inline>)
    ensures r == items || WeightAll(r) < WeightAll(items)
  {
    if items == [] then items
    else
      InitLast(items);
      if IsBreak(Last(items)) then Init(items)
      else if !Last(items).Text? then items
      else
        var t := TrimEnd(Last(items).text);
        TrimEndKeepsInk(Last(items).text);
        WeightSnoc(Init(items), Text(t));
        if t == Last(items).text then items
        else if t == "" then Init(items)
        else Init(items) + [Text(t)]
  }

  function TrimEdges(items: seq<Inline>): (r: seq<Inline>)
    ensures r == items || WeightAll(r) < WeightAll(items)
    decreases WeightAll(items)
  {
    var next := TrimBack(TrimFront(items));
    if next == items then items else TrimEdges(next)
  }

  /** `trim_edges` as the program runs it: both ends in every round, until neither changes. */
  method TrimEdgesLoop(input: seq<Inline>) returns (items: seq<Inline>)
    ensures items == TrimEdges(input)
  {
    items := input;
    while true
      invariant TrimEdges(items) == TrimEdges(input)
      decreases WeightAll(items)
    {
      var front := TrimFront(items);
      var back := TrimBack(front);
      var changed := front != items || back != front;
      if !changed {
        return;
      }
      items := back;
    }
  }

  /** Neither end is a break or carries white space at the edge. */
  predicate Trimmed(items: seq<Inline>) {
    && TrimFront(items) == items
    && TrimBack(items) == items
  }

  lemma {:induction false} TrimEdgesIsTrimmed(items: seq<Inline>)
    ensures Trimmed(TrimEdges(items))
    ensures TrimEdges(items) == items <==> Trimmed(items)
    decreases WeightAll(items)
  {
    var next := TrimBack(TrimFront(items));
    if next != items {
      TrimEdgesIsTrimmed(next);
    }
  }

  lemma TrimFrontInk(items: seq<Inline>)
    ensures InkAll(TrimFront(items)) == InkAll(items)
  {
    if items != [] {
      var rest := items[1..];
      assert items == [items[0]] + rest;
      InkConcat([items[0]], rest);
      InkSnoc([], items[0]);
      assert [] + [items[0]] == [items[0]];
      if items[0].Text? {
        var t := TrimStart(items[0].text);
        TrimStartKeepsInk(items[0].text);
        InkConcat([Text(t)], rest);
        InkSnoc([], Text(t));
        assert [] + [Text(t)] == [Text(t)];
        assert t == "" ==> Chars(t) == [];
      }
      assert [] + InkAll(rest) == InkAll(rest);
    }
  }

  lemma TrimBackInk(items: seq<Inline>)
    ensures InkAll(TrimBack(items)) == InkAll(items)
  {
    if items != [] && Last(items).Text? {
      var t := TrimEnd(Last(items).text);
      TrimEndKeepsInk(Last(items).text);
      InkSnoc(Init(items), Text(t));
      assert t == "" ==> Chars(t) == [];
    }
  }

  /** Trimming the edges of a run loses no glyph. */
  lemma {:induction false} TrimEdgesInk(items: seq<Inline>)
    ensures InkAll(TrimEdges(items)) == InkAll(items)
    decreases WeightAll(items)
  {
    TrimFrontInk(items);
    TrimBackInk(TrimFront(items));
    var next := TrimBack(TrimFront(items));
    if next != items {
      TrimEdgesInk(next);
    }
  }

  // ---------------------------------------------------------------- trimming keeps normal forms

  lemma DropFirstIsNormal(u: Classifier, items: seq<Inline>)
    requires items != [] && Normal(u, items, TOP)
    ensures Normal(u, items[1..], TOP)
  {
    var rest := items[1..];
    forall i: nat | i < |rest| ensures NormalAt(u, rest, i, TOP) && NormalWithin(u, rest[i], TOP.inside) {
      assert NormalAt(u, items, i + 1, TOP) && NormalWithin(u, items[i + 1], TOP.inside);
      if rest[i].Mark? {
        OpenEdgeIsLooser(u, rest[i].kind, rest[i].children,
                         CharBefore(items, i + 1, TOP), After(items, i + 1, TOP), false,
                         CharBefore(rest, i, TOP), After(rest, i, TOP), false);
      }
    }
  }

  lemma DropLastIsNormal(u: Classifier, items: seq<Inline>)
    requires items != [] && Normal(u, items, TOP)
    ensures Normal(u, Init(items), TOP)
  {
    var rest := Init(items);
    forall i: nat | i < |rest| ensures NormalAt(u, rest, i, TOP) && NormalWithin(u, rest[i], TOP.inside) {
      assert NormalAt(u, items, i, TOP) && NormalWithin(u, items[i], TOP.inside);
      assert SpacedAt(items, i);
      if rest[i].Mark? {
        OpenEdgeIsLooser(u, rest[i].kind, rest[i].children,
                         CharBefore(items, i, TOP), After(items, i, TOP), false,
                         CharBefore(rest, i, TOP), After(rest, i, TOP), false);
      }
    }
  }

  lemma TrimFirstTextIsNormal(u: Classifier, items: seq<Inline>, t: string)
    requires items != [] && items[0].Text? && Normal(u, items, TOP)
    requires t == TrimStart(items[0].text) && t != ""
    ensures Normal(u, [Text(t)] + items[1..], TOP)
  {
    var r := [Text(t)] + items[1..];
    TrimStartKeepsInk(items[0].text);
    assert Last(t) == Last(items[0].text);
    forall i: nat | i < |r| ensures NormalAt(u, r, i, TOP) && NormalWithin(u, r[i], TOP.inside) {
      assert NormalAt(u, items, i, TOP) && NormalWithin(u, items[i], TOP.inside);
      TrimFirstTextNormalAt(u, items, t, i);
    }
  }

  lemma TrimFirstTextNormalAt(u: Classifier, items: seq<Inline>, t: string, i: nat)
    requires i < |items| && items[0].Text? && items[0].text != "" && NormalAt(u, items, i, TOP)
    requires t != "" && Last(t) == Last(items[0].text)
    ensures NormalAt(u, [Text(t)] + items[1..], i, TOP)
  {
    var r := [Text(t)] + items[1..];
    if i == 1 {
      assert IsBreak(r[1]) ==> TrimEnd(t) == t by {
        TrimEndFixed(items[0].text);
        TrimEndFixed(t);
      }
    }
    if i > 0 {
      assert CharBefore(r, i, TOP) == CharBefore(items, i, TOP);
      assert After(r, i, TOP) == After(items, i, TOP);
    }
  }

  lemma TrimLastTextIsNormal(u: Classifier, items: seq<Inline>, t: string)
    requires items != [] && Last(items).Text? && Normal(u, items, TOP)
    requires t == TrimEnd(Last(items).text) && t != ""
    ensures Normal(u, Init(items) + [Text(t)], TOP)
  {
    var r := Init(items) + [Text(t)];
    forall i: nat | i < |r| ensures NormalAt(u, r, i, TOP) && NormalWithin(u, r[i], TOP.inside) {
      assert NormalAt(u, items, i, TOP) && NormalWithin(u, items[i], TOP.inside);
      TrimLastTextNormalAt(u, items, t, i);
    }
  }

  lemma TrimLastTextNormalAt(u: Classifier, items: seq<Inline>, t: string, i: nat)
    requires i < |items| && Last(items).Text? && NormalAt(u, items, i, TOP)
    requires t == TrimEnd(Last(items).text) && t != ""
    ensures NormalAt(u, Init(items) + [Text(t)], i, TOP)
  {
    var r := Init(items) + [Text(t)];
    var full := Last(items).text;
    TrimEndKeepsInk(full);
    if i + 1 == |items| {
      if i > 0 {
        TrimmedTextStaysApart(items[i - 1], full);
      }
    } else {
      assert SpacedAt(items, i) ==> SpacedAt(r, i);
      assert FirstChar(Text(t)) == FirstChar(Text(full));
      assert After(r, i, TOP) == After(items, i, TOP);
    }
  }

  lemma TrimmedTextStaysApart(prev: Inline, full: string)
    requires Apart(prev, Text(full)) && TrimEnd(full) != ""
    ensures Apart(prev, Text(TrimEnd(full)))
  {
    var t := TrimEnd(full);
    TrimEndKeepsInk(full);
    TrimStartFixed(full);
    TrimStartFixed(t);
    if prev.Tag? && |t| < |full| {
      var all, n := prev.name + full, |prev.name| + |t|;
      assert all[..n] == prev.name + t;
      TagRunIsRun(all);
      if TagRun(all) > n {
        assert IsTagChar(all[n]) && IsWhite(all[n]);
        TagCharIsInk(all[n]);
      }
      TagLengthOfPrefix(all, n);
    }
  }

  /** Trimming the edges of a normal form leaves a normal form: an open edge allows every mark a character did. */
  lemma {:induction false} TrimEdgesIsNormal(u: Classifier, items: seq<Inline>)
    requires Normal(u, items, TOP)
    ensures Normal(u, TrimEdges(items), TOP)
    decreases WeightAll(items)
  {
    var front := TrimFront(items);
    assert Normal(u, front, TOP) by {
      if front != items {
        DropFirstIsNormal(u, items);
        if items[0].Text? && TrimStart(items[0].text) != "" {
          TrimFirstTextIsNormal(u, items, TrimStart(items[0].text));
        }
      }
    }
    var back := TrimBack(front);
    assert Normal(u, back, TOP) by {
      if back != front {
        DropLastIsNormal(u, front);
        if Last(front).Text? && TrimEnd(Last(front).text) != "" {
          TrimLastTextIsNormal(u, front, TrimEnd(Last(front).text));
        }
      }
    }
    if back != items {
      TrimEdgesIsNormal(u, back);
    }
  }

  lemma {:induction false} TrimEdgesFits(items: seq<Inline>, s: Shape)
    requires Fits(items, s)
    ensures Fits(TrimEdges(items), s)
    decreases WeightAll(items)
  {
    var front := TrimFront(items);
    assert Fits(front, s);
    var back := TrimBack(front);
    assert Fits(back, s);
    if back != items {
      TrimEdgesFits(back, s);
    }
  }

  lemma FlatConcat(a: seq<Inline>, b: seq<Inline>)
    ensures Flat(a + b) <==> Flat(a) && Flat(b)
  {
    var all := a + b;
    assert forall i: nat | i < |a| :: all[i] == a[i];
    assert forall i: nat | i < |b| :: all[|a| + i] == b[i];
    if Flat(all) {
      forall i: nat | i < |b| ensures FlatItem(b[i]) {
        assert FlatItem(all[|a| + i]);
      }
    }
  }

  // ---------------------------------------------------------------- flatten_breaks

  /** Line breaks become spaces, at every depth: a heading is one line. */
  function FlattenBreaks(items: seq<Inline>): seq<Inline>
    decreases items
  {
    if items == [] then [] else Push(FlattenBreaks(Init(items)), FlattenItem(Last(items)))
  }

  function FlattenItem(item: Inline): Inline
    decreases item
  {
    match item
    case SoftBreak => Text(" ")
    case HardBreak => Text(" ")
    case Mark(k, c) => Mark(k, FlattenBreaks(c))
    case Link(d, t, c) => Link(d, t, FlattenBreaks(c))
    case _ => item
  }

  lemma SpaceHasNoInk()
    ensures Chars(" ") == []
  {
    assert Init(" ") == "";
  }

  lemma {:induction false} FlattenBreaksInk(items: seq<Inline>)
    ensures InkAll(FlattenBreaks(items)) == InkAll(items)
    decreases items
  {
    if items != [] {
      FlattenBreaksInk(Init(items));
      FlattenItemInk(Last(items));
      PushInk(FlattenBreaks(Init(items)), FlattenItem(Last(items)));
    }
  }

  lemma {:induction false} FlattenItemInk(item: Inline)
    ensures Ink(FlattenItem(item)) == Ink(item)
    decreases item
  {
    SpaceHasNoInk();
    match item
    case Mark(_, c) => FlattenBreaksInk(c);
    case Link(_, _, c) => FlattenBreaksInk(c);
    case _ =>
  }

  function Without(s: Shape): Shape {
    s.(soft := false, hard := false)
  }

  lemma {:induction false} FlattenBreaksFits(items: seq<Inline>, s: Shape)
    requires Fits(items, s)
    ensures Fits(FlattenBreaks(items), Without(s))
    decreases items
  {
    if items != [] {
      FlattenBreaksFits(Init(items), s);
      assert FitsItem(Last(items), s);
      FlattenItemFits(Last(items), s);
      PushFits(FlattenBreaks(Init(items)), FlattenItem(Last(items)), Without(s));
    }
  }

  lemma {:induction false} FlattenItemFits(item: Inline, s: Shape)
    requires FitsItem(item, s)
    ensures FitsItem(FlattenItem(item), Without(s))
    decreases item
  {
    match item
    case Mark(k, c) => FlattenBreaksFits(c, Under(s, k));
    case Link(_, _, c) => FlattenBreaksFits(c, s);
    case _ =>
  }

  lemma {:induction false} AnythingFits(items: seq<Inline>)
    ensures Fits(items, Shape({}, true, true, true))
    decreases items
  {
    forall i: nat | i < |items| ensures FitsItem(items[i], Shape({}, true, true, true)) {
      match items[i]
      case Mark(_, c) => AnythingFits(c);
      case Link(_, _, c) => AnythingFits(c);
      case _ =>
    }
  }

  /** A flattened run holds no break at any depth. */
  lemma FlattenedIsBreakFree(items: seq<Inline>)
    ensures Fits(FlattenBreaks(items), BREAK_FREE)
  {
    AnythingFits(items);
    FlattenBreaksFits(items, Shape({}, true, true, true));
  }

  lemma {:induction false} BreakFreeNormalIsFlattened(u: Classifier, items: seq<Inline>, ctx: Context)
    requires Normal(u, items, ctx) && Fits(items, BREAK_FREE)
    ensures FlattenBreaks(items) == items
    decreases items, 1
  {
    NormalIsSpaced(u, items, ctx);
    forall i: nat | i < |items| ensures FlattenItem(items[i]) == items[i] {
      assert NormalWithin(u, items[i], ctx.inside) && FitsItem(items[i], BREAK_FREE);
      BreakFreeItemIsFlattened(u, items[i], ctx.inside);
    }
    FlattenFixedItems(items);
  }

  lemma {:induction false} BreakFreeItemIsFlattened(u: Classifier, item: Inline, inside: bool)
    requires NormalWithin(u, item, inside) && FitsItem(item, BREAK_FREE)
    ensures FlattenItem(item) == item
    decreases item, 0
  {
    match item
    case Mark(k, c) => BreakFreeNormalIsFlattened(u, c, MarkContext(k, inside));
    case Link(_, _, c) => BreakFreeNormalIsFlattened(u, c, LinkContext(inside));
    case _ =>
  }

  lemma {:induction false} FlattenFixedItems(items: seq<Inline>)
    requires Spaced(items)
    requires forall i: nat | i < |items| :: FlattenItem(items[i]) == items[i]
    ensures FlattenBreaks(items) == items
    decreases |items|
  {
    if items != [] {
      var init := Init(items);
      InitLast(items);
      SpacedSnoc(init, Last(items));
      assert forall i: nat | i < |init| :: init[i] == items[i];
      FlattenFixedItems(init);
      PushWeight(init, Last(items));
    }
  }

  lemma {:induction false} BreakFreeFlattenWeight(items: seq<Inline>)
    requires Fits(items, BREAK_FREE)
    ensures WeightAll(FlattenBreaks(items)) <= WeightAll(items)
    decreases items
  {
    if items != [] {
      var init, last := Init(items), Last(items);
      InitLast(items);
      FitsConcat(init, [last], BREAK_FREE);
      assert FitsItem([last][0], BREAK_FREE);
      BreakFreeFlattenWeight(init);
      var out, item := FlattenBreaks(init), FlattenItem(last);
      PushWeight(out, item);
      WeightSnoc(out, item);
      match last
      case Mark(_, c) => BreakFreeFlattenWeight(c);
      case Link(_, _, c) => BreakFreeFlattenWeight(c);
      case _ =>
    }
  }
}
