/**
 * Canonicalization keeps the words of a note apart as they were: it conserves the sequence of visible characters,
 * references and separations, in which white space and line breaks side by side count as one separation, as strong as
 * the strongest of them (crates/mb-core/src/canonical.rs).
 */
module Signs {
  import opened Strings
  import opened Model
  import opened Syntax
  import opened Flanking
  import opened Inlines
  import opened Settling
  import opened CanonicalInlines
  import opened Trimming
  import opened Cells

  // ---------------------------------------------------------------- signs

  /** Something visible, or a separation: 0 for white space, 1 for a soft break, 2 for a hard one. */
  datatype Sign = Seen(glyph: Glyph) | White(rank: nat)

  function SeenAll(glyphs: seq<Glyph>): seq<Sign> {
    seq(|glyphs|, i requires 0 <= i < |glyphs| => Seen(glyphs[i]))
  }

  function CharSign(c: char): Sign {
    if IsWhite(c) then White(0) else Seen(Ch(c))
  }

  function TextSigns(t: string): seq<Sign> {
    seq(|t|, i requires 0 <= i < |t| => CharSign(t[i]))
  }

  function Signs(item: Inline): seq<Sign>
    decreases item
  {
    match item
    case Text(t) => TextSigns(t)
    case Mark(_, c) => SignsAll(c)
    case Code(c) => SeenAll(CodeChars(c))
    case Math(m) => SeenAll(MathChars(m))
    case Link(d, t, c) => [Seen(LinkOpen(d, t))] + SignsAll(c) + [Seen(LinkClose)]
    case Tag(t) => [Seen(Ch('#'))] + TextSigns(t)
    case SoftBreak => [White(1)]
    case HardBreak => [White(2)]
    case _ => [Seen(Atom(item))]
  }

  function SignsAll(items: seq<Inline>): seq<Sign>
    decreases items
  {
    if items == [] then [] else SignsAll(Init(items)) + Signs(Last(items))
  }

  lemma SignsSnoc(a: seq<Inline>, x: Inline)
    ensures SignsAll(a + [x]) == SignsAll(a) + Signs(x)
  {
    SnocInit(a, x);
  }

  lemma SignsPair(a: seq<Inline>, x: Inline, y: Inline)
    ensures SignsAll(a + [x, y]) == SignsAll(a) + Signs(x) + Signs(y)
  {
    SignsSnoc(a, x);
    SignsSnoc(a + [x], y);
    assert a + [x] + [y] == a + [x, y];
  }

  lemma TextSignsConcat(a: string, b: string)
    ensures TextSigns(a + b) == TextSigns(a) + TextSigns(b)
  {
  }

  // ---------------------------------------------------------------- the same separations

  function Stronger(a: nat, b: nat): nat {
    if a < b then b else a
  }

  /** One sign more; a separation behind another becomes one with it. */
  function Put(out: seq<Sign>, s: Sign): seq<Sign> {
    if s.White? && out != [] && Last(out).White? then Init(out) + [White(Stronger(Last(out).rank, s.rank))] else out + [s]
  }

  function Onto(out: seq<Sign>, signs: seq<Sign>): seq<Sign> {
    if signs == [] then out else Put(Onto(out, Init(signs)), Last(signs))
  }

  /** Separations side by side as one. */
  function Squash(signs: seq<Sign>): seq<Sign> {
    Onto([], signs)
  }

  /** The same visible signs in the same order, with as strong separations at the same places. */
  predicate Same(a: seq<Sign>, b: seq<Sign>) {
    Squash(a) == Squash(b)
  }

  lemma {:induction false} OntoConcat(out: seq<Sign>, a: seq<Sign>, b: seq<Sign>)
    ensures Onto(out, a + b) == Onto(Onto(out, a), b)
  {
    if b == [] {
      assert a + b == a;
    } else {
      InitOfConcat(a, b);
      OntoConcat(out, a, Init(b));
    }
  }

  lemma OntoPut(out: seq<Sign>, x: seq<Sign>, s: Sign)
    ensures Onto(out, Put(x, s)) == Put(Onto(out, x), s)
  {
    if s.White? && x != [] && Last(x).White? {
      var merged := White(Stronger(Last(x).rank, s.rank));
      SnocInit(Init(x), merged);
      var front := Onto(out, Init(x));
      PutTwice(front, Last(x).rank, s.rank);
    } else {
      SnocInit(x, s);
    }
  }

  lemma PutTwice(front: seq<Sign>, a: nat, b: nat)
    ensures Put(Put(front, White(a)), White(b)) == Put(front, White(Stronger(a, b)))
  {
    if front != [] && Last(front).White? {
      SnocInit(Init(front), White(Stronger(Last(front).rank, a)));
    } else {
      SnocInit(front, White(a));
    }
  }

  lemma {:induction false} OntoSquashed(out: seq<Sign>, b: seq<Sign>)
    ensures Onto(out, Squash(b)) == Onto(out, b)
  {
    if b != [] {
      OntoSquashed(out, Init(b));
      OntoPut(out, Squash(Init(b)), Last(b));
    }
  }

  /** What is the same stays the same within the same. */
  lemma SameConcat(a: seq<Sign>, b: seq<Sign>, c: seq<Sign>, d: seq<Sign>)
    requires Same(a, b) && Same(c, d)
    ensures Same(a + c, b + d)
  {
    OntoConcat([], a, c);
    OntoConcat([], b, d);
    OntoSquashed(Squash(a), c);
    OntoSquashed(Squash(b), d);
  }

  lemma OntoOne(out: seq<Sign>, s: Sign)
    ensures Onto(out, [s]) == Put(out, s)
  {
    assert Init([s]) == [];
  }

  lemma Separations(a: nat, b: nat)
    ensures Same([White(a), White(b)], [White(Stronger(a, b))])
  {
    OntoOne([], White(a));
    OntoOne([], White(Stronger(a, b)));
    SnocInit([White(a)], White(b));
    assert [White(a)] + [White(b)] == [White(a), White(b)];
    PutTwice([], a, b);
  }

  /** White space in front of a break or behind one is part of it. */
  lemma BlankBeforeBreak(r: nat)
    ensures Same([White(0), White(r)], [White(r)]) && Same([White(r), White(0)], [White(r)])
  {
    Separations(0, r);
    Separations(r, 0);
  }

  lemma {:induction false} TrimmedBeforeBreak(t: string, r: nat)
    ensures Same(TextSigns(t) + [White(r)], TextSigns(TrimEnd(t)) + [White(r)])
    decreases |t|
  {
    if t != "" && IsWhite(Last(t)) {
      var init := Init(t);
      InitLast(t);
      TextSignsConcat(init, [Last(t)]);
      assert TextSigns([Last(t)]) == [White(0)];
      BlankBeforeBreak(r);
      SameConcat(TextSigns(init), TextSigns(init), [White(0), White(r)], [White(r)]);
      assert TextSigns(t) + [White(r)] == TextSigns(init) + [White(0), White(r)];
      TrimmedBeforeBreak(init, r);
    }
  }

  lemma {:induction false} TrimmedBehindBreak(t: string, r: nat)
    ensures Same([White(r)] + TextSigns(t), [White(r)] + TextSigns(TrimStart(t)))
    decreases |t|
  {
    if t != "" && IsWhite(t[0]) {
      var rest := t[1..];
      BlankBeforeBreak(r);
      SameConcat([White(r), White(0)], [White(r)], TextSigns(rest), TextSigns(rest));
      assert [White(r)] + TextSigns(t) == [White(r), White(0)] + TextSigns(rest);
      TrimmedBehindBreak(rest, r);
    }
  }

  // ---------------------------------------------------------------- a push

  function RankOf(item: Inline): nat
    requires IsBreak(item)
  {
    if item.HardBreak? then 2 else 1
  }

  lemma EmptyTextSigns(front: seq<Sign>)
    ensures front + TextSigns("") == front
  {
  }

  /** The text at the end, trimmed, or gone when nothing is left. */
  lemma TrimmedTextSigns(out: seq<Inline>)
    requires out != [] && Last(out).Text?
    ensures SignsAll(out) == SignsAll(Init(out)) + TextSigns(Last(out).text)
    ensures SignsAll(TrimBeforeBreak(out)) == SignsAll(Init(out)) + TextSigns(TrimEnd(Last(out).text))
  {
    var t := TrimEnd(Last(out).text);
    SignsSnoc(Init(out), Text(t));
    EmptyTextSigns(SignsAll(Init(out)));
  }

  lemma TrimBeforeBreakSigns(out: seq<Inline>, r: nat)
    ensures Same(SignsAll(TrimBeforeBreak(out)) + [White(r)], SignsAll(out) + [White(r)])
  {
    if out != [] && Last(out).Text? {
      var t, front := Last(out).text, SignsAll(Init(out));
      TrimmedTextSigns(out);
      TrimmedBeforeBreak(t, r);
      SameConcat(front, front, TextSigns(TrimEnd(t)) + [White(r)], TextSigns(t) + [White(r)]);
      Associate(front, TextSigns(TrimEnd(t)), [White(r)]);
      Associate(front, TextSigns(t), [White(r)]);
    }
  }

  lemma BreakSigns(out: seq<Inline>, item: Inline)
    requires IsBreak(item)
    ensures SignsAll(out + [item]) == SignsAll(out) + [White(RankOf(item))]
  {
    SignsSnoc(out, item);
  }

  lemma BesideBreak(front: seq<Sign>, a: nat, b: nat)
    ensures Same(front + [White(Stronger(a, b))], front + [White(a)] + [White(b)])
  {
    Separations(a, b);
    SameConcat(front, front, [White(Stronger(a, b))], [White(a), White(b)]);
    assert front + [White(a)] + [White(b)] == front + [White(a), White(b)];
  }

  /** Of two breaks side by side the stronger stays. */
  lemma MergedBreakSigns(init: seq<Inline>, last: Inline, item: Inline)
    requires IsBreak(last) && IsBreak(item)
    ensures Same(SignsAll(init + [if item.HardBreak? then HardBreak else last]), SignsAll(init + [last]) + [White(RankOf(item))])
  {
    BreakSigns(init, last);
    BreakSigns(init, HardBreak);
    BesideBreak(SignsAll(init), RankOf(last), RankOf(item));
  }

  lemma PushBreakSigns(out: seq<Inline>, item: Inline)
    requires IsBreak(item)
    ensures Same(SignsAll(PushBreak(out, item)), SignsAll(out) + [White(RankOf(item))])
  {
    if out == [] || !IsBreak(Last(out)) {
      BreakSigns(out, item);
    } else {
      InitLast(out);
      MergedBreakSigns(Init(out), Last(out), item);
    }
  }

  lemma BreakPushSigns(out: seq<Inline>, item: Inline)
    requires IsBreak(item)
    ensures Same(SignsAll(PushBreak(TrimBeforeBreak(out), item)), SignsAll(out) + [White(RankOf(item))])
  {
    TrimBeforeBreakSigns(out, RankOf(item));
    PushBreakSigns(TrimBeforeBreak(out), item);
  }

  lemma TagSigns(name: string)
    ensures Signs(Tag(name + "_")) == Signs(Tag(name)) + TextSigns("_")
    ensures TextSigns("#_") == Signs(Tag("_"))
  {
    TextSignsConcat(name, "_");
    Associate([Seen(Ch('#'))], TextSigns(name), TextSigns("_"));
    assert "#" + "_" == "#_" && TextSigns("#") == [Seen(Ch('#'))];
    TextSignsConcat("#", "_");
  }

  lemma {:induction false} PushTagSigns(out: seq<Inline>, tag: string)
    requires tag != "" && Last(tag) == '_'
    ensures Same(SignsAll(Push(out, Tag(tag))), SignsAll(out) + Signs(Tag(tag)))
    decreases Weight(Tag(tag)), 0
  {
    var name := Init(tag);
    InitLast(tag);
    TagSigns(name);
    if name == "" {
      PushSigns(out, Text("#_"));
      assert tag == "_";
    } else {
      var front, next := SignsAll(out), Push(out, Tag(name));
      PushSigns(out, Tag(name));
      PushSigns(next, Text("_"));
      SameConcat(SignsAll(next), front + Signs(Tag(name)), TextSigns("_"), TextSigns("_"));
      Associate(front, Signs(Tag(name)), TextSigns("_"));
    }
  }

  lemma AbsorbedSigns(init: seq<Inline>, tag: string, text: string)
    requires Absorbs(tag, text)
    ensures SignsAll(init + Absorbed(tag, text)) == SignsAll(init) + Signs(Tag(tag)) + Signs(Text(text))
  {
    var combined := tag + text;
    var n := TagLength(combined).value;
    TagThenText(SignsAll(init), tag, text);
    if n == |combined| {
      SignsSnoc(init, Tag(combined));
    } else {
      var taken, rest := combined[..n], combined[n..];
      assert taken + rest == combined;
      TagThenText(SignsAll(init), taken, rest);
      SignsPair(init, Tag(taken), Text(rest));
    }
  }

  lemma TagThenText(front: seq<Sign>, tag: string, text: string)
    ensures front + Signs(Tag(tag)) + TextSigns(text) == front + Signs(Tag(tag + text))
  {
    TextSignsConcat(tag, text);
    Associate([Seen(Ch('#'))], TextSigns(tag), TextSigns(text));
    Associate(front, Signs(Tag(tag)), TextSigns(text));
  }

  lemma {:induction false} PushLastSigns(init: seq<Inline>, last: Inline, item: Inline)
    ensures Same(SignsAll(PushLast(init, last, item)), SignsAll(init + [last]) + Signs(item))
    decreases Weight(item), 0
  {
    var front := SignsAll(init);
    SignsSnoc(init, last);
    SignsPair(init, last, item);
    Associate(front, Signs(last), Signs(item));
    if last.Tag? && item.Text? && Absorbs(last.name, item.text) {
      AbsorbedSigns(init, last.name, item.text);
    } else if last.Text? && item.Text? {
      TextSignsConcat(last.text, item.text);
      SignsSnoc(init, Text(last.text + item.text));
    } else if last.Code? && item.Code? {
      SignsSnoc(init, Code(last.code + item.code));
      assert Signs(Code(last.code + item.code)) == Signs(last) + Signs(item);
    } else if last.Math? && item.Math? {
      SignsSnoc(init, Math(last.tex + item.tex));
      assert Signs(Math(last.tex + item.tex)) == Signs(last) + Signs(item);
    } else if last.Mark? && item.Mark? && last.kind == item.kind {
      var all := PushAll(last.children, item.children);
      PushAllSigns(last.children, item.children);
      SignsSnoc(init, Mark(last.kind, all));
      SameConcat(front, front, SignsAll(all), SignsAll(last.children) + SignsAll(item.children));
    }
  }

  lemma BehindBreakSigns(out: seq<Inline>, text: string)
    requires out != [] && IsBreak(Last(out))
    ensures Same(SignsAll(out + [Text(TrimStart(text))]), SignsAll(out) + TextSigns(text))
  {
    var r := RankOf(Last(out));
    InitLast(out);
    BreakSigns(Init(out), Last(out));
    SignsSnoc(out, Text(TrimStart(text)));
    TrimmedBehind(SignsAll(Init(out)), text, r);
  }

  lemma TrimmedBehind(front: seq<Sign>, text: string, r: nat)
    ensures Same(front + [White(r)] + TextSigns(TrimStart(text)), front + [White(r)] + TextSigns(text))
  {
    TrimmedBehindBreak(text, r);
    SameConcat(front, front, [White(r)] + TextSigns(TrimStart(text)), [White(r)] + TextSigns(text));
    Associate(front, [White(r)], TextSigns(TrimStart(text)));
    Associate(front, [White(r)], TextSigns(text));
  }

  /** A push keeps every sign, in order. */
  lemma {:induction false} PushSigns(out: seq<Inline>, item: Inline)
    ensures Same(SignsAll(Push(out, item)), SignsAll(out) + Signs(item))
    decreases Weight(item), 1
  {
    SignsSnoc(out, item);
    if item == Text("") {
      assert TextSigns("") == [] && SignsAll(out) + [] == SignsAll(out);
    } else if IsBreak(item) {
      BreakPushSigns(out, item);
    } else if item.Tag? && item.name != "" && Last(item.name) == '_' {
      PushTagSigns(out, item.name);
    } else if out == [] {
      assert out + [item] == [item];
    } else if IsBreak(Last(out)) && item.Text? {
      BehindBreakSigns(out, item.text);
    } else {
      InitLast(out);
      PushLastSigns(Init(out), Last(out), item);
    }
  }

  lemma {:induction false} PushAllSigns(out: seq<Inline>, items: seq<Inline>)
    ensures Same(SignsAll(PushAll(out, items)), SignsAll(out) + SignsAll(items))
    decreases WeightAll(items), 2
  {
    if items == [] {
      assert SignsAll(out) + [] == SignsAll(out);
    } else {
      var before, last := PushAll(out, Init(items)), Last(items);
      PushAllSigns(out, Init(items));
      PushSigns(before, last);
      SameConcat(SignsAll(before), SignsAll(out) + SignsAll(Init(items)), Signs(last), Signs(last));
      Associate(SignsAll(out), SignsAll(Init(items)), Signs(last));
    }
  }

  // ---------------------------------------------------------------- settling

  lemma {:induction false} DropPrefixSigns(u: Classifier, items: seq<Inline>, n: nat, ctx: Context)
    requires n <= |items|
    ensures Same(SignsAll(DropPrefix(u, items, n, ctx)), SignsAll(items[..n]))
  {
    if n > 0 {
      var before, item := DropPrefix(u, items, n - 1, ctx), items[n - 1];
      DropPrefixSigns(u, items, n - 1, ctx);
      if MustDrop(u, items, n - 1, before, ctx) {
        PushAllSigns(before, item.children);
      } else {
        PushSigns(before, item);
      }
      TakeSnoc(items, n - 1);
      SignsSnoc(items[..n - 1], item);
      SameConcat(SignsAll(before), SignsAll(items[..n - 1]), Signs(item), Signs(item));
    }
  }

  lemma DropMarksSigns(u: Classifier, items: seq<Inline>, ctx: Context)
    ensures Same(SignsAll(DropMarks(u, items, ctx)), SignsAll(items))
  {
    DropPrefixSigns(u, items, |items|, ctx);
    assert items[..|items|] == items;
  }

  lemma {:induction false} SettleSigns(u: Classifier, items: seq<Inline>, ctx: Context)
    ensures Same(SignsAll(Settle(u, items, ctx)), SignsAll(items))
    decreases WeightAll(items), 2, 0
  {
    DropMarksWeight(u, items, ctx);
    DropMarksSigns(u, items, ctx);
    var dropped := DropMarks(u, items, ctx);
    SettleEachSigns(u, dropped, ctx.inside);
    var next := SettleEach(u, dropped, ctx.inside);
    if next != items {
      SettleSigns(u, next, ctx);
    }
  }

  lemma {:induction false} SettleEachSigns(u: Classifier, items: seq<Inline>, inside: bool)
    ensures Same(SignsAll(SettleEach(u, items, inside)), SignsAll(items))
    decreases WeightAll(items), 1, |items|
  {
    if items != [] {
      var init, last := SettleEach(u, Init(items), inside), SettleItem(u, Last(items), inside);
      SettleEachSigns(u, Init(items), inside);
      SettleItemSigns(u, Last(items), inside);
      SignsSnoc(init, last);
      SameConcat(SignsAll(init), SignsAll(Init(items)), Signs(last), Signs(Last(items)));
    }
  }

  lemma SameInLink(d: string, t: Option<string>, a: seq<Inline>, b: seq<Inline>)
    requires Same(SignsAll(a), SignsAll(b))
    ensures Same(Signs(Link(d, t, a)), Signs(Link(d, t, b)))
  {
    SameConcat([Seen(LinkOpen(d, t))], [Seen(LinkOpen(d, t))], SignsAll(a), SignsAll(b));
    SameConcat([Seen(LinkOpen(d, t))] + SignsAll(a), [Seen(LinkOpen(d, t))] + SignsAll(b), [Seen(LinkClose)], [Seen(LinkClose)]);
  }

  lemma {:induction false} SettleItemSigns(u: Classifier, item: Inline, inside: bool)
    ensures Same(Signs(SettleItem(u, item, inside)), Signs(item))
    decreases Weight(item), 0, 0
  {
    match item
    case Mark(k, c) => SettleSigns(u, c, MarkContext(k, inside));
    case Link(d, t, c) =>
      SettleSigns(u, c, LinkContext(inside));
      SameInLink(d, t, Settle(u, c, LinkContext(inside)), c);
    case _ =>
  }

  // ---------------------------------------------------------------- canonicalizing

  lemma {:induction false} UnwrapSameSigns(children: seq<Inline>, kind: MarkKind)
    ensures Same(SignsAll(UnwrapSame(children, kind)), SignsAll(children))
    decreases children
  {
    if children != [] {
      var out, child := UnwrapSame(Init(children), kind), Last(children);
      UnwrapSameSigns(Init(children), kind);
      if child.Mark? && child.kind == kind {
        var inner := UnwrapSame(child.children, kind);
        UnwrapSameSigns(child.children, kind);
        PushAllSigns(out, inner);
        SameConcat(SignsAll(out), SignsAll(Init(children)), SignsAll(inner), Signs(child));
      } else {
        PushSigns(out, child);
        SameConcat(SignsAll(out), SignsAll(Init(children)), Signs(child), Signs(child));
      }
    }
  }

  /** Canonicalizing keeps every visible character and reference, and every separation as strong as it was. */
  lemma {:induction false} CanonicalKeepsSigns(u: Classifier, items: seq<Inline>)
    ensures Same(SignsAll(Canonical(u, items)), SignsAll(items))
    decreases items, 1
  {
    var each := CanonicalEach(u, items);
    CanonicalEachSigns(u, items);
    PushAllSigns([], each);
    assert SignsAll([]) + SignsAll(each) == SignsAll(each);
    SettleSigns(u, PushAll([], each), TOP);
  }

  lemma {:induction false} CanonicalEachSigns(u: Classifier, items: seq<Inline>)
    ensures Same(SignsAll(CanonicalEach(u, items)), SignsAll(items))
    decreases items, 0
  {
    if items != [] {
      var init, last := CanonicalEach(u, Init(items)), CanonicalItem(u, Last(items));
      CanonicalEachSigns(u, Init(items));
      CanonicalItemSigns(u, Last(items));
      SignsSnoc(init, last);
      SameConcat(SignsAll(init), SignsAll(Init(items)), Signs(last), Signs(Last(items)));
    }
  }

  lemma {:induction false} CanonicalItemSigns(u: Classifier, item: Inline)
    ensures Same(Signs(CanonicalItem(u, item)), Signs(item))
    decreases item, 0
  {
    match item
    case Mark(k, c) =>
      CanonicalKeepsSigns(u, c);
      UnwrapSameSigns(Canonical(u, c), k);
      SettleSigns(u, UnwrapSame(Canonical(u, c), k), MarkContext(k, false));
    case Link(d, t, c) =>
      CanonicalKeepsSigns(u, c);
      SameInLink(d, t, Canonical(u, c), c);
    case _ =>
  }

  // ---------------------------------------------------------------- lines, headings and cells

  const EDGE: seq<Sign> := [White(2)]

  /** A line between the breaks around it. */
  function Framed(signs: seq<Sign>): seq<Sign> {
    EDGE + signs + EDGE
  }

  lemma {:induction false} SignsConcat(a: seq<Inline>, b: seq<Inline>)
    ensures SignsAll(a + b) == SignsAll(a) + SignsAll(b)
    decreases b
  {
    if b == [] {
      assert a + b == a;
    } else {
      InitOfConcat(a, b);
      SignsConcat(a, Init(b));
      Associate(SignsAll(a), SignsAll(Init(b)), Signs(Last(b)));
    }
  }

  lemma SignsCons(item: Inline, rest: seq<Inline>)
    ensures SignsAll([item] + rest) == Signs(item) + SignsAll(rest)
  {
    SignsConcat([item], rest);
    SignsSnoc([], item);
    assert [] + [item] == [item];
  }

  lemma EdgeTakesBreak(item: Inline)
    requires IsBreak(item)
    ensures Same(EDGE + Signs(item), EDGE) && Same(Signs(item) + EDGE, EDGE)
  {
    var r := RankOf(item);
    Separations(2, r);
    Separations(r, 2);
    assert EDGE + Signs(item) == [White(2), White(r)] && Signs(item) + EDGE == [White(r), White(2)];
  }

  lemma BehindEdge(item: Inline, kept: seq<Inline>, rest: seq<Inline>)
    requires Same(EDGE + SignsAll(kept), EDGE + Signs(item))
    ensures Same(EDGE + SignsAll(kept + rest), EDGE + SignsAll([item] + rest))
  {
    SignsConcat(kept, rest);
    SignsCons(item, rest);
    SameConcat(EDGE + SignsAll(kept), EDGE + Signs(item), SignsAll(rest), SignsAll(rest));
    Associate(EDGE, SignsAll(kept), SignsAll(rest));
    Associate(EDGE, Signs(item), SignsAll(rest));
  }

  lemma TrimFrontSigns(items: seq<Inline>)
    ensures Same(EDGE + SignsAll(TrimFront(items)), EDGE + SignsAll(items))
  {
    if items != [] {
      var first, rest := items[0], items[1..];
      assert items == [first] + rest && [] + rest == rest && EDGE + [] == EDGE;
      if IsBreak(first) {
        EdgeTakesBreak(first);
        BehindEdge(first, [], rest);
      } else if first.Text? {
        var t := TrimStart(first.text);
        var kept := if t == "" then [] else [Text(t)];
        TrimmedBehindBreak(first.text, 2);
        SignsSnoc([], Text(t));
        assert SignsAll(kept) == TextSigns(t);
        BehindEdge(first, kept, rest);
      }
    }
  }

  lemma TrimBackSigns(items: seq<Inline>)
    ensures Same(SignsAll(TrimBack(items)) + EDGE, SignsAll(items) + EDGE)
  {
    if items != [] && IsBreak(Last(items)) {
      var front := SignsAll(Init(items));
      EdgeTakesBreak(Last(items));
      SameConcat(front, front, EDGE, Signs(Last(items)) + EDGE);
      Associate(front, Signs(Last(items)), EDGE);
    } else if items != [] && Last(items).Text? {
      TrimBeforeBreakSigns(items, 2);
    }
  }

  lemma FramedTrim(items: seq<Inline>)
    ensures Same(Framed(SignsAll(TrimBack(TrimFront(items)))), Framed(SignsAll(items)))
  {
    var front := TrimFront(items);
    TrimFrontSigns(items);
    TrimBackSigns(front);
    SameConcat(EDGE + SignsAll(front), EDGE + SignsAll(items), EDGE, EDGE);
    SameConcat(EDGE, EDGE, SignsAll(TrimBack(front)) + EDGE, SignsAll(front) + EDGE);
    Associate(EDGE, SignsAll(TrimBack(front)), EDGE);
    Associate(EDGE, SignsAll(front), EDGE);
  }

  lemma {:induction false} TrimEdgesSigns(items: seq<Inline>)
    ensures Same(Framed(SignsAll(TrimEdges(items))), Framed(SignsAll(items)))
    decreases WeightAll(items)
  {
    var next := TrimBack(TrimFront(items));
    FramedTrim(items);
    if next != items {
      TrimEdgesSigns(next);
    }
  }

  lemma SameFramed(a: seq<Sign>, b: seq<Sign>)
    requires Same(a, b)
    ensures Same(Framed(a), Framed(b))
  {
    SameConcat(EDGE, EDGE, a, b);
    SameConcat(EDGE + a, EDGE + b, EDGE, EDGE);
  }

  /** A paragraph loses no sign but the separations at its ends, where a new block begins anyway. */
  lemma LineKeepsSigns(u: Classifier, items: seq<Inline>)
    ensures Same(Framed(SignsAll(Line(u, items))), Framed(SignsAll(items)))
  {
    TrimEdgesSigns(Canonical(u, items));
    CanonicalKeepsSigns(u, items);
    SameFramed(SignsAll(Canonical(u, items)), SignsAll(items));
  }

  function LevelSign(s: Sign): Sign {
    if s.White? then White(0) else s
  }

  /** Every separation as weak as white space. */
  function Level(signs: seq<Sign>): seq<Sign> {
    seq(|signs|, i requires 0 <= i < |signs| => LevelSign(signs[i]))
  }

  lemma LevelConcat(a: seq<Sign>, b: seq<Sign>)
    ensures Level(a + b) == Level(a) + Level(b)
  {
  }

  lemma LevelPut(out: seq<Sign>, s: Sign)
    ensures Level(Put(out, s)) == Put(Level(out), LevelSign(s))
  {
    if s.White? && out != [] && Last(out).White? {
      LevelConcat(Init(out), [White(Stronger(Last(out).rank, s.rank))]);
      assert Level(Init(out)) == Init(Level(out));
    } else {
      LevelConcat(out, [s]);
    }
  }

  lemma {:induction false} LevelSquash(signs: seq<Sign>)
    ensures Squash(Level(signs)) == Level(Squash(signs))
  {
    if signs != [] {
      LevelSquash(Init(signs));
      LevelPut(Squash(Init(signs)), Last(signs));
      assert Init(Level(signs)) == Level(Init(signs));
    }
  }

  lemma SameLevel(a: seq<Sign>, b: seq<Sign>)
    requires Same(a, b)
    ensures Same(Level(a), Level(b))
  {
    LevelSquash(a);
    LevelSquash(b);
  }

  /** A heading's breaks become white space: its words stay apart. */
  lemma {:induction false} FlattenBreaksSigns(items: seq<Inline>)
    ensures Same(Level(SignsAll(FlattenBreaks(items))), Level(SignsAll(items)))
    decreases items
  {
    if items != [] {
      var init, item := FlattenBreaks(Init(items)), FlattenItem(Last(items));
      FlattenBreaksSigns(Init(items));
      FlattenItemSigns(Last(items));
      PushSigns(init, item);
      SameLevel(SignsAll(Push(init, item)), SignsAll(init) + Signs(item));
      LevelConcat(SignsAll(init), Signs(item));
      LevelConcat(SignsAll(Init(items)), Signs(Last(items)));
      SameConcat(Level(SignsAll(init)), Level(SignsAll(Init(items))), Level(Signs(item)), Level(Signs(Last(items))));
    }
  }

  lemma {:induction false} FlattenItemSigns(item: Inline)
    ensures Same(Level(Signs(FlattenItem(item))), Level(Signs(item)))
    decreases item
  {
    match item
    case Mark(_, c) => FlattenBreaksSigns(c);
    case Link(d, t, c) =>
      FlattenBreaksSigns(c);
      SameLevelInLink([Seen(LinkOpen(d, t))], SignsAll(FlattenBreaks(c)), SignsAll(c), [Seen(LinkClose)]);
    case _ =>
  }

  lemma SameLevelInLink(front: seq<Sign>, a: seq<Sign>, b: seq<Sign>, back: seq<Sign>)
    requires Same(Level(a), Level(b))
    ensures Same(Level(front + a + back), Level(front + b + back))
  {
    SameConcat(Level(front), Level(front), Level(a), Level(b));
    SameConcat(Level(front) + Level(a), Level(front) + Level(b), Level(back), Level(back));
    LevelConcat(front, a);
    LevelConcat(front, b);
    LevelConcat(front + a, back);
    LevelConcat(front + b, back);
  }

  /** A heading or a callout's title: one line of the same words. */
  lemma HeadingKeepsSigns(u: Classifier, title: seq<Inline>)
    ensures Same(Level(Framed(SignsAll(Line(u, FlattenBreaks(title))))), Level(Framed(SignsAll(title))))
  {
    LineKeepsSigns(u, FlattenBreaks(title));
    SameLevel(Framed(SignsAll(Line(u, FlattenBreaks(title)))), Framed(SignsAll(FlattenBreaks(title))));
    FlattenBreaksSigns(title);
    SameLevelInLink(EDGE, SignsAll(FlattenBreaks(title)), SignsAll(title), EDGE);
  }

  /** Behind a break, or at the start, there is room for one more separation. */
  lemma EdgeIsTaken(run: seq<Inline>)
    requires run == [] || IsBreak(Last(run))
    ensures Same(Level(EDGE + SignsAll(run)), Level(EDGE + SignsAll(run)) + Level(EDGE))
  {
    if run != [] {
      InitLast(run);
      BreakLevel(Init(run), Last(run));
      LevelConcat(EDGE + SignsAll(Init(run)), EDGE);
      EdgeTwice(Level(EDGE + SignsAll(Init(run))));
    } else {
      assert EDGE + [] == EDGE;
      EdgeTwice([]);
    }
  }

  lemma EdgeTwice(front: seq<Sign>)
    ensures Same(front + Level(EDGE), front + Level(EDGE) + Level(EDGE))
  {
    assert Level(EDGE) == [White(0)];
    BesideBreak(front, 0, 0);
  }

  lemma AddBreak(a: seq<Inline>, b: seq<Inline>, x: Inline, y: Inline)
    requires IsBreak(x) && IsBreak(y)
    requires Same(Level(Framed(SignsAll(a))), Level(Framed(SignsAll(b))))
    ensures Same(Level(EDGE + SignsAll(a + [x])), Level(EDGE + SignsAll(b + [y])))
  {
    BreakLevel(a, x);
    BreakLevel(b, y);
  }

  lemma BreakLevel(a: seq<Inline>, x: Inline)
    requires IsBreak(x)
    ensures Level(EDGE + SignsAll(a + [x])) == Level(Framed(SignsAll(a)))
  {
    SignsSnoc(a, x);
    Associate(EDGE, SignsAll(a), Signs(x));
    LevelConcat(EDGE + SignsAll(a), Signs(x));
    LevelConcat(EDGE + SignsAll(a), EDGE);
    assert Level(Signs(x)) == Level(EDGE);
  }

  lemma {:induction false} FlushedSigns(u: Classifier, items: seq<Inline>)
    ensures Same(Level(EDGE + SignsAll(Flushed(u, items))), Level(EDGE + SignsAll(Lead(items))))
    ensures Flushed(u, items) == [] || IsBreak(Last(Flushed(u, items)))
    ensures Lead(items) == [] || IsBreak(Last(Lead(items)))
    decreases |items|, 0
  {
    if items != [] && IsBreak(Last(items)) {
      InitLast(items);
      CellKeepsSigns(u, Init(items));
      AddBreak(Cell(u, Init(items)), Init(items), HardBreak, Last(items));
    } else if items != [] {
      FlushedSigns(u, Init(items));
    }
  }

  /** A line behind a run of finished lines. */
  lemma LineBehind(lead: seq<Inline>, line: seq<Inline>)
    requires lead == [] || IsBreak(Last(lead))
    ensures Same(Level(Framed(SignsAll(lead + line))), Level(EDGE + SignsAll(lead)) + Level(Framed(SignsAll(line))))
  {
    var front, tail := Level(EDGE + SignsAll(lead)), Level(SignsAll(line) + EDGE);
    EdgeIsTaken(lead);
    SameConcat(front, front + Level(EDGE), tail, tail);
    Associate(front, Level(EDGE), tail);
    Associate(EDGE, SignsAll(line), EDGE);
    LevelConcat(EDGE, SignsAll(line) + EDGE);
    SignsConcat(lead, line);
    Associate(EDGE, SignsAll(lead), SignsAll(line));
    Associate(EDGE + SignsAll(lead), SignsAll(line), EDGE);
    LevelConcat(EDGE + SignsAll(lead), SignsAll(line) + EDGE);
  }

  /** A cell's breaks are kept as separations, and its words stay apart. */
  lemma {:induction false} CellKeepsSigns(u: Classifier, items: seq<Inline>)
    ensures Same(Level(Framed(SignsAll(Cell(u, items)))), Level(Framed(SignsAll(items))))
    decreases |items|, 1
  {
    var done, lead, tail := Flushed(u, items), Lead(items), Tail(items);
    LeadAndTail(items);
    FlushedSigns(u, items);
    LineBehind(done, Line(u, tail));
    LineBehind(lead, tail);
    LineKeepsSigns(u, tail);
    SameLevel(Framed(SignsAll(Line(u, tail))), Framed(SignsAll(tail)));
    SameConcat(Level(EDGE + SignsAll(done)), Level(EDGE + SignsAll(lead)),
               Level(Framed(SignsAll(Line(u, tail)))), Level(Framed(SignsAll(tail))));
  }
}
