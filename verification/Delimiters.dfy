/**
 * Which marks survive canonicalization, in the characters around them (`inlines` and `drop_unexpressible_marks` in
 * crates/mb-core/src/canonical.rs): a mark between texts, inside an emphasis, beside another mark, and around one.
 */
module Delimiters {
  import opened Strings
  import opened Model
  import opened Flanking
  import opened Inlines
  import opened Settling
  import opened CanonicalInlines

  // ---------------------------------------------------------------- what decides

  function FirstOption(s: string): Option<char> {
    if s == "" then None else Some(s[0])
  }

  /**
   * A delimiter stands between the text it encloses, of which `inner` is the character next to it, and what is
   * outside. It never faces a blank, and faces punctuation only where no word is outside.
   */
  predicate Faces(u: Classifier, outer: Option<char>, inner: char) {
    u(inner) != Whitespace && (u(inner) == Punctuation && outer.Some? ==> u(outer.value) != Other)
  }

  /** Nothing, an ASCII blank other than a vertical tab, or ASCII punctuation. */
  predicate Clear(c: Option<char>) {
    c.Some? ==> AsciiClass(c.value) != Other && c.value != '\U{000B}'
  }

  /**
   * Whether a mark around the text `t` can be written between these two neighbours. An emphasis next to an asterisk,
   * on either side of its delimiters, or inside another emphasis has only the underscore left.
   */
  predicate Stays(u: Classifier, k: MarkKind, before: Option<char>, t: string, after: Option<char>, inside: bool)
    requires t != ""
  {
    && (k != Highlight ==> Faces(u, before, t[0]) && Faces(u, after, Last(t)))
    && (k == Emphasis && (inside || before == Some('*') || t[0] == '*' || Last(t) == '*' || after == Some('*')) ==>
          Clear(before) && Clear(after))
  }

  lemma StaysIsExpressible(u: Classifier, k: MarkKind, before: Option<char>, t: string, after: Option<char>, inside: bool)
    requires t != ""
    ensures Expressible(u, k, [Text(t)], before, after, inside) <==> Stays(u, k, before, t, after, inside)
  {
  }

  // ---------------------------------------------------------------- a mark between texts

  function TextOf(s: string): seq<Inline> {
    if s == "" then [] else [Text(s)]
  }

  function Around(p: string, m: Inline, w: string): seq<Inline> {
    TextOf(p) + [m] + TextOf(w)
  }

  function MarkOf(k: MarkKind, t: string): Inline {
    Mark(k, [Text(t)])
  }

  lemma TextRunIsNormal(u: Classifier, t: string, ctx: Context)
    requires t != ""
    ensures Normal(u, [Text(t)], ctx) && Flat([Text(t)])
  {
    var run := [Text(t)];
    assert SpacedAt(run, 0) && NormalAt(u, run, 0, ctx);
  }

  lemma TextIsNormal(u: Classifier, t: string, ctx: Context)
    requires t != ""
    ensures Normal(u, [Text(t)], ctx) && Settle(u, [Text(t)], ctx) == [Text(t)]
    ensures Canonical(u, [Text(t)]) == [Text(t)]
  {
    TextRunIsNormal(u, t, ctx);
    TextRunIsNormal(u, t, TOP);
    SettledIffNormal(u, [Text(t)], ctx);
    FixedIffNormalAndFlat(u, [Text(t)]);
  }

  lemma AroundSpaced(p: string, m: Inline, w: string)
    requires m.Mark?
    ensures Spaced(Around(p, m, w))
  {
    var items := Around(p, m, w);
    forall i: nat | i < |items| ensures SpacedAt(items, i) {
    }
  }

  lemma AroundNeighbours(p: string, m: Inline, w: string, ctx: Context)
    requires m.Mark?
    ensures var items, i := Around(p, m, w), |TextOf(p)|;
      && i < |items| && items[i] == m && items[..i] == TextOf(p) && |items| == i + 1 + |TextOf(w)|
      && CharBefore(items, i, ctx) == OrElse(LastOption(p), ctx.prev)
      && After(items, i, ctx) == OrElse(FirstOption(w), ctx.next)
      && forall j: nat | j < |items| && j != i :: items[j].Text? && items[j].text != ""
  {
  }

  lemma AroundNormal(u: Classifier, p: string, k: MarkKind, t: string, w: string, ctx: Context)
    requires t != ""
    ensures Normal(u, Around(p, MarkOf(k, t), w), ctx) <==>
            Stays(u, k, OrElse(LastOption(p), ctx.prev), t, OrElse(FirstOption(w), ctx.next), ctx.inside)
  {
    var m := MarkOf(k, t);
    var items, i := Around(p, m, w), |TextOf(p)|;
    AroundSpaced(p, m, w);
    AroundNeighbours(p, m, w, ctx);
    StaysIsExpressible(u, k, OrElse(LastOption(p), ctx.prev), t, OrElse(FirstOption(w), ctx.next), ctx.inside);
    TextIsNormal(u, t, MarkContext(k, ctx.inside));
    NormalInParts(u, items, ctx);
    forall j: nat | j < |items|
      ensures NormalAt(u, items, j, ctx) <==> (j == i ==> Expressible(u, k, [Text(t)], CharBefore(items, i, ctx), After(items, i, ctx), ctx.inside))
      ensures NormalWithin(u, items[j], ctx.inside)
    {
      assert SpacedAt(items, j);
    }
  }

  lemma PushText(p: string, t: string)
    requires t != ""
    ensures PushAll(TextOf(p), [Text(t)]) == [Text(p + t)] && Push(TextOf(p), Text(t)) == [Text(p + t)]
  {
    assert Init([Text(t)]) == [] && PushAll(TextOf(p), []) == TextOf(p);
    if p == "" {
      assert p + t == t;
    } else {
      assert Init([Text(p)]) == [];
      assert [] + [Text(p + t)] == [Text(p + t)];
      assert Push([Text(p)], Text(t)) == [Text(p + t)];
    }
  }

  lemma DropFront(u: Classifier, p: string, m: Inline, w: string, ctx: Context)
    ensures |TextOf(p)| < |Around(p, m, w)| && DropPrefix(u, Around(p, m, w), |TextOf(p)|, ctx) == TextOf(p)
  {
    var items := Around(p, m, w);
    if p != "" {
      assert items[0] == Text(p);
      assert DropPrefix(u, items, 0, ctx) == [];
    }
  }

  lemma AroundMustDrop(u: Classifier, p: string, k: MarkKind, t: string, w: string, ctx: Context)
    requires t != "" && !Normal(u, Around(p, MarkOf(k, t), w), ctx)
    ensures var items, i := Around(p, MarkOf(k, t), w), |TextOf(p)|; i < |items| && MustDrop(u, items, i, TextOf(p), ctx)
  {
    AroundNormal(u, p, k, t, w, ctx);
    AroundNeighbours(p, MarkOf(k, t), w, ctx);
    StaysIsExpressible(u, k, OrElse(LastOption(p), ctx.prev), t, OrElse(FirstOption(w), ctx.next), ctx.inside);
    assert Before(TextOf(p), ctx) == OrElse(LastOption(p), ctx.prev);
  }

  /** The pass goes on behind the text of a mark that went. */
  lemma GoesOnBehind(u: Classifier, items: seq<Inline>, i: nat, w: string, text: string, ctx: Context)
    requires i <= |items| && DropPrefix(u, items, i, ctx) == [Text(text)] && items[i..] == TextOf(w) && text != ""
    ensures DropMarks(u, items, ctx) == [Text(text + w)]
  {
    if w == "" {
      assert i == |items| && text + w == text;
    } else {
      assert items[i..] == [Text(w)] && |items| == i + 1 && items[i] == items[i..][0];
      PushText(text, w);
    }
  }

  /** A mark that cannot be written leaves its text with its neighbours'. */
  lemma AroundDropped(u: Classifier, p: string, k: MarkKind, t: string, w: string, ctx: Context)
    requires t != "" && !Normal(u, Around(p, MarkOf(k, t), w), ctx)
    ensures DropMarks(u, Around(p, MarkOf(k, t), w), ctx) == [Text(p + t + w)]
  {
    var items, i := Around(p, MarkOf(k, t), w), |TextOf(p)|;
    AroundMustDrop(u, p, k, t, w, ctx);
    DropFront(u, p, MarkOf(k, t), w, ctx);
    assert items[i] == MarkOf(k, t) && items[i + 1..] == TextOf(w);
    PushText(p, t);
    assert DropPrefix(u, items, i + 1, ctx) == [Text(p + t)];
    GoesOnBehind(u, items, i + 1, w, p + t, ctx);
  }

  /** In any context, settling keeps the mark or leaves one text. */
  lemma AroundSettled(u: Classifier, p: string, k: MarkKind, t: string, w: string, ctx: Context)
    requires t != ""
    ensures Settle(u, Around(p, MarkOf(k, t), w), ctx)
         == if Stays(u, k, OrElse(LastOption(p), ctx.prev), t, OrElse(FirstOption(w), ctx.next), ctx.inside)
            then Around(p, MarkOf(k, t), w) else [Text(p + t + w)]
  {
    var items := Around(p, MarkOf(k, t), w);
    AroundNormal(u, p, k, t, w, ctx);
    SettledIffNormal(u, items, ctx);
    if !Normal(u, items, ctx) {
      AroundDropped(u, p, k, t, w, ctx);
      DroppedToText(u, items, p + t + w, ctx);
    }
  }

  lemma DroppedToText(u: Classifier, items: seq<Inline>, text: string, ctx: Context)
    requires text != "" && DropMarks(u, items, ctx) == [Text(text)]
    ensures Settle(u, items, ctx) == [Text(text)]
  {
    TextIsNormal(u, text, ctx);
    SettleEachFixed(u, [Text(text)], ctx.inside);
    DropMarksWeight(u, items, ctx);
  }

  lemma MarkOfIsFixed(u: Classifier, k: MarkKind, t: string)
    requires t != ""
    ensures CanonicalItem(u, MarkOf(k, t)) == MarkOf(k, t)
  {
    TextIsNormal(u, t, MarkContext(k, false));
    UnwrapNothing([Text(t)], k);
  }

  lemma AroundIsPushed(u: Classifier, p: string, k: MarkKind, t: string, w: string)
    requires t != ""
    ensures PushAll([], CanonicalEach(u, Around(p, MarkOf(k, t), w))) == Around(p, MarkOf(k, t), w)
  {
    var items := Around(p, MarkOf(k, t), w);
    CanonicalEachIsPointwise(u, items);
    MarkOfIsFixed(u, k, t);
    AroundNeighbours(p, MarkOf(k, t), w, TOP);
    assert CanonicalEach(u, items) == items;
    AroundSpaced(p, MarkOf(k, t), w);
    SpacedIffPushable(items);
  }

  /**
   * A mark around a text, with or without text in front of it and behind it: it stays where its delimiters can be
   * written between the characters next to them, and else its text is joined with its neighbours.
   */
  lemma MarkBetweenTexts(u: Classifier, p: string, k: MarkKind, t: string, w: string)
    requires t != ""
    ensures Canonical(u, Around(p, MarkOf(k, t), w))
         == if Stays(u, k, LastOption(p), t, FirstOption(w), false) then Around(p, MarkOf(k, t), w) else [Text(p + t + w)]
  {
    AroundIsPushed(u, p, k, t, w);
    AroundSettled(u, p, k, t, w, TOP);
  }

  // ---------------------------------------------------------------- inside an emphasis

  lemma LinkIsNormal(u: Classifier, d: string, title: Option<string>, run: seq<Inline>, ctx: Context)
    ensures Normal(u, [Link(d, title, run)], ctx) <==> Normal(u, run, LinkContext(ctx.inside))
  {
    var items := [Link(d, title, run)];
    assert SpacedAt(items, 0) && NormalAt(u, items, 0, ctx);
  }

  lemma LinkIsNotDropped(u: Classifier, link: Inline, ctx: Context)
    requires link.Link?
    ensures DropMarks(u, [link], ctx) == [link]
  {
    assert DropPrefix(u, [link], 0, ctx) == [];
    assert Push([], link) == [link];
  }

  lemma OneSettledEach(u: Classifier, item: Inline, inside: bool)
    ensures SettleEach(u, [item], inside) == [SettleItem(u, item, inside)]
  {
    assert Init([item]) == [];
  }

  lemma LinkIsSettled(u: Classifier, link: Inline, ctx: Context)
    requires link.Link?
    ensures Settle(u, [SettleItem(u, link, ctx.inside)], ctx) == [SettleItem(u, link, ctx.inside)]
  {
    var next := SettleItem(u, link, ctx.inside);
    SettleIsNormal(u, link.content, LinkContext(ctx.inside));
    LinkIsNormal(u, next.dest, next.title, next.content, ctx);
    SettledIffNormal(u, [next], ctx);
  }

  lemma OneLinkSettles(u: Classifier, link: Inline, ctx: Context)
    requires link.Link?
    ensures Settle(u, [link], ctx) == [SettleItem(u, link, ctx.inside)]
  {
    LinkIsNotDropped(u, link, ctx);
    OneSettledEach(u, link, ctx.inside);
    LinkIsSettled(u, link, ctx);
    DropMarksWeight(u, [link], ctx);
  }

  lemma LinkSettles(u: Classifier, d: string, title: Option<string>, run: seq<Inline>, ctx: Context)
    ensures Settle(u, [Link(d, title, run)], ctx) == [Link(d, title, Settle(u, run, LinkContext(ctx.inside)))]
  {
    OneLinkSettles(u, Link(d, title, run), ctx);
  }

  /** What settling the mark in a link makes of it, the link being inside an emphasis or not. */
  function InLink(u: Classifier, p: string, k: MarkKind, t: string, w: string, inside: bool): seq<Inline>
    requires t != ""
  {
    if Stays(u, k, OrElse(LastOption(p), Some('[')), t, OrElse(FirstOption(w), Some(')')), inside)
    then Around(p, MarkOf(k, t), w) else [Text(p + t + w)]
  }

  lemma PushOne(c: Inline)
    requires c.Mark? || c.Link?
    ensures PushAll([], [c]) == [c]
  {
    assert Init([c]) == [] && PushAll([], []) == [];
    assert Push([], c) == [c];
  }

  lemma CanonicalOne(u: Classifier, item: Inline)
    requires item.Mark? || item.Link?
    ensures Canonical(u, [item]) == Settle(u, [CanonicalItem(u, item)], TOP)
  {
    CanonicalEachIsPointwise(u, [item]);
    assert CanonicalEach(u, [item]) == [CanonicalItem(u, item)];
    PushOne(CanonicalItem(u, item));
  }

  lemma AroundIsNoText(p: string, m: Inline, w: string, text: string)
    requires m.Mark?
    ensures Around(p, m, w) != [Text(text)]
  {
    assert |TextOf(p)| < |Around(p, m, w)| && Around(p, m, w)[|TextOf(p)|].Mark?;
  }

  lemma InLinkStays(u: Classifier, p: string, k: MarkKind, t: string, w: string, inside: bool)
    requires t != ""
    ensures InLink(u, p, k, t, w, inside) == Around(p, MarkOf(k, t), w) <==>
            Stays(u, k, OrElse(LastOption(p), Some('[')), t, OrElse(FirstOption(w), Some(')')), inside)
  {
    AroundIsNoText(p, MarkOf(k, t), w, p + t + w);
  }

  lemma StaysAlone(u: Classifier, p: string, k: MarkKind, t: string, w: string)
    requires t != "" && Stays(u, k, OrElse(LastOption(p), Some('[')), t, OrElse(FirstOption(w), Some(')')), false)
    ensures Stays(u, k, LastOption(p), t, FirstOption(w), false)
  {
  }

  /** A mark that stays inside an emphasis stays outside of it. */
  lemma StaysOutside(u: Classifier, p: string, k: MarkKind, t: string, w: string)
    requires t != ""
    ensures InLink(u, p, k, t, w, true) == Around(p, MarkOf(k, t), w) ==> InLink(u, p, k, t, w, false) == Around(p, MarkOf(k, t), w)
  {
    InLinkStays(u, p, k, t, w, true);
  }

  lemma StaysOutsideLink(u: Classifier, p: string, k: MarkKind, t: string, w: string)
    requires t != "" && InLink(u, p, k, t, w, false) == Around(p, MarkOf(k, t), w)
    ensures Canonical(u, Around(p, MarkOf(k, t), w)) == Around(p, MarkOf(k, t), w)
  {
    InLinkStays(u, p, k, t, w, false);
    StaysAlone(u, p, k, t, w);
    MarkBetweenTexts(u, p, k, t, w);
  }

  lemma AgainInLink(u: Classifier, p: string, k: MarkKind, t: string, w: string, run: seq<Inline>, inside: bool)
    requires t != ""
    requires run == [Text(p + t + w)] || run == Around(p, MarkOf(k, t), w)
    ensures Settle(u, run, LinkContext(inside))
         == if run == Around(p, MarkOf(k, t), w) then InLink(u, p, k, t, w, inside) else run
  {
    if run == Around(p, MarkOf(k, t), w) {
      AroundSettled(u, p, k, t, w, LinkContext(inside));
    } else {
      TextIsNormal(u, p + t + w, LinkContext(inside));
    }
  }

  lemma CanonicalAlone(u: Classifier, link: Inline)
    requires link.Link?
    ensures Canonical(u, [link]) == [SettleItem(u, CanonicalItem(u, link), false)]
  {
    CanonicalOne(u, link);
    OneLinkSettles(u, CanonicalItem(u, link), TOP);
  }

  /** The link on its own, with its content canonicalized and settled as a link's. */
  lemma CanonicalLink(u: Classifier, d: string, title: Option<string>, run: seq<Inline>)
    ensures Canonical(u, [Link(d, title, run)]) == [Link(d, title, Settle(u, Canonical(u, run), LinkContext(false)))]
  {
    CanonicalAlone(u, Link(d, title, run));
  }

  lemma UnwrapLink(link: Inline, k: MarkKind)
    requires link.Link?
    ensures UnwrapSame([link], k) == [link]
  {
    assert SpacedAt([link], 0);
    UnwrapNothing([link], k);
  }

  lemma CanonicalEmphasizedLink(u: Classifier, d: string, title: Option<string>, run: seq<Inline>)
    ensures var inner := Settle(u, Canonical(u, run), LinkContext(false));
      CanonicalItem(u, Mark(Emphasis, [Link(d, title, run)])) == Mark(Emphasis, [Link(d, title, Settle(u, inner, LinkContext(true)))])
  {
    var inner := Settle(u, Canonical(u, run), LinkContext(false));
    CanonicalLink(u, d, title, run);
    UnwrapLink(Link(d, title, inner), Emphasis);
    LinkSettles(u, d, title, inner, MarkContext(Emphasis, false));
  }

  lemma ThriceInLink(u: Classifier, p: string, k: MarkKind, t: string, w: string)
    requires t != ""
    ensures var inner := Settle(u, Canonical(u, Around(p, MarkOf(k, t), w)), LinkContext(false));
      Settle(u, inner, LinkContext(true)) == InLink(u, p, k, t, w, true)
  {
    var run := Around(p, MarkOf(k, t), w);
    MarkBetweenTexts(u, p, k, t, w);
    StaysOutside(u, p, k, t, w);
    if InLink(u, p, k, t, w, false) == Around(p, MarkOf(k, t), w) {
      StaysOutsideLink(u, p, k, t, w);
    }
    var first := Canonical(u, run);
    AgainInLink(u, p, k, t, w, first, false);
    var second := Settle(u, first, LinkContext(false));
    AgainInLink(u, p, k, t, w, second, true);
  }

  /** A link inside an emphasis that holds a mark between texts: the mark stays exactly where it may stay in there. */
  lemma MarkInsideEmphasis(u: Classifier, d: string, title: Option<string>, p: string, k: MarkKind, t: string, w: string)
    requires t != ""
    ensures Canonical(u, [Mark(Emphasis, [Link(d, title, Around(p, MarkOf(k, t), w))])])
         == [Mark(Emphasis, [Link(d, title, InLink(u, p, k, t, w, true))])]
  {
    var run := Around(p, MarkOf(k, t), w);
    ThriceInLink(u, p, k, t, w);
    CanonicalEmphasizedLink(u, d, title, run);
    CanonicalOne(u, Mark(Emphasis, [Link(d, title, run)]));
    SettleIsNormal(u, Settle(u, Canonical(u, run), LinkContext(false)), LinkContext(true));
    EmphasizedLinkStays(u, d, title, InLink(u, p, k, t, w, true));
  }

  lemma EmphasizedLinkStays(u: Classifier, d: string, title: Option<string>, run: seq<Inline>)
    requires Normal(u, run, LinkContext(true))
    ensures Settle(u, [Mark(Emphasis, [Link(d, title, run)])], TOP) == [Mark(Emphasis, [Link(d, title, run)])]
  {
    var items := [Mark(Emphasis, [Link(d, title, run)])];
    LinkIsNormal(u, d, title, run, MarkContext(Emphasis, false));
    assert u('[') == Punctuation && u(LinkTail(d)) == Punctuation;
    assert SpacedAt(items, 0) && NormalAt(u, items, 0, TOP);
    SettledIffNormal(u, items, TOP);
  }

  // ---------------------------------------------------------------- beside references, code and the like

  predicate IsAtom(a: Inline) {
    !a.Text? && !a.Mark? && !IsBreak(a) && (a.Tag? ==> a.name != "" && Last(a.name) != '_') && (a.Link? ==> a.content == [])
  }

  /** How an atom is written, as far as its ends are concerned; a target in angle brackets ends in one. */
  function Written(a: Inline): string
    requires IsAtom(a)
  {
    match a
    case Tag(t) => "#" + t
    case Emoji(e) => ":" + e + ":"
    case Code(c) => "`" + c + "`"
    case Math(m) => "$" + m + "$"
    case Wiki(w) => (if w.embed then "![[" else "[[") + w.target + "]]"
    case FootnoteRef(note) => "[^" + note + "]"
    case Image(dest, alt) => "![" + alt + "](" + WrittenTarget(dest)
    case Link(dest, _, _) => "[](" + WrittenTarget(dest)
  }

  function WrittenTarget(dest: string): string {
    if dest != "" && ' ' !in dest && '(' !in dest && ')' !in dest then dest + ")" else "<" + dest + ">"
  }

  lemma AtomEnds(a: Inline)
    requires IsAtom(a)
    ensures Written(a) != "" && FirstChar(a) == Some(Written(a)[0]) && LastChar(a) == Some(Last(Written(a)))
  {
    match a
    case Tag(t) => assert Last("#" + t) == Last(t);
    case _ =>
  }

  lemma AtomIsPlain(u: Classifier, items: seq<Inline>, i: nat, k: MarkKind, t: string)
    requires t != "" && |items| == 2 && i < 2 && items[i] == MarkOf(k, t) && IsAtom(items[1 - i])
    ensures Flat(items) && Spaced(items) && forall j: nat | j < 2 :: NormalWithin(u, items[j], false)
  {
    TextIsNormal(u, t, MarkContext(k, false));
    assert SpacedAt(items, 0) && SpacedAt(items, 1);
    assert FlatItem(items[i]) && FlatItem(items[1 - i]);
    assert NormalWithin(u, items[1 - i], false) && NormalWithin(u, items[i], false);
  }

  lemma AtomAndMark(u: Classifier, items: seq<Inline>, i: nat, k: MarkKind, t: string)
    requires t != "" && |items| == 2 && i < 2 && items[i] == MarkOf(k, t) && IsAtom(items[1 - i])
    ensures Canonical(u, items) == items <==>
            Stays(u, k, CharBefore(items, i, TOP), t, After(items, i, TOP), false)
  {
    StaysIsExpressible(u, k, CharBefore(items, i, TOP), t, After(items, i, TOP), false);
    FixedIffNormalAndFlat(u, items);
    NormalInParts(u, items, TOP);
    AtomIsPlain(u, items, i, k, t);
    assert SpacedAt(items, 0) && SpacedAt(items, 1);
    assert NormalAt(u, items, 1 - i, TOP);
  }

  /** A mark behind a reference, a tag, code or the like is kept exactly where it can open behind that one's last character. */
  lemma MarkBehindAtom(u: Classifier, a: Inline, k: MarkKind, t: string)
    requires IsAtom(a) && t != ""
    ensures Written(a) != ""
    ensures Canonical(u, [a, MarkOf(k, t)]) == [a, MarkOf(k, t)] <==> Stays(u, k, Some(Last(Written(a))), t, None, false)
  {
    AtomEnds(a);
    AtomAndMark(u, [a, MarkOf(k, t)], 1, k, t);
  }

  /** And in front of one, where it can close against its first. */
  lemma MarkBeforeAtom(u: Classifier, a: Inline, k: MarkKind, t: string)
    requires IsAtom(a) && t != ""
    ensures Written(a) != ""
    ensures Canonical(u, [MarkOf(k, t), a]) == [MarkOf(k, t), a] <==> Stays(u, k, None, t, Some(Written(a)[0]), false)
  {
    AtomEnds(a);
    AtomAndMark(u, [MarkOf(k, t), a], 0, k, t);
  }

  // ---------------------------------------------------------------- beside a strong

  /** A text that starts and ends inside a word. */
  predicate IsWord(u: Classifier, t: string) {
    t != "" && u(t[0]) == Other && u(Last(t)) == Other
  }

  /** A text with a visible character at each end. */
  predicate IsInk(u: Classifier, t: string) {
    t != "" && u(t[0]) != Whitespace && u(Last(t)) != Whitespace
  }

  function StrongThen(s: string, t: string, w: string): seq<Inline> {
    [MarkOf(Strong, s)] + Around("", MarkOf(Emphasis, t), w)
  }

  lemma StarIsPunctuation(u: Classifier)
    ensures u('*') == Punctuation
  {
  }

  /** What surrounds the two marks. */
  lemma StrongThenShape(s: string, t: string, w: string)
    requires s != "" && t != ""
    ensures var items := StrongThen(s, t, w);
      && |items| == 2 + |TextOf(w)| && items[0] == MarkOf(Strong, s) && items[1] == MarkOf(Emphasis, t) && Spaced(items)
      && CharBefore(items, 0, TOP) == None && After(items, 0, TOP) == Some('*')
      && CharBefore(items, 1, TOP) == Some('*') && After(items, 1, TOP) == FirstOption(w)
      && (w != "" ==> items[2] == Text(w))
  {
    var items := StrongThen(s, t, w);
    forall i: nat | i < |items| ensures SpacedAt(items, i) {
    }
  }

  lemma MarkWithin(u: Classifier, k: MarkKind, t: string)
    requires t != ""
    ensures NormalWithin(u, MarkOf(k, t), false)
  {
    TextRunIsNormal(u, t, MarkContext(k, false));
  }

  lemma BesideStar(u: Classifier, s: string, t: string, c: Option<char>)
    requires IsInk(u, s) && IsWord(u, t)
    ensures Expressible(u, Strong, [Text(s)], None, Some('*'), false) && Expressible(u, Strong, [Text(s)], Some('*'), None, false)
    ensures Expressible(u, Emphasis, [Text(t)], Some('*'), c, false) <==> Clear(c)
    ensures Expressible(u, Emphasis, [Text(t)], c, Some('*'), false) <==> Clear(c)
  {
    StarIsPunctuation(u);
    StaysIsExpressible(u, Strong, None, s, Some('*'), false);
    StaysIsExpressible(u, Strong, Some('*'), s, None, false);
    StaysIsExpressible(u, Emphasis, Some('*'), t, c, false);
    StaysIsExpressible(u, Emphasis, c, t, Some('*'), false);
  }

  lemma StrongThenNormal(u: Classifier, s: string, t: string, w: string)
    requires IsInk(u, s) && IsWord(u, t)
    ensures Normal(u, StrongThen(s, t, w), TOP) <==> Clear(FirstOption(w))
  {
    var items := StrongThen(s, t, w);
    StrongThenShape(s, t, w);
    BesideStar(u, s, t, FirstOption(w));
    MarkWithin(u, Strong, s);
    MarkWithin(u, Emphasis, t);
    NormalInParts(u, items, TOP);
    assert SpacedAt(items, 0) && SpacedAt(items, 1) && (w != "" ==> SpacedAt(items, 2));
    assert NormalAt(u, items, 0, TOP) && (NormalAt(u, items, 1, TOP) <==> Clear(FirstOption(w)));
    assert w != "" ==> NormalAt(u, items, 2, TOP);
    assert forall i: nat | i < |items| :: NormalWithin(u, items[i], false);
  }

  lemma StrongThenDropped(u: Classifier, s: string, t: string, w: string)
    requires IsInk(u, s) && IsWord(u, t) && !Clear(FirstOption(w))
    ensures DropMarks(u, StrongThen(s, t, w), TOP) == Around("", MarkOf(Strong, s), t + w)
  {
    var items, strong := StrongThen(s, t, w), MarkOf(Strong, s);
    StrongThenShape(s, t, w);
    StarIsPunctuation(u);
    StaysIsExpressible(u, Strong, None, s, Some('*'), false);
    StaysIsExpressible(u, Emphasis, Some('*'), t, FirstOption(w), false);
    assert DropPrefix(u, items, 0, TOP) == [] && !MustDrop(u, items, 0, [], TOP);
    assert DropPrefix(u, items, 1, TOP) == [strong];
    assert MustDrop(u, items, 1, [strong], TOP);
    PushBehindMark(strong, t);
    assert DropPrefix(u, items, 2, TOP) == [strong, Text(t)];
    PushOnto(strong, t, w);
    assert [] + [strong] + [Text(t + w)] == [strong, Text(t + w)];
  }

  lemma PushBehindMark(m: Inline, t: string)
    requires m.Mark? && t != ""
    ensures PushAll([m], [Text(t)]) == [m, Text(t)]
  {
    assert Init([Text(t)]) == [] && PushAll([m], []) == [m];
    assert Init([m]) == [] && Push([m], Text(t)) == [] + [m, Text(t)];
  }

  lemma PushOnto(m: Inline, t: string, w: string)
    requires m.Mark? && t != "" && w != ""
    ensures Push([m, Text(t)], Text(w)) == [m, Text(t + w)]
  {
    assert Init([m, Text(t)]) == [m];
  }

  lemma StrongThenIsPushed(u: Classifier, s: string, t: string, w: string)
    requires s != "" && t != ""
    ensures PushAll([], CanonicalEach(u, StrongThen(s, t, w))) == StrongThen(s, t, w)
  {
    var items := StrongThen(s, t, w);
    StrongThenShape(s, t, w);
    CanonicalEachIsPointwise(u, items);
    MarkOfIsFixed(u, Strong, s);
    MarkOfIsFixed(u, Emphasis, t);
    assert CanonicalEach(u, items) == items;
    SpacedIffPushable(items);
  }

  /**
   * An emphasis right behind a strong has to be written with underscores, and stays exactly where nothing, a blank or
   * punctuation follows. Where it goes, its text is joined with what follows; and then the strong goes too, if it
   * ended in punctuation, which cannot close against the word that has come next to it.
   */
  lemma EmphasisBehindStrong(u: Classifier, s: string, t: string, w: string)
    requires IsInk(u, s) && IsWord(u, t)
    ensures Canonical(u, StrongThen(s, t, w))
         == if Clear(FirstOption(w)) then StrongThen(s, t, w)
            else if u(Last(s)) == Other then [MarkOf(Strong, s), Text(t + w)] else [Text(s + (t + w))]
  {
    StrongThenIsPushed(u, s, t, w);
    if Clear(FirstOption(w)) {
      StrongThenNormal(u, s, t, w);
      SettledIffNormal(u, StrongThen(s, t, w), TOP);
    } else {
      StrongThenSettled(u, s, t, w);
      StrongBeforeWord(u, s, t, w);
    }
  }

  lemma StrongThenSettled(u: Classifier, s: string, t: string, w: string)
    requires IsInk(u, s) && IsWord(u, t) && !Clear(FirstOption(w))
    ensures Settle(u, StrongThen(s, t, w), TOP)
         == if Stays(u, Strong, None, s, FirstOption(t + w), false) then [MarkOf(Strong, s), Text(t + w)] else [Text(s + (t + w))]
  {
    var next := Around("", MarkOf(Strong, s), t + w);
    StrongThenDropped(u, s, t, w);
    StrongThenLonger(s, t, w);
    SettleBehind(u, StrongThen(s, t, w), next, "", Strong, s, t + w);
    assert next == [MarkOf(Strong, s), Text(t + w)] && "" + s + (t + w) == s + (t + w);
  }

  lemma StrongThenLonger(s: string, t: string, w: string)
    requires s != "" && t != ""
    ensures StrongThen(s, t, w) != Around("", MarkOf(Strong, s), t + w)
  {
    StrongThenShape(s, t, w);
    assert Around("", MarkOf(Strong, s), t + w) == [MarkOf(Strong, s), Text(t + w)];
  }

  lemma StrongBeforeWord(u: Classifier, s: string, t: string, w: string)
    requires IsInk(u, s) && IsWord(u, t)
    ensures Stays(u, Strong, None, s, FirstOption(t + w), false) <==> u(Last(s)) == Other
  {
    assert (t + w)[0] == t[0];
  }

  /** Settling goes on with what the first pass leaves, here a mark between texts. */
  lemma SettleBehind(u: Classifier, items: seq<Inline>, next: seq<Inline>, p: string, k: MarkKind, t: string, w: string)
    requires t != "" && next == Around(p, MarkOf(k, t), w) && DropMarks(u, items, TOP) == next && next != items
    ensures Settle(u, items, TOP)
         == if Stays(u, k, LastOption(p), t, FirstOption(w), false) then next else [Text(p + t + w)]
  {
    AroundFixedWithin(u, p, k, t, w);
    AroundSettled(u, p, k, t, w, TOP);
    DropMarksWeight(u, items, TOP);
    assert SettlePass(u, items, TOP) == next;
  }

  lemma AroundFixedWithin(u: Classifier, p: string, k: MarkKind, t: string, w: string)
    requires t != ""
    ensures SettleEach(u, Around(p, MarkOf(k, t), w), false) == Around(p, MarkOf(k, t), w)
  {
    var items := Around(p, MarkOf(k, t), w);
    AroundNeighbours(p, MarkOf(k, t), w, TOP);
    TextIsNormal(u, t, MarkContext(k, false));
    SettleEachFixed(u, items, false);
  }

  function ThenStrong(p: string, t: string, s: string): seq<Inline> {
    Around(p, MarkOf(Emphasis, t), "") + [MarkOf(Strong, s)]
  }

  lemma ThenStrongShape(p: string, t: string, s: string)
    requires s != "" && t != ""
    ensures var items, i := ThenStrong(p, t, s), |TextOf(p)|;
      && |items| == i + 2 && items[i] == MarkOf(Emphasis, t) && items[i + 1] == MarkOf(Strong, s) && Spaced(items)
      && items[..i] == TextOf(p) && (p != "" ==> items[0] == Text(p))
      && CharBefore(items, i, TOP) == LastOption(p) && After(items, i, TOP) == Some('*')
      && CharBefore(items, i + 1, TOP) == Some('*') && After(items, i + 1, TOP) == None
  {
    var items := ThenStrong(p, t, s);
    forall i: nat | i < |items| ensures SpacedAt(items, i) {
    }
  }

  lemma ThenStrongNormal(u: Classifier, p: string, t: string, s: string)
    requires IsInk(u, s) && IsWord(u, t)
    ensures Normal(u, ThenStrong(p, t, s), TOP) <==> Clear(LastOption(p))
  {
    var items, i := ThenStrong(p, t, s), |TextOf(p)|;
    ThenStrongShape(p, t, s);
    BesideStar(u, s, t, LastOption(p));
    MarkWithin(u, Strong, s);
    MarkWithin(u, Emphasis, t);
    NormalInParts(u, items, TOP);
    assert SpacedAt(items, i) && SpacedAt(items, i + 1) && SpacedAt(items, 0);
    assert NormalAt(u, items, i + 1, TOP) && (NormalAt(u, items, i, TOP) <==> Clear(LastOption(p)));
    assert p != "" ==> NormalAt(u, items, 0, TOP);
    assert forall j: nat | j < |items| :: NormalWithin(u, items[j], false);
  }

  /** The emphasis goes first, and the strong is then judged against the word that has come in front of it. */
  lemma ThenStrongDropped(u: Classifier, p: string, t: string, s: string)
    requires IsInk(u, s) && IsWord(u, t) && !Clear(LastOption(p))
    ensures DropMarks(u, ThenStrong(p, t, s), TOP)
         == if u(s[0]) == Other then Around(p + t, MarkOf(Strong, s), "") else [Text(p + t + s)]
  {
    var items, i, strong := ThenStrong(p, t, s), |TextOf(p)|, MarkOf(Strong, s);
    var text := [Text(p + t)];
    ThenStrongShape(p, t, s);
    StarIsPunctuation(u);
    StaysIsExpressible(u, Emphasis, LastOption(p), t, Some('*'), false);
    StaysIsExpressible(u, Strong, Some(Last(p + t)), s, None, false);
    assert DropPrefix(u, items, 0, TOP) == [] && DropPrefix(u, items, i, TOP) == TextOf(p);
    assert MustDrop(u, items, i, TextOf(p), TOP);
    PushText(p, t);
    assert DropPrefix(u, items, i + 1, TOP) == text;
    assert MustDrop(u, items, i + 1, text, TOP) <==> u(s[0]) != Other;
    PushMarkBehindText(p + t, strong);
    PushText(p + t, s);
    assert TextOf(p + t) == text && text + [strong] + [] == [Text(p + t), strong];
  }

  lemma ThenStrongIsPushed(u: Classifier, p: string, t: string, s: string)
    requires s != "" && t != ""
    ensures PushAll([], CanonicalEach(u, ThenStrong(p, t, s))) == ThenStrong(p, t, s)
  {
    var items := ThenStrong(p, t, s);
    ThenStrongShape(p, t, s);
    CanonicalEachIsPointwise(u, items);
    MarkOfIsFixed(u, Strong, s);
    MarkOfIsFixed(u, Emphasis, t);
    assert CanonicalEach(u, items) == items;
    SpacedIffPushable(items);
  }

  /** The mirror image: an emphasis right in front of a strong. */
  lemma EmphasisBeforeStrong(u: Classifier, p: string, t: string, s: string)
    requires IsInk(u, s) && IsWord(u, t)
    ensures Canonical(u, ThenStrong(p, t, s))
         == if Clear(LastOption(p)) then ThenStrong(p, t, s)
            else if u(s[0]) == Other then [Text(p + t), MarkOf(Strong, s)] else [Text(p + t + s)]
  {
    var items := ThenStrong(p, t, s);
    ThenStrongIsPushed(u, p, t, s);
    ThenStrongNormal(u, p, t, s);
    SettledIffNormal(u, items, TOP);
    if !Clear(LastOption(p)) {
      ThenStrongDropped(u, p, t, s);
      if u(s[0]) == Other {
        var next := Around(p + t, MarkOf(Strong, s), "");
        assert next == [Text(p + t), MarkOf(Strong, s)];
        assert items[|TextOf(p)|].Mark? && |items| == |TextOf(p)| + 2;
        SettleBehind(u, items, next, p + t, Strong, s, "");
      } else {
        DroppedToText(u, items, p + t + s, TOP);
      }
    }
  }

  lemma PushMarkBehindText(t: string, m: Inline)
    requires m.Mark? && t != ""
    ensures Push([Text(t)], m) == [Text(t), m]
  {
    assert Init([Text(t)]) == [];
  }

  // ---------------------------------------------------------------- around a strong

  /** The body of an emphasis that has a strong at one edge and a text at the other. */
  function Edged(first: bool, s: string, t: string): seq<Inline> {
    if first then [MarkOf(Strong, s), Text(t)] else [Text(t), MarkOf(Strong, s)]
  }

  lemma EdgedIsAround(first: bool, s: string, t: string)
    requires s != "" && t != ""
    ensures Edged(first, s, t) == if first then Around("", MarkOf(Strong, s), t) else Around(t, MarkOf(Strong, s), "")
  {
  }

  lemma EdgedIsNormal(u: Classifier, first: bool, s: string, t: string)
    requires IsWord(u, s) && IsWord(u, t)
    ensures Normal(u, Edged(first, s, t), MarkContext(Emphasis, false)) && Canonical(u, Edged(first, s, t)) == Edged(first, s, t)
  {
    var p, w := if first then "" else t, if first then t else "";
    EdgedIsAround(first, s, t);
    StarIsPunctuation(u);
    MarkBetweenTexts(u, p, Strong, s, w);
    AroundNormal(u, p, Strong, s, w, MarkContext(Emphasis, false));
  }

  lemma EdgedIsUnwrapped(first: bool, s: string, t: string)
    requires s != "" && t != ""
    ensures UnwrapSame(Edged(first, s, t), Emphasis) == Edged(first, s, t)
  {
    EdgedIsAround(first, s, t);
    AroundSpaced(if first then "" else t, MarkOf(Strong, s), if first then t else "");
    UnwrapNothing(Edged(first, s, t), Emphasis);
  }

  lemma EdgedIsFixed(u: Classifier, first: bool, s: string, t: string)
    requires IsWord(u, s) && IsWord(u, t)
    ensures Normal(u, Edged(first, s, t), MarkContext(Emphasis, false))
    ensures CanonicalItem(u, Mark(Emphasis, Edged(first, s, t))) == Mark(Emphasis, Edged(first, s, t))
  {
    EdgedIsNormal(u, first, s, t);
    EdgedIsUnwrapped(first, s, t);
    SettledIffNormal(u, Edged(first, s, t), MarkContext(Emphasis, false));
  }

  lemma EdgedExpressible(u: Classifier, first: bool, s: string, t: string, before: Option<char>, after: Option<char>)
    requires IsWord(u, s) && IsWord(u, t)
    ensures Expressible(u, Emphasis, Edged(first, s, t), before, after, false) <==> Clear(before) && Clear(after)
  {
    StarIsPunctuation(u);
    var body := Edged(first, s, t);
    assert FirstChar(body[0]) == (if first then Some('*') else Some(t[0]));
    assert LastChar(Last(body)) == (if first then Some(Last(t)) else Some('*'));
  }

  lemma EdgedNormal(u: Classifier, p: string, first: bool, s: string, t: string, w: string)
    requires IsWord(u, s) && IsWord(u, t)
    ensures Normal(u, Around(p, Mark(Emphasis, Edged(first, s, t)), w), TOP) <==> Clear(LastOption(p)) && Clear(FirstOption(w))
  {
    var m := Mark(Emphasis, Edged(first, s, t));
    var items, i := Around(p, m, w), |TextOf(p)|;
    AroundSpaced(p, m, w);
    AroundNeighbours(p, m, w, TOP);
    EdgedExpressible(u, first, s, t, LastOption(p), FirstOption(w));
    EdgedIsFixed(u, first, s, t);
    NormalInParts(u, items, TOP);
    forall j: nat | j < |items|
      ensures NormalAt(u, items, j, TOP) <==> (j == i ==> Clear(LastOption(p)) && Clear(FirstOption(w)))
      ensures NormalWithin(u, items[j], false)
    {
      assert SpacedAt(items, j);
    }
  }

  /** What is left when the emphasis goes: its strong, with everything else joined to the texts around it. */
  function Released(p: string, first: bool, s: string, t: string, w: string): seq<Inline> {
    if first then Around(p, MarkOf(Strong, s), t + w) else Around(p + t, MarkOf(Strong, s), w)
  }

  lemma PushEdged(p: string, first: bool, s: string, t: string)
    requires s != "" && t != ""
    ensures PushAll(TextOf(p), Edged(first, s, t))
         == if first then TextOf(p) + [MarkOf(Strong, s), Text(t)] else [Text(p + t), MarkOf(Strong, s)]
  {
    var strong, body, out := MarkOf(Strong, s), Edged(first, s, t), TextOf(p);
    if first {
      assert Init(body) == [strong];
      PushMarkOnto(out, strong);
      assert Init(out + [strong]) == out && Push(out + [strong], Text(t)) == out + [strong, Text(t)];
    } else {
      assert Init(body) == [Text(t)];
      PushText(p, t);
      PushMarkBehindText(p + t, strong);
    }
  }

  lemma PushMarkOnto(out: seq<Inline>, m: Inline)
    requires m.Mark? && forall i: nat | i < |out| :: out[i].Text?
    ensures PushAll(out, [m]) == out + [m]
  {
    assert Init([m]) == [] && PushAll(out, []) == out;
    if out != [] {
      InitLast(out);
      assert Init(out) + [Last(out), m] == out + [m];
      assert Push(out, m) == PushLast(Init(out), Last(out), m);
    }
  }

  lemma EdgedDropped(u: Classifier, p: string, first: bool, s: string, t: string, w: string)
    requires IsWord(u, s) && IsWord(u, t) && !(Clear(LastOption(p)) && Clear(FirstOption(w)))
    ensures DropMarks(u, Around(p, Mark(Emphasis, Edged(first, s, t)), w), TOP) == Released(p, first, s, t, w)
  {
    var m := Mark(Emphasis, Edged(first, s, t));
    var items, i := Around(p, m, w), |TextOf(p)|;
    AroundNeighbours(p, m, w, TOP);
    EdgedExpressible(u, first, s, t, LastOption(p), FirstOption(w));
    DropFront(u, p, m, w, TOP);
    assert Before(TextOf(p), TOP) == LastOption(p);
    assert MustDrop(u, items, i, TextOf(p), TOP);
    PushEdged(p, first, s, t);
    assert DropPrefix(u, items, i + 1, TOP) == PushAll(TextOf(p), Edged(first, s, t));
    PushReleased(p, first, s, t, w);
  }

  lemma PushReleased(p: string, first: bool, s: string, t: string, w: string)
    requires s != "" && t != ""
    ensures var out := PushAll(TextOf(p), Edged(first, s, t));
      (if w == "" then out else Push(out, Text(w))) == Released(p, first, s, t, w)
  {
    var out, strong := PushAll(TextOf(p), Edged(first, s, t)), MarkOf(Strong, s);
    PushEdged(p, first, s, t);
    if w == "" {
      assert t + w == t;
    } else if first {
      assert Init(out) == TextOf(p) + [strong] && Last(out) == Text(t);
      assert Push(out, Text(w)) == TextOf(p) + [strong] + [Text(t + w)];
    } else {
      assert Init(out) == [Text(p + t)] && Last(out) == strong;
      assert Push(out, Text(w)) == [Text(p + t)] + [strong, Text(w)];
      assert [Text(p + t)] + [strong, Text(w)] == [Text(p + t)] + [strong] + [Text(w)];
    }
  }

  lemma EdgedIsPushed(u: Classifier, p: string, first: bool, s: string, t: string, w: string)
    requires IsWord(u, s) && IsWord(u, t)
    ensures var items := Around(p, Mark(Emphasis, Edged(first, s, t)), w); PushAll([], CanonicalEach(u, items)) == items
  {
    var m := Mark(Emphasis, Edged(first, s, t));
    var items := Around(p, m, w);
    CanonicalEachIsPointwise(u, items);
    EdgedIsFixed(u, first, s, t);
    AroundNeighbours(p, m, w, TOP);
    assert CanonicalEach(u, items) == items;
    AroundSpaced(p, m, w);
    SpacedIffPushable(items);
  }

  /**
   * An emphasis whose body begins or ends in a strong has to be written with underscores, and stays exactly where on
   * both sides nothing, a blank or punctuation stands.
   */
  lemma EmphasisAroundStrong(u: Classifier, p: string, first: bool, s: string, t: string, w: string)
    requires IsWord(u, s) && IsWord(u, t)
    ensures var items := Around(p, Mark(Emphasis, Edged(first, s, t)), w);
      Canonical(u, items) == if Clear(LastOption(p)) && Clear(FirstOption(w)) then items else Released(p, first, s, t, w)
  {
    var items := Around(p, Mark(Emphasis, Edged(first, s, t)), w);
    EdgedIsPushed(u, p, first, s, t, w);
    EdgedNormal(u, p, first, s, t, w);
    SettledIffNormal(u, items, TOP);
    if !(Clear(LastOption(p)) && Clear(FirstOption(w))) {
      EdgedDropped(u, p, first, s, t, w);
      ReleasedSettles(u, items, p, first, s, t, w);
    }
  }

  lemma ReleasedSettles(u: Classifier, items: seq<Inline>, p: string, first: bool, s: string, t: string, w: string)
    requires IsWord(u, s) && IsWord(u, t) && items == Around(p, Mark(Emphasis, Edged(first, s, t)), w)
    requires DropMarks(u, items, TOP) == Released(p, first, s, t, w)
    ensures Settle(u, items, TOP) == Released(p, first, s, t, w)
  {
    var p', w' := if first then p else p + t, if first then t + w else w;
    var next := Around(p', MarkOf(Strong, s), w');
    AroundNeighbours(p, Mark(Emphasis, Edged(first, s, t)), w, TOP);
    NotBoth(items, next, |TextOf(p)|);
    WordsStay(u, p', s, w');
    SettleBehind(u, items, next, p', Strong, s, w');
  }

  lemma WordsStay(u: Classifier, p: string, s: string, w: string)
    requires IsWord(u, s)
    ensures Stays(u, Strong, LastOption(p), s, FirstOption(w), false)
  {
  }

  lemma NotBoth(items: seq<Inline>, next: seq<Inline>, i: nat)
    requires i < |items| && items[i].Mark? && items[i].kind == Emphasis
    requires forall j: nat | j < |next| :: next[j].Mark? ==> next[j].kind == Strong
    ensures items != next
  {
  }
}
