/** The renderer as the program runs it: every function appends to one output string (crates/mb-core/src/html.rs). */
module HtmlWriter {
  import opened Strings
  import opened Model
  import opened Escaping
  import opened HtmlTree
  import opened HtmlMarkup

  // ---------------------------------------------------------------- how appended pieces add up

  lemma AttrsTextOne(a: Attr)
    ensures AttrsText([a]) == AttrText(a)
  {
    AttrsTextUnfolds(a, []);
    assert [a] + [] == [a];
  }

  lemma Started(base: string, n: string, attrs: seq<Attr>)
    ensures base + "<" + n + AttrsText(attrs) + ">" == base + StartTag(n, attrs)
  {
    Associate(base, "<", n);
    Associate(base, "<" + n, AttrsText(attrs));
    Associate(base, "<" + n + AttrsText(attrs), ">");
  }

  lemma StartedWithThree(base: string, n: string, a: seq<Attr>, b: seq<Attr>, c: seq<Attr>)
    ensures base + "<" + n + AttrsText(a) + AttrsText(b) + AttrsText(c) + ">" == base + StartTag(n, a + b + c)
  {
    AttrsTextConcat(a, b);
    AttrsTextConcat(a + b, c);
    Associate(base + "<" + n, AttrsText(a), AttrsText(b));
    Associate(base + "<" + n, AttrsText(a + b), AttrsText(c));
    Started(base, n, a + b + c);
  }

  lemma Voided(base: string, n: string, attrs: seq<Attr>)
    ensures base + "<" + n + AttrsText(attrs) + " />" == base + SerializeOne(Void(n, attrs))
  {
    Associate(base, "<", n);
    Associate(base, "<" + n, AttrsText(attrs));
    Associate(base, "<" + n + AttrsText(attrs), " />");
  }

  lemma Ended(base: string, n: string, attrs: seq<Attr>, content: seq<Markup>)
    ensures base + StartTag(n, attrs) + Serialize(content) + EndTag(n) == base + SerializeOne(Markup.Tag(n, attrs, content))
  {
    Associate(base, StartTag(n, attrs), Serialize(content));
    Associate(base, StartTag(n, attrs) + Serialize(content), EndTag(n));
  }

  lemma SerializeFirst(m: Markup, more: seq<Markup>)
    ensures Serialize([m] + more) == SerializeOne(m) + Serialize(more)
  {
    assert ([m] + more)[1..] == more;
  }

  lemma SerializeSingle(m: Markup)
    ensures Serialize([m]) == SerializeOne(m)
  {
    SerializeFirst(m, []);
    assert [m] + [] == [m];
  }

  lemma SerializePlain(t: string)
    requires IsPlain(t)
    ensures SerializeOne(Chars(t)) == t && Serialize([Chars(t)]) == t
  {
    PlainEscapesToItself(t);
    SerializeSingle(Chars(t));
  }

  /** An element on a line of its own, in front of more. */
  lemma SerializeLine(m: Markup, more: seq<Markup>)
    ensures Serialize([m, Chars("\n")] + more) == SerializeOne(m) + "\n" + Serialize(more)
    ensures Serialize([m, Chars("\n")]) == SerializeOne(m) + "\n"
  {
    SerializePlain("\n");
    SerializeFirst(m, [Chars("\n")] + more);
    SerializeFirst(Chars("\n"), more);
    assert [m, Chars("\n")] + more == [m] + ([Chars("\n")] + more);
    Associate(SerializeOne(m), "\n", Serialize(more));
    SerializeFirst(m, [Chars("\n")]);
    assert [m, Chars("\n")] == [m] + [Chars("\n")];
  }

  lemma SerializeBehindLine(more: seq<Markup>)
    ensures Serialize([Chars("\n")] + more) == "\n" + Serialize(more)
  {
    SerializePlain("\n");
    SerializeFirst(Chars("\n"), more);
  }

  lemma LiteralAttr(n: string, fixed: string, value: string)
    requires IsPlain(fixed)
    ensures AttrText(Named(n, fixed + value)) == " " + n + "=\"" + fixed + EscapeAttr(value) + "\""
  {
    EscapeAttrConcat(fixed, value);
    PlainEscapesToItself(fixed);
    Associate(" " + n + "=\"", fixed, EscapeAttr(value));
  }

  lemma TwoAttrs(base: string, a: Attr, b: Attr)
    ensures base + AttrsText([a]) + AttrsText([b]) == base + AttrsText([a, b])
  {
    AttrsTextConcat([a], [b]);
    assert [a] + [b] == [a, b];
    Associate(base, AttrsText([a]), AttrsText([b]));
  }

  lemma ColonsAround(base: string, name: string)
    ensures base + ":" + SerializeOne(Chars(name)) + ":" == base + Serialize([Chars(":"), Chars(name), Chars(":")])
  {
    SerializePlain(":");
    SerializeFirst(Chars(name), [Chars(":")]);
    SerializeFirst(Chars(":"), [Chars(name)] + [Chars(":")]);
    assert [Chars(":")] + ([Chars(name)] + [Chars(":")]) == [Chars(":"), Chars(name), Chars(":")];
    Associate(base, ":", SerializeOne(Chars(name)));
    Associate(base, ":" + SerializeOne(Chars(name)), ":");
    Associate(":", SerializeOne(Chars(name)), ":");
  }

  lemma StartedWithTwo(base: string, n: string, a: seq<Attr>, b: seq<Attr>)
    ensures base + "<" + n + AttrsText(a) + AttrsText(b) + ">" == base + StartTag(n, a + b)
  {
    AttrsTextConcat(a, b);
    Associate(base + "<" + n, AttrsText(a), AttrsText(b));
    Started(base, n, a + b);
  }

  lemma ThreeRegroup(base: string, a: string, b: string, c: string)
    ensures base + a + b + c == base + (a + (b + c))
  {
  }

  lemma LineRegroups(base: string, line: string, more: string)
    ensures base + line + "\n" + more == base + (line + "\n" + more)
  {
  }

  lemma RunUnfolds(items: seq<Block>, k: nat, urls: Urls)
    requires k < |items|
    ensures Serialize(RunMarkup(items[k..], urls))
         == SerializeOne(BlockMarkup(items[k], urls)) + "\n" + Serialize(RunMarkup(items[k + 1..], urls))
  {
    assert items[k..][1..] == items[k + 1..];
    SerializeLine(BlockMarkup(items[k], urls), RunMarkup(items[k + 1..], urls));
  }

  lemma ItemsUnfold(items: seq<ListItem>, k: nat, urls: Urls)
    requires k < |items|
    ensures Serialize(ItemsMarkup(items[k..], urls))
         == SerializeOne(ItemMarkup(items[k], urls)) + "\n" + Serialize(ItemsMarkup(items[k + 1..], urls))
  {
    assert items[k..][1..] == items[k + 1..];
    SerializeLine(ItemMarkup(items[k], urls), ItemsMarkup(items[k + 1..], urls));
  }

  /** The alignments that are left for the cells from `k` on. */
  function From(alignments: seq<CellAlignment>, k: nat): seq<CellAlignment> {
    if k <= |alignments| then alignments[k..] else []
  }

  lemma CellsUnfold(cells: seq<seq<Inline>>, alignments: seq<CellAlignment>, k: nat, tag: string, urls: Urls)
    requires k < |cells|
    ensures Serialize(CellsMarkup(cells[k..], From(alignments, k), tag, urls))
         == SerializeOne(CellMarkup(cells[k], From(alignments, k), tag, urls))
            + Serialize(CellsMarkup(cells[k + 1..], From(alignments, k + 1), tag, urls))
  {
    assert cells[k..][1..] == cells[k + 1..];
    assert k < |alignments| ==> From(alignments, k)[1..] == From(alignments, k + 1);
    SerializeFirst(CellMarkup(cells[k], From(alignments, k), tag, urls),
                   CellsMarkup(cells[k + 1..], From(alignments, k + 1), tag, urls));
  }

  lemma TableParts(base: string, t: Table, urls: Urls)
    ensures base + "\n" + SerializeOne(HeadMarkup(t, urls)) + "\n" + SerializeOne(TableBodyMarkup(t, urls)) + "\n"
         == base + Serialize(TableContent(t, urls))
  {
    var head, body := HeadMarkup(t, urls), TableBodyMarkup(t, urls);
    SerializeLine(body, []);
    SerializeLine(head, [body, Chars("\n")]);
    SerializeBehindLine([head, Chars("\n")] + [body, Chars("\n")]);
    assert TableContent(t, urls) == [Chars("\n")] + ([head, Chars("\n")] + [body, Chars("\n")]);
    TableRegroups(base, SerializeOne(head), SerializeOne(body));
  }

  lemma TableRegroups(base: string, head: string, body: string)
    ensures base + "\n" + head + "\n" + body + "\n" == base + ("\n" + (head + "\n" + (body + "\n")))
  {
  }

  class Writer {
    var out: string

    constructor ()
      ensures out == ""
    {
      out := "";
    }

    method Push(piece: string)
      modifies this
      ensures out == old(out) + piece
    {
      out := out + piece;
    }

    /** `escape_text`. */
    method PushText(text: string)
      modifies this
      ensures out == old(out) + SerializeOne(Chars(text))
    {
      out := RunEscapeText(text, out);
    }

    /** An attribute whose value is a literal and then escaped text. */
    method PushAttr(name: string, fixed: string, value: string)
      requires IsPlain(fixed)
      modifies this
      ensures out == old(out) + AttrsText([Named(name, fixed + value)])
    {
      ghost var base := out;
      Push(" " + name + "=\"" + fixed);
      out := RunEscapeAttr(value, out);
      Push("\"");
      LiteralAttr(name, fixed, value);
      AttrsTextOne(Named(name, fixed + value));
      Associate(base, " " + name + "=\"" + fixed, EscapeAttr(value));
      Associate(base, " " + name + "=\"" + fixed + EscapeAttr(value), "\"");
    }

    method PushLiteralAttr(name: string, fixed: string)
      requires IsPlain(fixed)
      modifies this
      ensures out == old(out) + AttrsText([Named(name, fixed)])
    {
      PushAttr(name, fixed, "");
      assert fixed + "" == fixed;
    }

    method PushEscapedAttr(name: string, value: string)
      modifies this
      ensures out == old(out) + AttrsText([Named(name, value)])
    {
      PushAttr(name, "", value);
      assert "" + value == value;
    }

    method PushBareAttr(name: string)
      modifies this
      ensures out == old(out) + AttrsText([Attr(name, None)])
    {
      Push(" " + name);
      AttrsTextOne(Attr(name, None));
    }

    /** `push_anchor`. */
    method PushAnchor(anchor: Option<string>)
      modifies this
      ensures out == old(out) + AttrsText(IdAttr(anchor))
    {
      if anchor.Some? {
        PushEscapedAttr("id", anchor.value);
      }
    }

    /** `open`. */
    method OpenTag(tag: string, anchor: Option<string>)
      modifies this
      ensures out == old(out) + StartTag(tag, IdAttr(anchor))
    {
      ghost var base := out;
      Push("<");
      Push(tag);
      PushAnchor(anchor);
      Push(">");
      Started(base, tag, IdAttr(anchor));
    }

    /** A start tag with one literal attribute. */
    method OpenWith(tag: string, name: string, fixed: string)
      requires IsPlain(fixed)
      modifies this
      ensures out == old(out) + StartTag(tag, [Named(name, fixed)])
    {
      ghost var base := out;
      Push("<");
      Push(tag);
      PushLiteralAttr(name, fixed);
      Push(">");
      Started(base, tag, [Named(name, fixed)]);
    }

    /** The end tag of an element whose start tag and content have been written behind `base`. */
    method CloseTag(tag: string, ghost base: string, ghost attrs: seq<Attr>, ghost content: seq<Markup>)
      requires out == base + StartTag(tag, attrs) + Serialize(content)
      modifies this
      ensures out == base + SerializeOne(Markup.Tag(tag, attrs, content))
    {
      Push("</" + tag + ">");
      Ended(base, tag, attrs, content);
    }

    // -------------------------------------------------------------- inlines

    method PushInlines(items: seq<Inline>, urls: Urls)
      modifies this
      ensures out == old(out) + Serialize(InlinesMarkup(items, urls))
      decreases items, 0
    {
      ghost var base := out;
      for k := 0 to |items|
        invariant out + Serialize(InlinesMarkup(items[k..], urls)) == base + Serialize(InlinesMarkup(items, urls))
      {
        ghost var here := out;
        PushInline(items[k], urls);
        assert items[k..][1..] == items[k + 1..];
        SerializeFirst(InlineMarkup(items[k], urls), InlinesMarkup(items[k + 1..], urls));
        Associate(here, SerializeOne(InlineMarkup(items[k], urls)), Serialize(InlinesMarkup(items[k + 1..], urls)));
      }
    }

    method PushInline(item: Inline, urls: Urls)
      modifies this
      ensures out == old(out) + SerializeOne(InlineMarkup(item, urls))
      decreases item, 0
    {
      match item
      case Text(t) => PushText(t);
      case Mark(kind, children) => Wrap(MarkTag(kind), children, urls);
      case Code(c) => PushCode(c);
      case Math(m) => PushLabel("span", "mb-math", m);
      case Link(dest, title, content) => PushLink(dest, title, content, urls);
      case Image(dest, alt) => PushImage(dest, alt, urls);
      case Wiki(w) => PushWikilink(w, urls);
      case Tag(t) => PushTag(t);
      case Emoji(name) => PushEmoji(name);
      case FootnoteRef(note) => PushLabel("sup", "mb-footnote-ref", note);
      case SoftBreak =>
        Push("\n");
        SerializePlain("\n");
      case HardBreak =>
        ghost var base := out;
        Push("<br />");
        assert base + "<" + "br" + AttrsText([]) + " />" == base + "<br />";
        Voided(base, "br", []);
    }

    /** `wrap`. */
    method Wrap(tag: string, content: seq<Inline>, urls: Urls)
      modifies this
      ensures out == old(out) + SerializeOne(Markup.Tag(tag, [], InlinesMarkup(content, urls)))
      decreases content, 1
    {
      ghost var base := out;
      OpenTag(tag, None);
      PushInlines(content, urls);
      CloseTag(tag, base, [], InlinesMarkup(content, urls));
    }

    method PushCode(code: string)
      modifies this
      ensures out == old(out) + SerializeOne(Markup.Tag("code", [], [Chars(code)]))
    {
      ghost var base := out;
      OpenTag("code", None);
      PushText(code);
      SerializeSingle(Chars(code));
      CloseTag("code", base, [], [Chars(code)]);
    }

    method PushLabel(tag: string, class_: string, text: string)
      requires IsPlain(class_)
      modifies this
      ensures out == old(out) + SerializeOne(Markup.Tag(tag, [Named("class", class_)], [Chars(text)]))
    {
      ghost var base := out;
      OpenWith(tag, "class", class_);
      PushText(text);
      SerializeSingle(Chars(text));
      CloseTag(tag, base, [Named("class", class_)], [Chars(text)]);
    }

    method PushTag(t: string)
      modifies this
      ensures out == old(out) + SerializeOne(Markup.Tag("span", [Named("class", "mb-tag")], [Chars("#"), Chars(t)]))
    {
      ghost var base := out;
      OpenWith("span", "class", "mb-tag");
      ghost var start := out;
      Push("#");
      PushText(t);
      SerializePlain("#");
      SerializeFirst(Chars("#"), [Chars(t)]);
      SerializeSingle(Chars(t));
      Associate(start, "#", SerializeOne(Chars(t)));
      assert [Chars("#")] + [Chars(t)] == [Chars("#"), Chars(t)];
      CloseTag("span", base, [Named("class", "mb-tag")], [Chars("#"), Chars(t)]);
    }

    method PushEmoji(name: string)
      modifies this
      ensures out == old(out) + SerializeOne(EmojiMarkup(name))
    {
      ghost var base := out;
      ghost var attrs := [Named("class", "mb-emoji"), Named("data-shortcode", name)];
      Push("<");
      Push("span");
      PushLiteralAttr("class", "mb-emoji");
      PushEscapedAttr("data-shortcode", name);
      Push(">");
      assert attrs == [Named("class", "mb-emoji")] + [Named("data-shortcode", name)] + [];
      assert out == base + "<" + "span" + AttrsText([Named("class", "mb-emoji")])
                    + AttrsText([Named("data-shortcode", name)]) + AttrsText([]) + ">";
      StartedWithThree(base, "span", [Named("class", "mb-emoji")], [Named("data-shortcode", name)], []);
      ghost var start := out;
      Push(":");
      PushText(name);
      Push(":");
      ColonsAround(start, name);
      CloseTag("span", base, attrs, [Chars(":"), Chars(name), Chars(":")]);
    }

    method PushLink(dest: string, title: Option<string>, content: seq<Inline>, urls: Urls)
      modifies this
      ensures out == old(out) + SerializeOne(Markup.Tag("a", LinkAttrs(dest, title), InlinesMarkup(content, urls)))
      decreases content, 1
    {
      ghost var base := out;
      OpenLink(dest, title);
      PushInlines(content, urls);
      CloseTag("a", base, LinkAttrs(dest, title), InlinesMarkup(content, urls));
    }

    method OpenLink(dest: string, title: Option<string>)
      modifies this
      ensures out == old(out) + StartTag("a", LinkAttrs(dest, title))
    {
      ghost var base := out;
      Push("<");
      Push("a");
      PushTarget(dest);
      PushTitleAttr(title);
      PushRel(dest);
      Push(">");
      StartedWithThree(base, "a", TargetAttr(dest), TitleAttr(title), RelAttr(dest));
    }

    method PushTarget(dest: string)
      modifies this
      ensures out == old(out) + AttrsText(TargetAttr(dest))
    {
      var safe := SafeUrl(dest);
      if safe == dest {
        PushEscapedAttr("href", safe);
      } else {
        PushLiteralAttr("aria-disabled", "true");
      }
    }

    method PushTitleAttr(title: Option<string>)
      modifies this
      ensures out == old(out) + AttrsText(TitleAttr(title))
    {
      if title.Some? {
        PushEscapedAttr("title", title.value);
      }
    }

    method PushRel(dest: string)
      modifies this
      ensures out == old(out) + AttrsText(RelAttr(dest))
    {
      if IsExternal(dest) {
        PushLiteralAttr("rel", "noopener noreferrer");
      }
    }

    method PushImage(dest: string, alt: string, urls: Urls)
      modifies this
      ensures out == old(out) + SerializeOne(Void("img", ImageAttrs(dest, alt, urls)))
    {
      ghost var base := out;
      var src := ResolveMedia(dest, urls);
      Push("<");
      Push("img");
      PushImageAttrs(src, alt);
      Push(" />");
      Voided(base, "img", [Named("src", src), Named("alt", alt)]);
    }

    method PushImageAttrs(src: string, alt: string)
      modifies this
      ensures out == old(out) + AttrsText([Named("src", src), Named("alt", alt)])
    {
      ghost var base := out;
      PushEscapedAttr("src", src);
      PushEscapedAttr("alt", alt);
      TwoAttrs(base, Named("src", src), Named("alt", alt));
    }

    method PushWikilink(w: WikiLink, urls: Urls)
      modifies this
      ensures out == old(out) + SerializeOne(WikiMarkup(w, urls))
    {
      var text := WikiText(w);
      if !(urls.wikilinks || (w.embed && urls.embeds)) {
        PushText(text);
        return;
      }
      ghost var base := out;
      var href := urls.note + PercentEncode(w.target);
      if w.anchor.Some? {
        href := href + ("#" + PercentEncode(AnchorName(w.anchor.value)));
      }
      assert href == WikiHref(w, urls) by {
        assert w.anchor.None? ==> href + "" == href;
      }
      OpenWikilink(w, href, urls);
      PushText(text);
      SerializeSingle(Chars(text));
      CloseTag("a", base, WikiAttrs(w, urls), [Chars(text)]);
    }

    method OpenWikilink(w: WikiLink, href: string, urls: Urls)
      requires href == WikiHref(w, urls)
      modifies this
      ensures out == old(out) + StartTag("a", WikiAttrs(w, urls))
    {
      ghost var base := out;
      Push("<");
      Push("a");
      PushWikiClass(w);
      PushWikiTarget(w, href);
      PushWikiAnchor(w.anchor);
      Push(">");
      StartedWithThree(base, "a", WikiClass(w), WikiTarget(w, urls), WikiAnchorAttrs(w.anchor));
    }

    method PushWikiClass(w: WikiLink)
      modifies this
      ensures out == old(out) + AttrsText(WikiClass(w))
    {
      ghost var base := out;
      if w.embed {
        PushLiteralAttr("class", "mb-embed");
        PushLiteralAttr("data-embed", "true");
        TwoAttrs(base, Named("class", "mb-embed"), Named("data-embed", "true"));
      } else {
        PushLiteralAttr("class", "mb-wikilink");
      }
    }

    method PushWikiTarget(w: WikiLink, href: string)
      modifies this
      ensures out == old(out) + AttrsText([Named("href", href), Named("data-target", w.target)])
    {
      ghost var base := out;
      PushEscapedAttr("href", href);
      PushEscapedAttr("data-target", w.target);
      TwoAttrs(base, Named("href", href), Named("data-target", w.target));
    }

    method PushWikiAnchor(anchor: Option<Anchor>)
      modifies this
      ensures out == old(out) + AttrsText(WikiAnchorAttrs(anchor))
    {
      ghost var base := out;
      match anchor
      case None =>
      case Some(HeadingAnchor(h)) =>
        PushLiteralAttr("data-anchor-kind", "heading");
        PushEscapedAttr("data-anchor", h);
        TwoAttrs(base, Named("data-anchor-kind", "heading"), Named("data-anchor", h));
      case Some(BlockAnchor(id)) =>
        PushLiteralAttr("data-anchor-kind", "block");
        PushEscapedAttr("data-anchor", id);
        TwoAttrs(base, Named("data-anchor-kind", "block"), Named("data-anchor", id));
    }

    // -------------------------------------------------------------- blocks

    method PushBlocks(items: seq<Block>, urls: Urls)
      modifies this
      ensures out == old(out) + Serialize(RunMarkup(items, urls))
      decreases items, 0
    {
      ghost var base := out;
      for k := 0 to |items|
        invariant out + Serialize(RunMarkup(items[k..], urls)) == base + Serialize(RunMarkup(items, urls))
      {
        ghost var here := out;
        PushBlock(items[k], urls);
        Push("\n");
        RunUnfolds(items, k, urls);
        LineRegroups(here, SerializeOne(BlockMarkup(items[k], urls)), Serialize(RunMarkup(items[k + 1..], urls)));
      }
    }

    method PushBlock(b: Block, urls: Urls)
      modifies this
      ensures out == old(out) + SerializeOne(BlockMarkup(b, urls))
      decreases b, 2
    {
      match b.kind
      case List(ordered, start, items) => PushList(ordered, start, items, b.anchor, urls);
      case Blockquote(quoted) => PushQuote(quoted, b.anchor, urls);
      case Callout(kind, fold, title, body) => PushCallout(kind, fold, title, body, b.anchor, urls);
      case _ => PushLeaf(b, urls);
    }

    /** A block that holds no blocks. */
    method PushLeaf(b: Block, urls: Urls)
      requires !b.kind.List? && !b.kind.Blockquote? && !b.kind.Callout?
      modifies this
      ensures out == old(out) + SerializeOne(BlockMarkup(b, urls))
    {
      match b.kind
      case Paragraph(content) => PushLine("p", content, b.anchor, urls);
      case Heading(level, content) => PushLine(HeadingTag(level), content, b.anchor, urls);
      case CodeBlock(lang, code) => PushCodeBlock(lang, code, b.anchor);
      case Divider => PushDivider(b.anchor);
      case TableBlock(t) => PushTable(t, b.anchor, urls);
      case MathBlock(m) =>
        assert BlockMarkup(b, urls) == MathMarkup(m, b.anchor);
        PushMathBlock(m, b.anchor);
    }

    method PushDivider(anchor: Option<string>)
      modifies this
      ensures out == old(out) + SerializeOne(Void("hr", IdAttr(anchor)))
    {
      ghost var base := out;
      Push("<");
      Push("hr");
      PushAnchor(anchor);
      Push(" />");
      Voided(base, "hr", IdAttr(anchor));
    }

    /** A paragraph or a heading. */
    method PushLine(tag: string, content: seq<Inline>, anchor: Option<string>, urls: Urls)
      modifies this
      ensures out == old(out) + SerializeOne(Markup.Tag(tag, IdAttr(anchor), InlinesMarkup(content, urls)))
    {
      ghost var base := out;
      OpenTag(tag, anchor);
      PushInlines(content, urls);
      CloseTag(tag, base, IdAttr(anchor), InlinesMarkup(content, urls));
    }

    method PushQuote(quoted: seq<Block>, anchor: Option<string>, urls: Urls)
      modifies this
      ensures out == old(out) + SerializeOne(Markup.Tag("blockquote", IdAttr(anchor), RunMarkup(quoted, urls)))
      decreases quoted, 1
    {
      ghost var base := out;
      OpenTag("blockquote", anchor);
      PushBlocks(quoted, urls);
      CloseTag("blockquote", base, IdAttr(anchor), RunMarkup(quoted, urls));
    }

    method PushCodeBlock(lang: Option<string>, code: string, anchor: Option<string>)
      modifies this
      ensures out == old(out) + SerializeOne(CodeMarkup(lang, code, anchor))
    {
      ghost var base := out;
      OpenTag("pre", anchor);
      PushCodeElement(lang, code);
      SerializeSingle(Markup.Tag("code", CodeAttrs(lang), [Chars(code)]));
      CloseTag("pre", base, IdAttr(anchor), [Markup.Tag("code", CodeAttrs(lang), [Chars(code)])]);
    }

    method PushCodeElement(lang: Option<string>, code: string)
      modifies this
      ensures out == old(out) + SerializeOne(Markup.Tag("code", CodeAttrs(lang), [Chars(code)]))
    {
      ghost var base := out;
      Push("<");
      Push("code");
      if lang.Some? && lang.value != "" {
        PushAttr("class", "language-", lang.value);
      }
      Push(">");
      Started(base, "code", CodeAttrs(lang));
      PushText(code);
      SerializeSingle(Chars(code));
      CloseTag("code", base, CodeAttrs(lang), [Chars(code)]);
    }

    method PushMathBlock(m: string, anchor: Option<string>)
      modifies this
      ensures out == old(out) + SerializeOne(MathMarkup(m, anchor))
    {
      ghost var base := out;
      Push("<");
      Push("div");
      PushLiteralAttr("class", "mb-math-block");
      PushAnchor(anchor);
      Push(">");
      StartedWithTwo(base, "div", [Named("class", "mb-math-block")], IdAttr(anchor));
      PushText(m);
      SerializeSingle(Chars(m));
      CloseTag("div", base, MathAttrs(anchor), [Chars(m)]);
    }

    // -------------------------------------------------------------- lists

    method PushList(ordered: bool, start: nat, items: seq<ListItem>, anchor: Option<string>, urls: Urls)
      modifies this
      ensures out == old(out)
        + SerializeOne(Markup.Tag(ListTag(ordered), ListAttrs(ordered, start, items, anchor), [Chars("\n")] + ItemsMarkup(items, urls)))
      decreases items, 1
    {
      ghost var base := out;
      OpenList(ordered, start, items, anchor);
      ghost var inside := out;
      Push("\n");
      PushItems(items, urls);
      SerializeBehindLine(ItemsMarkup(items, urls));
      Associate(inside, "\n", Serialize(ItemsMarkup(items, urls)));
      CloseTag(ListTag(ordered), base, ListAttrs(ordered, start, items, anchor), [Chars("\n")] + ItemsMarkup(items, urls));
    }

    method OpenList(ordered: bool, start: nat, items: seq<ListItem>, anchor: Option<string>)
      modifies this
      ensures out == old(out) + StartTag(ListTag(ordered), ListAttrs(ordered, start, items, anchor))
    {
      ghost var base := out;
      Push("<");
      Push(ListTag(ordered));
      PushAnchor(anchor);
      PushNumber(ordered, start);
      PushTaskList(items);
      Push(">");
      StartedWithThree(base, ListTag(ordered), IdAttr(anchor), NumberAttr(ordered, start), TaskListAttr(items));
    }

    method PushNumber(ordered: bool, start: nat)
      modifies this
      ensures out == old(out) + AttrsText(NumberAttr(ordered, start))
    {
      if ordered && start != 1 {
        PushEscapedAttr("start", Decimal(start));
      }
    }

    method PushTaskList(items: seq<ListItem>)
      modifies this
      ensures out == old(out) + AttrsText(TaskListAttr(items))
    {
      if HasTask(items) {
        PushLiteralAttr("class", "mb-task-list");
      }
    }

    method PushItems(items: seq<ListItem>, urls: Urls)
      modifies this
      ensures out == old(out) + Serialize(ItemsMarkup(items, urls))
      decreases items, 0
    {
      ghost var base := out;
      for k := 0 to |items|
        invariant out + Serialize(ItemsMarkup(items[k..], urls)) == base + Serialize(ItemsMarkup(items, urls))
      {
        ghost var here := out;
        PushItem(items[k], urls);
        Push("\n");
        ItemsUnfold(items, k, urls);
        LineRegroups(here, SerializeOne(ItemMarkup(items[k], urls)), Serialize(ItemsMarkup(items[k + 1..], urls)));
      }
    }

    /** `list_item`. */
    method PushItem(item: ListItem, urls: Urls)
      modifies this
      ensures out == old(out) + SerializeOne(ItemMarkup(item, urls))
      decreases item, 0
    {
      ghost var base := out;
      OpenItem(item.task);
      ghost var start := out;
      PushCheckbox(item.task);
      PushBlocks(item.content, urls);
      SerializeConcat(Checkbox(item.task), RunMarkup(item.content, urls));
      Associate(start, Serialize(Checkbox(item.task)), Serialize(RunMarkup(item.content, urls)));
      CloseTag("li", base, ItemAttrs(item.task), Checkbox(item.task) + RunMarkup(item.content, urls));
    }

    method OpenItem(task: Option<Task>)
      modifies this
      ensures out == old(out) + StartTag("li", ItemAttrs(task))
    {
      ghost var base := out;
      Push("<");
      Push("li");
      if task.Some? {
        PushAttr("class", "mb-task mb-task-", StatusName(task.value.status));
      }
      Push(">");
      Started(base, "li", ItemAttrs(task));
    }

    method PushCheckbox(task: Option<Task>)
      modifies this
      ensures out == old(out) + Serialize(Checkbox(task))
    {
      if task.Some? {
        ghost var base := out;
        PushBox(task.value);
        Push(" ");
        SerializePlain(" ");
        SerializeFirst(Void("input", BoxAttrs(task.value)), [Chars(" ")]);
        assert Checkbox(task) == [Void("input", BoxAttrs(task.value))] + [Chars(" ")];
        Associate(base, SerializeOne(Void("input", BoxAttrs(task.value))), " ");
      }
    }

    method PushBox(t: Task)
      modifies this
      ensures out == old(out) + SerializeOne(Void("input", BoxAttrs(t)))
    {
      ghost var base := out;
      Push("<");
      Push("input");
      PushBoxAttrs(t);
      Push(" />");
      Voided(base, "input", BoxAttrs(t));
    }

    method PushBoxAttrs(t: Task)
      modifies this
      ensures out == old(out) + AttrsText(BoxAttrs(t))
    {
      ghost var base := out;
      PushLiteralAttr("type", "checkbox");
      PushBareAttr("disabled");
      TwoAttrs(base, Named("type", "checkbox"), Attr("disabled", None));
      ghost var two := [Named("type", "checkbox"), Attr("disabled", None)];
      if t.status.Done? {
        PushBareAttr("checked");
        AttrsTextConcat(two, [Attr("checked", None)]);
        Associate(base, AttrsText(two), AttrsText([Attr("checked", None)]));
      } else {
        assert two + [] == two;
      }
    }

    // -------------------------------------------------------------- callouts

    method PushCallout(kind: string, fold: Fold, title: seq<Inline>, body: seq<Block>, anchor: Option<string>, urls: Urls)
      modifies this
      ensures out == old(out) + SerializeOne(CalloutMarkup(kind, fold, title, body, anchor, urls))
      decreases body, 3
    {
      ghost var base := out;
      OpenCallout(kind, fold, anchor, urls);
      ghost var start := out;
      PushCalloutHead(kind, fold, title, urls);
      PushBody(body, urls);
      SerializeConcat(CalloutHead(kind, fold, title, urls), BodyMarkup(body, urls));
      Associate(start, Serialize(CalloutHead(kind, fold, title, urls)), Serialize(BodyMarkup(body, urls)));
      CloseTag(CalloutTag(fold), base, CalloutAttrs(kind, fold, anchor, urls),
               CalloutHead(kind, fold, title, urls) + BodyMarkup(body, urls));
    }

    method OpenCallout(kind: string, fold: Fold, anchor: Option<string>, urls: Urls)
      modifies this
      ensures out == old(out) + StartTag(CalloutTag(fold), CalloutAttrs(kind, fold, anchor, urls))
    {
      ghost var base := out;
      Push("<");
      Push(CalloutTag(fold));
      PushAttr("class", "mb-callout mb-callout-", urls.lower(kind));
      PushAnchor(anchor);
      PushFold(fold);
      Push(">");
      StartedWithThree(base, CalloutTag(fold), [Named("class", "mb-callout mb-callout-" + urls.lower(kind))],
                       IdAttr(anchor), FoldAttrs(fold));
    }

    method PushFold(fold: Fold)
      modifies this
      ensures out == old(out) + AttrsText(FoldAttrs(fold))
    {
      ghost var base := out;
      match fold
      case Unfoldable =>
      case Collapsed => PushLiteralAttr("data-fold", "collapsed");
      case Expanded =>
        PushLiteralAttr("data-fold", "expanded");
        PushBareAttr("open");
        TwoAttrs(base, Named("data-fold", "expanded"), Attr("open", None));
    }

    method PushCalloutHead(kind: string, fold: Fold, title: seq<Inline>, urls: Urls)
      modifies this
      ensures out == old(out) + Serialize(CalloutHead(kind, fold, title, urls))
    {
      ghost var base := out;
      Push("\n");
      PushTitle(kind, fold, title, urls);
      Push("\n");
      ghost var m := Markup.Tag(TitleTag(fold), [Named("class", "mb-callout-title")], TitleMarkup(kind, title, urls));
      SerializeBehindLine([m, Chars("\n")]);
      SerializeLine(m, []);
      assert CalloutHead(kind, fold, title, urls) == [Chars("\n")] + [m, Chars("\n")];
      ThreeRegroup(base, "\n", SerializeOne(m), "\n");
    }

    method PushTitle(kind: string, fold: Fold, title: seq<Inline>, urls: Urls)
      modifies this
      ensures out == old(out)
        + SerializeOne(Markup.Tag(TitleTag(fold), [Named("class", "mb-callout-title")], TitleMarkup(kind, title, urls)))
    {
      ghost var base := out;
      OpenWith(TitleTag(fold), "class", "mb-callout-title");
      if title == [] {
        PushText(kind);
        SerializeSingle(Chars(kind));
      } else {
        PushInlines(title, urls);
      }
      CloseTag(TitleTag(fold), base, [Named("class", "mb-callout-title")], TitleMarkup(kind, title, urls));
    }

    method PushBody(body: seq<Block>, urls: Urls)
      modifies this
      ensures out == old(out) + Serialize(BodyMarkup(body, urls))
      decreases body, 2
    {
      if body != [] {
        ghost var base := out;
        PushBodyElement(body, urls);
        Push("\n");
        SerializeLine(BodyElement(body, urls), []);
        Associate(base, SerializeOne(BodyElement(body, urls)), "\n");
      }
    }

    method PushBodyElement(body: seq<Block>, urls: Urls)
      modifies this
      ensures out == old(out) + SerializeOne(BodyElement(body, urls))
      decreases body, 1
    {
      ghost var base := out;
      OpenWith("div", "class", "mb-callout-body");
      ghost var start := out;
      Push("\n");
      PushBlocks(body, urls);
      SerializeBehindLine(RunMarkup(body, urls));
      Associate(start, "\n", Serialize(RunMarkup(body, urls)));
      CloseTag("div", base, [Named("class", "mb-callout-body")], [Chars("\n")] + RunMarkup(body, urls));
    }

    // -------------------------------------------------------------- tables

    method PushTable(t: Table, anchor: Option<string>, urls: Urls)
      modifies this
      ensures out == old(out) + SerializeOne(Markup.Tag("table", IdAttr(anchor), TableContent(t, urls)))
    {
      ghost var base := out;
      OpenTag("table", anchor);
      ghost var start := out;
      Push("\n");
      PushHead(t, urls);
      Push("\n");
      PushTableBody(t, urls);
      Push("\n");
      TableParts(start, t, urls);
      CloseTag("table", base, IdAttr(anchor), TableContent(t, urls));
    }

    method PushHead(t: Table, urls: Urls)
      modifies this
      ensures out == old(out) + SerializeOne(HeadMarkup(t, urls))
    {
      ghost var base := out;
      OpenTag("thead", None);
      ghost var start := out;
      Push("\n");
      PushRow(t.head, t.alignments, "th", urls);
      SerializeBehindLine(RowMarkup(t.head, t.alignments, "th", urls));
      Associate(start, "\n", Serialize(RowMarkup(t.head, t.alignments, "th", urls)));
      CloseTag("thead", base, [], [Chars("\n")] + RowMarkup(t.head, t.alignments, "th", urls));
    }

    method PushTableBody(t: Table, urls: Urls)
      modifies this
      ensures out == old(out) + SerializeOne(TableBodyMarkup(t, urls))
    {
      ghost var base := out;
      OpenTag("tbody", None);
      ghost var start := out;
      Push("\n");
      PushRows(t.rows, t.alignments, urls);
      SerializeBehindLine(RowsMarkup(t.rows, t.alignments, urls));
      Associate(start, "\n", Serialize(RowsMarkup(t.rows, t.alignments, urls)));
      CloseTag("tbody", base, [], [Chars("\n")] + RowsMarkup(t.rows, t.alignments, urls));
    }

    method PushRows(rows: seq<seq<seq<Inline>>>, alignments: seq<CellAlignment>, urls: Urls)
      modifies this
      ensures out == old(out) + Serialize(RowsMarkup(rows, alignments, urls))
    {
      ghost var base := out;
      for k := 0 to |rows|
        invariant out + Serialize(RowsMarkup(rows[k..], alignments, urls)) == base + Serialize(RowsMarkup(rows, alignments, urls))
      {
        ghost var here := out;
        PushRow(rows[k], alignments, "td", urls);
        assert rows[k..][1..] == rows[k + 1..];
        SerializeConcat(RowMarkup(rows[k], alignments, "td", urls), RowsMarkup(rows[k + 1..], alignments, urls));
        Associate(here, Serialize(RowMarkup(rows[k], alignments, "td", urls)),
                Serialize(RowsMarkup(rows[k + 1..], alignments, urls)));
      }
    }

    method PushRow(cells: seq<seq<Inline>>, alignments: seq<CellAlignment>, tag: string, urls: Urls)
      modifies this
      ensures out == old(out) + Serialize(RowMarkup(cells, alignments, tag, urls))
    {
      ghost var base := out;
      OpenTag("tr", None);
      PushCells(cells, alignments, tag, urls);
      ghost var m := Markup.Tag("tr", [], CellsMarkup(cells, alignments, tag, urls));
      CloseTag("tr", base, [], CellsMarkup(cells, alignments, tag, urls));
      Push("\n");
      SerializeLine(m, []);
      Associate(base, SerializeOne(m), "\n");
    }

    method PushCells(cells: seq<seq<Inline>>, alignments: seq<CellAlignment>, tag: string, urls: Urls)
      modifies this
      ensures out == old(out) + Serialize(CellsMarkup(cells, alignments, tag, urls))
    {
      ghost var base := out;
      for k := 0 to |cells|
        invariant out + Serialize(CellsMarkup(cells[k..], From(alignments, k), tag, urls))
               == base + Serialize(CellsMarkup(cells, alignments, tag, urls))
      {
        ghost var here := out;
        PushCell(cells[k], alignments, k, tag, urls);
        CellsUnfold(cells, alignments, k, tag, urls);
        Associate(here, SerializeOne(CellMarkup(cells[k], From(alignments, k), tag, urls)),
                Serialize(CellsMarkup(cells[k + 1..], From(alignments, k + 1), tag, urls)));
      }
    }

    method PushCell(cell: seq<Inline>, alignments: seq<CellAlignment>, i: nat, tag: string, urls: Urls)
      modifies this
      ensures out == old(out) + SerializeOne(CellMarkup(cell, From(alignments, i), tag, urls))
    {
      ghost var base := out;
      ghost var attrs := CellAttrs(From(alignments, i));
      Push("<");
      Push(tag);
      PushAlignment(alignments, i);
      Push(">");
      Started(base, tag, attrs);
      PushInlines(cell, urls);
      CloseTag(tag, base, attrs, InlinesMarkup(cell, urls));
    }

    method PushAlignment(alignments: seq<CellAlignment>, i: nat)
      modifies this
      ensures out == old(out) + AttrsText(CellAttrs(From(alignments, i)))
    {
      if i < |alignments| {
        assert From(alignments, i)[0] == alignments[i];
        var align := AlignText(alignments[i]);
        if align != "" {
          PushAttr("style", "text-align:", align);
        }
      }
    }
  }

  /** `document`. */
  method RenderDocument(blocks: seq<Block>, urls: Urls) returns (html: string)
    ensures html == Serialize(RunMarkup(blocks, urls))
  {
    var writer := new Writer();
    writer.PushBlocks(blocks, urls);
    assert "" + Serialize(RunMarkup(blocks, urls)) == Serialize(RunMarkup(blocks, urls));
    html := writer.out;
  }
}
