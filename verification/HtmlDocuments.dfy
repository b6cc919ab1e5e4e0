/** What a rendered document guarantees to whoever reads the HTML: balance, exact text, and nothing executable. */
module HtmlDocuments {
  import opened Strings
  import opened Model
  import opened Escaping
  import opened HtmlTree
  import opened HtmlParser
  import opened HtmlRoundTrip
  import opened HtmlMarkup
  import opened HtmlAddresses

  // ---------------------------------------------------------------- elements and attributes

  predicate IsLineTag(tag: string) {
    tag in {"em", "strong", "del", "mark", "span", "a", "sup", "code", "p"}
  }

  predicate IsHeadingTag(tag: string) {
    tag in {"h1", "h2", "h3", "h4", "h5", "h6", "pre", "div"}
  }

  predicate IsGroupTag(tag: string) {
    tag in {"ol", "ul", "li", "blockquote", "details", "summary"}
  }

  predicate IsTableTag(tag: string) {
    tag in {"table", "thead", "tbody", "tr", "th", "td"}
  }

  /** The elements the renderer writes. */
  predicate IsRendered(tag: string) {
    IsLineTag(tag) || IsHeadingTag(tag) || IsGroupTag(tag) || IsTableTag(tag)
  }

  predicate IsRenderedVoid(tag: string) {
    tag in {"hr", "input", "img", "br"}
  }

  predicate IsBlockAttr(name: string) {
    name in {"id", "class", "start", "type", "disabled", "checked", "data-fold", "open", "style"}
  }

  predicate IsLinkAttr(name: string) {
    name in {"href", "aria-disabled", "title", "rel", "src", "alt"}
  }

  predicate IsDataAttr(name: string) {
    name in {"data-shortcode", "data-embed", "data-target", "data-anchor-kind", "data-anchor"}
  }

  predicate IsRenderedAttr(name: string) {
    IsBlockAttr(name) || IsLinkAttr(name) || IsDataAttr(name)
  }

  /** An attribute from the list whose value, where it is an address, no browser runs. */
  ghost predicate SafeAttr(a: Attr, urls: Urls) {
    IsRenderedAttr(a.name) && (IsAddress(a.name) ==> a.value.Some? && SafeAddress(a.name, a.value.value, urls))
  }

  predicate IsAddress(name: string) {
    name == "href" || name == "src"
  }

  /** No browser runs the address, unless the server chose a prefix that runs by itself. */
  ghost predicate SafeAddress(name: string, value: string, urls: Urls) {
    BrowserExecutes(value) ==> BrowserExecutes(if name == "href" then urls.note else urls.media)
  }

  ghost predicate SafeAttrs(attrs: seq<Attr>, urls: Urls) {
    forall a :: a in attrs ==> SafeAttr(a, urls)
  }

  ghost predicate Inert(run: seq<Markup>, urls: Urls)
    decreases run
  {
    forall m :: m in run ==> InertOne(m, urls)
  }

  /** Only known elements, with known attributes and no address that runs, at every depth. */
  ghost predicate InertOne(m: Markup, urls: Urls)
    decreases m
  {
    match m
    case Chars(_) => true
    case Tag(n, attrs, content) => IsRendered(n) && SafeAttrs(attrs, urls) && Inert(content, urls)
    case Void(n, attrs) => IsRenderedVoid(n) && SafeAttrs(attrs, urls)
  }

  lemma LineTagsAreGood(n: string)
    requires IsLineTag(n)
    ensures GoodName(n) && !IsVoid(n) && !IsDiscarded(n)
  {
  }

  lemma HeadingTagsAreGood(n: string)
    requires IsHeadingTag(n)
    ensures GoodName(n) && !IsVoid(n) && !IsDiscarded(n)
  {
  }

  lemma GroupTagsAreGood(n: string)
    requires IsGroupTag(n)
    ensures GoodName(n) && !IsVoid(n) && !IsDiscarded(n)
  {
  }

  lemma TableTagsAreGood(n: string)
    requires IsTableTag(n)
    ensures GoodName(n) && !IsVoid(n) && !IsDiscarded(n)
  {
  }

  lemma TagsAreGood(n: string)
    requires IsRendered(n)
    ensures GoodName(n) && !IsVoid(n) && !IsDiscarded(n)
  {
    if IsLineTag(n) {
      LineTagsAreGood(n);
    } else if IsHeadingTag(n) {
      HeadingTagsAreGood(n);
    } else if IsGroupTag(n) {
      GroupTagsAreGood(n);
    } else {
      TableTagsAreGood(n);
    }
  }

  lemma VoidTagsAreGood(n: string)
    requires IsRenderedVoid(n)
    ensures GoodName(n) && !IsDiscarded(n)
  {
  }

  lemma BlockAttrsAreGood(n: string)
    requires IsBlockAttr(n)
    ensures GoodName(n)
  {
  }

  lemma LinkAttrsAreGood(n: string)
    requires IsLinkAttr(n)
    ensures GoodName(n)
  {
  }

  lemma DataAttrsAreGood(n: string)
    requires IsDataAttr(n)
    ensures GoodName(n)
  {
  }

  lemma AttrsAreGood(n: string)
    requires IsRenderedAttr(n)
    ensures GoodName(n)
  {
    if IsBlockAttr(n) {
      BlockAttrsAreGood(n);
    } else if IsLinkAttr(n) {
      LinkAttrsAreGood(n);
    } else {
      DataAttrsAreGood(n);
    }
  }

  lemma SafeAttrsAreGood(attrs: seq<Attr>, urls: Urls)
    requires SafeAttrs(attrs, urls)
    ensures GoodAttrs(attrs)
  {
    forall a | a in attrs ensures GoodName(a.name) {
      AttrsAreGood(a.name);
    }
  }

  lemma {:induction false} InertIsReadable(run: seq<Markup>, urls: Urls)
    requires Inert(run, urls)
    ensures Readable(run)
    decreases run
  {
    forall m | m in run ensures ReadableOne(m) {
      InertOneIsReadable(m, urls);
    }
  }

  lemma {:induction false} InertOneIsReadable(m: Markup, urls: Urls)
    requires InertOne(m, urls)
    ensures ReadableOne(m)
    decreases m
  {
    match m
    case Chars(_) =>
    case Tag(n, attrs, content) =>
      TagsAreGood(n);
      SafeAttrsAreGood(attrs, urls);
      InertIsReadable(content, urls);
    case Void(n, attrs) =>
      VoidTagsAreGood(n);
      SafeAttrsAreGood(attrs, urls);
  }

  // ---------------------------------------------------------------- how safe parts add up

  lemma SafeAttrsConcat(a: seq<Attr>, b: seq<Attr>, urls: Urls)
    requires SafeAttrs(a, urls) && SafeAttrs(b, urls)
    ensures SafeAttrs(a + b, urls)
  {
  }

  lemma InertConcat(a: seq<Markup>, b: seq<Markup>, urls: Urls)
    requires Inert(a, urls) && Inert(b, urls)
    ensures Inert(a + b, urls)
  {
  }

  lemma InertText(t: string, urls: Urls)
    ensures Inert([Chars(t)], urls)
  {
  }

  lemma InertSingle(m: Markup, urls: Urls)
    requires InertOne(m, urls)
    ensures Inert([m], urls)
  {
  }

  lemma InertTag(n: string, attrs: seq<Attr>, content: seq<Markup>, urls: Urls)
    requires IsRendered(n) && SafeAttrs(attrs, urls) && Inert(content, urls)
    ensures InertOne(Markup.Tag(n, attrs, content), urls)
  {
  }

  /** An element on a line of its own, in front of more. */
  lemma InertLine(m: Markup, more: seq<Markup>, urls: Urls)
    requires InertOne(m, urls) && Inert(more, urls)
    ensures Inert([m, Chars("\n")] + more, urls) && Inert([m, Chars("\n")], urls) && Inert([Chars("\n")] + more, urls)
  {
    InertSingle(m, urls);
    InertText("\n", urls);
    InertConcat([m], [Chars("\n")], urls);
    assert [m] + [Chars("\n")] == [m, Chars("\n")];
    InertConcat([m, Chars("\n")], more, urls);
    InertConcat([Chars("\n")], more, urls);
  }

  lemma SafeBlockAttr(n: string, value: Option<string>, urls: Urls)
    requires IsBlockAttr(n)
    ensures SafeAttrs([Attr(n, value)], urls)
  {
    assert n != "href" && n != "src";
    assert SafeAttr(Attr(n, value), urls);
  }

  lemma SafeDataAttr(n: string, value: string, urls: Urls)
    requires IsDataAttr(n)
    ensures SafeAttrs([Named(n, value)], urls)
  {
    assert n != "href" && n != "src";
    assert SafeAttr(Named(n, value), urls);
  }

  lemma SafeLinkAttr(n: string, value: string, urls: Urls)
    requires IsLinkAttr(n) && (IsAddress(n) ==> SafeAddress(n, value, urls))
    ensures SafeAttrs([Named(n, value)], urls)
  {
    assert SafeAttr(Named(n, value), urls);
  }

  lemma SafeIdAttr(anchor: Option<string>, urls: Urls)
    ensures SafeAttrs(IdAttr(anchor), urls)
  {
    if anchor.Some? {
      SafeBlockAttr("id", anchor, urls);
    }
  }

  // ---------------------------------------------------------------- documents

  lemma LinkIsSafe(dest: string, title: Option<string>, urls: Urls)
    ensures SafeAttrs(LinkAttrs(dest, title), urls)
  {
    SafeUrlIsSafe(dest);
    if SafeUrl(dest) == dest {
      SafeLinkAttr("href", dest, urls);
    } else {
      SafeLinkAttr("aria-disabled", "true", urls);
    }
    if title.Some? {
      SafeLinkAttr("title", title.value, urls);
    }
    SafeLinkAttr("rel", "noopener noreferrer", urls);
    SafeAttrsConcat(TargetAttr(dest), TitleAttr(title), urls);
    SafeAttrsConcat(TargetAttr(dest) + TitleAttr(title), RelAttr(dest), urls);
  }

  lemma ImageIsInert(dest: string, alt: string, urls: Urls)
    ensures InertOne(Void("img", ImageAttrs(dest, alt, urls)), urls)
  {
    var src := ResolveMedia(dest, urls);
    MediaIsSafe(dest, urls);
    SafeLinkAttr("src", src, urls);
    SafeLinkAttr("alt", alt, urls);
    SafeAttrsConcat([Named("src", src)], [Named("alt", alt)], urls);
    assert [Named("src", src)] + [Named("alt", alt)] == ImageAttrs(dest, alt, urls);
  }

  lemma WikiTargetIsSafe(w: WikiLink, urls: Urls)
    ensures SafeAttrs(WikiTarget(w, urls), urls)
  {
    WikiHrefIsSafe(w, urls);
    SafeLinkAttr("href", WikiHref(w, urls), urls);
    SafeDataAttr("data-target", w.target, urls);
    SafeAttrsConcat([Named("href", WikiHref(w, urls))], [Named("data-target", w.target)], urls);
    assert WikiTarget(w, urls) == [Named("href", WikiHref(w, urls))] + [Named("data-target", w.target)];
  }

  lemma WikiClassIsSafe(w: WikiLink, urls: Urls)
    ensures SafeAttrs(WikiClass(w), urls)
  {
    if w.embed {
      SafeBlockAttr("class", Some("mb-embed"), urls);
      SafeDataAttr("data-embed", "true", urls);
      SafeAttrsConcat([Named("class", "mb-embed")], [Named("data-embed", "true")], urls);
      assert WikiClass(w) == [Named("class", "mb-embed")] + [Named("data-embed", "true")];
    } else {
      SafeBlockAttr("class", Some("mb-wikilink"), urls);
    }
  }

  lemma AnchorIsSafe(kind: string, name: string, urls: Urls)
    ensures SafeAttrs([Named("data-anchor-kind", kind), Named("data-anchor", name)], urls)
  {
    SafeDataAttr("data-anchor-kind", kind, urls);
    SafeDataAttr("data-anchor", name, urls);
    SafeAttrsConcat([Named("data-anchor-kind", kind)], [Named("data-anchor", name)], urls);
    assert [Named("data-anchor-kind", kind)] + [Named("data-anchor", name)]
        == [Named("data-anchor-kind", kind), Named("data-anchor", name)];
  }

  lemma WikiAnchorIsSafe(anchor: Option<Anchor>, urls: Urls)
    ensures SafeAttrs(WikiAnchorAttrs(anchor), urls)
  {
    match anchor
    case None =>
    case Some(HeadingAnchor(h)) => AnchorIsSafe("heading", h, urls);
    case Some(BlockAnchor(id)) => AnchorIsSafe("block", id, urls);
  }

  lemma WikiIsInert(w: WikiLink, urls: Urls)
    ensures InertOne(WikiMarkup(w, urls), urls)
  {
    WikiClassIsSafe(w, urls);
    WikiTargetIsSafe(w, urls);
    WikiAnchorIsSafe(w.anchor, urls);
    SafeAttrsConcat(WikiClass(w), WikiTarget(w, urls), urls);
    SafeAttrsConcat(WikiClass(w) + WikiTarget(w, urls), WikiAnchorAttrs(w.anchor), urls);
    InertText(WikiText(w), urls);
    InertTag("a", WikiAttrs(w, urls), [Chars(WikiText(w))], urls);
  }

  lemma EmojiIsInert(name: string, urls: Urls)
    ensures InertOne(EmojiMarkup(name), urls)
  {
    SafeBlockAttr("class", Some("mb-emoji"), urls);
    SafeDataAttr("data-shortcode", name, urls);
    SafeAttrsConcat([Named("class", "mb-emoji")], [Named("data-shortcode", name)], urls);
    assert [Named("class", "mb-emoji")] + [Named("data-shortcode", name)]
        == [Named("class", "mb-emoji"), Named("data-shortcode", name)];
    InertTag("span", [Named("class", "mb-emoji"), Named("data-shortcode", name)], [Chars(":"), Chars(name), Chars(":")], urls);
  }

  lemma LabelIsInert(tag: string, class_: string, content: seq<Markup>, urls: Urls)
    requires IsRendered(tag) && Inert(content, urls)
    ensures InertOne(Markup.Tag(tag, [Named("class", class_)], content), urls)
  {
    SafeBlockAttr("class", Some(class_), urls);
    InertTag(tag, [Named("class", class_)], content, urls);
  }

  lemma {:induction false} InlinesAreInert(items: seq<Inline>, urls: Urls)
    ensures Inert(InlinesMarkup(items, urls), urls)
    decreases items
  {
    if items != [] {
      InlineIsInert(items[0], urls);
      InlinesAreInert(items[1..], urls);
    }
  }

  lemma {:induction false} InlineIsInert(item: Inline, urls: Urls)
    ensures InertOne(InlineMarkup(item, urls), urls)
    decreases item
  {
    match item
    case Mark(kind, children) =>
      InlinesAreInert(children, urls);
      InertTag(MarkTag(kind), [], InlinesMarkup(children, urls), urls);
    case Link(dest, title, content) =>
      InlinesAreInert(content, urls);
      LinkIsSafe(dest, title, urls);
      InertTag("a", LinkAttrs(dest, title), InlinesMarkup(content, urls), urls);
    case Image(dest, alt) => ImageIsInert(dest, alt, urls);
    case Wiki(w) => WikiIsInert(w, urls);
    case Emoji(name) => EmojiIsInert(name, urls);
    case _ => LeafIsInert(item, urls);
  }

  lemma LeafIsInert(item: Inline, urls: Urls)
    requires item.Text? || item.Code? || item.Math? || item.Tag? || item.FootnoteRef? || item.SoftBreak? || item.HardBreak?
    ensures InertOne(InlineMarkup(item, urls), urls)
  {
    match item
    case Code(c) => InertTag("code", [], [Chars(c)], urls);
    case Math(m) => LabelIsInert("span", "mb-math", [Chars(m)], urls);
    case Tag(t) => LabelIsInert("span", "mb-tag", [Chars("#"), Chars(t)], urls);
    case FootnoteRef(note) => LabelIsInert("sup", "mb-footnote-ref", [Chars(note)], urls);
    case _ =>
  }

  lemma CellIsSafe(alignments: seq<CellAlignment>, urls: Urls)
    ensures SafeAttrs(CellAttrs(alignments), urls)
  {
    if alignments != [] {
      SafeBlockAttr("style", Some("text-align:" + AlignText(alignments[0])), urls);
    }
  }

  lemma {:induction false} CellsAreInert(cells: seq<seq<Inline>>, alignments: seq<CellAlignment>, tag: string, urls: Urls)
    requires IsRendered(tag)
    ensures Inert(CellsMarkup(cells, alignments, tag, urls), urls)
    decreases cells
  {
    if cells != [] {
      var more := if alignments == [] then [] else alignments[1..];
      InlinesAreInert(cells[0], urls);
      CellIsSafe(alignments, urls);
      InertTag(tag, CellAttrs(alignments), InlinesMarkup(cells[0], urls), urls);
      InertSingle(CellMarkup(cells[0], alignments, tag, urls), urls);
      CellsAreInert(cells[1..], more, tag, urls);
      InertConcat([CellMarkup(cells[0], alignments, tag, urls)], CellsMarkup(cells[1..], more, tag, urls), urls);
    }
  }

  lemma RowIsInert(cells: seq<seq<Inline>>, alignments: seq<CellAlignment>, tag: string, urls: Urls)
    requires IsRendered(tag)
    ensures Inert(RowMarkup(cells, alignments, tag, urls), urls)
  {
    CellsAreInert(cells, alignments, tag, urls);
    InertTag("tr", [], CellsMarkup(cells, alignments, tag, urls), urls);
    InertLine(Markup.Tag("tr", [], CellsMarkup(cells, alignments, tag, urls)), [], urls);
  }

  lemma {:induction false} RowsAreInert(rows: seq<seq<seq<Inline>>>, alignments: seq<CellAlignment>, urls: Urls)
    ensures Inert(RowsMarkup(rows, alignments, urls), urls)
    decreases rows
  {
    if rows != [] {
      RowIsInert(rows[0], alignments, "td", urls);
      RowsAreInert(rows[1..], alignments, urls);
      InertConcat(RowMarkup(rows[0], alignments, "td", urls), RowsMarkup(rows[1..], alignments, urls), urls);
    }
  }

  lemma GroupIsInert(tag: string, content: seq<Markup>, urls: Urls)
    requires IsRendered(tag) && Inert(content, urls)
    ensures InertOne(Markup.Tag(tag, [], [Chars("\n")] + content), urls)
  {
    InertText("\n", urls);
    InertConcat([Chars("\n")], content, urls);
    InertTag(tag, [], [Chars("\n")] + content, urls);
  }

  lemma TableIsInert(t: Table, urls: Urls)
    ensures Inert(TableContent(t, urls), urls)
  {
    RowIsInert(t.head, t.alignments, "th", urls);
    GroupIsInert("thead", RowMarkup(t.head, t.alignments, "th", urls), urls);
    RowsAreInert(t.rows, t.alignments, urls);
    GroupIsInert("tbody", RowsMarkup(t.rows, t.alignments, urls), urls);
    var head, body := HeadMarkup(t, urls), TableBodyMarkup(t, urls);
    InertLine(body, [], urls);
    InertLine(head, [body, Chars("\n")], urls);
    InertLine(head, [head, Chars("\n")] + [body, Chars("\n")], urls);
    assert TableContent(t, urls) == [Chars("\n")] + ([head, Chars("\n")] + [body, Chars("\n")]);
  }

  /** Nothing a note contains becomes an element, an attribute name or an address that a browser runs. */
  lemma {:induction false} RunIsInert(blocks: seq<Block>, urls: Urls)
    ensures Inert(RunMarkup(blocks, urls), urls)
    decreases blocks, 0
  {
    if blocks != [] {
      BlockIsInert(blocks[0], urls);
      RunIsInert(blocks[1..], urls);
      InertLine(BlockMarkup(blocks[0], urls), RunMarkup(blocks[1..], urls), urls);
    }
  }

  lemma {:induction false} BlockIsInert(b: Block, urls: Urls)
    ensures InertOne(BlockMarkup(b, urls), urls)
    decreases b, 1
  {
    SafeIdAttr(b.anchor, urls);
    match b.kind
    case List(ordered, start, items) => ListIsInert(ordered, start, items, b.anchor, urls);
    case Blockquote(quoted) =>
      RunIsInert(quoted, urls);
      InertTag("blockquote", IdAttr(b.anchor), RunMarkup(quoted, urls), urls);
    case Callout(kind, fold, title, body) => CalloutIsInert(kind, fold, title, body, b.anchor, urls);
    case _ => LeafBlockIsInert(b, urls);
  }

  lemma LeafBlockIsInert(b: Block, urls: Urls)
    requires !b.kind.List? && !b.kind.Blockquote? && !b.kind.Callout?
    ensures InertOne(BlockMarkup(b, urls), urls)
  {
    SafeIdAttr(b.anchor, urls);
    match b.kind
    case Paragraph(content) =>
      InlinesAreInert(content, urls);
      InertTag("p", IdAttr(b.anchor), InlinesMarkup(content, urls), urls);
    case Heading(level, content) =>
      InlinesAreInert(content, urls);
      InertTag(HeadingTag(level), IdAttr(b.anchor), InlinesMarkup(content, urls), urls);
    case TableBlock(t) =>
      TableIsInert(t, urls);
      InertTag("table", IdAttr(b.anchor), TableContent(t, urls), urls);
    case CodeBlock(lang, code) => CodeIsInert(lang, code, b.anchor, urls);
    case MathBlock(m) => MathIsInert(m, b.anchor, urls);
    case Divider =>
  }

  lemma CodeIsInert(lang: Option<string>, code: string, anchor: Option<string>, urls: Urls)
    ensures InertOne(CodeMarkup(lang, code, anchor), urls)
  {
    SafeIdAttr(anchor, urls);
    if lang.Some? {
      SafeBlockAttr("class", Some("language-" + lang.value), urls);
    }
    InertText(code, urls);
    InertTag("code", CodeAttrs(lang), [Chars(code)], urls);
    InertSingle(Markup.Tag("code", CodeAttrs(lang), [Chars(code)]), urls);
    InertTag("pre", IdAttr(anchor), [Markup.Tag("code", CodeAttrs(lang), [Chars(code)])], urls);
  }

  lemma MathIsInert(m: string, anchor: Option<string>, urls: Urls)
    ensures InertOne(MathMarkup(m, anchor), urls)
  {
    SafeIdAttr(anchor, urls);
    SafeBlockAttr("class", Some("mb-math-block"), urls);
    SafeAttrsConcat([Named("class", "mb-math-block")], IdAttr(anchor), urls);
    InertText(m, urls);
    InertTag("div", MathAttrs(anchor), [Chars(m)], urls);
  }

  lemma {:induction false} CalloutIsInert(kind: string, fold: Fold, title: seq<Inline>, body: seq<Block>,
                                          anchor: Option<string>, urls: Urls)
    ensures InertOne(CalloutMarkup(kind, fold, title, body, anchor, urls), urls)
    decreases body, 1
  {
    RunIsInert(body, urls);
    if body != [] {
      InertText("\n", urls);
      InertConcat([Chars("\n")], RunMarkup(body, urls), urls);
      LabelIsInert("div", "mb-callout-body", [Chars("\n")] + RunMarkup(body, urls), urls);
      InertLine(BodyElement(body, urls), [], urls);
    }
    CalloutHeadIsInert(kind, fold, title, urls);
    CalloutIsSafe(kind, fold, anchor, urls);
    InertConcat(CalloutHead(kind, fold, title, urls), BodyMarkup(body, urls), urls);
    InertTag(CalloutTag(fold), CalloutAttrs(kind, fold, anchor, urls),
             CalloutHead(kind, fold, title, urls) + BodyMarkup(body, urls), urls);
  }

  lemma CalloutIsSafe(kind: string, fold: Fold, anchor: Option<string>, urls: Urls)
    ensures SafeAttrs(CalloutAttrs(kind, fold, anchor, urls), urls)
  {
    var class_ := "mb-callout mb-callout-" + urls.lower(kind);
    SafeBlockAttr("class", Some(class_), urls);
    SafeIdAttr(anchor, urls);
    FoldIsSafe(fold, urls);
    SafeAttrsConcat([Named("class", class_)], IdAttr(anchor), urls);
    SafeAttrsConcat([Named("class", class_)] + IdAttr(anchor), FoldAttrs(fold), urls);
  }

  lemma FoldIsSafe(fold: Fold, urls: Urls)
    ensures SafeAttrs(FoldAttrs(fold), urls)
  {
    SafeBlockAttr("data-fold", Some("collapsed"), urls);
    SafeBlockAttr("data-fold", Some("expanded"), urls);
    SafeBlockAttr("open", None, urls);
    SafeAttrsConcat([Named("data-fold", "expanded")], [Attr("open", None)], urls);
    assert [Named("data-fold", "expanded")] + [Attr("open", None)] == [Named("data-fold", "expanded"), Attr("open", None)];
  }

  lemma CalloutHeadIsInert(kind: string, fold: Fold, title: seq<Inline>, urls: Urls)
    ensures Inert(CalloutHead(kind, fold, title, urls), urls)
  {
    InlinesAreInert(title, urls);
    InertText(kind, urls);
    LabelIsInert(TitleTag(fold), "mb-callout-title", TitleMarkup(kind, title, urls), urls);
    var m := Markup.Tag(TitleTag(fold), [Named("class", "mb-callout-title")], TitleMarkup(kind, title, urls));
    InertLine(m, [], urls);
    InertLine(m, [m, Chars("\n")], urls);
    assert CalloutHead(kind, fold, title, urls) == [Chars("\n")] + [m, Chars("\n")];
  }

  lemma {:induction false} ListIsInert(ordered: bool, start: nat, items: seq<ListItem>, anchor: Option<string>, urls: Urls)
    ensures InertOne(Markup.Tag(ListTag(ordered), ListAttrs(ordered, start, items, anchor),
                                [Chars("\n")] + ItemsMarkup(items, urls)), urls)
    decreases items, 1
  {
    ItemsAreInert(items, urls);
    SafeIdAttr(anchor, urls);
    SafeBlockAttr("start", Some(Decimal(start)), urls);
    SafeBlockAttr("class", Some("mb-task-list"), urls);
    SafeAttrsConcat(IdAttr(anchor), NumberAttr(ordered, start), urls);
    SafeAttrsConcat(IdAttr(anchor) + NumberAttr(ordered, start), TaskListAttr(items), urls);
    InertText("\n", urls);
    InertConcat([Chars("\n")], ItemsMarkup(items, urls), urls);
    InertTag(ListTag(ordered), ListAttrs(ordered, start, items, anchor), [Chars("\n")] + ItemsMarkup(items, urls), urls);
  }

  lemma {:induction false} ItemsAreInert(items: seq<ListItem>, urls: Urls)
    ensures Inert(ItemsMarkup(items, urls), urls)
    decreases items, 0
  {
    if items != [] {
      ItemIsInert(items[0], urls);
      ItemsAreInert(items[1..], urls);
      InertLine(ItemMarkup(items[0], urls), ItemsMarkup(items[1..], urls), urls);
    }
  }

  lemma {:induction false} ItemIsInert(item: ListItem, urls: Urls)
    ensures InertOne(ItemMarkup(item, urls), urls)
    decreases item, 0
  {
    RunIsInert(item.content, urls);
    ItemPartsAreInert(item.task, urls);
    InertConcat(Checkbox(item.task), RunMarkup(item.content, urls), urls);
    InertTag("li", ItemAttrs(item.task), Checkbox(item.task) + RunMarkup(item.content, urls), urls);
  }

  lemma ItemPartsAreInert(task: Option<Task>, urls: Urls)
    ensures SafeAttrs(ItemAttrs(task), urls) && Inert(Checkbox(task), urls)
  {
    if task.Some? {
      SafeBlockAttr("class", Some("mb-task mb-task-" + StatusName(task.value.status)), urls);
      BoxIsSafe(task.value, urls);
    }
  }

  lemma BoxIsSafe(t: Task, urls: Urls)
    ensures SafeAttrs(BoxAttrs(t), urls)
  {
    SafeBlockAttr("type", Some("checkbox"), urls);
    SafeBlockAttr("disabled", None, urls);
    SafeBlockAttr("checked", None, urls);
    SafeAttrsConcat([Named("type", "checkbox")], [Attr("disabled", None)], urls);
    assert [Named("type", "checkbox")] + [Attr("disabled", None)] == [Named("type", "checkbox"), Attr("disabled", None)];
    SafeAttrsConcat([Named("type", "checkbox"), Attr("disabled", None)], [Attr("checked", None)], urls);
  }

  // ---------------------------------------------------------------- the main result

  /**
   * Reading a rendered document back gives exactly its elements, so the markup is balanced, every attribute keeps
   * its value, and the text of the tree is the text that was handed to the escaper.
   */
  lemma RenderReadsBack(blocks: seq<Block>, urls: Urls)
    ensures ParseHtml(Serialize(RunMarkup(blocks, urls))) == Element("root", [], NodesOf(RunMarkup(blocks, urls)))
    ensures NodesText(NodesOf(RunMarkup(blocks, urls))) == RawText(RunMarkup(blocks, urls))
  {
    RunIsInert(blocks, urls);
    InertIsReadable(RunMarkup(blocks, urls), urls);
    ParseUndoesSerialize(RunMarkup(blocks, urls));
    ContentKeepsText(RunMarkup(blocks, urls));
  }
}
