/** The page of a note, read back, has the structure of the note (crates/mb-core/src/html.rs). */
module HtmlReading {
  import opened Strings
  import opened Model
  import opened HtmlTree
  import opened HtmlParser
  import opened HtmlRoundTrip
  import opened HtmlMarkup
  import opened HtmlAddresses
  import opened HtmlDocuments
  import opened HtmlReader

  // ---------------------------------------------------------------- reading markup

  /** What the reader finds in a run that is parsed back. */
  function ReadRun(run: seq<Markup>): seq<View>
    decreases run
  {
    if run == [] then [] else ReadOne(run[0]) + ReadRun(run[1..])
  }

  function ReadOne(m: Markup): seq<View>
    decreases m
  {
    match m
    case Chars(_) => []
    case Tag(n, attrs, content) => [ViewOf(RoleOf(n, Pairs(attrs)), RawText(content), ReadRun(content))]
    case Void(n, attrs) => [ViewOf(RoleOf(n, Pairs(attrs)), "", [])]
  }

  lemma {:induction false} ReadNodesSnoc(nodes: seq<Node>, node: Node)
    ensures ReadNodes(nodes + [node]) == ReadNodes(nodes) + ReadNode(node)
  {
    if nodes == [] {
      assert [] + [node] == [node] && [node][1..] == [];
      assert ReadNode(node) + [] == ReadNode(node) == [] + ReadNode(node);
    } else {
      ReadNodesSnoc(nodes[1..], node);
      TailOfConcat(nodes, [node]);
      Associate(ReadNode(nodes[0]), ReadNodes(nodes[1..]), ReadNode(node));
    }
  }

  lemma FlushReads(done: seq<Node>, pending: string)
    ensures ReadNodes(Flush(done, pending)) == ReadNodes(done)
  {
    if pending != "" {
      ReadNodesSnoc(done, TextNode(pending));
      assert ReadNodes(done) + [] == ReadNodes(done);
    }
  }

  lemma {:induction false} AbsorbReads(done: seq<Node>, pending: string, run: seq<Markup>)
    ensures ReadNodes(Absorb(done, pending, run).0) == ReadNodes(done) + ReadRun(run)
    decreases run, 0
  {
    if run == [] {
      assert ReadNodes(done) + [] == ReadNodes(done);
    } else {
      var next := AbsorbOne(done, pending, run[0]);
      AbsorbOneReads(done, pending, run[0]);
      AbsorbReads(next.0, next.1, run[1..]);
      Associate(ReadNodes(done), ReadOne(run[0]), ReadRun(run[1..]));
    }
  }

  lemma {:induction false} AbsorbOneReads(done: seq<Node>, pending: string, m: Markup)
    ensures ReadNodes(AbsorbOne(done, pending, m).0) == ReadNodes(done) + ReadOne(m)
    decreases m, 0
  {
    FlushReads(done, pending);
    match m
    case Chars(t) => assert ReadNodes(done) + [] == ReadNodes(done);
    case Tag(n, attrs, content) =>
      NodesRead(content);
      ContentKeepsText(content);
      ReadNodesSnoc(Flush(done, pending), Element(n, Pairs(attrs), NodesOf(content)));
    case Void(n, attrs) => ReadNodesSnoc(Flush(done, pending), Element(n, Pairs(attrs), []));
  }

  /** Joining adjacent texts does not change what is found. */
  lemma {:induction false} NodesRead(run: seq<Markup>)
    ensures ReadNodes(NodesOf(run)) == ReadRun(run)
    decreases run, 1
  {
    var all := Absorb([], "", run);
    AbsorbReads([], "", run);
    FlushReads(all.0, all.1);
    assert [] + ReadRun(run) == ReadRun(run);
  }

  lemma ReadFirst(m: Markup, more: seq<Markup>)
    ensures ReadRun([m] + more) == ReadOne(m) + ReadRun(more) && RawText([m] + more) == RawTextOne(m) + RawText(more)
  {
    assert ([m] + more)[1..] == more;
  }

  lemma ReadSingle(m: Markup)
    ensures ReadRun([m]) == ReadOne(m) && RawText([m]) == RawTextOne(m)
  {
    ReadFirst(m, []);
    assert [m] + [] == [m];
    assert ReadOne(m) + [] == ReadOne(m) && RawTextOne(m) + "" == RawTextOne(m);
  }

  lemma {:induction false} ReadConcat(a: seq<Markup>, b: seq<Markup>)
    ensures ReadRun(a + b) == ReadRun(a) + ReadRun(b)
    decreases |a|
  {
    if a == [] {
      assert a + b == b;
    } else {
      TailOfConcat(a, b);
      ReadConcat(a[1..], b);
      Associate(ReadOne(a[0]), ReadRun(a[1..]), ReadRun(b));
    }
  }

  /** An element on a line of its own. */
  lemma ReadLine(m: Markup, more: seq<Markup>)
    ensures ReadRun([m, Chars("\n")] + more) == ReadOne(m) + ReadRun(more) && ReadRun([Chars("\n")] + more) == ReadRun(more)
    ensures ReadRun([m, Chars("\n")]) == ReadOne(m)
  {
    ReadFirst(Chars("\n"), more);
    ReadFirst(m, [Chars("\n")] + more);
    assert [m, Chars("\n")] + more == [m] + ([Chars("\n")] + more);
    ReadSingle(Chars("\n"));
    ReadFirst(m, [Chars("\n")]);
    assert [m] + [Chars("\n")] == [m, Chars("\n")] && ReadOne(m) + [] == ReadOne(m);
    assert [] + ReadRun(more) == ReadRun(more);
  }

  // ---------------------------------------------------------------- attributes

  lemma {:induction false} PairsConcat(a: seq<Attr>, b: seq<Attr>)
    ensures Pairs(a + b) == Pairs(a) + Pairs(b)
    decreases |a|
  {
    if a == [] {
      assert a + b == b;
    } else {
      TailOfConcat(a, b);
      PairsConcat(a[1..], b);
    }
  }

  lemma {:induction false} GetConcat(a: Pairing, b: Pairing, name: string)
    ensures Get(a + b, name) == OrElse(Get(a, name), Get(b, name))
    decreases |a|
  {
    if a == [] {
      assert a + b == b;
    } else {
      TailOfConcat(a, b);
      GetConcat(a[1..], b, name);
    }
  }

  /** What a reader gets of attributes that are written. */
  function Look(attrs: seq<Attr>, name: string): Option<string> {
    Get(Pairs(attrs), name)
  }

  lemma LookConcat(a: seq<Attr>, b: seq<Attr>, name: string)
    ensures Look(a + b, name) == OrElse(Look(a, name), Look(b, name))
  {
    PairsConcat(a, b);
    GetConcat(Pairs(a), Pairs(b), name);
  }

  lemma LookOne(n: string, value: Option<string>, name: string)
    ensures Look([Attr(n, value)], name) == if n == name then Some(if value.Some? then value.value else "") else None
  {
    var pair := (n, if value.Some? then value.value else "");
    assert [Attr(n, value)][1..] == [] && [pair][1..] == [];
    assert Pairs([Attr(n, value)]) == [pair] + Pairs([]) == [pair];
    assert Get([pair], name) == if n == name then Some(pair.1) else Get([], name);
  }

  lemma LookNone(name: string)
    ensures Look([], name) == None
  {
  }

  lemma LookId(anchor: Option<string>, name: string)
    ensures Look(IdAttr(anchor), name) == if name == "id" then anchor else None
  {
    if anchor.Some? {
      LookOne("id", anchor, name);
    }
  }

  // ---------------------------------------------------------------- inlines

  lemma MarkReads(k: MarkKind, content: seq<Markup>)
    ensures ReadOne(Markup.Tag(MarkTag(k), [], content)) == [View(Marked(k), RawText(content), ReadRun(content))]
  {
    assert MarkOf("em") == Some(Emphasis) && MarkOf("strong") == Some(Strong);
    assert MarkOf("del") == Some(Strikethrough) && MarkOf("mark") == Some(Highlight);
  }

  lemma BlockedIsOther(dest: string)
    ensures SafeUrl(dest) == dest <==> !Executes(dest)
  {
    if Executes(dest) {
      assert Stripped("#blocked")[0] == '#';
      assert AsciiLower(Stripped("#blocked"))[0] == '#';
    }
  }

  lemma LookTitle(title: Option<string>, name: string)
    ensures Look(TitleAttr(title), name) == if name == "title" then title else None
  {
    if title.Some? {
      LookOne("title", title, name);
    }
  }

  lemma LookTarget(dest: string, name: string)
    requires name != "aria-disabled"
    ensures Look(TargetAttr(dest), name) == if name == "href" && !Executes(dest) then Some(dest) else None
  {
    BlockedIsOther(dest);
    LookOne("href", Some(dest), name);
    LookOne("aria-disabled", Some("true"), name);
  }

  lemma LookRel(dest: string, name: string)
    ensures Look(RelAttr(dest), name) == if name == "rel" && IsExternal(dest) then Some("noopener noreferrer") else None
  {
    LookOne("rel", Some("noopener noreferrer"), name);
  }

  lemma LookLink(dest: string, title: Option<string>, name: string)
    requires name != "aria-disabled"
    ensures Look(LinkAttrs(dest, title), name)
         == OrElse(OrElse(if name == "href" && !Executes(dest) then Some(dest) else None, if name == "title" then title else None),
                   if name == "rel" && IsExternal(dest) then Some("noopener noreferrer") else None)
  {
    LookTarget(dest, name);
    LookTitle(title, name);
    LookRel(dest, name);
    LookConcat(TargetAttr(dest), TitleAttr(title), name);
    LookConcat(TargetAttr(dest) + TitleAttr(title), RelAttr(dest), name);
  }

  lemma LinkReads(dest: string, title: Option<string>, content: seq<Markup>)
    ensures ReadOne(Markup.Tag("a", LinkAttrs(dest, title), content))
         == [View(LinkTo(if Executes(dest) then None else Some(dest), title, IsExternal(dest)), RawText(content), ReadRun(content))]
  {
    LookLink(dest, title, "href");
    LookLink(dest, title, "title");
    LookLink(dest, title, "rel");
    LookLink(dest, title, "data-target");
    IsLine("a", Pairs(LinkAttrs(dest, title)));
  }

  /** An element that is no mark and no heading. */
  lemma IsPlainTag(tag: string)
    requires tag in {"code", "span", "a", "img", "br", "sup"} || tag in {"ul", "ol", "li", "input"}
          || tag in {"p", "blockquote", "pre", "hr", "summary", "details", "div"}
          || tag in {"table", "thead", "tbody", "tr", "th", "td"}
    ensures MarkOf(tag) == None && LevelOf(tag) == 0
  {
    assert tag != "em" && tag != "strong" && tag != "del" && tag != "mark";
    assert tag != "h1" && tag != "h2" && tag != "h3" && tag != "h4" && tag != "h5" && tag != "h6";
  }

  /** The elements of a line are none of the others. */
  lemma IsLine(tag: string, attrs: Pairing)
    requires tag in {"code", "span", "a", "img", "br", "sup"}
    ensures RoleOf(tag, attrs) == LineRole(tag, attrs)
  {
    IsPlainTag(tag);
    assert tag !in {"ul", "ol", "li", "input"};
    assert tag !in {"p", "blockquote", "pre", "hr", "summary", "details", "div"};
    assert tag !in {"table", "thead", "tbody", "tr", "th", "td"};
  }

  lemma IsListTag(tag: string, attrs: Pairing)
    requires tag in {"ul", "ol", "li", "input"}
    ensures RoleOf(tag, attrs) == ListRole(tag, attrs)
  {
    IsPlainTag(tag);
  }

  lemma IsBlockTag(tag: string, attrs: Pairing)
    requires tag in {"p", "blockquote", "pre", "hr", "summary", "details", "div"}
    ensures RoleOf(tag, attrs) == BlockRole(tag, attrs)
  {
    IsPlainTag(tag);
    assert tag !in {"ul", "ol", "li", "input"};
  }

  lemma IsTableTag(tag: string, attrs: Pairing)
    requires tag in {"table", "thead", "tbody", "tr", "th", "td"}
    ensures RoleOf(tag, attrs) == TableRole(tag, attrs)
  {
    IsPlainTag(tag);
    assert tag !in {"ul", "ol", "li", "input"};
    assert tag !in {"p", "blockquote", "pre", "hr", "summary", "details", "div"};
  }

  lemma ImageReads(dest: string, alt: string, urls: Urls)
    ensures ReadOne(Void("img", ImageAttrs(dest, alt, urls))) == [View(Picture(ResolveMedia(dest, urls), alt), "", [])]
  {
    var src, text := Named("src", ResolveMedia(dest, urls)), Named("alt", alt);
    assert ImageAttrs(dest, alt, urls) == [src] + [text];
    LookConcat([src], [text], "src");
    LookConcat([src], [text], "alt");
    LookOne("src", src.value, "src");
    LookOne("src", src.value, "alt");
    LookOne("alt", text.value, "alt");
    IsLine("img", Pairs(ImageAttrs(dest, alt, urls)));
  }

  lemma LookTwo(a: Attr, b: Attr, name: string)
    ensures Look([a, b], name) == OrElse(Look([a], name), Look([b], name))
  {
    LookConcat([a], [b], name);
    assert [a] + [b] == [a, b];
  }

  lemma LookWikiClass(w: WikiLink, name: string)
    ensures Look(WikiClass(w), name)
         == if name == "class" then Some(if w.embed then "mb-embed" else "mb-wikilink")
            else if name == "data-embed" && w.embed then Some("true") else None
  {
    LookOne("class", Some("mb-embed"), name);
    LookOne("class", Some("mb-wikilink"), name);
    LookOne("data-embed", Some("true"), name);
    LookTwo(Named("class", "mb-embed"), Named("data-embed", "true"), name);
  }

  lemma LookWikiTarget(w: WikiLink, urls: Urls, name: string)
    ensures Look(WikiTarget(w, urls), name)
         == if name == "href" then Some(WikiHref(w, urls)) else if name == "data-target" then Some(w.target) else None
  {
    LookOne("href", Some(WikiHref(w, urls)), name);
    LookOne("data-target", Some(w.target), name);
    LookTwo(Named("href", WikiHref(w, urls)), Named("data-target", w.target), name);
  }

  lemma LookWikiAnchor(anchor: Option<Anchor>, name: string)
    ensures Look(WikiAnchorAttrs(anchor), name)
         == if anchor.None? then None
            else if name == "data-anchor-kind" then Some(if anchor.value.HeadingAnchor? then "heading" else "block")
            else if name == "data-anchor" then Some(AnchorName(anchor.value)) else None
  {
    if anchor.Some? {
      var kind := if anchor.value.HeadingAnchor? then "heading" else "block";
      LookOne("data-anchor-kind", Some(kind), name);
      LookOne("data-anchor", Some(AnchorName(anchor.value)), name);
      LookTwo(Named("data-anchor-kind", kind), Named("data-anchor", AnchorName(anchor.value)), name);
    }
  }

  lemma LookWiki(w: WikiLink, urls: Urls, name: string)
    ensures Look(WikiAttrs(w, urls), name)
         == OrElse(OrElse(Look(WikiClass(w), name), Look(WikiTarget(w, urls), name)), Look(WikiAnchorAttrs(w.anchor), name))
  {
    LookConcat(WikiClass(w), WikiTarget(w, urls), name);
    LookConcat(WikiClass(w) + WikiTarget(w, urls), WikiAnchorAttrs(w.anchor), name);
  }

  lemma WikiGets(w: WikiLink, urls: Urls)
    ensures var attrs := WikiAttrs(w, urls);
      && Look(attrs, "data-target") == Some(w.target) && Look(attrs, "href") == Some(WikiHref(w, urls))
      && (Look(attrs, "data-embed") == Some("true") <==> w.embed)
  {
    LookWiki(w, urls, "data-target");
    LookWikiClass(w, "data-target");
    LookWikiTarget(w, urls, "data-target");
    LookWiki(w, urls, "href");
    LookWikiClass(w, "href");
    LookWikiTarget(w, urls, "href");
    LookWiki(w, urls, "data-embed");
    LookWikiClass(w, "data-embed");
    LookWikiTarget(w, urls, "data-embed");
    LookWikiAnchor(w.anchor, "data-embed");
  }

  lemma WikiAnchorGets(w: WikiLink, urls: Urls)
    ensures AnchorOf(Pairs(WikiAttrs(w, urls))) == w.anchor
  {
    LookWiki(w, urls, "data-anchor-kind");
    LookWikiClass(w, "data-anchor-kind");
    LookWikiTarget(w, urls, "data-anchor-kind");
    LookWikiAnchor(w.anchor, "data-anchor-kind");
    LookWiki(w, urls, "data-anchor");
    LookWikiClass(w, "data-anchor");
    LookWikiTarget(w, urls, "data-anchor");
    LookWikiAnchor(w.anchor, "data-anchor");
  }

  lemma WikiReads(w: WikiLink, urls: Urls)
    ensures ReadOne(WikiMarkup(w, urls))
         == if Routed(w, urls) then [View(WikiTo(w.target, w.anchor, w.embed, WikiHref(w, urls)), ItemText(Wiki(w)), [])] else []
    ensures RawTextOne(WikiMarkup(w, urls)) == ItemText(Wiki(w))
  {
    ReadSingle(Chars(WikiText(w)));
    if Routed(w, urls) {
      WikiGets(w, urls);
      WikiAnchorGets(w, urls);
      IsLine("a", Pairs(WikiAttrs(w, urls)));
    }
  }

  lemma SpanReads(class_: string, more: seq<Attr>, content: seq<Markup>)
    ensures var attrs := [Named("class", class_)] + more;
      ReadOne(Markup.Tag("span", attrs, content)) == [ViewOf(SpanRole(Pairs(attrs)), RawText(content), ReadRun(content))]
      && Look(attrs, "class") == Some(class_)
      && Look(attrs, "data-shortcode") == Look(more, "data-shortcode")
  {
    var attrs := [Named("class", class_)] + more;
    LookConcat([Named("class", class_)], more, "class");
    LookConcat([Named("class", class_)], more, "data-shortcode");
    LookOne("class", Some(class_), "class");
    LookOne("class", Some(class_), "data-shortcode");
    IsLine("span", Pairs(attrs));
  }

  lemma EmojiReads(e: string)
    ensures ReadOne(EmojiMarkup(e)) == [View(EmojiName(e), ":" + e + ":", [])] && RawTextOne(EmojiMarkup(e)) == ":" + e + ":"
  {
    var content := [Chars(":"), Chars(e), Chars(":")];
    assert content == [Chars(":")] + ([Chars(e)] + [Chars(":")]);
    ReadFirst(Chars(":"), [Chars(e)] + [Chars(":")]);
    ReadFirst(Chars(e), [Chars(":")]);
    ReadSingle(Chars(":"));
    Associate(":", e, ":");
    SpanReads("mb-emoji", [Named("data-shortcode", e)], content);
    LookOne("data-shortcode", Some(e), "data-shortcode");
    assert [Named("class", "mb-emoji")] + [Named("data-shortcode", e)] == [Named("class", "mb-emoji"), Named("data-shortcode", e)];
  }

  lemma TagReads(t: string)
    ensures var m := Markup.Tag("span", [Named("class", "mb-tag")], [Chars("#"), Chars(t)]);
      ReadOne(m) == [View(TagName, "#" + t, [])] && RawTextOne(m) == "#" + t
  {
    assert [Chars("#"), Chars(t)] == [Chars("#")] + [Chars(t)];
    ReadFirst(Chars("#"), [Chars(t)]);
    ReadSingle(Chars(t));
    SpanReads("mb-tag", [], [Chars("#"), Chars(t)]);
    assert [Named("class", "mb-tag")] + [] == [Named("class", "mb-tag")];
  }

  lemma MathReads(m: string)
    ensures ReadOne(Markup.Tag("span", [Named("class", "mb-math")], [Chars(m)])) == [View(MathText, m, [])]
  {
    ReadSingle(Chars(m));
    SpanReads("mb-math", [], [Chars(m)]);
    assert [Named("class", "mb-math")] + [] == [Named("class", "mb-math")];
  }

  lemma CodeReads(c: string)
    ensures ReadOne(Markup.Tag("code", [], [Chars(c)])) == [View(CodeText(None), c, [])]
  {
    ReadSingle(Chars(c));
    LookNone("class");
    IsLine("code", Pairs([]));
  }

  lemma FootnoteReads(note: string)
    ensures ReadOne(Markup.Tag("sup", [Named("class", "mb-footnote-ref")], [Chars(note)])) == [View(FootnoteMark, note, [])]
  {
    ReadSingle(Chars(note));
    IsLine("sup", Pairs([Named("class", "mb-footnote-ref")]));
  }

  lemma BreakReads()
    ensures ReadOne(Void("br", [])) == [View(LineBreak, "", [])]
  {
    IsLine("br", Pairs([]));
  }

  /** The reader finds the elements of a run, and its text. */
  lemma {:induction false} LineReads(items: seq<Inline>, urls: Urls)
    ensures ReadRun(InlinesMarkup(items, urls)) == LineViews(items, urls)
    ensures RawText(InlinesMarkup(items, urls)) == RunText(items)
    decreases items
  {
    if items != [] {
      ItemReads(items[0], urls);
      LineReads(items[1..], urls);
      ReadFirst(InlineMarkup(items[0], urls), InlinesMarkup(items[1..], urls));
    }
  }

  lemma {:induction false} ItemReads(item: Inline, urls: Urls)
    ensures ReadOne(InlineMarkup(item, urls)) == ItemViews(item, urls)
    ensures RawTextOne(InlineMarkup(item, urls)) == ItemText(item)
    decreases item
  {
    match item
    case Mark(k, c) =>
      LineReads(c, urls);
      MarkReads(k, InlinesMarkup(c, urls));
    case Link(dest, title, c) =>
      LineReads(c, urls);
      LinkReads(dest, title, InlinesMarkup(c, urls));
    case Image(dest, alt) => ImageReads(dest, alt, urls);
    case Wiki(w) => WikiReads(w, urls);
    case Math(m) => MathReads(m); ReadSingle(Chars(m));
    case Code(c) => CodeReads(c); ReadSingle(Chars(c));
    case FootnoteRef(note) => FootnoteReads(note); ReadSingle(Chars(note));
    case HardBreak => BreakReads();
    case Tag(t) => TagReads(t);
    case Emoji(e) => EmojiReads(e);
    case _ =>
  }

  // ---------------------------------------------------------------- lists

  lemma {:induction false} NumberOfDecimal(n: nat)
    ensures NumberOf(Decimal(n)) == n
  {
    var digits := Decimal(n);
    assert Last(digits) == (n % 10) as char + '0' && '0' <= Last(digits) <= '9' && (Last(digits) - '0') as nat == n % 10;
    if n < 10 {
      assert Init(digits) == "";
    } else {
      NumberOfDecimal(n / 10);
      assert Init(digits) == Decimal(n / 10);
    }
  }

  lemma LookNumber(ordered: bool, start: nat, name: string)
    ensures Look(NumberAttr(ordered, start), name) == if name == "start" && ordered && start != 1 then Some(Decimal(start)) else None
  {
    LookOne("start", Some(Decimal(start)), name);
  }

  lemma LookTasks(items: seq<ListItem>, name: string)
    ensures Look(TaskListAttr(items), name) == if name == "class" && HasTask(items) then Some("mb-task-list") else None
  {
    LookOne("class", Some("mb-task-list"), name);
  }

  lemma LookList(ordered: bool, start: nat, items: seq<ListItem>, anchor: Option<string>, name: string)
    ensures Look(ListAttrs(ordered, start, items, anchor), name)
         == OrElse(OrElse(if name == "id" then anchor else None,
                          if name == "start" && ordered && start != 1 then Some(Decimal(start)) else None),
                   if name == "class" && HasTask(items) then Some("mb-task-list") else None)
  {
    LookId(anchor, name);
    LookNumber(ordered, start, name);
    LookTasks(items, name);
    LookConcat(IdAttr(anchor), NumberAttr(ordered, start), name);
    LookConcat(IdAttr(anchor) + NumberAttr(ordered, start), TaskListAttr(items), name);
  }

  lemma ListElementReads(ordered: bool, start: nat, items: seq<ListItem>, anchor: Option<string>, content: seq<Markup>)
    ensures ReadOne(Markup.Tag(ListTag(ordered), ListAttrs(ordered, start, items, anchor), content))
         == [View(Listing(ordered, if ordered then start else 1, exists item :: item in items && item.task.Some?, anchor), "",
                  ReadRun(content))]
  {
    LookList(ordered, start, items, anchor, "id");
    LookList(ordered, start, items, anchor, "start");
    LookList(ordered, start, items, anchor, "class");
    NumberOfDecimal(start);
    IsListTag(ListTag(ordered), Pairs(ListAttrs(ordered, start, items, anchor)));
  }

  lemma LookItem(task: Option<Task>)
    ensures StatusOf(Look(ItemAttrs(task), "class")) == if task.None? then None else Some(task.value.status)
  {
    if task.Some? {
      var class_ := "mb-task mb-task-" + StatusName(task.value.status);
      LookOne("class", Some(class_), "class");
      assert "mb-task mb-task-" + "todo" == "mb-task mb-task-todo";
      assert "mb-task mb-task-" + "done" == "mb-task mb-task-done";
      assert "mb-task mb-task-" + "cancelled" == "mb-task mb-task-cancelled";
    } else {
      LookNone("class");
    }
  }

  lemma LookBox(t: Task, name: string)
    ensures Look(BoxAttrs(t), name)
         == if name == "type" then Some("checkbox") else if name == "disabled" then Some("")
            else if name == "checked" && t.status.Done? then Some("") else None
  {
    var front, checked := [Named("type", "checkbox"), Attr("disabled", None)], if t.status.Done? then [Attr("checked", None)] else [];
    LookTwo(Named("type", "checkbox"), Attr("disabled", None), name);
    LookOne("type", Some("checkbox"), name);
    LookOne("disabled", None, name);
    LookOne("checked", None, name);
    LookNone(name);
    LookConcat(front, checked, name);
  }

  lemma BoxReads(t: Task)
    ensures ReadOne(Void("input", BoxAttrs(t))) == [View(Box(t.status.Done?, false), "", [])]
  {
    LookBox(t, "type");
    LookBox(t, "disabled");
    LookBox(t, "checked");
    IsListTag("input", Pairs(BoxAttrs(t)));
  }

  lemma ItemElementReads(task: Option<Task>, more: seq<Markup>)
    ensures ReadOne(Markup.Tag("li", ItemAttrs(task), Checkbox(task) + more))
         == [View(Entry(if task.None? then None else Some(task.value.status)), "",
                  (if task.None? then [] else [View(Box(task.value.status.Done?, false), "", [])]) + ReadRun(more))]
  {
    LookItem(task);
    IsListTag("li", Pairs(ItemAttrs(task)));
    ReadConcat(Checkbox(task), more);
    if task.Some? {
      BoxReads(task.value);
      var box := Void("input", BoxAttrs(task.value));
      assert Checkbox(task) == [box] + [Chars(" ")];
      ReadFirst(box, [Chars(" ")]);
      ReadSingle(Chars(" "));
      assert ReadOne(box) + [] == ReadOne(box);
    } else {
      assert [] + ReadRun(more) == ReadRun(more);
    }
  }

  // ---------------------------------------------------------------- tables

  lemma CellReads(heading: bool, alignments: seq<CellAlignment>, content: seq<Markup>)
    ensures ReadOne(Markup.Tag(if heading then "th" else "td", CellAttrs(alignments), content))
         == [View(GridCell(heading, AlignmentAt(alignments, 0)), RawText(content), ReadRun(content))]
  {
    var tag := if heading then "th" else "td";
    LookCell(alignments);
    IsTableTag(tag, Pairs(CellAttrs(alignments)));
  }

  lemma LookCell(alignments: seq<CellAlignment>)
    ensures AlignmentOf(Look(CellAttrs(alignments), "style")) == AlignmentAt(alignments, 0)
  {
    if CellAttrs(alignments) == [] {
      LookNone("style");
    } else {
      LookOne("style", Some("text-align:" + AlignText(alignments[0])), "style");
      assert "text-align:" + "left" == "text-align:left";
      assert "text-align:" + "center" == "text-align:center";
      assert "text-align:" + "right" == "text-align:right";
    }
  }

  lemma {:induction false} CellsRead(cells: seq<seq<Inline>>, alignments: seq<CellAlignment>, i: nat, heading: bool, urls: Urls)
    requires i <= |cells|
    ensures ReadRun(CellsMarkup(cells[i..], if i <= |alignments| then alignments[i..] else [], if heading then "th" else "td", urls))
         == CellViews(cells, alignments, i, heading, urls)
    decreases |cells| - i
  {
    var tag, left := if heading then "th" else "td", if i <= |alignments| then alignments[i..] else [];
    if i < |cells| {
      LineReads(cells[i], urls);
      CellReads(heading, left, InlinesMarkup(cells[i], urls));
      CellsRead(cells, alignments, i + 1, heading, urls);
      assert cells[i..][1..] == cells[i + 1..] && cells[i..][0] == cells[i];
      assert (if left == [] then [] else left[1..]) == (if i + 1 <= |alignments| then alignments[i + 1..] else []);
      ReadFirst(CellMarkup(cells[i], left, tag, urls), CellsMarkup(cells[i + 1..], if left == [] then [] else left[1..], tag, urls));
    }
  }

  lemma RowReads(cells: seq<seq<Inline>>, alignments: seq<CellAlignment>, heading: bool, urls: Urls)
    ensures ReadRun(RowMarkup(cells, alignments, if heading then "th" else "td", urls)) == [RowView(cells, alignments, heading, urls)]
  {
    var tag := if heading then "th" else "td";
    CellsRead(cells, alignments, 0, heading, urls);
    assert cells[0..] == cells && alignments[0..] == alignments;
    IsTableTag("tr", Pairs([]));
    ReadLine(Markup.Tag("tr", [], CellsMarkup(cells, alignments, tag, urls)), []);
  }

  lemma {:induction false} RowsRead(rows: seq<seq<seq<Inline>>>, alignments: seq<CellAlignment>, urls: Urls)
    ensures ReadRun(RowsMarkup(rows, alignments, urls)) == RowViews(rows, alignments, urls)
  {
    if rows != [] {
      RowReads(rows[0], alignments, false, urls);
      RowsRead(rows[1..], alignments, urls);
      ReadConcat(RowMarkup(rows[0], alignments, "td", urls), RowsMarkup(rows[1..], alignments, urls));
    }
  }

  lemma GroupReads(tag: string, role: Role, content: seq<Markup>)
    requires (tag == "thead" && role == GridHead) || (tag == "tbody" && role == GridBody)
    ensures ReadOne(Markup.Tag(tag, [], [Chars("\n")] + content)) == [View(role, "", ReadRun(content))]
  {
    IsTableTag(tag, Pairs([]));
    ReadLine(Chars(""), content);
  }

  lemma TwoLinesRead(head: Markup, body: Markup)
    ensures ReadRun([Chars("\n"), head, Chars("\n"), body, Chars("\n")]) == ReadOne(head) + ReadOne(body)
  {
    var more := [body, Chars("\n")];
    assert [Chars("\n"), head, Chars("\n"), body, Chars("\n")] == [Chars("\n")] + ([head, Chars("\n")] + more);
    ReadLine(Chars(""), [head, Chars("\n")] + more);
    ReadLine(head, more);
    ReadLine(body, []);
  }

  lemma GridReads(anchor: Option<string>, content: seq<Markup>)
    ensures ReadOne(Markup.Tag("table", IdAttr(anchor), content)) == [View(Grid(anchor), "", ReadRun(content))]
  {
    LookId(anchor, "id");
    IsTableTag("table", Pairs(IdAttr(anchor)));
  }

  lemma HeadReads(t: Table, urls: Urls)
    ensures ReadOne(HeadMarkup(t, urls)) == [HeadView(t, urls)]
  {
    RowReads(t.head, t.alignments, true, urls);
    GroupReads("thead", GridHead, RowMarkup(t.head, t.alignments, "th", urls));
  }

  lemma TableBodyReads(t: Table, urls: Urls)
    ensures ReadOne(TableBodyMarkup(t, urls)) == [TableBodyView(t, urls)]
  {
    RowsRead(t.rows, t.alignments, urls);
    GroupReads("tbody", GridBody, RowsMarkup(t.rows, t.alignments, urls));
  }

  lemma TableReads(t: Table, anchor: Option<string>, urls: Urls)
    ensures ReadOne(Markup.Tag("table", IdAttr(anchor), TableContent(t, urls)))
         == [View(Grid(anchor), "", [HeadView(t, urls), TableBodyView(t, urls)])]
  {
    HeadReads(t, urls);
    TableBodyReads(t, urls);
    TwoLinesRead(HeadMarkup(t, urls), TableBodyMarkup(t, urls));
    GridReads(anchor, TableContent(t, urls));
    assert [HeadView(t, urls)] + [TableBodyView(t, urls)] == [HeadView(t, urls), TableBodyView(t, urls)];
  }

  // ---------------------------------------------------------------- blocks

  lemma BlockElementReads(tag: string, anchor: Option<string>, content: seq<Markup>)
    requires tag == "p" || tag == "blockquote" || tag == "pre"
    ensures ReadOne(Markup.Tag(tag, IdAttr(anchor), content))
         == [if tag == "p" then View(Para(anchor), RawText(content), ReadRun(content))
             else if tag == "pre" then View(Preformatted(anchor), "", ReadRun(content))
             else View(Quote(anchor), "", ReadRun(content))]
  {
    LookId(anchor, "id");
    IsBlockTag(tag, Pairs(IdAttr(anchor)));
  }

  lemma HeadingReads(level: nat, anchor: Option<string>, content: seq<Markup>)
    ensures ReadOne(Markup.Tag(HeadingTag(level), IdAttr(anchor), content))
         == [View(Head(HeadLevel(level), anchor), RawText(content), ReadRun(content))]
  {
    LookId(anchor, "id");
    HeadingIs(HeadLevel(level));
    assert HeadingTag(level) == HeadingTag(HeadLevel(level));
  }

  lemma HeadingIs(level: nat)
    requires 1 <= level <= 6
    ensures LevelOf(HeadingTag(level)) == level && MarkOf(HeadingTag(level)) == None
  {
    var tag := HeadingTag(level);
    assert tag[0] == 'h' && |tag| == 2;
  }

  lemma CodeBlockReads(lang: Option<string>, code: string, anchor: Option<string>)
    ensures ReadOne(CodeMarkup(lang, code, anchor))
         == [View(Preformatted(anchor), "", [View(CodeText(if lang == Some("") then None else lang), code, [])])]
  {
    var inner := Markup.Tag("code", CodeAttrs(lang), [Chars(code)]);
    ReadSingle(Chars(code));
    LookLanguage(lang);
    IsLine("code", Pairs(CodeAttrs(lang)));
    ReadSingle(inner);
    BlockElementReads("pre", anchor, [inner]);
  }

  lemma LookLanguage(lang: Option<string>)
    ensures LanguageOf(Look(CodeAttrs(lang), "class")) == if lang == Some("") then None else lang
  {
    if CodeAttrs(lang) == [] {
      LookNone("class");
    } else {
      var class_ := "language-" + lang.value;
      LookOne("class", Some(class_), "class");
      assert class_[9..] == lang.value;
    }
  }

  lemma RuleReads(anchor: Option<string>)
    ensures ReadOne(Void("hr", IdAttr(anchor))) == [View(Rule(anchor), "", [])]
  {
    LookId(anchor, "id");
    IsBlockTag("hr", Pairs(IdAttr(anchor)));
  }

  lemma DivReads(class_: string, more: seq<Attr>, content: seq<Markup>)
    ensures var attrs := [Named("class", class_)] + more;
      && ReadOne(Markup.Tag("div", attrs, content)) == [ViewOf(DivRole(Pairs(attrs)), RawText(content), ReadRun(content))]
      && Look(attrs, "class") == Some(class_) && Look(attrs, "id") == Look(more, "id")
  {
    var attrs := [Named("class", class_)] + more;
    LookConcat([Named("class", class_)], more, "class");
    LookConcat([Named("class", class_)], more, "id");
    LookOne("class", Some(class_), "class");
    LookOne("class", Some(class_), "id");
    IsBlockTag("div", Pairs(attrs));
  }

  lemma MathBlockReads(m: string, anchor: Option<string>)
    ensures ReadOne(MathMarkup(m, anchor)) == [View(MathDisplay(anchor), m, [])]
  {
    ReadSingle(Chars(m));
    LookId(anchor, "id");
    DivReads("mb-math-block", IdAttr(anchor), [Chars(m)]);
  }

  lemma LeafReads(b: Block, urls: Urls)
    requires !b.kind.List? && !b.kind.Blockquote? && !b.kind.Callout?
    ensures ReadOne(BlockMarkup(b, urls)) == [LeafView(b, urls)]
  {
    match b.kind
    case Paragraph(c) =>
      LineReads(c, urls);
      BlockElementReads("p", b.anchor, InlinesMarkup(c, urls));
    case Heading(level, c) =>
      LineReads(c, urls);
      HeadingReads(level, b.anchor, InlinesMarkup(c, urls));
    case CodeBlock(lang, code) => CodeBlockReads(lang, code, b.anchor);
    case Divider => RuleReads(b.anchor);
    case TableBlock(t) => TableReads(t, b.anchor, urls);
    case MathBlock(m) => MathBlockReads(m, b.anchor);
  }

  // ---------------------------------------------------------------- callouts

  lemma LookFold(fold: Fold, name: string)
    ensures Look(FoldAttrs(fold), name)
         == if fold == Collapsed && name == "data-fold" then Some("collapsed")
            else if fold == Expanded && name == "data-fold" then Some("expanded")
            else if fold == Expanded && name == "open" then Some("") else None
  {
    LookNone(name);
    LookOne("data-fold", Some("collapsed"), name);
    LookOne("data-fold", Some("expanded"), name);
    LookOne("open", None, name);
    LookTwo(Named("data-fold", "expanded"), Attr("open", None), name);
  }

  lemma LookCallout(kind: string, fold: Fold, anchor: Option<string>, urls: Urls, name: string)
    ensures Look(CalloutAttrs(kind, fold, anchor, urls), name)
         == OrElse(OrElse(if name == "class" then Some(PANEL + urls.lower(kind)) else None, if name == "id" then anchor else None),
                   Look(FoldAttrs(fold), name))
  {
    var first := Named("class", PANEL + urls.lower(kind));
    LookOne("class", first.value, name);
    LookId(anchor, name);
    LookConcat([first], IdAttr(anchor), name);
    LookConcat([first] + IdAttr(anchor), FoldAttrs(fold), name);
  }

  lemma PanelIsNone(kind: string)
    ensures PANEL + kind != "mb-math-block" && PANEL + kind != "mb-callout-title" && PANEL + kind != "mb-callout-body"
    ensures PANEL <= PANEL + kind && (PANEL + kind)[|PANEL|..] == kind
  {
    assert (PANEL + kind)[10] == ' ' && "mb-math-block"[10] == 'o';
    assert "mb-callout-title"[10] == '-' && "mb-callout-body"[10] == '-';
  }

  lemma CalloutElementReads(kind: string, fold: Fold, anchor: Option<string>, urls: Urls, content: seq<Markup>)
    ensures ReadOne(Markup.Tag(CalloutTag(fold), CalloutAttrs(kind, fold, anchor, urls), content))
         == [View(Panel(urls.lower(kind), fold, anchor), "", ReadRun(content))]
  {
    LookCallout(kind, fold, anchor, urls, "class");
    LookCallout(kind, fold, anchor, urls, "id");
    LookCallout(kind, fold, anchor, urls, "open");
    LookFold(fold, "class");
    LookFold(fold, "id");
    LookFold(fold, "open");
    PanelIsNone(urls.lower(kind));
    IsBlockTag(CalloutTag(fold), Pairs(CalloutAttrs(kind, fold, anchor, urls)));
  }

  lemma TitleElementReads(fold: Fold, content: seq<Markup>)
    ensures ReadOne(Markup.Tag(TitleTag(fold), [Named("class", "mb-callout-title")], content))
         == [View(PanelTitle, RawText(content), ReadRun(content))]
  {
    LookOne("class", Some("mb-callout-title"), "class");
    IsBlockTag(TitleTag(fold), Pairs([Named("class", "mb-callout-title")]));
  }

  lemma TitleReads(kind: string, fold: Fold, title: seq<Inline>, urls: Urls)
    ensures ReadRun(CalloutHead(kind, fold, title, urls)) == TitleViews(kind, title, urls)
  {
    var content := TitleMarkup(kind, title, urls);
    var m := Markup.Tag(TitleTag(fold), [Named("class", "mb-callout-title")], content);
    LineReads(title, urls);
    ReadSingle(Chars(kind));
    TitleElementReads(fold, content);
    assert CalloutHead(kind, fold, title, urls) == [Chars("\n")] + [m, Chars("\n")];
    ReadLine(m, [m, Chars("\n")]);
  }

  lemma BodyElementReads(content: seq<Markup>)
    ensures ReadRun([Markup.Tag("div", [Named("class", "mb-callout-body")], [Chars("\n")] + content), Chars("\n")])
         == [View(PanelBody, "", ReadRun(content))]
  {
    var m := Markup.Tag("div", [Named("class", "mb-callout-body")], [Chars("\n")] + content);
    DivReads("mb-callout-body", [], [Chars("\n")] + content);
    assert [Named("class", "mb-callout-body")] + [] == [Named("class", "mb-callout-body")];
    ReadLine(m, content);
  }

  // ---------------------------------------------------------------- documents

  lemma {:induction false} BlocksRead(blocks: seq<Block>, urls: Urls)
    ensures ReadRun(RunMarkup(blocks, urls)) == BlockViews(blocks, urls)
    decreases blocks, 0
  {
    if blocks != [] {
      BlockReads(blocks[0], urls);
      BlocksRead(blocks[1..], urls);
      ReadLine(BlockMarkup(blocks[0], urls), RunMarkup(blocks[1..], urls));
    }
  }

  lemma {:induction false} BlockReads(b: Block, urls: Urls)
    ensures ReadOne(BlockMarkup(b, urls)) == [BlockView(b, urls)]
    decreases b, 0
  {
    match b.kind
    case List(ordered, start, items) =>
      EntriesRead(items, urls);
      ReadLine(Chars(""), ItemsMarkup(items, urls));
      ListElementReads(ordered, start, items, b.anchor, [Chars("\n")] + ItemsMarkup(items, urls));
    case Blockquote(quoted) =>
      BlocksRead(quoted, urls);
      BlockElementReads("blockquote", b.anchor, RunMarkup(quoted, urls));
    case Callout(kind, fold, title, body) =>
      BodyReads(body, urls);
      TitleReads(kind, fold, title, urls);
      ReadConcat(CalloutHead(kind, fold, title, urls), BodyMarkup(body, urls));
      CalloutElementReads(kind, fold, b.anchor, urls, CalloutHead(kind, fold, title, urls) + BodyMarkup(body, urls));
    case _ => LeafReads(b, urls);
  }

  lemma {:induction false} BodyReads(body: seq<Block>, urls: Urls)
    ensures ReadRun(BodyMarkup(body, urls)) == BodyViews(body, urls)
    decreases body, 1
  {
    if body != [] {
      BlocksRead(body, urls);
      BodyElementReads(RunMarkup(body, urls));
    }
  }

  lemma {:induction false} EntriesRead(items: seq<ListItem>, urls: Urls)
    ensures ReadRun(ItemsMarkup(items, urls)) == EntryViews(items, urls)
    decreases items, 0
  {
    if items != [] {
      BlocksRead(items[0].content, urls);
      ItemElementReads(items[0].task, RunMarkup(items[0].content, urls));
      EntriesRead(items[1..], urls);
      ReadLine(ItemMarkup(items[0], urls), ItemsMarkup(items[1..], urls));
      assert [] + BlockViews(items[0].content, urls) == BlockViews(items[0].content, urls);
    }
  }

  /**
   * Reading a rendered page finds the structure of the note: marks by kind, heading levels, lists with their numbering
   * and their tasks, callouts with kind and fold, tables with their alignments, links, references and pictures, each
   * with the exact text in it.
   */
  lemma PageHasTheStructure(blocks: seq<Block>, urls: Urls)
    ensures ReadNodes(ParseHtml(Serialize(RunMarkup(blocks, urls))).children) == BlockViews(blocks, urls)
  {
    RenderReadsBack(blocks, urls);
    NodesRead(RunMarkup(blocks, urls));
    BlocksRead(blocks, urls);
  }
}
