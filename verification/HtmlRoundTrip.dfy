/** What the stack parser reads back from balanced markup: the same tree, with the same text in it. */
module HtmlRoundTrip {
  import opened Strings
  import opened Escaping
  import opened HtmlTree
  import opened HtmlParser

  // ---------------------------------------------------------------- names

  predicate IsNameChar(c: char) {
    'a' <= c <= 'z' || '0' <= c <= '9' || c == '-'
  }

  /** A name that needs no normalizing: lower-case letters, digits and hyphens, the first one a letter. */
  predicate GoodName(n: string) {
    n != "" && 'a' <= n[0] <= 'z' && forall i :: 0 <= i < |n| ==> IsNameChar(n[i])
  }

  predicate GoodAttrs(attrs: seq<Attr>) {
    forall a :: a in attrs ==> GoodName(a.name)
  }

  /** Markup that an HTML reader can read back: known names, and void elements exactly where they are written so. */
  predicate Readable(run: seq<Markup>)
    decreases run
  {
    forall m :: m in run ==> ReadableOne(m)
  }

  predicate ReadableOne(m: Markup)
    decreases m
  {
    match m
    case Chars(_) => true
    case Tag(n, attrs, content) => GoodName(n) && !IsVoid(n) && !IsDiscarded(n) && GoodAttrs(attrs) && Readable(content)
    case Void(n, attrs) => GoodName(n) && !IsDiscarded(n) && GoodAttrs(attrs)
  }

  lemma NameCharsAreInk(c: char)
    requires IsNameChar(c)
    ensures !IsWhite(c) && c !in {'/', '<', '>', '=', '"', '\'', '!', '?', '&', ' '} && LowerChar(c) == c
  {
  }

  lemma GoodNameIsLower(n: string)
    requires GoodName(n)
    ensures AsciiLower(n) == n
  {
    assert forall i :: 0 <= i < |n| ==> LowerChar(n[i]) == n[i];
  }

  // ---------------------------------------------------------------- attributes

  function Pairs(attrs: seq<Attr>): seq<(string, string)> {
    if attrs == [] then []
    else [(attrs[0].name, if attrs[0].value.Some? then attrs[0].value.value else "")] + Pairs(attrs[1..])
  }

  /** An attribute's text behind its leading space. */
  function AttrBody(a: Attr): string {
    match a.value
    case None => a.name
    case Some(v) => a.name + ("=" + ("\"" + (EscapeAttr(v) + "\"")))
  }

  lemma AttrTextIs(a: Attr)
    ensures AttrText(a) == " " + AttrBody(a)
  {
    if a.value.Some? {
      var e := EscapeAttr(a.value.value);
      assert " " + a.name + "=\"" + e + "\"" == " " + (a.name + ("=" + ("\"" + (e + "\""))));
    }
  }

  lemma AttrsTextStartsWithSpace(attrs: seq<Attr>)
    ensures AttrsText(attrs) == "" <==> attrs == []
    ensures attrs != [] ==> AttrsText(attrs)[0] == ' '
  {
    if attrs != [] {
      AttrTextIs(attrs[0]);
    }
  }

  lemma LeadingSpace(s: string)
    requires s != "" && !IsWhite(s[0])
    ensures TrimStart(" " + s) == s
    ensures ParseAttrs(" " + s) == ParseAttrs(s)
  {
    assert (" " + s)[1..] == s;
    TrimStartFixed(s);
  }

  lemma NameEnds(n: string, more: string)
    requires GoodName(n) && (more == "" || more[0] == ' ' || more[0] == '=')
    ensures FindNameEnd(n + more) == |n|
    ensures (n + more)[..|n|] == n && (n + more)[|n|..] == more
    ensures !IsWhite((n + more)[0])
  {
    forall k | 0 <= k < |n| ensures !IsWhite((n + more)[k]) && (n + more)[k] != '=' {
      NameCharsAreInk(n[k]);
    }
    assert more != "" ==> (n + more)[|n|] == more[0];
  }

  /** A bare attribute in front of others. */
  lemma ParseBare(n: string, more: string)
    requires GoodName(n) && (more == "" || (|more| > 1 && more[0] == ' ' && 'a' <= more[1] <= 'z'))
    ensures ParseAttrs(n + more) == [(n, "")] + ParseAttrs(more)
  {
    NameEnds(n, more);
    GoodNameIsLower(n);
    TrimStartFixed(n + more);
    if more == "" {
      assert n + more == n;
    } else {
      assert more == " " + more[1..];
      LeadingSpace(more[1..]);
    }
  }

  lemma ParseBody(v: string, more: string)
    ensures SplitValue("\"" + ((v + "\"") + more)) == (v, more) || '"' in v
  {
    if '"' !in v {
      var body := (v + "\"") + more;
      assert ("\"" + body)[1..] == body;
      FindIs(body, '"', |v|);
      assert body[..|v|] == v && body[|v| + 1..] == more;
    }
  }

  lemma ParseValued(n: string, v: string, more: string)
    requires GoodName(n)
    ensures ParseAttrs(n + ("=" + ("\"" + ((EscapeAttr(v) + "\"") + more)))) == [(n, v)] + ParseAttrs(more)
  {
    var quoted := "\"" + ((EscapeAttr(v) + "\"") + more);
    var r := n + ("=" + quoted);
    NameEnds(n, "=" + quoted);
    GoodNameIsLower(n);
    TrimStartFixed(r);
    TrimStartFixed("=" + quoted);
    TrimStartFixed(quoted);
    assert ("=" + quoted)[1..] == quoted;
    EscapedAttrHasNoQuote(v);
    ParseBody(EscapeAttr(v), more);
    DecodeUndoesEscape(v, true);
  }

  lemma BodyRegroups(n: string, e: string, more: string)
    ensures (n + ("=" + ("\"" + (e + "\"")))) + more == n + ("=" + ("\"" + ((e + "\"") + more)))
  {
  }

  lemma AttrsTextShape(attrs: seq<Attr>)
    requires GoodAttrs(attrs)
    ensures var t := AttrsText(attrs); t == "" || (|t| > 1 && t[0] == ' ' && 'a' <= t[1] <= 'z')
  {
    if attrs != [] {
      assert GoodName(attrs[0].name);
      AttrTextIs(attrs[0]);
    }
  }

  /** The attribute loop reads back every attribute and its exact value. */
  lemma {:induction false} AttrsReadBack(attrs: seq<Attr>)
    requires GoodAttrs(attrs)
    ensures ParseAttrs(AttrsText(attrs)) == Pairs(attrs)
  {
    if attrs != [] {
      var a, more := attrs[0], attrs[1..];
      assert GoodName(a.name) && GoodAttrs(more);
      AttrsReadBack(more);
      AttrsTextShape(more);
      AttrTextIs(a);
      Associate(" ", AttrBody(a), AttrsText(more));
      LeadingSpace(AttrBody(a) + AttrsText(more));
      match a.value
      case None => ParseBare(a.name, AttrsText(more));
      case Some(v) =>
        BodyRegroups(a.name, EscapeAttr(v), AttrsText(more));
        ParseValued(a.name, v, AttrsText(more));
    }
  }

  // ---------------------------------------------------------------- the text of a tag

  /** A tag's text starts with a letter, ends in ink that is no slash, and holds no angle bracket. */
  predicate HeadShape(head: string) {
    && head != "" && 'a' <= head[0] <= 'z'
    && !IsWhite(Last(head)) && Last(head) != '/'
    && '<' !in head && '>' !in head
  }

  lemma GoodNameShape(n: string)
    requires GoodName(n)
    ensures HeadShape(n)
  {
    assert forall i :: 0 <= i < |n| ==> IsNameChar(n[i]);
    NameCharsAreInk(Last(n));
  }

  lemma AttrKeepsShape(head: string, a: Attr)
    requires HeadShape(head) && GoodName(a.name)
    ensures HeadShape(head + AttrText(a))
  {
    AttrTextIs(a);
    GoodNameShape(a.name);
    if a.value.Some? {
      var e := EscapeAttr(a.value.value);
      EscapedAttrHasNoQuote(a.value.value);
      var body := a.name + ("=" + ("\"" + (e + "\"")));
      assert Last(body) == '"' && '<' !in body && '>' !in body;
    }
    assert Last(head + AttrText(a)) == Last(AttrBody(a));
  }

  lemma {:induction false} HeadHasShape(head: string, attrs: seq<Attr>)
    requires HeadShape(head) && GoodAttrs(attrs)
    ensures HeadShape(head + AttrsText(attrs))
    decreases |attrs|
  {
    if attrs == [] {
      assert head + "" == head;
    } else {
      AttrKeepsShape(head, attrs[0]);
      HeadHasShape(head + AttrText(attrs[0]), attrs[1..]);
      Associate(head, AttrText(attrs[0]), AttrsText(attrs[1..]));
    }
  }

  lemma TrimFixed(s: string)
    requires s == "" || (!IsWhite(s[0]) && !IsWhite(Last(s)))
    ensures Trim(s) == s
  {
    TrimStartFixed(s);
    TrimEndFixed(s);
  }

  lemma WhiteEndsName(n: string, more: string)
    requires GoodName(n) && (more == "" || more[0] == ' ')
    ensures FindWhite(n + more) == |n| && (n + more)[..|n|] == n && (n + more)[|n|..] == more
  {
    forall k | 0 <= k < |n| ensures !IsWhite((n + more)[k]) {
      NameCharsAreInk(n[k]);
    }
    assert more != "" ==> (n + more)[|n|] == more[0];
  }

  lemma NameReadsBack(n: string, more: string)
    requires GoodName(n) && (more == "" || more[0] == ' ')
    ensures TagParts(n + more) == (n, if more == "" then [] else ParseAttrs(Trim(more[1..])))
  {
    WhiteEndsName(n, more);
    GoodNameIsLower(n);
    assert more != "" ==> (n + more)[|n| + 1..] == more[1..];
  }

  /** Name and attributes are read back from the text of a tag. */
  lemma HeadReadsBack(n: string, attrs: seq<Attr>)
    requires GoodName(n) && GoodAttrs(attrs)
    ensures HeadShape(n + AttrsText(attrs))
    ensures TagParts(n + AttrsText(attrs)) == (n, Pairs(attrs))
  {
    var text := AttrsText(attrs);
    GoodNameShape(n);
    HeadHasShape(n, attrs);
    AttrsTextShape(attrs);
    AttrsTextStartsWithSpace(attrs);
    AttrsReadBack(attrs);
    NameReadsBack(n, text);
    if text != "" {
      TailReadsBack(n, text);
    }
  }

  lemma TailReadsBack(n: string, text: string)
    requires HeadShape(n + text) && |text| > 1 && text[0] == ' ' && 'a' <= text[1] <= 'z'
    ensures ParseAttrs(Trim(text[1..])) == ParseAttrs(text)
  {
    assert Last(text[1..]) == Last(n + text);
    TrimFixed(text[1..]);
    assert text == " " + text[1..];
    LeadingSpace(text[1..]);
  }

  // ---------------------------------------------------------------- one tag

  /** The children of an element with text still to be added. */
  function Flush(done: seq<Node>, pending: string): seq<Node> {
    if pending == "" then done else done + [TextNode(pending)]
  }

  /** The text that was read before a tag becomes one node. */
  lemma TextIsFlushed(below: seq<Open>, o: Open, p: string)
    ensures AddText(below + [o], EscapeText(p)) == below + [o.(children := Flush(o.children, p))]
  {
    EscapedTextHasNoTag(p);
    DecodeUndoesEscape(p, false);
    SnocInit(below, o);
  }

  lemma SplitAtTag(text: string, r: string)
    requires '<' !in text
    ensures var s := text + ("<" + r);
      Find(s, '<') == |text| && s[..|text|] == text && s[|text| + 1..] == r
  {
    FindIs(text + ("<" + r), '<', |text|);
  }

  lemma StepAtTag(stack: seq<Open>, p: string, r: string)
    ensures Step(stack, EscapeText(p) + ("<" + r)) == MarkupStep(AddText(stack, EscapeText(p)), r)
  {
    EscapedTextHasNoTag(p);
    SplitAtTag(EscapeText(p), r);
  }

  lemma MarkupStepAtTag(stack: seq<Open>, raw: string, rest: string)
    requires raw != "" && '>' !in raw && Trim(raw) == raw
    requires ('a' <= raw[0] <= 'z') || (raw[0] == '/' && |raw| > 1 && 'a' <= raw[1] <= 'z')
    ensures MarkupStep(stack, raw + (">" + rest)) == TagStep(stack, raw, rest)
  {
    var r := raw + (">" + rest);
    FindIs(r, '>', |raw|);
    assert r[..|raw|] == raw && r[|raw| + 1..] == rest;
    assert r[0] == raw[0];
    assert |raw| > 1 ==> r[1] == raw[1];
    assert !("/>" <= r);
    assert OpensMarkup(r);
  }

  lemma OpenStep(stack: seq<Open>, n: string, attrs: seq<Attr>, rest: string)
    requires GoodName(n) && GoodAttrs(attrs) && !IsVoid(n) && !IsDiscarded(n)
    ensures MarkupStep(stack, (n + AttrsText(attrs)) + (">" + rest)) == (stack + [Open(n, Pairs(attrs), [])], rest)
  {
    var head := n + AttrsText(attrs);
    HeadReadsBack(n, attrs);
    TrimFixed(head);
    MarkupStepAtTag(stack, head, rest);
    assert DropFinalSlashes(head) == head;
  }

  lemma VoidStep(stack: seq<Open>, n: string, attrs: seq<Attr>, rest: string)
    requires GoodName(n) && GoodAttrs(attrs) && !IsDiscarded(n)
    ensures MarkupStep(stack, (n + AttrsText(attrs)) + (" />" + rest))
         == (AddChild(stack, Element(n, Pairs(attrs), [])), rest)
  {
    var head := n + AttrsText(attrs);
    HeadReadsBack(n, attrs);
    var raw := head + " /";
    assert head + (" />" + rest) == raw + (">" + rest);
    TrimFixed(raw);
    MarkupStepAtTag(stack, raw, rest);
    SlashIsDropped(head);
  }

  lemma SlashIsDropped(head: string)
    requires HeadShape(head)
    ensures Trim(DropFinalSlashes(head + " /")) == head
  {
    SnocInit(head + " ", '/');
    assert head + " /" == head + " " + "/";
    assert DropFinalSlashes(head + " ") == head + " ";
    TrimStartFixed(head + " ");
    SnocInit(head, ' ');
    TrimEndFixed(head);
  }

  lemma EndNameIsRead(n: string)
    requires GoodName(n)
    ensures AsciiLower(FirstWord(n)) == n
  {
    GoodNameShape(n);
    TrimStartFixed(n);
    assert n + "" == n;
    WhiteEndsName(n, "");
    GoodNameIsLower(n);
  }

  lemma EndTagIsRead(stack: seq<Open>, n: string, rest: string)
    requires GoodName(n)
    ensures MarkupStep(stack, ("/" + n) + (">" + rest)) == (CloseTag(stack, n), rest)
  {
    var raw := "/" + n;
    GoodNameShape(n);
    TrimFixed(raw);
    MarkupStepAtTag(stack, raw, rest);
    assert raw[1..] == n;
    EndNameIsRead(n);
  }

  lemma CloseStep(below: seq<Open>, o: Open, rest: string)
    requires GoodName(o.tag)
    ensures MarkupStep(below + [o], ("/" + o.tag) + (">" + rest)) == (AddChild(below, ToNode(o)), rest)
  {
    EndTagIsRead(below + [o], o.tag, rest);
    SnocInit(below, o);
    assert CloseTo(AddChild(below, ToNode(o)), |below|) == AddChild(below, ToNode(o));
  }

  // ---------------------------------------------------------------- whole runs

  /** The nodes that a run adds behind `done` and the text `pending`. */
  function Absorb(done: seq<Node>, pending: string, run: seq<Markup>): (seq<Node>, string)
    decreases run, 0
  {
    if run == [] then (done, pending)
    else
      var next := AbsorbOne(done, pending, run[0]);
      Absorb(next.0, next.1, run[1..])
  }

  function AbsorbOne(done: seq<Node>, pending: string, m: Markup): (seq<Node>, string)
    decreases m, 0
  {
    match m
    case Chars(t) => (done, pending + t)
    case Tag(n, attrs, content) => (Flush(done, pending) + [Element(n, Pairs(attrs), NodesOf(content))], "")
    case Void(n, attrs) => (Flush(done, pending) + [Element(n, Pairs(attrs), [])], "")
  }

  /** The tree a run stands for: its elements, with adjacent text joined and empty text left out. */
  function NodesOf(run: seq<Markup>): seq<Node>
    decreases run, 1
  {
    var all := Absorb([], "", run);
    Flush(all.0, all.1)
  }

  /** Reading a run adds exactly its nodes to the innermost open element. */
  lemma {:induction false} RunReadsBack(below: seq<Open>, o: Open, p: string, run: seq<Markup>, rest: string)
    requires Readable(run)
    ensures var at := Absorb(o.children, p, run);
      Parse(below + [o], EscapeText(p) + SerializeOnto(run, rest))
      == Parse(below + [o.(children := at.0)], EscapeText(at.1) + rest)
    decreases run, 0
  {
    if run == [] {
      assert o.(children := o.children) == o;
    } else {
      var next := AbsorbOne(o.children, p, run[0]);
      var behind := SerializeOnto(run[1..], rest);
      assert ReadableOne(run[0]) && Readable(run[1..]);
      OneReadsBack(below, o, p, run[0], behind);
      RunReadsBack(below, o.(children := next.0), next.1, run[1..], rest);
    }
  }

  lemma {:induction false} OneReadsBack(below: seq<Open>, o: Open, p: string, m: Markup, rest: string)
    requires ReadableOne(m)
    ensures var at := AbsorbOne(o.children, p, m);
      Parse(below + [o], EscapeText(p) + SerializeOneOnto(m, rest))
      == Parse(below + [o.(children := at.0)], EscapeText(at.1) + rest)
    decreases m, 3
  {
    match m
    case Chars(t) =>
      EscapeTextConcat(p, t);
      Associate(EscapeText(p), EscapeText(t), rest);
      assert o.(children := o.children) == o;
    case Tag(n, attrs, content) => ElementReadsBack(below, o, p, n, attrs, content, rest);
    case Void(n, attrs) => VoidReadsBack(below, o, p, n, attrs, rest);
  }

  lemma VoidIsRead(below: seq<Open>, o: Open, p: string, n: string, attrs: seq<Attr>, rest: string)
    requires GoodName(n) && GoodAttrs(attrs) && !IsDiscarded(n)
    ensures Parse(below + [o], EscapeText(p) + ("<" + ((n + AttrsText(attrs)) + (" />" + rest))))
         == Parse(AddChild(below + [o.(children := Flush(o.children, p))], Element(n, Pairs(attrs), [])), rest)
  {
    TextIsFlushed(below, o, p);
    StepAtTag(below + [o], p, (n + AttrsText(attrs)) + (" />" + rest));
    VoidStep(below + [o.(children := Flush(o.children, p))], n, attrs, rest);
  }

  lemma VoidReadsBack(below: seq<Open>, o: Open, p: string, n: string, attrs: seq<Attr>, rest: string)
    requires GoodName(n) && GoodAttrs(attrs) && !IsDiscarded(n)
    ensures var o' := o.(children := Flush(o.children, p) + [Element(n, Pairs(attrs), [])]);
      Parse(below + [o], EscapeText(p) + SerializeOneOnto(Void(n, attrs), rest)) == Parse(below + [o'], "" + rest)
  {
    VoidIsRead(below, o, p, n, attrs, rest);
    SnocInit(below, o.(children := Flush(o.children, p)));
    assert "" + rest == rest;
  }

  lemma {:induction false} ElementReadsBack(below: seq<Open>, o: Open, p: string, n: string, attrs: seq<Attr>,
                                            content: seq<Markup>, rest: string)
    requires ReadableOne(Tag(n, attrs, content))
    ensures var o' := o.(children := Flush(o.children, p) + [Element(n, Pairs(attrs), NodesOf(content))]);
      Parse(below + [o], EscapeText(p) + SerializeOneOnto(Tag(n, attrs, content), rest)) == Parse(below + [o'], "" + rest)
    decreases content, 2
  {
    var flushed := o.(children := Flush(o.children, p));
    StartIsRead(below, o, p, n, attrs, SerializeOnto(content, CloseOnto(n, rest)));
    ContentIsRead(below + [flushed], n, Pairs(attrs), content, rest);
    SnocInit(below, flushed);
    assert "" + rest == rest;
  }

  function CloseOnto(n: string, rest: string): string {
    "<" + (("/" + n) + (">" + rest))
  }

  lemma {:induction false} ContentIsRead(below: seq<Open>, n: string, attrs: seq<(string, string)>, content: seq<Markup>,
                                         rest: string)
    requires GoodName(n) && Readable(content)
    ensures Parse(below + [Open(n, attrs, [])], SerializeOnto(content, CloseOnto(n, rest)))
         == Parse(AddChild(below, Element(n, attrs, NodesOf(content))), rest)
    decreases content, 1
  {
    var all := Absorb([], "", content);
    assert "" + SerializeOnto(content, CloseOnto(n, rest)) == SerializeOnto(content, CloseOnto(n, rest));
    RunReadsBack(below, Open(n, attrs, []), "", content, CloseOnto(n, rest));
    EndIsRead(below, Open(n, attrs, all.0), all.1, rest);
  }

  lemma StartIsRead(below: seq<Open>, o: Open, p: string, n: string, attrs: seq<Attr>, rest: string)
    requires GoodName(n) && GoodAttrs(attrs) && !IsVoid(n) && !IsDiscarded(n)
    ensures Parse(below + [o], EscapeText(p) + ("<" + ((n + AttrsText(attrs)) + (">" + rest))))
         == Parse(below + [o.(children := Flush(o.children, p))] + [Open(n, Pairs(attrs), [])], rest)
  {
    TextIsFlushed(below, o, p);
    StepAtTag(below + [o], p, (n + AttrsText(attrs)) + (">" + rest));
    OpenStep(below + [o.(children := Flush(o.children, p))], n, attrs, rest);
  }

  lemma EndIsRead(below: seq<Open>, o: Open, p: string, rest: string)
    requires GoodName(o.tag)
    ensures Parse(below + [o], EscapeText(p) + CloseOnto(o.tag, rest))
         == Parse(AddChild(below, Element(o.tag, o.attrs, Flush(o.children, p))), rest)
  {
    TextIsFlushed(below, o, p);
    StepAtTag(below + [o], p, ("/" + o.tag) + (">" + rest));
    CloseStep(below, o.(children := Flush(o.children, p)), rest);
  }

  /** Parsing the text of readable markup gives back its tree: every element, attribute, value and piece of text. */
  lemma ParseUndoesSerialize(run: seq<Markup>)
    requires Readable(run)
    ensures ParseHtml(Serialize(run)) == Element("root", [], NodesOf(run))
  {
    var all := Absorb([], "", run);
    ParseFromRoot(run);
    TextAtEnd(ROOT.(children := all.0), all.1);
  }

  lemma SerializeIsWhole(run: seq<Markup>)
    ensures "" + SerializeOnto(run, "") == Serialize(run)
  {
    SerializeOntoIsConcat(run, "");
  }

  lemma ParseFromRoot(run: seq<Markup>)
    requires Readable(run)
    ensures var all := Absorb([], "", run);
      Parse([ROOT], Serialize(run)) == Parse([] + [ROOT.(children := all.0)], EscapeText(all.1) + "")
  {
    SerializeIsWhole(run);
    assert [] + [ROOT] == [ROOT];
    RunReadsBack([], ROOT, "", run, "");
  }

  lemma TextAtEnd(o: Open, p: string)
    ensures Parse([] + [o], EscapeText(p) + "") == [o.(children := Flush(o.children, p))]
  {
    assert EscapeText(p) + "" == EscapeText(p);
    EscapedTextHasNoTag(p);
    TextIsFlushed([], o, p);
    if p != "" {
      FindIs(EscapeText(p), '<', |EscapeText(p)|);
    }
  }

  // ---------------------------------------------------------------- the text in it

  function NodeText(node: Node): string
    decreases node
  {
    match node
    case TextNode(t) => t
    case Element(_, _, children) => NodesText(children)
  }

  /** The text of a tree, in document order. */
  function NodesText(nodes: seq<Node>): string
    decreases nodes
  {
    if nodes == [] then "" else NodeText(nodes[0]) + NodesText(nodes[1..])
  }

  lemma {:induction false} NodesTextSnoc(nodes: seq<Node>, node: Node)
    ensures NodesText(nodes + [node]) == NodesText(nodes) + NodeText(node)
  {
    if nodes == [] {
      assert [] + [node] == [node];
      assert NodesText([node]) == NodeText(node) + "";
    } else {
      NodesTextSnoc(nodes[1..], node);
      assert (nodes + [node])[1..] == nodes[1..] + [node];
      Associate(NodeText(nodes[0]), NodesText(nodes[1..]), NodeText(node));
    }
  }

  lemma FlushKeepsText(done: seq<Node>, p: string)
    ensures NodesText(Flush(done, p)) == NodesText(done) + p
  {
    NodesTextSnoc(done, TextNode(p));
  }

  lemma {:induction false} AbsorbKeepsText(done: seq<Node>, p: string, run: seq<Markup>)
    ensures var at := Absorb(done, p, run); NodesText(at.0) + at.1 == NodesText(done) + p + RawText(run)
    decreases run, 0
  {
    if run == [] {
      assert NodesText(done) + p + "" == NodesText(done) + p;
    } else {
      var next := AbsorbOne(done, p, run[0]);
      AbsorbOneKeepsText(done, p, run[0]);
      AbsorbKeepsText(next.0, next.1, run[1..]);
      Associate(NodesText(done) + p, RawTextOne(run[0]), RawText(run[1..]));
    }
  }

  function RawTextOne(m: Markup): string {
    match m case Chars(t) => t case Tag(_, _, content) => RawText(content) case Void(_, _) => ""
  }

  lemma {:induction false} AbsorbOneKeepsText(done: seq<Node>, p: string, m: Markup)
    ensures var at := AbsorbOne(done, p, m); NodesText(at.0) + at.1 == NodesText(done) + p + RawTextOne(m)
    decreases m, 0
  {
    FlushKeepsText(done, p);
    match m
    case Chars(t) => Associate(NodesText(done), p, t);
    case Tag(n, attrs, content) =>
      ContentKeepsText(content);
      NodesTextSnoc(Flush(done, p), Element(n, Pairs(attrs), NodesOf(content)));
    case Void(n, attrs) => NodesTextSnoc(Flush(done, p), Element(n, Pairs(attrs), []));
  }

  /** A run's tree holds exactly the text that was handed to the escaper. */
  lemma {:induction false} ContentKeepsText(run: seq<Markup>)
    ensures NodesText(NodesOf(run)) == RawText(run)
    decreases run, 1
  {
    var all := Absorb([], "", run);
    FlushKeepsText(all.0, all.1);
    AbsorbKeepsText([], "", run);
  }
}
