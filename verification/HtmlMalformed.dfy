/** What the stack parser makes of pages that are not written as the renderer writes them (crates/mb-core/src/html.rs). */
module HtmlMalformed {
  import opened Strings
  import opened Escaping
  import opened HtmlTree
  import opened HtmlParser
  import opened HtmlRoundTrip

  // ---------------------------------------------------------------- tags without attributes

  predicate IsNameChar(c: char) {
    IsAsciiLetter(c) || '0' <= c <= '9'
  }

  /** A name as it is written, in any case. */
  predicate BareName(name: string) {
    name != "" && IsAsciiLetter(name[0]) && forall i :: 0 <= i < |name| ==> IsNameChar(name[i])
  }

  lemma {:induction false} NoWhiteIn(name: string)
    requires forall i :: 0 <= i < |name| ==> IsNameChar(name[i])
    ensures FindWhite(name) == |name|
    decreases |name|
  {
    if name != "" {
      assert forall i :: 0 <= i < |name[1..]| ==> name[1..][i] == name[i + 1];
      NoWhiteIn(name[1..]);
    }
  }

  lemma BareNameShape(name: string)
    requires BareName(name)
    ensures Trim(name) == name && Trim("/" + name) == "/" + name && FirstWord(name) == name && FindWhite(name) == |name|
    ensures '>' !in name && DropFinalSlashes(name) == name && Last(name) != '/'
  {
    TrimStartFixed(name);
    TrimEndFixed(name);
    TrimStartFixed("/" + name);
    TrimEndFixed("/" + name);
    assert Last("/" + name) == Last(name) && IsNameChar(Last(name));
    NoWhiteIn(name);
  }

  lemma BareTagParts(name: string)
    requires BareName(name)
    ensures TagParts(name) == (AsciiLower(name), [])
  {
    BareNameShape(name);
    assert name[..|name|] == name;
  }

  lemma UntilBracket(raw: string, rest: string)
    requires '>' !in raw
    ensures var r := raw + (">" + rest); Find(r, '>') == |raw| && r[..|raw|] == raw && r[|raw| + 1..] == rest
  {
    FindIs(raw + (">" + rest), '>', |raw|);
  }

  lemma StepAtOnce(stack: seq<Open>, r: string)
    ensures Step(stack, "<" + r) == MarkupStep(stack, r)
  {
    FindIs("<" + r, '<', 0);
    assert ("<" + r)[..0] == "" && ("<" + r)[1..] == r;
  }

  lemma BareTagStep(stack: seq<Open>, name: string, rest: string)
    requires BareName(name)
    ensures Step(stack, "<" + (name + (">" + rest))) == ElementStep(stack, AsciiLower(name), [], false, rest)
  {
    var r := name + (">" + rest);
    StepAtOnce(stack, r);
    UntilBracket(name, rest);
    BareNameShape(name);
    BareTagParts(name);
    assert r[0] == name[0] && OpensMarkup(r) && !("/>" <= r) && !("!--" <= r);
  }

  lemma ParseStep(stack: seq<Open>, s: string, stack': seq<Open>, rest: string)
    requires s != "" && Step(stack, s) == (stack', rest)
    ensures Parse(stack, s) == Parse(stack', rest)
  {
  }

  /** A tag in any case opens its element. */
  lemma BareTagOpens(stack: seq<Open>, name: string, rest: string)
    requires BareName(name) && !IsVoid(AsciiLower(name)) && !IsDiscarded(AsciiLower(name))
    ensures Parse(stack, "<" + (name + (">" + rest))) == Parse(stack + [Open(AsciiLower(name), [], [])], rest)
  {
    BareTagStep(stack, name, rest);
    LowerIsSome(name);
    ParseStep(stack, "<" + (name + (">" + rest)), stack + [Open(AsciiLower(name), [], [])], rest);
  }

  lemma LowerIsSome(name: string)
    requires name != ""
    ensures AsciiLower(name) != ""
  {
  }

  /** Line breaks, rules, pictures and fields have no content, closed or not. */
  lemma VoidNeedsNoEnd(stack: seq<Open>, name: string, rest: string)
    requires BareName(name) && AsciiLower(name) in {"br", "hr", "img", "input", "wbr", "col"}
    ensures Parse(stack, "<" + (name + (">" + rest))) == Parse(AddChild(stack, Element(AsciiLower(name), [], [])), rest)
  {
    BareTagStep(stack, name, rest);
    LowerIsSome(name);
    ParseStep(stack, "<" + (name + (">" + rest)), AddChild(stack, Element(AsciiLower(name), [], [])), rest);
  }

  // ---------------------------------------------------------------- what is skipped

  lemma {:induction false} FindTextIs(s: string, pattern: string, n: nat)
    requires n <= |s| && pattern <= s[n..] && forall i :: 0 <= i < n ==> !(pattern <= s[i..])
    ensures FindText(s, pattern) == Some(n)
    decreases n
  {
    assert s[0..] == s;
    if n > 0 {
      assert s[1..][n - 1..] == s[n..];
      assert forall i :: 0 <= i < n - 1 ==> s[1..][i..] == s[i + 1..];
      FindTextIs(s[1..], pattern, n - 1);
    }
  }

  /** The comment's text does not end it early. */
  predicate IsComment(c: string) {
    forall i :: 0 <= i < |c| + 3 ==> !("-->" <= ("!--" + c + "-->")[i..])
  }

  lemma CommentEnds(c: string, rest: string)
    requires IsComment(c)
    ensures FindText("!--" + c + "-->" + rest, "-->") == Some(|c| + 3)
  {
    var whole, r := "!--" + c + "-->", "!--" + c + "-->" + rest;
    forall i | 0 <= i < |c| + 3 ensures !("-->" <= r[i..]) {
      assert r[i..][..3] == r[i..i + 3] == whole[i..i + 3] == whole[i..][..3];
    }
    assert r[|c| + 3..] == "-->" + rest;
    FindTextIs(r, "-->", |c| + 3);
  }

  /** A comment leaves no trace. */
  lemma CommentsAreSkipped(stack: seq<Open>, c: string, rest: string)
    requires IsComment(c)
    ensures Parse(stack, "<" + ("!--" + c + "-->" + rest)) == Parse(stack, rest)
  {
    var r := "!--" + c + "-->" + rest;
    StepAtOnce(stack, r);
    CommentEnds(c, rest);
    assert r[0] == '!' && r[1] == '-' && r[2] == '-' && OpensMarkup(r) && !("/>" <= r) && "!--" <= r;
    assert r[|c| + 6..] == rest;
    ParseStep(stack, "<" + r, stack, rest);
  }

  /** Nor does a document type, or another declaration. */
  lemma DeclarationsAreSkipped(stack: seq<Open>, raw: string, rest: string)
    requires raw != "" && (raw[0] == '!' || raw[0] == '?') && !("!--" <= raw + ">") && '>' !in raw
    ensures Parse(stack, "<" + (raw + (">" + rest))) == Parse(stack, rest)
  {
    var r := raw + (">" + rest);
    StepAtOnce(stack, r);
    UntilBracket(raw, rest);
    assert "!--" <= r ==> "!--" <= raw + ">";
    TrimsFront(raw);
    ParseStep(stack, "<" + r, stack, rest);
  }

  lemma TrimsFront(raw: string)
    requires raw != "" && !IsWhite(raw[0])
    ensures Trim(raw) != "" && Trim(raw)[0] == raw[0]
  {
    TrimStartFixed(raw);
    TrimEndKeepsInk(raw);
  }

  /** No end tag of that name inside. */
  predicate StaysInside(body: string, tag: string) {
    forall i :: 0 <= i < |body| ==> !("</" + tag <= AsciiLower(body + ("</" + tag))[i..])
  }

  lemma BodyEnds(body: string, tag: string, rest: string)
    requires StaysInside(body, tag) && AsciiLower(tag) == tag
    ensures FindText(AsciiLower(body + ("</" + tag + rest)), "</" + tag) == Some(|body|)
  {
    var close := "</" + tag;
    var some, all := AsciiLower(body + close), AsciiLower(body + (close + rest));
    assert some == all[..|some|];
    forall i | 0 <= i < |body| ensures !(close <= all[i..]) {
      assert |some[i..]| >= |close|;
      assert all[i..][..|close|] == all[i..i + |close|] == some[i..i + |close|] == some[i..][..|close|];
    }
    assert all[|body|..][..|close|] == AsciiLower(close) == close;
    FindTextIs(all, close, |body|);
  }

  /** No element of this name is open. */
  predicate NotOpen(stack: seq<Open>, tag: string) {
    forall o :: o in stack ==> o.tag != tag
  }

  lemma {:induction false} NotInnermost(stack: seq<Open>, tag: string)
    requires NotOpen(stack, tag)
    ensures Innermost(stack, tag) == None && CloseTag(stack, tag) == stack
  {
    if stack != [] {
      assert Last(stack) in stack && forall o :: o in Init(stack) ==> o in stack;
      NotInnermost(Init(stack), tag);
    }
  }

  /** An end tag without its start tag changes nothing. */
  lemma StrayEndTag(stack: seq<Open>, name: string, rest: string)
    requires BareName(name) && NotOpen(stack, AsciiLower(name))
    ensures Parse(stack, "<" + ("/" + name + (">" + rest))) == Parse(stack, rest)
  {
    EndTagStep(stack, name, rest);
    NotInnermost(stack, AsciiLower(name));
    ParseStep(stack, "<" + ("/" + name + (">" + rest)), stack, rest);
  }

  lemma EndTagText(name: string, rest: string)
    requires BareName(name)
    ensures var r := "/" + name + (">" + rest);
      Find(r, '>') == |name| + 1 && r[..|name| + 1] == "/" + name && r[|name| + 2..] == rest
      && OpensMarkup(r) && !("/>" <= r) && !("!--" <= r)
  {
    var r := "/" + name + (">" + rest);
    BareNameShape(name);
    UntilBracket("/" + name, rest);
    assert r[0] == '/' && r[1] == name[0];
  }

  lemma EndTagStep(stack: seq<Open>, name: string, rest: string)
    requires BareName(name)
    ensures Step(stack, "<" + ("/" + name + (">" + rest))) == (CloseTag(stack, AsciiLower(name)), rest)
  {
    StepAtOnce(stack, "/" + name + (">" + rest));
    BareNameShape(name);
    EndTagText(name, rest);
    assert ("/" + name)[1..] == name;
  }

  lemma ScriptStep(stack: seq<Open>, tag: string, body: string, rest: string)
    requires tag in {"script", "style", "template", "noscript"} && StaysInside(body, tag)
    ensures Step(stack, "<" + (tag + (">" + (body + ("</" + tag + rest))))) == (stack, "</" + tag + rest)
  {
    var behind := body + ("</" + tag + rest);
    DiscardedNames(tag);
    BareTagStep(stack, tag, behind);
    BodyEnds(body, tag, rest);
    assert behind[|body|..] == "</" + tag + rest;
  }

  lemma ScriptParse(stack: seq<Open>, tag: string, body: string, rest: string)
    requires tag in {"script", "style", "template", "noscript"} && StaysInside(body, tag)
    ensures Parse(stack, "<" + (tag + (">" + (body + ("</" + tag + rest))))) == Parse(stack, "</" + tag + rest)
  {
    var s := "<" + (tag + (">" + (body + ("</" + tag + rest))));
    ScriptStep(stack, tag, body, rest);
    ParseStep(stack, s, stack, "</" + tag + rest);
  }

  lemma EndTagIsText(tag: string, rest: string)
    ensures "</" + tag + (">" + rest) == "<" + ("/" + tag + (">" + rest))
  {
  }

  /** Scripts and styles are skipped with everything in them, whatever it looks like. */
  lemma ScriptsAreSkipped(stack: seq<Open>, tag: string, body: string, rest: string)
    requires tag in {"script", "style", "template", "noscript"} && StaysInside(body, tag) && NotOpen(stack, tag)
    ensures Parse(stack, "<" + (tag + (">" + (body + ("</" + tag + (">" + rest)))))) == Parse(stack, rest)
  {
    ScriptParse(stack, tag, body, ">" + rest);
    EndTagIsText(tag, rest);
    DiscardedNames(tag);
    StrayEndTag(stack, tag, rest);
  }

  lemma DiscardedNames(tag: string)
    requires tag in {"script", "style", "template", "noscript"}
    ensures BareName(tag) && AsciiLower(tag) == tag && IsDiscarded(tag) && tag != ""
  {
  }

  /** A bracket that opens nothing is text. */
  lemma StrayBracket(stack: seq<Open>, r: string)
    requires r == "" || !(IsAsciiLetter(r[0]) || r[0] == '!' || r[0] == '?' || r[0] == '/')
    ensures Parse(stack, "<" + r) == Parse(AddChild(stack, TextNode("<")), r)
  {
    StepAtOnce(stack, r);
    FindIs("<", '&', 1);
    assert DecodeWith(EntityChar, "<") == "<";
    ParseStep(stack, "<" + r, AddChild(stack, TextNode("<")), r);
  }

  // ---------------------------------------------------------------- elements that are not closed

  /** An end tag closes what is open inside its element. */
  lemma EndTagClosesInner(below: seq<Open>, o: Open, inner: Open, name: string, rest: string)
    requires BareName(name) && AsciiLower(name) == o.tag && inner.tag != o.tag
    ensures Parse(below + [o, inner], "<" + ("/" + name + (">" + rest)))
         == Parse(AddChild(below, Element(o.tag, o.attrs, o.children + [ToNode(inner)])), rest)
  {
    EndTagStep(below + [o, inner], name, rest);
    ClosesBoth(below, o, inner);
    ParseStep(below + [o, inner], "<" + ("/" + name + (">" + rest)),
              AddChild(below, Element(o.tag, o.attrs, o.children + [ToNode(inner)])), rest);
  }

  lemma ClosesBoth(below: seq<Open>, o: Open, inner: Open)
    requires inner.tag != o.tag
    ensures CloseTag(below + [o, inner], o.tag) == AddChild(below, Element(o.tag, o.attrs, o.children + [ToNode(inner)]))
  {
    var stack, outer := below + [o, inner], o.(children := o.children + [ToNode(inner)]);
    assert stack == below + [o] + [inner];
    SnocInit(below + [o], inner);
    SnocInit(below, o);
    SnocInit(below, outer);
    assert Innermost(stack, o.tag) == Some(|below|);
    assert AddChild(below + [o], ToNode(inner)) == below + [outer];
    assert CloseTo(stack, |below|) == CloseTo(below + [outer], |below|);
    var left := AddChild(below, ToNode(outer));
    assert |left| == |below|;
    assert CloseTo(below + [outer], |below|) == CloseTo(left, |below|) == left;
  }

  function OpenTags(names: seq<string>): string {
    if names == [] then "" else "<" + (names[0] + (">" + OpenTags(names[1..])))
  }

  /** Elements of these names, one in the other, around some nodes. */
  function Nested(names: seq<string>, nodes: seq<Node>): seq<Node> {
    if names == [] then nodes else [Element(AsciiLower(names[0]), [], Nested(names[1..], nodes))]
  }

  function Opened(names: seq<string>): seq<Open> {
    if names == [] then [] else [Open(AsciiLower(names[0]), [], [])] + Opened(names[1..])
  }

  predicate OpenNames(names: seq<string>) {
    forall n :: n in names ==> BareName(n) && !IsVoid(AsciiLower(n)) && !IsDiscarded(AsciiLower(n))
  }

  lemma OpenTagsUnfold(names: seq<string>, rest: string)
    requires names != []
    ensures OpenTags(names) + rest == "<" + (names[0] + (">" + (OpenTags(names[1..]) + rest)))
  {
  }

  lemma {:induction false} TagsOpen(stack: seq<Open>, names: seq<string>, rest: string)
    requires OpenNames(names)
    ensures Parse(stack, OpenTags(names) + rest) == Parse(stack + Opened(names), rest)
    decreases |names|
  {
    if names == [] {
      assert "" + rest == rest && stack + [] == stack;
    } else {
      var first := Open(AsciiLower(names[0]), [], []);
      assert names[0] in names && forall n :: n in names[1..] ==> n in names;
      OpenTagsUnfold(names, rest);
      BareTagOpens(stack, names[0], OpenTags(names[1..]) + rest);
      TagsOpen(stack + [first], names[1..], rest);
      Associate(stack, [first], Opened(names[1..]));
    }
  }

  lemma {:induction false} AllAreClosed(o: Open, names: seq<string>, nodes: seq<Node>)
    ensures CloseTo(WithNodes([o] + Opened(names), nodes), 1) == [o.(children := o.children + Nested(names, nodes))]
    decreases |names|
  {
    var stack := [o] + Opened(names);
    if names == [] {
      assert stack == [o] && Init(stack) == [];
    } else {
      var init, last := Init(names), Last(names);
      InitLast(names);
      OpenedSnoc(init, last);
      NestedSnoc(init, last, nodes);
      var inner := Open(AsciiLower(last), [], nodes);
      var front := [o] + Opened(init);
      assert stack == front + [Open(AsciiLower(last), [], [])];
      SnocInit(front, Open(AsciiLower(last), [], []));
      assert [] + nodes == nodes && WithNodes(stack, nodes) == front + [inner];
      SnocInit(front, inner);
      assert CloseTo(front + [inner], 1) == CloseTo(AddChild(front, ToNode(inner)), 1);
      AllAreClosed(o, init, [ToNode(inner)]);
      assert AddChild([o] + Opened(init), ToNode(inner)) == WithNodes([o] + Opened(init), [ToNode(inner)]);
    }
  }

  /** The nodes put into the innermost open element. */
  function WithNodes(stack: seq<Open>, nodes: seq<Node>): seq<Open>
    requires stack != []
  {
    Init(stack) + [Last(stack).(children := Last(stack).children + nodes)]
  }

  lemma {:induction false} OpenedSnoc(names: seq<string>, name: string)
    ensures Opened(names + [name]) == Opened(names) + [Open(AsciiLower(name), [], [])]
  {
    if names == [] {
      assert [] + [name] == [name] && [name][1..] == [];
    } else {
      TailOfConcat(names, [name]);
      OpenedSnoc(names[1..], name);
    }
  }

  lemma {:induction false} NestedSnoc(names: seq<string>, name: string, nodes: seq<Node>)
    ensures Nested(names + [name], nodes) == Nested(names, [Element(AsciiLower(name), [], nodes)])
  {
    if names == [] {
      assert [] + [name] == [name] && [name][1..] == [];
    } else {
      TailOfConcat(names, [name]);
      NestedSnoc(names[1..], name, nodes);
    }
  }

  /** Elements that are never closed end with the page, the innermost first. */
  lemma UnclosedElementsEnd(names: seq<string>, text: string)
    requires OpenNames(names) && text != ""
    ensures ParseHtml(OpenTags(names) + EscapeText(text)) == Element("root", [], Nested(names, [TextNode(text)]))
  {
    var stack := [ROOT] + Opened(names);
    TagsOpen([ROOT], names, EscapeText(text));
    TextAtTheEnd(stack, text);
    AllAreClosed(ROOT, names, [TextNode(text)]);
    assert [] + Nested(names, [TextNode(text)]) == Nested(names, [TextNode(text)]);
  }

  lemma TextAtTheEnd(stack: seq<Open>, text: string)
    requires stack != [] && text != ""
    ensures Parse(stack, EscapeText(text)) == WithNodes(stack, [TextNode(text)])
  {
    var s := EscapeText(text);
    EscapedTextHasNoTag(text);
    DecodeUndoesEscape(text, false);
    FindIs(s, '<', |s|);
    ParseStep(stack, s, AddText(stack, s), "");
  }

  // ---------------------------------------------------------------- attributes

  /** A value without quotes, or in single quotes. */
  lemma OtherValues(name: string, value: string)
    requires BareName(name) && value != "" && forall c :: c in value ==> !IsWhite(c) && c != '"' && c != '\''
    ensures ParseAttrs(name + "=" + value) == [(AsciiLower(name), Decode(value))]
    ensures ParseAttrs(name + "='" + value + "'") == [(AsciiLower(name), Decode(value))]
  {
    UnquotedValue(name, value);
    SingleQuotedValue(name, value);
  }

  lemma NameIsFound(name: string, tail: string)
    requires BareName(name)
    ensures var s := name + ("=" + tail);
      && TrimStart(s) == s && FindNameEnd(s) == |name| && s[..|name|] == name && s[|name|..] == "=" + tail
      && TrimStart("=" + tail) == "=" + tail && ("=" + tail)[1..] == tail
  {
    var s := name + ("=" + tail);
    assert s[0] == name[0];
    TrimStartFixed(s);
    TrimStartFixed("=" + tail);
    assert s[|name|] == '=';
    assert forall i :: 0 <= i < |name| ==> s[i] == name[i] && IsNameChar(name[i]);
  }

  lemma {:induction false} WholeWord(s: string)
    requires forall c :: c in s ==> !IsWhite(c)
    ensures FindWhite(s) == |s|
    decreases |s|
  {
    if s != "" {
      assert s[0] in s && forall c :: c in s[1..] ==> c in s;
      WholeWord(s[1..]);
    }
  }

  lemma UnquotedValue(name: string, value: string)
    requires BareName(name) && value != "" && forall c :: c in value ==> !IsWhite(c) && c != '"' && c != '\''
    ensures ParseAttrs(name + "=" + value) == [(AsciiLower(name), Decode(value))]
  {
    var s := name + ("=" + value);
    assert name + "=" + value == s && value[0] in value;
    NameIsFound(name, value);
    TrimStartFixed(value);
    WholeWord(value);
    assert value[..|value|] == value && value[|value|..] == "";
    assert SplitValue(value) == (value, "");
    AttrStep(s, name, value, "");
  }

  lemma SingleQuotedValue(name: string, value: string)
    requires BareName(name) && '\'' !in value
    ensures ParseAttrs(name + "='" + value + "'") == [(AsciiLower(name), Decode(value))]
  {
    var tail := "'" + value + "'";
    var s := name + ("=" + tail);
    assert name + "='" + value + "'" == s;
    NameIsFound(name, tail);
    TrimStartFixed(tail);
    FindIs(tail[1..], '\'', |value|);
    assert tail[1..][..|value|] == value && tail[1..][|value| + 1..] == "";
    assert SplitValue(tail) == (value, "");
    AttrStep(s, name, tail, "");
  }

  lemma AttrStep(s: string, name: string, tail: string, rest: string)
    requires BareName(name) && s == name + ("=" + tail) && TrimStart(tail) == tail && SplitValue(tail).1 == rest
    ensures ParseAttrs(s) == [(AsciiLower(name), Decode(SplitValue(tail).0))] + ParseAttrs(rest)
  {
    NameIsFound(name, tail);
  }
}
