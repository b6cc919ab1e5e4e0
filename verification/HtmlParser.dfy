/** The stack parser of the web clipper (`parse_html`, `append_text`, `tag_parts` and `is_void` in crates/mb-core/src/html.rs). */
module HtmlParser {
  import opened Strings
  import opened Escaping
  import opened HtmlTree

  datatype Node = TextNode(text: string) | Element(tag: string, attrs: seq<(string, string)>, children: seq<Node>)

  /** An element whose end tag has not been seen. */
  datatype Open = Open(tag: string, attrs: seq<(string, string)>, children: seq<Node>)

  // ---------------------------------------------------------------- the stack

  function AddChild(stack: seq<Open>, node: Node): seq<Open> {
    if stack == [] then stack else Init(stack) + [Last(stack).(children := Last(stack).children + [node])]
  }

  /** `append_text`. */
  function AddText(stack: seq<Open>, text: string): seq<Open> {
    if text == "" then stack else AddChild(stack, TextNode(Decode(text)))
  }

  function ToNode(o: Open): Node {
    Element(o.tag, o.attrs, o.children)
  }

  /** Closes every element from `position` on; the children of what is closed go to the element below. */
  function CloseTo(stack: seq<Open>, position: nat): seq<Open>
    decreases |stack|
  {
    if |stack| <= position then stack else CloseTo(AddChild(Init(stack), ToNode(Last(stack))), position)
  }

  /** The innermost open element with this name. */
  function Innermost(stack: seq<Open>, name: string): Option<nat> {
    if stack == [] then None
    else if Last(stack).tag == name then Some(|stack| - 1)
    else Innermost(Init(stack), name)
  }

  function CloseTag(stack: seq<Open>, name: string): seq<Open> {
    match Innermost(stack, name) case None => stack case Some(i) => CloseTo(stack, i)
  }

  // ---------------------------------------------------------------- tags

  function FindNameEnd(s: string): (n: nat)
    ensures n <= |s|
    ensures n < |s| ==> IsWhite(s[n]) || s[n] == '='
    ensures forall k :: 0 <= k < n ==> !IsWhite(s[k]) && s[k] != '='
  {
    if s == "" || IsWhite(s[0]) || s[0] == '=' then 0 else 1 + FindNameEnd(s[1..])
  }

  /** Where an attribute's value ends, and what is left behind it. */
  function SplitValue(s: string): (r: (string, string))
    ensures |r.1| <= |s|
  {
    if s != "" && s[0] in {'"', '\''} then
      var body := s[1..];
      var end := Find(body, s[0]);
      if end == |body| then (body, "") else (body[..end], body[end + 1..])
    else
      var end := FindWhite(s);
      (s[..end], s[end..])
  }

  /** The attribute loop of `tag_parts`. */
  function ParseAttrs(s: string): seq<(string, string)>
    decreases |s|
  {
    if s == "" then []
    else
      var r := TrimStart(s);
      var eq := FindNameEnd(r);
      if eq == |r| then [(AsciiLower(r), "")]
      else
        var name := AsciiLower(r[..eq]);
        var r' := TrimStart(r[eq..]);
        TrimStartKeepsInk(s);
        TrimStartFixed(r[eq..]);
        if r' != "" && r'[0] == '=' then
          var v := SplitValue(TrimStart(r'[1..]));
          [(name, Decode(v.0))] + ParseAttrs(v.1)
        else [(name, "")] + ParseAttrs(r')
  }

  function TagParts(raw: string): (string, seq<(string, string)>) {
    var n := FindWhite(raw);
    (AsciiLower(raw[..n]), if n == |raw| then [] else ParseAttrs(Trim(raw[n + 1..])))
  }

  function DropFinalSlashes(s: string): string {
    if s != "" && Last(s) == '/' then DropFinalSlashes(Init(s)) else s
  }

  function FirstWord(s: string): string {
    var t := TrimStart(s);
    t[..FindWhite(t)]
  }

  predicate IsVoid(tag: string) {
    tag in {"area", "base", "br", "col", "embed", "hr", "img", "input", "link", "meta", "param", "source", "track", "wbr"}
  }

  /** Elements of which nothing is read, not even what they enclose. */
  predicate IsDiscarded(tag: string) {
    tag in {"script", "style", "template", "noscript"}
  }

  predicate IsAsciiLetter(c: char) {
    'a' <= c <= 'z' || 'A' <= c <= 'Z'
  }

  /** Whether `<` in front of `r` opens markup, as in a browser. */
  predicate OpensMarkup(r: string) {
    && r != ""
    && (if r[0] == '/' then |r| > 1 && IsAsciiLetter(r[1]) else IsAsciiLetter(r[0]) || r[0] == '!' || r[0] == '?')
  }

  // ---------------------------------------------------------------- the parser

  /** The stack and the source left to read. */
  type Progress = (seq<Open>, string)

  /** One round of the main loop; where the loop ends early, nothing is left to read. */
  function Step(stack: seq<Open>, rest: string): (r: Progress)
    requires rest != ""
    ensures |r.1| < |rest|
  {
    var start := Find(rest, '<');
    if start == |rest| then (AddText(stack, rest), "")
    else MarkupStep(AddText(stack, rest[..start]), rest[start + 1..])
  }

  /** The text right behind a `<`. */
  function MarkupStep(stack: seq<Open>, r: string): (p: Progress)
    ensures |p.1| <= |r|
  {
    if "/>" <= r then (stack, r[2..])
    else if !OpensMarkup(r) then (AddText(stack, "<"), r)
    else if "!--" <= r then
      match FindText(r, "-->") case None => (stack, "") case Some(n) => (stack, r[n + 3..])
    else
      var end := Find(r, '>');
      if end == |r| then (stack, "") else TagStep(stack, Trim(r[..end]), r[end + 1..])
  }

  /** The text `raw` of one tag, with `rest` behind it. */
  function TagStep(stack: seq<Open>, raw: string, rest: string): (p: Progress)
    ensures |p.1| <= |rest|
  {
    if raw != "" && (raw[0] == '!' || raw[0] == '?') then (stack, rest)
    else if raw != "" && raw[0] == '/' then (CloseTag(stack, AsciiLower(FirstWord(raw[1..]))), rest)
    else
      var parts := TagParts(Trim(DropFinalSlashes(raw)));
      ElementStep(stack, parts.0, parts.1, raw != "" && Last(raw) == '/', rest)
  }

  /** A start tag, or one that closes itself. */
  function ElementStep(stack: seq<Open>, tag: string, attrs: seq<(string, string)>, selfClosing: bool, rest: string)
    : (p: Progress)
    ensures |p.1| <= |rest|
  {
    if tag == "" then (stack, rest)
    else if IsDiscarded(tag) then
      if selfClosing then (stack, rest)
      else match FindText(AsciiLower(rest), "</" + tag) case None => (stack, "") case Some(n) => (stack, rest[n..])
    else if selfClosing || IsVoid(tag) then (AddChild(stack, Element(tag, attrs, [])), rest)
    else (stack + [Open(tag, attrs, [])], rest)
  }

  function Parse(stack: seq<Open>, rest: string): seq<Open>
    decreases |rest|
  {
    if rest == "" then stack else Parse(Step(stack, rest).0, Step(stack, rest).1)
  }

  const ROOT := Open("root", [], [])

  function ParseHtml(source: string): (root: Node)
    ensures root.Element?
  {
    var stack := CloseTo(Parse([ROOT], source), 1);
    if stack == [] then ToNode(ROOT) else ToNode(Last(stack))
  }

  /** `parse_html` as the program runs it: a cursor over the source and a stack of open elements. */
  method RunParseHtml(source: string) returns (root: Node)
    ensures root == ParseHtml(source)
  {
    var stack := [ROOT];
    var rest := source;
    while rest != ""
      invariant Parse(stack, rest) == Parse([ROOT], source)
      decreases |rest|
    {
      var start := Find(rest, '<');
      if start == |rest| {
        stack := AddText(stack, rest);
        rest := "";
        break;
      }
      stack := AddText(stack, rest[..start]);
      rest := rest[start + 1..];
      stack, rest := ReadMarkup(stack, rest);
    }
    stack := CloseTo(stack, 1);
    root := if stack == [] then ToNode(ROOT) else ToNode(Last(stack));
  }

  /** The part of the loop behind a `<`. */
  method ReadMarkup(stack: seq<Open>, source: string) returns (stack': seq<Open>, rest: string)
    ensures (stack', rest) == MarkupStep(stack, source)
  {
    stack', rest := stack, source;
    if "/>" <= rest {
      rest := rest[2..];
      return;
    }
    if !OpensMarkup(rest) {
      stack' := AddText(stack, "<");
      return;
    }
    if "!--" <= rest {
      var end := FindText(rest, "-->");
      rest := if end.Some? then rest[end.value + 3..] else "";
      return;
    }
    var end := Find(rest, '>');
    if end == |rest| {
      rest := "";
      return;
    }
    stack', rest := ReadTag(stack, Trim(rest[..end]), rest[end + 1..]);
  }

  /** The part of the loop behind a whole tag. */
  method ReadTag(stack: seq<Open>, raw: string, source: string) returns (stack': seq<Open>, rest: string)
    ensures (stack', rest) == TagStep(stack, raw, source)
  {
    stack', rest := stack, source;
    if raw != "" && (raw[0] == '!' || raw[0] == '?') {
      return;
    }
    if raw != "" && raw[0] == '/' {
      stack' := CloseElement(stack, AsciiLower(FirstWord(raw[1..])));
      return;
    }
    var selfClosing := raw != "" && Last(raw) == '/';
    var (tag, attrs) := TagParts(Trim(DropFinalSlashes(raw)));
    if tag == "" {
      return;
    }
    if IsDiscarded(tag) {
      if !selfClosing {
        var close := FindText(AsciiLower(rest), "</" + tag);
        rest := if close.Some? then rest[close.value..] else "";
      }
      return;
    }
    if selfClosing || IsVoid(tag) {
      stack' := AddChild(stack, Element(tag, attrs, []));
    } else {
      stack' := stack + [Open(tag, attrs, [])];
    }
  }

  /** The end tag: `rposition` over the stack, then the popping loop. */
  method CloseElement(stack: seq<Open>, name: string) returns (stack': seq<Open>)
    ensures stack' == CloseTag(stack, name)
  {
    stack' := stack;
    var position := |stack|;
    assert stack[..position] == stack;
    while position > 0 && stack[position - 1].tag != name
      invariant 0 <= position <= |stack|
      invariant Innermost(stack[..position], name) == Innermost(stack, name)
    {
      position := position - 1;
      assert Init(stack[..position + 1]) == stack[..position];
    }
    if position > 0 {
      while |stack'| > position - 1
        invariant CloseTo(stack', position - 1) == CloseTo(stack, position - 1)
      {
        var child := Last(stack');
        stack' := AddChild(Init(stack'), ToNode(child));
      }
    }
  }
}
