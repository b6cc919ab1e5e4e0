/** Elements as the renderer writes them, and the text they are written as (crates/mb-core/src/html.rs). */
module HtmlTree {
  import opened Strings
  import opened Escaping

  /** An attribute; one without a value is written as its bare name. */
  datatype Attr = Attr(name: string, value: Option<string>)

  datatype Markup =
    | Chars(text: string)
    | Tag(name: string, attrs: seq<Attr>, content: seq<Markup>)
    | Void(name: string, attrs: seq<Attr>)

  function AttrText(a: Attr): string {
    match a.value
    case None => " " + a.name
    case Some(v) => " " + a.name + "=\"" + EscapeAttr(v) + "\""
  }

  function AttrsText(attrs: seq<Attr>): string {
    if attrs == [] then "" else AttrText(attrs[0]) + AttrsText(attrs[1..])
  }

  /** The markup of a run of elements: every start tag has its end tag, properly nested. */
  function Serialize(run: seq<Markup>): string
    decreases run
  {
    if run == [] then "" else SerializeOne(run[0]) + Serialize(run[1..])
  }

  function SerializeOne(m: Markup): string
    decreases m
  {
    match m
    case Chars(t) => EscapeText(t)
    case Tag(n, attrs, content) => StartTag(n, attrs) + Serialize(content) + EndTag(n)
    case Void(n, attrs) => "<" + n + AttrsText(attrs) + " />"
  }

  function StartTag(n: string, attrs: seq<Attr>): string {
    "<" + n + AttrsText(attrs) + ">"
  }

  function EndTag(n: string): string {
    "</" + n + ">"
  }

  /** The same text in front of `rest`. */
  function SerializeOnto(run: seq<Markup>, rest: string): string
    decreases run
  {
    if run == [] then rest else SerializeOneOnto(run[0], SerializeOnto(run[1..], rest))
  }

  function SerializeOneOnto(m: Markup, rest: string): string
    decreases m
  {
    match m
    case Chars(t) => EscapeText(t) + rest
    case Tag(n, attrs, content) =>
      "<" + ((n + AttrsText(attrs)) + (">" + SerializeOnto(content, "<" + (("/" + n) + (">" + rest)))))
    case Void(n, attrs) => "<" + ((n + AttrsText(attrs)) + (" />" + rest))
  }

  lemma {:induction false} SerializeOntoIsConcat(run: seq<Markup>, rest: string)
    ensures SerializeOnto(run, rest) == Serialize(run) + rest
    decreases run
  {
    if run == [] {
      assert "" + rest == rest;
    } else {
      SerializeOntoIsConcat(run[1..], rest);
      SerializeOneOntoIsConcat(run[0], SerializeOnto(run[1..], rest));
      Associate(SerializeOne(run[0]), Serialize(run[1..]), rest);
    }
  }

  lemma {:induction false} SerializeOneOntoIsConcat(m: Markup, rest: string)
    ensures SerializeOneOnto(m, rest) == SerializeOne(m) + rest
    decreases m
  {
    match m
    case Chars(t) =>
    case Tag(n, attrs, content) =>
      SerializeOntoIsConcat(content, "<" + (("/" + n) + (">" + rest)));
      TagRegroups(n, AttrsText(attrs), Serialize(content), rest);
    case Void(n, attrs) => VoidRegroups(n, AttrsText(attrs), rest);
  }

  lemma TagRegroups(n: string, a: string, inner: string, rest: string)
    ensures "<" + ((n + a) + (">" + (inner + ("<" + (("/" + n) + (">" + rest))))))
         == ("<" + n + a + ">") + inner + ("</" + n + ">") + rest
  {
  }

  lemma VoidRegroups(n: string, a: string, rest: string)
    ensures "<" + ((n + a) + (" />" + rest)) == "<" + n + a + " />" + rest
  {
  }

  lemma {:induction false} SerializeConcat(a: seq<Markup>, b: seq<Markup>)
    ensures Serialize(a + b) == Serialize(a) + Serialize(b)
    decreases |a|
  {
    if a == [] {
      assert a + b == b;
    } else {
      SerializeConcat(a[1..], b);
      TailOfConcat(a, b);
      Associate(SerializeOne(a[0]), Serialize(a[1..]), Serialize(b));
    }
  }

  lemma AttrsTextUnfolds(first: Attr, more: seq<Attr>)
    ensures AttrsText([first] + more) == AttrText(first) + AttrsText(more)
  {
    assert ([first] + more)[1..] == more;
  }

  lemma {:induction false} AttrsTextConcat(a: seq<Attr>, b: seq<Attr>)
    ensures AttrsText(a + b) == AttrsText(a) + AttrsText(b)
    decreases |a|
  {
    if a == [] {
      assert a + b == b;
    } else {
      var first, more := a[0], a[1..];
      assert a == [first] + more && a + b == [first] + (more + b);
      AttrsTextConcat(more, b);
      AttrsTextUnfolds(first, more + b);
      AttrsTextUnfolds(first, more);
      Associate(AttrText(first), AttrsText(more), AttrsText(b));
    }
  }

  /** The raw text of a run: what was handed to the text escaper, in order. */
  function RawText(run: seq<Markup>): string
    decreases run
  {
    if run == [] then ""
    else
      (match run[0]
       case Chars(t) => t
       case Tag(_, _, content) => RawText(content)
       case Void(_, _) => "") + RawText(run[1..])
  }
}
