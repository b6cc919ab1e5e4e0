/**
 * Building runs of inlines (`push` and its callers in crates/mb-core/src/canonical.rs), with the two facts
 * everything else rests on: a push either appends its item untouched or makes the run lighter, and it never
 * changes the ink.
 */
module Inlines {
  import opened Strings
  import opened Model
  import opened Syntax

  // ---------------------------------------------------------------- weight

  function TrailingUnderscores(t: string): nat {
    if t != "" && Last(t) == '_' then 1 + TrailingUnderscores(Init(t)) else 0
  }

  /** What every rewriting step lowers: nodes, text characters, and underscores a tag must still shed. */
  function Weight(item: Inline): (w: nat)
    ensures w > 0
    decreases item
  {
    match item
    case Text(t) => 1 + |t|
    case Mark(_, c) => 1 + WeightAll(c)
    case Link(_, _, c) => 1 + WeightAll(c)
    case Tag(t) => 1 + 3 * TrailingUnderscores(t)
    case _ => 1
  }

  function WeightAll(items: seq<Inline>): (w: nat)
    decreases items
  {
    if items == [] then 0 else WeightAll(Init(items)) + Weight(Last(items))
  }

  lemma {:induction false} WeightConcat(a: seq<Inline>, b: seq<Inline>)
    ensures WeightAll(a + b) == WeightAll(a) + WeightAll(b)
  {
    if b == [] {
      assert a + b == a;
    } else {
      InitOfConcat(a, b);
      WeightConcat(a, Init(b));
    }
  }

  lemma WeightSnoc(a: seq<Inline>, x: Inline)
    ensures WeightAll(a + [x]) == WeightAll(a) + Weight(x)
  {
    SnocInit(a, x);
  }

  // ---------------------------------------------------------------- ink

  /** What a reader can see and what a note refers to, without its marks, breaks and white space. */
  datatype Glyph =
    | Ch(c: char)
    | CodeCh(c: char)
    | MathCh(c: char)
    | Atom(item: Inline)
    | LinkOpen(dest: string, title: Option<string>)
    | LinkClose

  function PlainChars(s: string): seq<Glyph> {
    seq(|s|, i requires 0 <= i < |s| => Ch(s[i]))
  }

  function Chars(s: string): seq<Glyph> {
    PlainChars(NonWhite(s))
  }

  function CodeChars(s: string): seq<Glyph> {
    seq(|s|, i requires 0 <= i < |s| => CodeCh(s[i]))
  }

  function MathChars(s: string): seq<Glyph> {
    seq(|s|, i requires 0 <= i < |s| => MathCh(s[i]))
  }

  function Ink(item: Inline): seq<Glyph>
    decreases item
  {
    match item
    case Text(t) => Chars(t)
    case Mark(_, c) => InkAll(c)
    case Code(c) => CodeChars(c)
    case Math(m) => MathChars(m)
    case Link(d, t, c) => [LinkOpen(d, t)] + InkAll(c) + [LinkClose]
    case Tag(t) => [Ch('#')] + Chars(t)
    case SoftBreak => []
    case HardBreak => []
    case _ => [Atom(item)]
  }

  function InkAll(items: seq<Inline>): seq<Glyph>
    decreases items
  {
    if items == [] then [] else InkAll(Init(items)) + Ink(Last(items))
  }

  lemma {:induction false} InkConcat(a: seq<Inline>, b: seq<Inline>)
    ensures InkAll(a + b) == InkAll(a) + InkAll(b)
  {
    if b == [] {
      assert a + b == a;
    } else {
      InitOfConcat(a, b);
      InkConcat(a, Init(b));
      assert InkAll(a) + InkAll(Init(b)) + Ink(Last(b)) == InkAll(a) + (InkAll(Init(b)) + Ink(Last(b)));
    }
  }

  lemma InkSnoc(a: seq<Inline>, x: Inline)
    ensures InkAll(a + [x]) == InkAll(a) + Ink(x)
  {
    SnocInit(a, x);
  }

  lemma CharsConcat(a: string, b: string)
    ensures Chars(a + b) == Chars(a) + Chars(b)
  {
    NonWhiteConcat(a, b);
  }

  // ---------------------------------------------------------------- push

  /** A break takes the white space off the text in front of it, and the text too when nothing else is left. */
  function TrimBeforeBreak(out: seq<Inline>): seq<Inline> {
    if out == [] || !Last(out).Text? then out
    else
      var t := TrimEnd(Last(out).text);
      if t == "" then Init(out) else Init(out) + [Text(t)]
  }

  /** Whether the scanner, reading a tag and the text right after it, would take part of the text as tag. */
  predicate Absorbs(tag: string, text: string) {
    TagLength(tag + text).Some? && TagLength(tag + text).value > |tag|
  }

  /** Appends `item` to `out`, merging what renders the same and normalizing what no parse returns. */
  function Push(out: seq<Inline>, item: Inline): seq<Inline>
    decreases Weight(item), 1
  {
    if item == Text("") then out
    else if IsBreak(item) then PushBreak(TrimBeforeBreak(out), item)
    else if item.Tag? && item.name != "" && Last(item.name) == '_' then
      var name := Init(item.name);
      if name == "" then Push(out, Text("#_")) else Push(Push(out, Tag(name)), Text("_"))
    else if out == [] then [item]
    else if IsBreak(Last(out)) && item.Text? then out + [Text(TrimStart(item.text))]
    else PushLast(Init(out), Last(out), item)
  }

  /** Breaks never stand side by side: the two become one, which is hard if either was. */
  function PushBreak(out: seq<Inline>, item: Inline): seq<Inline> {
    if out == [] || !IsBreak(Last(out)) then out + [item]
    else if item.HardBreak? then Init(out) + [HardBreak]
    else out
  }

  /** The tail of `push`: tag absorption and merging with the item in front. */
  function PushLast(init: seq<Inline>, last: Inline, item: Inline): seq<Inline>
    decreases Weight(item), 0
  {
    if last.Tag? && item.Text? then
      if Absorbs(last.name, item.text) then init + Absorbed(last.name, item.text) else init + [last, item]
    else if last.Text? && item.Text? then init + [Text(last.text + item.text)]
    else if last.Code? && item.Code? then init + [Code(last.code + item.code)]
    else if last.Math? && item.Math? then init + [Math(last.tex + item.tex)]
    else if last.Mark? && item.Mark? && last.kind == item.kind then
      init + [Mark(last.kind, PushAll(last.children, item.children))]
    else init + [last, item]
  }

  /** A tag grown by the text behind it, and what is left of that text. */
  function Absorbed(tag: string, text: string): seq<Inline>
    requires Absorbs(tag, text)
  {
    var combined := tag + text;
    var n := TagLength(combined).value;
    if n == |combined| then [Tag(combined)] else [Tag(combined[..n]), Text(combined[n..])]
  }

  function PushAll(out: seq<Inline>, items: seq<Inline>): seq<Inline>
    decreases WeightAll(items), 2
  {
    if items == [] then out else Push(PushAll(out, Init(items)), Last(items))
  }

  // ---------------------------------------------------------------- when a push only appends

  /** Whether `item`, pushed behind `prev`, is simply appended: the normal form of two neighbours. */
  predicate Appends(prev: Option<Inline>, item: Inline) {
    && item != Text("")
    && (item.Tag? && item.name != "" ==> Last(item.name) != '_')
    && (prev.Some? ==> Apart(prev.value, item))
  }

  /** Neighbours that neither merge nor change each other. */
  predicate Apart(prev: Inline, item: Inline) {
    match prev
    case Text(t) => !item.Text? && (IsBreak(item) ==> t != "" && TrimEnd(t) == t)
    case SoftBreak => !IsBreak(item) && (item.Text? ==> TrimStart(item.text) == item.text)
    case HardBreak => !IsBreak(item) && (item.Text? ==> TrimStart(item.text) == item.text)
    case Tag(tag) => item.Text? ==> !Absorbs(tag, item.text)
    case Code(_) => !item.Code?
    case Math(_) => !item.Math?
    case Mark(k, _) => !(item.Mark? && item.kind == k)
    case _ => true
  }

  lemma TrimBeforeBreakWeight(out: seq<Inline>)
    ensures if out != [] && Last(out).Text? && (Last(out).text == "" || TrimEnd(Last(out).text) != Last(out).text)
            then WeightAll(TrimBeforeBreak(out)) < WeightAll(out)
            else TrimBeforeBreak(out) == out
  {
    if out != [] && Last(out).Text? {
      InitLast(out);
      TrimEndKeepsInk(Last(out).text);
      WeightSnoc(Init(out), Text(TrimEnd(Last(out).text)));
    }
  }

  lemma PushBreakWeight(out: seq<Inline>, item: Inline)
    requires IsBreak(item)
    ensures if out != [] && IsBreak(Last(out)) then WeightAll(PushBreak(out, item)) < WeightAll(out) + Weight(item)
            else PushBreak(out, item) == out + [item]
  {
    if out != [] {
      InitLast(out);
      WeightSnoc(Init(out), HardBreak);
    }
  }

  lemma PushTagWeight(out: seq<Inline>, tag: string)
    requires tag != "" && Last(tag) == '_'
    ensures WeightAll(Push(out, Tag(tag))) < WeightAll(out) + Weight(Tag(tag))
    decreases Weight(Tag(tag)), 0
  {
    var name := Init(tag);
    if name == "" {
      PushWeight(out, Text("#_"));
      WeightSnoc(out, Text("#_"));
    } else {
      PushWeight(out, Tag(name));
      WeightSnoc(out, Tag(name));
      var next := Push(out, Tag(name));
      PushWeight(next, Text("_"));
      WeightSnoc(next, Text("_"));
    }
  }

  /** A push appends its item exactly when the neighbours are in normal form; otherwise the run gets lighter. */
  lemma {:induction false} PushWeight(out: seq<Inline>, item: Inline)
    ensures if Appends(LastOption(out), item) then Push(out, item) == out + [item]
            else WeightAll(Push(out, item)) < WeightAll(out) + Weight(item)
    decreases Weight(item), 2
  {
    if item == Text("") {
    } else if IsBreak(item) {
      BreakWeight(out, item);
    } else if item.Tag? && item.name != "" && Last(item.name) == '_' {
      PushTagWeight(out, item.name);
    } else if out != [] {
      BehindWeight(out, item);
    }
  }

  lemma BehindBreakWeight(out: seq<Inline>, text: string)
    requires out != [] && IsBreak(Last(out)) && text != ""
    ensures if TrimStart(text) == text then Push(out, Text(text)) == out + [Text(text)]
            else WeightAll(Push(out, Text(text))) < WeightAll(out) + Weight(Text(text))
  {
    TrimStartKeepsInk(text);
    WeightSnoc(out, Text(TrimStart(text)));
  }

  lemma {:induction false} BehindWeight(out: seq<Inline>, item: Inline)
    requires out != [] && item != Text("") && !IsBreak(item)
    requires !(item.Tag? && item.name != "" && Last(item.name) == '_')
    ensures if Apart(Last(out), item) then Push(out, item) == out + [item]
            else WeightAll(Push(out, item)) < WeightAll(out) + Weight(item)
    decreases Weight(item), 1
  {
    if IsBreak(Last(out)) && item.Text? {
      BehindBreakWeight(out, item.text);
    } else {
      PushLastWeight(Init(out), Last(out), item);
      assert Init(out) + [Last(out), item] == out + [item];
    }
  }

  lemma BreakWeight(out: seq<Inline>, item: Inline)
    requires IsBreak(item)
    ensures if Appends(LastOption(out), item) then Push(out, item) == out + [item]
            else WeightAll(Push(out, item)) < WeightAll(out) + Weight(item)
  {
    TrimBeforeBreakWeight(out);
    PushBreakWeight(TrimBeforeBreak(out), item);
    WeightSnoc(TrimBeforeBreak(out), item);
  }

  lemma AbsorbedWeight(init: seq<Inline>, tag: string, text: string)
    requires Absorbs(tag, text)
    ensures WeightAll(init + Absorbed(tag, text)) < WeightAll(init) + Weight(Tag(tag)) + Weight(Text(text))
  {
    var combined := tag + text;
    var n := TagLength(combined).value;
    TagLengthShape(combined);
    var taken := combined[..n];
    assert Last(taken) != '_';
    WeightSnoc(init, Tag(taken));
    if n == |combined| {
      assert taken == combined;
    } else {
      WeightSnoc(init + [Tag(taken)], Text(combined[n..]));
      assert init + [Tag(taken)] + [Text(combined[n..])] == init + Absorbed(tag, text);
    }
  }

  lemma {:induction false} PushLastWeight(init: seq<Inline>, last: Inline, item: Inline)
    requires !IsBreak(item) && !(IsBreak(last) && item.Text?)
    ensures if Apart(last, item) then PushLast(init, last, item) == init + [last, item]
            else WeightAll(PushLast(init, last, item)) < WeightAll(init) + Weight(last) + Weight(item)
    decreases Weight(item), 0
  {
    if last.Tag? && item.Text? {
      if Absorbs(last.name, item.text) {
        AbsorbedWeight(init, last.name, item.text);
      }
    } else if last.Text? && item.Text? {
      WeightSnoc(init, Text(last.text + item.text));
    } else if last.Code? && item.Code? {
      WeightSnoc(init, Code(last.code + item.code));
    } else if last.Math? && item.Math? {
      WeightSnoc(init, Math(last.tex + item.tex));
    } else if last.Mark? && item.Mark? && last.kind == item.kind {
      WeightSnoc(init, Mark(last.kind, PushAll(last.children, item.children)));
      PushAllWeight(last.children, item.children);
    }
  }

  /** Pushing a whole run never makes it heavier, and keeps its weight only when it just appends. */
  lemma {:induction false} PushAllWeight(out: seq<Inline>, items: seq<Inline>)
    ensures WeightAll(PushAll(out, items)) <= WeightAll(out) + WeightAll(items)
    ensures WeightAll(PushAll(out, items)) == WeightAll(out) + WeightAll(items) ==> PushAll(out, items) == out + items
    decreases WeightAll(items), 3
  {
    if items == [] {
      assert out + items == out;
    } else {
      var before := PushAll(out, Init(items));
      PushAllWeight(out, Init(items));
      PushWeight(before, Last(items));
      WeightSnoc(before, Last(items));
      InitLast(items);
      if before == out + Init(items) {
        assert before + [Last(items)] == out + items;
      }
    }
  }

  /** Position `i` is in normal form with the item in front of it. */
  predicate SpacedAt(items: seq<Inline>, i: nat)
    requires i < |items|
  {
    Appends(if i == 0 then None else Some(items[i - 1]), items[i])
  }

  /** A run no push would change: every neighbouring pair is in normal form. */
  predicate Spaced(items: seq<Inline>) {
    forall i: nat | i < |items| :: SpacedAt(items, i)
  }

  lemma SpacedConcat(a: seq<Inline>, b: seq<Inline>)
    requires Spaced(a + b)
    ensures Spaced(a) && (b != [] ==> Appends(LastOption(a), b[0]))
  {
    var all := a + b;
    forall i: nat | i < |a| ensures SpacedAt(a, i) {
      assert SpacedAt(all, i);
    }
    if b != [] {
      assert SpacedAt(all, |a|);
    }
  }

  lemma SpacedSnoc(items: seq<Inline>, x: Inline)
    ensures Spaced(items + [x]) <==> Spaced(items) && Appends(LastOption(items), x)
  {
    var all := items + [x];
    if Spaced(all) {
      SpacedConcat(items, [x]);
    }
    if Spaced(items) && Appends(LastOption(items), x) {
      forall i: nat | i < |all| ensures SpacedAt(all, i) {
        if i < |items| {
          assert SpacedAt(items, i);
        }
      }
    }
  }

  /** A run is left alone by being built again exactly when it is spaced. */
  lemma {:induction false} SpacedIffPushable(items: seq<Inline>)
    ensures Spaced(items) <==> PushAll([], items) == items
    decreases |items|
  {
    if items != [] {
      var init, last := Init(items), Last(items);
      InitLast(items);
      SpacedIffPushable(init);
      SpacedSnoc(init, last);
      PushAllWeight([], init);
      PushWeight(PushAll([], init), last);
      WeightSnoc(init, last);
      WeightSnoc(PushAll([], init), last);
      assert [] + init == init;
    }
  }

  // ---------------------------------------------------------------- ink is conserved

  lemma TagCharIsInk(c: char)
    requires IsTagChar(c)
    ensures !IsWhite(c)
  {
  }

  /** A push keeps every glyph, in order. */
  lemma {:induction false} PushInk(out: seq<Inline>, item: Inline)
    ensures InkAll(Push(out, item)) == InkAll(out) + Ink(item)
    decreases Weight(item), 1
  {
    InkSnoc(out, item);
    if item == Text("") {
      assert Chars("") == [];
    } else if IsBreak(item) {
      TrimBeforeBreakInk(out);
      PushBreakInk(TrimBeforeBreak(out), item);
      BreakAddsNoInk(out, item);
    } else if item.Tag? && item.name != "" && Last(item.name) == '_' {
      PushTagInk(out, item.name);
    } else if out == [] {
      assert out + [item] == [item];
    } else if IsBreak(Last(out)) && item.Text? {
      TrimStartKeepsInk(item.text);
      InkSnoc(out, Text(TrimStart(item.text)));
    } else {
      PushLastInk(Init(out), Last(out), item);
    }
  }

  lemma PushBreakInk(out: seq<Inline>, item: Inline)
    requires IsBreak(item)
    ensures InkAll(PushBreak(out, item)) == InkAll(out)
  {
    BreakAddsNoInk(out, item);
    if out != [] && IsBreak(Last(out)) {
      BreakAddsNoInk(Init(out), HardBreak);
      BreakAddsNoInk(Init(out), Last(out));
      InitLast(out);
    }
  }

  lemma BreakAddsNoInk(out: seq<Inline>, item: Inline)
    requires IsBreak(item)
    ensures InkAll(out + [item]) == InkAll(out)
  {
    InkSnoc(out, item);
    assert InkAll(out) + [] == InkAll(out);
  }

  lemma TrimBeforeBreakInk(out: seq<Inline>)
    ensures InkAll(TrimBeforeBreak(out)) == InkAll(out)
  {
    if out != [] && Last(out).Text? {
      TrimEndKeepsInk(Last(out).text);
      InkSnoc(Init(out), Text(TrimEnd(Last(out).text)));
    }
  }

  lemma PushTagInk(out: seq<Inline>, tag: string)
    requires tag != "" && Last(tag) == '_'
    ensures InkAll(Push(out, Tag(tag))) == InkAll(out) + Ink(Tag(tag))
    decreases Weight(Tag(tag)), 0
  {
    var name := Init(tag);
    InitLast(tag);
    CharsConcat(name, "_");
    if name == "" {
      PushInk(out, Text("#_"));
      HashUnderscore();
      assert tag == "_";
    } else {
      PushInk(out, Tag(name));
      PushInk(Push(out, Tag(name)), Text("_"));
      Associate(InkAll(out), Ink(Tag(name)), Chars("_"));
      Associate([Ch('#')], Chars(name), Chars("_"));
    }
  }

  lemma HashUnderscore()
    ensures Chars("#_") == [Ch('#')] + Chars("_")
  {
    assert Init("#_") == "#" && Init("#") == "" && Init("_") == "";
    assert NonWhite("#_") == "#_" && NonWhite("_") == "_";
  }

  lemma InkPair(init: seq<Inline>, a: Inline, b: Inline)
    ensures InkAll(init + [a, b]) == InkAll(init) + (Ink(a) + Ink(b))
  {
    InkSnoc(init, a);
    InkSnoc(init + [a], b);
    assert init + [a] + [b] == init + [a, b];
    Associate(InkAll(init), Ink(a), Ink(b));
  }

  lemma AbsorbedInk(tag: string, text: string)
    requires Absorbs(tag, text)
    ensures InkAll(Absorbed(tag, text)) == Ink(Tag(tag)) + Ink(Text(text))
  {
    var combined := tag + text;
    var n := TagLength(combined).value;
    var taken, rest := combined[..n], combined[n..];
    CharsConcat(tag, text);
    Associate([Ch('#')], Chars(tag), Chars(text));
    if n == |combined| {
      InkSnoc([], Tag(combined));
      assert [] + [Tag(combined)] == Absorbed(tag, text);
      assert InkAll([]) + Ink(Tag(combined)) == Ink(Tag(combined));
    } else {
      assert taken + rest == combined;
      CharsConcat(taken, rest);
      Associate([Ch('#')], Chars(taken), Chars(rest));
      InkPair([], Tag(taken), Text(rest));
      assert [] + [Tag(taken), Text(rest)] == Absorbed(tag, text);
      assert InkAll([]) + (Ink(Tag(taken)) + Ink(Text(rest))) == Ink(Tag(taken)) + Ink(Text(rest));
    }
  }

  lemma {:induction false} PushLastInk(init: seq<Inline>, last: Inline, item: Inline)
    ensures InkAll(PushLast(init, last, item)) == InkAll(init + [last]) + Ink(item)
    decreases Weight(item), 0
  {
    InkSnoc(init, last);
    Associate(InkAll(init), Ink(last), Ink(item));
    if last.Tag? && item.Text? && Absorbs(last.name, item.text) {
      AbsorbedInk(last.name, item.text);
      InkConcat(init, Absorbed(last.name, item.text));
    } else if last.Text? && item.Text? {
      CharsConcat(last.text, item.text);
      InkSnoc(init, Text(last.text + item.text));
    } else if last.Code? && item.Code? {
      InkSnoc(init, Code(last.code + item.code));
      assert CodeChars(last.code + item.code) == CodeChars(last.code) + CodeChars(item.code);
    } else if last.Math? && item.Math? {
      InkSnoc(init, Math(last.tex + item.tex));
      assert MathChars(last.tex + item.tex) == MathChars(last.tex) + MathChars(item.tex);
    } else if last.Mark? && item.Mark? && last.kind == item.kind {
      PushAllInk(last.children, item.children);
      InkSnoc(init, Mark(last.kind, PushAll(last.children, item.children)));
    } else {
      InkPair(init, last, item);
    }
  }

  lemma {:induction false} PushAllInk(out: seq<Inline>, items: seq<Inline>)
    ensures InkAll(PushAll(out, items)) == InkAll(out) + InkAll(items)
    decreases WeightAll(items), 2
  {
    if items != [] {
      PushAllInk(out, Init(items));
      PushInk(PushAll(out, Init(items)), Last(items));
      Associate(InkAll(out), InkAll(Init(items)), Ink(Last(items)));
    }
  }
}
