/** Rendering frontmatter, and what reading it back gives (crates/mb-core/src/frontmatter.rs). */
module FrontmatterRoundTrip {
  import opened Strings
  import opened Frontmatter

  // ---------------------------------------------------------------- rendering

  function QuoteAll(items: seq<string>): seq<string> {
    if items == [] then [] else [Quote(items[0])] + QuoteAll(items[1..])
  }

  /** `join(", ")`. */
  function Join(parts: seq<string>): string {
    if parts == [] then "" else if |parts| == 1 then parts[0] else parts[0] + (", " + Join(parts[1..]))
  }

  function Flow(items: seq<string>): string {
    "[" + Join(QuoteAll(items)) + "]"
  }

  function EntryLines(e: Entry): seq<string> {
    match e.1
    case Scalar(v) => [e.0 + ": " + Quote(v)]
    case List(items) => [e.0 + ": " + Flow(items)]
    case Raw(lines) => lines
  }

  function BodyLines(entries: seq<Entry>): seq<string> {
    if entries == [] then [] else EntryLines(entries[0]) + BodyLines(entries[1..])
  }

  function ScalarEntry(key: string, v: Option<string>): seq<Entry> {
    match v case None => [] case Some(text) => [(key, Scalar(text))]
  }

  function ListEntry(key: string, items: seq<string>): seq<Entry> {
    if items == [] then [] else [(key, List(items))]
  }

  /** The known keys in their fixed order. */
  function Known(fm: Frontmatter): seq<Entry> {
    ScalarEntry("id", fm.id) + ScalarEntry("created", fm.created) + ScalarEntry("updated", fm.updated)
    + ListEntry("tags", fm.tags) + ListEntry("aliases", fm.aliases) + ScalarEntry("icon", fm.icon)
  }

  function Body(fm: Frontmatter): string {
    Unlines(BodyLines(Known(fm) + fm.extra))
  }

  function Render(fm: Frontmatter): string {
    if fm == EMPTY then "" else "---\n" + Body(fm) + "---\n"
  }

  lemma {:induction false} UnlinesConcat(a: seq<string>, b: seq<string>)
    ensures Unlines(a + b) == Unlines(a) + Unlines(b)
  {
    if a == [] {
      assert a + b == b;
    } else {
      UnlinesConcat(a[1..], b);
      TailOfConcat(a, b);
      Associate(a[0] + "\n", Unlines(a[1..]), Unlines(b));
    }
  }

  lemma UnlinesOne(line: string)
    ensures Unlines([line]) == line + "\n"
  {
    assert [line][1..] == [];
    assert line + "\n" + "" == line + "\n";
  }

  lemma {:induction false} BodyLinesConcat(a: seq<Entry>, b: seq<Entry>)
    ensures BodyLines(a + b) == BodyLines(a) + BodyLines(b)
  {
    if a == [] {
      assert a + b == b;
    } else {
      BodyLinesConcat(a[1..], b);
      TailOfConcat(a, b);
      Associate(EntryLines(a[0]), BodyLines(a[1..]), BodyLines(b));
    }
  }

  function Text(entries: seq<Entry>): string {
    Unlines(BodyLines(entries))
  }

  lemma TextConcat(a: seq<Entry>, b: seq<Entry>)
    ensures Text(a + b) == Text(a) + Text(b)
  {
    BodyLinesConcat(a, b);
    UnlinesConcat(BodyLines(a), BodyLines(b));
  }

  lemma TextOne(e: Entry)
    ensures Text([e]) == Unlines(EntryLines(e))
  {
    assert BodyLines([e]) == EntryLines(e) + BodyLines([]);
    assert EntryLines(e) + [] == EntryLines(e);
  }

  /** `render` as the program runs it: every part appends to one string. */
  method RunRender(fm: Frontmatter) returns (out: string)
    ensures out == Render(fm)
  {
    if fm == EMPTY {
      return "";
    }
    out := "---\n";
    out := PushScalar(out, "id", fm.id);
    out := PushScalar(out, "created", fm.created);
    out := PushScalar(out, "updated", fm.updated);
    out := PushList(out, "tags", fm.tags);
    out := PushList(out, "aliases", fm.aliases);
    out := PushScalar(out, "icon", fm.icon);
    KnownText("---\n", fm);
    out := PushExtra(out, Known(fm), fm.extra);
    out := out + "---\n";
  }

  /** The user's keys, behind what is written for `before`. */
  method PushExtra(text: string, ghost before: seq<Entry>, extra: seq<Entry>) returns (out: string)
    requires text == "---\n" + Text(before)
    ensures out == "---\n" + Text(before + extra)
  {
    out := text;
    assert before + extra[..0] == before;
    for k := 0 to |extra|
      invariant out == "---\n" + Text(before + extra[..k])
    {
      out := PushEntry(out, extra[k]);
      Behind("---\n", before + extra[..k], [extra[k]]);
      assert before + extra[..k] + [extra[k]] == before + extra[..k + 1];
    }
    assert extra[..|extra|] == extra;
  }

  method PushScalar(before: string, key: string, v: Option<string>) returns (out: string)
    ensures out == before + Text(ScalarEntry(key, v))
  {
    out := before;
    if v.Some? {
      out := PushEntry(out, (key, Scalar(v.value)));
    }
  }

  method PushList(before: string, key: string, items: seq<string>) returns (out: string)
    ensures out == before + Text(ListEntry(key, items))
  {
    out := before;
    if items != [] {
      out := PushEntry(out, (key, List(items)));
    }
  }

  method PushEntry(before: string, e: Entry) returns (out: string)
    ensures out == before + Text([e])
  {
    out := before;
    TextOne(e);
    match e.1
    case Scalar(v) =>
      out := out + (e.0 + ": " + Quote(v) + "\n");
      UnlinesOne(e.0 + ": " + Quote(v));
    case List(items) =>
      out := out + (e.0 + ": " + Flow(items) + "\n");
      UnlinesOne(e.0 + ": " + Flow(items));
    case Raw(lines) =>
      for k := 0 to |lines|
        invariant out == before + Unlines(lines[..k])
      {
        UnlinesConcat(lines[..k], [lines[k]]);
        UnlinesOne(lines[k]);
        assert lines[..k + 1] == lines[..k] + [lines[k]];
        assert before + Unlines(lines[..k]) + (lines[k] + "\n") == before + (Unlines(lines[..k]) + (lines[k] + "\n"));
        out := out + (lines[k] + "\n");
      }
      assert lines[..|lines|] == lines;
  }

  lemma KnownText(base: string, fm: Frontmatter)
    ensures base + Text(ScalarEntry("id", fm.id)) + Text(ScalarEntry("created", fm.created))
            + Text(ScalarEntry("updated", fm.updated)) + Text(ListEntry("tags", fm.tags))
            + Text(ListEntry("aliases", fm.aliases)) + Text(ScalarEntry("icon", fm.icon))
         == base + Text(Known(fm))
  {
    var a := ScalarEntry("id", fm.id);
    var b := a + ScalarEntry("created", fm.created);
    var c := b + ScalarEntry("updated", fm.updated);
    var d := c + ListEntry("tags", fm.tags);
    var e := d + ListEntry("aliases", fm.aliases);
    Behind(base, a, ScalarEntry("created", fm.created));
    Behind(base, b, ScalarEntry("updated", fm.updated));
    Behind(base, c, ListEntry("tags", fm.tags));
    Behind(base, d, ListEntry("aliases", fm.aliases));
    Behind(base, e, ScalarEntry("icon", fm.icon));
  }

  lemma Behind(base: string, a: seq<Entry>, b: seq<Entry>)
    ensures base + Text(a) + Text(b) == base + Text(a + b)
  {
    TextConcat(a, b);
    assert base + Text(a) + Text(b) == base + (Text(a) + Text(b));
  }

  // ---------------------------------------------------------------- one value

  /** What a scalar reads back as. */
  function Reread(v: string): string {
    Unquote(Quote(v))
  }

  /** Quoting keeps a value exactly when it need not escape anything in it. */
  predicate Kept(v: string) {
    NeedsQuotes(v) ==> '"' !in v && '\\' !in v
  }

  lemma {:induction false} EscapeQuotedShape(v: string)
    ensures |EscapeQuoted(v)| >= |v|
    ensures EscapeQuoted(v) == v <==> '"' !in v && '\\' !in v
    ensures ('"' in v || '\\' in v) ==> |EscapeQuoted(v)| > |v|
    ensures forall c: char :: c != '\\' ==> (c in EscapeQuoted(v) <==> c in v)
  {
    if v != "" {
      EscapeQuotedShape(v[1..]);
      assert v == [v[0]] + v[1..];
    }
  }

  /** A quoted value is never empty, never starts or ends in white space, and never reads as a list or a block. */
  lemma QuoteShape(v: string)
    ensures var q := Quote(v); q != "" && !IsWhite(q[0]) && !IsWhite(Last(q)) && q[0] !in {'[', '|', '>'}
  {
    TrimShape(v);
  }

  lemma TrimBehindSpace(q: string)
    requires q != "" && !IsWhite(q[0]) && !IsWhite(Last(q))
    ensures Trim(" " + q) == q && Trim(q) == q
  {
    assert (" " + q)[1..] == q;
    TrimStartFixed(q);
    TrimEndFixed(q);
  }

  /** A scalar is read back unchanged exactly when it is kept. */
  lemma RereadIffKept(v: string)
    ensures Reread(v) == v <==> Kept(v)
  {
    QuoteShape(v);
    TrimBehindSpace(Quote(v));
    if NeedsQuotes(v) {
      EscapeQuotedShape(v);
      var q := Quote(v);
      assert q[1..|q| - 1] == EscapeQuoted(v);
    }
  }

  // ---------------------------------------------------------------- a list of values

  function RereadItems(items: seq<string>): seq<string> {
    if items == [] then [] else UnquoteAll(SplitOn(Join(QuoteAll(items)), ','))
  }

  predicate KeptItems(items: seq<string>) {
    forall item :: item in items ==> Kept(item) && ',' !in item
  }

  function Commas(s: string): nat {
    if s == "" then 0 else (if s[0] == ',' then 1 else 0) + Commas(s[1..])
  }

  lemma {:induction false} CommasConcat(a: string, b: string)
    ensures Commas(a + b) == Commas(a) + Commas(b)
  {
    if a == "" {
      assert a + b == b;
    } else {
      CommasConcat(a[1..], b);
      TailOfConcat(a, b);
    }
  }

  lemma {:induction false} CommasZero(s: string)
    ensures Commas(s) == 0 <==> ',' !in s
  {
    if s != "" {
      CommasZero(s[1..]);
      assert s == [s[0]] + s[1..];
    }
  }

  lemma {:induction false} SplitOnCounts(s: string)
    ensures |SplitOn(s, ',')| == 1 + Commas(s)
    decreases |s|
  {
    var n := Find(s, ',');
    CommasZero(s[..n]);
    if n == |s| {
      assert s[..n] == s;
    } else {
      SplitOnCounts(s[n + 1..]);
      CommasConcat(s[..n], s[n..]);
      assert s == s[..n] + s[n..] && s[n..][1..] == s[n + 1..];
    }
  }

  lemma {:induction false} UnquoteAllLength(parts: seq<string>)
    ensures |UnquoteAll(parts)| == |parts|
  {
    if parts != [] {
      UnquoteAllLength(parts[1..]);
    }
  }

  lemma QuoteHasComma(v: string)
    ensures ',' in Quote(v) <==> ',' in v
  {
    EscapeQuotedShape(v);
  }

  /** With a comma in an item, the list reads back longer than it was. */
  lemma {:induction false} JoinCommas(items: seq<string>)
    requires items != []
    ensures Commas(Join(QuoteAll(items))) >= |items| - 1
    ensures (exists item :: item in items && ',' in item) ==> Commas(Join(QuoteAll(items))) > |items| - 1
  {
    var q, more := Quote(items[0]), items[1..];
    QuoteHasComma(items[0]);
    CommasZero(q);
    assert items == [items[0]] + more;
    if more == [] {
      assert QuoteAll(items) == [q];
    } else {
      JoinCommas(more);
      CommasConcat(q, ", " + Join(QuoteAll(more)));
      CommasConcat(", ", Join(QuoteAll(more)));
      assert Commas(", ") == 1 by {
        assert ", "[1..] == " " && " "[1..] == "";
      }
      assert QuoteAll(items)[1..] == QuoteAll(more);
    }
  }

  lemma FirstPiece(q: string, more: string)
    requires ',' !in q
    ensures SplitOn(q + ("," + more), ',') == [q] + SplitOn(more, ',')
    ensures SplitOn(q, ',') == [q]
  {
    var s := q + ("," + more);
    FindIs(s, ',', |q|);
    FindIs(q, ',', |q|);
    assert s[..|q|] == q && s[|q| + 1..] == more;
  }

  function RereadAll(items: seq<string>): seq<string> {
    if items == [] then [] else [Reread(items[0])] + RereadAll(items[1..])
  }

  lemma JoinUnfolds(items: seq<string>)
    requires items != []
    ensures Join(QuoteAll(items))
         == if |items| == 1 then Quote(items[0]) else Quote(items[0]) + (", " + Join(QuoteAll(items[1..])))
  {
    assert QuoteAll(items)[1..] == QuoteAll(items[1..]);
    if |items| == 1 {
      assert QuoteAll(items) == [Quote(items[0])];
    } else {
      assert QuoteAll(items[1..]) != [];
    }
  }

  lemma FirstItem(first: string, more: string)
    requires ',' !in first
    ensures UnquoteAll(SplitOn(first + ("," + more), ',')) == [Unquote(Trim(first))] + UnquoteAll(SplitOn(more, ','))
    ensures UnquoteAll(SplitOn(first, ',')) == [Unquote(Trim(first))]
  {
    FirstPiece(first, more);
    assert ([first] + SplitOn(more, ','))[1..] == SplitOn(more, ',');
  }

  /** Without commas in them, the items are read back one by one. */
  lemma {:induction false} ItemsReadBack(items: seq<string>, lead: string)
    requires items != [] && (lead == "" || lead == " ")
    requires forall item :: item in items ==> ',' !in item
    ensures UnquoteAll(SplitOn(lead + Join(QuoteAll(items)), ',')) == RereadAll(items)
    decreases |items|
  {
    var q, more := Quote(items[0]), items[1..];
    QuoteHasComma(items[0]);
    PieceReadsBack(lead, items[0]);
    JoinUnfolds(items);
    if more == [] {
      FirstItem(lead + q, "");
    } else {
      ItemsReadBack(more, " ");
      var tail := Join(QuoteAll(more));
      CommaBehind(lead, q, tail);
      FirstItem(lead + q, " " + tail);
    }
  }

  lemma CommaBehind(lead: string, q: string, tail: string)
    ensures lead + (q + (", " + tail)) == (lead + q) + ("," + (" " + tail))
  {
  }

  lemma PieceReadsBack(lead: string, item: string)
    requires lead == "" || lead == " "
    ensures Unquote(Trim(lead + Quote(item))) == Reread(item)
  {
    QuoteShape(item);
    TrimBehindSpace(Quote(item));
    assert "" + Quote(item) == Quote(item);
  }

  lemma {:induction false} RereadAllIff(items: seq<string>)
    ensures |RereadAll(items)| == |items|
    ensures RereadAll(items) == items <==> forall item :: item in items ==> Kept(item)
  {
    if items != [] {
      var first, more := items[0], items[1..];
      RereadIffKept(first);
      RereadAllIff(more);
      assert items == [first] + more;
      assert RereadAll(items) == items <==> Reread(first) == first && RereadAll(more) == more;
    }
  }

  /** A list is read back unchanged exactly when every item is kept and none holds a comma. */
  lemma RereadItemsIffKept(items: seq<string>)
    ensures RereadItems(items) == items <==> KeptItems(items)
  {
    if items != [] {
      var text := Join(QuoteAll(items));
      if forall item :: item in items ==> ',' !in item {
        ItemsReadBack(items, "");
        assert "" + text == text;
        RereadAllIff(items);
      } else {
        JoinCommas(items);
        SplitOnCounts(text);
        UnquoteAllLength(SplitOn(text, ','));
      }
    }
  }
}
