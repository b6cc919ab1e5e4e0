/** YAML frontmatter, read and written line by line (crates/mb-core/src/frontmatter.rs). */
module Frontmatter {
  import opened Strings

  datatype YamlValue = Scalar(text: string) | List(items: seq<string>) | Raw(lines: seq<string>)

  type Entry = (string, YamlValue)

  /** `extra` is a sorted map: its entries in strictly ascending order of their keys. */
  datatype Frontmatter = Frontmatter(id: Option<string>, created: Option<string>, updated: Option<string>,
                                     tags: seq<string>, aliases: seq<string>, icon: Option<string>, extra: seq<Entry>)

  const EMPTY := Frontmatter(None, None, None, [], [], None, [])

  // ---------------------------------------------------------------- the sorted map

  predicate Less(a: string, b: string) {
    b != "" && (a == "" || a[0] < b[0] || (a[0] == b[0] && Less(a[1..], b[1..])))
  }

  lemma {:induction false} LessIsStrict(a: string, b: string)
    requires Less(a, b)
    ensures a != b && !Less(b, a)
    decreases |a|
  {
    if a != "" && a[0] == b[0] {
      LessIsStrict(a[1..], b[1..]);
    }
  }

  predicate Sorted(entries: seq<Entry>) {
    forall i, j :: 0 <= i < j < |entries| ==> Less(entries[i].0, entries[j].0)
  }

  /** `BTreeMap::insert`. */
  function Insert(entries: seq<Entry>, key: string, value: YamlValue): seq<Entry> {
    if entries == [] then [(key, value)]
    else if entries[0].0 == key then [(key, value)] + entries[1..]
    else if Less(key, entries[0].0) then [(key, value)] + entries
    else [entries[0]] + Insert(entries[1..], key, value)
  }

  /** A key behind all others is added at the end. */
  lemma {:induction false} InsertLast(entries: seq<Entry>, key: string, value: YamlValue)
    requires forall e :: e in entries ==> Less(e.0, key)
    ensures Insert(entries, key, value) == entries + [(key, value)]
  {
    if entries != [] {
      assert entries[0] in entries;
      LessIsStrict(entries[0].0, key);
      InsertLast(entries[1..], key, value);
      assert entries == [entries[0]] + entries[1..];
    }
  }

  // ---------------------------------------------------------------- lines

  function Unlines(lines: seq<string>): string {
    if lines == [] then "" else lines[0] + "\n" + Unlines(lines[1..])
  }

  // ---------------------------------------------------------------- splitting a note

  function StripFence(input: string): Option<string> {
    if !("---" <= input) then None
    else
      var rest := if "\r" <= input[3..] then input[4..] else input[3..];
      if "\n" <= rest then Some(rest[1..]) else None
  }

  /** Where the first line ends, its line feed included. */
  function LineEnd(s: string): (n: nat)
    ensures n <= |s| && (s != "" ==> n > 0)
  {
    if Find(s, '\n') < |s| then Find(s, '\n') + 1 else |s|
  }

  /** A body and what follows it, if its closing fence was found. */
  type Parts = Option<(string, string)>

  function Prepend(line: string, parts: Parts): Parts {
    match parts case None => None case Some(p) => Some((line + p.0, p.1))
  }

  /** The body in front of the closing fence, and what follows it. */
  function SplitBody(text: string): Parts
    decreases |text|
  {
    if text == "" then None
    else
      var n := LineEnd(text);
      if TrimEnd(text[..n]) == "---" then Some(("", text[n..])) else Prepend(text[..n], SplitBody(text[n..]))
  }

  /** `split`: the body between the fences and the text behind them; without a closing fence, all of it is text. */
  function Split(input: string): (Option<string>, string) {
    match StripFence(input)
    case None => (None, input)
    case Some(text) => match SplitBody(text) case None => (None, input) case Some(p) => (Some(p.0), p.1)
  }

  lemma PrependStep(text: string, at: nat, n: nat, parts: Parts)
    requires at + n <= |text|
    ensures Prepend(text[..at], Prepend(text[at..][..n], parts)) == Prepend(text[..at + n], parts)
    ensures text[at..][n..] == text[at + n..]
  {
    if parts.Some? {
      assert text[..at] + (text[at..][..n] + parts.value.0) == text[..at + n] + parts.value.0;
    }
  }

  /** One line further, with everything in front of `at` already read. */
  lemma SplitBodyStep(text: string, at: nat, n: nat)
    requires at < |text| && n == LineEnd(text[at..])
    ensures Prepend(text[..at], SplitBody(text[at..]))
         == if TrimEnd(text[at..][..n]) == "---" then Some((text[..at], text[at + n..]))
            else Prepend(text[..at + n], SplitBody(text[at + n..]))
  {
    PrependStep(text, at, n, SplitBody(text[at + n..]));
    assert text[..at] + "" == text[..at];
  }

  lemma PrependNothing(parts: Parts)
    ensures Prepend("", parts) == parts
  {
    if parts.Some? {
      assert "" + parts.value.0 == parts.value.0;
    }
  }

  /** `split` as the program runs it: an offset that moves line by line. */
  method RunSplit(input: string) returns (body: Option<string>, rest: string)
    ensures (body, rest) == Split(input)
  {
    var fence := StripFence(input);
    if fence.None? {
      return None, input;
    }
    var text := fence.value;
    var offset := 0;
    PrependNothing(SplitBody(text));
    assert text[..offset] == "" && text[offset..] == text;
    while offset < |text|
      invariant 0 <= offset <= |text|
      invariant SplitBody(text) == Prepend(text[..offset], SplitBody(text[offset..]))
    {
      var n := LineEnd(text[offset..]);
      SplitBodyStep(text, offset, n);
      if TrimEnd(text[offset..][..n]) == "---" {
        return Some(text[..offset]), text[offset + n..];
      }
      offset := offset + n;
    }
    return None, input;
  }

  // ---------------------------------------------------------------- values

  function Unquote(text: string): string {
    var s := Trim(text);
    if |s| >= 2 && s[0] == '"' && Last(s) == '"' then s[1..|s| - 1]
    else if |s| >= 2 && s[0] == '\'' && Last(s) == '\'' then s[1..|s| - 1]
    else s
  }

  predicate Contains(s: string, pattern: string) {
    FindText(s, pattern).Some?
  }

  predicate NeedsQuotes(v: string) {
    || v == "" || Trim(v) != v
    || v[0] in {'[', '{', '"', '\'', '&', '*', '!', '|', '>', '%', '@', '`'}
    || Contains(v, ": ") || Contains(v, ", ") || Last(v) == ':'
  }

  function EscapeQuoted(v: string): string {
    if v == "" then "" else (if v[0] == '\\' || v[0] == '"' then ['\\', v[0]] else [v[0]]) + EscapeQuoted(v[1..])
  }

  /** `quote_if_needed`. */
  function Quote(v: string): string {
    if NeedsQuotes(v) then "\"" + EscapeQuoted(v) + "\"" else v
  }

  function UnquoteAll(parts: seq<string>): seq<string> {
    if parts == [] then [] else [Unquote(Trim(parts[0]))] + UnquoteAll(parts[1..])
  }

  function ParseFlowList(value: string): Option<seq<string>> {
    if |value| < 2 || value[0] != '[' || Last(value) != ']' then None
    else
      var inner := value[1..|value| - 1];
      Some(if Trim(inner) == "" then [] else UnquoteAll(SplitOn(inner, ',')))
  }

  // ---------------------------------------------------------------- the parser

  function SplitKey(line: string): Option<(string, string)> {
    if line != "" && (line[0] == ' ' || line[0] == '\t' || line[0] == '-') then None
    else
      var n := Find(line, ':');
      if n == |line| then None
      else
        var key := Trim(line[..n]);
        if key == "" || ' ' in key then None else Some((key, line[n + 1..]))
  }

  predicate IsTopKey(lines: seq<string>, i: nat) {
    i < |lines| && SplitKey(lines[i]).Some? && !(" " <= lines[i])
  }

  predicate IsBlockScalar(value: string) {
    && value != "" && (value[0] == '|' || value[0] == '>')
    && forall i :: 1 <= i < |value| ==> value[i] == '-' || value[i] == '+' || '0' <= value[i] <= '9'
  }

  predicate IsListStart(lines: seq<string>, i: nat) {
    i < |lines| && ("- " <= TrimStart(lines[i]) || Trim(lines[i]) == "-")
  }

  predicate IsIndented(lines: seq<string>, i: nat) {
    i < |lines| && (" " <= lines[i] || "\t" <= lines[i]) && Trim(lines[i]) != ""
  }

  /** Where the lines that are kept verbatim from `i` on end. */
  function RawEnd(lines: seq<string>, i: nat): (n: nat)
    requires i <= |lines|
    ensures i <= n <= |lines|
    decreases |lines| - i
  {
    if i == |lines| || (i > 0 && IsTopKey(lines, i)) then i
    else if IsTopKey(lines, i + 1) then i + 1
    else RawEnd(lines, i + 1)
  }

  function ListEnd(lines: seq<string>, i: nat): (n: nat)
    requires i <= |lines|
    ensures i <= n <= |lines|
    decreases |lines| - i
  {
    if IsListStart(lines, i) then ListEnd(lines, i + 1) else i
  }

  function IndentEnd(lines: seq<string>, i: nat): (n: nat)
    requires i <= |lines|
    ensures i <= n <= |lines|
    decreases |lines| - i
  {
    if IsIndented(lines, i) then IndentEnd(lines, i + 1) else i
  }

  function DropDashes(s: string): string {
    if s != "" && s[0] == '-' then DropDashes(s[1..]) else s
  }

  function ListItem(line: string): string {
    Unquote(Trim(DropDashes(TrimStart(line))))
  }

  function ListItems(lines: seq<string>): seq<string> {
    if lines == [] then [] else [ListItem(lines[0])] + ListItems(lines[1..])
  }

  function DropCommas(s: string): string {
    if s != "" && s[0] == ',' then DropCommas(s[1..]) else s
  }

  function DropEndCommas(s: string): string {
    if s != "" && Last(s) == ',' then DropEndCommas(Init(s)) else s
  }

  /** `split_inline_tags`: the words of a scalar, without commas around them. */
  function InlineTags(v: string): seq<string>
    decreases |v|
  {
    TrimStartKeepsInk(v);
    var s := TrimStart(v);
    if s == "" then []
    else
      var n := FindWhite(s);
      var word := DropEndCommas(DropCommas(s[..n]));
      assert n > 0;
      (if word == "" then [] else [word]) + InlineTags(s[n..])
  }

  function Assign(fm: Frontmatter, key: string, value: YamlValue): Frontmatter {
    if value.Scalar? && key == "id" then fm.(id := Some(value.text))
    else if value.Scalar? && key == "created" then fm.(created := Some(value.text))
    else if value.Scalar? && key == "updated" then fm.(updated := Some(value.text))
    else if value.Scalar? && key == "icon" then fm.(icon := Some(value.text))
    else if value.List? && key == "tags" then fm.(tags := value.items)
    else if value.List? && key == "aliases" then fm.(aliases := value.items)
    else if value.Scalar? && key == "tags" then fm.(tags := InlineTags(value.text))
    else if value.Scalar? && key == "aliases" then fm.(aliases := [value.text])
    else fm.(extra := Insert(fm.extra, key, value))
  }

  /** One round of the parser's loop at a line that holds text. */
  function ParseStep(lines: seq<string>, i: nat, fm: Frontmatter): (r: (nat, Frontmatter))
    requires i < |lines|
    ensures i < r.0 <= |lines|
  {
    if Trim(lines[i]) == "" then (i + 1, fm)
    else
      match SplitKey(lines[i])
      case None =>
        var n := RawEnd(lines, i);
        (n, fm.(extra := Insert(fm.extra, "~raw" + Decimal(n), Raw(lines[i..n]))))
      case Some((key, value)) => ParseValue(lines, i, fm, key, Trim(value))
  }

  function ParseValue(lines: seq<string>, i: nat, fm: Frontmatter, key: string, value: string): (r: (nat, Frontmatter))
    requires i < |lines|
    ensures i < r.0 <= |lines|
  {
    if value == "" && IsListStart(lines, i + 1) then
      var n := ListEnd(lines, i + 1);
      (n, Assign(fm, key, List(ListItems(lines[i + 1..n]))))
    else match ParseFlowList(value)
      case Some(items) => (i + 1, Assign(fm, key, List(items)))
      case None =>
        if (value == "" || IsBlockScalar(value)) && IsIndented(lines, i + 1) then
          var n := IndentEnd(lines, i + 1);
          (n, fm.(extra := Insert(fm.extra, key, Raw(lines[i..n]))))
        else (i + 1, Assign(fm, key, Scalar(Unquote(value))))
  }

  function ParseFrom(lines: seq<string>, i: nat, fm: Frontmatter): Frontmatter
    requires i <= |lines|
    decreases |lines| - i
  {
    if i == |lines| then fm
    else
      var next := ParseStep(lines, i, fm);
      ParseFrom(lines, next.0, next.1)
  }

  function Parse(body: string): Frontmatter {
    ParseFrom(Lines(body), 0, EMPTY)
  }

  /** `parse` as the program runs it: an index into the lines, and a frontmatter that is filled in. */
  method RunParse(body: string) returns (fm: Frontmatter)
    ensures fm == Parse(body)
  {
    fm := EMPTY;
    var lines := Lines(body);
    var i := 0;
    while i < |lines|
      invariant i <= |lines|
      invariant ParseFrom(lines, i, fm) == Parse(body)
    {
      var line := lines[i];
      if Trim(line) == "" {
        i := i + 1;
        continue;
      }
      var split := SplitKey(line);
      if split.None? {
        var block;
        block, i := CollectRaw(lines, i);
        fm := fm.(extra := Insert(fm.extra, "~raw" + Decimal(i), Raw(block)));
        continue;
      }
      i, fm := ReadValue(lines, i, fm, split.value.0, Trim(split.value.1));
    }
  }

  /** The part of the loop behind a key. */
  method ReadValue(lines: seq<string>, at: nat, before: Frontmatter, key: string, value: string)
    returns (i: nat, fm: Frontmatter)
    requires at < |lines|
    ensures (i, fm) == ParseValue(lines, at, before, key, value)
  {
    i, fm := at + 1, before;
    if value == "" && IsListStart(lines, i) {
      var items;
      items, i := CollectBlockList(lines, i);
      fm := Assign(fm, key, List(items));
      return;
    }
    var flow := ParseFlowList(value);
    if flow.Some? {
      fm := Assign(fm, key, List(flow.value));
    } else if (value == "" || IsBlockScalar(value)) && IsIndented(lines, i) {
      var block := [lines[at]];
      while IsIndented(lines, i)
        invariant at < i <= |lines|
        invariant block == lines[at..i] && IndentEnd(lines, i) == IndentEnd(lines, at + 1)
        decreases |lines| - i
      {
        SliceSnoc(lines, at, i);
        block := block + [lines[i]];
        i := i + 1;
      }
      fm := fm.(extra := Insert(fm.extra, key, Raw(block)));
    } else {
      fm := Assign(fm, key, Scalar(Unquote(value)));
    }
  }

  /** `collect_raw`. */
  method CollectRaw(lines: seq<string>, at: nat) returns (block: seq<string>, i: nat)
    requires at < |lines|
    ensures i == RawEnd(lines, at) && block == lines[at..i]
  {
    block, i := [], at;
    while i < |lines|
      invariant at <= i <= |lines|
      invariant block == lines[at..i] && RawEnd(lines, i) == RawEnd(lines, at)
    {
      if i > 0 && IsTopKey(lines, i) {
        break;
      }
      SliceSnoc(lines, at, i);
      block := block + [lines[i]];
      i := i + 1;
      if IsTopKey(lines, i) {
        break;
      }
    }
  }

  lemma SliceSnoc<T>(s: seq<T>, i: nat, j: nat)
    requires i <= j < |s|
    ensures s[i..j + 1] == s[i..j] + [s[j]]
  {
  }

  lemma {:induction false} ListItemsSnoc(lines: seq<string>, line: string)
    ensures ListItems(lines + [line]) == ListItems(lines) + [ListItem(line)]
  {
    if lines != [] {
      ListItemsSnoc(lines[1..], line);
      assert (lines + [line])[1..] == lines[1..] + [line];
    }
  }

  /** `collect_block_list`. */
  method CollectBlockList(lines: seq<string>, at: nat) returns (items: seq<string>, i: nat)
    requires at <= |lines|
    ensures i == ListEnd(lines, at) && items == ListItems(lines[at..i])
  {
    items, i := [], at;
    while IsListStart(lines, i)
      invariant at <= i <= |lines|
      invariant items == ListItems(lines[at..i]) && ListEnd(lines, i) == ListEnd(lines, at)
      decreases |lines| - i
    {
      var line := lines[i];
      SliceSnoc(lines, at, i);
      ListItemsSnoc(lines[at..i], line);
      items := items + [Unquote(Trim(DropDashes(TrimStart(line))))];
      i := i + 1;
    }
  }
}
