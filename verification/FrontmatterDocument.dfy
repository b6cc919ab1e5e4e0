/** Rendered frontmatter in front of a note: splitting it off again and parsing it (crates/mb-core/src/frontmatter.rs). */
module FrontmatterDocument {
  import opened Strings
  import opened Frontmatter
  import opened FrontmatterRoundTrip

  // ---------------------------------------------------------------- splitting it off

  /** A line of its own, which is not the closing fence. */
  predicate BodyLine(line: string) {
    '\n' !in line && TrimEnd(line) != "---"
  }

  lemma TrimEndNewline(line: string)
    ensures TrimEnd(line + "\n") == TrimEnd(line)
  {
    assert (line + "\n")[..|line|] == line;
  }

  lemma LineSplits(line: string, more: string)
    requires '\n' !in line
    ensures LineEnd(line + "\n" + more) == |line| + 1
    ensures (line + "\n" + more)[..|line| + 1] == line + "\n" && (line + "\n" + more)[|line| + 1..] == more
  {
    FindIs(line + "\n" + more, '\n', |line|);
  }

  lemma FenceCloses(rest: string)
    ensures SplitBody("---\n" + rest) == Some(("", rest))
  {
    LineSplits("---", rest);
    assert "---" + "\n" + rest == "---\n" + rest && "---" + "\n" == "---\n";
    TrimEndNewline("---");
    TrimEndFixed("---");
  }

  lemma BodyStep(line: string, more: string)
    requires BodyLine(line)
    ensures SplitBody(line + "\n" + more) == Prepend(line + "\n", SplitBody(more))
  {
    LineSplits(line, more);
    TrimEndNewline(line);
  }

  /** Whatever lines stand between the fences, and whatever follows, the split finds the same place again. */
  lemma {:induction false} SplitFindsTheBody(lines: seq<string>, rest: string)
    requires forall line :: line in lines ==> BodyLine(line)
    ensures SplitBody(Unlines(lines) + ("---\n" + rest)) == Some((Unlines(lines), rest))
  {
    if lines == [] {
      FenceCloses(rest);
      assert "" + ("---\n" + rest) == "---\n" + rest;
    } else {
      var line, more := lines[0], lines[1..];
      SplitFindsTheBody(more, rest);
      Associate(line + "\n", Unlines(more), "---\n" + rest);
      BodyStep(line, Unlines(more) + ("---\n" + rest));
    }
  }

  lemma SplitUndoesRender(fm: Frontmatter, rest: string)
    requires fm != EMPTY
    requires forall line :: line in BodyLines(Known(fm) + fm.extra) ==> BodyLine(line)
    ensures Split(Render(fm) + rest) == (Some(Body(fm)), rest)
  {
    SplitFindsTheBody(BodyLines(Known(fm) + fm.extra), rest);
    FenceOpens(Body(fm), rest);
  }

  lemma FenceOpens(body: string, rest: string)
    ensures StripFence("---\n" + body + "---\n" + rest) == Some(body + ("---\n" + rest))
  {
    var input := "---\n" + body + "---\n" + rest;
    assert input == "---\n" + (body + ("---\n" + rest));
    assert input[3] == '\n';
    assert input[3..][1..] == body + ("---\n" + rest);
  }

  // ---------------------------------------------------------------- the lines of the body

  lemma {:induction false} LinesUndoUnlines(lines: seq<string>)
    requires forall line :: line in lines ==> '\n' !in line && (line == "" || Last(line) != '\r')
    ensures Lines(Unlines(lines)) == lines
  {
    if lines != [] {
      var line, more := lines[0], lines[1..];
      LinesUndoUnlines(more);
      assert '\n' !in line && StripCr(line) == line;
      LinesUnfold(line, Unlines(more));
    }
  }

  // ---------------------------------------------------------------- one entry

  /** A key that a line can start with. */
  predicate GoodKey(key: string) {
    key != "" && Trim(key) == key && key[0] != '-' && ' ' !in key && ':' !in key && '\n' !in key
  }

  /** Keys that the parser claims for its own fields. */
  predicate Claimed(key: string, value: YamlValue) {
    || (value.Scalar? && key in {"id", "created", "updated", "icon", "tags", "aliases"})
    || (value.List? && key in {"tags", "aliases"})
  }

  predicate OneLine(value: YamlValue) {
    match value
    case Scalar(v) => '\n' !in v
    case List(items) => forall item :: item in items ==> '\n' !in item
    case Raw(_) => false
  }

  predicate GoodEntry(e: Entry) {
    GoodKey(e.0) && OneLine(e.1)
  }

  /** The text behind a key; a verbatim block has none. */
  function ValueText(value: YamlValue): string {
    match value case Scalar(v) => Quote(v) case List(items) => Flow(items) case Raw(_) => ""
  }

  function RereadValue(value: YamlValue): YamlValue {
    match value case Scalar(v) => Scalar(Reread(v)) case List(items) => List(RereadItems(items)) case Raw(_) => value
  }

  function EntryLine(e: Entry): string {
    e.0 + ": " + ValueText(e.1)
  }

  lemma FlowShape(items: seq<string>)
    ensures Flow(items) != "" && Flow(items)[0] == '[' && Last(Flow(items)) == ']'
    ensures ParseFlowList(Flow(items)) == Some(RereadItems(items))
  {
    var inner := Join(QuoteAll(items));
    assert Flow(items)[1..|Flow(items)| - 1] == inner;
    if items == [] {
      assert inner == "";
    } else {
      JoinUnfolds(items);
      QuoteShape(items[0]);
      TrimIsInk(inner);
    }
  }

  /** Text that starts with ink is not blank. */
  lemma TrimIsInk(s: string)
    requires s != "" && !IsWhite(s[0])
    ensures Trim(s) != ""
  {
    TrimStartFixed(s);
    TrimEndKeepsInk(s);
  }

  lemma ValueShape(value: YamlValue)
    requires !value.Raw?
    ensures var t := ValueText(value); t != "" && !IsWhite(t[0]) && !IsWhite(Last(t)) && Trim(" " + t) == t
  {
    if value.Scalar? {
      QuoteShape(value.text);
    } else {
      FlowShape(value.items);
    }
    TrimBehindSpace(ValueText(value));
  }

  lemma KeyIsSplit(key: string, tail: string)
    requires GoodKey(key)
    ensures SplitKey(key + ":" + tail) == Some((key, tail))
    ensures Trim(key + ":" + tail) != ""
  {
    var line := key + ":" + tail;
    TrimShape(key);
    TrimIsInk(line);
    FindIs(line, ':', |key|);
    assert line[0] == key[0] && line[..|key|] == key && line[|key| + 1..] == tail;
  }

  /** One rendered line is read as the one value it was rendered from. */
  lemma EntryReadsBack(lines: seq<string>, i: nat, fm: Frontmatter, e: Entry)
    requires i < |lines| && GoodKey(e.0) && !e.1.Raw? && lines[i] == EntryLine(e)
    ensures ParseStep(lines, i, fm) == (i + 1, Assign(fm, e.0, RereadValue(e.1)))
  {
    var text := ValueText(e.1);
    ValueShape(e.1);
    assert EntryLine(e) == e.0 + ":" + (" " + text);
    KeyIsSplit(e.0, " " + text);
    if e.1.Scalar? {
      QuoteShape(e.1.text);
      assert ParseFlowList(text).None?;
    } else {
      FlowShape(e.1.items);
    }
  }

  // ---------------------------------------------------------------- all entries

  function RereadEntries(entries: seq<Entry>): seq<Entry> {
    if entries == [] then [] else [(entries[0].0, RereadValue(entries[0].1))] + RereadEntries(entries[1..])
  }

  function AssignAll(fm: Frontmatter, entries: seq<Entry>): Frontmatter
    decreases |entries|
  {
    if entries == [] then fm else AssignAll(Assign(fm, entries[0].0, entries[0].1), entries[1..])
  }

  function EntryTexts(entries: seq<Entry>): seq<string> {
    if entries == [] then [] else [EntryLine(entries[0])] + EntryTexts(entries[1..])
  }

  lemma {:induction false} BodyIsEntryTexts(entries: seq<Entry>)
    requires forall e :: e in entries ==> !e.1.Raw?
    ensures BodyLines(entries) == EntryTexts(entries)
  {
    if entries != [] {
      BodyIsEntryTexts(entries[1..]);
    }
  }

  lemma {:induction false} EntriesReadBack(before: seq<string>, entries: seq<Entry>, fm: Frontmatter)
    requires forall e :: e in entries ==> GoodEntry(e)
    ensures ParseFrom(before + EntryTexts(entries), |before|, fm) == AssignAll(fm, RereadEntries(entries))
    decreases |entries|
  {
    if entries != [] {
      var e, more := entries[0], entries[1..];
      assert GoodEntry(e);
      EntriesReadBack(before + [EntryLine(e)], more, Assign(fm, e.0, RereadValue(e.1)));
      Associate(before, [EntryLine(e)], EntryTexts(more));
      FirstEntryReadsBack(before, e, EntryTexts(more), fm);
    }
  }

  lemma FirstEntryReadsBack(before: seq<string>, e: Entry, more: seq<string>, fm: Frontmatter)
    requires GoodEntry(e)
    ensures var lines := before + ([EntryLine(e)] + more);
      ParseFrom(lines, |before|, fm) == ParseFrom(lines, |before| + 1, Assign(fm, e.0, RereadValue(e.1)))
  {
    var lines := before + ([EntryLine(e)] + more);
    assert lines[|before|] == EntryLine(e);
    EntryReadsBack(lines, |before|, fm, e);
  }

  lemma GoodLine(e: Entry)
    requires GoodEntry(e)
    ensures var line := EntryLine(e); BodyLine(line) && line != "" && Last(line) != '\r'
  {
    var line := EntryLine(e);
    ValueShape(e.1);
    ValueHasNoNewline(e.1);
    TrimShape(e.0);
    assert line[0] == e.0[0];
    TrimEndKeepsInk(line);
    assert Last(line) == Last(ValueText(e.1));
  }

  lemma ValueHasNoNewline(value: YamlValue)
    requires OneLine(value)
    ensures '\n' !in ValueText(value)
  {
    match value
    case Scalar(v) => EscapeQuotedShape(v);
    case List(items) => JoinHasNoNewline(items);
  }

  lemma {:induction false} JoinHasNoNewline(items: seq<string>)
    requires forall item :: item in items ==> '\n' !in item
    ensures '\n' !in Join(QuoteAll(items))
  {
    if items != [] {
      JoinUnfolds(items);
      EscapeQuotedShape(items[0]);
      assert '\n' !in Quote(items[0]);
      JoinHasNoNewline(items[1..]);
    }
  }

  lemma {:induction false} GoodLines(entries: seq<Entry>)
    requires forall e :: e in entries ==> GoodEntry(e)
    ensures forall line :: line in EntryTexts(entries) ==> BodyLine(line) && line != "" && Last(line) != '\r'
  {
    if entries != [] {
      assert GoodEntry(entries[0]);
      GoodLine(entries[0]);
      GoodLines(entries[1..]);
    }
  }

  // ---------------------------------------------------------------- the whole frontmatter

  function RereadOption(v: Option<string>): Option<string> {
    match v case None => None case Some(text) => Some(Reread(text))
  }

  function RereadFrontmatter(fm: Frontmatter): Frontmatter {
    Frontmatter(RereadOption(fm.id), RereadOption(fm.created), RereadOption(fm.updated), RereadItems(fm.tags),
                RereadItems(fm.aliases), RereadOption(fm.icon), RereadEntries(fm.extra))
  }

  predicate OneLineOption(v: Option<string>) {
    v.Some? ==> '\n' !in v.value
  }

  /** Frontmatter that is written a line per key: no line feeds, no verbatim blocks, and user keys that stay the user's. */
  predicate Tidy(fm: Frontmatter) {
    && OneLineOption(fm.id) && OneLineOption(fm.created) && OneLineOption(fm.updated) && OneLineOption(fm.icon)
    && OneLine(List(fm.tags)) && OneLine(List(fm.aliases))
    && Sorted(fm.extra)
    && forall e :: e in fm.extra ==> GoodEntry(e) && !Claimed(e.0, e.1)
  }

  lemma LettersAreAKey(key: string)
    requires key != "" && forall i :: 0 <= i < |key| ==> 'a' <= key[i] <= 'z'
    ensures GoodKey(key)
  {
    assert !IsWhite(key[0]) && !IsWhite(Last(key));
    TrimBehindSpace(key);
  }

  lemma KnownKeysAreGood()
    ensures GoodKey("id") && GoodKey("created") && GoodKey("updated")
    ensures GoodKey("tags") && GoodKey("aliases") && GoodKey("icon")
  {
    LettersAreAKey("id");
    LettersAreAKey("created");
    LettersAreAKey("updated");
    LettersAreAKey("tags");
    LettersAreAKey("aliases");
    LettersAreAKey("icon");
  }

  lemma EntriesAreGood(fm: Frontmatter)
    requires Tidy(fm)
    ensures forall e :: e in Known(fm) + fm.extra ==> GoodEntry(e)
  {
    KnownKeysAreGood();
  }

  lemma {:induction false} AssignAllConcat(fm: Frontmatter, a: seq<Entry>, b: seq<Entry>)
    ensures AssignAll(fm, RereadEntries(a + b)) == AssignAll(AssignAll(fm, RereadEntries(a)), RereadEntries(b))
    decreases |a|
  {
    if a == [] {
      assert a + b == b;
    } else {
      TailOfConcat(a, b);
      var next := Assign(fm, a[0].0, RereadValue(a[0].1));
      AssignAllConcat(next, a[1..], b);
    }
  }

  lemma AssignOne(fm: Frontmatter, e: Entry)
    ensures AssignAll(fm, RereadEntries([e])) == Assign(fm, e.0, RereadValue(e.1))
  {
    assert RereadEntries([e]) == [(e.0, RereadValue(e.1))];
  }

  lemma AssignScalar(fm: Frontmatter, key: string, v: Option<string>)
    ensures AssignAll(fm, RereadEntries(ScalarEntry(key, v)))
         == if v.None? then fm else Assign(fm, key, Scalar(Reread(v.value)))
  {
    if v.Some? {
      AssignOne(fm, (key, Scalar(v.value)));
    }
  }

  lemma AssignList(fm: Frontmatter, key: string, items: seq<string>)
    ensures AssignAll(fm, RereadEntries(ListEntry(key, items)))
         == if items == [] then fm else Assign(fm, key, List(RereadItems(items)))
  {
    if items != [] {
      AssignOne(fm, (key, List(items)));
    }
  }

  function FirstKnown(fm: Frontmatter): seq<Entry> {
    ScalarEntry("id", fm.id) + ScalarEntry("created", fm.created) + ScalarEntry("updated", fm.updated)
  }

  function FirstReread(fm: Frontmatter): Frontmatter {
    EMPTY.(id := RereadOption(fm.id), created := RereadOption(fm.created), updated := RereadOption(fm.updated))
  }

  lemma FirstAreAssigned(fm: Frontmatter)
    ensures AssignAll(EMPTY, RereadEntries(FirstKnown(fm))) == FirstReread(fm)
  {
    var a := ScalarEntry("id", fm.id);
    var b := ScalarEntry("created", fm.created);
    var c := ScalarEntry("updated", fm.updated);
    AssignAllConcat(EMPTY, a + b, c);
    AssignAllConcat(EMPTY, a, b);
    AssignScalar(EMPTY, "id", fm.id);
    var one := EMPTY.(id := RereadOption(fm.id));
    AssignScalar(one, "created", fm.created);
    AssignScalar(one.(created := RereadOption(fm.created)), "updated", fm.updated);
  }

  function WithLists(fm: Frontmatter): seq<Entry> {
    FirstKnown(fm) + ListEntry("tags", fm.tags) + ListEntry("aliases", fm.aliases)
  }

  function ListsReread(fm: Frontmatter): Frontmatter {
    FirstReread(fm).(tags := RereadItems(fm.tags), aliases := RereadItems(fm.aliases))
  }

  lemma ListBehind(before: seq<Entry>, fm: Frontmatter, key: string, items: seq<string>)
    requires AssignAll(EMPTY, RereadEntries(before)) == fm
    ensures AssignAll(EMPTY, RereadEntries(before + ListEntry(key, items)))
         == if items == [] then fm else Assign(fm, key, List(RereadItems(items)))
  {
    AssignAllConcat(EMPTY, before, ListEntry(key, items));
    AssignList(fm, key, items);
  }

  lemma ListsAreAssigned(fm: Frontmatter)
    ensures AssignAll(EMPTY, RereadEntries(WithLists(fm))) == ListsReread(fm)
  {
    var three := FirstReread(fm);
    var four := three.(tags := RereadItems(fm.tags));
    FirstAreAssigned(fm);
    ListBehind(FirstKnown(fm), three, "tags", fm.tags);
    ListBehind(FirstKnown(fm) + ListEntry("tags", fm.tags), four, "aliases", fm.aliases);
  }

  lemma KnownAreAssigned(fm: Frontmatter)
    ensures AssignAll(EMPTY, RereadEntries(Known(fm))) == RereadFrontmatter(fm.(extra := []))
  {
    ListsAreAssigned(fm);
    AssignAllConcat(EMPTY, WithLists(fm), ScalarEntry("icon", fm.icon));
    AssignScalar(ListsReread(fm), "icon", fm.icon);
    assert Known(fm) == WithLists(fm) + ScalarEntry("icon", fm.icon);
  }

  /** The user's keys arrive in ascending order, so each is added behind the ones before it. */
  lemma {:induction false} ExtraAreAssigned(fm: Frontmatter, extra: seq<Entry>)
    requires Sorted(extra) && forall e :: e in extra ==> !Claimed(e.0, e.1) && !e.1.Raw?
    requires forall e, f :: e in fm.extra && f in extra ==> Less(e.0, f.0)
    ensures AssignAll(fm, RereadEntries(extra)) == fm.(extra := fm.extra + RereadEntries(extra))
    decreases |extra|
  {
    if extra == [] {
      assert fm.extra + [] == fm.extra;
    } else {
      var e, more := extra[0], extra[1..];
      var read := (e.0, RereadValue(e.1));
      assert e in extra && !Claimed(e.0, e.1);
      InsertLast(fm.extra, read.0, read.1);
      var next := fm.(extra := fm.extra + [read]);
      assert Assign(fm, read.0, read.1) == next;
      forall f, g | f in next.extra && g in more ensures Less(f.0, g.0) {
        FirstIsLess(extra, g);
      }
      ExtraAreAssigned(next, more);
      Associate(fm.extra, [read], RereadEntries(more));
    }
  }

  lemma FirstIsLess(extra: seq<Entry>, g: Entry)
    requires extra != [] && Sorted(extra) && g in extra[1..]
    ensures Less(extra[0].0, g.0) && g in extra
  {
    var k :| 0 <= k < |extra| - 1 && extra[1..][k] == g;
    assert extra[k + 1] == g;
  }

  /** What a tidy frontmatter reads back as: every value on its own, under its own key. */
  lemma ParseReadsEveryValue(fm: Frontmatter)
    requires Tidy(fm)
    ensures Parse(Body(fm)) == RereadFrontmatter(fm)
  {
    var entries := Known(fm) + fm.extra;
    EntriesAreGood(fm);
    BodyIsEntryTexts(entries);
    GoodLines(entries);
    LinesUndoUnlines(EntryTexts(entries));
    assert [] + EntryTexts(entries) == EntryTexts(entries);
    EntriesReadBack([], entries, EMPTY);
    AssignAllConcat(EMPTY, Known(fm), fm.extra);
    KnownAreAssigned(fm);
    assert forall e :: e in fm.extra ==> GoodEntry(e) && !e.1.Raw?;
    ExtraAreAssigned(RereadFrontmatter(fm.(extra := [])), fm.extra);
    assert [] + RereadEntries(fm.extra) == RereadEntries(fm.extra);
  }

  // ---------------------------------------------------------------- when nothing is lost

  predicate KeptOption(v: Option<string>) {
    v.Some? ==> Kept(v.value)
  }

  predicate KeptValue(value: YamlValue) {
    match value case Scalar(v) => Kept(v) case List(items) => KeptItems(items) case Raw(_) => true
  }

  /** No item holds a comma, and nothing that has to be quoted holds a quote or a backslash. */
  predicate KeptFrontmatter(fm: Frontmatter) {
    && KeptOption(fm.id) && KeptOption(fm.created) && KeptOption(fm.updated) && KeptOption(fm.icon)
    && KeptItems(fm.tags) && KeptItems(fm.aliases)
    && forall e :: e in fm.extra ==> KeptValue(e.1)
  }

  lemma RereadOptionIff(v: Option<string>)
    ensures RereadOption(v) == v <==> KeptOption(v)
  {
    if v.Some? {
      RereadIffKept(v.value);
    }
  }

  lemma RereadValueIff(value: YamlValue)
    ensures RereadValue(value) == value <==> KeptValue(value)
  {
    match value
    case Scalar(v) => RereadIffKept(v);
    case List(items) => RereadItemsIffKept(items);
    case Raw(_) =>
  }

  lemma {:induction false} RereadEntriesIff(entries: seq<Entry>)
    ensures |RereadEntries(entries)| == |entries|
    ensures RereadEntries(entries) == entries <==> forall e :: e in entries ==> KeptValue(e.1)
  {
    if entries != [] {
      var e, more := entries[0], entries[1..];
      RereadValueIff(e.1);
      RereadEntriesIff(more);
      assert entries == [e] + more;
      assert RereadEntries(entries) == entries <==> RereadValue(e.1) == e.1 && RereadEntries(more) == more;
    }
  }

  /**
   * The round trip of a note with frontmatter: splitting gives back the rendered body and the rest of the note, and
   * parsing that body gives back the frontmatter exactly when every value is kept.
   */
  lemma RoundTrip(fm: Frontmatter, rest: string)
    requires Tidy(fm) && fm != EMPTY
    ensures Split(Render(fm) + rest) == (Some(Body(fm)), rest)
    ensures Parse(Body(fm)) == fm <==> KeptFrontmatter(fm)
  {
    EntriesAreGood(fm);
    BodyIsEntryTexts(Known(fm) + fm.extra);
    GoodLines(Known(fm) + fm.extra);
    SplitUndoesRender(fm, rest);
    ParseReadsEveryValue(fm);
    RereadOptionIff(fm.id);
    RereadOptionIff(fm.created);
    RereadOptionIff(fm.updated);
    RereadOptionIff(fm.icon);
    RereadItemsIffKept(fm.tags);
    RereadItemsIffKept(fm.aliases);
    RereadEntriesIff(fm.extra);
  }

  // ---------------------------------------------------------------- notes without frontmatter

  lemma {:induction false} NoFence(lines: seq<string>)
    requires forall line :: line in lines ==> BodyLine(line)
    ensures SplitBody(Unlines(lines)) == None
  {
    if lines != [] {
      NoFence(lines[1..]);
      BodyStep(lines[0], Unlines(lines[1..]));
    }
  }

  /** Without a first fence, or without a second, all of a note is text. */
  lemma UnfencedIsText(input: string, lines: seq<string>)
    requires forall line :: line in lines ==> BodyLine(line)
    ensures !("---" <= input) ==> Split(input) == (None, input)
    ensures Split("---\n" + Unlines(lines)) == (None, "---\n" + Unlines(lines))
    ensures Split("---\r\n" + Unlines(lines)) == (None, "---\r\n" + Unlines(lines))
  {
    NoFence(lines);
    var unix, windows := "---\n" + Unlines(lines), "---\r\n" + Unlines(lines);
    assert unix[3..] == "\n" + Unlines(lines) && unix[3] == '\n' && unix[3..][1..] == Unlines(lines);
    assert windows[3] == '\r' && windows[4..] == "\n" + Unlines(lines) && windows[4..][1..] == Unlines(lines);
  }
}
