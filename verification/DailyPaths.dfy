/** Which folders and formats give a path, and which path they give (crates/mb-core/src/daily.rs). */
module DailyPaths {
  import opened Strings
  import opened Calendar
  import opened IsoWeeks
  import opened Daily
  import Permissions

  // ---------------------------------------------------------------- formats

  /** A format is literal text and directives. */
  datatype Piece = Literal(text: string) | Directive(letter: char)

  predicate GoodPiece(p: Piece) {
    match p case Literal(t) => '%' !in t case Directive(x) => x in {'Y', 'm', 'd', 'G', 'V'}
  }

  function PieceText(p: Piece): string {
    match p case Literal(t) => t case Directive(x) => "%" + [x]
  }

  function PatternOf(pieces: seq<Piece>): string {
    if pieces == [] then "" else PieceText(pieces[0]) + PatternOf(pieces[1..])
  }

  /** What a piece becomes: years with four digits, months, days and weeks with two. */
  function Filled(c: Numbering, p: Piece, d: Date): string {
    match p
    case Literal(t) => t
    case Directive(x) =>
      if x == 'Y' then Padded(d.year, 4)
      else if x == 'm' then Padded(d.month, 2)
      else if x == 'd' then Padded(d.day, 2)
      else if x == 'G' then Padded(IsoWeek(c, d).0, 4)
      else Padded(IsoWeek(c, d).1, 2)
  }

  function NameOf(c: Numbering, pieces: seq<Piece>, d: Date): string {
    if pieces == [] then "" else Filled(c, pieces[0], d) + NameOf(c, pieces[1..], d)
  }

  function Letters(pieces: seq<Piece>): set<char> {
    if pieces == [] then {}
    else (match pieces[0] case Literal(_) => {} case Directive(x) => {x}) + Letters(pieces[1..])
  }

  predicate GoodPieces(pieces: seq<Piece>) {
    forall p :: p in pieces ==> GoodPiece(p)
  }

  lemma DirectiveStep(c: Numbering, lead: string, x: char, rest: string, d: Date)
    requires '%' !in lead && GoodPiece(Directive(x))
    ensures var pattern := lead + ("%" + [x] + rest);
      && Directives(pattern) == {x} + Directives(rest)
      && FormatText(c, pattern, d) == Prefixed(lead + Filled(c, Directive(x), d), FormatText(c, rest, d))
  {
    var pattern, n := lead + ("%" + [x] + rest), |lead|;
    FindIs(pattern, '%', n);
    assert pattern[n + 1] == x && pattern[n + 2..] == rest && pattern[..n] == lead;
    DirectivesUnfold(pattern, n);
    assert Width(x).Some?;
    assert PieceAt(c, pattern, d, n) == lead + Filled(c, Directive(x), d);
  }

  lemma PlainEnd(c: Numbering, lead: string, d: Date)
    requires '%' !in lead
    ensures Directives(lead) == {} && FormatText(c, lead, d) == Some(lead)
  {
    FindIs(lead, '%', |lead|);
  }

  /** Formatting fills in every directive and keeps everything else. */
  lemma {:induction false} PiecesAreFilled(c: Numbering, lead: string, pieces: seq<Piece>, d: Date)
    requires '%' !in lead && GoodPieces(pieces)
    ensures Directives(lead + PatternOf(pieces)) == Letters(pieces)
    ensures FormatText(c, lead + PatternOf(pieces), d) == Some(lead + NameOf(c, pieces, d))
    decreases |pieces|
  {
    if pieces == [] {
      assert lead + "" == lead;
      PlainEnd(c, lead, d);
    } else {
      var p, more := pieces[0], pieces[1..];
      assert p in pieces && forall q :: q in more ==> q in pieces;
      match p
      case Literal(t) =>
        Associate(lead, t, PatternOf(more));
        Associate(lead, t, NameOf(c, more, d));
        PiecesAreFilled(c, lead + t, more, d);
      case Directive(x) =>
        PiecesAreFilled(c, "", more, d);
        assert "" + PatternOf(more) == PatternOf(more) && "" + NameOf(c, more, d) == NameOf(c, more, d);
        DirectiveStep(c, lead, x, PatternOf(more), d);
        Associate(lead, Filled(c, p, d), NameOf(c, more, d));
    }
  }

  // ---------------------------------------------------------------- folders

  /** A folder's name: visible, and without separators. */
  predicate GoodPart(p: string) {
    p != "" && p[0] != '.' && Clean(p)
  }

  predicate Clean(s: string) {
    '/' !in s && '\\' !in s && '\0' !in s
  }

  /** Folders in each other, each with its slash. */
  function FolderOf(parts: seq<string>): string {
    if parts == [] then "" else parts[0] + ("/" + FolderOf(parts[1..]))
  }

  lemma SplitFirst(p: string, rest: string)
    requires '/' !in p
    ensures SplitOn(p + ("/" + rest), '/') == [p] + SplitOn(rest, '/')
  {
    var s := p + ("/" + rest);
    FindIs(s, '/', |p|);
    assert s[..|p|] == p && s[|p| + 1..] == rest;
  }

  lemma Regroup(p: string, folder: string, name: string)
    ensures (p + ("/" + folder)) + name == p + ("/" + (folder + name))
  {
  }

  lemma {:induction false} SplitsIntoParts(parts: seq<string>, name: string)
    requires (forall p :: p in parts ==> '/' !in p) && '/' !in name
    ensures SplitOn(FolderOf(parts) + name, '/') == parts + [name]
    decreases |parts|
  {
    if parts == [] {
      assert "" + name == name;
      FindIs(name, '/', |name|);
    } else {
      var p, more := parts[0], parts[1..];
      assert p in parts && forall q :: q in more ==> q in parts;
      Regroup(p, FolderOf(more), name);
      SplitFirst(p, FolderOf(more) + name);
      SplitsIntoParts(more, name);
      Associate([p], more, [name]);
      assert parts == [p] + more;
    }
  }

  lemma {:induction false} FolderSnoc(parts: seq<string>, last: string)
    ensures FolderOf(parts + [last]) == FolderOf(parts) + (last + "/")
  {
    if parts == [] {
      assert [] + [last] == [last] && [last][1..] == [];
      assert last + ("/" + "") == last + "/" == "" + (last + "/");
    } else {
      TailOfConcat(parts, [last]);
      FolderSnoc(parts[1..], last);
      Regroup(parts[0], FolderOf(parts[1..]), last + "/");
    }
  }

  lemma FolderIsValid(parts: seq<string>)
    requires parts != [] && forall p :: p in parts ==> GoodPart(p)
    ensures ValidFolder(FolderOf(parts)) && FolderOf(parts) != ""
  {
    var init, last := Init(parts), Last(parts);
    var inner := FolderOf(init) + last;
    InitLast(parts);
    FolderSnoc(init, last);
    Associate(FolderOf(init), last, "/");
    assert last in parts && parts[0] in parts && forall p :: p in init ==> p in parts;
    SplitsIntoParts(init, last);
    var folder := FolderOf(parts);
    assert folder == inner + "/" && Last(inner) == Last(last) && Last(last) in last;
    assert Init(folder) == inner && DropSlashes(folder) == DropSlashes(inner) == inner;
    assert folder[0] == parts[0][0] && parts[0][0] in parts[0];
  }

  lemma HiddenIsRefused(parts: seq<string>)
    requires parts != [] && (forall p :: p in parts ==> '/' !in p) && Last(parts) != ""
    requires exists p :: p in parts && p != "" && p[0] == '.'
    ensures !ValidFolder(FolderOf(parts))
  {
    var init, last := Init(parts), Last(parts);
    var inner := FolderOf(init) + last;
    InitLast(parts);
    FolderSnoc(init, last);
    Associate(FolderOf(init), last, "/");
    assert last in parts && forall p :: p in init ==> p in parts;
    SplitsIntoParts(init, last);
    var folder := FolderOf(parts);
    assert folder == inner + "/" && Last(inner) == Last(last) && Last(last) in last;
    assert Init(folder) == inner && DropSlashes(folder) == DropSlashes(inner) == inner;
  }

  // ---------------------------------------------------------------- paths

  lemma {:induction false} FolderIsClean(parts: seq<string>)
    requires forall p :: p in parts ==> GoodPart(p)
    ensures '\\' !in FolderOf(parts) && '\0' !in FolderOf(parts)
  {
    if parts != [] {
      assert parts[0] in parts && forall p :: p in parts[1..] ==> p in parts;
      FolderIsClean(parts[1..]);
    }
  }

  lemma NoteInFolder(parts: seq<string>, name: string)
    requires (forall p :: p in parts ==> GoodPart(p)) && Clean(name) && |name| >= 3 && name[|name| - 3..] == ".md"
    ensures Permissions.IsNotePath(FolderOf(parts) + name)
  {
    var path := FolderOf(parts) + name;
    FolderIsClean(parts);
    SplitsIntoParts(parts, name);
    assert Last(path) == Last(name) && Last(name[|name| - 3..]) == 'd';
    if parts == [] {
      assert path == name && path[0] in name;
    } else {
      assert parts[0] in parts && path[0] == parts[0][0] && parts[0][0] in parts[0];
    }
    assert "." != name && ".." != name;
  }

  lemma FolderOfGoodParts(parts: seq<string>)
    requires forall p :: p in parts ==> GoodPart(p)
    ensures ValidFolder(FolderOf(parts))
  {
    if parts != [] {
      FolderIsValid(parts);
    }
  }

  /** What names a period: a day by its date, a week by its own year and number, a month by its year and its number. */
  predicate Names(letters: set<char>, period: Period) {
    if period.Weekly? then 'G' in letters && 'V' in letters
    else 'Y' in letters && 'm' in letters && (period.Daily? ==> 'd' in letters)
  }

  lemma NamesAreNeeded(letters: set<char>, period: Period)
    ensures Needed(period) <= letters <==> Names(letters, period)
  {
    match period
    case Daily => assert 'Y' in Needed(Daily) && 'm' in Needed(Daily) && 'd' in Needed(Daily);
    case Weekly => assert 'G' in Needed(Weekly) && 'V' in Needed(Weekly);
    case Monthly => assert 'Y' in Needed(Monthly) && 'm' in Needed(Monthly);
  }

  lemma FormatIs(c: Numbering, period: Period, format: string, letters: set<char>, name: string, d: Date)
    requires Directives(format) == letters && FormatText(c, format, d) == Some(name)
    ensures FormatDate(c, period, format, d) == if Names(letters, period) then Some(name) else None
  {
    NamesAreNeeded(letters, period);
  }

  lemma FormatNames(c: Numbering, period: Period, pieces: seq<Piece>, d: Date)
    requires GoodPieces(pieces)
    ensures FormatDate(c, period, PatternOf(pieces), d) == if Names(Letters(pieces), period) then Some(NameOf(c, pieces, d)) else None
  {
    var format, name := PatternOf(pieces), NameOf(c, pieces, d);
    PiecesAreFilled(c, "", pieces, d);
    assert "" + format == format && "" + name == name;
    FormatIs(c, period, format, Letters(pieces), name, d);
  }

  /**
   * Visible folders and a format that names the period and ends in `.md` give the path one expects; a format that
   * leaves out what names the period gives none.
   */
  lemma PathIsGiven(c: Numbering, period: Period, parts: seq<string>, pieces: seq<Piece>, d: Date)
    requires (forall p :: p in parts ==> GoodPart(p)) && GoodPieces(pieces)
    requires var name := NameOf(c, pieces, d); Clean(name) && |name| >= 3 && name[|name| - 3..] == ".md"
    ensures PeriodicPath(c, period, FolderOf(parts), PatternOf(pieces), d)
         == if Names(Letters(pieces), period) then Some(FolderOf(parts) + NameOf(c, pieces, d)) else None
  {
    FolderOfGoodParts(parts);
    FormatNames(c, period, pieces, d);
    NoteInFolder(parts, NameOf(c, pieces, d));
  }

  /** Hidden folders give none. */
  lemma HiddenFolderGivesNone(c: Numbering, period: Period, parts: seq<string>, format: string, d: Date)
    requires parts != [] && (forall p :: p in parts ==> '/' !in p) && Last(parts) != ""
    requires exists p :: p in parts && p != "" && p[0] == '.'
    ensures PeriodicPath(c, period, FolderOf(parts), format, d) == None
  {
    HiddenIsRefused(parts);
  }
}
