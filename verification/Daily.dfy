/** Paths of daily, weekly and monthly notes (crates/mb-core/src/daily.rs). */
module Daily {
  import opened Strings
  import opened Calendar
  import opened IsoWeeks
  import Permissions

  datatype Period = Daily | Weekly | Monthly

  // ---------------------------------------------------------------- numbers with leading zeros

  function Zeros(n: nat): string {
    if n == 0 then "" else Zeros(n - 1) + "0"
  }

  function ZeroPad(s: string, width: nat): string {
    if |s| < width then Zeros(width - |s|) + s else s
  }

  /** `{:04}` and `{:02}`: a sign takes one of the places. */
  function Padded(n: int, width: nat): string {
    if n < 0 then "-" + ZeroPad(Decimal(-n), if width == 0 then 0 else width - 1) else ZeroPad(Decimal(n), width)
  }

  predicate AllDigits(s: string) {
    forall i :: 0 <= i < |s| ==> '0' <= s[i] <= '9'
  }

  function DigitsToInt(s: string): nat
    requires AllDigits(s)
  {
    if s == "" then 0 else DigitsToInt(Init(s)) * 10 + (Last(s) - '0') as nat
  }

  function Pow10(n: nat): nat {
    if n == 0 then 1 else 10 * Pow10(n - 1)
  }

  lemma {:induction false} DecimalReads(n: nat, width: nat)
    requires width > 0 && n < Pow10(width)
    ensures AllDigits(Decimal(n)) && DigitsToInt(Decimal(n)) == n && |Decimal(n)| <= width
  {
    if n < 10 {
      assert Decimal(n) == [(n % 10) as char + '0'];
      assert Init(Decimal(n)) == "";
    } else {
      DecimalReads(n / 10, width - 1);
      SnocInit(Decimal(n / 10), (n % 10) as char + '0');
    }
  }

  lemma DigitsSnoc(s: string, digit: char)
    requires AllDigits(s) && '0' <= digit <= '9'
    ensures AllDigits(s + [digit]) && DigitsToInt(s + [digit]) == DigitsToInt(s) * 10 + (digit - '0') as nat
  {
    SnocInit(s, digit);
  }

  lemma {:induction false} ZerosAreZero(n: nat)
    ensures |Zeros(n)| == n && AllDigits(Zeros(n)) && DigitsToInt(Zeros(n)) == 0
  {
    if n > 0 {
      ZerosAreZero(n - 1);
      DigitsSnoc(Zeros(n - 1), '0');
    }
  }

  lemma {:induction false} ZerosRead(zeros: string, s: string)
    requires AllDigits(zeros) && DigitsToInt(zeros) == 0 && AllDigits(s)
    ensures AllDigits(zeros + s) && DigitsToInt(zeros + s) == DigitsToInt(s)
    decreases |s|
  {
    if s == "" {
      assert zeros + s == zeros;
    } else {
      var front, digit := Init(s), Last(s);
      InitLast(s);
      ZerosRead(zeros, front);
      DigitsSnoc(zeros + front, digit);
      DigitsSnoc(front, digit);
      Associate(zeros, front, [digit]);
    }
  }

  /** A number that fits its width is written with exactly that many digits, and reads as itself. */
  lemma PaddedReads(n: nat, width: nat)
    requires width > 0 && n < Pow10(width)
    ensures var s := Padded(n, width); |s| == width && AllDigits(s) && DigitsToInt(s) == n
  {
    DecimalReads(n, width);
    var s := Decimal(n);
    if |s| < width {
      ZerosAreZero(width - |s|);
      ZerosRead(Zeros(width - |s|), s);
      assert Padded(n, width) == Zeros(width - |s|) + s;
    } else {
      assert Padded(n, width) == s;
    }
  }

  // ---------------------------------------------------------------- directives

  /** How many characters a directive takes; nothing for an unknown one. */
  function Width(directive: char): Option<nat> {
    if directive == 'Y' || directive == 'G' then Some(4)
    else if directive == 'm' || directive == 'd' || directive == 'V' then Some(2)
    else None
  }

  /** What a known directive stands for. */
  function Value(c: Numbering, d: Date, directive: char): int {
    if directive == 'Y' then d.year
    else if directive == 'm' then d.month
    else if directive == 'd' then d.day
    else if directive == 'G' then IsoWeek(c, d).0
    else IsoWeek(c, d).1
  }

  function With(x: char, ds: set<char>): set<char> {
    {x} + ds
  }

  /** The directives of a pattern. */
  function Directives(pattern: string): set<char>
    decreases |pattern|
  {
    var n := Find(pattern, '%');
    if n + 1 >= |pattern| then {} else With(pattern[n + 1], Directives(pattern[n + 2..]))
  }

  /** What a period's note is named by. */
  function Needed(period: Period): set<char> {
    match period case Daily => {'Y', 'm', 'd'} case Weekly => {'G', 'V'} case Monthly => {'Y', 'm'}
  }

  // ---------------------------------------------------------------- formatting

  function Prefixed(front: string, rest: Option<string>): Option<string> {
    match rest case None => None case Some(s) => Some(front + s)
  }

  /** The literal text in front of the directive at `n`, and what the directive stands for. */
  function PieceAt(c: Numbering, pattern: string, d: Date, n: nat): string
    requires n + 1 < |pattern| && Width(pattern[n + 1]).Some?
  {
    pattern[..n] + Padded(Value(c, d, pattern[n + 1]), Width(pattern[n + 1]).value)
  }

  function FormatText(c: Numbering, pattern: string, d: Date): Option<string>
    decreases |pattern|
  {
    var n := Find(pattern, '%');
    if n == |pattern| then Some(pattern)
    else if n + 1 == |pattern| || Width(pattern[n + 1]).None? then None
    else
      Prefixed(PieceAt(c, pattern, d, n), FormatText(c, pattern[n + 2..], d))
  }

  function FormatDate(c: Numbering, period: Period, format: string, d: Date): Option<string> {
    if Needed(period) <= Directives(format) then FormatText(c, format, d) else None
  }

  lemma PrefixedTwice(a: string, b: string, rest: Option<string>)
    ensures Prefixed(a, Prefixed(b, rest)) == Prefixed(a + b, rest)
  {
    if rest.Some? {
      Associate(a, b, rest.value);
    }
  }

  lemma PrefixedNothing(rest: Option<string>)
    ensures Prefixed("", rest) == rest
  {
    if rest.Some? {
      assert "" + rest.value == rest.value;
    }
  }

  /** Which directives have been seen. */
  datatype Flags = Flags(year: bool, month: bool, day: bool, weekYear: bool, week: bool)

  function Mark(seen: Flags, directive: char): Flags {
    if directive == 'Y' then seen.(year := true)
    else if directive == 'm' then seen.(month := true)
    else if directive == 'd' then seen.(day := true)
    else if directive == 'G' then seen.(weekYear := true)
    else if directive == 'V' then seen.(week := true)
    else seen
  }

  predicate Complete(seen: Flags, period: Period) {
    match period
    case Daily => seen.year && seen.month && seen.day
    case Weekly => seen.weekYear && seen.week
    case Monthly => seen.year && seen.month
  }

  function FlagsOf(ds: set<char>): Flags {
    Flags('Y' in ds, 'm' in ds, 'd' in ds, 'G' in ds, 'V' in ds)
  }

  lemma FlagsDecide(ds: set<char>, period: Period)
    ensures Complete(FlagsOf(ds), period) <==> Needed(period) <= ds
  {
  }

  function Either(a: Flags, b: Flags): Flags {
    Flags(a.year || b.year, a.month || b.month, a.day || b.day, a.weekYear || b.weekYear, a.week || b.week)
  }

  lemma MarkAdds(seen: Flags, x: char, ds: set<char>)
    requires Width(x).Some?
    ensures Either(Mark(seen, x), FlagsOf(ds)) == Either(seen, FlagsOf(With(x, ds)))
  {
  }

  lemma DirectivesUnfold(pattern: string, n: nat)
    requires n == Find(pattern, '%') && n + 1 < |pattern|
    ensures Directives(pattern) == With(pattern[n + 1], Directives(pattern[n + 2..]))
  {
  }

  lemma MarkIsSeen(seen: Flags, rest: string, n: nat)
    requires n == Find(rest, '%') && n + 1 < |rest| && Width(rest[n + 1]).Some?
    ensures Either(Mark(seen, rest[n + 1]), FlagsOf(Directives(rest[n + 2..]))) == Either(seen, FlagsOf(Directives(rest)))
  {
    DirectivesUnfold(rest, n);
    MarkAdds(seen, rest[n + 1], Directives(rest[n + 2..]));
  }

  lemma FormatUnfolds(c: Numbering, output: string, rest: string, d: Date, n: nat)
    requires n == Find(rest, '%') && n + 1 < |rest| && Width(rest[n + 1]).Some?
    ensures Prefixed(output, FormatText(c, rest, d))
         == Prefixed(output + PieceAt(c, rest, d, n), FormatText(c, rest[n + 2..], d))
  {
    PrefixedTwice(output, PieceAt(c, rest, d, n), FormatText(c, rest[n + 2..], d));
  }

  /** `format_date` as the program runs it: an output, a cursor into the pattern, and what has been seen. */
  method RunFormatDate(c: Numbering, period: Period, format: string, d: Date) returns (r: Option<string>)
    ensures r == FormatDate(c, period, format, d)
  {
    var output := "";
    var rest := format;
    var seen := Flags(false, false, false, false, false);
    PrefixedNothing(FormatText(c, format, d));
    while Find(rest, '%') < |rest|
      invariant Prefixed(output, FormatText(c, rest, d)) == FormatText(c, format, d)
      invariant Either(seen, FlagsOf(Directives(rest))) == FlagsOf(Directives(format))
      decreases |rest|
    {
      var n := Find(rest, '%');
      if n + 1 == |rest| || Width(rest[n + 1]).None? {
        return None;
      }
      FormatUnfolds(c, output, rest, d, n);
      MarkIsSeen(seen, rest, n);
      seen := Mark(seen, rest[n + 1]);
      output := output + PieceAt(c, rest, d, n);
      rest := rest[n + 2..];
    }
    FlagsDecide(Directives(format), period);
    return if Complete(seen, period) then Some(output + rest) else None;
  }

  /** A folder that stays inside the vault and is not hidden. */
  function DropSlashes(s: string): string {
    if s != "" && Last(s) == '/' then DropSlashes(Init(s)) else s
  }

  predicate ValidFolder(folder: string) {
    folder == "" ||
    (Last(folder) == '/' && folder[0] != '/'
     && forall part :: part in SplitOn(DropSlashes(folder), '/') ==> part != "" && part[0] != '.')
  }

  /** `periodic_path`. */
  function PeriodicPath(c: Numbering, period: Period, folder: string, format: string, d: Date): Option<string> {
    if !ValidFolder(folder) then None
    else match FormatDate(c, period, format, d)
      case None => None
      case Some(name) =>
        if |name| >= 3 && name[|name| - 3..] == ".md" && Permissions.IsNotePath(folder + name)
        then Some(folder + name) else None
  }

  // ---------------------------------------------------------------- parsing

  datatype DateParts = DateParts(year: Option<int>, month: Option<int>, day: Option<int>, weekYear: Option<int>,
                                 week: Option<int>)

  const NO_PARTS := DateParts(None, None, None, None, None)

  function Part(parts: DateParts, directive: char): Option<int> {
    if directive == 'Y' then parts.year
    else if directive == 'm' then parts.month
    else if directive == 'd' then parts.day
    else if directive == 'G' then parts.weekYear
    else if directive == 'V' then parts.week
    else None
  }

  /** `DateParts::set`: a second, different value for a part is refused. */
  function SetPart(parts: DateParts, directive: char, value: int): Option<DateParts> {
    if Width(directive).None? then None
    else if Part(parts, directive).Some? then if Part(parts, directive).value == value then Some(parts) else None
    else if directive == 'Y' then Some(parts.(year := Some(value)))
    else if directive == 'm' then Some(parts.(month := Some(value)))
    else if directive == 'd' then Some(parts.(day := Some(value)))
    else if directive == 'G' then Some(parts.(weekYear := Some(value)))
    else Some(parts.(week := Some(value)))
  }

  /** One directive: its digits at the start of the input. */
  function ReadPart(parts: DateParts, directive: char, input: string): Option<DateParts> {
    match Width(directive)
    case None => None
    case Some(width) =>
      if |input| < width || !AllDigits(input[..width]) then None else SetPart(parts, directive, DigitsToInt(input[..width]))
  }

  function ParseText(pattern: string, input: string, parts: DateParts): Option<DateParts>
    decreases |pattern|
  {
    var n := Find(pattern, '%');
    if n == |pattern| then if input == pattern then Some(parts) else None
    else if n + 1 == |pattern| || !(pattern[..n] <= input) then None
    else match ReadPart(parts, pattern[n + 1], input[n..])
      case None => None
      case Some(next) =>
        var width := Width(pattern[n + 1]).value;
        ParseText(pattern[n + 2..], input[n..][width..], next)
  }

  function DateOf(c: Numbering, period: Period, parts: DateParts): Option<Date> {
    match period
    case Daily =>
      if parts.year.Some? && parts.month.Some? && parts.day.Some?
      then NewDate(parts.year.value, parts.month.value, parts.day.value) else None
    case Weekly =>
      if parts.weekYear.Some? && parts.week.Some? then FromIsoWeek(c, parts.weekYear.value, parts.week.value) else None
    case Monthly =>
      if parts.year.Some? && parts.month.Some? then NewDate(parts.year.value, parts.month.value, 1) else None
  }

  /** `periodic_date_from_path`. */
  function PeriodicDate(c: Numbering, period: Period, folder: string, format: string, note: string): Option<Date> {
    if !ValidFolder(folder) || !(folder <= note) then None
    else match ParseText(format, note[|folder|..], NO_PARTS) case None => None case Some(parts) => DateOf(c, period, parts)
  }

  /** `periodic_date_from_path` as the program runs it: two cursors, and the parts filled in on the way. */
  method RunPeriodicDate(c: Numbering, period: Period, folder: string, format: string, note: string)
    returns (r: Option<Date>)
    ensures r == PeriodicDate(c, period, folder, format, note)
  {
    if !ValidFolder(folder) || !(folder <= note) {
      return None;
    }
    var input := note[|folder|..];
    var pattern := format;
    var parts := NO_PARTS;
    while Find(pattern, '%') < |pattern|
      invariant ParseText(pattern, input, parts) == ParseText(format, note[|folder|..], NO_PARTS)
      decreases |pattern|
    {
      var n := Find(pattern, '%');
      if !(pattern[..n] <= input) || n + 1 == |pattern| {
        return None;
      }
      input := input[n..];
      var directive := pattern[n + 1];
      var width := Width(directive);
      if width.None? || |input| < width.value || !AllDigits(input[..width.value]) {
        return None;
      }
      var next := SetPart(parts, directive, DigitsToInt(input[..width.value]));
      if next.None? {
        return None;
      }
      parts := next.value;
      pattern := pattern[n + 2..];
      input := input[width.value..];
    }
    return if input == pattern then DateOf(c, period, parts) else None;
  }

  // ---------------------------------------------------------------- the round trip

  /** Every directive of the date fits its width: the calendar and the ISO year have four digits. */
  predicate Writable(c: Numbering, d: Date) {
    Valid(d) && FourDigits(d.year) && FourDigits(IsoWeek(c, d).0) && 1 <= IsoWeek(c, d).1 <= 53
  }

  /** The parts read so far are those of the date. */
  predicate PartsOf(c: Numbering, d: Date, parts: DateParts) {
    forall directive :: Part(parts, directive).Some? ==> Part(parts, directive).value == Value(c, d, directive)
  }

  lemma ValueFits(c: Numbering, d: Date, directive: char)
    requires Writable(c, d) && Width(directive).Some?
    ensures 0 <= Value(c, d, directive) < Pow10(Width(directive).value)
  {
    assert Pow10(1) == 10 && Pow10(2) == 100 && Pow10(3) == 1000 && Pow10(4) == 10000;
  }

  lemma PieceIsRead(directive: char, parts: DateParts, piece: string, more: string)
    requires Width(directive).Some? && |piece| == Width(directive).value && AllDigits(piece)
    ensures (piece + more)[|piece|..] == more
    ensures ReadPart(parts, directive, piece + more) == SetPart(parts, directive, DigitsToInt(piece))
  {
    assert (piece + more)[..|piece|] == piece;
  }

  lemma SetKeepsParts(c: Numbering, d: Date, parts: DateParts, directive: char)
    requires PartsOf(c, d, parts) && Width(directive).Some?
    ensures var next := SetPart(parts, directive, Value(c, d, directive));
      next.Some? && PartsOf(c, d, next.value)
      && forall x :: Part(next.value, x).Some? <==> Part(parts, x).Some? || x == directive
  {
  }

  lemma PieceReadsBack(c: Numbering, d: Date, parts: DateParts, directive: char, more: string)
    requires Writable(c, d) && PartsOf(c, d, parts) && Width(directive).Some?
    ensures var width := Width(directive).value;
      var input := Padded(Value(c, d, directive), width) + more;
      var next := ReadPart(parts, directive, input);
      |input| >= width && input[width..] == more && next.Some? && PartsOf(c, d, next.value)
      && forall x :: Part(next.value, x).Some? <==> Part(parts, x).Some? || x == directive
  {
    var width := Width(directive).value;
    ValueFits(c, d, directive);
    PaddedReads(Value(c, d, directive), width);
    PieceIsRead(directive, parts, Padded(Value(c, d, directive), width), more);
    SetKeepsParts(c, d, parts, directive);
  }

  /** The step of reading at the first `%`. */
  lemma ParseUnfolds(pattern: string, n: nat, input: string, parts: DateParts)
    requires n == Find(pattern, '%') && n + 1 < |pattern| && pattern[..n] <= input
    requires ReadPart(parts, pattern[n + 1], input[n..]).Some?
    ensures ParseText(pattern, input, parts)
         == ParseText(pattern[n + 2..], input[n..][Width(pattern[n + 1]).value..], ReadPart(parts, pattern[n + 1], input[n..]).value)
  {
  }

  lemma ParseEnds(pattern: string, parts: DateParts)
    requires Find(pattern, '%') == |pattern|
    ensures ParseText(pattern, pattern, parts) == Some(parts) && Directives(pattern) == {}
  {
  }

  /** What is written at the first `%`: the literal text in front, the value, and the rest. */
  lemma TextIsWritten(c: Numbering, pattern: string, d: Date, n: nat)
    requires n == Find(pattern, '%') < |pattern| && FormatText(c, pattern, d).Some?
    ensures n + 1 < |pattern| && Width(pattern[n + 1]).Some? && FormatText(c, pattern[n + 2..], d).Some?
    ensures FormatText(c, pattern, d).value
         == pattern[..n] + (Padded(Value(c, d, pattern[n + 1]), Width(pattern[n + 1]).value)
                            + FormatText(c, pattern[n + 2..], d).value)
  {
    Associate(pattern[..n], Padded(Value(c, d, pattern[n + 1]), Width(pattern[n + 1]).value),
              FormatText(c, pattern[n + 2..], d).value);
  }

  lemma TextEnds(c: Numbering, pattern: string, d: Date)
    requires Find(pattern, '%') == |pattern|
    ensures FormatText(c, pattern, d) == Some(pattern)
  {
  }

  /** Whatever a pattern writes for a date, it reads back every directive in it, and nothing else. */
  lemma {:induction false} TextReadsBack(c: Numbering, pattern: string, d: Date, parts: DateParts)
    requires Writable(c, d) && PartsOf(c, d, parts) && FormatText(c, pattern, d).Some?
    ensures var read := ParseText(pattern, FormatText(c, pattern, d).value, parts);
      read.Some? && PartsOf(c, d, read.value)
      && forall x :: Part(read.value, x).Some? <==> Part(parts, x).Some? || x in Directives(pattern)
    decreases |pattern|
  {
    var n := Find(pattern, '%');
    if n == |pattern| {
      TextEnds(c, pattern, d);
      ParseEnds(pattern, parts);
    } else {
      TextIsWritten(c, pattern, d, n);
      var directive, back := pattern[n + 1], pattern[n + 2..];
      var piece := Padded(Value(c, d, directive), Width(directive).value);
      var more := FormatText(c, back, d).value;
      var text := pattern[..n] + (piece + more);
      assert text[n..] == piece + more && pattern[..n] <= text;
      PieceReadsBack(c, d, parts, directive, more);
      ParseUnfolds(pattern, n, text, parts);
      DirectivesUnfold(pattern, n);
      TextReadsBack(c, back, d, ReadPart(parts, directive, piece + more).value);
    }
  }

  /** The day that a note stands for: its date, the Monday of its week, or the first of its month. */
  function Representative(c: Numbering, period: Period, d: Date): Date {
    match period case Daily => d case Weekly => MondayOf(c, d) case Monthly => Date(d.year, d.month, 1)
  }

  lemma FourDigitsAreNear(d: Date)
    requires Valid(d) && FourDigits(d.year)
    ensures Near(GREGORIAN, d) && Near(GREGORIAN, MondayOf(GREGORIAN, d))
  {
    OrdinalIsSmall(d);
    GregorianIsCalendar();
    MondayIsMonday(GREGORIAN, d);
  }

  lemma PartsGiveTheDate(c: Numbering, period: Period, d: Date, parts: DateParts)
    requires IsCalendar(c) && Writable(c, d) && Near(c, d) && Near(c, MondayOf(c, d)) && PartsOf(c, d, parts)
    requires forall x :: x in Needed(period) ==> Part(parts, x).Some?
    ensures DateOf(c, period, parts) == Some(Representative(c, period, d))
  {
    match period
    case Daily => assert Part(parts, 'Y').Some? && Part(parts, 'm').Some? && Part(parts, 'd').Some?;
    case Weekly =>
      assert Part(parts, 'G').Some? && Part(parts, 'V').Some?;
      WeekIsFound(c, d);
    case Monthly => assert Part(parts, 'Y').Some? && Part(parts, 'm').Some?;
  }

  lemma PathIsFormatted(c: Numbering, period: Period, folder: string, format: string, d: Date)
    requires PeriodicPath(c, period, folder, format, d).Some?
    ensures ValidFolder(folder) && Needed(period) <= Directives(format) && FormatText(c, format, d).Some?
    ensures PeriodicPath(c, period, folder, format, d).value == folder + FormatText(c, format, d).value
  {
  }

  lemma NameIsSplitOff(folder: string, name: string)
    ensures folder <= folder + name && (folder + name)[|folder|..] == name
  {
  }

  lemma PathReadsBackIn(c: Numbering, period: Period, folder: string, format: string, d: Date)
    requires IsCalendar(c) && Writable(c, d) && Near(c, d) && Near(c, MondayOf(c, d))
    requires PeriodicPath(c, period, folder, format, d).Some?
    ensures PeriodicDate(c, period, folder, format, PeriodicPath(c, period, folder, format, d).value)
         == Some(Representative(c, period, d))
  {
    PathIsFormatted(c, period, folder, format, d);
    var name := FormatText(c, format, d).value;
    NameIsSplitOff(folder, name);
    TextReadsBack(c, format, d, NO_PARTS);
    PartsGiveTheDate(c, period, d, ParseText(format, name, NO_PARTS).value);
  }

  /**
   * For every folder and format that give a path at all, parsing the path of a date gives that date, the Monday of its
   * ISO week or the first day of its month.
   */
  lemma PathReadsBack(period: Period, folder: string, format: string, d: Date)
    requires Valid(d) && FourDigits(d.year) && FourDigits(IsoWeek(GREGORIAN, d).0)
    requires PeriodicPath(GREGORIAN, period, folder, format, d).Some?
    ensures PeriodicDate(GREGORIAN, period, folder, format, PeriodicPath(GREGORIAN, period, folder, format, d).value)
         == Some(Representative(GREGORIAN, period, d))
  {
    GregorianIsCalendar();
    FourDigitsAreNear(d);
    WeekIsItsThursdays(GREGORIAN, d);
    PathReadsBackIn(GREGORIAN, period, folder, format, d);
  }

  /** So two dates share a path only within one day, week or month. */
  lemma DistinctPeriodsDistinctPaths(period: Period, folder: string, format: string, d: Date, e: Date)
    requires Valid(d) && FourDigits(d.year) && FourDigits(IsoWeek(GREGORIAN, d).0)
    requires Valid(e) && FourDigits(e.year) && FourDigits(IsoWeek(GREGORIAN, e).0)
    requires PeriodicPath(GREGORIAN, period, folder, format, d).Some?
    requires PeriodicPath(GREGORIAN, period, folder, format, d) == PeriodicPath(GREGORIAN, period, folder, format, e)
    ensures Representative(GREGORIAN, period, d) == Representative(GREGORIAN, period, e)
  {
    PathReadsBack(period, folder, format, d);
    PathReadsBack(period, folder, format, e);
  }
}
