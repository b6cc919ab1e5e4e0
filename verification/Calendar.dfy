/** The proleptic Gregorian calendar and its ISO weeks (`Date` in crates/mb-core/src/task.rs). */
module Calendar {
  import opened Strings

  /** A real calendar date. */
  datatype Date = Date(year: int, month: int, day: int)

  predicate IsLeap(year: int) {
    (year % 4 == 0 && year % 100 != 0) || year % 400 == 0
  }

  function DaysInMonth(year: int, month: int): nat {
    if month in {1, 3, 5, 7, 8, 10, 12} then 31
    else if month in {4, 6, 9, 11} then 30
    else if month == 2 then if IsLeap(year) then 29 else 28
    else 0
  }

  predicate IsDate(year: int, month: int, day: int) {
    1 <= month <= 12 && 1 <= day <= DaysInMonth(year, month)
  }

  predicate Valid(d: Date) {
    IsDate(d.year, d.month, d.day)
  }

  /** `Date::new`. */
  function NewDate(year: int, month: int, day: int): Option<Date> {
    if IsDate(year, month, day) then Some(Date(year, month, day)) else None
  }

  // ---------------------------------------------------------------- day numbers

  /** Division as the program's integers do it: towards zero. Only the eras divide what may be negative. */
  function Quotient(a: int, b: nat): int
    requires b > 0
  {
    if a >= 0 then a / b else -(-a / b)
  }

  function YearEra(y: int): int {
    Quotient(if y >= 0 then y else y - 399, 400)
  }

  /** The days since 1970-01-01. */
  function DaysFromCivil(year: int, month: int, day: int): int {
    var y := if month <= 2 then year - 1 else year;
    var era := YearEra(y);
    var yearOfEra := y - era * 400;
    var monthPrime := month + (if month > 2 then -3 else 9);
    var dayOfYear := (153 * monthPrime + 2) / 5 + day - 1;
    var dayOfEra := yearOfEra * 365 + yearOfEra / 4 - yearOfEra / 100 + dayOfYear;
    era * 146097 + dayOfEra - 719468
  }

  /** The year of an era that a day of the era falls in. */
  function YearOfEra(dayOfEra: int): int {
    (dayOfEra - dayOfEra / 1460 + dayOfEra / 36524 - dayOfEra / 146096) / 365
  }

  function EraOf(days: int): int {
    Quotient(if days >= 0 then days else days - 146096, 146097)
  }

  /** The day of a year that begins in March. */
  function DateAt(era: int, yearOfEra: int, dayOfYear: int): Date {
    var monthPosition := (5 * dayOfYear + 2) / 153;
    var day := dayOfYear - (153 * monthPosition + 2) / 5 + 1;
    var month := if monthPosition < 10 then monthPosition + 3 else monthPosition - 9;
    Date(yearOfEra + era * 400 + (if month <= 2 then 1 else 0), month, day)
  }

  function DateInEra(era: int, dayOfEra: int): Date {
    var yearOfEra := YearOfEra(dayOfEra);
    DateAt(era, yearOfEra, dayOfEra - (365 * yearOfEra + yearOfEra / 4 - yearOfEra / 100))
  }

  /** The date that has this day number; 1 January 1970 has number 0. */
  function CivilFromDays(sinceEpoch: int): Date {
    var days := sinceEpoch + 719468;
    DateInEra(EraOf(days), days - EraOf(days) * 146097)
  }

  function Ordinal(d: Date): int {
    DaysFromCivil(d.year, d.month, d.day)
  }

  // ---------------------------------------------------------------- the two are inverse

  /** A day of an era, counted in years that begin in March. */
  function EraDay(yearOfEra: int, dayOfYear: int): int {
    yearOfEra * 365 + yearOfEra / 4 - yearOfEra / 100 + dayOfYear
  }

  /** The March year has 366 days: it ends in a February of 29. */
  predicate LongYear(yearOfEra: int) {
    IsLeap(yearOfEra + 1)
  }

  predicate InEra(yearOfEra: int, dayOfYear: int) {
    0 <= yearOfEra < 400 && 0 <= dayOfYear <= 365 && (dayOfYear == 365 ==> LongYear(yearOfEra))
  }

  /** In centuries, four-year cycles and years. */
  lemma EraDayInParts(c: int, q: int, s: int, dayOfYear: int)
    requires 0 <= c < 4 && 0 <= q < 25 && 0 <= s < 4
    ensures EraDay(100 * c + 4 * q + s, dayOfYear) == 36524 * c + 1461 * q + 365 * s + dayOfYear
    ensures LongYear(100 * c + 4 * q + s) <==> s == 3 && (q != 24 || c == 3)
  {
    var y := 100 * c + 4 * q + s;
    assert y / 100 == c && y / 4 == 25 * c + q;
  }

  lemma YearInParts(y: int) returns (c: int, q: int, s: int)
    requires 0 <= y < 400
    ensures 0 <= c < 4 && 0 <= q < 25 && 0 <= s < 4 && y == 100 * c + 4 * q + s
  {
    c := y / 100;
    q := y % 100 / 4;
    s := y % 4;
  }

  lemma CenturyIsFound(c: int, q: int, s: int, dayOfYear: int, day: int)
    requires 0 <= c < 4 && 0 <= q < 25 && 0 <= s < 4 && 0 <= dayOfYear <= 365
    requires dayOfYear == 365 ==> s == 3 && (q != 24 || c == 3)
    requires day == 36524 * c + 1461 * q + 365 * s + dayOfYear
    ensures 0 <= day < 146097 && day / 36524 - day / 146096 == c
  {
    var t := 1461 * q + 365 * s + dayOfYear;
    if t == 36524 {
      assert c == 3 && day == 146096;
    } else {
      assert 0 <= t < 36524 && day == 36524 * c + t;
      assert day / 36524 == c;
    }
  }

  /** The formula for the year undoes the formula for the day. */
  lemma YearIsFound(yearOfEra: int, dayOfYear: int)
    requires InEra(yearOfEra, dayOfYear)
    ensures 0 <= EraDay(yearOfEra, dayOfYear) < 146097 && YearOfEra(EraDay(yearOfEra, dayOfYear)) == yearOfEra
  {
    var c, q, s := YearInParts(yearOfEra);
    var day := EraDay(yearOfEra, dayOfYear);
    EraDayInParts(c, q, s, dayOfYear);
    CenturyIsFound(c, q, s, dayOfYear, day);
    FourYearsAreFound(c, q, s, dayOfYear, day);
  }

  lemma FourYearsAreFound(c: int, q: int, s: int, dayOfYear: int, day: int)
    requires 0 <= c < 4 && 0 <= q < 25 && 0 <= s < 4 && 0 <= dayOfYear <= 365 && (dayOfYear == 365 ==> s == 3)
    requires day == 36524 * c + 1461 * q + 365 * s + dayOfYear
    ensures (day - day / 1460 + c) / 365 == 100 * c + 4 * q + s
    ensures day - day / 1460 + c >= 0
  {
    var u := 24 * c + q + 365 * s + dayOfYear;
    assert day == 1460 * (25 * c + q) + u;
    assert day / 1460 == 25 * c + q + u / 1460;
    assert 0 <= u / 1460 <= 1;
    var y := 100 * c + 4 * q + s;
    assert day - day / 1460 + c == 365 * y + (dayOfYear - u / 1460);
    assert 0 <= dayOfYear - u / 1460 < 365;
  }

  /** Every day of an era is some day of some year of it. */
  lemma EveryDayIsInEra(day: int) returns (yearOfEra: int, dayOfYear: int)
    requires 0 <= day < 146097
    ensures InEra(yearOfEra, dayOfYear) && EraDay(yearOfEra, dayOfYear) == day
  {
    var c := if day / 36524 < 4 then day / 36524 else 3;
    var t := day - 36524 * c;
    var q := if t / 1461 < 25 then t / 1461 else 24;
    var w := t - 1461 * q;
    var s := if w / 365 < 4 then w / 365 else 3;
    yearOfEra := 100 * c + 4 * q + s;
    dayOfYear := w - 365 * s;
    EraDayInParts(c, q, s, dayOfYear);
  }

  /** Where a month begins in a year that begins in March. */
  function MonthStart(monthPosition: int): int {
    (153 * monthPosition + 2) / 5
  }

  function MonthLength(monthPosition: int, long: bool): int {
    if monthPosition in {0, 2, 4, 5, 7, 9, 10} then 31 else if monthPosition == 11 then if long then 29 else 28 else 30
  }

  lemma MonthIsFound(monthPosition: int, day: int, long: bool)
    requires 0 <= monthPosition < 12 && 1 <= day <= MonthLength(monthPosition, long)
    ensures var dayOfYear := MonthStart(monthPosition) + day - 1;
      0 <= dayOfYear <= 365 && (dayOfYear == 365 ==> long) && (5 * dayOfYear + 2) / 153 == monthPosition
  {
  }

  lemma DayIsInMonth(dayOfYear: int, long: bool)
    requires 0 <= dayOfYear <= 365 && (dayOfYear == 365 ==> long)
    ensures var p := (5 * dayOfYear + 2) / 153;
      0 <= p < 12 && 1 <= dayOfYear - MonthStart(p) + 1 <= MonthLength(p, long)
  {
  }

  /** Months and years that begin in March, and the calendar's. */
  function ToDate(era: int, yearOfEra: int, monthPosition: int, day: int): Date {
    var month := if monthPosition < 10 then monthPosition + 3 else monthPosition - 9;
    Date(yearOfEra + era * 400 + (if month <= 2 then 1 else 0), month, day)
  }

  lemma EraKeepsFour(era: int, y: int)
    ensures (era * 400 + y) % 4 == y % 4
  {
    assert (era * 400 + y) / 4 == era * 100 + y / 4;
  }

  lemma EraKeepsHundred(era: int, y: int)
    ensures (era * 400 + y) % 100 == y % 100
  {
    assert (era * 400 + y) / 100 == era * 4 + y / 100;
  }

  lemma EraKeepsFourHundred(era: int, y: int)
    ensures (era * 400 + y) % 400 == y % 400
  {
    assert (era * 400 + y) / 400 == era + y / 400;
  }

  lemma MarchYearIsLeap(era: int, yearOfEra: int)
    ensures IsLeap(era * 400 + yearOfEra + 1) <==> LongYear(yearOfEra)
  {
    EraKeepsFour(era, yearOfEra + 1);
    EraKeepsHundred(era, yearOfEra + 1);
    EraKeepsFourHundred(era, yearOfEra + 1);
  }

  lemma ToDateIsValid(era: int, yearOfEra: int, monthPosition: int, day: int)
    requires 0 <= monthPosition < 12 && 0 <= yearOfEra < 400
    ensures Valid(ToDate(era, yearOfEra, monthPosition, day)) <==> 1 <= day <= MonthLength(monthPosition, LongYear(yearOfEra))
    ensures Ordinal(ToDate(era, yearOfEra, monthPosition, day))
         == DayNumber(era, EraDay(yearOfEra, MonthStart(monthPosition) + day - 1))
  {
    MarchYearIsLeap(era, yearOfEra);
    YearEraIsFound(era, yearOfEra);
  }

  /** The adjusted quotients are floors. */
  lemma YearEraIsFound(era: int, rest: int)
    requires 0 <= rest < 400
    ensures YearEra(era * 400 + rest) == era
  {
  }

  lemma EraOfIs(era: int, rest: int)
    requires 0 <= rest < 146097
    ensures EraOf(era * 146097 + rest) == era
  {
  }

  lemma FromDate(d: Date) returns (era: int, yearOfEra: int, monthPosition: int)
    requires Valid(d)
    ensures 0 <= yearOfEra < 400 && 0 <= monthPosition < 12 && d == ToDate(era, yearOfEra, monthPosition, d.day)
  {
    var y := if d.month <= 2 then d.year - 1 else d.year;
    era := y / 400;
    yearOfEra := y % 400;
    monthPosition := if d.month > 2 then d.month - 3 else d.month + 9;
  }

  lemma DateAtIs(era: int, yearOfEra: int, dayOfYear: int)
    requires InEra(yearOfEra, dayOfYear)
    ensures var p := (5 * dayOfYear + 2) / 153;
      DateAt(era, yearOfEra, dayOfYear) == ToDate(era, yearOfEra, p, dayOfYear - MonthStart(p) + 1)
  {
    DayIsInMonth(dayOfYear, LongYear(yearOfEra));
  }

  lemma DateInEraIs(era: int, yearOfEra: int, dayOfYear: int)
    requires InEra(yearOfEra, dayOfYear)
    ensures DateInEra(era, EraDay(yearOfEra, dayOfYear)) == DateAt(era, yearOfEra, dayOfYear)
  {
    YearIsFound(yearOfEra, dayOfYear);
  }

  function DayNumber(era: int, dayOfEra: int): int {
    era * 146097 + dayOfEra - 719468
  }

  lemma CivilIsInEra(era: int, dayOfEra: int)
    requires 0 <= dayOfEra < 146097
    ensures CivilFromDays(DayNumber(era, dayOfEra)) == DateInEra(era, dayOfEra)
  {
    var days := era * 146097 + dayOfEra;
    EraOfIs(era, dayOfEra);
    assert days - EraOf(days) * 146097 == dayOfEra;
  }

  lemma CivilOfEraDay(era: int, yearOfEra: int, dayOfYear: int, p: int)
    requires InEra(yearOfEra, dayOfYear) && p == (5 * dayOfYear + 2) / 153
    ensures CivilFromDays(DayNumber(era, EraDay(yearOfEra, dayOfYear)))
         == ToDate(era, yearOfEra, p, dayOfYear - MonthStart(p) + 1)
  {
    YearIsFound(yearOfEra, dayOfYear);
    CivilIsInEra(era, EraDay(yearOfEra, dayOfYear));
    DateInEraIs(era, yearOfEra, dayOfYear);
    DateAtIs(era, yearOfEra, dayOfYear);
  }

  lemma CivilOfMonth(era: int, yearOfEra: int, dayOfYear: int, p: int, day: int)
    requires 0 <= yearOfEra < 400 && 0 <= p < 12 && 1 <= day <= MonthLength(p, LongYear(yearOfEra))
    requires dayOfYear == MonthStart(p) + day - 1
    ensures CivilFromDays(DayNumber(era, EraDay(yearOfEra, dayOfYear))) == ToDate(era, yearOfEra, p, day)
  {
    MonthIsFound(p, day, LongYear(yearOfEra));
    CivilOfEraDay(era, yearOfEra, dayOfYear, p);
  }

  lemma OrdinalOfDate(era: int, yearOfEra: int, p: int, d: Date)
    requires 0 <= yearOfEra < 400 && 0 <= p < 12 && Valid(d) && d == ToDate(era, yearOfEra, p, d.day)
    ensures 1 <= d.day <= MonthLength(p, LongYear(yearOfEra))
    ensures Ordinal(d) == DayNumber(era, EraDay(yearOfEra, MonthStart(p) + d.day - 1))
  {
    ToDateIsValid(era, yearOfEra, p, d.day);
  }

  /** A date is found again from its day number. */
  lemma CivilUndoesDays(d: Date)
    requires Valid(d)
    ensures CivilFromDays(Ordinal(d)) == d
  {
    var era, yearOfEra, p := FromDate(d);
    OrdinalOfDate(era, yearOfEra, p, d);
    CivilOfMonth(era, yearOfEra, MonthStart(p) + d.day - 1, p, d.day);
  }

  lemma DayInParts(days: int) returns (era: int, yearOfEra: int, dayOfYear: int)
    ensures InEra(yearOfEra, dayOfYear) && days == DayNumber(era, EraDay(yearOfEra, dayOfYear))
  {
    era := (days + 719468) / 146097;
    yearOfEra, dayOfYear := EveryDayIsInEra((days + 719468) % 146097);
  }

  lemma OrdinalOfMonth(era: int, yearOfEra: int, dayOfYear: int, p: int)
    requires InEra(yearOfEra, dayOfYear) && p == (5 * dayOfYear + 2) / 153
    ensures var d := ToDate(era, yearOfEra, p, dayOfYear - MonthStart(p) + 1);
      Valid(d) && Ordinal(d) == DayNumber(era, EraDay(yearOfEra, dayOfYear))
  {
    DayIsInMonth(dayOfYear, LongYear(yearOfEra));
    ToDateIsValid(era, yearOfEra, p, dayOfYear - MonthStart(p) + 1);
  }

  /** Every day number is that of a real date. */
  lemma DaysUndoCivil(days: int)
    ensures Valid(CivilFromDays(days)) && Ordinal(CivilFromDays(days)) == days
  {
    var era, yearOfEra, dayOfYear := DayInParts(days);
    var p := (5 * dayOfYear + 2) / 153;
    CivilOfEraDay(era, yearOfEra, dayOfYear, p);
    OrdinalOfMonth(era, yearOfEra, dayOfYear, p);
  }

  // ---------------------------------------------------------------- years

  /** The days from 1 March of year 0 to 1 March of year `y`. */
  function YearStart(y: int): int {
    365 * y + y / 4 - y / 100 + y / 400
  }

  lemma EraDayIsYearStart(era: int, yearOfEra: int)
    requires 0 <= yearOfEra < 400
    ensures era * 146097 + EraDay(yearOfEra, 0) == YearStart(era * 400 + yearOfEra)
  {
    var y := era * 400 + yearOfEra;
    assert y / 4 == era * 100 + yearOfEra / 4;
    assert y / 100 == era * 4 + yearOfEra / 100;
    assert y / 400 == era;
  }

  function MarchYear(d: Date): int {
    if d.month <= 2 then d.year - 1 else d.year
  }

  function MonthPosition(month: int): int {
    if month > 2 then month - 3 else month + 9
  }

  lemma OrdinalIs(d: Date)
    requires Valid(d)
    ensures Ordinal(d) == YearStart(MarchYear(d)) + MonthStart(MonthPosition(d.month)) + d.day - 1 - 719468
  {
    var era, yearOfEra, p := FromDate(d);
    ToDateIsValid(era, yearOfEra, p, d.day);
    EraDayIsYearStart(era, yearOfEra);
  }

  lemma YearLength(y: int)
    ensures YearStart(y + 1) - YearStart(y) == if IsLeap(y + 1) then 366 else 365
  {
    assert (y + 1) / 4 - y / 4 == if (y + 1) % 4 == 0 then 1 else 0;
    assert (y + 1) / 100 - y / 100 == if (y + 1) % 100 == 0 then 1 else 0;
    assert (y + 1) / 400 - y / 400 == if (y + 1) % 400 == 0 then 1 else 0;
    assert (y + 1) % 400 == 0 ==> (y + 1) % 100 == 0;
    assert (y + 1) % 100 == 0 ==> (y + 1) % 4 == 0;
  }

  /** How far a date is from 4 January of its own year. */
  lemma FromJanuaryFourth(d: Date)
    requires Valid(d)
    ensures -3 <= Ordinal(d) - Ordinal(Date(d.year, 1, 4)) <= 362
  {
    var start, last := YearStart(d.year), YearStart(d.year - 1);
    var n, fourth := Ordinal(d), Ordinal(Date(d.year, 1, 4));
    OrdinalIs(d);
    OrdinalIs(Date(d.year, 1, 4));
    YearLength(d.year - 1);
    assert fourth == last + 309 - 719468;
    assert 365 <= start - last <= 366;
    DayInYear(d);
  }

  /** A date's place among the days from 1 March on. */
  lemma DayInYear(d: Date)
    requires Valid(d)
    ensures var day := MonthStart(MonthPosition(d.month)) + d.day - 1;
      if d.month <= 2 then 306 <= day <= 365 else 0 <= day <= 305
  {
  }

  /** The years that four digits can write. */
  predicate FourDigits(year: int) {
    0 <= year <= 9999
  }

  lemma OrdinalIsSmall(d: Date)
    requires Valid(d) && FourDigits(d.year)
    ensures -800000 <= Ordinal(d) <= 3000000
  {
    OrdinalIs(d);
    assert 0 <= MonthStart(MonthPosition(d.month)) <= 337;
  }

  // ---------------------------------------------------------------- a numbering of the days

  /** Days numbered one after the other. */
  datatype Numbering = Numbering(ordinal: Date -> int, civil: int -> Date)

  const GREGORIAN := Numbering(Ordinal, CivilFromDays)

  /** The next day: of the same month, the first of the next month, or New Year's Day. */
  function NextDay(d: Date): (r: Date)
    requires Valid(d)
    ensures Valid(r)
  {
    if d.day < DaysInMonth(d.year, d.month) then d.(day := d.day + 1)
    else if d.month < 12 then Date(d.year, d.month + 1, 1)
    else Date(d.year + 1, 1, 1)
  }

  /** Number 0 is 1 January 1970, and the next day has the next number. */
  ghost predicate CountsDays(c: Numbering) {
    && c.ordinal(Date(1970, 1, 1)) == 0
    && (forall d: Date {:trigger NextDay(d)} :: Valid(d) ==> c.ordinal(NextDay(d)) == c.ordinal(d) + 1)
  }

  /** Days are counted from the epoch, numbers and real dates correspond one to one, and years follow in order. */
  ghost predicate IsCalendar(c: Numbering) {
    && CountsDays(c)
    && (forall n: int :: Valid(c.civil(n)) && c.ordinal(c.civil(n)) == n)
    && (forall d: Date :: Valid(d) ==> c.civil(c.ordinal(d)) == d)
    && (forall d: Date :: Valid(d) ==> -3 <= c.ordinal(d) - c.ordinal(Date(d.year, 1, 4)) <= 362)
    && (forall y: int :: c.ordinal(Date(y, 1, 4)) == c.ordinal(Date(y, 1, 1)) + 3)
  }

  lemma YearBegins(y: int)
    ensures Ordinal(Date(y, 1, 4)) == Ordinal(Date(y, 1, 1)) + 3
  {
    OrdinalIs(Date(y, 1, 4));
    OrdinalIs(Date(y, 1, 1));
  }

  /** Counted from March, each month begins where the one before it ends. */
  lemma MonthsAdjoin(year: int, month: int)
    requires 1 <= month <= 12
    ensures DaysInMonth(year, month)
         == (if month == 2 then if IsLeap(year) then 29 else 28
             else MonthStart(MonthPosition(month) + 1) - MonthStart(MonthPosition(month)))
    ensures month != 2 ==> MonthPosition(month) + 1 == MonthPosition(month % 12 + 1)
    ensures MonthStart(MonthPosition(2)) == 337 && MonthStart(MonthPosition(3)) == 0
  {
  }

  lemma NextInMonth(d: Date)
    requires Valid(d) && d.day < DaysInMonth(d.year, d.month)
    ensures Ordinal(d.(day := d.day + 1)) == Ordinal(d) + 1
  {
    OrdinalIs(d);
    OrdinalIs(d.(day := d.day + 1));
  }

  lemma NextMonth(d: Date)
    requires Valid(d) && d.day == DaysInMonth(d.year, d.month) && d.month != 2 && d.month != 12
    ensures Ordinal(Date(d.year, d.month + 1, 1)) == Ordinal(d) + 1
  {
    OrdinalIs(d);
    OrdinalIs(Date(d.year, d.month + 1, 1));
    MonthsAdjoin(d.year, d.month);
  }

  lemma FirstOfMarch(year: int)
    ensures Ordinal(Date(year, 3, 1)) == Ordinal(Date(year, 2, DaysInMonth(year, 2))) + 1
  {
    OrdinalIs(Date(year, 2, DaysInMonth(year, 2)));
    OrdinalIs(Date(year, 3, 1));
    MonthsAdjoin(year, 2);
    YearLength(year - 1);
  }

  lemma NextYear(d: Date)
    requires Valid(d) && d.day == DaysInMonth(d.year, d.month) && d.month == 12
    ensures Ordinal(Date(d.year + 1, 1, 1)) == Ordinal(d) + 1
  {
    OrdinalIs(d);
    OrdinalIs(Date(d.year + 1, 1, 1));
    MonthsAdjoin(d.year, 12);
  }

  /** The day after a date has the number after its number, across the ends of months, of years and of February. */
  lemma NextDayIsNext(d: Date)
    requires Valid(d)
    ensures Ordinal(NextDay(d)) == Ordinal(d) + 1
  {
    if d.day < DaysInMonth(d.year, d.month) {
      NextInMonth(d);
    } else if d.month == 2 {
      FirstOfMarch(d.year);
    } else if d.month == 12 {
      NextYear(d);
    } else {
      NextMonth(d);
    }
  }

  lemma EpochIsZero()
    ensures Ordinal(Date(1970, 1, 1)) == 0
  {
  }

  lemma GregorianCountsDays()
    ensures CountsDays(GREGORIAN)
  {
    EpochIsZero();
    forall d: Date | Valid(d) ensures GREGORIAN.ordinal(NextDay(d)) == GREGORIAN.ordinal(d) + 1 {
      NextDayIsNext(d);
    }
  }

  /** The program's day arithmetic is a calendar. */
  lemma GregorianIsCalendar()
    ensures IsCalendar(GREGORIAN)
  {
    GregorianCountsDays();
    forall n: int ensures Valid(GREGORIAN.civil(n)) && GREGORIAN.ordinal(GREGORIAN.civil(n)) == n {
      DaysUndoCivil(n);
    }
    forall d: Date | Valid(d) ensures GREGORIAN.civil(GREGORIAN.ordinal(d)) == d {
      CivilUndoesDays(d);
    }
    forall d: Date | Valid(d) ensures -3 <= GREGORIAN.ordinal(d) - GREGORIAN.ordinal(Date(d.year, 1, 4)) <= 362 {
      FromJanuaryFourth(d);
    }
    forall y: int ensures GREGORIAN.ordinal(Date(y, 1, 4)) == GREGORIAN.ordinal(Date(y, 1, 1)) + 3 {
      YearBegins(y);
    }
  }
}
