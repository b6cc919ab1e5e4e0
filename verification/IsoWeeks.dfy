/** ISO 8601 weeks over any calendar (`iso_weekday`, `iso_week` and `from_iso_week` in crates/mb-core/src/task.rs). */
module IsoWeeks {
  import opened Strings
  import opened Calendar

  /** Days of the week counted from 1, beginning with Monday. */
  function IsoWeekday(c: Numbering, d: Date): int {
    (c.ordinal(d) + 3) % 7 + 1
  }

  /** The milliseconds of that day fit in 64 bits. */
  predicate InRange(days: int) {
    -0x8000_0000_0000_0000 <= days * 86400000 < 0x8000_0000_0000_0000
  }

  /** `checked_add_days`. */
  function AddDays(c: Numbering, d: Date, days: int): Option<Date> {
    if InRange(c.ordinal(d) + days) then Some(c.civil(c.ordinal(d) + days)) else None
  }

  /** The Monday of the week with 4 January. */
  function WeekOne(c: Numbering, isoYear: int): int {
    c.ordinal(Date(isoYear, 1, 4)) - (IsoWeekday(c, Date(isoYear, 1, 4)) - 1)
  }

  /** A week number as the program narrows it to a byte. */
  function WeekByte(week: int): int {
    if 0 <= week < 256 then week else 1
  }

  function IsoWeek(c: Numbering, d: Date): (int, int) {
    match AddDays(c, d, 4 - IsoWeekday(c, d))
    case None => (d.year, 1)
    case Some(thursday) => (thursday.year, WeekByte((c.ordinal(d) - WeekOne(c, thursday.year)) / 7 + 1))
  }

  function FromIsoWeek(c: Numbering, year: int, week: int): Option<Date> {
    if !(1 <= week <= 53) then None
    else
      var januaryFourth := Date(year, 1, 4);
      match AddDays(c, januaryFourth, 1 - IsoWeekday(c, januaryFourth) + 7 * (week - 1))
      case None => None
      case Some(monday) => if IsoWeek(c, monday) == (year, week) then Some(monday) else None
  }

  /** The weekdays are the real ones: the epoch was a Thursday, and each day has the weekday after the day before. */
  lemma WeekdaysFollow(c: Numbering, d: Date)
    requires IsCalendar(c) && Valid(d)
    ensures IsoWeekday(c, Date(1970, 1, 1)) == 4
    ensures IsoWeekday(c, NextDay(d)) == (if IsoWeekday(c, d) == 7 then 1 else IsoWeekday(c, d) + 1)
  {
    assert c.ordinal(NextDay(d)) == c.ordinal(d) + 1;
  }

  // ---------------------------------------------------------------- weeks as ISO 8601 defines them

  /** Well inside the range of the day arithmetic. */
  predicate Near(c: Numbering, d: Date) {
    -100_000_000_000 <= c.ordinal(d) <= 100_000_000_000
  }

  function MondayOf(c: Numbering, d: Date): Date {
    c.civil(c.ordinal(d) + 1 - IsoWeekday(c, d))
  }

  function ThursdayOf(c: Numbering, d: Date): Date {
    c.civil(c.ordinal(d) + 4 - IsoWeekday(c, d))
  }

  lemma MondayIsMonday(c: Numbering, d: Date)
    requires IsCalendar(c) && Valid(d)
    ensures Valid(MondayOf(c, d)) && Valid(ThursdayOf(c, d))
    ensures var monday := c.ordinal(MondayOf(c, d));
      (monday + 3) % 7 == 0 && monday <= c.ordinal(d) < monday + 7
      && monday == c.ordinal(d) + 1 - IsoWeekday(c, d)
      && c.ordinal(ThursdayOf(c, d)) == monday + 3
    ensures IsoWeekday(c, MondayOf(c, d)) == 1
  {
  }

  /** The arithmetic of a week whose Thursday lies in the year with this 4 January. */
  lemma WeekNumber(monday: int, day: int, fourth: int, weekday: int)
    requires (monday + 3) % 7 == 0 && weekday == (fourth + 3) % 7 + 1 && monday <= day < monday + 7
    requires -3 <= monday + 3 - fourth <= 362
    ensures var weekOne := fourth - (weekday - 1);
      monday == weekOne + 7 * ((day - weekOne) / 7)
      && 0 <= (day - weekOne) / 7 <= 52
      && (day - weekOne) / 7 == (monday + 3 - (fourth - 3)) / 7
  {
    var weekOne := fourth - (weekday - 1);
    assert (weekOne + 3) % 7 == 0 && fourth - 6 <= weekOne <= fourth;
    assert (monday - weekOne) % 7 == 0;
    assert (day - weekOne) / 7 == (monday - weekOne) / 7;
  }

  /** What the program computes, once no addition overflows. */
  lemma WeekIs(c: Numbering, d: Date)
    requires IsCalendar(c) && Valid(d) && Near(c, d)
    ensures var thursday := ThursdayOf(c, d);
      var k := (c.ordinal(d) - WeekOne(c, thursday.year)) / 7;
      0 <= k <= 52 && IsoWeek(c, d) == (thursday.year, k + 1)
      && c.ordinal(MondayOf(c, d)) == WeekOne(c, thursday.year) + 7 * k
      && k == (c.ordinal(thursday) - c.ordinal(Date(thursday.year, 1, 1))) / 7
  {
    var thursday := ThursdayOf(c, d);
    MondayIsMonday(c, d);
    WeekNumber(c.ordinal(MondayOf(c, d)), c.ordinal(d), c.ordinal(Date(thursday.year, 1, 4)),
               IsoWeekday(c, Date(thursday.year, 1, 4)));
  }

  /** The week of ISO 8601: it belongs to the year of its Thursday, and is numbered by that year's Thursdays. */
  lemma WeekIsItsThursdays(c: Numbering, d: Date)
    requires IsCalendar(c) && Valid(d) && Near(c, d)
    ensures var thursday := ThursdayOf(c, d);
      IsoWeek(c, d) == (thursday.year, (c.ordinal(thursday) - c.ordinal(Date(thursday.year, 1, 1))) / 7 + 1)
      && 1 <= IsoWeek(c, d).1 <= 53
  {
    WeekIs(c, d);
  }

  /** All days from Monday to Sunday have one week. */
  lemma MondayHasTheWeek(c: Numbering, d: Date)
    requires IsCalendar(c) && Valid(d) && Near(c, d) && Near(c, MondayOf(c, d))
    ensures IsoWeek(c, MondayOf(c, d)) == IsoWeek(c, d)
  {
    MondayIsMonday(c, d);
    MondayIsMonday(c, MondayOf(c, d));
    assert ThursdayOf(c, MondayOf(c, d)) == ThursdayOf(c, d);
    WeekIsItsThursdays(c, d);
    WeekIsItsThursdays(c, MondayOf(c, d));
  }

  /** From year and week number back to the Monday of that week. */
  lemma WeekIsFound(c: Numbering, d: Date)
    requires IsCalendar(c) && Valid(d) && Near(c, d) && Near(c, MondayOf(c, d))
    ensures FromIsoWeek(c, IsoWeek(c, d).0, IsoWeek(c, d).1) == Some(MondayOf(c, d))
  {
    WeekIs(c, d);
    MondayHasTheWeek(c, d);
    MondayIsMonday(c, d);
    var year, week := IsoWeek(c, d).0, IsoWeek(c, d).1;
    var fourth := Date(year, 1, 4);
    assert c.ordinal(fourth) + (1 - IsoWeekday(c, fourth) + 7 * (week - 1)) == c.ordinal(MondayOf(c, d));
  }
}
