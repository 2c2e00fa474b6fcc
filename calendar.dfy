/**
 * Calendar dates as JavaScript's `Date` presents them in local time: a
 * proleptic Gregorian year, a 1-based month and a day of the month, with
 * `getDay()` (0 = Sunday … 6 = Saturday) and the ISO 8601 week number
 * (ISO 8601:2004 section 4.1.4: weeks run Monday to Sunday and week 1 is the
 * week holding the year's first Thursday).
 */
module Calendar {

  predicate IsLeapYear(y: int)
  {
    y % 4 == 0 && (y % 100 != 0 || y % 400 == 0)
  }

  function DaysInYear(y: int): int
  {
    if IsLeapYear(y) then 366 else 365
  }

  /** Length of the 1-based month `m` of year `y`. */
  function DaysInMonth(y: int, m: int): (n: int)
    requires 1 <= m <= 12
    ensures 28 <= n <= 31
    ensures n == 29 <==> m == 2 && IsLeapYear(y)
    ensures n == 28 <==> m == 2 && !IsLeapYear(y)
    ensures n == 30 <==> m in {4, 6, 9, 11}
  {
    if m == 2 then (if IsLeapYear(y) then 29 else 28)
    else if m == 4 || m == 6 || m == 9 || m == 11 then 30
    else 31
  }

  datatype CivilDate = CivilDate(year: int, month: int, day: int)

  predicate IsValid(d: CivilDate)
  {
    1 <= d.month <= 12 && 1 <= d.day <= DaysInMonth(d.year, d.month)
  }

  /** A `Date` value: always a real calendar day. */
  type Date = d: CivilDate | IsValid(d) witness CivilDate(1970, 1, 1)

  /** Days of year `y` before the first of month `m`. */
  function DaysBeforeMonth(y: int, m: int): int
    requires 1 <= m <= 12
  {
    [0, 31, 59, 90, 120, 151, 181, 212, 243, 273, 304, 334][m - 1]
      + (if m > 2 && IsLeapYear(y) then 1 else 0)
  }

  /** Each month starts where the one before it ends, and December ends the year. */
  lemma MonthsFollowEachOther(y: int, m: int)
    requires 1 <= m <= 12
    ensures m < 12 ==> DaysBeforeMonth(y, m + 1) == DaysBeforeMonth(y, m) + DaysInMonth(y, m)
    ensures m == 12 ==> DaysBeforeMonth(y, m) + DaysInMonth(y, m) == DaysInYear(y)
  {
  }

  /** Days from 0001-01-01 (a Monday) to the first of January of `y`. */
  function DaysBeforeYear(y: int): int
  {
    var p := y - 1;
    365 * p + p / 4 - p / 100 + p / 400
  }

  /** How `p / 4`, `p / 100` and `p / 400` step when `p` grows by one. */
  lemma DivSteps(p: int)
    ensures (p + 1) / 4 == p / 4 + (if (p + 1) % 4 == 0 then 1 else 0)
    ensures (p + 1) / 100 == p / 100 + (if (p + 1) % 100 == 0 then 1 else 0)
    ensures (p + 1) / 400 == p / 400 + (if (p + 1) % 400 == 0 then 1 else 0)
  {
  }

  /** Consecutive years are one year length apart. */
  lemma DaysBeforeNextYear(y: int)
    ensures DaysBeforeYear(y + 1) == DaysBeforeYear(y) + DaysInYear(y)
  {
    DivSteps(y - 1);
  }

  /** Later years start later, by at least 365 days a year. */
  lemma {:induction false} DaysBeforeYearGrows(y: int, z: int)
    requires y <= z
    ensures DaysBeforeYear(z) - DaysBeforeYear(y) >= 365 * (z - y)
    decreases z - y
  {
    if y < z {
      DaysBeforeYearGrows(y, z - 1);
      DaysBeforeNextYear(z - 1);
    }
  }

  /** 1-based position of `d` within its year. */
  function DayOfYear(d: Date): (n: int)
    ensures 1 <= n <= DaysInYear(d.year)
  {
    DaysBeforeMonth(d.year, d.month) + d.day
  }

  /** Days from 0001-01-01 to `d`; day 0 is a Monday. */
  function DayNumber(d: Date): int
  {
    DaysBeforeYear(d.year) + DayOfYear(d) - 1
  }

  /** `date.getDay()`: 0 = Sunday, 1 = Monday, … 6 = Saturday. */
  function DayOfWeek(d: Date): (w: int)
    ensures 0 <= w < 7
  {
    (DayNumber(d) + 1) % 7
  }

  /** The calendar day after `d`: the next day of the month, else the first of the next month or year. */
  function NextDay(d: Date): Date
  {
    if d.day < DaysInMonth(d.year, d.month) then CivilDate(d.year, d.month, d.day + 1)
    else if d.month < 12 then CivilDate(d.year, d.month + 1, 1)
    else CivilDate(d.year + 1, 1, 1)
  }

  /** Day numbers count calendar days: the next day has the next number. */
  lemma NextDayNumber(d: Date)
    ensures DayNumber(NextDay(d)) == DayNumber(d) + 1
  {
    MonthsFollowEachOther(d.year, d.month);
    DaysBeforeNextYear(d.year);
  }

  /** `getDay()` advances by one, modulo 7, from each day to the next. */
  lemma DayOfWeekSteps(d: Date)
    ensures DayOfWeek(NextDay(d)) == (DayOfWeek(d) + 1) % 7
  {
    NextDayNumber(d);
    SevenStep(DayNumber(d) + 1);
  }

  /** Adding one moves a remainder modulo 7 on by one. */
  lemma SevenStep(n: int)
    ensures (n + 1) % 7 == (n % 7 + 1) % 7
  {
  }

  /** Fixed points of the weekday count: 0001-01-01 is a Monday, 1970-01-01 a Thursday, 2024-01-01 a Monday. */
  lemma DayOfWeekAnchors()
    ensures DayOfWeek(CivilDate(1, 1, 1)) == 1
    ensures DayOfWeek(CivilDate(1970, 1, 1)) == 4
    ensures DayOfWeek(CivilDate(2024, 1, 1)) == 1
  {
  }

  /** `getDay() || 7`: ISO weekday, 1 = Monday … 7 = Sunday. */
  function IsoWeekday(d: Date): (w: int)
    ensures 1 <= w <= 7
    ensures w == 7 <==> DayOfWeek(d) == 0
    ensures w < 7 ==> w == DayOfWeek(d)
  {
    var w := DayOfWeek(d);
    if w == 0 then 7 else w
  }

  /** The Monday-to-Sunday week `d` falls in, counted from the week of 0001-01-01. */
  function WeekIndex(d: Date): int
  {
    DayNumber(d) / 7
  }

  lemma WeekdayArithmetic(n: int)
    ensures (if (n + 1) % 7 == 0 then 7 else (n + 1) % 7) == n % 7 + 1
    ensures n == 7 * (n / 7) + n % 7
  {
  }

  /** The ISO weekday is the position within the Monday-to-Sunday week. */
  lemma IsoWeekdayInWeek(d: Date)
    ensures IsoWeekday(d) == DayNumber(d) % 7 + 1
    ensures DayNumber(d) == 7 * WeekIndex(d) + IsoWeekday(d) - 1
  {
    WeekdayArithmetic(DayNumber(d));
  }

  /**
   * 1-based ordinal, within its own calendar year, of the Thursday of the
   * week holding `d` (the `setUTCDate(getUTCDate() + 4 - dayNum)` step):
   * that Thursday lies at most three days away, so it is in the year before,
   * the same year, or the year after.
   */
  function ThursdayOrdinal(d: Date): (n: int)
    ensures 1 <= n <= 366
  {
    var t := DayOfYear(d) + 4 - IsoWeekday(d);
    if t < 1 then t + DaysInYear(d.year - 1)
    else if t > DaysInYear(d.year) then t - DaysInYear(d.year)
    else t
  }

  /** Calendar year of that Thursday: the ISO week-numbering year. */
  function IsoYear(d: Date): int
  {
    var t := DayOfYear(d) + 4 - IsoWeekday(d);
    if t < 1 then d.year - 1
    else if t > DaysInYear(d.year) then d.year + 1
    else d.year
  }

  /** ISO 8601 week number: `ceil(ordinal / 7)` of that Thursday. */
  function WeekNumber(d: Date): (w: int)
    ensures 1 <= w <= 53
  {
    (ThursdayOrdinal(d) + 6) / 7
  }

  /**
   * `new Date(Date.UTC(d.getFullYear(), d.getMonth(), d.getDate()))`.
   * `Date.UTC` reads a year of 0 to 99 as 1900 to 1999, and a day past the
   * end of the month rolls into the next month: 0000-02-29 becomes
   * 1900-03-01, since 1900 is not a leap year. Other dates are unchanged.
   */
  function UtcDate(d: Date): (u: Date)
    ensures !(0 <= d.year <= 99) ==> u == d
    ensures 0 <= d.year <= 99 ==> u.year == 1900 + d.year
  {
    if !(0 <= d.year <= 99) then d
    else if d.day <= DaysInMonth(1900 + d.year, d.month) then CivilDate(1900 + d.year, d.month, d.day)
    else CivilDate(1900 + d.year, 3, 1)
  }

  /**
   * What `Date.UTC` computes for years 0 to 99: the day `d.day - 1` days
   * after the first of month `d.month` of year `1900 + d.year`.
   */
  lemma UtcDateDayNumber(d: Date)
    requires 0 <= d.year <= 99
    ensures DayNumber(UtcDate(d)) == DayNumber(CivilDate(1900 + d.year, d.month, 1)) + d.day - 1
  {
    if d.day > DaysInMonth(1900 + d.year, d.month) {
      MonthsFollowEachOther(1900 + d.year, 2);
    }
  }

  /**
   * The ordinal of the week's Thursday, counted from day numbers: the
   * Thursday's day number minus that of the first of January of its year,
   * plus one.
   */
  lemma ThursdayOrdinalByDayNumber(d: Date)
    ensures ThursdayNumber(d) - DaysBeforeYear(IsoYear(d)) + 1 == ThursdayOrdinal(d)
  {
    DaysBeforeNextYear(d.year - 1);
    DaysBeforeNextYear(d.year);
  }

  /**
   * `getWeekNumber`. The date is copied through `Date.UTC`, moved to the
   * Thursday of its week, and counted in days from `yearStart`, the first of
   * January of that Thursday's year, again built with `Date.UTC`; the week
   * number is `ceil((days + 1) / 7)`. Both `Date.UTC` calls read a year of 0
   * to 99 as 1900 to 1999, so when the Thursday falls in such a year the
   * count starts in the 1900s and is far below 1. Otherwise it is the ISO
   * week number of the copied date.
   */
  function GetWeekNumber(d: Date): int
  {
    var u := UtcDate(d);
    WeeksFromYearStart(ThursdayNumber(u), IsoYear(u))
  }

  /** `d.setUTCDate(d.getUTCDate() + 4 - dayNum)`: the day number of the Thursday of the week. */
  function ThursdayNumber(d: Date): int
  {
    DayNumber(d) + 4 - IsoWeekday(d)
  }

  /**
   * `Math.ceil(((d - yearStart) / 86400000 + 1) / 7)` with `yearStart` the
   * `Date.UTC` first of January of `thursdayYear`.
   */
  function WeeksFromYearStart(thursday: int, thursdayYear: int): int
  {
    var startYear := if 0 <= thursdayYear <= 99 then 1900 + thursdayYear else thursdayYear;
    var days := thursday - DaysBeforeYear(startYear);
    // Dafny's `/` floors for a positive divisor, so this is `ceil((days + 1) / 7)`
    (days + 1 + 6) / 7
  }

  /** Dates whose `Date.UTC` copies share a Monday-to-Sunday week get the same `getWeekNumber`. */
  lemma SameWeekSameWeekNumber(a: Date, b: Date)
    requires WeekIndex(UtcDate(a)) == WeekIndex(UtcDate(b))
    ensures GetWeekNumber(a) == GetWeekNumber(b)
  {
    var u, v := UtcDate(a), UtcDate(b);
    IsoWeekdayInWeek(u);
    IsoWeekdayInWeek(v);
    SameWeekSameIsoWeek(u, v);
    assert ThursdayNumber(u) == ThursdayNumber(v);
  }

  /**
   * Unless the week's Thursday falls in a year of 0 to 99, `getWeekNumber`
   * is the ISO week number of the copied date, and for a date outside years
   * 0 to 99 that is the date's own ISO week number.
   */
  lemma GetWeekNumberIsIsoWeek(d: Date)
    ensures !(0 <= IsoYear(UtcDate(d)) <= 99) ==>
      GetWeekNumber(d) == WeekNumber(UtcDate(d)) && 1 <= GetWeekNumber(d) <= 53
    ensures !(0 <= d.year <= 99) && !(0 <= IsoYear(d) <= 99) ==> GetWeekNumber(d) == WeekNumber(d)
  {
    ThursdayOrdinalByDayNumber(UtcDate(d));
  }

  /** Two dates in one Monday-to-Sunday week are at most one calendar year apart. */
  lemma SameWeekNearbyYears(a: Date, b: Date)
    requires WeekIndex(a) == WeekIndex(b)
    ensures b.year - 1 <= a.year <= b.year + 1
  {
    IsoWeekdayInWeek(a);
    IsoWeekdayInWeek(b);
    if a.year >= b.year + 2 {
      DaysBeforeYearGrows(b.year + 1, a.year);
      DaysBeforeNextYear(b.year);
      assert false;
    } else if b.year >= a.year + 2 {
      DaysBeforeYearGrows(a.year + 1, b.year);
      DaysBeforeNextYear(a.year);
      assert false;
    }
  }

  /** The Thursday step measured from the first of January of the date's own year. */
  lemma ThursdayFromYearStart(d: Date)
    ensures DayOfYear(d) + 4 - IsoWeekday(d) == 7 * WeekIndex(d) + 4 - DaysBeforeYear(d.year)
  {
    IsoWeekdayInWeek(d);
  }

  /**
   * ISO 8601 consistency: all seven days of a Monday-to-Sunday week get the
   * same week number and the same week-numbering year, even when the week
   * straddles the turn of a calendar year.
   */
  lemma {:induction false} SameWeekSameIsoWeek(a: Date, b: Date)
    requires WeekIndex(a) == WeekIndex(b)
    ensures ThursdayOrdinal(a) == ThursdayOrdinal(b)
    ensures WeekNumber(a) == WeekNumber(b)
    ensures IsoYear(a) == IsoYear(b)
  {
    SameWeekNearbyYears(a, b);
    ThursdayFromYearStart(a);
    ThursdayFromYearStart(b);
    if b.year == a.year + 1 {
      DaysBeforeNextYear(a.year);
      LaterYearOrdinal(a, b);
    } else if a.year == b.year + 1 {
      DaysBeforeNextYear(b.year);
      LaterYearOrdinal(b, a);
    }
  }

  lemma LaterYearOrdinal(a: Date, b: Date)
    requires b.year == a.year + 1
    requires DayOfYear(b) + 4 - IsoWeekday(b) == DayOfYear(a) + 4 - IsoWeekday(a) - DaysInYear(a.year)
    ensures ThursdayOrdinal(a) == ThursdayOrdinal(b)
    ensures IsoYear(a) == IsoYear(b)
  {
    var ta := DayOfYear(a) + 4 - IsoWeekday(a);
    var tb := DayOfYear(b) + 4 - IsoWeekday(b);
    assert b.year - 1 == a.year;
    if ta > DaysInYear(a.year) {
      assert 1 <= tb <= 3;
    } else {
      assert ta >= 1;
      assert tb < 1;
    }
  }
}
