/**
 * The server's copy of the wage rule engine (server/utils/wage-calculator.ts):
 * daily classification, the per-week fold of `(date, hours)` records, the
 * weekly-paid-holiday gates of the Labor Standards Act (Art. 55, with the
 * 15-hours-a-week floor of Art. 18(3)), pricing by work type with the
 * Art. 56 premiums, and grouping of records by ISO week.
 *
 * The public-holiday check is a parameter `isHoliday`; the server's own
 * check is `SundayOnly`.
 */
module ServerWage {
  import opened Calendar

  /** `WorkType`. */
  datatype WorkType =
    | Regular          // 기본근무
    | Overtime         // 연장근무
    | Holiday          // 휴일근무
    | HolidayOvertime  // 휴일연장근무
    | WeeklyHoliday    // 주휴
    | Absent           // 결근
    | PublicHoliday    // 공휴일
    | RainOff          // 우천
    | RegularOff       // 정휴

  /** `DailyWork`: the type of a day and the hours it is paid for. */
  datatype DailyWork = DailyWork(kind: WorkType, hours: real)

  /** `WeeklyWork`: running totals of one week. */
  datatype WeeklyWork = WeeklyWork(
    regularHours: real,          // Monday–Friday regular hours
    weekendRegularHours: real,   // Saturday regular hours
    overtimeHours: real,
    holidayHours: real,
    holidayOvertimeHours: real,
    absenceDays: int,
    publicHolidayDays: int,
    rainDays: int,
    regularOffDays: int,
    dayoffDays: int,
    weekdayBasicWorkDays: int)   // Monday–Friday days actually worked

  /** One input record: a date and the hours worked on it. */
  datatype DatedHours = DatedHours(date: Date, hours: real)

  /** The daily regular limit and the weekly regular limit (Art. 50). */
  const DailyLimit: real := 8.0
  const WeeklyLimit: real := 40.0

  function Min(a: real, b: real): real { if a <= b then a else b }
  function Max(a: real, b: real): real { if a >= b then a else b }

  /** `isPublicHoliday` as the server writes it: exactly the Sundays. */
  function SundayOnly(d: Date): bool
  {
    DayOfWeek(d) == 0
  }

  /**
   * `calculateDailyWorkType`. A holiday is paid 8 hours whatever was worked;
   * otherwise the hours are carried unchanged under one type chosen by the
   * weekday. On Saturday the day is regular only while the Monday–Friday
   * regular hours leave room under 40 and the whole day fits in that room.
   */
  function CalculateDailyWorkType(isHoliday: Date -> bool, date: Date, hours: real, week: WeeklyWork): (r: DailyWork)
    ensures isHoliday(date) ==> r == DailyWork(PublicHoliday, 8.0)
    ensures !isHoliday(date) ==> r.hours == hours
    ensures !isHoliday(date) && DayOfWeek(date) == 0 ==>
      r.kind == (if hours > 8.0 then HolidayOvertime else Holiday)
    ensures !isHoliday(date) && 1 <= DayOfWeek(date) <= 5 ==>
      r.kind == (if hours > 8.0 then Overtime else Regular)
    ensures !isHoliday(date) && DayOfWeek(date) == 6 ==>
      (var remaining := Max(0.0, WeeklyLimit - week.regularHours);
       r.kind in {Regular, Overtime} && (r.kind == Regular <==> remaining > 0.0 && hours <= remaining))
  {
    var dayOfWeek := DayOfWeek(date);
    if isHoliday(date) then DailyWork(PublicHoliday, 8.0)
    else if dayOfWeek == 0 then
      if hours > DailyLimit then DailyWork(HolidayOvertime, hours) else DailyWork(Holiday, hours)
    else if 1 <= dayOfWeek <= 5 then
      var overtimeHours := Max(0.0, hours - DailyLimit);
      DailyWork(if overtimeHours > 0.0 then Overtime else Regular, hours)
    else
      // dayOfWeek == 6; getDay() has no other value, so the source's final
      // `{ REGULAR, 0 }` is never reached
      var remaining := Max(0.0, WeeklyLimit - week.regularHours);
      if remaining > 0.0 then
        var regularHours := Min(remaining, hours);
        var overtimeHours := Max(0.0, hours - regularHours);
        DailyWork(if overtimeHours > 0.0 then Overtime else Regular, hours)
      else
        DailyWork(Overtime, hours)
  }

  /**
   * With the server's own holiday check every Sunday is a public holiday, so
   * the Sunday branch is dead: no day is ever `HOLIDAY` or `HOLIDAY_OVERTIME`.
   */
  lemma SundayBranchUnreachable(date: Date, hours: real, week: WeeklyWork)
    ensures CalculateDailyWorkType(SundayOnly, date, hours, week).kind !in {Holiday, HolidayOvertime}
    ensures DayOfWeek(date) == 0 ==> CalculateDailyWorkType(SundayOnly, date, hours, week) == DailyWork(PublicHoliday, 8.0)
  {
  }

  /** Public-holiday days, rain days, regular days off and days off of a week. */
  function NonWorkingDays(w: WeeklyWork): int
  {
    w.publicHolidayDays + w.rainDays + w.regularOffDays + w.dayoffDays
  }

  /** `calculateWeeklyHolidayHours`: the weekly paid holiday (주휴) in hours. */
  function CalculateWeeklyHolidayHours(w: WeeklyWork, hourlyRate: real): (r: real)
    ensures w.absenceDays > 0 ==> r == 0.0
    ensures NonWorkingDays(w) >= 5 ==> r == 0.0
    ensures w.weekdayBasicWorkDays < 5 - NonWorkingDays(w) ==> r == 0.0
    ensures Min(WeeklyLimit, w.regularHours + w.weekendRegularHours) < 15.0 ==> r == 0.0
    ensures w.absenceDays <= 0 && NonWorkingDays(w) < 5 && w.weekdayBasicWorkDays >= 5 - NonWorkingDays(w)
            && Min(WeeklyLimit, w.regularHours + w.weekendRegularHours) >= 15.0
            ==> r == Min(WeeklyLimit, w.regularHours + w.weekendRegularHours) / 5.0
    ensures r == 0.0 || 3.0 <= r <= 8.0
  {
    if w.absenceDays > 0 then 0.0
    else
      var nonWorkingDays := NonWorkingDays(w);
      if nonWorkingDays >= 5 then 0.0
      else
        var requiredWorkDays := 5 - nonWorkingDays;
        if w.weekdayBasicWorkDays < requiredWorkDays then 0.0
        else
          var totalBasicHours := Min(WeeklyLimit, w.regularHours + w.weekendRegularHours);
          if totalBasicHours < 15.0 then 0.0
          else
            var weeklyHolidayHours := (totalBasicHours / 40.0) * 8.0;
            Min(weeklyHolidayHours, 8.0)
  }

  /** More basic hours never lower the weekly paid holiday, other counts equal. */
  lemma WeeklyHolidayHoursMonotone(w: WeeklyWork, extra: real, hourlyRate: real)
    requires extra >= 0.0
    ensures CalculateWeeklyHolidayHours(w, hourlyRate)
         <= CalculateWeeklyHolidayHours(w.(regularHours := w.regularHours + extra), hourlyRate)
  {
  }

  /** Pay multiplier of a work type (Art. 56: 50% premium for overtime and holiday work, 100% beyond 8 holiday hours). */
  function Premium(kind: WorkType): real
  {
    match kind
    case Regular | WeeklyHoliday | PublicHoliday => 1.0
    case Overtime | Holiday => 1.5
    case HolidayOvertime => 2.0
    case Absent | RainOff | RegularOff => 0.0
  }

  /** `calculateWage`. */
  function CalculateWage(hourlyRate: real, kind: WorkType, hours: real): (r: real)
    ensures kind == PublicHoliday ==> r == hourlyRate * 8.0
    ensures kind != PublicHoliday ==> r == Premium(kind) * hourlyRate * hours
    ensures kind in {Absent, RainOff, RegularOff} ==> r == 0.0
  {
    match kind
    case Regular => hourlyRate * hours
    case Overtime => hourlyRate * hours * 1.5
    case Holiday => hourlyRate * hours * 1.5
    case HolidayOvertime => hourlyRate * hours * 2.0
    case WeeklyHoliday => hourlyRate * hours
    case PublicHoliday => hourlyRate * 8.0
    case _ => 0.0
  }

  /** A public holiday pays eight hours whatever the hours input: 0 hours or 12 are paid alike. */
  lemma PublicHolidayPaysEightHours(isHoliday: Date -> bool, date: Date, h1: real, h2: real, week: WeeklyWork, rate: real)
    requires isHoliday(date)
    ensures var d1 := CalculateDailyWorkType(isHoliday, date, h1, week);
            var d2 := CalculateDailyWorkType(isHoliday, date, h2, week);
            CalculateWage(rate, d1.kind, d1.hours) == CalculateWage(rate, d2.kind, d2.hours) == 8.0 * rate
  {
  }

  /** For a fixed type, pay grows with hours at a non-negative rate. */
  lemma WageMonotoneInHours(rate: real, kind: WorkType, h1: real, h2: real)
    requires rate >= 0.0 && h1 <= h2
    ensures CalculateWage(rate, kind, h1) <= CalculateWage(rate, kind, h2)
  {
    if kind != PublicHoliday {
      var c := Premium(kind) * rate;
      ProductNonNegative(Premium(kind), rate);
      ProductNonNegative(c, h2 - h1);
      assert c * h2 - c * h1 == c * (h2 - h1);
    }
  }

  lemma ProductNonNegative(a: real, b: real)
    requires a >= 0.0 && b >= 0.0
    ensures a * b >= 0.0
  {
  }

  // ---------------------------------------------------------------- week fold

  const EmptyWeek: WeeklyWork := WeeklyWork(0.0, 0.0, 0.0, 0.0, 0.0, 0, 0, 0, 0, 0, 0)

  /** One record folded into the week: the body of the `forEach` in `processWeeklyRecords`. */
  function ProcessRecord(isHoliday: Date -> bool, w: WeeklyWork, r: DatedHours): WeeklyWork
  {
    var dayOfWeek := DayOfWeek(r.date);
    var hours := r.hours;
    if isHoliday(r.date) then w.(publicHolidayDays := w.publicHolidayDays + 1)
    else if hours == 0.0 then w.(dayoffDays := w.dayoffDays + 1)
    else if dayOfWeek == 0 then
      if hours > DailyLimit then w.(holidayOvertimeHours := w.holidayOvertimeHours + hours)
      else w.(holidayHours := w.holidayHours + hours)
    else if 1 <= dayOfWeek <= 5 then
      w.(weekdayBasicWorkDays := w.weekdayBasicWorkDays + 1,
         regularHours := w.regularHours + Min(DailyLimit, hours),
         overtimeHours := w.overtimeHours + Max(0.0, hours - DailyLimit))
    else
      var remaining := Max(0.0, WeeklyLimit - w.regularHours);
      if remaining > 0.0 then
        var regularHours := Min(remaining, hours);
        w.(weekendRegularHours := w.weekendRegularHours + regularHours,
           overtimeHours := w.overtimeHours + Max(0.0, hours - regularHours))
      else
        w.(overtimeHours := w.overtimeHours + hours)
  }

  /** The week after folding `records` in order, starting from the empty week. */
  function ProcessAll(isHoliday: Date -> bool, records: seq<DatedHours>): WeeklyWork
  {
    if records == [] then EmptyWeek
    else ProcessRecord(isHoliday, ProcessAll(isHoliday, records[..|records| - 1]), records[|records| - 1])
  }

  /** `processWeeklyRecords`. */
  method ProcessWeeklyRecords(isHoliday: Date -> bool, records: seq<DatedHours>) returns (weeklyWork: WeeklyWork)
    ensures weeklyWork == ProcessAll(isHoliday, records)
  {
    weeklyWork := EmptyWeek;
    var i := 0;
    while i < |records|
      invariant 0 <= i <= |records|
      invariant weeklyWork == ProcessAll(isHoliday, records[..i])
    {
      var record := records[i];
      var dayOfWeek := DayOfWeek(record.date);
      var hours := record.hours;
      assert records[..i + 1][..i] == records[..i];
      if isHoliday(record.date) {
        weeklyWork := weeklyWork.(publicHolidayDays := weeklyWork.publicHolidayDays + 1);
      } else if hours == 0.0 {
        weeklyWork := weeklyWork.(dayoffDays := weeklyWork.dayoffDays + 1);
      } else if dayOfWeek == 0 {
        if hours > DailyLimit {
          weeklyWork := weeklyWork.(holidayOvertimeHours := weeklyWork.holidayOvertimeHours + hours);
        } else {
          weeklyWork := weeklyWork.(holidayHours := weeklyWork.holidayHours + hours);
        }
      } else if 1 <= dayOfWeek <= 5 {
        weeklyWork := weeklyWork.(weekdayBasicWorkDays := weeklyWork.weekdayBasicWorkDays + 1);
        var regularHours := Min(DailyLimit, hours);
        var overtimeHours := Max(0.0, hours - DailyLimit);
        weeklyWork := weeklyWork.(regularHours := weeklyWork.regularHours + regularHours);
        weeklyWork := weeklyWork.(overtimeHours := weeklyWork.overtimeHours + overtimeHours);
      } else {
        var remainingRegularHours := Max(0.0, WeeklyLimit - weeklyWork.regularHours);
        if remainingRegularHours > 0.0 {
          var regularHours := Min(remainingRegularHours, hours);
          var overtimeHours := Max(0.0, hours - regularHours);
          weeklyWork := weeklyWork.(weekendRegularHours := weeklyWork.weekendRegularHours + regularHours);
          weeklyWork := weeklyWork.(overtimeHours := weeklyWork.overtimeHours + overtimeHours);
        } else {
          weeklyWork := weeklyWork.(overtimeHours := weeklyWork.overtimeHours + hours);
        }
      }
      i := i + 1;
    }
    assert records[..|records|] == records;
  }

  /** Records that are public holidays. */
  function HolidayCount(isHoliday: Date -> bool, rs: seq<DatedHours>): int
  {
    if rs == [] then 0
    else HolidayCount(isHoliday, rs[..|rs| - 1]) + (if isHoliday(rs[|rs| - 1].date) then 1 else 0)
  }

  /** Records that are not holidays and carry zero hours. */
  function DayOffCount(isHoliday: Date -> bool, rs: seq<DatedHours>): int
  {
    if rs == [] then 0
    else
      var r := rs[|rs| - 1];
      DayOffCount(isHoliday, rs[..|rs| - 1]) + (if !isHoliday(r.date) && r.hours == 0.0 then 1 else 0)
  }

  /** Records that are neither holidays nor zero-hour days: the worked ones. */
  function WorkedRecords(isHoliday: Date -> bool, rs: seq<DatedHours>): seq<DatedHours>
  {
    if rs == [] then []
    else
      var r := rs[|rs| - 1];
      WorkedRecords(isHoliday, rs[..|rs| - 1]) + (if !isHoliday(r.date) && r.hours != 0.0 then [r] else [])
  }

  /** Sum of the hours of `rs`. */
  function TotalHours(rs: seq<DatedHours>): real
  {
    if rs == [] then 0.0 else TotalHours(rs[..|rs| - 1]) + rs[|rs| - 1].hours
  }

  /** Worked Monday–Friday records. */
  function WeekdayWorkedCount(isHoliday: Date -> bool, rs: seq<DatedHours>): int
  {
    if rs == [] then 0
    else
      var r := rs[|rs| - 1];
      WeekdayWorkedCount(isHoliday, rs[..|rs| - 1])
        + (if !isHoliday(r.date) && r.hours != 0.0 && 1 <= DayOfWeek(r.date) <= 5 then 1 else 0)
  }

  /** All five hour buckets of a week together. */
  function BucketHours(w: WeeklyWork): real
  {
    w.regularHours + w.weekendRegularHours + w.overtimeHours + w.holidayHours + w.holidayOvertimeHours
  }

  /** What one record changes in the week. */
  lemma ProcessRecordDelta(isHoliday: Date -> bool, w: WeeklyWork, r: DatedHours)
    ensures var w' := ProcessRecord(isHoliday, w, r);
      && w'.absenceDays == w.absenceDays && w'.rainDays == w.rainDays && w'.regularOffDays == w.regularOffDays
      && w'.publicHolidayDays == w.publicHolidayDays + (if isHoliday(r.date) then 1 else 0)
      && w'.dayoffDays == w.dayoffDays + (if !isHoliday(r.date) && r.hours == 0.0 then 1 else 0)
      && w'.weekdayBasicWorkDays == w.weekdayBasicWorkDays
           + (if !isHoliday(r.date) && r.hours != 0.0 && 1 <= DayOfWeek(r.date) <= 5 then 1 else 0)
      && BucketHours(w') == BucketHours(w) + (if !isHoliday(r.date) && r.hours != 0.0 then r.hours else 0.0)
  {
  }

  /** The five hour buckets of a week, in declaration order. */
  function HourBuckets(w: WeeklyWork): seq<real>
  {
    [w.regularHours, w.weekendRegularHours, w.overtimeHours, w.holidayHours, w.holidayOvertimeHours]
  }

  /**
   * Where one record's hours go. A holiday or a zero-hour day moves no hours.
   * A Sunday puts all its hours in one bucket, holiday overtime above 8 hours
   * and holiday hours otherwise. Monday to Friday put up to 8 hours in the
   * regular bucket and the rest in overtime. A Saturday puts as much as the
   * room left under 40 weekday hours allows in the weekend bucket and the
   * rest in overtime; with no room left all of it is overtime.
   */
  lemma ProcessRecordBuckets(isHoliday: Date -> bool, w: WeeklyWork, r: DatedHours)
    ensures var w' := ProcessRecord(isHoliday, w, r);
      isHoliday(r.date) || r.hours == 0.0 ==> HourBuckets(w') == HourBuckets(w)
    ensures var w' := ProcessRecord(isHoliday, w, r);
      !isHoliday(r.date) && r.hours != 0.0 && DayOfWeek(r.date) == 0 ==>
        HourBuckets(w') == [w.regularHours, w.weekendRegularHours, w.overtimeHours,
                            w.holidayHours + (if r.hours > DailyLimit then 0.0 else r.hours),
                            w.holidayOvertimeHours + (if r.hours > DailyLimit then r.hours else 0.0)]
    ensures var w' := ProcessRecord(isHoliday, w, r);
      !isHoliday(r.date) && r.hours != 0.0 && 1 <= DayOfWeek(r.date) <= 5 ==>
        HourBuckets(w') == [w.regularHours + Min(DailyLimit, r.hours), w.weekendRegularHours,
                            w.overtimeHours + Max(0.0, r.hours - DailyLimit),
                            w.holidayHours, w.holidayOvertimeHours]
    ensures var w' := ProcessRecord(isHoliday, w, r);
      var room := Max(0.0, WeeklyLimit - w.regularHours);
      !isHoliday(r.date) && r.hours != 0.0 && DayOfWeek(r.date) == 6 ==>
        && w'.regularHours == w.regularHours
        && w'.holidayHours == w.holidayHours && w'.holidayOvertimeHours == w.holidayOvertimeHours
        && w'.weekendRegularHours == w.weekendRegularHours + (if room > 0.0 then Min(room, r.hours) else 0.0)
        && w'.overtimeHours == w.overtimeHours + (if room > 0.0 then Max(0.0, r.hours - room) else r.hours)
  {
  }

  /** Monday to Friday, the regular bucket never holds more than 8 hours per worked day. */
  lemma {:induction false} RegularHoursWithinDailyLimit(isHoliday: Date -> bool, rs: seq<DatedHours>)
    ensures ProcessAll(isHoliday, rs).regularHours <= DailyLimit * ProcessAll(isHoliday, rs).weekdayBasicWorkDays as real
  {
    if rs != [] {
      var w := ProcessAll(isHoliday, rs[..|rs| - 1]);
      RegularHoursWithinDailyLimit(isHoliday, rs[..|rs| - 1]);
      ProcessRecordDelta(isHoliday, w, rs[|rs| - 1]);
      ProcessRecordBuckets(isHoliday, w, rs[|rs| - 1]);
    }
  }

  /**
   * What the fold counts, record by record: holidays in `publicHolidayDays`,
   * zero-hour days in `dayoffDays`, worked Monday–Friday days in
   * `weekdayBasicWorkDays`; absence, rain and regular-off days are never
   * counted.
   */
  lemma {:induction false} ProcessAllCounts(isHoliday: Date -> bool, rs: seq<DatedHours>)
    ensures var w := ProcessAll(isHoliday, rs);
      && w.absenceDays == 0 && w.rainDays == 0 && w.regularOffDays == 0
      && w.publicHolidayDays == HolidayCount(isHoliday, rs)
      && w.dayoffDays == DayOffCount(isHoliday, rs)
      && w.weekdayBasicWorkDays == WeekdayWorkedCount(isHoliday, rs)
  {
    if rs != [] {
      ProcessAllCounts(isHoliday, rs[..|rs| - 1]);
      ProcessRecordDelta(isHoliday, ProcessAll(isHoliday, rs[..|rs| - 1]), rs[|rs| - 1]);
    }
  }

  /** The hour buckets together hold exactly the hours of the worked records. */
  lemma {:induction false} ProcessAllHours(isHoliday: Date -> bool, rs: seq<DatedHours>)
    ensures BucketHours(ProcessAll(isHoliday, rs)) == TotalHours(WorkedRecords(isHoliday, rs))
  {
    if rs != [] {
      var init, r := rs[..|rs| - 1], rs[|rs| - 1];
      ProcessAllHours(isHoliday, init);
      var w := ProcessAll(isHoliday, init);
      ProcessRecordDelta(isHoliday, w, r);
      assert ProcessAll(isHoliday, rs) == ProcessRecord(isHoliday, w, r);
      var worked := WorkedRecords(isHoliday, init);
      if !isHoliday(r.date) && r.hours != 0.0 {
        assert WorkedRecords(isHoliday, rs) == worked + [r];
        assert (worked + [r])[..|worked|] == worked;
        assert TotalHours(worked + [r]) == TotalHours(worked) + r.hours;
      } else {
        assert WorkedRecords(isHoliday, rs) == worked;
      }
    }
  }

  /** Each record does exactly one of three things: holiday, day off, or worked. */
  lemma {:induction false} EachRecordOneEffect(isHoliday: Date -> bool, rs: seq<DatedHours>)
    ensures HolidayCount(isHoliday, rs) + DayOffCount(isHoliday, rs) + |WorkedRecords(isHoliday, rs)| == |rs|
  {
    if rs != [] {
      EachRecordOneEffect(isHoliday, rs[..|rs| - 1]);
    }
  }

  /**
   * The fold and the daily classifier agree on a worked day (positive hours,
   * not a holiday): the classifier says overtime exactly when the fold puts
   * hours into `overtimeHours`, and holiday overtime exactly when the fold
   * puts them into `holidayOvertimeHours`.
   */
  lemma FoldAgreesWithClassifier(isHoliday: Date -> bool, w: WeeklyWork, r: DatedHours)
    requires !isHoliday(r.date) && r.hours > 0.0
    ensures var c := CalculateDailyWorkType(isHoliday, r.date, r.hours, w);
            var w' := ProcessRecord(isHoliday, w, r);
            && (c.kind == Overtime <==> w'.overtimeHours > w.overtimeHours)
            && (c.kind == HolidayOvertime <==> w'.holidayOvertimeHours > w.holidayOvertimeHours)
            && BucketHours(w') == BucketHours(w) + r.hours
  {
  }

  // ---------------------------------------------------------------- grouping

  /** Key of the `recordsByWeek` dictionary: `${date.getFullYear()}-${weekNumber}`. */
  datatype WeekKey = WeekKey(year: int, week: int)

  function KeyOf(r: DatedHours): WeekKey
  {
    WeekKey(r.date.year, GetWeekNumber(r.date))
  }

  /** The dictionary after the records of `rs` have been pushed in order. */
  function Grouped(rs: seq<DatedHours>): map<WeekKey, seq<DatedHours>>
  {
    if rs == [] then map[]
    else
      var g := Grouped(rs[..|rs| - 1]);
      var r := rs[|rs| - 1];
      var k := KeyOf(r);
      g[k := (if k in g then g[k] else []) + [r]]
  }

  /** Keys of the dictionary in insertion order, the order `Object.keys` lists them. */
  function KeyOrder(rs: seq<DatedHours>): seq<WeekKey>
  {
    if rs == [] then []
    else
      var o := KeyOrder(rs[..|rs| - 1]);
      var k := KeyOf(rs[|rs| - 1]);
      if k in o then o else o + [k]
  }

  /** One turn of the `forEach`: file `record` under its week key, creating the bucket if need be. */
  method PushRecord(recordsByWeek: map<WeekKey, seq<DatedHours>>, keys: seq<WeekKey>, record: DatedHours)
    returns (recordsByWeek': map<WeekKey, seq<DatedHours>>, keys': seq<WeekKey>)
    ensures var k := KeyOf(record);
      recordsByWeek' == recordsByWeek[k := (if k in recordsByWeek then recordsByWeek[k] else []) + [record]]
    ensures var k := KeyOf(record);
      keys' == if k in keys then keys else keys + [k]
  {
    var weekNumber := GetWeekNumber(record.date);
    var weekKey := WeekKey(record.date.year, weekNumber);
    recordsByWeek' := recordsByWeek;
    if weekKey !in recordsByWeek' {
      recordsByWeek' := recordsByWeek'[weekKey := []];
    }
    recordsByWeek' := recordsByWeek'[weekKey := recordsByWeek'[weekKey] + [DatedHours(record.date, record.hours)]];
    keys' := keys;
    if weekKey !in keys' {
      keys' := keys' + [weekKey];
    }
  }

  /** Pushing record `i` files it under its key and lists the key if it is new. */
  lemma GroupingStep(rs: seq<DatedHours>, i: int)
    requires 0 <= i < |rs|
    ensures var g, k := Grouped(rs[..i]), KeyOf(rs[i]);
      Grouped(rs[..i + 1]) == g[k := (if k in g then g[k] else []) + [rs[i]]]
    ensures var o, k := KeyOrder(rs[..i]), KeyOf(rs[i]);
      KeyOrder(rs[..i + 1]) == if k in o then o else o + [k]
  {
    assert rs[..i + 1][..i] == rs[..i];
  }

  /** `groupWorkRecordsByWeek`, with the dictionary's keys in insertion order. */
  method GroupWorkRecordsByWeek(records: seq<DatedHours>) returns (recordsByWeek: map<WeekKey, seq<DatedHours>>, keys: seq<WeekKey>)
    ensures recordsByWeek == Grouped(records)
    ensures keys == KeyOrder(records)
  {
    recordsByWeek := map[];
    keys := [];
    var i := 0;
    while i < |records|
      invariant 0 <= i <= |records|
      invariant recordsByWeek == Grouped(records[..i])
      invariant keys == KeyOrder(records[..i])
    {
      GroupingStep(records, i);
      recordsByWeek, keys := PushRecord(recordsByWeek, keys, records[i]);
      i := i + 1;
    }
    assert records[..|records|] == records;
  }

  /** The records of `rs` whose key is `k`, in input order. */
  function Select(rs: seq<DatedHours>, k: WeekKey): seq<DatedHours>
  {
    if rs == [] then []
    else Select(rs[..|rs| - 1], k) + (if KeyOf(rs[|rs| - 1]) == k then [rs[|rs| - 1]] else [])
  }

  /** The insertion-ordered keys are exactly the dictionary's keys, each once. */
  lemma {:induction false} KeysMatchOrder(rs: seq<DatedHours>)
    ensures forall k :: k in KeyOrder(rs) <==> k in Grouped(rs)
    ensures forall i, j :: 0 <= i < j < |KeyOrder(rs)| ==> KeyOrder(rs)[i] != KeyOrder(rs)[j]
  {
    if rs != [] {
      KeysMatchOrder(rs[..|rs| - 1]);
    }
  }

  /**
   * The grouping partitions its input: a key is present exactly when some
   * record has it, and its bucket holds exactly the records with that key,
   * in input order.
   */
  lemma {:induction false} GroupedSelects(rs: seq<DatedHours>, k: WeekKey)
    ensures k in Grouped(rs) <==> Select(rs, k) != []
    ensures k in Grouped(rs) ==> Grouped(rs)[k] == Select(rs, k)
  {
    if rs != [] {
      GroupedSelects(rs[..|rs| - 1], k);
    }
  }

  /** Sum of the bucket sizes over a list of keys. */
  function SizeSum(rs: seq<DatedHours>, keys: seq<WeekKey>): nat
  {
    if keys == [] then 0 else |Select(rs, keys[0])| + SizeSum(rs, keys[1..])
  }

  /** Appending a record of key `k` grows only bucket `k`, by one. */
  lemma {:induction false} SizeSumAppend(rs: seq<DatedHours>, r: DatedHours, keys: seq<WeekKey>)
    requires forall i, j :: 0 <= i < j < |keys| ==> keys[i] != keys[j]
    ensures SizeSum(rs + [r], keys) == SizeSum(rs, keys) + (if KeyOf(r) in keys then 1 else 0)
  {
    if keys != [] {
      assert (rs + [r])[..|rs|] == rs;
      SizeSumAppend(rs, r, keys[1..]);
      assert KeyOf(r) in keys <==> KeyOf(r) == keys[0] || KeyOf(r) in keys[1..];
    }
  }

  /** A key no record has contributes nothing. */
  lemma {:induction false} SizeSumAbsent(rs: seq<DatedHours>, keys: seq<WeekKey>, k: WeekKey)
    requires Select(rs, k) == []
    ensures SizeSum(rs, keys + [k]) == SizeSum(rs, keys)
  {
    if keys != [] {
      assert (keys + [k])[1..] == keys[1..] + [k];
      SizeSumAbsent(rs, keys[1..], k);
    }
  }

  /** Every record lands in exactly one bucket: the bucket sizes add up to the input size. */
  lemma {:induction false} GroupingIsPartition(rs: seq<DatedHours>)
    ensures SizeSum(rs, KeyOrder(rs)) == |rs|
  {
    if rs != [] {
      var init, r := rs[..|rs| - 1], rs[|rs| - 1];
      var k := KeyOf(r);
      assert rs == init + [r];
      GroupingIsPartition(init);
      KeysMatchOrder(init);
      var o := KeyOrder(init);
      if k in o {
        SizeSumAppend(init, r, o);
      } else {
        GroupedSelects(init, k);
        assert Select(init, k) == [];
        assert forall i, j :: 0 <= i < j < |o + [k]| ==> (o + [k])[i] != (o + [k])[j];
        SizeSumAppend(init, r, o + [k]);
        SizeSumAbsent(init, o, k);
        assert KeyOrder(rs) == o + [k];
      }
    }
  }

  /**
   * Records of one Monday-to-Sunday week that fall in one calendar year share
   * a dictionary key (the week number is the ISO one).
   */
  lemma SameWeekSameKey(a: DatedHours, b: DatedHours)
    requires WeekIndex(a.date) == WeekIndex(b.date) && a.date.year == b.date.year
    requires !(0 <= a.date.year <= 99)
    ensures KeyOf(a) == KeyOf(b)
  {
    SameWeekSameWeekNumber(a.date, b.date);
  }

  /**
   * In years 0 to 99 the week number is taken from the 1900s date, whose
   * weekday differs: Monday 0001-01-01 and Sunday 0001-01-07 share a week
   * and a year, yet 1901-01-01 is a Tuesday of week 1 and 1901-01-07 a
   * Monday of week 2, so the two records get keys 1-1 and 1-2.
   */
  lemma EarlyYearWeekShift()
    ensures var monday: Date := CivilDate(1, 1, 1);
            var sunday: Date := CivilDate(1, 1, 7);
            && WeekIndex(monday) == WeekIndex(sunday)
            && DayOfWeek(monday) == 1 && DayOfWeek(sunday) == 0
            && KeyOf(DatedHours(monday, 0.0)) == WeekKey(1, 1)
            && KeyOf(DatedHours(sunday, 0.0)) == WeekKey(1, 2)
  {
    var tuesday: Date := CivilDate(1901, 1, 1);
    var nextMonday: Date := CivilDate(1901, 1, 7);
    assert UtcDate(CivilDate(1, 1, 1)) == tuesday && UtcDate(CivilDate(1, 1, 7)) == nextMonday;
    assert DaysBeforeYear(1901) == 693960;
    assert ThursdayNumber(tuesday) == 693962 && IsoYear(tuesday) == 1901;
    assert ThursdayNumber(nextMonday) == 693969 && IsoYear(nextMonday) == 1901;
  }

  /**
   * Friday 0100-01-01 to Sunday 0100-01-03 belong to the week whose Thursday
   * is 0099-12-31, so `yearStart` is `Date.UTC(99, 0, 1)`, which is
   * 1999-01-01: the week number is `ceil(-693595 / 7)`, that is -99085, and
   * the three days share the key 100--99085.
   */
  lemma YearStartInTheNineteenHundreds()
    ensures var friday: Date := CivilDate(100, 1, 1);
            var sunday: Date := CivilDate(100, 1, 3);
            && IsoYear(friday) == 99 && WeekIndex(friday) == WeekIndex(sunday)
            && KeyOf(DatedHours(friday, 0.0)) == WeekKey(100, -99085)
            && KeyOf(DatedHours(sunday, 0.0)) == WeekKey(100, -99085)
  {
    var friday: Date := CivilDate(100, 1, 1);
    var sunday: Date := CivilDate(100, 1, 3);
    assert UtcDate(friday) == friday && UtcDate(sunday) == sunday;
    assert DayNumber(friday) == 36159;
    assert IsoWeekday(friday) == 5 && IsoWeekday(sunday) == 7;
    assert DaysBeforeYear(1999) == 729754;
  }

  /**
   * The key takes the calendar year, not the ISO week-numbering year: Tuesday
   * 2024-12-31 and Wednesday 2025-01-01 belong to ISO week 1 of 2025 but get
   * keys 2024-1 and 2025-1.
   */
  lemma CalendarYearKey()
    ensures var dec31: Date := CivilDate(2024, 12, 31);
            var jan1: Date := CivilDate(2025, 1, 1);
            && WeekIndex(dec31) == WeekIndex(jan1)
            && IsoYear(dec31) == IsoYear(jan1) == 2025
            && KeyOf(DatedHours(dec31, 0.0)) == WeekKey(2024, 1)
            && KeyOf(DatedHours(jan1, 0.0)) == WeekKey(2025, 1)
  {
    var dec31: Date := CivilDate(2024, 12, 31);
    var jan1: Date := CivilDate(2025, 1, 1);
    assert UtcDate(dec31) == dec31 && UtcDate(jan1) == jan1;
    assert DaysBeforeYear(2025) == 739251;
    assert ThursdayNumber(dec31) == ThursdayNumber(jan1) == 739252;
    assert IsoYear(dec31) == IsoYear(jan1) == 2025;
  }

  /**
   * For the same reason Monday 2024-01-01 (ISO week 1 of 2024) and Tuesday
   * 2024-12-31 (ISO week 1 of 2025), a year apart, share one key.
   */
  lemma CalendarYearKeyCollision()
    ensures var dec31: Date := CivilDate(2024, 12, 31);
            var jan1Before: Date := CivilDate(2024, 1, 1);
            && KeyOf(DatedHours(jan1Before, 0.0)) == KeyOf(DatedHours(dec31, 0.0))
            && IsoYear(jan1Before) == 2024 && IsoYear(dec31) == 2025
  {
    var dec31: Date := CivilDate(2024, 12, 31);
    var jan1Before: Date := CivilDate(2024, 1, 1);
    assert UtcDate(dec31) == dec31 && UtcDate(jan1Before) == jan1Before;
    assert DaysBeforeYear(2024) == 738885 && DaysBeforeYear(2025) == 739251;
    assert ThursdayNumber(dec31) == 739252 && IsoYear(dec31) == 2025;
    assert ThursdayNumber(jan1Before) == 738888 && IsoYear(jan1Before) == 2024;
  }
}
