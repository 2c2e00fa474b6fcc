/**
 * The client's older copy of the wage rule engine
 * (client/src/lib/wage-calculator.ts). It differs from the server copy in
 * the Saturday rule (regular only while the week stays within 40 regular
 * hours), in the weekly-holiday formula (whole 8-hour days, or 8 once the
 * week reaches 40 hours) and in having a whole-month driver,
 * `calculateTotalWage`.
 *
 * The public-holiday check, which the source asks of the `holidays-kr`
 * library, is a parameter `isHoliday`.
 */
module ClientWage {
  import opened Calendar
  import Text

  /** `WorkType` (the same nine values as the server copy). */
  datatype WorkType =
    | Regular | Overtime | Holiday | HolidayOvertime | WeeklyHoliday
    | Absent | PublicHoliday | RainOff | RegularOff

  /** `DailyWork`. */
  datatype DailyWork = DailyWork(kind: WorkType, hours: real)

  /** `WeeklyWork`: this copy keeps hour totals and absence days only. */
  datatype WeeklyWork = WeeklyWork(
    regularHours: real,
    weekendRegularHours: real,
    overtimeHours: real,
    holidayHours: real,
    holidayOvertimeHours: real,
    absenceDays: int)

  const EmptyWeek: WeeklyWork := WeeklyWork(0.0, 0.0, 0.0, 0.0, 0.0, 0)

  /**
   * `calculateDailyWorkType`. The holiday check comes first and pays 8
   * hours; Sunday work is holiday work, all of it holiday overtime once the
   * day passes 8 hours; Saturday is regular while the week's Monday–Friday
   * regular hours plus the day stay within 40, and otherwise the whole day
   * is overtime.
   */
  function CalculateDailyWorkType(isHoliday: Date -> bool, date: Date, hours: real, week: WeeklyWork): (r: DailyWork)
    ensures isHoliday(date) ==> r == DailyWork(PublicHoliday, 8.0)
    ensures !isHoliday(date) ==> r.hours == hours
    ensures !isHoliday(date) && DayOfWeek(date) == 0 ==>
      r.kind in {Holiday, HolidayOvertime} && (r.kind == HolidayOvertime <==> hours > 8.0)
    ensures !isHoliday(date) && 1 <= DayOfWeek(date) <= 5 ==>
      r.kind in {Regular, Overtime} && (r.kind == Overtime <==> hours > 8.0)
    ensures !isHoliday(date) && DayOfWeek(date) == 6 ==>
      r.kind in {Regular, Overtime} && (r.kind == Regular <==> week.regularHours + hours <= 40.0)
  {
    var dayOfWeek := DayOfWeek(date);
    if isHoliday(date) then DailyWork(PublicHoliday, 8.0)
    else if dayOfWeek == 0 then
      if hours > 8.0 then DailyWork(HolidayOvertime, hours) else DailyWork(Holiday, hours)
    else if 1 <= dayOfWeek <= 5 then
      if hours > 8.0 then DailyWork(Overtime, hours) else DailyWork(Regular, hours)
    else
      // dayOfWeek == 6: the source's final `{ REGULAR, 0 }` is never reached
      var totalWeekRegularHours := week.regularHours + hours;
      if totalWeekRegularHours <= 40.0 then DailyWork(Regular, hours) else DailyWork(Overtime, hours)
  }

  /**
   * `calculateWeeklyHolidayHours`: nothing after an absence, 8 hours once the
   * week reaches 40 regular hours, and otherwise the completed 8-hour days.
   */
  function CalculateWeeklyHolidayHours(w: WeeklyWork): (r: real)
    ensures w.absenceDays > 0 ==> r == 0.0
    ensures w.absenceDays <= 0 && w.regularHours + w.weekendRegularHours >= 40.0 ==> r == 8.0
    ensures w.absenceDays <= 0 && 0.0 <= w.regularHours + w.weekendRegularHours < 40.0 ==>
      r in {0.0, 8.0, 16.0, 24.0, 32.0}
      && r <= w.regularHours + w.weekendRegularHours < r + 8.0
  {
    if w.absenceDays > 0 then 0.0
    else
      var totalRegularHours := w.regularHours + w.weekendRegularHours;
      if totalRegularHours >= 40.0 then 8.0
      else
        var days := (totalRegularHours / 8.0).Floor;
        var hours := days as real * 8.0;
        if hours <= 40.0 then hours else 40.0
  }

  /**
   * The weekly holiday is not monotone in the hours worked: 39 regular hours
   * earn 32 weekly-holiday hours, 40 regular hours earn 8.
   */
  lemma WeeklyHolidayNotMonotone()
    ensures CalculateWeeklyHolidayHours(WeeklyWork(39.0, 0.0, 0.0, 0.0, 0.0, 0)) == 32.0
    ensures CalculateWeeklyHolidayHours(WeeklyWork(40.0, 0.0, 0.0, 0.0, 0.0, 0)) == 8.0
  {
    assert (39.0 / 8.0).Floor == 4;
  }

  /** `calculateWage`; the source's `RAIN` and `DAYOFF` cases name no member and fall to 0 with the rest. */
  function CalculateWage(hourlyRate: real, kind: WorkType, hours: real): (r: real)
    ensures kind == PublicHoliday ==> r == hourlyRate * 8.0
    ensures kind in {Regular, WeeklyHoliday} ==> r == hourlyRate * hours
    ensures kind in {Overtime, Holiday} ==> r == 1.5 * hourlyRate * hours
    ensures kind == HolidayOvertime ==> r == 2.0 * hourlyRate * hours
    ensures kind in {Absent, RainOff, RegularOff} ==> r == 0.0
  {
    match kind
    case Regular => hourlyRate * hours
    case Overtime => hourlyRate * hours * 1.5
    case Holiday => hourlyRate * hours * 1.5
    case HolidayOvertime => hourlyRate * hours * 2.0
    case WeeklyHoliday => hourlyRate * hours
    case PublicHoliday => hourlyRate * 8.0
    case RegularOff => 0.0
    case _ => 0.0
  }

  /** Pay is proportional to the rate. */
  lemma WageScales(rate: real, kind: WorkType, hours: real)
    ensures CalculateWage(rate, kind, hours) == rate * CalculateWage(1.0, kind, hours)
  {
  }

  /**
   * Sunday hours are not split at 8: a Sunday of more than 8 hours is paid
   * entirely at double rate, one of at most 8 entirely at one and a half.
   */
  lemma SundayHoursNotSplit(isHoliday: Date -> bool, date: Date, hours: real, week: WeeklyWork, rate: real)
    requires !isHoliday(date) && DayOfWeek(date) == 0
    ensures var d := CalculateDailyWorkType(isHoliday, date, hours, week);
            CalculateWage(rate, d.kind, d.hours) == (if hours > 8.0 then 2.0 else 1.5) * rate * hours
  {
  }

  // ---------------------------------------------------------------- month driver

  /** `workHours[date.getDate().toString()] || 0`: a day with no entry counts as 0 hours. */
  function HoursOn(workHours: map<string, real>, date: Date): real
  {
    var key := Text.NatToString(date.day);
    if key in workHours then workHours[key] else 0.0
  }

  /** Running state of `calculateTotalWage`: the total so far and the open week. */
  datatype Progress = Progress(totalWage: real, week: WeeklyWork)

  /** Whether the loop settles the weekly holiday after the day at `i`: a Sunday or the last date. */
  predicate IsWeekEnd(dates: seq<Date>, i: int)
    requires 0 <= i < |dates|
  {
    DayOfWeek(dates[i]) == 0 || i == |dates| - 1
  }

  /** The classification of the day at `i`, given the open week before it. */
  function DayWork(isHoliday: Date -> bool, workHours: map<string, real>, dates: seq<Date>, i: int, week: WeeklyWork): DailyWork
    requires 0 <= i < |dates|
  {
    CalculateDailyWorkType(isHoliday, dates[i], HoursOn(workHours, dates[i]), week)
  }

  /** Only regular days feed the open week: Saturday into the weekend total, other days into the weekday total. */
  function Accumulate(week: WeeklyWork, date: Date, daily: DailyWork): WeeklyWork
  {
    if daily.kind == Regular then
      if DayOfWeek(date) == 6 then week.(weekendRegularHours := week.weekendRegularHours + daily.hours)
      else week.(regularHours := week.regularHours + daily.hours)
    else week
  }

  /** One turn of the `forEach` in `calculateTotalWage`, for the day at `i`. */
  function Step(isHoliday: Date -> bool, rate: real, workHours: map<string, real>, dates: seq<Date>, i: int, p: Progress): Progress
    requires 0 <= i < |dates|
  {
    var daily := DayWork(isHoliday, workHours, dates, i, p.week);
    var week := Accumulate(p.week, dates[i], daily);
    var total := p.totalWage + CalculateWage(rate, daily.kind, daily.hours);
    if IsWeekEnd(dates, i) then
      Progress(total + CalculateWage(rate, WeeklyHoliday, CalculateWeeklyHolidayHours(week)), EmptyWeek)
    else
      Progress(total, week)
  }

  /** The state after the first `n` dates. */
  function Run(isHoliday: Date -> bool, rate: real, workHours: map<string, real>, dates: seq<Date>, n: nat): Progress
    requires n <= |dates|
  {
    if n == 0 then Progress(0.0, EmptyWeek)
    else Step(isHoliday, rate, workHours, dates, n - 1, Run(isHoliday, rate, workHours, dates, n - 1))
  }

  /**
   * The `forEach` callback of `calculateTotalWage` for the date at `index`:
   * classify the day, feed the open week, add the day wage, and on a Sunday
   * or the last date add the weekly holiday wage and start a new week.
   */
  method VisitDate(isHoliday: Date -> bool, hourlyRate: real, workHours: map<string, real>, workDates: seq<Date>, index: nat,
                   totalWage0: real, weeklyWork0: WeeklyWork)
    returns (totalWage: real, weeklyWork: WeeklyWork)
    requires index < |workDates|
    ensures Progress(totalWage, weeklyWork) == Step(isHoliday, hourlyRate, workHours, workDates, index, Progress(totalWage0, weeklyWork0))
  {
    totalWage, weeklyWork := totalWage0, weeklyWork0;
    var date := workDates[index];
    var key := Text.NatToString(date.day);
    var hours := if key in workHours then workHours[key] else 0.0;
    var dailyWork := CalculateDailyWorkType(isHoliday, date, hours, weeklyWork);
    assert dailyWork == DayWork(isHoliday, workHours, workDates, index, weeklyWork0);

    if dailyWork.kind == Regular {
      if DayOfWeek(date) == 6 {
        weeklyWork := weeklyWork.(weekendRegularHours := weeklyWork.weekendRegularHours + dailyWork.hours);
      } else {
        weeklyWork := weeklyWork.(regularHours := weeklyWork.regularHours + dailyWork.hours);
      }
    }
    assert weeklyWork == Accumulate(weeklyWork0, date, dailyWork);

    totalWage := totalWage + CalculateWage(hourlyRate, dailyWork.kind, dailyWork.hours);

    if DayOfWeek(date) == 0 || index == |workDates| - 1 {
      var weeklyHolidayHours := CalculateWeeklyHolidayHours(weeklyWork);
      totalWage := totalWage + CalculateWage(hourlyRate, WeeklyHoliday, weeklyHolidayHours);
      weeklyWork := EmptyWeek;
    }
  }

  /** `calculateTotalWage`: the callback run over the dates in order. */
  method CalculateTotalWage(isHoliday: Date -> bool, hourlyRate: real, workHours: map<string, real>, workDates: seq<Date>)
    returns (totalWage: real)
    ensures totalWage == Run(isHoliday, hourlyRate, workHours, workDates, |workDates|).totalWage
  {
    totalWage := 0.0;
    var weeklyWork := EmptyWeek;
    var index := 0;
    while index < |workDates|
      invariant 0 <= index <= |workDates|
      invariant Progress(totalWage, weeklyWork) == Run(isHoliday, hourlyRate, workHours, workDates, index)
    {
      totalWage, weeklyWork := VisitDate(isHoliday, hourlyRate, workHours, workDates, index, totalWage, weeklyWork);
      index := index + 1;
    }
  }

  /** Sum of the day wages of the first `n` dates. */
  function DayWages(isHoliday: Date -> bool, rate: real, workHours: map<string, real>, dates: seq<Date>, n: nat): real
    requires n <= |dates|
  {
    if n == 0 then 0.0
    else
      var daily := DayWork(isHoliday, workHours, dates, n - 1, Run(isHoliday, rate, workHours, dates, n - 1).week);
      DayWages(isHoliday, rate, workHours, dates, n - 1) + CalculateWage(rate, daily.kind, daily.hours)
  }

  /** Sum of the weekly-holiday wages settled within the first `n` dates. */
  function WeekWages(isHoliday: Date -> bool, rate: real, workHours: map<string, real>, dates: seq<Date>, n: nat): real
    requires n <= |dates|
  {
    if n == 0 then 0.0
    else
      var before := Run(isHoliday, rate, workHours, dates, n - 1).week;
      var week := Accumulate(before, dates[n - 1], DayWork(isHoliday, workHours, dates, n - 1, before));
      WeekWages(isHoliday, rate, workHours, dates, n - 1)
        + (if IsWeekEnd(dates, n - 1) then CalculateWage(rate, WeeklyHoliday, CalculateWeeklyHolidayHours(week)) else 0.0)
  }

  /** The month total is the day wages plus the weekly-holiday wages. */
  lemma {:induction false} TotalIsDayPlusWeekWages(isHoliday: Date -> bool, rate: real, workHours: map<string, real>, dates: seq<Date>, n: nat)
    requires n <= |dates|
    ensures Run(isHoliday, rate, workHours, dates, n).totalWage
         == DayWages(isHoliday, rate, workHours, dates, n) + WeekWages(isHoliday, rate, workHours, dates, n)
  {
    if n > 0 {
      TotalIsDayPlusWeekWages(isHoliday, rate, workHours, dates, n - 1);
      var prev := Run(isHoliday, rate, workHours, dates, n - 1);
      var daily := DayWork(isHoliday, workHours, dates, n - 1, prev.week);
      var week := Accumulate(prev.week, dates[n - 1], daily);
      var settled := if IsWeekEnd(dates, n - 1) then CalculateWage(rate, WeeklyHoliday, CalculateWeeklyHolidayHours(week)) else 0.0;
      assert Run(isHoliday, rate, workHours, dates, n).totalWage == prev.totalWage + CalculateWage(rate, daily.kind, daily.hours) + settled;
    }
  }

  /**
   * The open week only ever holds regular hours: overtime, holiday and
   * absence totals stay 0, so the absence gate of the weekly holiday never
   * fires on this path. With non-negative hours the regular totals are
   * non-negative too.
   */
  lemma {:induction false} OpenWeekHoldsRegularHoursOnly(isHoliday: Date -> bool, rate: real, workHours: map<string, real>, dates: seq<Date>, n: nat)
    requires n <= |dates|
    ensures RegularOnly(Run(isHoliday, rate, workHours, dates, n).week, NonNegativeHours(workHours))
  {
    if n > 0 {
      OpenWeekHoldsRegularHoursOnly(isHoliday, rate, workHours, dates, n - 1);
      var prev := Run(isHoliday, rate, workHours, dates, n - 1);
      var nonNegative := NonNegativeHours(workHours);
      StepKeepsRegularOnly(isHoliday, rate, workHours, dates, n - 1, prev, nonNegative);
      assert Run(isHoliday, rate, workHours, dates, n) == Step(isHoliday, rate, workHours, dates, n - 1, prev);
    }
  }

  /** No day is entered with negative hours. */
  predicate NonNegativeHours(workHours: map<string, real>)
  {
    forall k :: k in workHours ==> workHours[k] >= 0.0
  }

  /** The open week holds regular hours only, non-negative ones when `nonNegative`. */
  predicate RegularOnly(w: WeeklyWork, nonNegative: bool)
  {
    && w.overtimeHours == 0.0 && w.holidayHours == 0.0 && w.holidayOvertimeHours == 0.0
    && w.absenceDays == 0
    && (nonNegative ==> w.regularHours >= 0.0 && w.weekendRegularHours >= 0.0)
  }

  /** One turn of the callback keeps the open week regular-only. */
  lemma StepKeepsRegularOnly(isHoliday: Date -> bool, rate: real, workHours: map<string, real>, dates: seq<Date>, i: int, p: Progress, nonNegative: bool)
    requires 0 <= i < |dates|
    requires nonNegative ==> NonNegativeHours(workHours)
    requires RegularOnly(p.week, nonNegative)
    ensures RegularOnly(Step(isHoliday, rate, workHours, dates, i, p).week, nonNegative)
  {
    if nonNegative {
      RegularDayHours(isHoliday, workHours, dates, i, p.week);
    }
  }

  /** With non-negative entries a regular day carries non-negative hours. */
  lemma RegularDayHours(isHoliday: Date -> bool, workHours: map<string, real>, dates: seq<Date>, i: int, week: WeeklyWork)
    requires 0 <= i < |dates|
    requires NonNegativeHours(workHours)
    ensures DayWork(isHoliday, workHours, dates, i, week).kind == Regular ==> DayWork(isHoliday, workHours, dates, i, week).hours >= 0.0
  {
  }

  /** The week closes, and a fresh one opens, exactly after each Sunday and after the last date. */
  lemma WeekResets(isHoliday: Date -> bool, rate: real, workHours: map<string, real>, dates: seq<Date>, i: nat)
    requires i < |dates|
    ensures IsWeekEnd(dates, i) ==> Run(isHoliday, rate, workHours, dates, i + 1).week == EmptyWeek
    ensures !IsWeekEnd(dates, i) ==>
      Run(isHoliday, rate, workHours, dates, i + 1).totalWage
        == Run(isHoliday, rate, workHours, dates, i).totalWage
           + (var d := DayWork(isHoliday, workHours, dates, i, Run(isHoliday, rate, workHours, dates, i).week);
              CalculateWage(rate, d.kind, d.hours))
    ensures !IsWeekEnd(dates, i) ==>
      (var before := Run(isHoliday, rate, workHours, dates, i).week;
       Run(isHoliday, rate, workHours, dates, i + 1).week
         == Accumulate(before, dates[i], DayWork(isHoliday, workHours, dates, i, before)))
  {
  }

  /** With non-negative hours every weekly holiday the month pays is 0, 8, 16, 24 or 32 hours. */
  lemma SettledWeeklyHoliday(isHoliday: Date -> bool, rate: real, workHours: map<string, real>, dates: seq<Date>, i: nat)
    requires i < |dates|
    requires NonNegativeHours(workHours)
    ensures var before := Run(isHoliday, rate, workHours, dates, i).week;
            var week := Accumulate(before, dates[i], DayWork(isHoliday, workHours, dates, i, before));
            CalculateWeeklyHolidayHours(week) in {0.0, 8.0, 16.0, 24.0, 32.0}
  {
    OpenWeekHoldsRegularHoursOnly(isHoliday, rate, workHours, dates, i);
  }

  /** A day with no entry and a day entered as 0 hours are paid alike. */
  lemma {:induction false} MissingDayIsZero(isHoliday: Date -> bool, rate: real, workHours: map<string, real>, dates: seq<Date>, key: string, n: nat)
    requires key !in workHours
    requires n <= |dates|
    ensures Run(isHoliday, rate, workHours, dates, n) == Run(isHoliday, rate, workHours[key := 0.0], dates, n)
  {
    if n > 0 {
      MissingDayIsZero(isHoliday, rate, workHours, dates, key, n - 1);
      assert HoursOn(workHours, dates[n - 1]) == HoursOn(workHours[key := 0.0], dates[n - 1]);
    }
  }
}
