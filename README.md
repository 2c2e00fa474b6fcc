# Korean wage calculation core, in Dafny

This project models the rule engine of a construction-site payroll system that computes Korean statutory wages from a worker's daily hours. It also models the code around the engine that loads the data and keeps it.

- **ServerWage** (`server/utils/wage-calculator.ts`) is the server's copy of the engine:
  - it classifies a day into a work type;
  - it folds a week of `(date, hours)` records into weekly totals;
  - it applies the weekly-paid-holiday (주휴) gates of the Labor Standards Act (Art. 55, with the 15-hours floor of Art. 18(3));
  - it prices hours by type with the Art. 56 premiums;
  - it groups records by week, keyed by `year-ISO week number`.
- **ClientWage** (`client/src/lib/wage-calculator.ts`) is the client's older copy. It has a different Saturday rule, a different weekly-holiday formula, and the whole-month driver `calculateTotalWage`. The two copies are kept apart on purpose.
- **Calendar** holds the proleptic Gregorian calendar that `Date` uses:
  - `getDay` (0 = Sunday);
  - month lengths;
  - the ISO 8601 week number (the week date of ISO 8601:2004, section 4.1.4);
  - `getWeekNumber`, which copies the date through `Date.UTC`, moves to the Thursday of its week and counts weeks from `yearStart`, the `Date.UTC` first of January of that Thursday's year. `Date.UTC` reads years 0 to 99 as 1900 to 1999 in both calls. So the result is the ISO week number of the copied date unless the Thursday falls in a year of 0 to 99. For a date in years 0 to 99 it is the week number of a 1900s day. For 0100-01-01 to 0100-01-03, whose Thursday is 0099-12-31, the count starts at 1999-01-01 and the result is −99085.
- **Storage** (`server/storage.ts`) is `MemStorage`, a class with four id-keyed tables and four id counters. It provides filtered lookups and the per-project view with its summary totals.
- **CalculationUtils** (`client/src/lib/calculationUtils.ts`) covers `maskSSN`, `extractYearMonth` and `getDaysInMonth`.
- **ExcelUtils** (`client/src/lib/excelUtils.ts`) covers the upload check `validateExcelData`.
- **ExcelParser** (`client/src/lib/excel-parser.ts`) covers the row and day loops of `parseExcelFile`. They turn a sheet's rows into workers and day records.
- **Text** and **Options** hold the string and wrapper helpers the modules share:
  - `split`, `join` and `trim`;
  - `Number` on digit text;
  - `Option` and `Result`.

Each module takes the form of its source:
- The classifiers and pricing rules are functions.
- Every loop of the source is a method with a `while` loop:
  - `processWeeklyRecords`;
  - `groupWorkRecordsByWeek`;
  - `calculateTotalWage` with its callback;
  - the `getProjectWithWorkers` loops;
  - the parse loops.
- Each loop method is proved equal to a recursive specification function. Lemmas then state what the source promises about that function.
- `MemStorage` is a class whose methods update its maps and counters in place, under the invariant `Valid` (the ids handed out are exactly 1 to counter − 1).

Some behaviours of the code are worth stating outright:

- **The server treats every Sunday as the public holiday.** Its `isPublicHoliday` holds exactly on Sundays, so the Sunday branch of `calculateDailyWorkType` is never reached (`SundayBranchUnreachable`). The classifier itself takes the holiday check as a parameter.
- **Sunday hours are not split by the engine.** Both copies of the classifier carry all of a Sunday's hours under one type, HOLIDAY up to 8 hours and HOLIDAY_OVERTIME above (`ClientWage.SundayHoursNotSplit`), and the wage is that type's rate times all the hours. The split into 8 holiday hours plus the rest happens only when the table displays a day (`client/src/components/ComprehensiveWageTable.tsx`, lines 112-118), not in any pay figure.
- **No status is classified.** The comment at `server/utils/wage-calculator.ts` line 60 says absence (결근), rain (우천) and regular-off (정휴) days must come from outside. The engine takes no status, so the fold never counts those days (`ServerWage.ProcessAllCounts`).
- **The week key uses the calendar year.** The comments at `server/utils/wage-calculator.ts` lines 182 and 200 call the grouping an ISO week, but the key pairs `getFullYear()` with the ISO week number. A Monday-to-Sunday week that spans New Year falls into two buckets (`ServerWage.CalendarYearKey`). Weeks a year apart can also share a bucket (`ServerWage.CalendarYearKeyCollision`).
- **Years 0 to 99 take their week number from the 1900s.** `getWeekNumber` copies the date through `Date.UTC`, which reads those years as 1900 to 1999. The weekday changes with the year, so one Monday-to-Sunday week of year 1 can get two keys (`ServerWage.EarlyYearWeekShift`); `ServerWage.SameWeekSameKey` holds for the other years. The same mapping in `yearStart` gives Friday 0100-01-01 to Sunday 0100-01-03 the week number −99085 (`ServerWage.YearStartInTheNineteenHundreds`); the three days still share one key.
- **The client's weekly holiday is not monotone.** It pays `floor(hours / 8) × 8` hours below 40 regular hours and 8 from 40 on, so 39 hours earn more than 40 (`ClientWage.WeeklyHolidayNotMonotone`).
- **The parser maps two statuses to undefined.** `WorkStatus` in `shared/schema.ts` has no `DAYOFF` and no `RAINY_DAY`, so 휴무 and 우천 get an undefined status; here that is `None`.

## Model

| member | source | states |
|---|---|---|
| ServerWage.CalculateDailyWorkType | server/utils/wage-calculator.ts:48-111 | a holiday gives PUBLIC_HOLIDAY with 8 hours, whatever the hours; otherwise the hours are unchanged; Sunday is HOLIDAY_OVERTIME iff hours > 8, else HOLIDAY; Mon–Fri is OVERTIME iff hours > 8, else REGULAR; Saturday is REGULAR iff `max(0, 40 − regularHours) > 0` and the hours fit in it, else OVERTIME |
| ServerWage.SundayBranchUnreachable | server/utils/wage-calculator.ts:39-74 | with the Sunday-only check no day is HOLIDAY or HOLIDAY_OVERTIME, and every Sunday is PUBLIC_HOLIDAY with 8 hours |
| ServerWage.CalculateWeeklyHolidayHours | server/utils/wage-calculator.ts:116-146 | 0 after an absence; 0 with 5 or more non-working days; 0 with fewer basic weekdays than `5 − nonWorkingDays`; 0 below 15 basic hours; otherwise `min(40, regular + weekendRegular) / 5`; so always 0 or within [3, 8] |
| ServerWage.WeeklyHolidayHoursMonotone | server/utils/wage-calculator.ts:136-145 | more regular hours never lower the weekly holiday, other counts equal |
| ServerWage.CalculateWage | server/utils/wage-calculator.ts:151-172 | PUBLIC_HOLIDAY pays 8 × rate whatever the hours; every other type pays its premium (1, 1.5 or 2, and 0 for the unpaid types) × rate × hours |
| ServerWage.PublicHolidayPaysEightHours | server/utils/wage-calculator.ts:55-58 | a holiday is paid 8 × rate for any two hour inputs alike |
| ServerWage.WageMonotoneInHours | server/utils/wage-calculator.ts:156-171 | at a non-negative rate, more hours of one type never pay less |
| ServerWage.ProcessWeeklyRecords | server/utils/wage-calculator.ts:213-284 | the loop's weekly totals equal the in-order fold `ProcessAll` of the records from the empty week |
| ServerWage.ProcessRecordDelta | server/utils/wage-calculator.ts:227-281 | a holiday record adds one public-holiday day; a non-holiday zero-hour record adds one day off; any other record adds its hours to the hour buckets, and one basic workday on Mon–Fri; absence, rain and regular-off days never change |
| ServerWage.ProcessRecordBuckets | server/utils/wage-calculator.ts:227-281 | a holiday or zero-hour record moves no hours; a Sunday puts all its hours in holiday overtime above 8 hours and in holiday hours otherwise; Monday to Friday put min(8, h) in regular hours and max(0, h − 8) in overtime; a Saturday puts min(room, h) in weekend regular hours and the rest in overtime, where room is what is left under 40 weekday regular hours, and all of h in overtime when no room is left; every other bucket is unchanged |
| ServerWage.RegularHoursWithinDailyLimit | server/utils/wage-calculator.ts:228-281 | after the fold the weekday regular bucket holds at most 8 hours per basic workday |
| ServerWage.ProcessAllCounts | server/utils/wage-calculator.ts:213-284 | after the fold, public-holiday days, days off and basic weekdays are the numbers of matching records; absence, rain and regular-off days are 0 |
| ServerWage.ProcessAllHours | server/utils/wage-calculator.ts:213-284 | the hour buckets together hold exactly the hours of the worked records |
| ServerWage.EachRecordOneEffect | server/utils/wage-calculator.ts:227-281 | every record is exactly one of holiday, day off or worked: the three counts add up to the number of records |
| ServerWage.FoldAgreesWithClassifier | server/utils/wage-calculator.ts:227-281 | on a worked day the classifier says OVERTIME exactly when the fold books overtime hours, and HOLIDAY_OVERTIME exactly when it books holiday-overtime hours |
| ServerWage.GroupWorkRecordsByWeek | server/utils/wage-calculator.ts:177-197 | the loop's dictionary equals `Grouped(records)`, and its keys in insertion order are `KeyOrder(records)` |
| ServerWage.PushRecord | server/utils/wage-calculator.ts:180-195 | one `forEach` turn files the record under its key, appended to the existing bucket or to a new empty one, and lists the key once when it is new |
| ServerWage.GroupingStep | server/utils/wage-calculator.ts:180-195 | the dictionary and the key order after one more record are those of one push onto the earlier ones |
| ServerWage.KeysMatchOrder | server/utils/wage-calculator.ts:177-197 | the insertion-ordered keys are exactly the dictionary's keys, each listed once |
| ServerWage.GroupedSelects | server/utils/wage-calculator.ts:177-197 | a key is present iff some record has it, and its bucket is exactly the records with that key, in input order |
| ServerWage.GroupingIsPartition | server/utils/wage-calculator.ts:177-197 | the bucket sizes add up to the number of records: each record lands in exactly one bucket |
| ServerWage.YearStartInTheNineteenHundreds | server/utils/wage-calculator.ts:202-208 | Friday 0100-01-01 to Sunday 0100-01-03 lie in ISO year 99, and `yearStart` becomes 1999-01-01, so their key is 100 with week −99085 |
| ServerWage.SameWeekSameKey | server/utils/wage-calculator.ts:177-208 | two records of one Monday-to-Sunday week in one calendar year outside 0–99 share a key |
| ServerWage.EarlyYearWeekShift | server/utils/wage-calculator.ts:184-186 | Monday 0001-01-01 and Sunday 0001-01-07 share a week and a year, yet get keys 1-1 and 1-2, because the week numbers come from 1901-01-01 (a Tuesday) and 1901-01-07 (a Monday) |
| ServerWage.CalendarYearKey | server/utils/wage-calculator.ts:184-186 | 2024-12-31 and 2025-01-01 share a week and ISO year 2025, yet get keys 2024-1 and 2025-1 |
| ServerWage.CalendarYearKeyCollision | server/utils/wage-calculator.ts:184-186 | 2024-01-01 and 2024-12-31 lie in ISO years 2024 and 2025, yet share key 2024-1 |
| Calendar.WeekNumber | server/utils/wage-calculator.ts:204-207 | the ISO week number, computed from the week's Thursday, lies in 1..53 |
| Calendar.UtcDate | server/utils/wage-calculator.ts:203 | `Date.UTC` leaves a date outside years 0–99 unchanged and moves one in years 0–99 to year 1900 + y |
| Calendar.UtcDateDayNumber | server/utils/wage-calculator.ts:203 | for years 0–99 the `Date.UTC` date lies `day − 1` days after the first of the same month of year 1900 + y, so 0000-02-29 rolls over to 1900-03-01 |
| Calendar.ThursdayOrdinalByDayNumber | server/utils/wage-calculator.ts:205-207 | the day count from the first of January of the Thursday's year, plus one, is the Thursday's ordinal in its year |
| Calendar.GetWeekNumberIsIsoWeek | server/utils/wage-calculator.ts:202-208 | unless the week's Thursday falls in a year of 0–99, `getWeekNumber` is the ISO week number of the `Date.UTC` copy, in 1..53; for a date outside years 0–99 whose Thursday is too, it is the date's own ISO week number |
| Calendar.SameWeekSameWeekNumber | server/utils/wage-calculator.ts:202-208 | dates whose `Date.UTC` copies share a Monday-to-Sunday week get the same `getWeekNumber`, whatever their years |
| Calendar.SameWeekSameIsoWeek | server/utils/wage-calculator.ts:202-208 | the days of one Monday-to-Sunday week have the same Thursday, ISO week number and ISO year |
| Calendar.IsoWeekday | server/utils/wage-calculator.ts:204 | `getDay() \|\| 7` lies in 1..7, is 7 exactly on Sunday, and is `getDay()` on the other days |
| Calendar.DayOfWeek | server/utils/wage-calculator.ts:53 | `getDay()` lies in 0..6 |
| Calendar.NextDayNumber | server/utils/wage-calculator.ts:53 | the day numbers behind `getDay()` count calendar days: the day after any date has the next number, across month and year ends |
| Calendar.DayOfWeekSteps | server/utils/wage-calculator.ts:53 | `getDay()` of the next calendar day is `getDay()` plus one, modulo 7 |
| Calendar.DayOfWeekAnchors | server/utils/wage-calculator.ts:53 | `getDay()` is 1 (Monday) on 0001-01-01 and 2024-01-01 and 4 (Thursday) on 1970-01-01 |
| ClientWage.CalculateDailyWorkType | client/src/lib/wage-calculator.ts:43-101 | the holiday check comes first and gives PUBLIC_HOLIDAY with 8 hours; otherwise the hours are unchanged; Sunday is HOLIDAY_OVERTIME iff hours > 8, else HOLIDAY; Mon–Fri is OVERTIME iff hours > 8, else REGULAR; Saturday is REGULAR iff `regularHours + hours ≤ 40`, else OVERTIME |
| ClientWage.CalculateWeeklyHolidayHours | client/src/lib/wage-calculator.ts:106-117 | 0 after an absence; 8 from 40 regular hours on; below that `floor(total / 8) × 8` |
| ClientWage.WeeklyHolidayNotMonotone | client/src/lib/wage-calculator.ts:106-117 | 39 regular hours earn 32 weekly-holiday hours and 40 earn 8 |
| ClientWage.CalculateWage | client/src/lib/wage-calculator.ts:122-147 | REGULAR and WEEKLY_HOLIDAY pay rate × h; OVERTIME and HOLIDAY pay 1.5 × rate × h; HOLIDAY_OVERTIME pays 2 × rate × h; PUBLIC_HOLIDAY pays 8 × rate; the unpaid types pay 0 |
| ClientWage.WageScales | client/src/lib/wage-calculator.ts:122-147 | pay is the rate times the pay at rate 1 |
| ClientWage.SundayHoursNotSplit | client/src/lib/wage-calculator.ts:58-69 | a non-holiday Sunday is paid `2 × rate × h` when h > 8 and `1.5 × rate × h` otherwise, all hours at one rate |
| ClientWage.VisitDate | client/src/lib/wage-calculator.ts:167-198 | one callback run takes the running total and the open week to `Step` of them for that date |
| ClientWage.CalculateTotalWage | client/src/lib/wage-calculator.ts:152-201 | the returned total is that of `Run`, the callback applied to the dates in order |
| ClientWage.TotalIsDayPlusWeekWages | client/src/lib/wage-calculator.ts:152-201 | the total after n dates is the sum of their day wages plus the weekly-holiday wages settled so far |
| ClientWage.OpenWeekHoldsRegularHoursOnly | client/src/lib/wage-calculator.ts:172-178 | the open week holds only regular and weekend-regular hours (non-negative for non-negative inputs); its overtime, holiday and absence totals stay 0, so the absence gate never fires |
| ClientWage.StepKeepsRegularOnly | client/src/lib/wage-calculator.ts:167-198 | one callback run keeps the open week free of overtime, holiday and absence totals, with non-negative regular totals when no day has negative hours |
| ClientWage.RegularDayHours | client/src/lib/wage-calculator.ts:168-169 | with no negative entry, a day classified REGULAR carries non-negative hours |
| ClientWage.WeekResets | client/src/lib/wage-calculator.ts:184-197 | after a Sunday or the last date the open week is emptied; on any other day the new open week is the previous one with the day's REGULAR hours added (Saturday to the weekend total, other days to the weekday total), and the running total grows by the day's wage |
| ClientWage.SettledWeeklyHoliday | client/src/lib/wage-calculator.ts:184-197 | with non-negative hours every weekly holiday settled is 0, 8, 16, 24 or 32 hours |
| ClientWage.MissingDayIsZero | client/src/lib/wage-calculator.ts:168 | a date with no entry in `workHours` gives the same run as one entered as 0 hours |
| Storage.InOrder | server/storage.ts:80-82 | `Array.from(map.values())` lists the entries with ids 1, 2, … in id order |
| Storage.InOrderHolds | server/storage.ts:80-82 | the listing holds exactly the stored values |
| Storage.InOrderExtend | server/storage.ts:55-60 | storing under the next id keeps the ids dense and appends to the listing |
| Storage.Matching | server/storage.ts:62-66 | a filter keeps exactly the elements whose key matches |
| Storage.MatchingAppend | server/storage.ts:62-66 | filtering keeps order: it distributes over concatenation |
| Storage.First | server/storage.ts:112-116 | `find` gives nothing iff no element matches, and otherwise the first matching element |
| Storage.DayKeyOfDate | server/storage.ts:144 | the day key of a `Y-M-D` text is its `D` piece |
| Storage.HoursMapKeys | server/storage.ts:140-146 | the day map has a key exactly for the days some work-hour record names |
| Storage.HoursMapLastWins | server/storage.ts:140-146 | a day's hours are those of the last record for that day |
| Storage.CollectDayHours | server/storage.ts:140-146 | the loop builds exactly `HoursMap` of the records |
| Storage.EntryOf | server/storage.ts:148-158 | a listed worker keeps its own fields; its wage is the `totalWage` of its first calculation result, and 0 when it has none; its day map is built from its own work hours only |
| Storage.Entries | server/storage.ts:135-159 | one entry per worker |
| Storage.EntriesAt | server/storage.ts:135-159 | entry i is the entry of worker i, in the given order |
| Storage.ProjectViewStep | server/storage.ts:135-159 | one more worker appends its entry and adds its result's wage and hours (0 without one) to the totals |
| Storage.VisitWorker | server/storage.ts:136-158 | one loop pass yields the worker's entry, its wage and its hours from its first result, 0 without one |
| Storage.ProjectView | server/storage.ts:161-169 | the view keeps the project; `totalEmployees` is the number of listed workers; `totalWages` is the sum of their wages; `totalHours` is the sum over the workers of their first result's hours, 0 for a worker without one |
| Storage.NoResultsNoTotals | server/storage.ts:148-152 | with no result for any of its workers, a project's wage and hour totals are 0 |
| Storage.TotalsNonNegative | server/storage.ts:132-152 | non-negative results give non-negative totals |
| Storage.BuildProjectView | server/storage.ts:129-169 | the worker loop yields exactly `ProjectView` of the project, its workers, their hours and results |
| Storage.MemStorage.constructor | server/storage.ts:38-49 | four empty tables, every counter at 1 |
| Storage.MemStorage.GetWorker | server/storage.ts:51-53 | a worker exactly for ids 1 .. counter − 1, the one stored under that id |
| Storage.MemStorage.CreateWorker | server/storage.ts:55-60 | the new worker is the input with the current counter as id, stored under it, and appended to the listing; the counter grows by one; nothing else changes |
| Storage.MemStorage.GetWorkersByProjectId | server/storage.ts:62-66 | exactly the stored workers of the project, in id order |
| Storage.MemStorage.GetProject | server/storage.ts:69-71 | a project exactly for ids 1 .. counter − 1, the one stored under that id |
| Storage.MemStorage.CreateProject | server/storage.ts:73-78 | as `CreateWorker`, for projects |
| Storage.MemStorage.GetAllProjects | server/storage.ts:80-82 | the stored projects in id order, project i + 1 at index i |
| Storage.MemStorage.CreateWorkHour | server/storage.ts:85-90 | as `CreateWorker`, for work hours |
| Storage.MemStorage.GetWorkHoursByWorkerId | server/storage.ts:92-96 | exactly the stored work hours of the worker, in id order |
| Storage.MemStorage.GetWorkHoursByProjectId | server/storage.ts:98-102 | exactly the stored work hours of the project, in id order |
| Storage.MemStorage.CreateCalculationResult | server/storage.ts:105-110 | as `CreateWorker`, for calculation results |
| Storage.MemStorage.GetCalculationResultByWorkerId | server/storage.ts:112-116 | nothing iff no stored result names the worker; otherwise the stored result of that worker with the smallest id |
| Storage.MemStorage.GetCalculationResultsByProjectId | server/storage.ts:118-122 | exactly the stored results of the project, in id order |
| Storage.MemStorage.GetProjectWithWorkers | server/storage.ts:125-170 | nothing iff the project is unknown; otherwise its view over the stored workers, hours and results |
| Storage.MemStorage.GetAllProjectsWithWorkers | server/storage.ts:172-184 | one view per stored project, in insertion order |
| CalculationUtils.MaskSSN | client/src/lib/calculationUtils.ts:12-25 | `""` stays `""`; otherwise the result is a prefix of the input followed by six `*`; without exactly one `-` that prefix is the first 7 characters |
| CalculationUtils.MaskOneDash | client/src/lib/calculationUtils.ts:16-20 | with one dash, `front-back` becomes `front-`, the first character of `back`, and six `*` |
| CalculationUtils.ToNumber | client/src/lib/calculationUtils.ts:42 | `Number` of a piece is a number or NaN, never undefined: NaN exactly when the trimmed piece is not all digits, 0 for a blank piece, and otherwise the value of its digits |
| CalculationUtils.ExtractYearMonth | client/src/lib/calculationUtils.ts:41-44 | the year is always present and is `Number` of the first `-`-separated piece; the month is undefined exactly when there is no `-`, and otherwise is `Number` of the second piece |
| CalculationUtils.ExtractYearMonthRoundTrip | client/src/lib/calculationUtils.ts:41-44 | the decimal texts of any year and month joined by `-` read back as exactly that year and month |
| CalculationUtils.ExtractDigits | client/src/lib/calculationUtils.ts:41-44 | digit pieces `y-m` read back as their numeric values |
| CalculationUtils.GetDaysInMonth | client/src/lib/calculationUtils.ts:47-49 | 28 to 31 days; for a month in 1..12 the Gregorian length of that month, with years 0–99 read as 1900–1999 |
| CalculationUtils.DaysInMonthByDayCount | client/src/lib/calculationUtils.ts:47-49 | the length is the day distance from the first of the month to the first of the next |
| CalculationUtils.MonthRollsOver | client/src/lib/calculationUtils.ts:47-49 | month 0 is December of the year before; months 13 and 14 are January and February of the year after |
| Text.Split | client/src/lib/calculationUtils.ts:16 | `split` gives one more piece than there are separators, none holding a separator |
| Text.JoinSplit | client/src/lib/calculationUtils.ts:16 | joining the pieces of a split gives the text back |
| Text.SplitJoin | client/src/lib/calculationUtils.ts:42 | pieces without separators, joined and split again, come back unchanged |
| Text.TrimStart | client/src/lib/excel-parser.ts:58 | removes exactly the leading white space |
| Text.TrimEnd | client/src/lib/excel-parser.ts:58 | removes exactly the trailing white space |
| Text.NumberOf | client/src/lib/excel-parser.ts:87 | `Number` of a text is 0 for blank text, the digits' value for digit text, and NaN otherwise |
| Text.NatToStringValue | client/src/lib/excel-parser.ts:58 | `toString()` of a number reads back as that number |
| ExcelUtils.FirstMissing | client/src/lib/excelUtils.ts:46-56 | nothing iff every required column is present; otherwise the first missing one in the listed order |
| ExcelUtils.DateColumns | client/src/lib/excelUtils.ts:59-63 | exactly the first row's keys that match `^\d+일$` |
| ExcelUtils.ValidateExcelData | client/src/lib/excelUtils.ts:37-69 | no data gives the no-data message; valid iff there is a first row with all four required columns and a day column; valid results carry no error and invalid ones an error |
| ExcelUtils.OnlyFirstRowMatters | client/src/lib/excelUtils.ts:37-69 | two inputs with the same first row get the same verdict |
| ExcelUtils.ReportsFirstMissingColumn | client/src/lib/excelUtils.ts:46-56 | the first missing required column is the one reported, before any day-column check |
| ExcelUtils.NoDateColumnReported | client/src/lib/excelUtils.ts:59-66 | with the required columns present and no day column, the no-date-column message is reported |
| ExcelUtils.DayHeadings | client/src/lib/excelUtils.ts:59-63 | `1일` … `31일` are day columns and no required heading is |
| ExcelParser.NumberValue | client/src/lib/excel-parser.ts:45 | `Number(cell \|\| 0)` of a falsy cell is 0 |
| ExcelParser.Classify | client/src/lib/excel-parser.ts:63-85 | `isHoliday` iff 공휴일; `isWageless` iff 휴무, 정휴 or 우천; the status is undefined iff 휴무 or 우천, and otherwise the trimmed text itself |
| ExcelParser.ReadCell | client/src/lib/excel-parser.ts:55-58 | a cell is skipped exactly when it is `undefined` |
| ExcelParser.DayCells | client/src/lib/excel-parser.ts:55-57 | day d reads column 3 + d, for d in 1..31 |
| ExcelParser.DayRecord | client/src/lib/excel-parser.ts:87-99 | an emitted record is for that day, with ids 0, the flags of the cell's text, and its hours |
| ExcelParser.ZeroCellHasNoHours | client/src/lib/excel-parser.ts:58-88 | a cell whose trimmed text is `0` has `Number` 0 |
| ExcelParser.FilledRecordIff | client/src/lib/excel-parser.ts:87-88 | a present cell emits iff its text is not `0`, given that a `0` cell has no hours |
| ExcelParser.DayRecordIff | client/src/lib/excel-parser.ts:56-88 | a cell emits iff it is defined and its trimmed text is not `0` |
| ExcelParser.DayRecords | client/src/lib/excel-parser.ts:55-100 | records name days 1..31 with ids 0, in strictly increasing day order |
| ExcelParser.DayRecordsSnoc | client/src/lib/excel-parser.ts:55-100 | one more day appends that day's record, if any |
| ExcelParser.DayRecordsSound | client/src/lib/excel-parser.ts:55-100 | every listed record is the one its own day cell yields |
| ExcelParser.DayRecordsComplete | client/src/lib/excel-parser.ts:55-100 | every day whose cell yields a record has it in the list |
| ExcelParser.DayListed | client/src/lib/excel-parser.ts:55-100 | the list has an entry for day d iff that day's cell yields one |
| ExcelParser.DayEmitted | client/src/lib/excel-parser.ts:55-100 | a row has a record for day d iff cell 3 + d is defined and its trimmed text is not `0` |
| ExcelParser.ProcessRow | client/src/lib/excel-parser.ts:33-100 | a row is skipped iff it is missing or empty or its first cell is falsy; it throws iff not skipped and `row[2]` is a number; a kept row's worker has name `row[0]`, ssn `row[1]`, project 0, is hourly iff `row[2]` is 시급, and has amount `Number(row[3] \|\| 0)`; its work-hour records are exactly `DayRecords` of its day cells (one per day 1..31 whose cell yields one, see `DayEmitted`) |
| ExcelParser.ParseRows | client/src/lib/excel-parser.ts:29-108 | failure carries the format-error message; on success there are fewer workers than rows |
| ExcelParser.Extend | client/src/lib/excel-parser.ts:29-108 | a failure stays a failure, and a throwing row makes one |
| ExcelParser.ParseRowsStep | client/src/lib/excel-parser.ts:29-104 | one more row extends the result of the rows before it |
| ExcelParser.RecordsInRange | client/src/lib/excel-parser.ts:91-99 | every parsed record has a day in 1..31 and ids 0 |
| ExcelParser.FailureSticks | client/src/lib/excel-parser.ts:104-108 | a row that throws fails the whole parse, whatever follows it |
| ExcelParser.WorkersCountKeptRows | client/src/lib/excel-parser.ts:40-49 | one worker per row that is neither skipped nor throwing |
| ExcelParser.PushDayRecords | client/src/lib/excel-parser.ts:55-100 | the day loop appends exactly `DayRecords` of the row's cells |
| ExcelParser.ParseRow | client/src/lib/excel-parser.ts:33-100 | one pass of the row loop is `Extend` by that row's outcome |
| ExcelParser.ParseSheet | client/src/lib/excel-parser.ts:29-108 | the loop's result equals `ParseRows` of the rows |

## Left out

- Promises and `async` in `server/storage.ts`, and the `FileReader`/XLSX wrapper of `parseExcelFile`, are left out: the methods are synchronous, and the parser starts from the rows `sheet_to_json` yields.
- The `holidays-kr` library is not part of this model. The client takes its holiday check as the parameter `isHoliday`, and so does the server's classifier.
- Hours and money are exact reals, not IEEE doubles, so rounding is not modelled.
- ServerWage.SameWeekSameKey: stated for years outside 0–99 only. In those years `Date.UTC` moves the date to the 1900s, whose weekdays differ, so two days of one week can get two keys (`ServerWage.EarlyYearWeekShift` gives such a pair).
- Dates are civil dates `(year, month, day)` with no time of day and no time zone.
- Calendar.Date: only valid calendar days are modelled. An unparsable `new Date(...)` is an Invalid Date whose `getDay()` is NaN; in the source it fails every weekday test of `calculateDailyWorkType` and reaches the final `{ type: REGULAR, hours: 0 }` return at `server/utils/wage-calculator.ts` line 110, which the model does not have.
- CalculationUtils.MaskSSN: strings are sequences of Unicode scalar values, while `substring(0, 1)` and `substring(0, 7)` count UTF-16 code units. The two agree for the Basic Multilingual Plane, which holds Korean text and digits, and differ for characters outside it.
- Text.NumberOf: `Number` is modelled for digit text only, as for ExcelParser.NumberValue below.
- CalculationUtils.ToNumber: `Number` of a year or month piece is modelled for digit text only, as for ExcelParser.NumberValue below; a signed or fractional piece reads as NaN here.
- ExcelParser.NumberValue: `Number` is modelled for digit text only (blank text is 0). Signs, decimal points, exponents and hexadecimal text read as NaN (`None`). Cells are absent, text, or non-negative whole numbers. Boolean cells and fractional or negative numbers are not modelled.
- ExcelParser.ProcessRow: `row[2]?.toLowerCase() === '시급'` is exact equality with 시급, which has no case. It throws for a number cell and is false for an absent one.
- The `workHoursData` dictionary that the day loop fills and never reads is left out.
- ExcelParser.PushDayRecords: the row's day cells are read (trimmed and converted by `Number`) before the day loop runs. Reading a cell has no effect, so the records are the same.
- ExcelParser.ParseSheet returns at once for a sheet of at most one row. The source's loop does nothing then.
- Storage.BuildProjectView takes the worker's work hours and result as filters of the stored listings, which is what `getWorkHoursByWorkerId` and `getCalculationResultByWorkerId` compute.
- Storage.MemStorage.GetAllProjects states the listing in id order. That the listing holds exactly the stored projects is the lemma `Storage.InOrderHolds`.
- ServerWage.CalculateWage: only monotonicity in the hours is proved. Proportionality to the rate is proved for the client copy (`ClientWage.WageScales`) only, because the server's premium-times-rate product made that proof nonlinear.
- ClientWage.CalculateWage: `WorkType.RAIN` and `WorkType.DAYOFF` are not members of the enum, so those two cases pay 0 with the other unpaid types.
- `formatCurrency`, `formatDate`, the React pages, the HTTP routes and the Excel download helpers are presentation and I/O. They are not part of this model.
