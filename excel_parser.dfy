/**
 * The row loop of `parseExcelFile` in client/src/lib/excel-parser.ts: a
 * sheet read as rows of cells (header row first) becomes a list of workers
 * and a list of day records, one per non-`0` day cell.
 */
module ExcelParser {
  import opened Options
  import opened Text

  /** A sheet cell: missing (`undefined`), text, or a whole number. */
  datatype Cell = Undefined | Text(s: string) | Num(n: nat)

  type Row = seq<Cell>

  /** The message the surrounding `catch` rejects the parse with. */
  const FormatErrorMessage: string := "엑셀 파일 형식이 올바르지 않습니다. 템플릿을 확인해주세요."

  const DayOff: string := "휴무"
  const Absence: string := "결근"
  const RegularHoliday: string := "정휴"
  const PublicHoliday: string := "공휴일"
  const Rain: string := "우천"
  const HourlyWord: string := "시급"

  /** Days 1 to 31 sit in columns 4 to 34. */
  const LastDay: nat := 31

  /** JavaScript truthiness of a cell. */
  predicate Truthy(c: Cell)
  {
    match c
    case Undefined => false
    case Text(s) => s != ""
    case Num(n) => n != 0
  }

  /** `row[k]`: `undefined` past the end. */
  function CellAt(row: Row, k: nat): Cell
  {
    if k < |row| then row[k] else Undefined
  }

  /** `Number(c || 0)`; `None` is `NaN`. */
  function NumberValue(c: Cell): (v: Option<nat>)
    ensures !Truthy(c) ==> v == Some(0)
  {
    match c
    case Undefined => Some(0)
    case Text(s) => NumberOf(s)
    case Num(n) => Some(n)
  }

  /** `value.toString().trim()` of a present cell. */
  function RawStatus(c: Cell): string
    requires c != Undefined
  {
    match c
    case Text(s) => Trim(s)
    case Num(n) => NatToString(n)
  }

  datatype WageType = Hourly | Daily

  datatype ParsedWorker = ParsedWorker(projectId: int, name: Cell, ssn: Cell, wageType: WageType, wageAmount: Option<nat>)

  /** A day record; `status` is `None` where the source assigns a status the schema does not define. */
  datatype ParsedWorkHour = ParsedWorkHour(
    workerId: int, projectId: int, day: nat, hours: Option<nat>,
    status: Option<string>, isHoliday: bool, isWageless: bool)

  datatype StatusFlags = StatusFlags(status: Option<string>, isHoliday: bool, isWageless: bool)

  /**
   * The `switch` on the trimmed cell text. The schema's status values are
   * the Korean words themselves, so 결근, 정휴 and 공휴일 keep their text;
   * 휴무 and 우천 map to statuses the schema lacks, i.e. `undefined`.
   */
  function Classify(raw: string): (f: StatusFlags)
    ensures f.isHoliday <==> raw == PublicHoliday
    ensures f.isWageless <==> raw == DayOff || raw == RegularHoliday || raw == Rain
    ensures f.status.None? <==> raw == DayOff || raw == Rain
    ensures f.status.Some? ==> f.status.value == raw
  {
    if raw == DayOff then StatusFlags(None, false, true)
    else if raw == Absence then StatusFlags(Some(Absence), false, false)
    else if raw == RegularHoliday then StatusFlags(Some(RegularHoliday), false, true)
    else if raw == PublicHoliday then StatusFlags(Some(PublicHoliday), true, false)
    else if raw == Rain then StatusFlags(None, false, true)
    else StatusFlags(Some(raw), false, false)
  }

  /** A day cell as the loop reads it: absent, or its trimmed text and `Number(value || 0)`. */
  datatype DayCell = Blank | Filled(raw: string, hours: Option<nat>)

  function ReadCell(c: Cell): (d: DayCell)
    ensures d.Blank? <==> c == Undefined
  {
    if c == Undefined then Blank else Filled(RawStatus(c), NumberValue(c))
  }

  /** The cells of days 1 to 31 (columns 4 to 34) of a row, read. */
  function DayCells(row: Row): (days: seq<DayCell>)
    ensures |days| == LastDay
    ensures forall i :: 0 <= i < LastDay ==> days[i] == ReadCell(CellAt(row, 4 + i))
  {
    seq(LastDay, i requires 0 <= i < LastDay => ReadCell(CellAt(row, 4 + i)))
  }

  /**
   * One pass of the day loop: the record for `day`, if the cell yields one.
   * It is kept when its hours are positive or its status is not `"0"`.
   */
  function DayRecord(cell: DayCell, day: nat): (r: Option<ParsedWorkHour>)
    ensures r.Some? ==> cell.Filled? && r.value.day == day && r.value.workerId == 0 && r.value.projectId == 0
    ensures r.Some? ==> var f := Classify(cell.raw);
              r.value.status == f.status && r.value.isHoliday == f.isHoliday && r.value.isWageless == f.isWageless
              && r.value.hours == cell.hours
  {
    match cell
    case Blank => None
    case Filled(raw, hours) =>
      var f := Classify(raw);
      if (hours.Some? && hours.value > 0) || f.status != Some("0") then
        Some(ParsedWorkHour(0, 0, day, hours, f.status, f.isHoliday, f.isWageless))
      else
        None
  }

  /** A cell whose trimmed text is `0` reads as zero hours. */
  lemma ZeroCellHasNoHours(cell: Cell)
    requires cell != Undefined && RawStatus(cell) == "0"
    ensures NumberValue(cell) == Some(0)
  {
    match cell
    case Text(s) =>
      assert AllDigits(Trim(s)) && DigitsValue(Trim(s)) == 0 by {
        assert Trim(s) == ['0'] && Trim(s)[..0] == [];
      }
    case Num(n) =>
      assert NatToString(n)[0] == '0';
  }

  /** A read cell yields a record exactly when its text is not `0`, given that a `0` cell has no hours. */
  lemma FilledRecordIff(raw: string, hours: Option<nat>, day: nat)
    requires raw == "0" ==> hours == Some(0)
    ensures DayRecord(Filled(raw, hours), day).Some? <==> raw != "0"
  {
  }

  /**
   * A cell yields a record exactly when it is present and its trimmed text
   * is not `0`: a `0` cell has no hours either, and every other text keeps
   * a status other than `"0"`.
   */
  lemma DayRecordIff(cell: Cell, day: nat)
    ensures DayRecord(ReadCell(cell), day).Some? <==> cell != Undefined && RawStatus(cell) != "0"
  {
    if cell != Undefined {
      if RawStatus(cell) == "0" {
        ZeroCellHasNoHours(cell);
      }
      FilledRecordIff(RawStatus(cell), NumberValue(cell), day);
    }
  }

  /** Records for the days of `days` (day `d` is `days[d - 1]`), in day order. */
  function DayRecords(days: seq<DayCell>): (recs: seq<ParsedWorkHour>)
    ensures forall k :: 0 <= k < |recs| ==> 1 <= recs[k].day <= |days| && recs[k].workerId == 0 && recs[k].projectId == 0
    ensures forall k, l :: 0 <= k < l < |recs| ==> recs[k].day < recs[l].day
  {
    if days == [] then []
    else
      var init := DayRecords(days[..|days| - 1]);
      var r := DayRecord(days[|days| - 1], |days|);
      if r.Some? then
        var recs := init + [r.value];
        assert forall k :: 0 <= k < |init| ==> recs[k] == init[k];
        recs
      else
        init
  }

  /** One more day appends that day's record, if any. */
  lemma DayRecordsSnoc(days: seq<DayCell>, n: nat)
    requires 1 <= n <= |days|
    ensures DayRecords(days[..n]) == DayRecords(days[..n - 1])
              + (if DayRecord(days[n - 1], n).Some? then [DayRecord(days[n - 1], n).value] else [])
  {
    assert days[..n][..n - 1] == days[..n - 1];
  }

  /** Each listed record is the one its own day cell yields. */
  lemma {:induction false} DayRecordsSound(days: seq<DayCell>, k: nat)
    requires k < |DayRecords(days)|
    ensures var rec := DayRecords(days)[k]; 1 <= rec.day <= |days| && DayRecord(days[rec.day - 1], rec.day) == Some(rec)
  {
    var front := days[..|days| - 1];
    if k < |DayRecords(front)| {
      DayRecordsSound(front, k);
      var rec := DayRecords(front)[k];
      assert front[rec.day - 1] == days[rec.day - 1];
    }
  }

  /** Every day whose cell yields a record has it in the list. */
  lemma {:induction false} DayRecordsComplete(days: seq<DayCell>, d: nat)
    requires 1 <= d <= |days| && DayRecord(days[d - 1], d).Some?
    ensures DayRecord(days[d - 1], d).value in DayRecords(days)
  {
    var front := days[..|days| - 1];
    if d < |days| {
      assert front[d - 1] == days[d - 1];
      DayRecordsComplete(front, d);
    }
  }

  /** The list of `days` has an entry for day `d` exactly when that day's cell yields one. */
  lemma DayListed(days: seq<DayCell>, d: nat)
    requires 1 <= d <= |days|
    ensures var recs := DayRecords(days);
            (exists k :: 0 <= k < |recs| && recs[k].day == d) <==> DayRecord(days[d - 1], d).Some?
  {
    var recs := DayRecords(days);
    if DayRecord(days[d - 1], d).Some? {
      DayRecordsComplete(days, d);
      var k :| 0 <= k < |recs| && recs[k] == DayRecord(days[d - 1], d).value;
      assert recs[k].day == d;
    }
    if exists k :: 0 <= k < |recs| && recs[k].day == d {
      var k :| 0 <= k < |recs| && recs[k].day == d;
      DayRecordsSound(days, k);
    }
  }

  /**
   * A row's record list has an entry for day `d` exactly when that day's
   * cell is present and its trimmed text is not `0`.
   */
  lemma DayEmitted(row: Row, d: nat)
    requires 1 <= d <= LastDay
    ensures var recs := DayRecords(DayCells(row));
            (exists k :: 0 <= k < |recs| && recs[k].day == d)
            <==> CellAt(row, 3 + d) != Undefined && RawStatus(CellAt(row, 3 + d)) != "0"
  {
    var days := DayCells(row);
    var cell := CellAt(row, 3 + d);
    DayRecordIff(cell, d);
    assert days[d - 1] == ReadCell(cell);
    DayListed(days, d);
  }

  datatype RowOutcome = Skip | Throws | Keep(worker: ParsedWorker, records: seq<ParsedWorkHour>)

  /**
   * One pass of the row loop: empty rows and rows whose first cell is falsy
   * are skipped; `row[2]?.toLowerCase()` throws on a number cell; any other
   * row yields its worker and day records.
   */
  function ProcessRow(row: Option<Row>): (o: RowOutcome)
    ensures o.Skip? <==> row.None? || |row.value| == 0 || !Truthy(row.value[0])
    ensures o.Throws? <==> !o.Skip? && CellAt(row.value, 2).Num?
    ensures o.Keep? ==> o.worker.name == row.value[0] && Truthy(o.worker.name)
    ensures o.Keep? ==> o.worker.ssn == CellAt(row.value, 1) && o.worker.projectId == 0
    ensures o.Keep? ==> (o.worker.wageType == Hourly <==> CellAt(row.value, 2) == Text(HourlyWord))
    ensures o.Keep? ==> o.worker.wageAmount == NumberValue(CellAt(row.value, 3))
    ensures o.Keep? ==> o.records == DayRecords(DayCells(row.value))
  {
    if row.None? || |row.value| == 0 || !Truthy(row.value[0]) then Skip
    else
      var cells := row.value;
      match CellAt(cells, 2)
      case Num(_) => Throws
      case wage =>
        var wageType := if wage == Text(HourlyWord) then Hourly else Daily;
        var worker := ParsedWorker(0, cells[0], CellAt(cells, 1), wageType, NumberValue(CellAt(cells, 3)));
        Keep(worker, DayRecords(DayCells(cells)))
  }

  datatype Parsed = Parsed(workers: seq<ParsedWorker>, workHours: seq<ParsedWorkHour>)

  /** The whole loop over `rows[1..]`, failing as soon as a row throws. */
  function ParseRows(rows: seq<Option<Row>>): (r: Result<Parsed, string>)
    ensures r.Failure? ==> r.error == FormatErrorMessage
    ensures r.Success? ==> |r.value.workers| < |rows| || |rows| == 0
  {
    if |rows| <= 1 then Success(Parsed([], []))
    else Extend(ParseRows(rows[..|rows| - 1]), ProcessRow(rows[|rows| - 1]))
  }

  /** The effect of one row on the result so far. */
  function Extend(sofar: Result<Parsed, string>, o: RowOutcome): (r: Result<Parsed, string>)
    ensures sofar.Failure? ==> r == sofar
    ensures o.Throws? ==> r.Failure?
  {
    match sofar
    case Failure(e) => Failure(e)
    case Success(p) =>
      match o
      case Skip => Success(p)
      case Throws => Failure(FormatErrorMessage)
      case Keep(w, recs) => Success(Parsed(p.workers + [w], p.workHours + recs))
  }

  /** Parsing one more row extends the result of the rows before it. */
  lemma ParseRowsStep(rows: seq<Option<Row>>, i: nat)
    requires 1 <= i < |rows|
    ensures ParseRows(rows[..i + 1]) == Extend(ParseRows(rows[..i]), ProcessRow(rows[i]))
  {
    assert rows[..i + 1][..i] == rows[..i];
  }

  /** Every parsed record names a day of the month and carries the placeholder ids. */
  lemma {:induction false} RecordsInRange(rows: seq<Option<Row>>)
    requires ParseRows(rows).Success?
    ensures forall k :: 0 <= k < |ParseRows(rows).value.workHours| ==>
              var rec := ParseRows(rows).value.workHours[k];
              1 <= rec.day <= LastDay && rec.workerId == 0 && rec.projectId == 0
  {
    if |rows| > 1 {
      var front := rows[..|rows| - 1];
      RecordsInRange(front);
      var o := ProcessRow(rows[|rows| - 1]);
      if o.Keep? {
        var p := ParseRows(front).value;
        var all := p.workHours + o.records;
        assert forall k :: |p.workHours| <= k < |all| ==> all[k] == o.records[k - |p.workHours|];
      }
    }
  }

  /** A row that throws fails the whole parse, whatever follows it. */
  lemma {:induction false} FailureSticks(rows: seq<Option<Row>>, n: nat)
    requires n <= |rows|
    requires ParseRows(rows[..n]).Failure?
    ensures ParseRows(rows).Failure?
    decreases |rows| - n
  {
    if n < |rows| {
      ParseRowsStep(rows, n);
      FailureSticks(rows, n + 1);
    } else {
      assert rows[..n] == rows;
    }
  }

  /** Each kept row adds one worker, each skipped row nothing. */
  lemma {:induction false} WorkersCountKeptRows(rows: seq<Option<Row>>)
    requires ParseRows(rows).Success?
    ensures |ParseRows(rows).value.workers| == KeptRows(rows)
  {
    if |rows| > 1 {
      WorkersCountKeptRows(rows[..|rows| - 1]);
    }
  }

  /** Number of rows after the header that yield a worker. */
  function KeptRows(rows: seq<Option<Row>>): nat
  {
    if |rows| <= 1 then 0
    else KeptRows(rows[..|rows| - 1]) + (if ProcessRow(rows[|rows| - 1]).Keep? then 1 else 0)
  }

  /**
   * The day loop of one row, over its day cells as read by `ReadCell`
   * (`days[d - 1]` is day `d`): absent cells are skipped, present ones are
   * classified and pushed unless their status is `"0"` and their hours are
   * not positive.
   */
  method PushDayRecords(days: seq<DayCell>, workHours: seq<ParsedWorkHour>) returns (out: seq<ParsedWorkHour>)
    ensures out == workHours + DayRecords(days)
  {
    out := workHours;
    var day := 1;
    while day <= |days|
      invariant 1 <= day <= |days| + 1
      invariant out == workHours + DayRecords(days[..day - 1])
    {
      DayRecordsSnoc(days, day);
      match days[day - 1] {
        case Blank =>
        case Filled(rawStatus, hours) =>
          var f := Classify(rawStatus);
          if (hours.Some? && hours.value > 0) || f.status != Some("0") {
            out := out + [ParsedWorkHour(0, 0, day, hours, f.status, f.isHoliday, f.isWageless)];
          }
      }
      day := day + 1;
    }
    assert days[..|days|] == days;
  }

  /**
   * One pass of the parse loop: a skipped row leaves the result alone, a
   * number in the wage-type column throws, and any other row pushes its
   * worker and then one record per emitting day.
   */
  method ParseRow(row: Option<Row>, sofar: Parsed) returns (r: Result<Parsed, string>)
    ensures r == Extend(Success(sofar), ProcessRow(row))
  {
    if row.None? || |row.value| == 0 || !Truthy(row.value[0]) {
      return Success(sofar);
    }
    var cells := row.value;
    if CellAt(cells, 2).Num? {
      return Failure(FormatErrorMessage);
    }
    var wageType := if CellAt(cells, 2) == Text(HourlyWord) then Hourly else Daily;
    var worker := ParsedWorker(0, cells[0], CellAt(cells, 1), wageType, NumberValue(CellAt(cells, 3)));
    assert ProcessRow(row) == Keep(worker, DayRecords(DayCells(cells)));
    var workHours := PushDayRecords(DayCells(cells), sofar.workHours);
    r := Success(Parsed(sofar.workers + [worker], workHours));
  }

  /** The parse loop over the rows after the header, stopping at the first row that throws. */
  method ParseSheet(jsonData: seq<Option<Row>>) returns (r: Result<Parsed, string>)
    ensures r == ParseRows(jsonData)
  {
    var sofar := Parsed([], []);
    if |jsonData| <= 1 {
      return Success(sofar);
    }
    var i := 1;
    while i < |jsonData|
      invariant 1 <= i <= |jsonData|
      invariant ParseRows(jsonData[..i]) == Success(sofar)
    {
      ParseRowsStep(jsonData, i);
      var next := ParseRow(jsonData[i], sofar);
      if next.Failure? {
        FailureSticks(jsonData, i + 1);
        assert ParseRows(jsonData).Failure?;
        return next;
      }
      sofar := next.value;
      i := i + 1;
    }
    assert jsonData[..i] == jsonData;
    r := Success(sofar);
  }
}
