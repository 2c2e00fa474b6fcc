/**
 * The upload check of client/src/lib/excelUtils.ts: a sheet read as rows of
 * column name -> cell is accepted when it has a first row holding the four
 * required columns and at least one day column (`1일`, `2일`, ...).
 */
module ExcelUtils {
  import opened Options
  import opened Text

  /** Day suffix of a date column heading. */
  const Il: char := '\U{C77C}'  // 일

  const NoDataMessage: string := "엑셀 파일에 데이터가 없습니다."
  const NoDateColumnMessage: string := "엑셀 파일에 날짜 컬럼이 없습니다."

  /** 이름 (name), 주민번호 (registration number), 임금유형 (wage type), 임금액 (wage amount), in the order checked. */
  const RequiredColumns: seq<string> := ["이름", "주민번호", "임금유형", "임금액"]

  function MissingColumnMessage(column: string): string
  {
    "엑셀 파일에 '" + column + "' 컬럼이 없습니다."
  }

  datatype Validation = Validation(isValid: bool, error: Option<string>)

  /** `/^\d+일$/.test(key)`: one or more ASCII digits followed by 일. */
  predicate IsDateColumn(key: string)
  {
    |key| >= 2 && key[|key| - 1] == Il && AllDigits(key[..|key| - 1])
  }

  /** The first of `columns` that `row` lacks, if any. */
  function FirstMissing<V>(columns: seq<string>, row: map<string, V>): (r: Option<string>)
    ensures r.None? <==> forall i :: 0 <= i < |columns| ==> columns[i] in row
    ensures r.Some? ==> exists i :: 0 <= i < |columns| && columns[i] == r.value && r.value !in row
                          && forall j :: 0 <= j < i ==> columns[j] in row
  {
    if columns == [] then None
    else if columns[0] !in row then Some(columns[0])
    else
      var rest := FirstMissing(columns[1..], row);
      if rest.Some? then
        var i :| 0 <= i < |columns| - 1 && columns[1..][i] == rest.value && rest.value !in row
                 && forall j :: 0 <= j < i ==> columns[1..][j] in row;
        assert columns[i + 1] == rest.value;
        rest
      else
        rest
  }

  /** The headings of a row that name a day of the month. */
  function DateColumns<V>(row: map<string, V>): (keys: set<string>)
    ensures forall k :: k in keys <==> k in row && IsDateColumn(k)
  {
    set k | k in row.Keys && IsDateColumn(k)
  }

  /**
   * `validateExcelData`: no rows; else the first required column the first
   * row lacks; else no day column in the first row; else valid.
   */
  function ValidateExcelData<V>(data: seq<map<string, V>>): (r: Validation)
    ensures |data| == 0 ==> r == Validation(false, Some(NoDataMessage))
    ensures r.isValid <==>
              && |data| > 0
              && (forall c :: c in RequiredColumns ==> c in data[0])
              && (exists k :: k in data[0] && IsDateColumn(k))
    ensures r.isValid ==> r.error == None
    ensures !r.isValid ==> r.error.Some?
  {
    if |data| == 0 then Validation(false, Some(NoDataMessage))
    else
      var firstRow := data[0];
      match FirstMissing(RequiredColumns, firstRow)
      case Some(column) => Validation(false, Some(MissingColumnMessage(column)))
      case None =>
        if |DateColumns(firstRow)| == 0 then
          Validation(false, Some(NoDateColumnMessage))
        else
          Validation(true, None)
  }

  /** Only the first row is inspected. */
  lemma OnlyFirstRowMatters<V>(data: seq<map<string, V>>, other: seq<map<string, V>>)
    requires |data| > 0 && |other| > 0 && data[0] == other[0]
    ensures ValidateExcelData(data) == ValidateExcelData(other)
  {
  }

  /**
   * The required columns are checked in order and before the day columns:
   * the first one missing is the one reported, whatever else is wrong.
   */
  lemma {:induction false} ReportsFirstMissingColumn<V>(data: seq<map<string, V>>, i: int)
    requires |data| > 0 && 0 <= i < |RequiredColumns|
    requires RequiredColumns[i] !in data[0]
    requires forall j :: 0 <= j < i ==> RequiredColumns[j] in data[0]
    ensures ValidateExcelData(data) == Validation(false, Some(MissingColumnMessage(RequiredColumns[i])))
  {
    var m := FirstMissing(RequiredColumns, data[0]);
    assert m.Some?;
    var n :| 0 <= n < |RequiredColumns| && RequiredColumns[n] == m.value && m.value !in data[0]
             && forall j :: 0 <= j < n ==> RequiredColumns[j] in data[0];
    assert n == i;
  }

  /** With every required column present, a first row without a day column is rejected for that reason. */
  lemma NoDateColumnReported<V>(data: seq<map<string, V>>)
    requires |data| > 0 && forall c :: c in RequiredColumns ==> c in data[0]
    requires forall k :: k in data[0] ==> !IsDateColumn(k)
    ensures ValidateExcelData(data) == Validation(false, Some(NoDateColumnMessage))
  {
    assert FirstMissing(RequiredColumns, data[0]).None?;
    assert DateColumns(data[0]) == {};
  }

  /** `1일` through `31일`, the headings the sheet uses, are day columns; the required headings are not. */
  lemma DayHeadings(day: nat)
    ensures IsDateColumn(NatToString(day) + [Il])
    ensures forall c :: c in RequiredColumns ==> !IsDateColumn(c)
  {
    var key := NatToString(day) + [Il];
    assert key[..|key| - 1] == NatToString(day);
  }
}
