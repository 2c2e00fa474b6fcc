/**
 * Helpers of client/src/lib/calculationUtils.ts: masking a resident
 * registration number, splitting a `YYYY-MM` text, and month lengths.
 */
module CalculationUtils {
  import opened Text
  import opened Calendar

  const Stars: string := "******"

  function MinNat(a: nat, b: nat): nat { if a <= b then a else b }

  /** `s.substring(0, n)` for `n >= 0`. */
  function Prefix(s: string, n: nat): (r: string)
    ensures |r| == MinNat(n, |s|) && r == s[..|r|]
  {
    s[..MinNat(n, |s|)]
  }

  /**
   * `maskSSN`. Empty text stays empty. With exactly one `-` the front part,
   * the dash and the first character of the back part are kept; otherwise
   * the first seven characters are. Six `*` follow either way, so what is
   * shown is always a prefix of the input.
   */
  function MaskSSN(ssn: string): (r: string)
    ensures ssn == "" ==> r == ""
    ensures ssn != "" ==> |r| >= 6 && r[|r| - 6..] == Stars
    ensures ssn != "" ==> |r| - 6 <= |ssn| && r[..|r| - 6] == ssn[..|r| - 6]
    ensures ssn != "" && Count(ssn, '-') != 1 ==> r == Prefix(ssn, 7) + Stars
  {
    if ssn == "" then ""
    else
      var parts := Split(ssn, '-');
      if |parts| == 2 then
        JoinSplit(ssn, '-');
        assert ssn == parts[0] + "-" + parts[1];
        parts[0] + "-" + Prefix(parts[1], 1) + Stars
      else
        Prefix(ssn, 7) + Stars
  }

  /** With one dash, `front-back` becomes `front-` plus the first character of `back` and six `*`. */
  lemma MaskOneDash(front: string, back: string)
    requires '-' !in front && '-' !in back
    ensures MaskSSN(front + "-" + back) == front + "-" + Prefix(back, 1) + Stars
  {
    SplitPair(front, back, '-');
  }

  /** `Number(text)` applied to the pieces of a split, and a piece that is not there. */
  datatype NumberValue = Num(n: nat) | NaN | Undefined

  function ToNumber(s: string): (v: NumberValue)
    ensures v.Num? || v.NaN?
    ensures v.NaN? <==> !AllDigits(Trim(s))
    ensures Trim(s) == [] ==> v == Num(0)
    ensures Trim(s) != [] && AllDigits(Trim(s)) ==> v == Num(DigitsValue(Trim(s)))
  {
    match NumberOf(s)
    case Some(n) => Num(n)
    case None => NaN
  }

  datatype YearMonth = YearMonth(year: NumberValue, month: NumberValue)

  /** `extractYearMonth`: the first two `-`-separated pieces, as numbers. */
  function ExtractYearMonth(yearMonth: string): (r: YearMonth)
    ensures r.year != Undefined
    ensures r.month == Undefined <==> '-' !in yearMonth
    ensures r.year == ToNumber(Split(yearMonth, '-')[0])
    ensures '-' in yearMonth ==> |Split(yearMonth, '-')| >= 2 && r.month == ToNumber(Split(yearMonth, '-')[1])
  {
    var parts := Split(yearMonth, '-');
    if '-' in yearMonth then
      assert Count(yearMonth, '-') >= 1 by { CountPositive(yearMonth, '-'); }
      YearMonth(ToNumber(parts[0]), ToNumber(parts[1]))
    else
      assert |parts| == 1 by { SplitWithout(yearMonth, '-'); }
      YearMonth(ToNumber(parts[0]), Undefined)
  }

  lemma {:induction false} CountPositive(s: string, c: char)
    requires c in s
    ensures Count(s, c) >= 1
  {
    if s[0] != c {
      CountPositive(s[1..], c);
    }
  }

  /** `"2024-03"` gives year 2024 and month 3: digit pieces read back as their values. */
  lemma ExtractDigits(y: string, m: string)
    requires |y| >= 1 && |m| >= 1 && AllDigits(y) && AllDigits(m)
    ensures ExtractYearMonth(y + "-" + m) == YearMonth(Num(DigitsValue(y)), Num(DigitsValue(m)))
  {
    assert forall i :: 0 <= i < |y| ==> y[i] != '-';
    assert forall i :: 0 <= i < |m| ==> m[i] != '-';
    SplitPair(y, m, '-');
    assert (y + "-" + m)[|y|] == '-';
    DigitsTrimmed(y);
    DigitsTrimmed(m);
  }

  /** The decimal texts of a year and a month, joined by `-`, read back as that year and month. */
  lemma ExtractYearMonthRoundTrip(year: nat, month: nat)
    ensures ExtractYearMonth(NatToString(year) + "-" + NatToString(month)) == YearMonth(Num(year), Num(month))
  {
    ExtractDigits(NatToString(year), NatToString(month));
    NatToStringValue(year);
    NatToStringValue(month);
  }

  /** Digit text has no white space to trim. */
  lemma DigitsTrimmed(s: string)
    requires AllDigits(s)
    ensures Trim(s) == s
  {
    assert s != [] ==> !IsSpace(s[0]);
    assert TrimStart(s) == s;
    assert s != [] ==> !IsSpace(s[|s| - 1]);
  }

  /**
   * `getDaysInMonth(year, month)`: `new Date(year, month, 0).getDate()`,
   * the last day of the month before 0-based month `month`, that is of
   * 1-based month `month`. As with `Date`, a year of 0 to 99 means 1900 to
   * 1999 and a month outside 1..12 rolls into the neighbouring years.
   */
  function GetDaysInMonth(year: int, month: int): (n: int)
    ensures 28 <= n <= 31
    ensures 1 <= month <= 12 && !(0 <= year <= 99) ==> n == DaysInMonth(year, month)
    ensures 1 <= month <= 12 && 0 <= year <= 99 ==> n == DaysInMonth(1900 + year, month)
  {
    var fullYear := if 0 <= year <= 99 then 1900 + year else year;
    var previous := month - 1;          // 0-based month whose last day day 0 names
    DaysInMonth(fullYear + previous / 12, previous % 12 + 1)
  }

  /**
   * The month length agrees with counting days: it is the distance from the
   * first of the month to the first of the next month.
   */
  lemma DaysInMonthByDayCount(year: int, month: int)
    requires 1 <= month <= 12 && !(0 <= year <= 99)
    ensures var first: Date := CivilDate(year, month, 1);
            var next: Date := if month < 12 then CivilDate(year, month + 1, 1) else CivilDate(year + 1, 1, 1);
            DayNumber(next) - DayNumber(first) == GetDaysInMonth(year, month)
  {
    MonthsFollowEachOther(year, month);
    if month == 12 {
      DaysBeforeNextYear(year);
    }
  }

  /** Month 0 is December of the year before and month 13 January of the year after. */
  lemma MonthRollsOver(year: int)
    requires !(0 <= year <= 99)
    ensures GetDaysInMonth(year, 0) == 31 && GetDaysInMonth(year, 13) == 31
    ensures GetDaysInMonth(year, 14) == DaysInMonth(year + 1, 2)
  {
  }
}
