/** The date formatting helpers of src/utils/dateUtils.js. A `Date` is given by
    the three fields it reports (`getFullYear`, `getMonth`, `getDate`). */
module DateUtils {
  import opened Text
  import opened DateText

  /** The month folder names, January first. */
  const MONTHS: seq<string> := ["Jan", "Feb", "Mar", "Apr", "May", "Jun", "Jul", "Aug", "Sep", "Oct", "Nov", "Dec"]

  /** `getFullYear()`, `getMonth()` (0 = January) and `getDate()` of a `Date`. */
  datatype CalendarDate = CalendarDate(year: int, month0: nat, day: nat)

  /** What a `Date` can report: a month 0..11 and a day 1..31. */
  predicate Valid(d: CalendarDate) {
    d.month0 < 12 && 1 <= d.day <= 31
  }

  /** A year written with exactly four digits. */
  predicate FourDigitYear(d: CalendarDate) {
    1000 <= d.year <= 9999
  }

  /** `monthFolder(d)`: the month's three-letter folder name. */
  function MonthFolder(d: CalendarDate): (r: string)
    requires d.month0 < 12
    ensures |r| == 3
    ensures r in MONTHS
  {
    MONTHS[d.month0]
  }

  /** Different months get different folders, so a month's records never share a folder with another month's. */
  lemma MonthFolderInjective(d: CalendarDate, e: CalendarDate)
    requires d.month0 < 12 && e.month0 < 12
    ensures MonthFolder(d) == MonthFolder(e) <==> d.month0 == e.month0
  {
  }

  /** `String(n).padStart(2, '0')` for 0 <= n < 100: two digits that read back as `n`. */
  lemma Pad2Digits(n: nat)
    requires n < 100
    ensures var s := Pad2(NatToString(n)); |s| == 2 && AllDigits(s) && DigitsValue(s) == n
  {
    var s := Pad2(NatToString(n));
    DigitsValueOfNatToString(n);
    if n < 10 {
      assert s == "0" + NatToString(n);
      assert s[..1] == "0";
    } else {
      assert NatToString(n) == NatToString(n / 10) + [DigitChar(n % 10)];
    }
  }

  lemma FourDigits(n: nat)
    requires 1000 <= n <= 9999
    ensures |NatToString(n)| == 4
  {
    assert NatToString(n) == NatToString(n / 10) + [DigitChar(n % 10)];
    assert NatToString(n / 10) == NatToString(n / 100) + [DigitChar(n / 10 % 10)];
    assert NatToString(n / 100) == NatToString(n / 1000) + [DigitChar(n / 100 % 10)];
  }

  function Year(d: CalendarDate): string { IntToString(d.year) }
  function Month(d: CalendarDate): string { Pad2(NatToString(d.month0 + 1)) }
  function Day(d: CalendarDate): string { Pad2(NatToString(d.day)) }

  /** `ymd(d)`: `YYYY-MM-DD`, a full date whose YYYYMMDD value is the date's. */
  function Ymd(d: CalendarDate): (r: string)
    ensures Valid(d) && FourDigitYear(d) ==>
      IsYmd(r) && |r| == 10 && r[4] == '-' && r[7] == '-' &&
      YmdValue(r) == d.year * 10000 + (d.month0 + 1) * 100 + d.day
  {
    if Valid(d) && FourDigitYear(d) then
      FourDigits(d.year);
      Pad2Digits(d.month0 + 1);
      Pad2Digits(d.day);
      DigitsValueOfNatToString(d.year);
      DigitsHaveNo(Year(d), '-');
      DigitsHaveNo(Month(d), '-');
      DigitsHaveNo(Day(d), '-');
      SplitThree(Year(d), Month(d), Day(d), '-');
      Year(d) + "-" + Month(d) + "-" + Day(d)
    else
      Year(d) + "-" + Month(d) + "-" + Day(d)
  }

  /** `displayDate(d)`: `DD-MM-YYYY`, in the shape the folder normaliser accepts. */
  function DisplayDate(d: CalendarDate): (r: string)
    ensures Valid(d) && FourDigitYear(d) ==>
      IsDashDmy(r) && |r| == 10 && r[2] == '-' && r[5] == '-'
  {
    if Valid(d) && FourDigitYear(d) then
      FourDigits(d.year);
      Pad2Digits(d.month0 + 1);
      Pad2Digits(d.day);
      DigitsHaveNo(Year(d), '-');
      DigitsHaveNo(Month(d), '-');
      DigitsHaveNo(Day(d), '-');
      SplitThree(Day(d), Month(d), Year(d), '-');
      Day(d) + "-" + Month(d) + "-" + Year(d)
    else
      Day(d) + "-" + Month(d) + "-" + Year(d)
  }

  /** For one date the two formats carry the same three fields in opposite order. */
  lemma FieldsReversed(d: CalendarDate)
    requires d.year >= 0
    ensures var p := Split(Ymd(d), '-');
      |p| == 3 && Split(DisplayDate(d), '-') == [p[2], p[1], p[0]]
  {
    DigitsHaveNo(Year(d), '-');
    DigitsHaveNo(Month(d), '-');
    DigitsHaveNo(Day(d), '-');
    SplitThree(Year(d), Month(d), Day(d), '-');
    SplitThree(Day(d), Month(d), Year(d), '-');
  }

  /** Text order of `ymd` output is calendar order. */
  lemma YmdOrderIsCalendarOrder(d: CalendarDate, e: CalendarDate)
    requires Valid(d) && FourDigitYear(d) && Valid(e) && FourDigitYear(e)
    ensures LexLess(Ymd(d), Ymd(e)) <==>
      d.year < e.year || (d.year == e.year && (d.month0 < e.month0 || (d.month0 == e.month0 && d.day < e.day)))
  {
    YmdTextOrderIsDateOrder(Ymd(d), Ymd(e));
    DateNumberOrder(d.year, d.month0 + 1, d.day, e.year, e.month0 + 1, e.day);
  }
}
