/**
 * The date keywords of the report commands (`--from`, `--to`, `--as-of`) and
 * the calendar arithmetic behind them. "Today" is a parameter: the model
 * does not read a clock.
 */
module ReportDates {
  import opened Results

  /** A calendar date; `month` counts from 1 (January) to 12. */
  datatype Date = Date(year: int, month: int, day: int)

  predicate IsLeapYear(y: int)
  {
    y % 4 == 0 && (y % 100 != 0 || y % 400 == 0)
  }

  function DaysInMonth(y: int, m: int): (n: int)
    requires 1 <= m <= 12
    ensures 28 <= n <= 31
    ensures m == 2 ==> (n == 29 <==> IsLeapYear(y)) && (n == 28 <==> !IsLeapYear(y))
    ensures m != 2 ==> (n == 30 <==> m == 4 || m == 6 || m == 9 || m == 11) && (n == 31 <==> !(m == 4 || m == 6 || m == 9 || m == 11))
  {
    if m == 2 then (if IsLeapYear(y) then 29 else 28)
    else if m == 4 || m == 6 || m == 9 || m == 11 then 30
    else 31
  }

  predicate ValidDate(d: Date)
  {
    1 <= d.month <= 12 && 1 <= d.day <= DaysInMonth(d.year, d.month)
  }

  /** The years a JavaScript `Date` can hold, with a year of margin at each end. */
  const MinYear: int := -271820
  const MaxYear: int := 275759

  /** A date the system clock can report. */
  predicate ValidToday(t: Date)
  {
    ValidDate(t) && MinYear <= t.year <= MaxYear
  }

  /** The following calendar day: the reference against which month ends are stated. */
  function NextDay(d: Date): (n: Date)
    requires ValidDate(d)
    ensures ValidDate(n)
  {
    if d.day < DaysInMonth(d.year, d.month) then Date(d.year, d.month, d.day + 1)
    else if d.month < 12 then Date(d.year, d.month + 1, 1)
    else Date(d.year + 1, 1, 1)
  }

  /**
   * The year `new Date(year, ...)` uses: a year argument from 0 to 99 means
   * 1900 to 1999.
   */
  function ConstructorYear(year: int): int
  {
    if 0 <= year <= 99 then 1900 + year else year
  }

  /**
   * `new Date(year, monthIndex, day)` for the days the report helpers pass:
   * years 0 to 99 are read as 1900 to 1999, a zero-based month index that
   * may run past December rolls into the next year, and day 0 is the day
   * before the first of that month.
   */
  function NewDate(year: int, monthIndex: int, day: int): (r: Date)
    requires 0 <= day <= DaysInMonth(ConstructorYear(year) + monthIndex / 12, monthIndex % 12 + 1)
    ensures ValidDate(r)
    ensures day >= 1 ==> r == Date(ConstructorYear(year) + monthIndex / 12, monthIndex % 12 + 1, day)
    ensures day == 0 ==> NextDay(r) == Date(ConstructorYear(year) + monthIndex / 12, monthIndex % 12 + 1, 1)
  {
    var y, m := ConstructorYear(year) + monthIndex / 12, monthIndex % 12 + 1;
    if day >= 1 then Date(y, m, day)
    else if m == 1 then Date(y - 1, 12, 31)
    else Date(y, m - 1, DaysInMonth(y, m - 1))
  }

  /** `startOfThisMonth`: the first day of today's month. */
  function StartOfThisMonth(today: Date): (r: Date)
    requires ValidToday(today)
    ensures ValidDate(r) && r == Date(ConstructorYear(today.year), today.month, 1)
  {
    NewDate(today.year, today.month - 1, 1)
  }

  /** `startOfThisYear`: January 1 of today's year. */
  function StartOfThisYear(today: Date): (r: Date)
    requires ValidToday(today)
    ensures ValidDate(r) && r == Date(ConstructorYear(today.year), 1, 1)
  {
    NewDate(today.year, 0, 1)
  }

  /** `endOfThisMonth`: day 0 of the next month, i.e. the last day of today's month. */
  function EndOfThisMonth(today: Date): (r: Date)
    requires ValidToday(today)
    ensures ValidDate(r) && r.year == ConstructorYear(today.year) && r.month == today.month
    ensures NextDay(r).day == 1
  {
    NewDate(today.year, today.month, 0)
  }

  /**
   * `endOfPreviousMonth`: day 0 of today's month, i.e. the day before the
   * first of the month; in January it is December 31 of the previous year.
   */
  function EndOfPreviousMonth(today: Date): (r: Date)
    requires ValidToday(today)
    ensures ValidDate(r) && NextDay(r) == StartOfThisMonth(today)
    ensures today.month == 1 ==> r == Date(ConstructorYear(today.year) - 1, 12, 31)
    ensures today.month > 1 ==> r.year == ConstructorYear(today.year) && r.month == today.month - 1
  {
    NewDate(today.year, today.month - 1, 0)
  }

  /** `endOfThisYear`: December 31 of today's year, the eve of next year's first day. */
  function EndOfThisYear(today: Date): (r: Date)
    requires ValidToday(today)
    ensures ValidDate(r) && r.year == ConstructorYear(today.year)
    ensures NextDay(r) == Date(ConstructorYear(today.year) + 1, 1, 1)
  {
    NewDate(today.year, 11, 31)
  }

  // ------------------------------------------------------- ISO date text

  function Pow10(n: nat): nat
  {
    if n == 0 then 1 else 10 * Pow10(n - 1)
  }

  /** The last `width` decimal digits of `n`, zero-filled on the left. */
  function DigitText(n: nat, width: nat): (s: string)
    ensures |s| == width
    ensures forall i :: 0 <= i < width ==> '0' <= s[i] <= '9'
  {
    if width == 0 then [] else DigitText(n / 10, width - 1) + [('0' as int + n % 10) as char]
  }

  predicate AllDigits(s: string)
  {
    forall i :: 0 <= i < |s| ==> '0' <= s[i] <= '9'
  }

  /** The number a string of decimal digits denotes. */
  function DigitValue(s: string): int
  {
    if s == [] then 0 else 10 * DigitValue(s[..|s| - 1]) + (s[|s| - 1] as int - '0' as int)
  }

  /** Reading back the digits of a number that fits the width gives the number. */
  lemma {:induction false} DigitRoundTrip(n: nat, width: nat)
    requires n < Pow10(width)
    ensures DigitValue(DigitText(n, width)) == n
  {
    if width > 0 {
      DigitRoundTrip(n / 10, width - 1);
      var s := DigitText(n, width);
      assert s[..|s| - 1] == DigitText(n / 10, width - 1);
    }
  }

  /** The year as `toISOString` writes it: four digits, or a sign and six digits outside 0..9999. */
  function YearText(y: int): (s: string)
    ensures 0 <= y <= 9999 ==> |s| == 4 && AllDigits(s)
    ensures !(0 <= y <= 9999) ==> |s| == 7 && s[0] == (if y < 0 then '-' else '+') && AllDigits(s[1..])
  {
    if 0 <= y <= 9999 then DigitText(y, 4)
    else if y < 0 then "-" + DigitText(-y, 6)
    else "+" + DigitText(y, 6)
  }

  /** `date.toISOString().split('T')[0]`: the date part of the ISO 8601 text, as `YYYY-MM-DD`. */
  function IsoDate(d: Date): (s: string)
    requires ValidDate(d)
    ensures 0 <= d.year <= 9999 ==> |s| == 10 && s[4] == '-' && s[7] == '-'
  {
    YearText(d.year) + "-" + DigitText(d.month, 2) + "-" + DigitText(d.day, 2)
  }

  /** A reader of the year text: four digits, or a sign and six digits. */
  function ParseYear(s: string): Option<int>
  {
    if |s| == 4 && AllDigits(s) then Some(DigitValue(s))
    else if |s| == 7 && s[0] == '-' && AllDigits(s[1..]) then Some(-DigitValue(s[1..]))
    else if |s| == 7 && s[0] == '+' && AllDigits(s[1..]) then Some(DigitValue(s[1..]))
    else None
  }

  /** A reader of the text `IsoDate` writes: the year, '-', two digits, '-', two digits. */
  function ParseIsoDate(s: string): Option<Date>
  {
    if |s| < 6 || s[|s| - 6] != '-' || s[|s| - 3] != '-' then None
    else if !AllDigits(s[|s| - 5..|s| - 3]) || !AllDigits(s[|s| - 2..]) then None
    else
      match ParseYear(s[..|s| - 6])
      case None => None
      case Some(year) => Some(Date(year, DigitValue(s[|s| - 5..|s| - 3]), DigitValue(s[|s| - 2..])))
  }

  /** The reader accepts only the ISO layout: other separators are refused. */
  lemma ParseIsoDateRejectsOtherSeparators()
    ensures ParseIsoDate("2026/10/01") == None
    ensures ParseIsoDate("2026-1x-01") == None
  {
    assert "2026/10/01"[4] == '/';
    assert "2026-1x-01"[5..7] == "1x";
  }

  lemma YearRoundTrip(y: int)
    requires -999999 <= y <= 999999
    ensures ParseYear(YearText(y)) == Some(y)
  {
    if 0 <= y <= 9999 {
      DigitRoundTrip(y, 4);
    } else {
      var m: nat := if y < 0 then -y else y;
      DigitRoundTrip(m, 6);
      var t := YearText(y);
      assert t[1..] == DigitText(m, 6);
    }
  }

  /** Where the fields sit in `year + "-" + month + "-" + day`. */
  lemma IsoFields(y: string, m: string, d: string)
    requires |m| == 2 && |d| == 2
    ensures var s := y + "-" + m + "-" + d;
      && |s| == |y| + 6 && s[|s| - 6] == '-' && s[|s| - 3] == '-'
      && s[..|s| - 6] == y && s[|s| - 5..|s| - 3] == m && s[|s| - 2..] == d
  {
    var s := y + "-" + m + "-" + d;
    assert s[|s| - 5..|s| - 3] == m by {
      forall i | 0 <= i < 2 ensures s[|y| + 1 + i] == m[i] { }
    }
    assert s[|s| - 2..] == d by {
      forall i | 0 <= i < 2 ensures s[|y| + 4 + i] == d[i] { }
    }
  }

  /** The ISO text of a valid date names that date and no other. */
  lemma IsoDateRoundTrip(d: Date)
    requires ValidDate(d) && -999999 <= d.year <= 999999
    ensures ParseIsoDate(IsoDate(d)) == Some(d)
  {
    var ys, ms, ds := YearText(d.year), DigitText(d.month, 2), DigitText(d.day, 2);
    IsoFields(ys, ms, ds);
    YearRoundTrip(d.year);
    DigitRoundTrip(d.month, 2);
    DigitRoundTrip(d.day, 2);
  }

  // ---------------------------------------------------------------- toDate

  const StartOfThisMonthKeyword: string := "start-of-this-month"
  const EndOfThisMonthKeyword: string := "end-of-this-month"
  const EndOfPreviousMonthKeyword: string := "end-of-previous-month"
  const StartOfThisYearKeyword: string := "start-of-this-year"
  const EndOfThisYearKeyword: string := "end-of-this-year"

  predicate IsDateKeyword(s: string)
  {
    s == StartOfThisMonthKeyword || s == EndOfThisMonthKeyword || s == EndOfPreviousMonthKeyword
    || s == StartOfThisYearKeyword || s == EndOfThisYearKeyword
  }

  /**
   * `toDate`: a keyword becomes the ISO text of the day it names; any other
   * string (a date the user typed, say) is passed through unchanged.
   */
  function ToDate(d: string, today: Date): (r: string)
    requires ValidToday(today)
    ensures !IsDateKeyword(d) ==> r == d
    // each keyword gives the ISO text of its helper's date
    ensures d == StartOfThisMonthKeyword ==> r == IsoDate(StartOfThisMonth(today))
    ensures d == EndOfThisMonthKeyword ==> r == IsoDate(EndOfThisMonth(today))
    ensures d == EndOfPreviousMonthKeyword ==> r == IsoDate(EndOfPreviousMonth(today))
    ensures d == StartOfThisYearKeyword ==> r == IsoDate(StartOfThisYear(today))
    ensures d == EndOfThisYearKeyword ==> r == IsoDate(EndOfThisYear(today))
    // and that text names the calendar day the keyword describes
    ensures d == StartOfThisMonthKeyword ==> ParseIsoDate(r) == Some(Date(ConstructorYear(today.year), today.month, 1))
    ensures d == StartOfThisYearKeyword ==> ParseIsoDate(r) == Some(Date(ConstructorYear(today.year), 1, 1))
    ensures d == EndOfThisYearKeyword ==> ParseIsoDate(r) == Some(Date(ConstructorYear(today.year), 12, 31))
    ensures d == EndOfThisMonthKeyword ==>
      var y := ConstructorYear(today.year);
      ParseIsoDate(r) == Some(Date(y, today.month, DaysInMonth(y, today.month)))
    ensures d == EndOfPreviousMonthKeyword ==>
      exists p :: ParseIsoDate(r) == Some(p) && ValidDate(p) && NextDay(p) == Date(ConstructorYear(today.year), today.month, 1)
  {
    var date :=
      if d == StartOfThisMonthKeyword then StartOfThisMonth(today)
      else if d == EndOfThisMonthKeyword then EndOfThisMonth(today)
      else if d == EndOfPreviousMonthKeyword then EndOfPreviousMonth(today)
      else if d == StartOfThisYearKeyword then StartOfThisYear(today)
      else EndOfThisYear(today);
    if IsDateKeyword(d) then
      IsoDateRoundTrip(date);
      IsoDate(date)
    else
      d
  }
}
