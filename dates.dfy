/** Calendar dates as Go's time package reads them with the layout "2006-01-02"
    (four-digit year, two-digit month, two-digit day, separated by '-'), and the
    ordering Time.After gives dates at midnight UTC. */
module Dates {
  import opened Wrappers

  /** A day of the proleptic Gregorian calendar (midnight UTC of that day). */
  datatype Date = Date(year: int, month: int, day: int)

  /** Go's zero Time{}: January 1 of year 1, what time.Parse returns on any error. */
  const ZeroDate: Date := Date(1, 1, 1)

  /** Go's isLeap. Divisibility does not depend on how '%' rounds, so Dafny's
      Euclidean remainder agrees with Go's truncating one here. */
  predicate IsLeap(year: int) {
    year % 4 == 0 && (year % 100 != 0 || year % 400 == 0)
  }

  /** Go's daysIn: the length of a month, February having 29 days in leap years. */
  function DaysIn(month: int, year: int): (n: int)
    requires 1 <= month <= 12
    ensures 28 <= n <= 31
    ensures n == 29 <==> month == 2 && IsLeap(year)
  {
    if month == 2 then (if IsLeap(year) then 29 else 28)
    else if month == 4 || month == 6 || month == 9 || month == 11 then 30
    else 31
  }

  predicate IsCalendarDate(d: Date) {
    1 <= d.month <= 12 && 1 <= d.day <= DaysIn(d.month, d.year)
  }

  predicate IsDigit(c: char) {
    '0' <= c <= '9'
  }

  function DigitValue(c: char): (n: int)
    requires IsDigit(c)
    ensures 0 <= n <= 9
  {
    c as int - '0' as int
  }

  function DigitChar(n: int): (c: char)
    requires 0 <= n <= 9
    ensures IsDigit(c) && DigitValue(c) == n
  {
    ('0' as int + n) as char
  }

  predicate AllDigits(s: string) {
    forall i :: 0 <= i < |s| ==> IsDigit(s[i])
  }

  /** The decimal value of a string of digits, most significant digit first. */
  function Number(s: string): (n: nat)
    requires AllDigits(s)
  {
    if s == [] then 0 else 10 * Number(s[..|s| - 1]) + DigitValue(s[|s| - 1])
  }

  /** The strings time.Parse("2006-01-02", s) accepts: exactly ten characters,
      four year digits, '-', two month digits naming a month 01-12, '-', and two
      day digits naming a day of that month; nothing before or after. */
  predicate HasDateLayout(s: string) {
    |s| == 10 && s[4] == '-' && s[7] == '-' &&
    AllDigits(s[0..4]) && AllDigits(s[5..7]) && AllDigits(s[8..10]) &&
    IsCalendarDate(Date(Number(s[0..4]), Number(s[5..7]), Number(s[8..10])))
  }

  // The steps of time.Parse for the layout "2006-01-02", in layout order.

  /** stdLongYear: at least four bytes left, and those four are a number. */
  function ParseLongYear(s: string): Option<(int, string)> {
    if |s| < 4 || !IsDigit(s[0]) || !IsDigit(s[1]) || !IsDigit(s[2]) || !IsDigit(s[3]) then None
    else Some((1000 * DigitValue(s[0]) + 100 * DigitValue(s[1]) + 10 * DigitValue(s[2]) + DigitValue(s[3]), s[4..]))
  }

  /** getnum(s, true), used by stdZeroMonth and stdZeroDay: exactly two digits. */
  function ParseTwoDigits(s: string): Option<(int, string)> {
    if |s| < 2 || !IsDigit(s[0]) || !IsDigit(s[1]) then None
    else Some((10 * DigitValue(s[0]) + DigitValue(s[1]), s[2..]))
  }

  /** The literal '-' between layout elements. */
  function ParseSeparator(s: string): Option<string> {
    if |s| >= 1 && s[0] == '-' then Some(s[1..]) else None
  }

  /** time.Parse("2006-01-02", s), without the error value: None where Go
      returns an error. A month outside 1-12, text left over after the day and a
      day outside its month are errors, as in Go. */
  function Parse(s: string): (r: Option<Date>)
    ensures r.Some? <==> HasDateLayout(s)
    ensures r.Some? ==> IsCalendarDate(r.value) && 0 <= r.value.year <= 9999
    ensures r.Some? ==> Format(r.value) == s
  {
    LayoutDigits(s);
    var y := ParseLongYear(s);
    if y.None? then None else
    var (year, s1) := y.value;
    var s2 := ParseSeparator(s1);
    if s2.None? then None else
    var m := ParseTwoDigits(s2.value);
    if m.None? then None else
    var (month, s3) := m.value;
    if month < 1 || 12 < month then None else
    var s4 := ParseSeparator(s3);
    if s4.None? then None else
    var d := ParseTwoDigits(s4.value);
    if d.None? then None else
    var (day, rest) := d.value;
    if |rest| > 0 then None
    else if day < 1 || day > DaysIn(month, year) then None
    else
      FormatDigits(s);
      Some(Date(year, month, day))
  }

  /** Lines 108-109 of globals/globals.go: the parsed date with the error
      dropped, so a string that does not parse reads as the zero date. */
  function ParseIgnoringError(s: string): (d: Date)
    ensures IsCalendarDate(d) && 0 <= d.year <= 9999
    ensures Parse(s).None? ==> d == ZeroDate
    ensures Parse(s).Some? ==> d == Parse(s).value
  {
    match Parse(s)
    case Some(date) => date
    case None => ZeroDate
  }

  /** Time.Format with the layout "2006-01-02", for years 0-9999. */
  function Format(d: Date): (s: string)
    requires 0 <= d.year <= 9999 && 0 <= d.month <= 99 && 0 <= d.day <= 99
    ensures |s| == 10
  {
    [DigitChar(d.year / 1000), DigitChar(d.year / 100 % 10), DigitChar(d.year / 10 % 10), DigitChar(d.year % 10), '-',
     DigitChar(d.month / 10), DigitChar(d.month % 10), '-',
     DigitChar(d.day / 10), DigitChar(d.day % 10)]
  }

  /** Time.After for two dates at midnight UTC: the first is a strictly later
      day, which is lexicographic order on (year, month, day). */
  predicate After(a: Date, b: Date) {
    a.year > b.year || (a.year == b.year && (a.month > b.month || (a.month == b.month && a.day > b.day)))
  }

  // Digit arithmetic behind the parser and the round trips.

  lemma NumberOfTwo(s: string)
    requires |s| == 2 && AllDigits(s)
    ensures Number(s) == 10 * DigitValue(s[0]) + DigitValue(s[1])
  {
    var s1 := s[..1];
    assert s1[..0] == [] && s1[0] == s[0];
    assert Number(s1) == DigitValue(s[0]);
  }

  lemma NumberOfFour(s: string)
    requires |s| == 4 && AllDigits(s)
    ensures Number(s) == 1000 * DigitValue(s[0]) + 100 * DigitValue(s[1]) + 10 * DigitValue(s[2]) + DigitValue(s[3])
  {
    var s3 := s[..3];
    assert s3[..2] == s[..2] && s3[2] == s[2];
    NumberOfTwo(s[..2]);
    assert Number(s3) == 10 * Number(s[..2]) + DigitValue(s[2]);
  }

  lemma SplitTwo(n: int)
    requires 0 <= n <= 99
    ensures n == 10 * (n / 10) + n % 10 && 0 <= n / 10 <= 9
  {
  }

  lemma SplitFour(n: int)
    requires 0 <= n <= 9999
    ensures 0 <= n / 1000 <= 9
    ensures n == 1000 * (n / 1000) + 100 * (n / 100 % 10) + 10 * (n / 10 % 10) + n % 10
  {
    var a, b, c := n / 1000, n / 100, n / 10;
    assert n == 10 * c + n % 10;
    assert c == 10 * b + c % 10;
    assert b == 10 * a + b % 10;
  }

  lemma DigitsOfFour(a: int, b: int, c: int, d: int)
    requires 0 <= a <= 9 && 0 <= b <= 9 && 0 <= c <= 9 && 0 <= d <= 9
    ensures var n := 1000 * a + 100 * b + 10 * c + d;
      n / 1000 == a && n / 100 % 10 == b && n / 10 % 10 == c && n % 10 == d
  {
    var n := 1000 * a + 100 * b + 10 * c + d;
    assert n / 10 == 100 * a + 10 * b + c;
    assert n / 100 == 10 * a + b;
  }

  lemma DigitsOfTwo(a: int, b: int)
    requires 0 <= a <= 9 && 0 <= b <= 9
    ensures (10 * a + b) / 10 == a && (10 * a + b) % 10 == b
  {
  }

  /** The layout read position by position, with the numbers spelt out. */
  lemma LayoutDigits(s: string)
    ensures HasDateLayout(s) <==>
      |s| == 10 && s[4] == '-' && s[7] == '-' &&
      IsDigit(s[0]) && IsDigit(s[1]) && IsDigit(s[2]) && IsDigit(s[3]) &&
      IsDigit(s[5]) && IsDigit(s[6]) && IsDigit(s[8]) && IsDigit(s[9]) &&
      IsCalendarDate(Date(1000 * DigitValue(s[0]) + 100 * DigitValue(s[1]) + 10 * DigitValue(s[2]) + DigitValue(s[3]),
                          10 * DigitValue(s[5]) + DigitValue(s[6]),
                          10 * DigitValue(s[8]) + DigitValue(s[9])))
  {
    if |s| == 10 && AllDigits(s[0..4]) && AllDigits(s[5..7]) && AllDigits(s[8..10]) {
      NumberOfFour(s[0..4]);
      NumberOfTwo(s[5..7]);
      NumberOfTwo(s[8..10]);
    }
    if |s| == 10 && IsDigit(s[0]) && IsDigit(s[1]) && IsDigit(s[2]) && IsDigit(s[3]) &&
       IsDigit(s[5]) && IsDigit(s[6]) && IsDigit(s[8]) && IsDigit(s[9]) {
      assert AllDigits(s[0..4]) && AllDigits(s[5..7]) && AllDigits(s[8..10]);
    }
  }

  lemma DigitRoundTrip(c: char)
    requires IsDigit(c)
    ensures DigitChar(DigitValue(c)) == c
  {
  }

  /** Formatting the numbers read from a string of digits gives the string back. */
  lemma FormatDigits(s: string)
    requires |s| == 10 && s[4] == '-' && s[7] == '-'
    requires IsDigit(s[0]) && IsDigit(s[1]) && IsDigit(s[2]) && IsDigit(s[3])
    requires IsDigit(s[5]) && IsDigit(s[6]) && IsDigit(s[8]) && IsDigit(s[9])
    ensures Format(Date(1000 * DigitValue(s[0]) + 100 * DigitValue(s[1]) + 10 * DigitValue(s[2]) + DigitValue(s[3]),
                        10 * DigitValue(s[5]) + DigitValue(s[6]),
                        10 * DigitValue(s[8]) + DigitValue(s[9]))) == s
  {
    var year := 1000 * DigitValue(s[0]) + 100 * DigitValue(s[1]) + 10 * DigitValue(s[2]) + DigitValue(s[3]);
    var month := 10 * DigitValue(s[5]) + DigitValue(s[6]);
    var day := 10 * DigitValue(s[8]) + DigitValue(s[9]);
    DigitsOfFour(DigitValue(s[0]), DigitValue(s[1]), DigitValue(s[2]), DigitValue(s[3]));
    DigitsOfTwo(DigitValue(s[5]), DigitValue(s[6]));
    DigitsOfTwo(DigitValue(s[8]), DigitValue(s[9]));
    DigitRoundTrip(s[0]); DigitRoundTrip(s[1]); DigitRoundTrip(s[2]); DigitRoundTrip(s[3]);
    DigitRoundTrip(s[5]); DigitRoundTrip(s[6]); DigitRoundTrip(s[8]); DigitRoundTrip(s[9]);
    assert s == [s[0], s[1], s[2], s[3], '-', s[5], s[6], '-', s[8], s[9]];
  }

  /** Corollary of Parse's first postcondition, for callers: a string in the layout is parsed. */
  lemma LayoutParses(s: string)
    requires HasDateLayout(s)
    ensures Parse(s).Some?
  {
  }

  /** Formatting a calendar date and parsing it back gives the same date: no
      shift of any kind. */
  lemma {:induction false} ParseFormat(d: Date)
    requires IsCalendarDate(d) && 0 <= d.year <= 9999
    ensures Parse(Format(d)) == Some(d)
  {
    var s := Format(d);
    SplitFour(d.year);
    SplitTwo(d.month);
    SplitTwo(d.day);
    assert ParseLongYear(s) == Some((d.year, s[4..]));
    assert ParseTwoDigits(s[5..]) == Some((d.month, s[7..]));
    assert ParseTwoDigits(s[8..]) == Some((d.day, s[10..]));
  }

  // After against an independent reference: the number of days since January 1 of year 0.

  function YearLength(year: int): int {
    if IsLeap(year) then 366 else 365
  }

  function DaysBeforeYear(year: nat): nat {
    if year == 0 then 0 else DaysBeforeYear(year - 1) + YearLength(year - 1)
  }

  /** The days of a year before the first of a month, as in Go's daysBefore table. */
  function DaysBeforeMonth(month: int, year: int): nat
    requires 1 <= month <= 12
  {
    [0, 31, 59, 90, 120, 151, 181, 212, 243, 273, 304, 334][month - 1] + (if month > 2 && IsLeap(year) then 1 else 0)
  }

  lemma NextMonth(month: int, year: int)
    requires 1 <= month <= 12
    ensures month < 12 ==> DaysBeforeMonth(month + 1, year) == DaysBeforeMonth(month, year) + DaysIn(month, year)
    ensures month == 12 ==> DaysBeforeMonth(month, year) + DaysIn(month, year) == YearLength(year)
  {
  }

  function DayNumber(d: Date): nat
    requires IsCalendarDate(d) && d.year >= 0
  {
    DaysBeforeYear(d.year) + DaysBeforeMonth(d.month, d.year) + d.day - 1
  }

  lemma MonthsBeforeMonth(m1: int, m2: int, year: int)
    requires 1 <= m1 < m2 <= 12
    ensures DaysBeforeMonth(m1, year) + DaysIn(m1, year) <= DaysBeforeMonth(m2, year)
  {
  }

  /** The days of a month all fall inside its year. */
  lemma MonthInsideYear(month: int, year: int)
    requires 1 <= month <= 12
    ensures DaysBeforeMonth(month, year) + DaysIn(month, year) <= YearLength(year)
  {
  }

  lemma {:induction false} YearsBeforeYear(y1: nat, y2: nat)
    requires y1 < y2
    ensures DaysBeforeYear(y1) + YearLength(y1) <= DaysBeforeYear(y2)
  {
    if y1 + 1 < y2 {
      YearsBeforeYear(y1, y2 - 1);
    }
  }

  lemma EarlierYear(a: Date, b: Date)
    requires IsCalendarDate(a) && IsCalendarDate(b) && 0 <= a.year < b.year
    ensures DayNumber(a) < DayNumber(b)
  {
    MonthInsideYear(a.month, a.year);
    YearsBeforeYear(a.year, b.year);
  }

  lemma EarlierMonth(a: Date, b: Date)
    requires IsCalendarDate(a) && IsCalendarDate(b) && 0 <= a.year == b.year && a.month < b.month
    ensures DayNumber(a) < DayNumber(b)
  {
  }

  /** After is exactly "a later day": it agrees with comparing day numbers. */
  lemma AfterIsLaterDay(a: Date, b: Date)
    requires IsCalendarDate(a) && IsCalendarDate(b) && a.year >= 0 && b.year >= 0
    ensures After(a, b) <==> DayNumber(a) > DayNumber(b)
  {
    if a.year < b.year {
      EarlierYear(a, b);
    } else if b.year < a.year {
      EarlierYear(b, a);
    } else if a.month < b.month {
      EarlierMonth(a, b);
    } else if b.month < a.month {
      EarlierMonth(b, a);
    }
  }

  /** After is a strict total order on dates. */
  lemma AfterIsStrictTotalOrder(a: Date, b: Date, c: Date)
    ensures !After(a, a)
    ensures After(a, b) ==> !After(b, a)
    ensures After(a, b) && After(b, c) ==> After(a, c)
    ensures a == b || After(a, b) || After(b, a)
  {
  }
}
