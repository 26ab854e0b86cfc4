/** Gregorian dates and Julian day numbers (muduo/base/Date.cc).

    The two conversions are straight-line integer arithmetic. The independent reference is the
    Gregorian calendar itself: month lengths, the leap-year rule and the "next day" step. */
module Date {

  datatype YearMonthDay = YearMonthDay(year: int, month: int, day: int)

  newtype int32 = x: int | -0x8000_0000 <= x < 0x8000_0000

  // ----- The calendar -----

  predicate IsLeap(year: int) {
    year % 4 == 0 && (year % 100 != 0 || year % 400 == 0)
  }

  function DaysInMonth(year: int, month: int): int
  {
    if month == 2 then (if IsLeap(year) then 29 else 28)
    else if month == 4 || month == 6 || month == 9 || month == 11 then 30
    else 31
  }

  predicate ValidDate(d: YearMonthDay) {
    1 <= d.month <= 12 && 1 <= d.day <= DaysInMonth(d.year, d.month)
  }

  /** On or after March 1st of year -4800, the epoch of the formulas. */
  predicate InRange(d: YearMonthDay) {
    d.year > -4800 || (d.year == -4800 && d.month >= 3)
  }

  function NextDay(d: YearMonthDay): YearMonthDay
  {
    if d.day < DaysInMonth(d.year, d.month) then d.(day := d.day + 1)
    else if d.month < 12 then YearMonthDay(d.year, d.month + 1, 1)
    else YearMonthDay(d.year + 1, 1, 1)
  }

  predicate Before(d: YearMonthDay, e: YearMonthDay) {
    d.year < e.year || (d.year == e.year && (d.month < e.month || (d.month == e.month && d.day < e.day)))
  }

  // ----- The source's formulas -----

  /** C++ integer division by a positive constant truncates toward zero. */
  function Div(a: int, b: int): int
    requires b > 0
  {
    if a >= 0 then a / b else -((-a) / b)
  }

  function GetJulianDayNumber(year: int, month: int, day: int): int
  {
    var a := Div(14 - month, 12);
    var y := year + 4800 - a;
    var m := month + 12 * a - 3;
    day + Div(153 * m + 2, 5) + y * 365 + Div(y, 4) - Div(y, 100) + Div(y, 400) - 32045
  }

  function JulianDay(d: YearMonthDay): int {
    GetJulianDayNumber(d.year, d.month, d.day)
  }

  function GetYearMonthDay(julianDayNumber: int): YearMonthDay
  {
    var a := julianDayNumber + 32044;
    var b := Div(4 * a + 3, 146097);
    var c := a - Div(b * 146097, 4);
    var d := Div(4 * c + 3, 1461);
    var e := c - Div(1461 * d, 4);
    var m := Div(5 * e + 2, 153);
    YearMonthDay(
      b * 100 + d - 4800 + Div(m, 10),
      m + 3 - 12 * Div(m, 10),
      e - Div(153 * m + 2, 5) + 1)
  }

  /** C++ remainder: the sign of the dividend. */
  function Rem(a: int, b: int): int
    requires b > 0
  {
    a - b * Div(a, b)
  }

  function WeekDay(julianDayNumber: int): int {
    Rem(julianDayNumber + 1, 7)
  }

  /** The day of the week, Sunday being 0, exactly from day -1 on and on the Sundays before it. */
  lemma WeekDayExactly(n: int)
    ensures WeekDay(n) == (n + 1) % 7 <==> n >= -1 || (n + 1) % 7 == 0
    ensures 0 <= WeekDay(n) < 7 <==> n >= -1 || (n + 1) % 7 == 0
  {
    if n < -1 {
      var k := -(n + 1);
      assert WeekDay(n) == -(k % 7);
      assert (n + 1) % 7 == 0 <==> k % 7 == 0;
    }
  }

  /** Computed by getJulianDayNumber at start-up; see EpochDayNumber. */
  const JULIAN_DAY_OF_1970_01_01: int := 2440588

  // ----- March-based years: the coordinates in which the formulas are regular -----

  /** Days from the epoch to the start of March-based year y. */
  function YearStart(y: int): int
    requires y >= 0
  {
    365 * y + y / 4 - y / 100 + y / 400
  }

  /** Days from March 1st to the start of month m, counted from March as 0. */
  function MonthStart(m: int): int
    requires 0 <= m
  {
    (153 * m + 2) / 5
  }

  function MarchYear(d: YearMonthDay): int {
    d.year + 4800 - (if d.month <= 2 then 1 else 0)
  }

  function MarchMonth(d: YearMonthDay): int {
    if d.month <= 2 then d.month + 9 else d.month - 3
  }

  lemma JulianDayInMarchYears(d: YearMonthDay)
    requires ValidDate(d) && InRange(d)
    ensures MarchYear(d) >= 0 && 0 <= MarchMonth(d) <= 11
    ensures JulianDay(d) == d.day + MonthStart(MarchMonth(d)) + YearStart(MarchYear(d)) - 32045
  {
    assert Div(14 - d.month, 12) == (if d.month <= 2 then 1 else 0);
  }

  lemma MonthStartStep(d: YearMonthDay)
    requires ValidDate(d)
    ensures MarchMonth(d) < 11 ==>
            MonthStart(MarchMonth(d) + 1) == MonthStart(MarchMonth(d)) + DaysInMonth(d.year, d.month)
    ensures MarchMonth(d) == 11 ==> d.month == 2 && MonthStart(11) == 337
  {
    var m := MarchMonth(d);
    if m == 0 {} else if m == 1 {} else if m == 2 {} else if m == 3 {} else if m == 4 {} else if m == 5 {}
    else if m == 6 {} else if m == 7 {} else if m == 8 {} else if m == 9 {} else if m == 10 {} else {}
  }

  lemma Step4(y: int)
    ensures (y + 1) / 4 == y / 4 + (if (y + 1) % 4 == 0 then 1 else 0)
  {
  }

  lemma Step100(y: int)
    ensures (y + 1) / 100 == y / 100 + (if (y + 1) % 100 == 0 then 1 else 0)
  {
  }

  lemma Step400(y: int)
    ensures (y + 1) / 400 == y / 400 + (if (y + 1) % 400 == 0 then 1 else 0)
  {
  }

  lemma Shift4(y: int)
    ensures (y - 4800) % 4 == y % 4
  {
    assert y - 4800 == 4 * (y / 4 - 1200) + y % 4;
  }

  lemma Shift100(y: int)
    ensures (y - 4800) % 100 == y % 100
  {
    assert y - 4800 == 100 * (y / 100 - 48) + y % 100;
  }

  lemma Shift400(y: int)
    ensures (y - 4800) % 400 == y % 400
  {
    assert y - 4800 == 400 * (y / 400 - 12) + y % 400;
  }

  /** The leap-year rule has period 400. */
  lemma LeapShift(y: int)
    ensures IsLeap(y - 4800) <==> y % 4 == 0 && (y % 100 != 0 || y % 400 == 0)
  {
    Shift4(y);
    Shift100(y);
    Shift400(y);
  }

  lemma Multiples(y: int)
    ensures y % 400 == 0 ==> y % 100 == 0
    ensures y % 100 == 0 ==> y % 4 == 0
  {
  }

  /** A March-based year ends with the February of the next calendar year. */
  lemma YearStartStep(y: int)
    requires y >= 0
    ensures YearStart(y + 1) == YearStart(y) + 365 + (if IsLeap(y + 1 - 4800) then 1 else 0)
  {
    hide IsLeap;
    Step4(y);
    Step100(y);
    Step400(y);
    LeapShift(y + 1);
    Multiples(y + 1);
  }

  // ----- The formulas invert each other on the calendar -----

  /** The next calendar day has the next Julian day number. */
  lemma NextDayIsNextNumber(d: YearMonthDay)
    requires ValidDate(d) && InRange(d)
    ensures ValidDate(NextDay(d)) && InRange(NextDay(d))
    ensures JulianDay(NextDay(d)) == JulianDay(d) + 1
  {
    hide GetJulianDayNumber;
    JulianDayInMarchYears(d);
    JulianDayInMarchYears(NextDay(d));
    MonthStartStep(d);
    YearStartStep(MarchYear(d));
  }

  /** Julian day numbers order valid dates. */
  lemma JulianDayMonotone(d: YearMonthDay, e: YearMonthDay)
    requires ValidDate(d) && InRange(d) && ValidDate(e) && InRange(e)
    requires Before(d, e)
    ensures JulianDay(d) < JulianDay(e)
  {
    hide GetJulianDayNumber;
    JulianDayInMarchYears(d);
    JulianDayInMarchYears(e);
    var y, y', m, m' := MarchYear(d), MarchYear(e), MarchMonth(d), MarchMonth(e);
    MonthStartStep(d);
    if y < y' {
      YearStartStep(y);
      YearStartMonotone(y + 1, y');
      MonthEnd(d);
    } else if m < m' {
      assert MonthStart(m + 1) <= MonthStart(m');
    }
  }

  lemma YearStartMonotone(y: int, y': int)
    requires 0 <= y <= y'
    ensures YearStart(y) <= YearStart(y')
    decreases y' - y
  {
    if y < y' {
      YearStartStep(y);
      YearStartMonotone(y + 1, y');
    }
  }

  /** No date runs past the end of its March-based year. */
  lemma MonthEnd(d: YearMonthDay)
    requires ValidDate(d) && InRange(d)
    ensures MonthStart(MarchMonth(d)) + d.day <= 365 + (if IsLeap(MarchYear(d) + 1 - 4800) then 1 else 0)
  {
    MonthStartStep(d);
    if MarchMonth(d) < 11 {
      assert MonthStart(MarchMonth(d) + 1) <= 337;
    }
  }

  /** The century / year-of-century / day-of-year split computed by getYearMonthDay. */
  lemma SplitDay(a: int, b: int, c: int, d: int, e: int)
    requires a >= 0
    requires b == (4 * a + 3) / 146097 && c == a - (b * 146097) / 4
    requires d == (4 * c + 3) / 1461 && e == c - (1461 * d) / 4
    ensures b >= 0 && 0 <= c <= 36524 && 0 <= d <= 99 && 0 <= e <= 365
    ensures a == YearStart(100 * b + d) + e
    ensures e == 365 ==> IsLeap(100 * b + d + 1 - 4800)
  {
    assert 146097 * b <= 4 * a + 3 < 146097 * b + 146097;
    assert (b * 146097) / 4 == 36524 * b + b / 4;
    assert 0 <= c <= 36524;
    assert c == 36524 ==> b % 4 == 3;
    assert 1461 * d <= 4 * c + 3 < 1461 * d + 1461;
    assert (1461 * d) / 4 == 365 * d + d / 4;
    assert 0 <= e <= 365;
    assert e == 365 ==> d % 4 == 3;
    CenturySplit(b, d);
    if e == 365 && d == 99 {
      assert c == 36524;
    }
  }

  lemma CenturySplit(b: int, d: int)
    requires b >= 0 && 0 <= d <= 99
    ensures YearStart(100 * b + d) == 36524 * b + b / 4 + 365 * d + d / 4
    ensures IsLeap(100 * b + d + 1 - 4800) <==> (d % 4 == 3 && (d == 99 ==> b % 4 == 3))
  {
    CenturyQuotients(b, d);
    hide IsLeap;
    LeapShift(100 * b + d + 1);
    CenturyRemainders(b, d);
  }

  lemma CenturyQuotients(b: int, d: int)
    requires b >= 0 && 0 <= d <= 99
    ensures var y := 100 * b + d; y / 4 == 25 * b + d / 4 && y / 100 == b && y / 400 == b / 4
  {
  }

  lemma CenturyRemainders(b: int, d: int)
    requires b >= 0 && 0 <= d <= 99
    ensures var z := 100 * b + d + 1;
            z % 4 == (d + 1) % 4 && (z % 100 == 0 <==> d == 99) && (d == 99 ==> z % 400 == 100 * ((b + 1) % 4))
  {
    Remainder4(b, d + 1);
    Remainder100(b, d);
    Remainder400(b + 1);
  }

  lemma Remainder4(b: int, k: int)
    ensures (100 * b + k) % 4 == k % 4
  {
    assert 100 * b + k == 4 * (25 * b + k / 4) + k % 4;
  }

  lemma Remainder100(b: int, d: int)
    requires 0 <= d <= 99
    ensures (100 * b + d + 1) % 100 == 0 <==> d == 99
  {
    if d == 99 {
      assert 100 * b + d + 1 == 100 * (b + 1);
    } else {
      assert 100 * b + d + 1 == 100 * b + (d + 1);
    }
  }

  lemma Remainder400(c: int)
    ensures (100 * c) % 400 == 100 * (c % 4)
  {
    assert 100 * c == 400 * (c / 4) + 100 * (c % 4);
  }

  /** The calendar date of day e (from 0) of March-based year y. */
  function FromMarchYear(y: int, e: int): YearMonthDay
    requires 0 <= e <= 365
  {
    var m := (5 * e + 2) / 153;
    YearMonthDay(
      if m >= 10 then y - 4799 else y - 4800,
      if m >= 10 then m - 9 else m + 3,
      e - MonthStart(m) + 1)
  }

  lemma FromMarchYearValid(y: int, e: int)
    requires y >= 0 && 0 <= e <= 365
    requires e == 365 ==> IsLeap(y + 1 - 4800)
    ensures ValidDate(FromMarchYear(y, e)) && InRange(FromMarchYear(y, e))
    ensures JulianDay(FromMarchYear(y, e)) == YearStart(y) + e - 32044
  {
    hide GetJulianDayNumber;
    var r := FromMarchYear(y, e);
    DayOfYear(e);
    MonthStartStep(r.(day := 1));
    JulianDayInMarchYears(r);
  }

  /** getYearMonthDay computes with the split and the month table. */
  lemma YearMonthDayInMarchYears(n: int, b: int, c: int, d: int, e: int)
    requires n >= -32044
    requires b == (4 * (n + 32044) + 3) / 146097 && c == n + 32044 - (b * 146097) / 4
    requires d == (4 * c + 3) / 1461 && e == c - (1461 * d) / 4
    requires b >= 0 && c >= 0 && d >= 0 && 0 <= e <= 365
    ensures GetYearMonthDay(n) == FromMarchYear(100 * b + d, e)
  {
    DayOfYear(e);
    var m := (5 * e + 2) / 153;
    assert Div(m, 10) == (if m >= 10 then 1 else 0);
  }

  /** getYearMonthDay yields a valid calendar date whose Julian day number is the input. */
  lemma YearMonthDayThenJulianDay(n: int)
    requires n >= -32044
    ensures ValidDate(GetYearMonthDay(n)) && InRange(GetYearMonthDay(n))
    ensures JulianDay(GetYearMonthDay(n)) == n
  {
    hide GetJulianDayNumber, GetYearMonthDay, FromMarchYear, YearStart;
    var b := (4 * (n + 32044) + 3) / 146097;
    var c := n + 32044 - (b * 146097) / 4;
    var d := (4 * c + 3) / 1461;
    var e := c - (1461 * d) / 4;
    SplitDay(n + 32044, b, c, d, e);
    YearMonthDayInMarchYears(n, b, c, d, e);
    FromMarchYearValid(100 * b + d, e);
  }

  lemma DayOfYear(e: int)
    requires 0 <= e <= 365
    ensures var m := (5 * e + 2) / 153;
            0 <= m <= 11 && MonthStart(m) <= e && (m < 11 ==> e < MonthStart(m + 1))
  {
  }

  /** getJulianDayNumber loses nothing on valid dates. */
  lemma JulianDayThenYearMonthDay(d: YearMonthDay)
    requires ValidDate(d) && InRange(d)
    ensures JulianDay(d) >= -32044
    ensures GetYearMonthDay(JulianDay(d)) == d
  {
    hide GetJulianDayNumber, GetYearMonthDay;
    JulianDayInMarchYears(d);
    YearStartMonotone(0, MarchYear(d));
    var e := GetYearMonthDay(JulianDay(d));
    YearMonthDayThenJulianDay(JulianDay(d));
    if Before(d, e) {
      JulianDayMonotone(d, e);
    } else if Before(e, d) {
      JulianDayMonotone(e, d);
    }
  }

  // ----- Days of the year -----

  lemma EpochDayNumber()
    ensures JULIAN_DAY_OF_1970_01_01 == GetJulianDayNumber(1970, 1, 1)
  {
  }

  /** Days of the year before the first of a month, by the calendar. */
  function DaysBefore(year: int, month: int): int
    requires 1 <= month <= 13
    decreases month
  {
    if month == 1 then 0 else DaysBefore(year, month - 1) + DaysInMonth(year, month - 1)
  }

  /** The day of the year, January 1st being 0. */
  function YearDay(d: YearMonthDay): int
    requires ValidDate(d)
  {
    DaysBefore(d.year, d.month) + d.day - 1
  }

  lemma {:induction false} DaysBeforeGrows(year: int, month: int, month': int)
    requires 1 <= month <= month' <= 13
    ensures DaysBefore(year, month) <= DaysBefore(year, month')
    decreases month'
  {
    if month < month' {
      DaysBeforeGrows(year, month, month' - 1);
    }
  }

  lemma YearDayInRange(d: YearMonthDay)
    requires ValidDate(d)
    ensures 0 <= YearDay(d) < (if IsLeap(d.year) then 366 else 365)
    ensures YearDay(d) == 0 <==> d.month == 1 && d.day == 1
  {
    DaysBeforeGrows(d.year, 1, d.month);
    DaysBeforeGrows(d.year, d.month + 1, 13);
    if d.month > 1 {
      DaysBeforeGrows(d.year, 2, d.month);
    }
    YearLength(d.year);
  }

  lemma YearLength(year: int)
    ensures DaysBefore(year, 13) == (if IsLeap(year) then 366 else 365)
  {
    assert DaysBefore(year, 3) == 59 + (if IsLeap(year) then 1 else 0);
    assert DaysBefore(year, 5) == DaysBefore(year, 3) + 61;
    assert DaysBefore(year, 7) == DaysBefore(year, 5) + 61;
    assert DaysBefore(year, 9) == DaysBefore(year, 7) + 62;
    assert DaysBefore(year, 11) == DaysBefore(year, 9) + 61;
  }

  lemma {:induction false} MonthsOfDays(year: int, month: int, month': int)
    requires 1 <= month <= month' <= 12 && InRange(YearMonthDay(year, month, 1))
    ensures JulianDay(YearMonthDay(year, month', 1)) - JulianDay(YearMonthDay(year, month, 1))
         == DaysBefore(year, month') - DaysBefore(year, month)
    decreases month'
  {
    hide GetJulianDayNumber;
    if month < month' {
      MonthsOfDays(year, month, month' - 1);
      var last := YearMonthDay(year, month' - 1, DaysInMonth(year, month' - 1));
      NextDayIsNextNumber(last);
      SameMonth(year, month' - 1, last.day);
    }
  }

  lemma SameMonth(year: int, month: int, day: int)
    ensures GetJulianDayNumber(year, month, day) == GetJulianDayNumber(year, month, 1) + day - 1
  {
  }

  /** Subtracting the day number of January 1st counts the days of the year, except in the year -4800, whose January
      lies before the range of the formula: there the count is one short. */
  lemma YearDayByNumbers(d: YearMonthDay)
    requires ValidDate(d) && InRange(d)
    ensures JulianDay(d) - GetJulianDayNumber(d.year, 1, 1) == if d.year == -4800 then YearDay(d) - 1 else YearDay(d)
  {
    hide GetJulianDayNumber;
    SameMonth(d.year, d.month, d.day);
    if d.year > -4800 {
      MonthsOfDays(d.year, 1, d.month);
    } else {
      MonthsOfDays(d.year, 3, d.month);
      FirstYear();
    }
  }

  lemma FirstYear()
    ensures GetJulianDayNumber(-4800, 1, 1) == -32103 && GetJulianDayNumber(-4800, 3, 1) == -32044
    ensures DaysBefore(-4800, 3) == 60 && YearDay(YearMonthDay(-4800, 3, 1)) == 60
  {
  }

  // ----- The same arithmetic in 32-bit int -----

  /** Every intermediate value of getJulianDayNumber fits in an int. Date.h documents years 1900 to
      2500; the arithmetic has room for far more. */
  function GetJulianDayNumber32(year: int32, month: int32, day: int32): (r: int32)
    requires -4799 <= year <= 5_000_000 && 1 <= month <= 12 && 1 <= day <= 31
    ensures r as int == GetJulianDayNumber(year as int, month as int, day as int)
  {
    var a := (14 - month) / 12;
    var y := year + 4800 - a;
    var m := month + 12 * a - 3;
    day + (153 * m + 2) / 5 + y * 365 + y / 4 - y / 100 + y / 400 - 32045
  }

  /** Likewise getYearMonthDay, in its three stages, up to the largest day number for which
      4 * a + 3 fits. */
  function Century32(a: int32): (r: (int32, int32))
    requires 0 <= a <= 536_870_910
    ensures r.0 as int == (4 * (a as int) + 3) / 146097
    ensures r.1 as int == a as int - ((r.0 as int) * 146097) / 4
    ensures 0 <= r.0 <= 14699 && 0 <= r.1 <= 36524
  {
    var b := (4 * a + 3) / 146097;
    assert (b as int) * 146097 <= 4 * (a as int) + 3 < (b as int) * 146097 + 146097;
    (b, a - (b * 146097) / 4)
  }

  function YearOfCentury32(c: int32): (r: (int32, int32))
    requires 0 <= c <= 36524
    ensures r.0 as int == (4 * (c as int) + 3) / 1461
    ensures r.1 as int == c as int - (1461 * (r.0 as int)) / 4
    ensures 0 <= r.0 <= 99 && 0 <= r.1 <= 365
  {
    var d := (4 * c + 3) / 1461;
    (d, c - (1461 * d) / 4)
  }

  function GetYearMonthDay32(julianDayNumber: int32): (int32, int32, int32)
    requires -32044 <= julianDayNumber <= 536_838_866
  {
    var (b, c) := Century32(julianDayNumber + 32044);
    var (d, e) := YearOfCentury32(c);
    var m := (5 * e + 2) / 153;
    (b * 100 + d - 4800 + m / 10, m + 3 - 12 * (m / 10), e - (153 * m + 2) / 5 + 1)
  }

  lemma GetYearMonthDay32Agrees(n: int32)
    requires -32044 <= n <= 536_838_866
    ensures var r := GetYearMonthDay32(n);
            GetYearMonthDay(n as int) == YearMonthDay(r.0 as int, r.1 as int, r.2 as int)
  {
    hide GetYearMonthDay;
    var (b, c) := Century32(n + 32044);
    var (d, e) := YearOfCentury32(c);
    YearMonthDayInMarchYears(n as int, b as int, c as int, d as int, e as int);
    DayOfYear(e as int);
  }
}
