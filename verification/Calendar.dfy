/**
 Calendar arithmetic: Julian day numbers by closed formulas, proved against a calendar that
 only knows the lengths of the months, and the conversion of seconds to civil time.
 */
module Dates {
  import opened MachineArithmetic

  datatype YearMonthDay = YearMonthDay(year: int, month: int, day: int)

  function GetJulianDayNumber(date: YearMonthDay): int {
    var a := Quot(14 - date.month, 12);
    var y := date.year + 4800 - a;
    var m := date.month + 12 * a - 3;
    date.day + Quot(153 * m + 2, 5) + y * 365 + Quot(y, 4) - Quot(y, 100) + Quot(y, 400) - 32045
  }

  function GetYearMonthDay(julianDayNumber: int): YearMonthDay {
    var a := julianDayNumber + 32044;
    var b := Quot(4 * a + 3, 146097);
    var c := a - Quot(b * 146097, 4);
    var d := Quot(4 * c + 3, 1461);
    var e := c - Quot(1461 * d, 4);
    var m := Quot(5 * e + 2, 153);
    YearMonthDay(b * 100 + d - 4800 + Quot(m, 10), m + 3 - 12 * Quot(m, 10), e - Quot(153 * m + 2, 5) + 1)
  }

  // ---- The calendar ----

  predicate IsLeap(year: int) {
    year % 4 == 0 && (year % 100 != 0 || year % 400 == 0)
  }

  function DaysInMonth(year: int, month: int): int {
    if month == 2 then if IsLeap(year) then 29 else 28
    else if month in {4, 6, 9, 11} then 30
    else 31
  }

  predicate ValidDate(date: YearMonthDay) {
    1 <= date.month <= 12 && 1 <= date.day <= DaysInMonth(date.year, date.month)
  }

  function NextDay(date: YearMonthDay): YearMonthDay {
    if date.day < DaysInMonth(date.year, date.month) then date.(day := date.day + 1)
    else if date.month < 12 then YearMonthDay(date.year, date.month + 1, 1)
    else YearMonthDay(date.year + 1, 1, 1)
  }

  /** The formulas count from this day. */
  const FIRST_DAY := YearMonthDay(-4800, 3, 1)
  const FIRST_NUMBER := -32044

  predicate NotBeforeFirst(date: YearMonthDay) {
    date.year > -4800 || (date.year == -4800 && date.month >= 3)
  }

  // ---- Years that begin in March ----

  /** Days of a March year before month `m`. */
  function MonthStart(m: int): int {
    (153 * m + 2) / 5
  }

  /** Days before March year `y`. */
  function YearStart(y: int): int {
    365 * y + y / 4 - y / 100 + y / 400
  }

  /** The March year and month of a date. */
  function MarchYear(date: YearMonthDay): int {
    if date.month <= 2 then date.year + 4799 else date.year + 4800
  }

  function MarchMonth(date: YearMonthDay): int {
    if date.month <= 2 then date.month + 9 else date.month - 3
  }

  /** The date on day `e` of March year `y`. */
  function FromMarch(y: int, e: int): YearMonthDay {
    var m := (5 * e + 2) / 153;
    if m >= 10 then YearMonthDay(y - 4799, m - 9, e - MonthStart(m) + 1)
    else YearMonthDay(y - 4800, m + 3, e - MonthStart(m) + 1)
  }

  /** The last day of a March year is there when its February has 29 days. */
  function MarchYearLength(y: int): int {
    if IsLeap(y + 1) then 366 else 365
  }

  lemma JulianByMarch(date: YearMonthDay)
    requires ValidDate(date) && NotBeforeFirst(date)
    ensures MarchYear(date) >= 0 && 0 <= MarchMonth(date) <= 11
    ensures GetJulianDayNumber(date)
         == date.day - 1 + MonthStart(MarchMonth(date)) + YearStart(MarchYear(date)) + FIRST_NUMBER
  {
    hide IsLeap, Quot;
    var a, y, m := if date.month <= 2 then 1 else 0, MarchYear(date), MarchMonth(date);
    QuotIs(14 - date.month, 12);
    assert (14 - date.month) / 12 == a;
    QuotIs(153 * m + 2, 5);
    QuotIs(y, 4);
    QuotIs(y, 100);
    QuotIs(y, 400);
  }

  lemma QuotientStep(y: int, n: int)
    requires y >= 0 && n in {4, 100, 400}
    ensures (y + 1) / n == y / n + (if (y + 1) % n == 0 then 1 else 0)
  {
  }

  lemma MultipleOf400(y: int)
    requires y % 400 == 0
    ensures y % 100 == 0
  {
    assert y == 100 * (4 * (y / 400));
  }

  lemma MultipleOf100(y: int)
    requires y % 100 == 0
    ensures y % 4 == 0
  {
    assert y == 4 * (25 * (y / 100));
  }

  lemma MultiplesNest(y: int)
    ensures y % 400 == 0 ==> y % 100 == 0
    ensures y % 100 == 0 ==> y % 4 == 0
  {
    if y % 400 == 0 {
      MultipleOf400(y);
    }
    if y % 100 == 0 {
      MultipleOf100(y);
    }
  }

  lemma YearStartStep(y: int)
    requires y >= 0
    ensures YearStart(y + 1) == YearStart(y) + MarchYearLength(y)
  {
    QuotientStep(y, 4);
    QuotientStep(y, 100);
    QuotientStep(y, 400);
    MultiplesNest(y + 1);
  }

  /** Months of a March year, from day `e` of it. */
  lemma MonthOfDay(e: int)
    requires 0 <= e <= 365
    ensures var m := (5 * e + 2) / 153;
            0 <= m <= 11 && MonthStart(m) <= e && (m < 11 ==> e < MonthStart(m + 1))
  {
  }

  lemma DayOfMonth(m: int, e: int)
    requires 0 <= m <= 11 && MonthStart(m) <= e && (m < 11 ==> e < MonthStart(m + 1)) && e <= 365
    ensures (5 * e + 2) / 153 == m
  {
  }

  // ---- The two formulas are inverse ----

  /** The quotient that finds a year in four years, or a century in four centuries: a day `r`
      of period `q` of periods of `n / 4` days on average. */
  lemma PeriodOfDay(q: int, r: int, n: int)
    requires q >= 0 && n in {1461, 146097}
    requires 0 <= r <= n / 4 && (r == n / 4 ==> q % 4 == 3)
    ensures (4 * (n * q / 4 + r) + 3) / n == q
  {
    if n == 1461 {
      assert 1461 * q / 4 == 365 * q + q / 4;
    } else {
      assert 146097 * q / 4 == 36524 * q + q / 4;
    }
  }

  lemma DayOfPeriod(a: int, n: int)
    requires a >= 0 && n in {1461, 146097}
    ensures var q := (4 * a + 3) / n;
            var r := a - n * q / 4;
            q >= 0 && 0 <= r <= n / 4 && (r == n / 4 ==> q % 4 == 3)
  {
  }

  /** A March year as century `b` and year `d` of the century. */
  lemma CenturyStart(b: int, d: int)
    requires b >= 0 && 0 <= d <= 99
    ensures YearStart(100 * b + d) == 146097 * b / 4 + 1461 * d / 4
  {
    var y := 100 * b + d;
    assert y / 100 == b;
    assert y / 400 == b / 4;
    assert y / 4 == 25 * b + d / 4;
    assert 1461 * d / 4 == 365 * d + d / 4;
    assert 146097 * b / 4 == 36524 * b + b / 4;
  }

  /** When the last year of a century, or of four years, has 366 days. */
  lemma LeapEnd(b: int, d: int)
    requires b >= 0 && 0 <= d <= 99
    ensures IsLeap(100 * b + d + 1) <==> if d == 99 then b % 4 == 3 else d % 4 == 3
  {
    var y := 100 * b + d + 1;
    if d == 99 {
      QuotientIs(y, 100, b + 1, 0);
      QuotientIs(y, 4, 25 * (b + 1), 0);
      QuotientIs(y, 400, (b + 1) / 4, 100 * ((b + 1) % 4));
    } else {
      QuotientIs(y, 100, b, d + 1);
      QuotientIs(y, 4, 25 * b + (d + 1) / 4, (d + 1) % 4);
    }
  }

  lemma ShiftedRemainder(y: int, n: int)
    requires n in {4, 100, 400}
    ensures (y - 4800) % n == y % n
  {
    if n == 4 {
      QuotientIs(y - 4800, 4, y / 4 - 1200, y % 4);
    } else if n == 100 {
      QuotientIs(y - 4800, 100, y / 100 - 48, y % 100);
    } else {
      QuotientIs(y - 4800, 400, y / 400 - 12, y % 400);
    }
  }

  lemma LeapShift(y: int)
    ensures IsLeap(y - 4800) == IsLeap(y)
  {
    ShiftedRemainder(y, 4);
    ShiftedRemainder(y, 100);
    ShiftedRemainder(y, 400);
  }

  lemma FromMarchIsValid(y: int, e: int)
    requires y >= 0 && 0 <= e < MarchYearLength(y)
    ensures var date := FromMarch(y, e);
            && ValidDate(date) && NotBeforeFirst(date)
            && MarchYear(date) == y && date.day - 1 + MonthStart(MarchMonth(date)) == e
  {
    hide IsLeap;
    MonthOfDay(e);
    LeapShift(y + 1);
  }

  lemma DateIsFromMarch(date: YearMonthDay)
    requires ValidDate(date) && NotBeforeFirst(date)
    ensures var y, e := MarchYear(date), date.day - 1 + MonthStart(MarchMonth(date));
            y >= 0 && 0 <= e < MarchYearLength(y) && FromMarch(y, e) == date
  {
    hide IsLeap;
    var m, e := MarchMonth(date), date.day - 1 + MonthStart(MarchMonth(date));
    LeapShift(MarchYear(date) + 1);
    DayOfMonth(m, e);
  }

  lemma YearMonthDayByParts(j: int, b: int, c: int, d: int, e: int)
    requires j >= FIRST_NUMBER && 0 <= b && 0 <= c && 0 <= d && 0 <= e <= 365
    requires b == (4 * (j + 32044) + 3) / 146097 && c == j + 32044 - 146097 * b / 4
    requires d == (4 * c + 3) / 1461 && e == c - 1461 * d / 4
    ensures GetYearMonthDay(j) == FromMarch(100 * b + d, e)
  {
    hide Quot;
    MonthOfDay(e);
    var m := (5 * e + 2) / 153;
    QuotIs(4 * (j + 32044) + 3, 146097);
    QuotIs(b * 146097, 4);
    QuotIs(4 * c + 3, 1461);
    QuotIs(1461 * d, 4);
    QuotIs(5 * e + 2, 153);
    QuotIs(153 * m + 2, 5);
    QuotIs(m, 10);
    assert m / 10 == if m >= 10 then 1 else 0;
  }

  lemma QuotIs(a: int, b: int)
    requires a >= 0 && b > 0
    ensures Quot(a, b) == a / b
  {
  }

  /** A day `c` of a century and `e` of a March year stay within them. */
  lemma WithinYear(b: int, c: int, d: int, e: int)
    requires b >= 0 && 0 <= c <= 36524 && (c == 36524 ==> b % 4 == 3)
    requires d == (4 * c + 3) / 1461 && e == c - 1461 * d / 4
    ensures 0 <= d <= 99 && 0 <= e < MarchYearLength(100 * b + d)
  {
    hide IsLeap;
    DayOfPeriod(c, 1461);
    LeapEnd(b, d);
  }

  /** The formula finds the March year and the day of it that make up a day number. */
  lemma YearMonthDayByMarch(j: int) returns (y: int, e: int)
    requires j >= FIRST_NUMBER
    ensures y >= 0 && 0 <= e < MarchYearLength(y)
    ensures j == YearStart(y) + e + FIRST_NUMBER && GetYearMonthDay(j) == FromMarch(y, e)
  {
    hide IsLeap, YearStart, FromMarch, GetYearMonthDay;
    var a := j + 32044;
    var b := (4 * a + 3) / 146097;
    DayOfPeriod(a, 146097);
    var c := a - 146097 * b / 4;
    var d := (4 * c + 3) / 1461;
    e := c - 1461 * d / 4;
    WithinYear(b, c, d, e);
    y := 100 * b + d;
    CenturyStart(b, d);
    YearMonthDayByParts(j, b, c, d, e);
  }

  lemma CenturyDay(b: int, d: int, e: int)
    requires b >= 0 && 0 <= d <= 99 && 0 <= e < MarchYearLength(100 * b + d)
    ensures var c := 1461 * d / 4 + e;
            0 <= c <= 36524 && (c == 36524 ==> b % 4 == 3) && (e == 365 ==> d % 4 == 3)
  {
    hide IsLeap;
    LeapEnd(b, d);
    assert 1461 * d / 4 == 365 * d + d / 4;
  }

  lemma YearMonthDayOfMarch(y: int, e: int)
    requires y >= 0 && 0 <= e < MarchYearLength(y)
    ensures GetYearMonthDay(YearStart(y) + e + FIRST_NUMBER) == FromMarch(y, e)
  {
    hide IsLeap, YearStart, FromMarch, GetYearMonthDay, MarchYearLength;
    var b, d := y / 100, y % 100;
    assert y == 100 * b + d;
    CenturyStart(b, d);
    CenturyDay(b, d, e) by { LengthAtMost(y); }
    var c := 1461 * d / 4 + e;
    LengthAtMost(y);
    PeriodOfDay(d, e, 1461);
    PeriodOfDay(b, c, 146097);
    YearMonthDayByParts(YearStart(y) + e + FIRST_NUMBER, b, c, d, e);
  }

  lemma LengthAtMost(y: int)
    ensures MarchYearLength(y) <= 366
  {
  }

  /** Every day number from the first on is that of exactly one date, a valid one. */
  lemma DateOfNumber(j: int)
    requires j >= FIRST_NUMBER
    ensures var date := GetYearMonthDay(j); ValidDate(date) && NotBeforeFirst(date) && GetJulianDayNumber(date) == j
  {
    hide YearStart, MonthStart, MarchYearLength, GetYearMonthDay, GetJulianDayNumber, ValidDate, FromMarch;
    var y, e := YearMonthDayByMarch(j);
    FromMarchIsValid(y, e);
    JulianByMarch(FromMarch(y, e));
  }

  /** Every valid date from the first on is that of its day number. */
  lemma NumberOfDate(date: YearMonthDay)
    requires ValidDate(date) && NotBeforeFirst(date)
    ensures GetJulianDayNumber(date) >= FIRST_NUMBER && GetYearMonthDay(GetJulianDayNumber(date)) == date
  {
    hide YearStart, MonthStart, MarchYearLength, GetYearMonthDay, GetJulianDayNumber, ValidDate, FromMarch;
    JulianByMarch(date);
    DateIsFromMarch(date);
    YearMonthDayOfMarch(MarchYear(date), date.day - 1 + MonthStart(MarchMonth(date)));
    YearStartGrows(MarchYear(date));
  }

  lemma YearStartGrows(y: int)
    requires y >= 0
    ensures YearStart(y) >= 0
  {
    assert y / 100 <= y / 4;
  }

  // ---- Against the calendar ----

  lemma FirstNumber()
    ensures ValidDate(FIRST_DAY) && GetJulianDayNumber(FIRST_DAY) == FIRST_NUMBER
  {
  }

  lemma NextIsValid(date: YearMonthDay)
    requires ValidDate(date) && NotBeforeFirst(date)
    ensures ValidDate(NextDay(date)) && NotBeforeFirst(NextDay(date))
  {
    hide IsLeap;
  }

  /** The next day of the calendar has the next number, across months, years and leap days. */
  lemma NextDayIsNext(date: YearMonthDay)
    requires ValidDate(date) && NotBeforeFirst(date)
    ensures ValidDate(NextDay(date)) && NotBeforeFirst(NextDay(date))
    ensures GetJulianDayNumber(NextDay(date)) == GetJulianDayNumber(date) + 1
  {
    hide IsLeap, YearStart, GetJulianDayNumber;
    NextIsValid(date);
    JulianByMarch(date);
    JulianByMarch(NextDay(date));
    YearStartStep(MarchYear(date));
    LeapShift(MarchYear(date) + 1);
  }

  /** The date `n` days of the calendar after another. */
  function DaysLater(date: YearMonthDay, n: nat): YearMonthDay {
    if n == 0 then date else NextDay(DaysLater(date, n - 1))
  }

  /** So a day number counts the days of the calendar since the first. */
  lemma {:induction false} NumberCountsDays(n: nat)
    ensures ValidDate(DaysLater(FIRST_DAY, n)) && NotBeforeFirst(DaysLater(FIRST_DAY, n))
    ensures GetJulianDayNumber(DaysLater(FIRST_DAY, n)) == FIRST_NUMBER + n
    ensures GetYearMonthDay(FIRST_NUMBER + n) == DaysLater(FIRST_DAY, n)
  {
    hide GetJulianDayNumber, GetYearMonthDay, NextDay;
    if n == 0 {
      FirstNumber();
    } else {
      NumberCountsDays(n - 1);
      NextDayIsNext(DaysLater(FIRST_DAY, n - 1));
    }
    NumberOfDate(DaysLater(FIRST_DAY, n));
  }

  // ---- Machine integers ----

  predicate Int32(x: int) {
    INT_MIN <= x <= INT_MAX
  }

  /** No subexpression of `getYearMonthDay` leaves the range of a 32-bit integer. */
  predicate FitsInt32(j: int) {
    var a := j + 32044;
    var b := Quot(4 * a + 3, 146097);
    var c := a - Quot(b * 146097, 4);
    var d := Quot(4 * c + 3, 1461);
    var e := c - Quot(1461 * d, 4);
    var m := Quot(5 * e + 2, 153);
    && Int32(a) && Int32(4 * a) && Int32(4 * a + 3) && Int32(b * 146097)
    && Int32(c) && Int32(4 * c + 3) && Int32(d) && Int32(1461 * d)
    && Int32(e) && Int32(5 * e + 2) && Int32(m) && Int32(153 * m + 2)
    && Int32(b * 100) && Int32(b * 100 + d - 4800 + Quot(m, 10))
  }

  /** The formula is right up to this day, in the year 1465102, in machine arithmetic too. */
  lemma NoOverflowIff(j: int)
    requires j >= FIRST_NUMBER
    ensures FitsInt32(j) <==> j <= 536838867
  {
    hide IsLeap, MarchYearLength;
    var a := j + 32044;
    DayOfPeriod(a, 146097);
    var b := (4 * a + 3) / 146097;
    var c := a - 146097 * b / 4;
    var d := (4 * c + 3) / 1461;
    WithinYear(b, c, d, c - 1461 * d / 4);
    MonthOfDay(c - 1461 * d / 4) by { LengthAtMost(100 * b + d); }
  }
}

module TimeZones {
  import opened Dates
  import opened MachineArithmetic

  const SECONDS_PER_DAY := 24 * 60 * 60
  const EPOCH := GetJulianDayNumber(YearMonthDay(1970, 1, 1))

  /** The first second of the first day the date formulas reach. */
  const EARLIEST := (FIRST_NUMBER - EPOCH) * SECONDS_PER_DAY

  /** The values of a `struct tm`; `yday` is 0 unless asked for. */
  datatype Fields = Fields(date: YearMonthDay, hour: int, minute: int, second: int, wday: int, yday: int)

  function WeekDay(julianDayNumber: int): int {
    Rem(julianDayNumber + 1, 7)
  }

  predicate ValidTime(f: Fields) {
    ValidDate(f.date) && NotBeforeFirst(f.date) && 0 <= f.hour < 24 && 0 <= f.minute < 60 && 0 <= f.second < 60
  }

  /** Days of the year before a month, counted month by month. */
  function DaysBefore(year: int, month: int): int
    requires 1 <= month <= 12
  {
    if month == 1 then 0 else DaysBefore(year, month - 1) + DaysInMonth(year, month - 1)
  }

  /** Day and second of the day of a time, by truncating division and a correction. */
  function Split(seconds: int): (int, int) {
    var s, d := Rem(seconds, SECONDS_PER_DAY), Quot(seconds, SECONDS_PER_DAY);
    if s < 0 then (d - 1, s + SECONDS_PER_DAY) else (d, s)
  }

  function ToUtc(seconds: int, yday: bool): Fields {
    var (days, s) := Split(seconds);
    var j := days + EPOCH;
    var date := GetYearMonthDay(j);
    Fields(date, s / 60 / 60, s / 60 % 60, s % 60, WeekDay(j),
           if yday then j - GetJulianDayNumber(YearMonthDay(date.year, 1, 1)) else 0)
  }

  function FromUtc(date: YearMonthDay, hour: int, minute: int, second: int): int {
    (GetJulianDayNumber(date) - EPOCH) * SECONDS_PER_DAY + (hour * 3600 + minute * 60 + second)
  }

  lemma SplitIsFloor(seconds: int)
    ensures var (days, s) := Split(seconds); seconds == days * SECONDS_PER_DAY + s && 0 <= s < SECONDS_PER_DAY
  {
  }

  lemma SplitIs(days: int, s: int)
    requires 0 <= s < SECONDS_PER_DAY
    ensures Split(days * SECONDS_PER_DAY + s) == (days, s)
  {
    SplitIsFloor(days * SECONDS_PER_DAY + s);
  }

  lemma HoursMinutesSeconds(s: int)
    requires 0 <= s < SECONDS_PER_DAY
    ensures 0 <= s / 60 / 60 < 24 && 0 <= s / 60 % 60 < 60 && 0 <= s % 60 < 60
    ensures s / 60 / 60 * 3600 + s / 60 % 60 * 60 + s % 60 == s
  {
  }

  /** Every time from the earliest on, before or after 1970, is that of its civil time, whose
      fields are in range; machine integers follow up to the latest time and no further. */
  lemma TimeRoundTrip(seconds: int, yday: bool)
    requires seconds >= EARLIEST
    ensures var f := ToUtc(seconds, yday);
            ValidTime(f) && FromUtc(f.date, f.hour, f.minute, f.second) == seconds
    ensures UtcFitsInt32(seconds) <==> seconds <= LATEST
  {
    hide GetYearMonthDay, GetJulianDayNumber, Split, ValidDate, WeekDay, UtcFitsInt32;
    UtcOverflowsIff(seconds);
    SplitIsFloor(seconds);
    var (days, s) := Split(seconds);
    EpochIs();
    DateOfNumber(days + EPOCH);
    HoursMinutesSeconds(s);
  }

  /** No subexpression of `getJulianDayNumber` leaves the range of a 32-bit integer. */
  predicate JulianFitsInt32(date: YearMonthDay) {
    var a := Quot(14 - date.month, 12);
    var y := date.year + 4800 - a;
    var m := date.month + 12 * a - 3;
    var months := date.day + Quot(153 * m + 2, 5);
    var years := months + y * 365;
    var leaps := years + Quot(y, 4) - Quot(y, 100);
    && Int32(date.year + 4800) && Int32(y) && Int32(153 * m + 2) && Int32(months) && Int32(y * 365) && Int32(years)
    && Int32(years + Quot(y, 4)) && Int32(leaps) && Int32(leaps + Quot(y, 400)) && Int32(leaps + Quot(y, 400) - 32045)
  }

  /** No cast and no `int` expression of `toUtcTime`, or of `fromUtcTime` on its result, leaves
      the range of a 32-bit integer. */
  predicate UtcFitsInt32(seconds: int) {
    var (days, s) := Split(seconds);
    var date := GetYearMonthDay(days + EPOCH);
    && Int32(Quot(seconds, SECONDS_PER_DAY)) && Int32(days) && Int32(days + EPOCH) && FitsInt32(days + EPOCH)
    && Int32(days + EPOCH + 1) && Int32(date.year - 1900)
    && JulianFitsInt32(date) && JulianFitsInt32(YearMonthDay(date.year, 1, 1))
  }

  /** The last second of the last day on which nothing overflows. */
  const LATEST := (536838867 - EPOCH + 1) * SECONDS_PER_DAY - 1

  lemma JulianFits(date: YearMonthDay)
    requires 1 <= date.month <= 12 && 1 <= date.day <= 31 && -4800 <= date.year <= 1470000
    ensures JulianFitsInt32(date)
  {
  }

  lemma YearWithin(j: int)
    requires FIRST_NUMBER <= j <= 536838867
    ensures var date := GetYearMonthDay(j);
            1 <= date.month <= 12 && 1 <= date.day <= 31 && -4800 <= date.year <= 1470000
  {
    hide GetYearMonthDay, IsLeap, GetJulianDayNumber;
    DateOfNumber(j);
    var date := GetYearMonthDay(j);
    JulianByMarch(date);
    var y := MarchYear(date);
    assert y / 100 <= y / 4;
  }

  /** The conversion of a time, and back, stays within 32 bits if and only if the time is on or
      before the last day that the date formulas reach. */
  lemma UtcOverflowsIff(seconds: int)
    requires seconds >= EARLIEST
    ensures UtcFitsInt32(seconds) <==> seconds <= LATEST
  {
    hide GetYearMonthDay, GetJulianDayNumber, FitsInt32, JulianFitsInt32, Split;
    SplitIsFloor(seconds);
    EpochIs();
    var (days, s) := Split(seconds);
    NoOverflowIff(days + EPOCH);
    QuotientNear(seconds);
    if days + EPOCH <= 536838867 {
      YearWithin(days + EPOCH);
      var date := GetYearMonthDay(days + EPOCH);
      JulianFits(date);
      JulianFits(YearMonthDay(date.year, 1, 1));
    }
  }

  lemma QuotientNear(seconds: int)
    ensures Split(seconds).0 <= Quot(seconds, SECONDS_PER_DAY) <= Split(seconds).0 + 1
  {
  }

  lemma EpochIs()
    ensures EPOCH == 2440588
  {
  }

  /** And every valid civil time is that of its time. */
  lemma FieldsRoundTrip(f: Fields, yday: bool)
    requires ValidTime(f)
    ensures var g := ToUtc(FromUtc(f.date, f.hour, f.minute, f.second), yday);
            (g.date, g.hour, g.minute, g.second) == (f.date, f.hour, f.minute, f.second)
  {
    hide GetYearMonthDay, GetJulianDayNumber, Split, ValidDate, WeekDay;
    var s := f.hour * 3600 + f.minute * 60 + f.second;
    SplitIs(GetJulianDayNumber(f.date) - EPOCH, s);
    NumberOfDate(f.date);
    assert s / 60 == f.hour * 60 + f.minute && s % 60 == f.second;
  }

  /** The remainder is a day of the week if and only if it is not taken of a negative number
      that 7 does not divide. */
  lemma WeekDayInRangeIff(j: int)
    ensures 0 <= WeekDay(j) <= 6 <==> j >= -1 || (j + 1) % 7 == 0
  {
  }

  /** The first day the date formulas reach is such a number: its civil time is valid, but for
      the day of the week. */
  lemma FirstWeekDayIsNegative(yday: bool)
    ensures var f := ToUtc(EARLIEST, yday); ValidTime(f) && f.date == FIRST_DAY && f.wday == -4
  {
    hide GetYearMonthDay, GetJulianDayNumber, ValidDate, UtcFitsInt32;
    TimeRoundTrip(EARLIEST, yday);
    SplitIs(FIRST_NUMBER - EPOCH, 0);
    FirstNumber();
    NumberOfDate(FIRST_DAY);
  }

  /** The first of January 1970 was a Thursday, and the days of the week take turns. */
  lemma WeekDayAdvances(j: int)
    requires j >= -1
    ensures WeekDay(EPOCH) == 4 && WeekDay(j + 1) == (WeekDay(j) + 1) % 7
  {
    hide GetJulianDayNumber;
    EpochIs();
    var q, r := (j + 1) / 7, (j + 1) % 7;
    if r == 6 {
      QuotientIs(j + 2, 7, q + 1, 0);
    } else {
      QuotientIs(j + 2, 7, q, r + 1);
    }
  }

  lemma {:induction false} DaysBeforeByNumber(year: int, month: int)
    requires year > -4800 && 1 <= month <= 12
    ensures GetJulianDayNumber(YearMonthDay(year, month, 1)) - GetJulianDayNumber(YearMonthDay(year, 1, 1))
         == DaysBefore(year, month)
  {
    hide GetJulianDayNumber;
    if month > 1 {
      DaysBeforeByNumber(year, month - 1);
      var last := YearMonthDay(year, month - 1, DaysInMonth(year, month - 1));
      NextDayIsNext(last);
      SameMonth(year, month - 1, last.day);
    }
  }

  lemma SameMonth(year: int, month: int, day: int)
    ensures GetJulianDayNumber(YearMonthDay(year, month, day)) == GetJulianDayNumber(YearMonthDay(year, month, 1)) + day - 1
  {
  }

  /** From 1 January -4799 on, the day of the year counts the days of the months before. */
  lemma YearDay(seconds: int)
    requires seconds >= EARLIEST + 306 * SECONDS_PER_DAY
    ensures var f := ToUtc(seconds, true);
            && 1 <= f.date.month <= 12 && f.yday == DaysBefore(f.date.year, f.date.month) + f.date.day - 1
            && (f.yday == 0 <==> f.date.month == 1 && f.date.day == 1)
  {
    hide GetYearMonthDay, GetJulianDayNumber, Split, WeekDay, IsLeap;
    SplitIsFloor(seconds);
    EpochIs();
    var (days, s) := Split(seconds);
    DateOfNumber(days + EPOCH);
    var date := GetYearMonthDay(days + EPOCH);
    FirstYearIsShort(date);
    DaysBeforeByNumber(date.year, date.month);
    SameMonth(date.year, date.month, date.day);
    DaysBeforeGrows(date.year, date.month);
  }

  lemma FirstYearIsShort(date: YearMonthDay)
    requires ValidDate(date) && NotBeforeFirst(date) && GetJulianDayNumber(date) >= FIRST_NUMBER + 306
    ensures date.year > -4800
  {
    hide GetJulianDayNumber, IsLeap;
    JulianByMarch(date);
  }

  lemma DaysBeforeGrows(year: int, month: int)
    requires 1 <= month <= 12
    ensures DaysBefore(year, month) >= month - 1
  {
  }

  class Tm {
    var sec: int
    var min: int
    var hour: int
    var mday: int
    var mon: int
    var year: int
    var wday: int
    var yday: int

    /** All fields zero. */
    constructor ()
      ensures sec == min == hour == mday == mon == year == wday == yday == 0
    {
      sec, min, hour, mday, mon, year, wday, yday := 0, 0, 0, 0, 0, 0, 0, 0;
    }

    function Value(): Fields
      reads this
    {
      Fields(YearMonthDay(year + 1900, mon + 1, mday), hour, min, sec, wday, yday)
    }
  }

  method FillHMS(seconds: nat, utc: Tm)
    modifies utc`sec, utc`min, utc`hour
    ensures utc.sec == seconds % 60 && utc.min == seconds / 60 % 60 && utc.hour == seconds / 60 / 60
    ensures utc.hour * 3600 + utc.min * 60 + utc.sec == seconds && 0 <= utc.sec < 60 && 0 <= utc.min < 60
    ensures seconds < SECONDS_PER_DAY ==> 0 <= utc.hour < 24
  {
    utc.sec := seconds % 60;
    var minutes := seconds / 60;
    utc.min := minutes % 60;
    utc.hour := minutes / 60;
  }

  method ToUtcTime(secondsSinceEpoch: int, yday: bool) returns (utc: Tm)
    ensures fresh(utc) && utc.Value() == ToUtc(secondsSinceEpoch, yday)
  {
    hide GetYearMonthDay, GetJulianDayNumber, WeekDay;
    utc := new Tm();
    var seconds := Rem(secondsSinceEpoch, SECONDS_PER_DAY);
    var days := Quot(secondsSinceEpoch, SECONDS_PER_DAY);
    SplitIsFloor(secondsSinceEpoch);
    if seconds < 0 {
      seconds := seconds + SECONDS_PER_DAY;
      days := days - 1;
    }
    FillHMS(seconds, utc);
    var julianDayNumber := days + EPOCH;
    var ymd := GetYearMonthDay(julianDayNumber);
    utc.year := ymd.year - 1900;
    utc.mon := ymd.month - 1;
    utc.mday := ymd.day;
    utc.wday := WeekDay(julianDayNumber);
    if yday {
      utc.yday := julianDayNumber - GetJulianDayNumber(YearMonthDay(ymd.year, 1, 1));
    }
  }

  // ---- Local time ----

  datatype Transition = Transition(gmttime: int, localtimeIdx: nat)

  predicate Sorted(transitions: seq<Transition>) {
    forall i, j :: 0 <= i < j < |transitions| ==> transitions[i].gmttime < transitions[j].gmttime
  }

  /** `lower_bound`: the first transition not before a time. */
  method LowerBound(transitions: seq<Transition>, t: int) returns (at: nat)
    requires Sorted(transitions)
    ensures at <= |transitions|
    ensures forall i :: 0 <= i < at ==> transitions[i].gmttime < t
    ensures forall i :: at <= i < |transitions| ==> t <= transitions[i].gmttime
  {
    at := 0;
    var end := |transitions|;
    while at < end
      invariant at <= end <= |transitions|
      invariant forall i :: 0 <= i < at ==> transitions[i].gmttime < t
      invariant forall i :: end <= i < |transitions| ==> t <= transitions[i].gmttime
    {
      var mid := (at + end) / 2;
      if transitions[mid].gmttime < t {
        at := mid + 1;
      } else {
        end := mid;
      }
    }
  }

  /** The local time in force: that of the last transition at or before `t`, and the first local
      time when there is none. */
  method FindLocaltime(transitions: seq<Transition>, t: int) returns (local: nat)
    requires Sorted(transitions)
    ensures (forall i :: 0 <= i < |transitions| ==> t < transitions[i].gmttime) ==> local == 0
    ensures forall i :: 0 <= i < |transitions| && transitions[i].gmttime <= t
                        && (i + 1 < |transitions| ==> t < transitions[i + 1].gmttime)
                        ==> local == transitions[i].localtimeIdx
  {
    if transitions == [] || t < transitions[0].gmttime {
      local := 0;
    } else {
      var at := LowerBound(transitions, t);
      if at != |transitions| {
        if transitions[at].gmttime != t {
          assert at != 0;
          at := at - 1;
        }
        local := transitions[at].localtimeIdx;
      } else {
        local := transitions[|transitions| - 1].localtimeIdx;
      }
    }
  }
}
