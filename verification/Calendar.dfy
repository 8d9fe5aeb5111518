/** Civil dates of the proleptic Gregorian calendar, with the `Date` arithmetic of ECMA-262 in local time. */
module Calendar {
  /** Months count from 0, days of the month from 1. */
  datatype Date = Date(y: int, m: int, d: int)

  predicate IsLeapYear(year: int) {
    (year % 4 == 0 && year % 100 != 0) || year % 400 == 0
  }

  function DaysInMonth(year: int, month: int): (n: int)
    requires 0 <= month < 12
    ensures 28 <= n <= 31
  {
    [31, if IsLeapYear(year) then 29 else 28, 31, 30, 31, 30, 31, 31, 30, 31, 30, 31][month]
  }

  /** The lengths of the months, one by one, and of February in leap years. */
  lemma MonthLengths(y: int)
    ensures DaysInMonth(y, 0) == 31 && DaysInMonth(y, 2) == 31 && DaysInMonth(y, 3) == 30 && DaysInMonth(y, 4) == 31
    ensures DaysInMonth(y, 5) == 30 && DaysInMonth(y, 6) == 31 && DaysInMonth(y, 7) == 31 && DaysInMonth(y, 8) == 30
    ensures DaysInMonth(y, 9) == 31 && DaysInMonth(y, 10) == 30 && DaysInMonth(y, 11) == 31
    ensures DaysInMonth(y, 1) == if y % 400 == 0 || (y % 4 == 0 && y % 100 != 0) then 29 else 28
  {
  }

  predicate IsDate(x: Date) {
    0 <= x.m < 12 && 1 <= x.d <= DaysInMonth(x.y, x.m)
  }

  // ---------- day numbers ----------

  /** The day number of 1 January: `DayFromYear` in section 21.4.1 of ECMA-262, days from 1 January 1970. */
  function DayFromYear(y: int): int {
    365 * (y - 1970) + (y - 1969) / 4 - (y - 1901) / 100 + (y - 1601) / 400
  }

  function DaysBefore(y: int, m: int): int
    requires 0 <= m <= 12
    decreases m
  {
    if m == 0 then 0 else DaysBefore(y, m - 1) + DaysInMonth(y, m - 1)
  }

  /** Months in one row: month `m` of year `y` is month `12 * y + m`. */
  function MonthLength(k: int): (n: int)
    ensures 28 <= n <= 31
  {
    DaysInMonth(k / 12, k % 12)
  }

  function MonthStart(k: int): int {
    DayFromYear(k / 12) + DaysBefore(k / 12, k % 12)
  }

  function MonthOf(x: Date): int {
    12 * x.y + x.m
  }

  function DayNumber(x: Date): int {
    MonthStart(MonthOf(x)) + x.d - 1
  }

  /** The closed form of `DayFromYear` agrees with the leap-year rule. */
  lemma YearLength(y: int)
    ensures DayFromYear(y + 1) == DayFromYear(y) + if IsLeapYear(y) then 366 else 365
  {
    FloorStep(y, 4, 1969);
    FloorStep(y, 100, 1901);
    FloorStep(y, 400, 1601);
  }

  lemma FloorStep(y: int, n: int, origin: int)
    requires (n == 4 && origin == 1969) || (n == 100 && origin == 1901) || (n == 400 && origin == 1601)
    ensures (y + 1 - origin) / n == (y - origin) / n + if y % n == 0 then 1 else 0
  {
  }

  lemma TwelveMonths(y: int)
    ensures DaysBefore(y, 12) == if IsLeapYear(y) then 366 else 365
  {
    assert DaysBefore(y, 3) == DaysInMonth(y, 0) + DaysInMonth(y, 1) + DaysInMonth(y, 2);
    assert DaysBefore(y, 6) == DaysBefore(y, 3) + DaysInMonth(y, 3) + DaysInMonth(y, 4) + DaysInMonth(y, 5);
    assert DaysBefore(y, 9) == DaysBefore(y, 6) + DaysInMonth(y, 6) + DaysInMonth(y, 7) + DaysInMonth(y, 8);
    assert DaysBefore(y, 12) == DaysBefore(y, 9) + DaysInMonth(y, 9) + DaysInMonth(y, 10) + DaysInMonth(y, 11);
  }

  /** Months follow each other without a gap, also across the new year. */
  lemma NextMonthStart(k: int)
    ensures MonthStart(k + 1) == MonthStart(k) + MonthLength(k)
  {
    hide DayFromYear, DaysInMonth, IsLeapYear;
    if k % 12 == 11 {
      assert (k + 1) / 12 == k / 12 + 1 && (k + 1) % 12 == 0;
      YearLength(k / 12);
      TwelveMonths(k / 12);
    } else {
      assert (k + 1) / 12 == k / 12 && (k + 1) % 12 == k % 12 + 1;
    }
  }

  lemma {:induction false} LaterMonth(j: int, k: int)
    requires j < k
    ensures MonthStart(j) + MonthLength(j) <= MonthStart(k)
    decreases k - j
  {
    hide MonthStart, MonthLength;
    NextMonthStart(k - 1);
    if j < k - 1 {
      LaterMonth(j, k - 1);
    }
  }

  lemma MonthOfDate(x: Date)
    requires IsDate(x)
    ensures MonthOf(x) / 12 == x.y && MonthOf(x) % 12 == x.m
    ensures MonthLength(MonthOf(x)) == DaysInMonth(x.y, x.m)
  {
  }

  /** A day number lies in a month exactly when it falls in that month's range. */
  lemma InMonth(x: Date, k: int)
    requires IsDate(x)
    ensures MonthOf(x) == k <==> MonthStart(k) <= DayNumber(x) < MonthStart(k) + MonthLength(k)
    ensures MonthOf(x) < k <==> DayNumber(x) < MonthStart(k)
  {
    hide MonthStart, MonthLength;
    MonthOfDate(x);
    if MonthOf(x) < k {
      LaterMonth(MonthOf(x), k);
    } else if k < MonthOf(x) {
      LaterMonth(k, MonthOf(x));
    }
  }

  /** Earlier by year, then by month, then by day. */
  predicate Before(a: Date, b: Date) {
    a.y < b.y || (a.y == b.y && (a.m < b.m || (a.m == b.m && a.d < b.d)))
  }

  /** Day numbers order dates as the calendar does; in particular two dates never share one. */
  lemma DayNumbersOrder(a: Date, b: Date)
    requires IsDate(a) && IsDate(b)
    ensures DayNumber(a) < DayNumber(b) <==> Before(a, b)
    ensures DayNumber(a) == DayNumber(b) <==> a == b
  {
    hide MonthStart, MonthLength;
    InMonth(a, MonthOf(b));
    InMonth(b, MonthOf(a));
    MonthOfDate(a);
    MonthOfDate(b);
  }

  // ---------- operations of the Date object ----------

  lemma DayOfMonth(k: int, n: int)
    requires 1 <= n <= MonthLength(k)
    ensures IsDate(Date(k / 12, k % 12, n)) && MonthOf(Date(k / 12, k % 12, n)) == k
  {
  }

  /** `MakeDay` in section 21.4.1 of ECMA-262: day `n` of month `k`, running over into other months. */
  function MakeDay(k: int, n: int): (x: Date)
    ensures IsDate(x) && DayNumber(x) == MonthStart(k) + n - 1
    ensures 1 <= n <= MonthLength(k) ==> MonthOf(x) == k && x.d == n
    decreases if n < 1 then 40 - n else n
  {
    hide MonthStart, MonthLength;
    if n < 1 then
      NextMonthStart(k - 1);
      MakeDay(k - 1, n + MonthLength(k - 1))
    else if n > MonthLength(k) then
      NextMonthStart(k);
      MakeDay(k + 1, n - MonthLength(k))
    else
      DayOfMonth(k, n);
      Date(k / 12, k % 12, n)
  }

  /** The constructor `new Date(year, month, day)`, which reads the years 0 to 99 as 1900 to 1999. */
  function NewDate(year: int, month: int, day: int): (x: Date)
    ensures IsDate(x)
  {
    MakeDay(12 * (if 0 <= year <= 99 then 1900 + year else year) + month, day)
  }

  function SetDate(x: Date, day: int): (r: Date)
    ensures IsDate(r)
  {
    MakeDay(MonthOf(x), day)
  }

  function SetMonth(x: Date, month: int): (r: Date)
    ensures IsDate(r)
  {
    MakeDay(12 * x.y + month, x.d)
  }

  function SetFullYear(x: Date, year: int): (r: Date)
    ensures IsDate(r)
  {
    MakeDay(12 * year + x.m, x.d)
  }

  /** The day of the week, Sunday being 0: 1 January 1970 was a Thursday. */
  function GetDay(x: Date): (w: int)
    ensures 0 <= w < 7
  {
    (DayNumber(x) + 4) % 7
  }

  /** `setDate` adds days: the result lies as many days ahead as the argument exceeds the day of the month. */
  lemma SetDateAdds(x: Date, n: int)
    requires IsDate(x)
    ensures DayNumber(SetDate(x, x.d + n)) == DayNumber(x) + n
    ensures SetDate(x, x.d) == x
  {
    DayNumbersOrder(SetDate(x, x.d), x);
  }

  lemma ShiftMod(a: int, b: int, n: int)
    requires b == a + n
    ensures (b + 4) % 7 == ((a + 4) % 7 + n) % 7
  {
  }

  /** Adding days turns the week. */
  lemma WeekTurns(x: Date, n: int)
    requires IsDate(x)
    ensures GetDay(SetDate(x, x.d + n)) == (GetDay(x) + n) % 7
  {
    hide DayNumber, SetDate;
    SetDateAdds(x, n);
    ShiftMod(DayNumber(x), DayNumber(SetDate(x, x.d + n)), n);
  }

  /** The day after, read off the calendar page. */
  function Tomorrow(x: Date): Date
    requires IsDate(x)
  {
    if x.d < DaysInMonth(x.y, x.m) then Date(x.y, x.m, x.d + 1)
    else if x.m < 11 then Date(x.y, x.m + 1, 1)
    else Date(x.y + 1, 0, 1)
  }

  lemma TomorrowNumber(x: Date)
    requires IsDate(x)
    ensures IsDate(Tomorrow(x)) && DayNumber(Tomorrow(x)) == DayNumber(x) + 1
  {
    hide MonthStart, MonthLength, DaysInMonth;
    MonthOfDate(x);
    NextMonthStart(MonthOf(x));
    if x.d == DaysInMonth(x.y, x.m) {
      assert MonthOf(Tomorrow(x)) == MonthOf(x) + 1;
    }
  }

  /** The first day of a year is the day that the year starts on. */
  lemma NewYear(y: int)
    ensures DayNumber(Date(y, 0, 1)) == DayFromYear(y) && DayNumber(Date(y - 1, 11, 31)) == DayFromYear(y) - 1
  {
    hide DayFromYear, DaysInMonth, DaysBefore, MonthStart, MonthLength;
    YearStart(y);
    December(y - 1);
    assert 12 * (y - 1) + 11 + 1 == 12 * y;
  }

  lemma December(y: int)
    ensures MonthStart(12 * y + 11 + 1) == MonthStart(12 * y + 11) + 31
  {
    hide DayFromYear, DaysBefore, MonthStart;
    NextMonthStart(12 * y + 11);
    assert (12 * y + 11) / 12 == y && (12 * y + 11) % 12 == 11;
  }

  lemma YearStart(y: int)
    ensures MonthStart(12 * y) == DayFromYear(y)
  {
    hide DayFromYear;
    assert 12 * y / 12 == y && 12 * y % 12 == 0;
  }

  /** The days of the week follow each other from Thursday, 1 January 1970, on; 31 December 2023 was a Sunday. */
  lemma WeekDays(x: Date)
    requires IsDate(x)
    ensures DayNumber(Date(1970, 0, 1)) == 0 && GetDay(Date(1970, 0, 1)) == 4
    ensures DayNumber(Date(2023, 11, 31)) == 19722 && GetDay(Date(2023, 11, 31)) == 0
    ensures GetDay(Tomorrow(x)) == (GetDay(x) + 1) % 7
  {
    hide DayNumber, Tomorrow, IsDate;
    TomorrowNumber(x);
    NewYear(1970);
    NewYear(2024);
    ShiftMod(DayNumber(x), DayNumber(Tomorrow(x)), 1);
  }

  /** The increment of the loop is the calendar's own successor. */
  lemma SetDateIsTomorrow(x: Date)
    requires IsDate(x)
    ensures SetDate(x, x.d + 1) == Tomorrow(x)
  {
    hide DayNumber, MakeDay, Tomorrow, Before;
    TomorrowNumber(x);
    SetDateAdds(x, 1);
    DayNumbersOrder(SetDate(x, x.d + 1), Tomorrow(x));
  }
}
