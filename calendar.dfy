/** The proleptic Gregorian calendar and the day numbering that JavaScript
    `Date` values use: `new Date("YYYY-MM-DD")` is UTC midnight of a day
    number (ECMAScript MakeDay), and `toISOString` turns the day number back
    into year, month and day. Day numbers here count from 0000-01-01 rather
    than from 1970-01-01; only differences of day numbers are ever used. */
module Calendar {

  predicate IsLeapYear(y: int)
  {
    y % 4 == 0 && (y % 100 != 0 || y % 400 == 0)
  }

  function YearLength(y: int): int
  {
    if IsLeapYear(y) then 366 else 365
  }

  function DaysInMonth(y: int, m: int): (n: int)
    requires 1 <= m <= 12
    ensures 28 <= n <= 31
    ensures n == 29 <==> m == 2 && IsLeapYear(y)
  {
    if m == 2 then (if IsLeapYear(y) then 29 else 28)
    else if m == 4 || m == 6 || m == 9 || m == 11 then 30
    else 31
  }

  /** Calendar fields of a day. */
  datatype Date = Date(year: int, month: int, day: int)

  /** A day that exists: month 1 to 12, day 1 to the length of that month
      (29 February only in leap years). */
  predicate IsCalendarDate(dt: Date)
  {
    1 <= dt.month <= 12 && 1 <= dt.day <= DaysInMonth(dt.year, dt.month)
  }

  /** Days from 0000-01-01 to the first of January of year `y`. */
  function DaysBeforeYear(y: nat): int
  {
    365 * y + (y + 3) / 4 - (y + 99) / 100 + (y + 399) / 400
  }

  lemma DaysBeforeNextYear(y: nat)
    ensures DaysBeforeYear(y + 1) == DaysBeforeYear(y) + YearLength(y)
  {
    assert (y + 4) / 4 == (y + 3) / 4 + (if y % 4 == 0 then 1 else 0);
    assert (y + 100) / 100 == (y + 99) / 100 + (if y % 100 == 0 then 1 else 0);
    assert (y + 400) / 400 == (y + 399) / 400 + (if y % 400 == 0 then 1 else 0);
  }

  lemma {:induction false} DaysBeforeYearMonotone(a: nat, b: nat)
    requires a <= b
    ensures DaysBeforeYear(a) + 365 * (b - a) <= DaysBeforeYear(b)
    decreases b - a
  {
    if a < b {
      DaysBeforeNextYear(a);
      DaysBeforeYearMonotone(a + 1, b);
    }
  }

  /** Days from the first of January to the first of month `m` (13 stands
      for the first of January of the next year). */
  function DaysBeforeMonth(y: int, m: int): (n: nat)
    requires 1 <= m <= 13
    decreases m
  {
    if m == 1 then 0 else DaysBeforeMonth(y, m - 1) + DaysInMonth(y, m - 1)
  }

  lemma DaysBeforeMonthOfYear(y: int)
    ensures DaysBeforeMonth(y, 13) == YearLength(y)
  {
    assert DaysBeforeMonth(y, 2) == 31;
    assert DaysBeforeMonth(y, 3) == 31 + DaysInMonth(y, 2);
    assert DaysBeforeMonth(y, 4) == 62 + DaysInMonth(y, 2);
    assert DaysBeforeMonth(y, 5) == 92 + DaysInMonth(y, 2);
    assert DaysBeforeMonth(y, 6) == 123 + DaysInMonth(y, 2);
    assert DaysBeforeMonth(y, 7) == 153 + DaysInMonth(y, 2);
    assert DaysBeforeMonth(y, 8) == 184 + DaysInMonth(y, 2);
    assert DaysBeforeMonth(y, 9) == 215 + DaysInMonth(y, 2);
    assert DaysBeforeMonth(y, 10) == 245 + DaysInMonth(y, 2);
    assert DaysBeforeMonth(y, 11) == 276 + DaysInMonth(y, 2);
    assert DaysBeforeMonth(y, 12) == 306 + DaysInMonth(y, 2);
    assert DaysBeforeMonth(y, 13) == 337 + DaysInMonth(y, 2);
  }

  lemma DaysBeforeNextMonth(y: int, m: int)
    requires 1 <= m <= 12
    ensures DaysBeforeMonth(y, m + 1) == DaysBeforeMonth(y, m) + DaysInMonth(y, m)
  {
  }

  lemma {:induction false} DaysBeforeMonthMonotone(y: int, a: int, b: int)
    requires 1 <= a <= b <= 13
    ensures DaysBeforeMonth(y, a) + 28 * (b - a) <= DaysBeforeMonth(y, b)
    decreases b - a
  {
    if a < b {
      DaysBeforeMonthMonotone(y, a, b - 1);
    }
  }

  /** ECMAScript MakeDay for year `y`, month `m` and day `d` (any `d`): the
      first of the month plus `d - 1` days, so a day past the month's end
      falls in the following month. */
  function DayNumber(y: nat, m: int, d: int): int
    requires 1 <= m <= 12
  {
    DaysBeforeYear(y) + DaysBeforeMonth(y, m) + d - 1
  }

  /** A day number past the end of a month is the same day number as the
      matching day of the next month. */
  lemma DayNumberRollsOver(y: nat, m: int, d: int)
    requires 1 <= m < 12
    ensures DayNumber(y, m, d) == DayNumber(y, m + 1, d - DaysInMonth(y, m))
  {
  }

  /** The calendar date of day number `t` (ECMAScript YearFromTime,
      MonthFromTime and DateFromTime). */
  function CivilFromDays(t: nat): (dt: Date)
    ensures IsCalendarDate(dt) && dt.year >= 0
  {
    YearsFrom(0, t)
  }

  /** The date `t` days after the first of January of year `y`. */
  function YearsFrom(y: nat, t: nat): (dt: Date)
    ensures IsCalendarDate(dt) && dt.year >= y
    decreases t
  {
    if t < YearLength(y) then
      DaysBeforeMonthOfYear(y);
      MonthsFromIsCalendarDate(y, 1, t);
      MonthsFrom(y, 1, t)
    else YearsFrom(y + 1, t - YearLength(y))
  }

  /** The date `t` days after the first of month `m` of year `y`. */
  function MonthsFrom(y: nat, m: int, t: nat): (dt: Date)
    requires 1 <= m <= 12
    ensures dt.year == y && 1 <= dt.month <= 12 && dt.day >= 1
    decreases 12 - m
  {
    if m == 12 || t < DaysInMonth(y, m) then Date(y, m, t + 1)
    else MonthsFrom(y, m + 1, t - DaysInMonth(y, m))
  }

  /** Counting months from month `m`, a day before the end of the year is a
      real date. */
  lemma {:induction false} MonthsFromIsCalendarDate(y: nat, m: int, t: nat)
    requires 1 <= m <= 12 && t < DaysBeforeMonth(y, 13) - DaysBeforeMonth(y, m)
    ensures IsCalendarDate(MonthsFrom(y, m, t))
    decreases 12 - m
  {
    if m == 12 {
      DaysBeforeNextMonth(y, 12);
    } else if t >= DaysInMonth(y, m) {
      DaysBeforeNextMonth(y, m);
      MonthsFromIsCalendarDate(y, m + 1, t - DaysInMonth(y, m));
    }
  }

  /** A day inside month `m` is in month `m`. */
  lemma MonthsFromWithin(y: nat, m: int, t: nat)
    requires 1 <= m <= 12 && t < DaysInMonth(y, m)
    ensures MonthsFrom(y, m, t) == Date(y, m, t + 1)
  {
  }

  /** A day past the end of month `m` is counted from the next month. */
  lemma MonthsFromBeyond(y: nat, m: int, t: nat)
    requires 1 <= m < 12 && t >= DaysInMonth(y, m)
    ensures MonthsFrom(y, m, t) == MonthsFrom(y, m + 1, t - DaysInMonth(y, m))
  {
  }

  /** The offset of day `d` of month `m` from the first of month `m0`, less
      the length of month `m0`, is its offset from the first of the next
      month. */
  lemma OffsetFromNextMonth(y: nat, m0: int, m: int, d: int, t: nat)
    requires 1 <= m0 < m <= 12 && 1 <= d
    requires t == DaysBeforeMonth(y, m) - DaysBeforeMonth(y, m0) + d - 1
    ensures t >= DaysInMonth(y, m0)
    ensures t - DaysInMonth(y, m0) == DaysBeforeMonth(y, m) - DaysBeforeMonth(y, m0 + 1) + d - 1
  {
    DaysBeforeNextMonth(y, m0);
    DaysBeforeMonthMonotone(y, m0 + 1, m);
  }

  lemma {:induction false} MonthsFromDayNumber(y: nat, m0: int, m: int, d: int, t: nat)
    requires 1 <= m0 <= m <= 12 && 1 <= d <= DaysInMonth(y, m)
    requires t == DaysBeforeMonth(y, m) - DaysBeforeMonth(y, m0) + d - 1
    ensures MonthsFrom(y, m0, t) == Date(y, m, d)
    decreases m - m0
  {
    if m0 < m {
      OffsetFromNextMonth(y, m0, m, d, t);
      MonthsFromBeyond(y, m0, t);
      MonthsFromDayNumber(y, m0 + 1, m, d, t - DaysInMonth(y, m0));
    } else {
      MonthsFromWithin(y, m, t);
    }
  }

  lemma {:induction false} YearsFromDayNumber(y0: nat, y: nat, off: nat, t: nat)
    requires y0 <= y && off < YearLength(y)
    requires t == DaysBeforeYear(y) - DaysBeforeYear(y0) + off
    ensures YearsFrom(y0, t) == MonthsFrom(y, 1, off)
    decreases y - y0
  {
    if y0 < y {
      DaysBeforeNextYear(y0);
      DaysBeforeYearMonotone(y0 + 1, y);
      YearsFromDayNumber(y0 + 1, y, off, t - YearLength(y0));
    }
  }

  /** Day numbering and `CivilFromDays` are inverse on real dates: the date
      of a real date's day number is that date. */
  lemma CivilFromDayNumber(dt: Date)
    requires IsCalendarDate(dt) && dt.year >= 0
    ensures DayNumber(dt.year, dt.month, dt.day) >= 0
    ensures CivilFromDays(DayNumber(dt.year, dt.month, dt.day)) == dt
  {
    var y, m, d := dt.year, dt.month, dt.day;
    DaysBeforeMonthOfYear(y);
    DaysBeforeMonthMonotone(y, m + 1, 13);
    DaysBeforeYearMonotone(0, y);
    var off := DaysBeforeMonth(y, m) + d - 1;
    YearsFromDayNumber(0, y, off, DayNumber(y, m, d));
    MonthsFromDayNumber(y, 1, m, d, off);
  }

  /** Two real dates with the same day number are the same date. */
  lemma DayNumberInjective(a: Date, b: Date)
    requires IsCalendarDate(a) && a.year >= 0 && IsCalendarDate(b) && b.year >= 0
    ensures DayNumber(a.year, a.month, a.day) == DayNumber(b.year, b.month, b.day) <==> a == b
  {
    CivilFromDayNumber(a);
    CivilFromDayNumber(b);
  }
}
