/**
  Civil dates of the proleptic Gregorian calendar, as JavaScript's `Date`
  counts them at local midnight: a day number (days since 1970-01-01), the
  weekday (0 = Sunday, as `getDay` returns it), month lengths, and the facts
  that make the day number a faithful stand-in for comparing `Date` values.
*/
module CivilDate {

  /** A calendar day; `month` is 1..12 and `day` is the day of the month. */
  datatype Date = Date(year: int, month: int, day: int)

  predicate IsLeapYear(year: int) {
    year % 4 == 0 && (year % 100 != 0 || year % 400 == 0)
  }

  function DaysInYear(year: int): int {
    if IsLeapYear(year) then 366 else 365
  }

  function DaysInMonth(year: int, month: int): (n: int)
    requires 1 <= month <= 12
    ensures 28 <= n <= 31
    ensures n == 29 <==> month == 2 && IsLeapYear(year)
  {
    if month == 2 then (if IsLeapYear(year) then 29 else 28)
    else if month == 4 || month == 6 || month == 9 || month == 11 then 30
    else 31
  }

  /** A day that exists in the calendar. */
  predicate IsValid(d: Date) {
    1 <= d.month <= 12 && 1 <= d.day <= DaysInMonth(d.year, d.month)
  }

  /** Days from 1970-01-01 to `d` (negative before it). The year is counted
      from March so that the leap day falls at its end. */
  function DayNumber(d: Date): int
    requires 1 <= d.month <= 12
  {
    var y := if d.month <= 2 then d.year - 1 else d.year;
    var mp := if d.month > 2 then d.month - 3 else d.month + 9;
    var doy := MonthOffset(mp) + d.day - 1;
    365 * y + y / 4 - y / 100 + y / 400 + doy - 719468
  }

  /** Days from the first of March to the first of the month `mp` months
      later (within one March-to-February year). */
  function MonthOffset(mp: int): int {
    (153 * mp + 2) / 5
  }

  /** `Date.prototype.getDay`: 0 = Sunday .. 6 = Saturday (1970-01-01 was a
      Thursday). */
  function Weekday(d: Date): (w: int)
    requires 1 <= d.month <= 12
    ensures 0 <= w < 7
  {
    (DayNumber(d) + 4) % 7
  }

  /** Calendar order: earlier year, then earlier month, then earlier day. */
  predicate Before(a: Date, b: Date) {
    || a.year < b.year
    || (a.year == b.year && a.month < b.month)
    || (a.year == b.year && a.month == b.month && a.day < b.day)
  }

  /** The day after `d`. */
  function NextDay(d: Date): (n: Date)
    requires IsValid(d)
    ensures IsValid(n) && Before(d, n)
  {
    if d.day < DaysInMonth(d.year, d.month) then Date(d.year, d.month, d.day + 1)
    else if d.month < 12 then Date(d.year, d.month + 1, 1)
    else Date(d.year + 1, 1, 1)
  }

  // ---------------------------------------------------------------------
  // The day number against the calendar
  // ---------------------------------------------------------------------

  /** Days in the months of `year` before `month`. */
  function DaysBeforeMonth(year: int, month: int): (n: int)
    requires 1 <= month <= 12
    ensures n >= 0
    decreases month
  {
    if month == 1 then 0 else DaysBeforeMonth(year, month - 1) + DaysInMonth(year, month - 1)
  }

  /** Stepping `y` back by one lowers `y / k` exactly when `k` divides `y`
      (for the divisors of the leap-year rule). */
  lemma FloorStep(y: int, k: int)
    requires k == 4 || k == 100 || k == 400
    ensures y / k - (y - 1) / k == if y % k == 0 then 1 else 0
  {
    if k == 4 {
      assert y / 4 - (y - 1) / 4 == if y % 4 == 0 then 1 else 0;
    } else if k == 100 {
      assert y / 100 - (y - 1) / 100 == if y % 100 == 0 then 1 else 0;
    } else {
      assert y / 400 - (y - 1) / 400 == if y % 400 == 0 then 1 else 0;
    }
  }

  /** The leap days counted by `y / 4 - y / 100 + y / 400` grow by one at
      each leap year. */
  lemma LeapDays(y: int)
    ensures y / 4 - (y - 1) / 4 - (y / 100 - (y - 1) / 100) + (y / 400 - (y - 1) / 400)
            == DaysInYear(y) - 365
  {
    FloorStep(y, 4);
    FloorStep(y, 100);
    FloorStep(y, 400);
    DivisorChain(y);
  }

  /** Multiples of 400 are multiples of 100, and those of 100 are
      multiples of 4. */
  lemma DivisorChain(y: int)
    ensures y % 400 == 0 ==> y % 100 == 0
    ensures y % 100 == 0 ==> y % 4 == 0
  {
    if y % 400 == 0 {
      MultipleMod(y / 400 * 4, 100);
    }
    if y % 100 == 0 {
      MultipleMod(y / 100 * 25, 4);
    }
  }

  lemma MultipleMod(q: int, k: int)
    requires k == 4 || k == 100
    ensures (k * q) % k == 0
  {
    if k == 4 {
      assert (4 * q) % 4 == 0;
    } else {
      assert (100 * q) % 100 == 0;
    }
  }

  /** Consecutive new-year days are a year length apart. */
  lemma YearLength(year: int)
    ensures DayNumber(Date(year + 1, 1, 1)) == DayNumber(Date(year, 1, 1)) + DaysInYear(year)
  {
    LeapDays(year);
  }

  /** The day number is the new-year day number plus the day of the year. */
  lemma DayNumberFromNewYear(d: Date)
    requires 1 <= d.month <= 12
    ensures DayNumber(d) == DayNumber(Date(d.year, 1, 1)) + DaysBeforeMonth(d.year, d.month) + d.day - 1
  {
    LeapDays(d.year);
    MonthTable(d.year, d.month);
    assert MonthOffset(10) == 306;
  }

  /** The months before `month`, counted from March as the day number
      counts them. */
  lemma MonthTable(y: int, m: int)
    requires 1 <= m <= 12
    ensures DaysBeforeMonth(y, m)
            == if m <= 2 then MonthOffset(m + 9) - 306 else MonthOffset(m - 3) + 59 + DaysInYear(y) - 365
  {
    assert DaysBeforeMonth(y, 2) == 31;
    assert DaysBeforeMonth(y, 3) == 31 + DaysInMonth(y, 2);
    assert DaysBeforeMonth(y, 4) == 90 + DaysInYear(y) - 365;
    assert DaysBeforeMonth(y, 5) == 120 + DaysInYear(y) - 365;
    assert DaysBeforeMonth(y, 6) == 151 + DaysInYear(y) - 365;
    assert DaysBeforeMonth(y, 7) == 181 + DaysInYear(y) - 365;
    assert DaysBeforeMonth(y, 8) == 212 + DaysInYear(y) - 365;
    assert DaysBeforeMonth(y, 9) == 243 + DaysInYear(y) - 365;
    assert DaysBeforeMonth(y, 10) == 273 + DaysInYear(y) - 365;
    assert DaysBeforeMonth(y, 11) == 304 + DaysInYear(y) - 365;
    assert DaysBeforeMonth(y, 12) == 334 + DaysInYear(y) - 365;
    if m == 1 {
      assert MonthOffset(10) == 306;
    } else if m == 2 {
      assert MonthOffset(11) == 337;
    } else if m == 3 {
      assert MonthOffset(0) == 0;
    } else if m == 4 {
      assert MonthOffset(1) == 31;
    } else if m == 5 {
      assert MonthOffset(2) == 61;
    } else if m == 6 {
      assert MonthOffset(3) == 92;
    } else if m == 7 {
      assert MonthOffset(4) == 122;
    } else if m == 8 {
      assert MonthOffset(5) == 153;
    } else if m == 9 {
      assert MonthOffset(6) == 184;
    } else if m == 10 {
      assert MonthOffset(7) == 214;
    } else if m == 11 {
      assert MonthOffset(8) == 245;
    } else {
      assert MonthOffset(9) == 275;
    }
  }

  /** The months before `month` and `month` itself fit in the year. */
  lemma {:induction false} DaysBeforeMonthFits(year: int, month: int)
    requires 1 <= month <= 12
    ensures DaysBeforeMonth(year, month) + DaysInMonth(year, month) <= DaysInYear(year)
  {
    assert DaysBeforeMonth(year, 12) == 334 + DaysInYear(year) - 365 by {
      MonthTable(year, 12);
      assert MonthOffset(9) == 275;
    }
    DaysBeforeMonthGrows(year, month, 12);
  }

  /** An earlier month ends no later than a later month begins. */
  lemma {:induction false} DaysBeforeMonthGrows(year: int, m1: int, m2: int)
    requires 1 <= m1 <= m2 <= 12
    ensures m1 < m2 ==> DaysBeforeMonth(year, m1) + DaysInMonth(year, m1) <= DaysBeforeMonth(year, m2)
    ensures DaysBeforeMonth(year, m1) <= DaysBeforeMonth(year, m2)
    decreases m2 - m1
  {
    if m1 < m2 {
      DaysBeforeMonthGrows(year, m1, m2 - 1);
    }
  }

  /** New-year days grow with the year. */
  lemma {:induction false} NewYearGrows(y1: int, y2: int)
    requires y1 <= y2
    ensures DayNumber(Date(y1, 1, 1)) + 365 * (y2 - y1) <= DayNumber(Date(y2, 1, 1))
    decreases y2 - y1
  {
    if y1 < y2 {
      NewYearGrows(y1, y2 - 1);
      YearLength(y2 - 1);
    }
  }

  /** Where a valid day falls inside its year. */
  lemma DayOfYearBounds(d: Date)
    requires IsValid(d)
    ensures DayNumber(Date(d.year, 1, 1)) <= DayNumber(d) < DayNumber(Date(d.year + 1, 1, 1))
  {
    DayNumberFromNewYear(d);
    DaysBeforeMonthFits(d.year, d.month);
    YearLength(d.year);
  }

  /** Comparing day numbers is comparing dates in calendar order. */
  lemma DayNumberOrder(a: Date, b: Date)
    requires IsValid(a) && IsValid(b)
    ensures DayNumber(a) < DayNumber(b) <==> Before(a, b)
    ensures DayNumber(a) == DayNumber(b) <==> a == b
  {
    if Before(a, b) {
      BeforeHasSmallerNumber(a, b);
    } else if Before(b, a) {
      BeforeHasSmallerNumber(b, a);
    } else {
      assert a == b;
    }
  }

  lemma BeforeHasSmallerNumber(a: Date, b: Date)
    requires IsValid(a) && IsValid(b) && Before(a, b)
    ensures DayNumber(a) < DayNumber(b)
  {
    DayNumberFromNewYear(a);
    DayNumberFromNewYear(b);
    if a.year < b.year {
      DayOfYearBounds(a);
      NewYearGrows(a.year + 1, b.year);
    } else if a.month < b.month {
      DaysBeforeMonthGrows(a.year, a.month, b.month);
    }
  }

  /** The day number advances by one from each day to the next. */
  lemma NextDayNumber(d: Date)
    requires IsValid(d)
    ensures DayNumber(NextDay(d)) == DayNumber(d) + 1
  {
    var last := DaysInMonth(d.year, d.month);
    if d.day < last {
      assert NextDay(d) == Date(d.year, d.month, d.day + 1);
      assert DayNumber(Date(d.year, d.month, d.day + 1)) == DayNumber(d) + 1;
    } else if d.month < 12 {
      assert d == Date(d.year, d.month, last);
      assert NextDay(d) == Date(d.year, d.month + 1, 1);
      NextMonthNumber(d.year, d.month);
    } else {
      assert d == Date(d.year, 12, 31);
      assert NextDay(d) == Date(d.year + 1, 1, 1);
      NextYearNumber(d.year);
    }
  }

  lemma NextMonthNumber(year: int, month: int)
    requires 1 <= month < 12
    ensures DayNumber(Date(year, month + 1, 1))
            == DayNumber(Date(year, month, DaysInMonth(year, month))) + 1
  {
    var last := DaysInMonth(year, month);
    DayNumberFromNewYear(Date(year, month + 1, 1));
    DayNumberFromNewYear(Date(year, month, last));
    assert DaysBeforeMonth(year, month + 1) == DaysBeforeMonth(year, month) + last;
  }

  lemma NextYearNumber(year: int)
    ensures DayNumber(Date(year + 1, 1, 1)) == DayNumber(Date(year, 12, 31)) + 1
  {
    YearLength(year);
    DayNumberFromNewYear(Date(year, 12, 31));
  }

  /** Within a month the day number grows with the day. */
  lemma SameMonthNumber(year: int, month: int, day: int)
    requires 1 <= month <= 12
    ensures DayNumber(Date(year, month, day)) == DayNumber(Date(year, month, 1)) + day - 1
  {
  }

  /** The first of the next month comes a month length after the first of
      this one. */
  lemma FirstOfNextMonth(year: int, month: int)
    requires 1 <= month <= 12
    ensures var next := if month == 12 then Date(year + 1, 1, 1) else Date(year, month + 1, 1);
            DayNumber(next) == DayNumber(Date(year, month, 1)) + DaysInMonth(year, month)
  {
    SameMonthNumber(year, month, DaysInMonth(year, month));
    if month == 12 {
      NextYearNumber(year);
    } else {
      NextMonthNumber(year, month);
    }
  }

  /** Weekdays follow each other Sunday to Saturday and round again. */
  lemma WeekdayOfNextDay(d: Date)
    requires IsValid(d)
    ensures Weekday(NextDay(d)) == (Weekday(d) + 1) % 7
  {
    NextDayNumber(d);
    ModSeven(DayNumber(d) + 4);
  }

  lemma ModSeven(x: int)
    ensures (x + 1) % 7 == (x % 7 + 1) % 7
  {
  }

  /** Dates a whole number of weeks apart share their weekday. */
  lemma WeekdayPeriodic(a: Date, b: Date, weeks: int)
    requires 1 <= a.month <= 12 && 1 <= b.month <= 12
    requires DayNumber(b) == DayNumber(a) + 7 * weeks
    ensures Weekday(a) == Weekday(b)
  {
  }
}
