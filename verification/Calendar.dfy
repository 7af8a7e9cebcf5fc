/** Proleptic Gregorian dates, as `chrono::NaiveDate` keeps them. */
module Calendar {

  datatype CivilDate = CivilDate(year: int, month: int, day: int)

  predicate IsLeap(y: int) {
    y % 4 == 0 && (y % 100 != 0 || y % 400 == 0)
  }

  function DaysInMonth(y: int, m: int): int
    requires 1 <= m <= 12
  {
    if m == 2 then (if IsLeap(y) then 29 else 28)
    else if m == 4 || m == 6 || m == 9 || m == 11 then 30
    else 31
  }

  predicate Valid(d: CivilDate) {
    1 <= d.month <= 12 && 1 <= d.day <= DaysInMonth(d.year, d.month)
  }

  type Date = d: CivilDate | Valid(d) witness CivilDate(1970, 1, 1)

  const EPOCH: Date := CivilDate(1970, 1, 1)

  /** Chronological order, decided field by field. */
  predicate Before(a: Date, b: Date) {
    a.year < b.year
    || (a.year == b.year && (a.month < b.month || (a.month == b.month && a.day < b.day)))
  }

  predicate NotAfter(a: Date, b: Date) {
    a == b || Before(a, b)
  }

  function DaysBeforeYear(y: int): int {
    365 * (y - 1) + (y - 1) / 4 - (y - 1) / 100 + (y - 1) / 400
  }

  function DaysBeforeMonth(y: int, m: int): int
    requires 1 <= m <= 13
    decreases m
  {
    if m == 1 then 0 else DaysBeforeMonth(y, m - 1) + DaysInMonth(y, m - 1)
  }

  /** Days counted from 0001-01-01 as day 1. */
  function DayNumber(d: Date): int {
    DaysBeforeYear(d.year) + DaysBeforeMonth(d.year, d.month) + d.day
  }

  function DaysBetween(from: Date, to: Date): int {
    DayNumber(to) - DayNumber(from)
  }

  lemma DaysOfYear(y: int)
    ensures DaysBeforeMonth(y, 13) == (if IsLeap(y) then 366 else 365)
  {
    assert DaysBeforeMonth(y, 3) == 31 + DaysInMonth(y, 2);
    assert DaysBeforeMonth(y, 6) == DaysBeforeMonth(y, 3) + 31 + 30 + 31;
    assert DaysBeforeMonth(y, 9) == DaysBeforeMonth(y, 6) + 30 + 31 + 31;
    assert DaysBeforeMonth(y, 12) == DaysBeforeMonth(y, 9) + 30 + 31 + 30;
  }

  lemma LeapDays(p: int)
    ensures (p + 1) / 4 == p / 4 + (if (p + 1) % 4 == 0 then 1 else 0)
    ensures (p + 1) / 100 == p / 100 + (if (p + 1) % 100 == 0 then 1 else 0)
    ensures (p + 1) / 400 == p / 400 + (if (p + 1) % 400 == 0 then 1 else 0)
  {
  }

  lemma MultipleOf100(n: int)
    ensures (100 * n) % 100 == 0
  {
  }

  lemma MultipleOf4(n: int)
    ensures (4 * n) % 4 == 0
  {
  }

  lemma LeapNesting(y: int)
    ensures y % 400 == 0 ==> y % 100 == 0
    ensures y % 100 == 0 ==> y % 4 == 0
  {
    MultipleOf100(4 * (y / 400));
    MultipleOf4(25 * (y / 100));
  }

  lemma YearLength(y: int)
    ensures DaysBeforeYear(y + 1) - DaysBeforeYear(y) == DaysBeforeMonth(y, 13)
  {
    hide DaysBeforeMonth;
    LeapDays(y - 1);
    DaysOfYear(y);
    LeapNesting(y);
  }

  lemma {:induction false} MonthsAscend(y: int, m: int, n: int)
    requires 1 <= m < n <= 13
    ensures DaysBeforeMonth(y, m) + DaysInMonth(y, m) <= DaysBeforeMonth(y, n)
    decreases n
  {
    if m < n - 1 {
      MonthsAscend(y, m, n - 1);
    }
  }

  lemma {:induction false} YearsAscend(y: int, z: int)
    requires y < z
    ensures DaysBeforeYear(y + 1) <= DaysBeforeYear(z)
    decreases z - y
  {
    if y + 1 < z {
      YearsAscend(y, z - 1);
      YearLength(z - 1);
      MonthsAscend(z - 1, 1, 13);
    }
  }

  /** The day number is an order embedding: comparing fields and comparing counts agree. */
  lemma BeforeIsDayOrder(a: Date, b: Date)
    ensures Before(a, b) <==> DayNumber(a) < DayNumber(b)
  {
    if Before(a, b) {
      BeforeAscends(a, b);
    } else if a != b {
      BeforeAscends(b, a);
    }
  }

  lemma BeforeAscends(a: Date, b: Date)
    requires Before(a, b)
    ensures DayNumber(a) < DayNumber(b)
  {
    if a.year < b.year {
      YearsAscend(a.year, b.year);
      YearLength(a.year);
      MonthsAscend(a.year, a.month, 13);
      if b.month > 1 {
        MonthsAscend(b.year, 1, b.month);
      }
    } else if a.month < b.month {
      MonthsAscend(a.year, a.month, b.month);
    }
  }

  /** `d + Duration::days(1)`. */
  function NextDay(d: Date): Date {
    if d.day < DaysInMonth(d.year, d.month) then CivilDate(d.year, d.month, d.day + 1)
    else if d.month < 12 then CivilDate(d.year, d.month + 1, 1)
    else CivilDate(d.year + 1, 1, 1)
  }

  lemma NextDayIsOneLater(d: Date)
    ensures DayNumber(NextDay(d)) == DayNumber(d) + 1
  {
    YearLength(d.year);
  }

  function MonthFirst(d: Date): Date {
    CivilDate(d.year, d.month, 1)
  }

  /** First day of the month after `d`'s. */
  function NextMonthFirst(d: Date): Date {
    if d.month == 12 then CivilDate(d.year + 1, 1, 1) else CivilDate(d.year, d.month + 1, 1)
  }
}
