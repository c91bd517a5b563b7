/** The proleptic Gregorian calendar as Python's datetime module uses it:
    month lengths, adding a number of days to a date, and day ordinals
    (date(1, 1, 1) has ordinal 1). */
module Calendar {

  /** datetime.MAXYEAR: a date past year 9999 raises OverflowError. */
  const MAX_YEAR := 9999

  predicate IsLeapYear(y: int) { y % 4 == 0 && (y % 100 != 0 || y % 400 == 0) }

  function DaysInMonth(y: int, m: int): (n: int)
    requires 1 <= m <= 12
    ensures 28 <= n <= 31
    ensures n == 28 <==> m == 2 && !IsLeapYear(y)
  {
    if m == 2 then (if IsLeapYear(y) then 29 else 28)
    else if m == 4 || m == 6 || m == 9 || m == 11 then 30
    else 31
  }

  function YearLength(y: int): int { if IsLeapYear(y) then 366 else 365 }

  datatype Date = Date(year: int, month: int, day: int)

  /** A calendar date from year 1 on; the upper year bound is checked
      separately, where Python checks it. */
  predicate IsDate(d: Date)
  {
    1 <= d.year && 1 <= d.month <= 12 && 1 <= d.day <= DaysInMonth(d.year, d.month)
  }

  /** The (year, month) that follows (y, m) in calendar order. */
  function FollowingMonth(y: int, m: int): (int, int)
  {
    if m == 12 then (y + 1, 1) else (y, m + 1)
  }

  /** Months counted from year 0, so that calendar order is integer order. */
  function MonthIndex(y: int, m: int): int { 12 * y + m - 1 }

  lemma FollowingMonthIsNext(y: int, m: int)
    requires 1 <= m <= 12
    ensures var (ny, nm) := FollowingMonth(y, m);
      1 <= nm <= 12 && MonthIndex(ny, nm) == MonthIndex(y, m) + 1
  {
  }

  /** d + timedelta(days = n): move forward n days, crossing month and year
      ends as needed. */
  function AddDays(d: Date, n: nat): (r: Date)
    requires IsDate(d)
    ensures IsDate(r)
    decreases n
  {
    var dim := DaysInMonth(d.year, d.month);
    if d.day + n <= dim then Date(d.year, d.month, d.day + n)
    else
      var (ny, nm) := FollowingMonth(d.year, d.month);
      AddDays(Date(ny, nm, 1), n - (dim - d.day + 1))
  }

  function DaysBeforeMonth(y: int, m: int): nat
    requires 1 <= m <= 13
  {
    if m == 1 then 0 else DaysBeforeMonth(y, m - 1) + DaysInMonth(y, m - 1)
  }

  function DaysBeforeYear(y: int): nat
    requires y >= 1
  {
    if y == 1 then 0 else DaysBeforeYear(y - 1) + YearLength(y - 1)
  }

  /** date.toordinal(): the day number counted from 0001-01-01, which is 1. */
  function Ordinal(d: Date): int
    requires IsDate(d)
  {
    DaysBeforeYear(d.year) + DaysBeforeMonth(d.year, d.month) + d.day
  }

  lemma YearIsItsMonths(y: int)
    ensures DaysBeforeMonth(y, 13) == YearLength(y)
  {
    var feb := DaysInMonth(y, 2);
    assert DaysBeforeMonth(y, 2) == 31;
    assert DaysBeforeMonth(y, 3) == 31 + feb;
    assert DaysBeforeMonth(y, 4) == 62 + feb;
    assert DaysBeforeMonth(y, 5) == 92 + feb;
    assert DaysBeforeMonth(y, 6) == 123 + feb;
    assert DaysBeforeMonth(y, 7) == 153 + feb;
    assert DaysBeforeMonth(y, 8) == 184 + feb;
    assert DaysBeforeMonth(y, 9) == 215 + feb;
    assert DaysBeforeMonth(y, 10) == 245 + feb;
    assert DaysBeforeMonth(y, 11) == 276 + feb;
    assert DaysBeforeMonth(y, 12) == 306 + feb;
  }

  /** The first day of the following month is the day after the last day of
      this one. */
  lemma OrdinalOfNextMonth(d: Date)
    requires IsDate(d)
    ensures var (ny, nm) := FollowingMonth(d.year, d.month);
      Ordinal(Date(ny, nm, 1)) == Ordinal(d) + DaysInMonth(d.year, d.month) - d.day + 1
  {
    if d.month == 12 {
      YearIsItsMonths(d.year);
    }
  }

  /** Adding n days adds n to the ordinal, as datetime's arithmetic does. */
  lemma {:induction false} AddDaysOrdinal(d: Date, n: nat)
    requires IsDate(d)
    ensures Ordinal(AddDays(d, n)) == Ordinal(d) + n
    decreases n
  {
    var dim := DaysInMonth(d.year, d.month);
    if d.day + n > dim {
      var (ny, nm) := FollowingMonth(d.year, d.month);
      OrdinalOfNextMonth(d);
      AddDaysOrdinal(Date(ny, nm, 1), n - (dim - d.day + 1));
    }
  }

  /** Thirty-five days after the first of a month is always in the following
      month, on day 36 minus the month's length (day 5 to 8), so the step
      neither stays in the month nor skips the next one. */
  lemma FiveWeeksLandsInNextMonth(y: int, m: int)
    requires y >= 1 && 1 <= m <= 12
    ensures var (ny, nm) := FollowingMonth(y, m);
      AddDays(Date(y, m, 1), 35) == Date(ny, nm, 36 - DaysInMonth(y, m))
  {
    var dim := DaysInMonth(y, m);
    var (ny, nm) := FollowingMonth(y, m);
    assert AddDays(Date(y, m, 1), 35) == AddDays(Date(ny, nm, 1), 35 - dim);
    assert 1 + (35 - dim) <= 28 <= DaysInMonth(ny, nm);
  }
}
