/**
 * The proleptic Gregorian calendar as Python's `datetime` implements it:
 * years 1 to 9999, leap years every fourth year except centuries not divisible
 * by 400, and day arithmetic through the proleptic ordinal (1 January of year 1
 * is day 1), which is what `datetime + timedelta` does.
 */
module Calendar {
  import opened Wrappers

  /** A calendar date; only dates satisfying `Valid` are ever produced. */
  datatype Date = Date(day: int, month: int, year: int)

  const MinYear := 1
  const MaxYear := 9999
  /** The last representable date, 31-12-9999. */
  const LastDate := Date(31, 12, MaxYear)
  /** Ordinal of `LastDate` (Python's `date.max.toordinal()`). */
  const MaxOrdinal := 3652059

  predicate IsLeapYear(year: int) {
    year % 4 == 0 && (year % 100 != 0 || year % 400 == 0)
  }

  function DaysInMonth(month: int, year: int): (n: int)
    requires 1 <= month <= 12
    ensures 28 <= n <= 31
  {
    if month == 2 then (if IsLeapYear(year) then 29 else 28)
    else if month == 4 || month == 6 || month == 9 || month == 11 then 30
    else 31
  }

  function DaysInYear(year: int): int {
    if IsLeapYear(year) then 366 else 365
  }

  /** The date exists in the calendar and in Python's supported range. */
  predicate Valid(d: Date) {
    && MinYear <= d.year <= MaxYear
    && 1 <= d.month <= 12
    && 1 <= d.day <= DaysInMonth(d.month, d.year)
  }

  /** Year, month and day in range for the ordinal arithmetic (the day may overflow its month). */
  predicate WellFormed(d: Date) {
    d.year >= MinYear && 1 <= d.month <= 12 && d.day >= 1
  }

  /** Days in the years before `year`, in closed form. */
  function DaysBeforeYear(year: int): int
    requires year >= MinYear
  {
    var y := year - 1;
    y * 365 + y / 4 - y / 100 + y / 400
  }

  /** Days in the months of `year` before `month`, from the cumulative table. */
  function DaysBeforeMonth(month: int, year: int): int
    requires 1 <= month <= 12
  {
    var table := [0, 31, 59, 90, 120, 151, 181, 212, 243, 273, 304, 334];
    table[month - 1] + (if month > 2 && IsLeapYear(year) then 1 else 0)
  }

  /** The proleptic ordinal of a date (Python's `toordinal`). */
  function Ordinal(d: Date): int
    requires WellFormed(d)
  {
    DaysBeforeYear(d.year) + DaysBeforeMonth(d.month, d.year) + d.day
  }

  /** Chronological order, as `datetime` compares (year, month, day). */
  predicate Before(d: Date, e: Date) {
    || d.year < e.year
    || (d.year == e.year && d.month < e.month)
    || (d.year == e.year && d.month == e.month && d.day < e.day)
  }

  /** The calendar day after `d`, rolling over month and year ends. */
  function NextDay(d: Date): (e: Date)
    requires Valid(d)
    ensures WellFormed(e)
    ensures Valid(e) <==> d != LastDate
    ensures Before(d, e)
  {
    if d.day < DaysInMonth(d.month, d.year) then Date(d.day + 1, d.month, d.year)
    else if d.month < 12 then Date(1, d.month + 1, d.year)
    else Date(1, 1, d.year + 1)
  }

  /**
   * `d + timedelta(days=n)`: the date `n` days later, or None where Python
   * raises OverflowError because the result lies after 31-12-9999.
   */
  function AddDays(d: Date, n: nat): (r: Option<Date>)
    requires Valid(d)
    ensures r.Some? ==> Valid(r.value)
    decreases n
  {
    if n == 0 then Some(d)
    else
      match AddDays(d, n - 1)
      case None => None
      case Some(e) =>
        var f := NextDay(e);
        if Valid(f) then Some(f) else None
  }

  // ---------------------------------------------------------------------
  // The ordinal agrees with the month lengths

  lemma DivStep4(y: int)
    ensures (y + 1) / 4 == y / 4 + (if (y + 1) % 4 == 0 then 1 else 0)
  {
  }

  lemma DivStep100(y: int)
    ensures (y + 1) / 100 == y / 100 + (if (y + 1) % 100 == 0 then 1 else 0)
  {
  }

  lemma DivStep400(y: int)
    ensures (y + 1) / 400 == y / 400 + (if (y + 1) % 400 == 0 then 1 else 0)
  {
  }

  lemma CenturyOf400(year: int)
    requires year % 400 == 0
    ensures year % 100 == 0
  {
    assert year == 100 * (4 * (year / 400));
  }

  lemma QuadOf100(year: int)
    requires year % 100 == 0
    ensures year % 4 == 0
  {
    assert year == 4 * (25 * (year / 100));
  }

  /** The leap-year rule, counted by divisors: +1 for 4, -1 for 100, +1 for 400. */
  lemma LeapByDivisors(year: int)
    ensures (if IsLeapYear(year) then 1 else 0)
            == (if year % 4 == 0 then 1 else 0) - (if year % 100 == 0 then 1 else 0) + (if year % 400 == 0 then 1 else 0)
  {
    if year % 400 == 0 {
      CenturyOf400(year);
    }
    if year % 100 == 0 {
      QuadOf100(year);
    }
  }

  lemma DaysBeforeYearStep(year: int)
    requires year >= MinYear
    ensures DaysBeforeYear(year + 1) == DaysBeforeYear(year) + DaysInYear(year)
  {
    var y := year - 1;
    DivStep4(y);
    DivStep100(y);
    DivStep400(y);
    LeapByDivisors(year);
    assert DaysBeforeYear(year + 1) == (y + 1) * 365 + (y + 1) / 4 - (y + 1) / 100 + (y + 1) / 400;
    assert (y + 1) * 365 == y * 365 + 365;
  }

  lemma DaysBeforeMonthStep(month: int, year: int)
    requires 1 <= month < 12
    ensures DaysBeforeMonth(month + 1, year) == DaysBeforeMonth(month, year) + DaysInMonth(month, year)
  {
  }

  lemma DaysBeforeDecember(year: int)
    ensures DaysBeforeMonth(12, year) + DaysInMonth(12, year) == DaysInYear(year)
  {
  }

  /** A valid date falls inside its year: 1 <= day of year <= length of year. */
  lemma DayOfYearBounds(d: Date)
    requires Valid(d)
    ensures 1 <= DaysBeforeMonth(d.month, d.year) + d.day <= DaysInYear(d.year)
  {
  }

  /** Every day of a month comes before every day of a later month of the same year. */
  lemma MonthsOrdered(m1: int, m2: int, year: int)
    requires 1 <= m1 < m2 <= 12
    ensures DaysBeforeMonth(m1, year) + DaysInMonth(m1, year) <= DaysBeforeMonth(m2, year)
  {
  }

  /** Every day of a year comes before every day of a later year. */
  lemma {:induction false} YearsOrdered(y1: int, y2: int)
    requires MinYear <= y1 < y2
    ensures DaysBeforeYear(y1) + DaysInYear(y1) <= DaysBeforeYear(y2)
    decreases y2 - y1
  {
    DaysBeforeYearStep(y1);
    if y1 + 1 < y2 {
      YearsOrdered(y1 + 1, y2);
      DaysBeforeYearStep(y1 + 1);
    }
  }

  /** The day after has the next ordinal. */
  lemma NextDayOrdinal(d: Date)
    requires Valid(d)
    ensures Ordinal(NextDay(d)) == Ordinal(d) + 1
  {
    if d.day < DaysInMonth(d.month, d.year) {
    } else if d.month < 12 {
      DaysBeforeMonthStep(d.month, d.year);
    } else {
      DaysBeforeDecember(d.year);
      DaysBeforeYearStep(d.year);
    }
  }

  /** Chronological order is order of ordinals. */
  lemma BeforeIsOrdinalOrder(d: Date, e: Date)
    requires Valid(d) && Valid(e)
    ensures Before(d, e) <==> Ordinal(d) < Ordinal(e)
  {
    if Before(d, e) {
      OrdinalIncreasing(d, e);
    } else if Before(e, d) {
      OrdinalIncreasing(e, d);
    } else {
      assert d == e;
    }
  }

  lemma OrdinalIncreasing(d: Date, e: Date)
    requires Valid(d) && Valid(e) && Before(d, e)
    ensures Ordinal(d) < Ordinal(e)
  {
    if d.year < e.year {
      DayOfYearBounds(d);
      DayOfYearBounds(e);
      YearsOrdered(d.year, e.year);
    } else if d.month < e.month {
      MonthsOrdered(d.month, e.month, d.year);
    }
  }

  /** Distinct valid dates have distinct ordinals. */
  lemma OrdinalInjective(d: Date, e: Date)
    requires Valid(d) && Valid(e) && Ordinal(d) == Ordinal(e)
    ensures d == e
  {
    BeforeIsOrdinalOrder(d, e);
    BeforeIsOrdinalOrder(e, d);
  }

  /** A valid date whose ordinal is one more than another's is the day after it. */
  lemma SuccessorOrdinal(d: Date, e: Date)
    requires Valid(d) && Valid(e) && Ordinal(e) == Ordinal(d) + 1
    ensures e == NextDay(d)
  {
    OrdinalRange(d);
    OrdinalRange(e);
    NextDayOrdinal(d);
    OrdinalInjective(e, NextDay(d));
  }

  /** Valid dates have ordinals 1 .. MaxOrdinal, and the last date has MaxOrdinal. */
  lemma OrdinalRange(d: Date)
    requires Valid(d)
    ensures 1 <= Ordinal(d) <= MaxOrdinal
    ensures Ordinal(d) == MaxOrdinal <==> d == LastDate
  {
    assert Ordinal(LastDate) == MaxOrdinal;
    DayOfYearBounds(d);
    if d != LastDate {
      BeforeIsOrdinalOrder(d, LastDate);
    }
  }

  /**
   * `AddDays` is ordinal arithmetic: it succeeds exactly when the target
   * ordinal is in range, and then lands on the date with that ordinal.
   */
  lemma {:induction false} AddDaysOrdinal(d: Date, n: nat)
    requires Valid(d)
    ensures AddDays(d, n).Some? <==> Ordinal(d) + n <= MaxOrdinal
    ensures AddDays(d, n).Some? ==> Ordinal(AddDays(d, n).value) == Ordinal(d) + n
    decreases n
  {
    OrdinalRange(d);
    if n > 0 {
      AddDaysOrdinal(d, n - 1);
      match AddDays(d, n - 1)
      case None =>
      case Some(e) =>
        OrdinalRange(e);
        if e != LastDate {
          NextDayOrdinal(e);
        }
    }
  }

  /** Each further day is the calendar day after the previous one. */
  lemma AddDaysSucc(d: Date, n: nat)
    requires Valid(d) && AddDays(d, n + 1).Some?
    ensures AddDays(d, n).Some? && AddDays(d, n + 1) == Some(NextDay(AddDays(d, n).value))
  {
  }

  /** A later offset gives a strictly later date. */
  lemma AddDaysAscending(d: Date, i: nat, j: nat)
    requires Valid(d) && i < j && AddDays(d, i).Some? && AddDays(d, j).Some?
    ensures Before(AddDays(d, i).value, AddDays(d, j).value)
  {
    AddDaysOrdinal(d, i);
    AddDaysOrdinal(d, j);
    BeforeIsOrdinalOrder(AddDays(d, i).value, AddDays(d, j).value);
  }
}
