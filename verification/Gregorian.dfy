/** The proleptic Gregorian calendar that Python's `date` uses. A date is its ordinal: day 1 is
    1 January of year 1, a Monday. A month is its index 12 * year + (month - 1). */
module Gregorian {
  import opened Arith

  type Date = int

  const MONDAY := 0
  const WEDNESDAY := 2
  const THURSDAY := 3
  const FRIDAY := 4
  const SATURDAY := 5
  const SUNDAY := 6

  predicate IsLeap(year: int) {
    year % 4 == 0 && (year % 100 != 0 || year % 400 == 0)
  }

  function DaysBeforeYear(year: int): int {
    var y := year - 1;
    365 * y + y / 4 - y / 100 + y / 400
  }

  function DaysInMonth(year: int, month: int): int {
    if month == 2 then if IsLeap(year) then 29 else 28
    else if month == 4 || month == 6 || month == 9 || month == 11 then 30
    else 31
  }

  function DaysBeforeMonth(year: int, month: int): int
    decreases month
  {
    if month <= 1 then 0 else DaysBeforeMonth(year, month - 1) + DaysInMonth(year, month - 1)
  }

  /** `date(year, month, day)`. */
  function DateOf(year: int, month: int, day: int): Date {
    DaysBeforeYear(year) + DaysBeforeMonth(year, month) + day
  }

  function MonthStart(m: int): Date {
    DateOf(m / 12, m % 12 + 1, 1)
  }

  function MonthDays(m: int): int {
    DaysInMonth(m / 12, m % 12 + 1)
  }

  lemma YearStep(year: int)
    ensures DaysBeforeYear(year + 1) == DaysBeforeYear(year) + if IsLeap(year) then 366 else 365
  {
    FloorStep(year, 4);
    FloorStep(year, 100);
    FloorStep(year, 400);
    FactorDivides(year, 4, 25);
    FactorDivides(year, 100, 4);
    assert 365 * (year + 1 - 1) == 365 * (year - 1) + 365;
  }

  lemma FloorStep(n: int, d: int)
    requires d > 0
    ensures n / d == (n - 1) / d + if n % d == 0 then 1 else 0
  {
    var q, r := n / d, n % d;
    assert n == q * d + r;
    if r == 0 {
      assert n - 1 == (q - 1) * d + (d - 1);
      FloorIff(n - 1, d, q - 1);
    } else {
      FloorIff(n - 1, d, q);
    }
  }

  lemma FactorDivides(n: int, d: int, e: int)
    requires d > 0 && e > 0
    ensures d * e > 0 && (n % (d * e) == 0 ==> n % d == 0)
  {
    MulStrict(0, d, e);
    if n % (d * e) == 0 {
      var q := n / (d * e);
      assert n == q * (d * e) == (q * e) * d;
      FloorIff(n, d, q * e);
    }
  }

  lemma YearTable(year: int)
    ensures var f := if IsLeap(year) then 1 else 0;
      && DaysBeforeMonth(year, 1) == 0 && DaysBeforeMonth(year, 2) == 31
      && DaysBeforeMonth(year, 3) == 59 + f && DaysBeforeMonth(year, 4) == 90 + f
      && DaysBeforeMonth(year, 5) == 120 + f && DaysBeforeMonth(year, 6) == 151 + f
      && DaysBeforeMonth(year, 7) == 181 + f && DaysBeforeMonth(year, 8) == 212 + f
      && DaysBeforeMonth(year, 9) == 243 + f && DaysBeforeMonth(year, 10) == 273 + f
      && DaysBeforeMonth(year, 11) == 304 + f && DaysBeforeMonth(year, 12) == 334 + f
  {
    assert DaysBeforeMonth(year, 3) == 59 + if IsLeap(year) then 1 else 0;
    assert DaysBeforeMonth(year, 5) == 120 + if IsLeap(year) then 1 else 0;
    assert DaysBeforeMonth(year, 7) == 181 + if IsLeap(year) then 1 else 0;
    assert DaysBeforeMonth(year, 9) == 243 + if IsLeap(year) then 1 else 0;
    assert DaysBeforeMonth(year, 11) == 304 + if IsLeap(year) then 1 else 0;
  }

  /** The next month starts when this one ends, also over the end of a year. */
  lemma MonthStep(m: int)
    ensures MonthStart(m + 1) == MonthStart(m) + MonthDays(m)
    ensures 28 <= MonthDays(m) <= 31
  {
    var year := m / 12;
    if m % 12 == 11 {
      assert (m + 1) / 12 == year + 1 && (m + 1) % 12 == 0;
      YearStep(year);
      YearTable(year);
    } else {
      assert (m + 1) / 12 == year && (m + 1) % 12 == m % 12 + 1;
    }
  }

  lemma {:induction false} MonthsApart(m: int, n: int)
    requires m <= n
    ensures MonthStart(m) + 28 * (n - m) <= MonthStart(n)
    decreases n - m
  {
    hide MonthStart, MonthDays;
    if m < n {
      MonthsApart(m, n - 1);
      MonthStep(n - 1);
    }
  }

  function MonthFrom(day: Date, m: int): (r: int)
    requires MonthStart(m) <= day
    ensures MonthStart(r) <= day < MonthStart(r) + MonthDays(r)
    decreases day - MonthStart(m)
  {
    hide MonthStart, MonthDays;
    MonthStep(m);
    if day < MonthStart(m) + MonthDays(m) then m else MonthFrom(day, m + 1)
  }

  lemma FirstMonth()
    ensures MonthStart(12) == 1
  {
  }

  lemma EarlyMonth(day: Date)
    ensures MonthStart(if day < 1 then 11 + day else 12) <= day
  {
    hide MonthStart;
    FirstMonth();
    if day < 1 {
      MonthsApart(11 + day, 12);
    }
  }

  /** The month a day lies in. */
  function MonthIndex(day: Date): (m: int)
    ensures MonthStart(m) <= day < MonthStart(m) + MonthDays(m)
  {
    EarlyMonth(day);
    MonthFrom(day, if day < 1 then 11 + day else 12)
  }

  /** A day counted from the start of a month, and short of its end, lies in that month. */
  lemma MonthIndexOf(m: int, offset: nat)
    requires offset < MonthDays(m)
    ensures MonthIndex(MonthStart(m) + offset) == m
  {
    hide MonthStart, MonthDays, MonthIndex;
    var day := MonthStart(m) + offset;
    var r := MonthIndex(day);
    MonthStep(m);
    MonthStep(r);
    if r < m {
      MonthsApart(r + 1, m);
    } else if m < r {
      MonthsApart(m + 1, r);
    }
  }

  lemma MonthIndexMonotone(x: Date, y: Date)
    requires x <= y
    ensures MonthIndex(x) <= MonthIndex(y)
  {
    hide MonthStart, MonthDays, MonthIndex;
    var m, n := MonthIndex(x), MonthIndex(y);
    if n < m {
      MonthStep(n);
      MonthsApart(n + 1, m);
    }
  }

  function Year(day: Date): int {
    MonthIndex(day) / 12
  }

  function Month(day: Date): (m: int)
    ensures 1 <= m <= 12
  {
    MonthIndex(day) % 12 + 1
  }

  function DayOfMonth(day: Date): (d: int)
    ensures 1 <= d <= 31
  {
    MonthStep(MonthIndex(day));
    day - MonthStart(MonthIndex(day)) + 1
  }

  function Weekday(day: Date): (w: int)
    ensures 0 <= w < 7
  {
    (day + 6) % 7
  }

  type Monday = day: Date | Weekday(day) == MONDAY witness 1

  predicate ValidFields(year: int, month: int, day: int) {
    1 <= month <= 12 && 1 <= day <= DaysInMonth(year, month)
  }

  lemma DateOfMonthDay(m: int, d: int)
    ensures DateOf(m / 12, m % 12 + 1, d) == MonthStart(m) + d - 1
  {
  }

  /** Ordinals and (year, month, day) triples are in one-to-one correspondence. */
  lemma FieldsOfDate(year: int, month: int, d: int)
    requires ValidFields(year, month, d)
    ensures var day := DateOf(year, month, d);
      MonthIndex(day) == 12 * year + month - 1 && Year(day) == year && Month(day) == month && DayOfMonth(day) == d
  {
    var m := 12 * year + month - 1;
    assert m / 12 == year && m % 12 == month - 1;
    MonthIndexOf(m, d - 1);
  }

  lemma DateOfFields(day: Date)
    ensures ValidFields(Year(day), Month(day), DayOfMonth(day))
    ensures DateOf(Year(day), Month(day), DayOfMonth(day)) == day
  {
    DateOfMonthDay(MonthIndex(day), DayOfMonth(day));
  }

  /** Every 400 years the calendar repeats, weekdays included. */
  lemma FourCenturies(year: int, month: int, d: int)
    ensures DateOf(year + 400, month, d) == DateOf(year, month, d) + 146_097
    ensures Weekday(DateOf(year + 400, month, d)) == Weekday(DateOf(year, month, d))
  {
    hide DaysBeforeYear, DaysBeforeMonth;
    SameYears(year);
    SameMonths(year, month);
    assert 146_097 == 7 * 20_871;
  }

  lemma SameYears(year: int)
    ensures DaysBeforeYear(year + 400) == DaysBeforeYear(year) + 146_097
    ensures IsLeap(year + 400) == IsLeap(year)
  {
    var y := year - 1;
    assert (y + 400) / 4 == y / 4 + 100 && (y + 400) / 100 == y / 100 + 4 && (y + 400) / 400 == y / 400 + 1;
  }

  lemma {:induction false} SameMonths(year: int, month: int)
    ensures DaysBeforeMonth(year + 400, month) == DaysBeforeMonth(year, month)
    decreases month
  {
    hide IsLeap, DaysBeforeYear;
    SameYears(year);
    if month > 1 {
      SameMonths(year, month - 1);
    }
  }

  /** February ends on the 29th every four years, but of the full centuries only every fourth. */
  lemma FebruaryEnds(year: int)
    ensures DateOf(year, 3, 1) == DateOf(year, 2, 28)
      + if year % 4 != 0 then 1 else if year % 100 != 0 then 2 else if year % 400 != 0 then 1 else 2
  {
    hide DaysBeforeYear, DaysBeforeMonth;
    YearTable(year);
  }
}
