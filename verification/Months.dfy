/** Month arithmetic: shifting a date by whole months, clamped or anchored to the end of the month. */
module Months {
  import opened Arith
  import opened Gregorian

  function MonthEnd(day: Date): Date {
    if Month(day) == 12 then DateOf(Year(day), 12, 31)
    else DateOf(Year(day), Month(day) + 1, 1) - 1
  }

  /** `add_months`: the day of the month is kept, or clamped to the end of a shorter month. */
  function AddMonths(day: Date, months: int): Date {
    var total := Year(day) * 12 + (Month(day) - 1) + months;
    var year, month := total / 12, total % 12 + 1;
    var last := DayOfMonth(MonthEnd(DateOf(year, month, 1)));
    DateOf(year, month, Min(DayOfMonth(day), last))
  }

  /** `add_months_eom`: a month-end anchor stays on month-end. */
  function AddMonthsEom(day: Date, months: int): Date {
    if day == MonthEnd(day) then MonthEnd(AddMonths(DateOf(Year(day), Month(day), 1), months))
    else AddMonths(day, months)
  }

  /** The last day of a month is the one before the next month starts. */
  lemma MonthEndIs(day: Date)
    ensures MonthEnd(day) == MonthStart(MonthIndex(day) + 1) - 1
    ensures MonthIndex(MonthEnd(day)) == MonthIndex(day)
    ensures DayOfMonth(MonthEnd(day)) == MonthDays(MonthIndex(day))
    ensures day <= MonthEnd(day)
  {
    var m := MonthIndex(day);
    MonthEndDate(day);
    hide MonthEnd, MonthStart, MonthDays, MonthIndex;
    MonthStep(m);
    MonthIndexOf(m, MonthDays(m) - 1);
  }

  lemma MonthEndDate(day: Date)
    ensures MonthEnd(day) == MonthStart(MonthIndex(day) + 1) - 1
  {
    var m := MonthIndex(day);
    hide MonthIndex;
    if m % 12 == 11 {
      MonthStep(m);
      DateOfMonthDay(m, 31);
    } else {
      assert (m + 1) / 12 == m / 12 && (m + 1) % 12 == m % 12 + 1;
    }
  }

  /** What a shift means: the right month, and the same day of it unless it has none. */
  lemma AddMonthsIs(day: Date, months: int)
    ensures var r, n := AddMonths(day, months), MonthIndex(day) + months;
      && MonthIndex(r) == n
      && DayOfMonth(r) == Min(DayOfMonth(day), MonthDays(n))
      && r == MonthStart(n) + DayOfMonth(r) - 1
  {
    var n := MonthIndex(day) + months;
    var d := Min(DayOfMonth(day), MonthDays(n));
    ShiftedDate(day, months);
    hide MonthStart, MonthDays, MonthIndex, AddMonths;
    MonthStep(n);
    MonthIndexOf(n, d - 1);
  }

  lemma ShiftedDate(day: Date, months: int)
    ensures var n := MonthIndex(day) + months;
      AddMonths(day, months) == MonthStart(n) + Min(DayOfMonth(day), MonthDays(n)) - 1
  {
    hide DateOf, MonthIndex, MonthEnd, DayOfMonth;
    var n := MonthIndex(day) + months;
    MonthOpening(n);
    DateOfMonthDay(n, Min(DayOfMonth(day), MonthDays(n)));
  }

  lemma MonthOpening(n: int)
    ensures DateOf(n / 12, n % 12 + 1, 1) == MonthStart(n)
    ensures MonthIndex(MonthStart(n)) == n && DayOfMonth(MonthEnd(MonthStart(n))) == MonthDays(n)
  {
    hide DateOf, MonthIndex, MonthEnd, DayOfMonth;
    MonthStep(n);
    MonthIndexOf(n, 0);
    MonthEndIs(MonthStart(n));
  }

  lemma AddMonthsEomIs(day: Date, months: int)
    ensures var r, n := AddMonthsEom(day, months), MonthIndex(day) + months;
      && MonthIndex(r) == n
      && (day == MonthEnd(day) ==> r == MonthEnd(r))
      && (day != MonthEnd(day) ==> r == AddMonths(day, months))
  {
    hide AddMonths, MonthStart, MonthDays, MonthIndex, MonthEnd;
    AddMonthsIs(day, months);
    if day == MonthEnd(day) {
      var m := MonthIndex(day);
      MonthStep(m);
      MonthIndexOf(m, 0);
      AddMonthsIs(MonthStart(m), months);
      assert MonthStart(m) == DateOf(Year(day), Month(day), 1) by { DateOfMonthDay(m, 1); }
      var shifted := AddMonths(MonthStart(m), months);
      MonthEndIs(shifted);
      MonthEndIs(MonthEnd(shifted));
    }
  }

  /** Later shifts are later dates. */
  lemma AddMonthsEomIncreasing(day: Date, i: int, j: int)
    requires i < j
    ensures AddMonthsEom(day, i) < AddMonthsEom(day, j)
  {
    hide AddMonthsEom, AddMonths, MonthIndex;
    AddMonthsEomIs(day, i);
    AddMonthsEomIs(day, j);
    if AddMonthsEom(day, j) <= AddMonthsEom(day, i) {
      MonthIndexMonotone(AddMonthsEom(day, j), AddMonthsEom(day, i));
    }
  }

  lemma AddMonthsIncreasing(day: Date, i: int, j: int)
    requires i < j
    ensures AddMonths(day, i) < AddMonths(day, j)
  {
    hide AddMonths, MonthIndex;
    AddMonthsIs(day, i);
    AddMonthsIs(day, j);
    if AddMonths(day, j) <= AddMonths(day, i) {
      MonthIndexMonotone(AddMonths(day, j), AddMonths(day, i));
    }
  }
}
