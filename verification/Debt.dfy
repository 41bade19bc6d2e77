/** Facility capacity, interest and straight-line amortisation. */
module Debt {
  import opened Allocation
  import opened Arith
  import opened Calendar
  import opened Gregorian
  import opened Months
  import opened Results
  import opened Rounding
  import opened Schedules
  import opened Seqs

  const BPS := 10_000
  const DAY_COUNT_BASIS := 360
  const YEAR_BPS := 3_600_000

  datatype DebtError = NegativeDays | NegativeRate | NoPeriods | NegativePrincipal

  /** Actual/360 interest. */
  function Interest(principal: int, rateBps: int, days: int): int {
    Rounded(principal * rateBps * days, YEAR_BPS, HALF_EVEN)
  }

  method AccruedInterest(principal: int, rateBps: int, days: int) returns (r: Result<int, DebtError>)
    ensures r == if days < 0 then Err(NegativeDays) else if rateBps < 0 then Err(NegativeRate)
                 else Ok(Interest(principal, rateBps, days))
  {
    if days < 0 {
      return Err(NegativeDays);
    }
    if rateBps < 0 {
      return Err(NegativeRate);
    }
    var minor := DivRound(principal * rateBps * days, BPS * DAY_COUNT_BASIS, HALF_EVEN);
    return Ok(minor.value);
  }

  /** The interest is the exact actual/360 amount to within half a minor unit. */
  lemma InterestWithinHalf(principal: int, rateBps: int, days: int)
    ensures 2 * Abs(Interest(principal, rateBps, days) * YEAR_BPS - principal * rateBps * days) <= YEAR_BPS
  {
    RoundedIsRounding(principal * rateBps * days, YEAR_BPS, HALF_EVEN);
  }

  // ----- Amortisation -----

  datatype Row = Row(dueDate: Date, principal: int, interest: int, closingBalance: int)

  /** The date of instalment i: so many months after the first payment, rolled. */
  ghost function DueDate(cal: BusinessCalendar, firstPayment: Date, months: int, i: nat): Date
  {
    Adjusted(cal, AddMonths(firstPayment, months * i), MODIFIED_FOLLOWING)
  }

  ghost function AccrualDays(cal: BusinessCalendar, firstPayment: Date, months: int, i: nat): int
  {
    if i == 0 then 0 else DueDate(cal, firstPayment, months, i) - DueDate(cal, firstPayment, months, i - 1)
  }

  /** What is owed after `i` of the instalments. */
  function Outstanding(principal: int, instalments: seq<int>, i: nat): int
    requires i <= |instalments|
  {
    principal - Sum(instalments[..i])
  }

  ghost function ScheduledRow(cal: BusinessCalendar, principal: int, instalments: seq<int>, firstPayment: Date,
                              months: int, rateBps: int, i: nat): Row
    requires i < |instalments|
  {
    Row(DueDate(cal, firstPayment, months, i),
        instalments[i],
        Interest(Outstanding(principal, instalments, i), rateBps, AccrualDays(cal, firstPayment, months, i)),
        Outstanding(principal, instalments, i + 1))
  }

  /** Some due date lies before the one it follows. */
  ghost predicate DatesRunBack(cal: BusinessCalendar, firstPayment: Date, months: int, periods: nat)
  {
    exists i :: 0 < i < periods && DueDate(cal, firstPayment, months, i) < DueDate(cal, firstPayment, months, i - 1)
  }

  /** The roll of a day in month `n`: the day of the month of the first payment, or the last one that
      month has. */
  ghost predicate FallsDue(cal: BusinessCalendar, firstPayment: Date, n: int, due: Date)
  {
    var day := MonthStart(n) + Min(DayOfMonth(firstPayment), MonthDays(n)) - 1;
    MonthIndex(day) == n && due == Adjusted(cal, day, MODIFIED_FOLLOWING)
  }

  lemma DueDateFalls(cal: BusinessCalendar, firstPayment: Date, months: int, i: nat)
    ensures FallsDue(cal, firstPayment, MonthIndex(firstPayment) + months * i, DueDate(cal, firstPayment, months, i))
  {
    hide AddMonths, MonthIndex, MonthStart, MonthDays, Adjusted;
    AddMonthsIs(firstPayment, months * i);
  }

  ghost predicate IsSchedule(cal: BusinessCalendar, principal: nat, periods: nat, firstPayment: Date, months: int,
                             rateBps: int, rows: seq<Row>)
    requires periods > 0
  {
    EvenSplit(principal, periods);
    var instalments := Parts(principal, Ones(periods));
    && |rows| == periods
    && forall i :: 0 <= i < periods ==>
      rows[i] == ScheduledRow(cal, principal, instalments, firstPayment, months, rateBps, i)
  }

  /** `amortisation_schedule`. It raises for negative days exactly when some due date lies before
      the one it follows. */
  method AmortisationSchedule(principal: int, firstPayment: Date, periods: int, rateBps: int, cal: BusinessCalendar,
                              frequency: ServiceFrequency) returns (r: Result<seq<Row>, DebtError>)
    ensures periods < 1 ==> r == Err(NoPeriods)
    ensures periods >= 1 && principal < 0 ==> r == Err(NegativePrincipal)
    ensures periods >= 1 && principal >= 0 && rateBps < 0 ==> r == Err(NegativeRate)
    ensures periods >= 1 && principal >= 0 && rateBps >= 0 ==>
      if DatesRunBack(cal, firstPayment, ServiceMonths(frequency), periods) then r == Err(NegativeDays)
      else r.Ok? && IsSchedule(cal, principal, periods, firstPayment, ServiceMonths(frequency), rateBps, r.value)
  {
    hide Adjusted, AddMonths, Parts, Interest, Outstanding, Allocated, Ones;
    if periods < 1 {
      return Err(NoPeriods);
    }
    if principal < 0 {
      return Err(NegativePrincipal);
    }
    EvenSplit(principal, periods);
    EvenSplitAccepted(principal, periods);
    var split := Allocate(principal, Ones(periods));
    var instalments := split.value;
    var months := ServiceMonths(frequency);
    var rows: seq<Row> := [];
    OutstandingFalls(principal, instalments, 0);
    var balance, previous := principal, firstPayment;
    for index := 0 to periods
      invariant |rows| == index && balance == Outstanding(principal, instalments, index)
      invariant index > 0 ==> previous == DueDate(cal, firstPayment, months, index - 1) && rateBps >= 0
      invariant forall i :: 0 < i < index ==>
        DueDate(cal, firstPayment, months, i - 1) <= DueDate(cal, firstPayment, months, i)
      invariant forall i :: 0 <= i < index ==>
        rows[i] == ScheduledRow(cal, principal, instalments, firstPayment, months, rateBps, i)
    {
      var due := Adjust(cal, AddMonths(firstPayment, months * index), MODIFIED_FOLLOWING);
      var days := if index > 0 then due - previous else 0;
      assert days == AccrualDays(cal, firstPayment, months, index);
      var interest := AccruedInterest(balance, rateBps, days);
      if interest.Err? {
        return Err(interest.error);
      }
      OutstandingFalls(principal, instalments, index);
      balance := balance - instalments[index];
      rows := rows + [Row(due, instalments[index], interest.value, balance)];
      previous := due;
    }
    return Ok(rows);
  }

  lemma EvenSplitAccepted(principal: nat, periods: nat)
    requires periods > 0
    ensures Weights(Ones(periods)) && Allocated(principal, Ones(periods)) == Ok(Parts(principal, Ones(periods)))
  {
    EvenSplit(principal, periods);
    var parts := Parts(principal, Ones(periods));
    assert Scaled(1, parts) == parts;
  }

  /** Rolled dates keep the order of the months, so on a calendar where no day skips a year (and so
      on any that opens every month) no period has negative days. */
  lemma DatesRunForward(cal: BusinessCalendar, firstPayment: Date, frequency: ServiceFrequency, periods: nat)
    requires NeverSkipsYear(cal)
    ensures !DatesRunBack(cal, firstPayment, ServiceMonths(frequency), periods)
  {
    hide Adjusted, AddMonths;
    var months := ServiceMonths(frequency);
    forall i | 0 < i < periods
      ensures DueDate(cal, firstPayment, months, i - 1) <= DueDate(cal, firstPayment, months, i)
    {
      MulStrict(i - 1, i, months);
      AddMonthsIncreasing(firstPayment, months * (i - 1), months * i);
      ModifiedFollowingMonotone(cal, AddMonths(firstPayment, months * (i - 1)), AddMonths(firstPayment, months * i));
    }
  }

  /** The instalments are as even as whole units allow, larger first; every row carries the balance
      forward and the last one closes at zero. A row is due so many months after the first payment, on
      that day of the month or the last one there is, rolled. Its interest is that of the actual days
      since the row before it over a year of 360, on what was then owed, to within half a unit; the
      first row has none. */
  lemma AmortisationPromise(cal: BusinessCalendar, principal: nat, periods: nat, firstPayment: Date, months: int,
                            rateBps: int, rows: seq<Row>)
    requires periods > 0
    requires IsSchedule(cal, principal, periods, firstPayment, months, rateBps, rows)
    ensures rows[periods - 1].closingBalance == 0
    ensures forall i :: 0 <= i < periods ==> rows[i].closingBalance == Opening(principal, rows, i) - rows[i].principal
    ensures forall i, j :: 0 <= i <= j < periods ==>
      rows[j].principal <= rows[i].principal <= rows[j].principal + 1
    ensures forall i :: 0 <= i < periods ==> 0 <= rows[i].closingBalance <= principal
    ensures forall i :: 0 <= i < periods ==>
      FallsDue(cal, firstPayment, MonthIndex(firstPayment) + months * i, rows[i].dueDate)
    ensures rows[0].interest == 0
    ensures forall i :: 0 < i < periods ==>
      2 * Abs(rows[i].interest * 3_600_000
              - Opening(principal, rows, i) * rateBps * (rows[i].dueDate - rows[i - 1].dueDate)) <= 3_600_000
  {
    hide Parts, Interest, Adjusted, AddMonths, MonthIndex, FallsDue;
    EvenSplit(principal, periods);
    var parts := Parts(principal, Ones(periods));
    assert parts[..periods] == parts;
    NoDaysNoInterest(principal, rateBps);
    OutstandingFalls(principal, parts, 0);
    forall i | 0 <= i < periods
      ensures rows[i].closingBalance == Opening(principal, rows, i) - rows[i].principal
      ensures 0 <= rows[i].closingBalance <= principal
      ensures FallsDue(cal, firstPayment, MonthIndex(firstPayment) + months * i, rows[i].dueDate)
      ensures i > 0 ==>
        2 * Abs(rows[i].interest * 3_600_000
                - Opening(principal, rows, i) * rateBps * (rows[i].dueDate - rows[i - 1].dueDate)) <= 3_600_000
    {
      OutstandingFalls(principal, parts, i);
      DivisionNonNegative(principal, periods);
      OutstandingBounded(principal, parts, i + 1);
      assert Opening(principal, rows, i) == Outstanding(principal, parts, i);
      DueDateFalls(cal, firstPayment, months, i);
      if i > 0 {
        InterestWithinHalf(Outstanding(principal, parts, i), rateBps, rows[i].dueDate - rows[i - 1].dueDate);
      }
    }
  }

  lemma NoDaysNoInterest(principal: int, rateBps: int)
    ensures Interest(principal, rateBps, 0) == 0
  {
    InterestWithinHalf(principal, rateBps, 0);
  }

  /** Four quarterly instalments of 1,000,000.00 at 6 %, the first on 15 January 2027: between April and
      July lie 91 days, and they cost 30,333.33 on the 2,000,000.00 that are left. */
  lemma NinetyOneDays(rows: seq<Row>)
    requires |rows| == 4 && IsSchedule(WeekendsOnly(), 400_000_000, 4, DateOf(2027, 1, 15), 3, 600, rows)
    ensures rows[1].dueDate == DateOf(2027, 4, 15) && rows[2].dueDate == DateOf(2027, 7, 15) == rows[1].dueDate + 91
    ensures rows[2].interest == 3_033_333
  {
    hide IsSchedule, Sum, MonthIndex, DateOf, FallsDue, DayOfMonth, WeekendsOnly;
    var first := DateOf(2027, 1, 15);
    FifteenthsOf2027();
    InstalmentsRepayPrincipal(WeekendsOnly(), 400_000_000, 4, first, 3, 600, rows);
    HalfPaid(rows, first);
    FallsOnFifteenth(rows[1].dueDate, 4);
    FallsOnFifteenth(rows[2].dueDate, 7);
  }

  lemma HalfPaid(rows: seq<Row>, first: Date)
    requires |rows| == 4 && IsSchedule(WeekendsOnly(), 400_000_000, 4, first, 3, 600, rows)
    requires Sum(Instalments(rows)) == 400_000_000
    ensures 2 * Abs(rows[2].interest * 3_600_000 - 200_000_000 * 600 * (rows[2].dueDate - rows[1].dueDate)) <= 3_600_000
    ensures FallsDue(WeekendsOnly(), first, MonthIndex(first) + 3, rows[1].dueDate)
    ensures FallsDue(WeekendsOnly(), first, MonthIndex(first) + 6, rows[2].dueDate)
  {
    hide IsSchedule, Sum, MonthIndex, FallsDue, WeekendsOnly;
    AmortisationPromise(WeekendsOnly(), 400_000_000, 4, first, 3, 600, rows);
    FourRows(rows);
    assert Opening(400_000_000, rows, 2) == 200_000_000;
  }

  lemma FourRows(rows: seq<Row>)
    requires |rows| == 4 && Sum(Instalments(rows)) == 400_000_000
    requires forall i, j :: 0 <= i <= j < 4 ==> rows[j].principal <= rows[i].principal <= rows[j].principal + 1
    ensures forall i :: 0 <= i < 4 ==> rows[i].principal == 100_000_000
  {
    var amounts := Instalments(rows);
    SumOfFour(amounts[0], amounts[1], amounts[2], amounts[3]);
    assert amounts == [amounts[0], amounts[1], amounts[2], amounts[3]];
    assert rows[3].principal <= rows[2].principal <= rows[1].principal <= rows[0].principal <= rows[3].principal + 1;
  }

  lemma SumOfFour(a: int, b: int, c: int, d: int)
    ensures Sum([a, b, c, d]) == a + b + c + d
  {
    SumConcat([a, b], [c, d]);
    assert [a, b, c, d] == [a, b] + [c, d];
    SumOfTwo(a, b);
    SumOfTwo(c, d);
  }

  lemma SumOfTwo(a: int, b: int)
    ensures Sum([a, b]) == a + b
  {
    assert [a, b][..1] == [a] && [a][..0] == [];
    assert Sum([a]) == a;
  }

  lemma FifteenthsOf2027()
    ensures DateOf(2027, 1, 15) == 739996 && DateOf(2027, 4, 15) == 740086 && DateOf(2027, 7, 15) == 740177
    ensures MonthIndex(DateOf(2027, 1, 15)) == 24324 && DayOfMonth(DateOf(2027, 1, 15)) == 15
  {
    hide DaysBeforeYear, DaysBeforeMonth, MonthIndex, DayOfMonth;
    YearTable(2027);
    Before2027();
    FieldsOfDate(2027, 1, 15);
  }

  /** A Thursday. */
  lemma FallsOnFifteenth(due: Date, month: int)
    requires month == 4 || month == 7
    requires FallsDue(WeekendsOnly(), DateOf(2027, 1, 15), 24323 + month, due)
    ensures due == DateOf(2027, month, 15)
  {
    hide MonthIndex, DateOf, DayOfMonth;
    FifteenthsOf2027();
    MonthStep(24323 + month);
    DateOfMonthDay(24323 + month, 15);
    assert (24323 + month) / 12 == 2027 && (24323 + month) % 12 + 1 == month;
  }

  function Instalments(rows: seq<Row>): (amounts: seq<int>)
    ensures |amounts| == |rows|
  {
    seq(|rows|, i requires 0 <= i < |rows| => rows[i].principal)
  }

  /** The instalments repay the principal, to the last unit. */
  lemma InstalmentsRepayPrincipal(cal: BusinessCalendar, principal: nat, periods: nat, firstPayment: Date, months: int,
                                  rateBps: int, rows: seq<Row>)
    requires periods > 0
    requires IsSchedule(cal, principal, periods, firstPayment, months, rateBps, rows)
    ensures Sum(Instalments(rows)) == principal
  {
    hide Parts, Interest, Adjusted, AddMonths, Sum;
    EvenSplit(principal, periods);
    assert Instalments(rows) == Parts(principal, Ones(periods));
  }

  /** The balance a row starts from. */
  function Opening(principal: int, rows: seq<Row>, i: nat): int
    requires i < |rows|
  {
    if i == 0 then principal else rows[i - 1].closingBalance
  }

  lemma OutstandingFalls(principal: int, parts: seq<int>, i: nat)
    requires i < |parts|
    ensures Outstanding(principal, parts, i + 1) == Outstanding(principal, parts, i) - parts[i]
    ensures Outstanding(principal, parts, 0) == principal
  {
    assert parts[..i + 1] == parts[..i] + [parts[i]];
    assert parts[..0] == [];
  }

  lemma OutstandingBounded(principal: int, parts: seq<int>, i: nat)
    requires i <= |parts| && Sum(parts) == principal && forall k :: 0 <= k < |parts| ==> parts[k] >= 0
    ensures 0 <= Outstanding(principal, parts, i) <= principal
  {
    assert parts == parts[..i] + parts[i..];
    SumConcat(parts[..i], parts[i..]);
    SumNonNegative(parts[..i]);
    SumNonNegative(parts[i..]);
  }

  lemma DivisionNonNegative(n: nat, d: nat)
    requires d > 0
    ensures n / d >= 0
  {
  }
}
