/** Payroll tax deposits, and a week's amount spread over its business days. */
module Deposits {
  import opened Allocation
  import opened Arith
  import opened Calendar
  import opened Gregorian
  import opened Months
  import opened Results
  import opened Seqs

  // ----- Deposits of employment tax, 26 CFR 31.6302-1(c) -----

  datatype Schedule = SEMI_WEEKLY | MONTHLY

  function DueDate(payday: Date, schedule: Schedule): Date {
    if schedule == MONTHLY then AddMonths(DateOf(Year(payday), Month(payday), 15), 1)
    else
      var target := if Weekday(payday) in {WEDNESDAY, THURSDAY, FRIDAY} then WEDNESDAY else FRIDAY;
      var offset := (target - Weekday(payday)) % 7;
      payday + if offset == 0 then 7 else offset
  }

  /** The first such weekday strictly after a day. */
  ghost predicate IsFollowing(weekday: int, day: Date, due: Date) {
    day < due && Weekday(due) == weekday && forall d :: day < d < due ==> Weekday(d) != weekday
  }

  lemma OneFollowing(weekday: int, day: Date, due: Date, other: Date)
    requires IsFollowing(weekday, day, due) && IsFollowing(weekday, day, other)
    ensures due == other
  {
  }

  /** Wednesday to Friday paydays deposit the following Wednesday, the others the following Friday. */
  lemma SemiWeeklyDue(payday: Date)
    ensures IsFollowing(if Weekday(payday) in {WEDNESDAY, THURSDAY, FRIDAY} then WEDNESDAY else FRIDAY, payday,
                        DueDate(payday, SEMI_WEEKLY))
    ensures payday + 3 <= DueDate(payday, SEMI_WEEKLY) <= payday + 7
  {
  }

  /** That rule names one day, and it is the one computed. */
  lemma SemiWeeklyDueIff(payday: Date, day: Date)
    ensures DueDate(payday, SEMI_WEEKLY) == day <==>
      IsFollowing(if Weekday(payday) in {WEDNESDAY, THURSDAY, FRIDAY} then WEDNESDAY else FRIDAY, payday, day)
  {
    hide DueDate, IsFollowing;
    var weekday := if Weekday(payday) in {WEDNESDAY, THURSDAY, FRIDAY} then WEDNESDAY else FRIDAY;
    SemiWeeklyDue(payday);
    if IsFollowing(weekday, payday, day) {
      OneFollowing(weekday, payday, DueDate(payday, SEMI_WEEKLY), day);
    }
  }

  /** The 15th of the month after the payday's. */
  lemma MonthlyDue(payday: Date)
    ensures DueDate(payday, MONTHLY) == MonthStart(MonthIndex(payday) + 1) + 14
  {
    hide MonthStart, MonthDays, MonthIndex, AddMonths, DateOf, DayOfMonth, MonthEnd;
    var m := MonthIndex(payday);
    var fifteenth := MonthStart(m) + 14;
    DateOfMonthDay(m, 15);
    MonthStep(m);
    MonthIndexOf(m, 14);
    AddMonthsIs(fifteenth, 1);
    MonthStep(m + 1);
    DayInMonth(fifteenth);
  }

  lemma DayInMonth(day: Date)
    ensures DayOfMonth(day) == day - MonthStart(MonthIndex(day)) + 1
  {
  }

  predicate StartsPeriod(day: Date) {
    Weekday(day) == WEDNESDAY || Weekday(day) == SATURDAY
  }

  lemma NextDayDue(day: Date)
    ensures if StartsPeriod(day + 1) then DueDate(day, SEMI_WEEKLY) < DueDate(day + 1, SEMI_WEEKLY)
            else DueDate(day, SEMI_WEEKLY) == DueDate(day + 1, SEMI_WEEKLY)
  {
    assert Weekday(day + 1) == (Weekday(day) + 1) % 7;
  }

  /** Two paydays share a deposit exactly when no deposit period starts between them: periods start on
      Wednesdays and Saturdays. */
  lemma {:induction false} SamePeriodSameDue(x: Date, y: Date)
    requires x <= y
    ensures DueDate(x, SEMI_WEEKLY) <= DueDate(y, SEMI_WEEKLY)
    ensures DueDate(x, SEMI_WEEKLY) == DueDate(y, SEMI_WEEKLY) <==> forall d :: x < d <= y ==> !StartsPeriod(d)
    decreases y - x
  {
    hide DueDate, StartsPeriod;
    if x < y {
      SamePeriodSameDue(x, y - 1);
      NextDayDue(y - 1);
    }
  }

  lemma {:induction false} MonthStartsRise(m: int, n: int)
    requires m <= n
    ensures MonthStart(m) <= MonthStart(n)
    decreases n - m
  {
    hide MonthStart, MonthDays;
    if m < n {
      MonthStep(n - 1);
      MonthStartsRise(m, n - 1);
    }
  }

  /** Later paydays are never due earlier, on either schedule. */
  lemma DueDateMonotone(x: Date, y: Date, schedule: Schedule)
    requires x <= y
    ensures DueDate(x, schedule) <= DueDate(y, schedule)
  {
    hide MonthStart, MonthIndex, AddMonths, DateOf;
    if schedule == MONTHLY {
      MonthlyDue(x);
      MonthlyDue(y);
      MonthIndexMonotone(x, y);
      MonthStartsRise(MonthIndex(x) + 1, MonthIndex(y) + 1);
    } else {
      SamePeriodSameDue(x, y);
    }
  }

  lemma FollowingMonotone(cal: BusinessCalendar, x: Date, y: Date)
    requires x <= y
    ensures Adjusted(cal, x, FOLLOWING) <= Adjusted(cal, y, FOLLOWING)
    ensures x <= Adjusted(cal, x, FOLLOWING)
  {
    hide Closures.IsBusinessDay, Closures.HasWorkday, Month, NextBusinessDay;
  }

  /** `payroll_tax_deposit_dates`: the due dates, rolled forward, each once. */
  method PayrollTaxDepositDates(payDays: seq<Date>, cal: BusinessCalendar, schedule: Schedule) returns (r: seq<Date>)
    ensures Ascending(r)
    ensures forall d :: d in r <==> exists i :: 0 <= i < |payDays| && Adjusted(cal, DueDate(payDays[i], schedule), FOLLOWING) == d
  {
    hide Adjusted, DueDate, SortedSet;
    var deposits: seq<Date> := [];
    for n := 0 to |payDays|
      invariant |deposits| == n
      invariant forall i :: 0 <= i < n ==> deposits[i] == Adjusted(cal, DueDate(payDays[i], schedule), FOLLOWING)
    {
      var due := DueDate(payDays[n], schedule);
      var adjusted := Adjust(cal, due, FOLLOWING);
      deposits := deposits + [adjusted];
    }
    r := SortedSet(deposits);
    assert forall i :: 0 <= i < |payDays| ==> deposits[i] in r;
  }

  /** A deposit is never made before its due date, and deposits keep the order of the paydays. */
  lemma DepositsKeepOrder(cal: BusinessCalendar, x: Date, y: Date, schedule: Schedule)
    requires x <= y
    ensures x < DueDate(x, schedule) <= Adjusted(cal, DueDate(x, schedule), FOLLOWING)
    ensures Adjusted(cal, DueDate(x, schedule), FOLLOWING) <= Adjusted(cal, DueDate(y, schedule), FOLLOWING)
  {
    hide Adjusted, DueDate;
    DueAfterPayday(x, schedule);
    DueDateMonotone(x, y, schedule);
    FollowingMonotone(cal, DueDate(x, schedule), DueDate(y, schedule));
  }

  lemma DueAfterPayday(payday: Date, schedule: Schedule)
    ensures payday < DueDate(payday, schedule)
  {
    hide DueDate, MonthStart, MonthIndex, MonthDays;
    if schedule == MONTHLY {
      MonthlyDue(payday);
      MonthStep(MonthIndex(payday));
    } else {
      SemiWeeklyDue(payday);
    }
  }

  // ----- A week's amount over its business days -----

  datatype WeekError = NotMonday | NoBusinessDays | NegativeWeight | NoWeight

  /** `business_days_between`, both ends included. */
  method BusinessDaysBetween(cal: Closures, start: Date, end: Date) returns (days: seq<Date>)
    ensures Ascending(days)
    ensures forall d :: d in days <==> start <= d <= end && cal.IsBusinessDay(d)
  {
    hide Closures.IsBusinessDay;
    days := [];
    var cursor := start;
    while cursor <= end
      invariant Ascending(days)
      invariant forall d :: d in days <==> start <= d < cursor && d <= end && cal.IsBusinessDay(d)
      decreases end - cursor
    {
      if cal.IsBusinessDay(cursor) {
        assert forall i :: 0 <= i < |days| ==> days[i] in days;
        days := days + [cursor];
      }
      cursor := cursor + 1;
    }
  }

  /** The weight of a day; weekdays beyond the list get none. */
  function WeightOf(day: Date, weights: seq<int>): int {
    if Weekday(day) < |weights| then weights[Weekday(day)] else 0
  }

  function Ratios(days: seq<Date>, weights: seq<int>): (ratios: seq<int>)
    ensures |ratios| == |days|
  {
    seq(|days|, i requires 0 <= i < |days| => WeightOf(days[i], weights))
  }

  method WeekdayWeights(days: seq<Date>, weights: seq<int>) returns (r: Result<seq<int>, WeekError>)
    ensures r == if exists i :: 0 <= i < |weights| && weights[i] < 0 then Err(NegativeWeight)
                 else if Sum(Ratios(days, weights)) == 0 then Err(NoWeight)
                 else Ok(Ratios(days, weights))
  {
    hide Weekday, Sum;
    if exists i :: 0 <= i < |weights| && weights[i] < 0 {
      return Err(NegativeWeight);
    }
    var ratios := Ratios(days, weights);
    if Sum(ratios) == 0 {
      return Err(NoWeight);
    }
    return Ok(ratios);
  }

  /** `distribute_over_week`: once the weights are accepted the split cannot fail, the parts add up to
      the amount, and they fall on the business days of the week. */
  method DistributeOverWeek(amount: int, monday: Date, cal: Closures, weights: seq<int>)
    returns (r: Result<seq<(Date, int)>, WeekError>)
    ensures r.Ok? ==>
      && Sum(PartsOf(r.value)) == amount
      && Ascending(DaysOf(r.value))
      && (forall d :: d in DaysOf(r.value) <==> monday <= d <= monday + 6 && cal.IsBusinessDay(d))
      && Allocated(amount, Ratios(DaysOf(r.value), weights)) == Ok(PartsOf(r.value))
    ensures r.Ok? ==> forall i :: 0 <= i < |r.value| ==>
      var k := r.value[i].0 - monday;
      && 0 <= k < 7
      && Ratios(DaysOf(r.value), weights)[i] == (if k < |weights| then weights[k] else 0)
      && (k >= |weights| || weights[k] == 0 ==> r.value[i].1 == 0)
    ensures r == Err(NotMonday) <==> Weekday(monday) != MONDAY
    ensures r == Err(NoBusinessDays) <==>
      Weekday(monday) == MONDAY && forall d :: monday <= d <= monday + 6 ==> !cal.IsBusinessDay(d)
  {
    hide Sum, Allocated, Closures.IsBusinessDay, WeightOf;
    if Weekday(monday) != MONDAY {
      return Err(NotMonday);
    }
    var days := BusinessDaysBetween(cal, monday, monday + 6);
    if days == [] {
      return Err(NoBusinessDays);
    }
    assert days[0] in days;
    var weighed := WeekdayWeights(days, weights);
    if weighed.Err? {
      return Err(weighed.error);
    }
    RatiosSplit(amount, days, weights);
    forall i | 0 <= i < |days|
      ensures 0 <= days[i] - monday < 7
      ensures Ratios(days, weights)[i] == if days[i] - monday < |weights| then weights[days[i] - monday] else 0
    {
      assert days[i] in days;
      WeightCountsFromMonday(monday, days[i], weights);
    }
    var split := Allocate(amount, weighed.value);
    var parts := split.value;
    r := Ok(seq(|days|, i requires 0 <= i < |days| => (days[i], parts[i])));
    assert DaysOf(r.value) == days && PartsOf(r.value) == parts;
  }

  function DaysOf(parts: seq<(Date, int)>): (days: seq<Date>)
    ensures |days| == |parts|
  {
    seq(|parts|, i requires 0 <= i < |parts| => parts[i].0)
  }

  function PartsOf(parts: seq<(Date, int)>): (amounts: seq<int>)
    ensures |amounts| == |parts|
  {
    seq(|parts|, i requires 0 <= i < |parts| => parts[i].1)
  }

  lemma WeightCountsFromMonday(monday: Monday, day: Date, weights: seq<int>)
    requires monday <= day < monday + 7
    ensures WeightOf(day, weights) == if day - monday < |weights| then weights[day - monday] else 0
  {
    assert Weekday(monday) == MONDAY;
    SevensAndRest((monday + 6) / 7, day - monday);
  }

  lemma RatiosSplit(amount: int, days: seq<Date>, weights: seq<int>)
    requires days != [] && Sum(Ratios(days, weights)) != 0
    requires forall i :: 0 <= i < |weights| ==> weights[i] >= 0
    ensures var ratios := Ratios(days, weights);
      && Allocated(amount, ratios).Ok?
      && |Allocated(amount, ratios).value| == |days|
      && Sum(Allocated(amount, ratios).value) == amount
      && forall i :: 0 <= i < |days| && ratios[i] == 0 ==> Allocated(amount, ratios).value[i] == 0
  {
    hide Weekday, Sum, Parts;
    var ratios := Ratios(days, weights);
    var sign := if amount >= 0 then 1 else -1;
    SumNonNegative(ratios);
    PartsAreHamilton(Abs(amount), ratios);
    ScaledSum(sign, Parts(Abs(amount), ratios));
    forall i | 0 <= i < |days| && ratios[i] == 0
      ensures Parts(Abs(amount), ratios)[i] == 0
    {
      ZeroRatioGetsZero(Abs(amount), ratios, i);
    }
  }
}
