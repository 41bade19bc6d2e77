/** Business days: a weekend rule plus a finite set of holidays, and how a date is rolled onto one. */
module Calendar {
  import opened Arith
  import opened Gregorian
  import opened Results

  datatype Convention = NONE | FOLLOWING | PRECEDING | MODIFIED_FOLLOWING

  datatype CadenceError = NegativeCount | BadYearRange | BadWeekday | NotAMonday

  datatype Closures = Closures(holidays: set<Date>, weekend: set<int>) {
    predicate IsBusinessDay(day: Date) {
      Weekday(day) !in weekend && day !in holidays
    }

    /** Some weekday is not part of the weekend; otherwise no day is ever a business day. */
    ghost predicate HasWorkday() {
      exists w :: 0 <= w < 7 && w !in weekend
    }
  }

  /** The closures that leave business days; on others the loops below would not end. */
  type BusinessCalendar = cal: Closures | cal.HasWorkday() witness WeekendsOnly()

  function WeekendsOnly(): (cal: Closures)
    ensures cal.HasWorkday()
  {
    var cal := Closures({}, {SATURDAY, SUNDAY});
    assert MONDAY !in cal.weekend;
    cal
  }

  // ----- Finitely many holidays leave a business day on either side of every day -----

  lemma {:induction false} Beyond(days: set<Date>, day: Date) returns (lo: Date, hi: Date)
    ensures lo <= day <= hi && forall d :: d in days ==> lo <= d <= hi
    decreases days
  {
    lo, hi := day, day;
    if d :| d in days {
      lo, hi := Beyond(days - {d}, day);
      lo, hi := Min(lo, d), Max(hi, d);
      assert forall x :: x in days ==> x == d || x in days - {d};
    }
  }

  lemma OpenOnBothSides(cal: BusinessCalendar, day: Date) returns (before: Date, after: Date)
    ensures before < day < after && cal.IsBusinessDay(before) && cal.IsBusinessDay(after)
  {
    hide Weekday;
    var lo, hi := Beyond(cal.holidays, day);
    assert cal.HasWorkday();
    var w :| 0 <= w < 7 && w !in cal.weekend;
    after := hi + 1 + (w - Weekday(hi + 1)) % 7;
    before := lo - 1 - (Weekday(lo - 1) - w) % 7;
    WeekdayReached(hi + 1, w);
    WeekdayReached(lo - 1, w);
  }

  lemma WeekdayReached(day: Date, w: int)
    requires 0 <= w < 7
    ensures Weekday(day + (w - Weekday(day)) % 7) == w
    ensures Weekday(day - (Weekday(day) - w) % 7) == w
  {
    var x := Weekday(day);
    SevensAndRest((day + 6) / 7 - (w - x) / 7, w);
    SevensAndRest((day + 6) / 7 + (x - w) / 7, w);
  }

  lemma SevensAndRest(t: int, w: int)
    requires 0 <= w < 7
    ensures (7 * t + w) % 7 == w
  {
  }

  ghost function OpenAfter(cal: BusinessCalendar, day: Date): (r: Date)
    ensures day < r && cal.IsBusinessDay(r)
  {
    assert exists r :: day < r && cal.IsBusinessDay(r) by {
      var before, after := OpenOnBothSides(cal, day);
    }
    var r :| day < r && cal.IsBusinessDay(r);
    r
  }

  ghost function OpenBefore(cal: BusinessCalendar, day: Date): (r: Date)
    ensures r < day && cal.IsBusinessDay(r)
  {
    assert exists r :: r < day && cal.IsBusinessDay(r) by {
      var before, after := OpenOnBothSides(cal, day);
    }
    var r :| r < day && cal.IsBusinessDay(r);
    r
  }

  ghost function FirstUpTo(cal: BusinessCalendar, day: Date, limit: Date): (r: Date)
    requires day <= limit && cal.IsBusinessDay(limit)
    ensures day <= r <= limit && cal.IsBusinessDay(r)
    ensures forall x :: day <= x < r ==> !cal.IsBusinessDay(x)
    decreases limit - day
  {
    if cal.IsBusinessDay(day) then day else FirstUpTo(cal, day + 1, limit)
  }

  ghost function LastDownTo(cal: BusinessCalendar, day: Date, limit: Date): (r: Date)
    requires limit <= day && cal.IsBusinessDay(limit)
    ensures limit <= r <= day && cal.IsBusinessDay(r)
    ensures forall x :: r < x <= day ==> !cal.IsBusinessDay(x)
    decreases day - limit
  {
    if cal.IsBusinessDay(day) then day else LastDownTo(cal, day - 1, limit)
  }

  /** The least business day strictly after `day`. */
  ghost function NextBusinessDay(cal: BusinessCalendar, day: Date): (r: Date)
    ensures day < r && cal.IsBusinessDay(r)
    ensures forall x :: day < x < r ==> !cal.IsBusinessDay(x)
  {
    FirstUpTo(cal, day + 1, OpenAfter(cal, day))
  }

  /** The greatest business day strictly before `day`. */
  ghost function PreviousBusinessDay(cal: BusinessCalendar, day: Date): (r: Date)
    ensures r < day && cal.IsBusinessDay(r)
    ensures forall x :: r < x < day ==> !cal.IsBusinessDay(x)
  {
    LastDownTo(cal, day - 1, OpenBefore(cal, day))
  }

  method StepForward(cal: BusinessCalendar, day: Date) returns (cursor: Date)
    ensures cursor == NextBusinessDay(cal, day)
  {
    cursor := day + 1;
    ghost var stop := NextBusinessDay(cal, day);
    while !cal.IsBusinessDay(cursor)
      invariant day < cursor <= stop
      decreases stop - cursor
    {
      cursor := cursor + 1;
    }
  }

  method StepBackward(cal: BusinessCalendar, day: Date) returns (cursor: Date)
    ensures cursor == PreviousBusinessDay(cal, day)
  {
    cursor := day - 1;
    ghost var stop := PreviousBusinessDay(cal, day);
    while !cal.IsBusinessDay(cursor)
      invariant stop <= cursor < day
      decreases cursor - stop
    {
      cursor := cursor - 1;
    }
  }

  // ----- Rolling a date -----

  /** `BusinessCalendar.adjust`. Only the month numbers are compared, not the years. */
  ghost function Adjusted(cal: BusinessCalendar, day: Date, convention: Convention): (r: Date)
    ensures convention != NONE ==> cal.IsBusinessDay(r)
  {
    if convention == NONE || cal.IsBusinessDay(day) then day
    else if convention == FOLLOWING then NextBusinessDay(cal, day)
    else if convention == PRECEDING then PreviousBusinessDay(cal, day)
    else if Month(NextBusinessDay(cal, day)) == Month(day) then NextBusinessDay(cal, day)
    else PreviousBusinessDay(cal, day)
  }

  /** FOLLOWING is the first business day from a day on, PRECEDING the last one up to it; a business day
      rolls onto itself, and NONE rolls nothing. */
  lemma RollsToNearest(cal: BusinessCalendar, day: Date)
    ensures Adjusted(cal, day, NONE) == day
    ensures forall convention :: cal.IsBusinessDay(day) ==> Adjusted(cal, day, convention) == day
    ensures var r := Adjusted(cal, day, FOLLOWING);
      day <= r && cal.IsBusinessDay(r) && forall x :: day <= x < r ==> !cal.IsBusinessDay(x)
    ensures var r := Adjusted(cal, day, PRECEDING);
      r <= day && cal.IsBusinessDay(r) && forall x :: r < x <= day ==> !cal.IsBusinessDay(x)
  {
    hide Closures.IsBusinessDay;
  }

  method Adjust(cal: BusinessCalendar, day: Date, convention: Convention) returns (r: Date)
    ensures r == Adjusted(cal, day, convention)
  {
    if convention == NONE || cal.IsBusinessDay(day) {
      return day;
    }
    if convention == FOLLOWING {
      r := StepForward(cal, day);
      return;
    }
    if convention == PRECEDING {
      r := StepBackward(cal, day);
      return;
    }
    var forward := StepForward(cal, day);
    if Month(forward) == Month(day) {
      return forward;
    }
    r := StepBackward(cal, day);
  }

  ghost predicate NoClosedRun(cal: BusinessCalendar, n: nat) {
    forall day: Date :: OpenWithin(cal, day, n)
  }

  ghost predicate OpenWithin(cal: BusinessCalendar, day: Date, n: nat) {
    exists d :: day <= d < day + n && cal.IsBusinessDay(d)
  }

  ghost predicate MonthOpens(cal: BusinessCalendar, m: int) {
    exists d :: MonthIndex(d) == m && cal.IsBusinessDay(d)
  }

  ghost predicate EveryMonthOpens(cal: BusinessCalendar) {
    forall m :: MonthOpens(cal, m)
  }

  /** No month is shorter than 28 days, so no run of 28 closed days means no closed month. */
  lemma ShortRunsOpenMonths(cal: BusinessCalendar)
    requires NoClosedRun(cal, 28)
    ensures EveryMonthOpens(cal)
  {
    forall m
      ensures MonthOpens(cal, m)
    {
      assert OpenWithin(cal, MonthStart(m), 28);
      var d :| MonthStart(m) <= d < MonthStart(m) + 28 && cal.IsBusinessDay(d);
      MonthStep(m);
      MonthIndexOf(m, d - MonthStart(m));
    }
  }

  /** A day closed to the end of its month has an open day before it in the month. */
  lemma RollsBackInMonth(cal: BusinessCalendar, day: Date)
    requires EveryMonthOpens(cal) && !cal.IsBusinessDay(day)
    requires MonthIndex(NextBusinessDay(cal, day)) != MonthIndex(day)
    ensures MonthIndex(PreviousBusinessDay(cal, day)) == MonthIndex(day)
  {
    hide MonthIndex, MonthStart, MonthDays, NextBusinessDay, PreviousBusinessDay;
    var m, next, prev := MonthIndex(day), NextBusinessDay(cal, day), PreviousBusinessDay(cal, day);
    assert MonthOpens(cal, m);
    var d :| MonthIndex(d) == m && cal.IsBusinessDay(d);
    if d > day {
      assert next <= d;
      MonthIndexMonotone(day, next);
      MonthIndexMonotone(next, d);
    }
    assert d <= prev;
    MonthIndexMonotone(d, prev);
    MonthIndexMonotone(prev, day);
  }

  /** A next business day in a month of the same number is in the same month. */
  lemma NextMonthNumber(cal: BusinessCalendar, day: Date)
    requires EveryMonthOpens(cal)
    ensures Month(NextBusinessDay(cal, day)) == Month(day)
       <==> MonthIndex(NextBusinessDay(cal, day)) == MonthIndex(day)
  {
    hide MonthIndex, MonthStart, MonthDays, NextBusinessDay;
    var m, next := MonthIndex(day), NextBusinessDay(cal, day);
    assert MonthOpens(cal, m + 1);
    var d :| MonthIndex(d) == m + 1 && cal.IsBusinessDay(d);
    if d <= day {
      MonthIndexMonotone(d, day);
    }
    MonthIndexMonotone(day, next);
    MonthIndexMonotone(next, d);
    assert m <= MonthIndex(next) <= m + 1;
  }

  /** MODIFIED_FOLLOWING, said with months instead of month numbers. */
  lemma ModifiedFollowing(cal: BusinessCalendar, day: Date)
    requires EveryMonthOpens(cal)
    ensures var r := Adjusted(cal, day, MODIFIED_FOLLOWING);
      && MonthIndex(r) == MonthIndex(day)
      && (forall x :: day <= x < r ==> !cal.IsBusinessDay(x))
      && (r < day ==> forall x :: r < x && MonthIndex(x) == MonthIndex(day) ==> !cal.IsBusinessDay(x))
  {
    hide MonthIndex, MonthStart, MonthDays, NextBusinessDay, PreviousBusinessDay, Month;
    var m := MonthIndex(day);
    if !cal.IsBusinessDay(day) {
      NextMonthNumber(cal, day);
      var next, prev := NextBusinessDay(cal, day), PreviousBusinessDay(cal, day);
      if MonthIndex(next) != m {
        RollsBackInMonth(cal, day);
        MonthIndexMonotone(day, next);
        forall x | prev < x && MonthIndex(x) == m
          ensures !cal.IsBusinessDay(x)
        {
          if next <= x {
            MonthIndexMonotone(next, x);
          }
        }
      }
    }
  }

  /** "Never into the next month" holds exactly on calendars with an open day in every month. */
  lemma StaysInMonthIff(cal: BusinessCalendar)
    ensures EveryMonthOpens(cal)
       <==> forall day :: MonthIndex(Adjusted(cal, day, MODIFIED_FOLLOWING)) == MonthIndex(day)
  {
    if EveryMonthOpens(cal) {
      forall day
        ensures MonthIndex(Adjusted(cal, day, MODIFIED_FOLLOWING)) == MonthIndex(day)
      {
        ModifiedFollowing(cal, day);
      }
    } else if forall day :: MonthIndex(Adjusted(cal, day, MODIFIED_FOLLOWING)) == MonthIndex(day) {
      forall m
        ensures MonthOpens(cal, m)
      {
        MonthStep(m);
        MonthIndexOf(m, 0);
        assert MonthIndex(Adjusted(cal, MonthStart(m), MODIFIED_FOLLOWING)) == m;
      }
    }
  }

  /** A closed day whose next business day lies in another month of the same number: the comparison
      of month numbers rolls it ahead by a year or more. */
  ghost predicate SkipsYear(cal: BusinessCalendar, day: Date)
  {
    && !cal.IsBusinessDay(day)
    && Month(NextBusinessDay(cal, day)) == Month(day)
    && MonthIndex(NextBusinessDay(cal, day)) != MonthIndex(day)
  }

  ghost predicate NeverSkipsYear(cal: BusinessCalendar) {
    forall day :: !SkipsYear(cal, day)
  }

  lemma OpenMonthsNeverSkip(cal: BusinessCalendar)
    requires EveryMonthOpens(cal)
    ensures NeverSkipsYear(cal)
  {
    hide MonthIndex, Month, NextBusinessDay;
    forall day
      ensures !SkipsYear(cal, day)
    {
      NextMonthNumber(cal, day);
    }
  }

  /** Rolling keeps the order of dates, as long as no day skips a year. */
  lemma ModifiedFollowingMonotone(cal: BusinessCalendar, x: Date, y: Date)
    requires NeverSkipsYear(cal) && x <= y
    ensures Adjusted(cal, x, MODIFIED_FOLLOWING) <= Adjusted(cal, y, MODIFIED_FOLLOWING)
  {
    hide MonthIndex, Closures.IsBusinessDay, Closures.HasWorkday;
    var next := NextBusinessDay(cal, x);
    assert !SkipsYear(cal, x);
    if y < next {
      assert y == x || next == NextBusinessDay(cal, y);
      MonthIndexMonotone(x, y);
      MonthIndexMonotone(y, next);
    }
  }

  lemma SkippedYearBreaksOrder(cal: BusinessCalendar, day: Date) returns (later: Date)
    requires SkipsYear(cal, day)
    ensures day <= later && Adjusted(cal, later, MODIFIED_FOLLOWING) < Adjusted(cal, day, MODIFIED_FOLLOWING)
  {
    hide MonthStart, MonthDays, MonthIndex;
    var m, next := MonthIndex(day), NextBusinessDay(cal, day);
    later := MonthStart(m + 1);
    MonthStep(m);
    MonthStep(m + 1);
    MonthIndexOf(m + 1, 0);
    MonthIndexMonotone(day, next);
    LaterMonthStartsLater(day, later);
    LaterMonthStartsLater(later, next);
    assert !cal.IsBusinessDay(later) && NextBusinessDay(cal, later) == next;
  }

  lemma LaterMonthStartsLater(x: Date, y: Date)
    requires MonthIndex(x) < MonthIndex(y)
    ensures x < y
  {
    hide MonthIndex;
    if y <= x {
      MonthIndexMonotone(y, x);
    }
  }

  /** For all dates at once, rolling keeps their order exactly on calendars where no day skips a year. */
  lemma RollingKeepsOrderIff(cal: BusinessCalendar)
    ensures (forall x, y :: x <= y ==> Adjusted(cal, x, MODIFIED_FOLLOWING) <= Adjusted(cal, y, MODIFIED_FOLLOWING))
       <==> NeverSkipsYear(cal)
  {
    hide Adjusted, SkipsYear;
    if NeverSkipsYear(cal) {
      forall x, y | x <= y
        ensures Adjusted(cal, x, MODIFIED_FOLLOWING) <= Adjusted(cal, y, MODIFIED_FOLLOWING)
      {
        ModifiedFollowingMonotone(cal, x, y);
      }
    } else {
      var day :| SkipsYear(cal, day);
      var later := SkippedYearBreaksOrder(cal, day);
    }
  }

  function DaysFrom(start: Date, end: Date): (days: set<Date>)
    ensures forall d :: d in days <==> start <= d <= end
    decreases end - start
  {
    if end < start then {} else DaysFrom(start, end - 1) + {end}
  }

  /** Closed from 31 January to 31 December 2027, a Sunday due date is rolled to 3 January 2028: into
      another month, and past 1 February 2027, which is rolled back to 29 January. */
  lemma ClosedYearRollsAhead(cal: Closures)
    requires cal == Closures(DaysFrom(DateOf(2027, 1, 31), DateOf(2027, 12, 31)), {SATURDAY, SUNDAY})
    ensures cal.HasWorkday()
    ensures var x, y := DateOf(2027, 1, 31), DateOf(2027, 2, 1);
      && Adjusted(cal, x, MODIFIED_FOLLOWING) == DateOf(2028, 1, 3)
      && MonthIndex(DateOf(2028, 1, 3)) != MonthIndex(x)
      && x < y && Adjusted(cal, y, MODIFIED_FOLLOWING) == DateOf(2027, 1, 29)
      && SkipsYear(cal, x)
  {
    hide DateOf, MonthIndex, Month;
    assert 0 !in cal.weekend;
    YearEnd2027();
    var x := 740012;
    assert cal.IsBusinessDay(740349) && cal.IsBusinessDay(740010);
    assert !cal.IsBusinessDay(740347) && !cal.IsBusinessDay(740348) && !cal.IsBusinessDay(740011);
    assert NextBusinessDay(cal, x) == 740349 && NextBusinessDay(cal, x + 1) == 740349;
    assert PreviousBusinessDay(cal, x + 1) == 740010;
  }

  lemma YearEnd2027()
    ensures DateOf(2027, 1, 29) == 740010 && DateOf(2027, 1, 31) == 740012 && DateOf(2027, 2, 1) == 740013
    ensures DateOf(2027, 12, 31) == 740346 && DateOf(2028, 1, 3) == 740349
    ensures Month(740012) == Month(740349) == 1 && Month(740013) == 2 && MonthIndex(740012) != MonthIndex(740349)
  {
    hide DateOf, MonthIndex, Month;
    Ordinals2027();
    FieldsOfDate(2027, 1, 31);
    FieldsOfDate(2027, 2, 1);
    FieldsOfDate(2028, 1, 3);
  }

  lemma Ordinals2027()
    ensures DateOf(2027, 1, 29) == 740010 && DateOf(2027, 1, 31) == 740012 && DateOf(2027, 2, 1) == 740013
    ensures DateOf(2027, 12, 31) == 740346 && DateOf(2028, 1, 3) == 740349
  {
    hide DaysBeforeYear, DaysBeforeMonth;
    YearTable(2027);
    YearTable(2028);
    Before2027();
    YearStep(2027);
  }

  lemma Before2027()
    ensures DaysBeforeYear(2027) == 739981 && !IsLeap(2027)
  {
  }

  /** With an open day in any n + 1 in a row, no date moves by more than n. */
  lemma AdjustMovesAtMost(cal: BusinessCalendar, day: Date, convention: Convention, n: nat)
    requires NoClosedRun(cal, n + 1)
    ensures Abs(Adjusted(cal, day, convention) - day) <= n
  {
    hide Month, Closures.IsBusinessDay;
    assert OpenWithin(cal, day, n + 1) && OpenWithin(cal, day - n, n + 1);
  }

  // ----- Settlement arithmetic -----

  ghost function Stepped(cal: BusinessCalendar, day: Date, count: nat): Date
  {
    if count == 0 then day else NextBusinessDay(cal, Stepped(cal, day, count - 1))
  }

  /** `count` business days on; 0 snaps a closed day forward. */
  ghost function BusinessDaysOn(cal: BusinessCalendar, day: Date, count: nat): Date
  {
    if count == 0 then Adjusted(cal, day, FOLLOWING) else Stepped(cal, day, count)
  }

  /** How many business days lie in (day, until]. */
  ghost function OpenCount(cal: BusinessCalendar, day: Date, until: Date): nat
    decreases until - day
  {
    if until <= day then 0
    else OpenCount(cal, day, until - 1) + if cal.IsBusinessDay(until) then 1 else 0
  }

  lemma {:induction false} OpenCountClosed(cal: BusinessCalendar, day: Date, from: Date, until: Date)
    requires day <= from <= until && forall x :: from < x <= until ==> !cal.IsBusinessDay(x)
    ensures OpenCount(cal, day, until) == OpenCount(cal, day, from)
    decreases until - from
  {
    if from < until {
      OpenCountClosed(cal, day, from, until - 1);
    }
  }

  /** Exactly `count` business days lie between a day and `count` business days on. */
  lemma {:induction false} SteppedCount(cal: BusinessCalendar, day: Date, count: nat)
    ensures day <= Stepped(cal, day, count)
    ensures OpenCount(cal, day, Stepped(cal, day, count)) == count
  {
    if count > 0 {
      SteppedCount(cal, day, count - 1);
      var from, until := Stepped(cal, day, count - 1), Stepped(cal, day, count);
      OpenCountClosed(cal, day, from, until - 1);
    }
  }

  method AddBusinessDays(cal: BusinessCalendar, day: Date, count: int) returns (r: Result<Date, CadenceError>)
    ensures r == if count < 0 then Err(NegativeCount) else Ok(BusinessDaysOn(cal, day, count))
    ensures r.Ok? && count == 0 ==>
      day <= r.value && cal.IsBusinessDay(r.value) && forall x :: day <= x < r.value ==> !cal.IsBusinessDay(x)
    ensures r.Ok? && count > 0 ==>
      day < r.value && cal.IsBusinessDay(r.value) && OpenCount(cal, day, r.value) == count
  {
    if count < 0 {
      return Err(NegativeCount);
    }
    var cursor := day;
    if count == 0 {
      if !cal.IsBusinessDay(cursor) {
        cursor := StepForward(cal, cursor);
      }
      return Ok(cursor);
    }
    for k := 0 to count
      invariant cursor == Stepped(cal, day, k)
    {
      cursor := StepForward(cal, cursor);
    }
    SteppedCount(cal, day, count);
    SteppedCount(cal, day, count - 1);
    return Ok(cursor);
  }

  lemma {:induction false} SteppedAdds(cal: BusinessCalendar, day: Date, m: nat, n: nat)
    ensures Stepped(cal, Stepped(cal, day, m), n) == Stepped(cal, day, m + n)
  {
    hide NextBusinessDay;
    if n > 0 {
      SteppedAdds(cal, day, m, n - 1);
    }
  }

  /** Settling in two stages is settling in one, once the first stage has moved at all. */
  lemma BusinessDaysCompose(cal: BusinessCalendar, day: Date, m: nat, n: nat)
    requires m >= 1
    ensures BusinessDaysOn(cal, BusinessDaysOn(cal, day, m), n) == BusinessDaysOn(cal, day, m + n)
  {
    hide NextBusinessDay;
    SteppedAdds(cal, day, m, n);
  }
}
