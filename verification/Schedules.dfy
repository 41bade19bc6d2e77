/** Recurring dates: debt service, payment runs, biweekly pay days. Each is proved to be the rolled
    image of a whole arithmetic progression, not only of the part the loop happens to visit. */
module Schedules {
  import opened Arith
  import opened Calendar
  import opened Gregorian
  import opened Months
  import opened Results
  import opened Seqs

  datatype ServiceFrequency = MONTHLY | QUARTERLY | SEMIANNUAL | ANNUAL

  function ServiceMonths(f: ServiceFrequency): (step: int)
    ensures step > 0
  {
    match f
    case MONTHLY => 1
    case QUARTERLY => 3
    case SEMIANNUAL => 6
    case ANNUAL => 12
  }

  // ----- Debt service -----

  /** The k-th anniversary of the anchor, before rolling. */
  function Anniversary(anchor: Date, step: int, k: int): Date {
    AddMonthsEom(anchor, k * step)
  }

  lemma AnniversariesIncrease(anchor: Date, step: int, i: int, j: int)
    requires step > 0 && i < j
    ensures Anniversary(anchor, step, i) < Anniversary(anchor, step, j)
    ensures MonthIndex(Anniversary(anchor, step, i)) < MonthIndex(Anniversary(anchor, step, j))
  {
    hide AddMonthsEom, MonthIndex;
    MulStrict(i, j, step);
    AddMonthsEomIncreasing(anchor, i * step, j * step);
    AddMonthsEomIs(anchor, i * step);
    AddMonthsEomIs(anchor, j * step);
  }

  /** Twelve payments a year, or four, two, one: after so many the same month of the next year has come. */
  lemma PaymentsPerYear(anchor: Date, frequency: ServiceFrequency, k: int)
    ensures var n := match frequency case MONTHLY => 12 case QUARTERLY => 4 case SEMIANNUAL => 2 case ANNUAL => 1;
      var step := ServiceMonths(frequency);
      MonthIndex(Anniversary(anchor, step, k + n)) == MonthIndex(Anniversary(anchor, step, k)) + 12
  {
    hide AddMonthsEom, MonthIndex;
    var step := ServiceMonths(frequency);
    var n := match frequency case MONTHLY => 12 case QUARTERLY => 4 case SEMIANNUAL => 2 case ANNUAL => 1;
    AddMonthsEomIs(anchor, k * step);
    AddMonthsEomIs(anchor, (k + n) * step);
    assert (k + n) * step == k * step + n * step;
  }

  /** A schedule anchored on a month-end never leaves month-end. */
  lemma MonthEndAnchorKept(anchor: Date, step: int, k: int)
    requires anchor == MonthEnd(anchor)
    ensures var raw := Anniversary(anchor, step, k);
      raw == MonthEnd(raw) && MonthIndex(raw) == MonthIndex(anchor) + k * step
  {
    AddMonthsEomIs(anchor, k * step);
  }

  ghost predicate IsServiceDate(cal: BusinessCalendar, anchor: Date, step: int, k: int, last: Date, d: Date)
  {
    Anniversary(anchor, step, k) <= last && Adjusted(cal, Anniversary(anchor, step, k), MODIFIED_FOLLOWING) == d
  }

  /** Before the window: an anniversary earlier than one that is not after `start` rolls to a day
      before `start`. */
  lemma EarlierRollsEarlier(cal: BusinessCalendar, anchor: Date, step: int, k: int, p: int, start: Date)
    requires step > 0 && k < p && Anniversary(anchor, step, p) <= start
    requires !SkipsYear(cal, Anniversary(anchor, step, k))
    ensures Adjusted(cal, Anniversary(anchor, step, k), MODIFIED_FOLLOWING) < start
  {
    hide Anniversary, MonthIndex, Closures.HasWorkday, Closures.IsBusinessDay;
    AnniversariesIncrease(anchor, step, k, p);
    var r := Adjusted(cal, Anniversary(anchor, step, k), MODIFIED_FOLLOWING);
    if start <= r {
      MonthIndexMonotone(Anniversary(anchor, step, p), r);
    }
  }

  /** `debt_service_dates`. */
  method DebtServiceDates(anchor: Date, start: Date, end: Date, cal: BusinessCalendar, frequency: ServiceFrequency)
    returns (r: seq<Date>)
    ensures Ascending(r)
    ensures forall d :: d in r <==>
      start <= d <= end && LandsVisited(cal, anchor, ServiceMonths(frequency), start, end, d)
    ensures NeverSkipsYear(cal) ==> forall d :: d in r <==>
      start <= d <= end && exists k :: IsServiceDate(cal, anchor, ServiceMonths(frequency), k, end, d)
    ensures ServesWindow(cal, anchor, ServiceMonths(frequency), start, end, r)
  {
    hide Anniversary, Adjusted, MonthIndex, SortedSet, IsServiceDate, NeverSkipsYear, LandsVisited, ServesWindow;
    if end < start {
      NothingServed(cal, anchor, ServiceMonths(frequency), start, end);
      return [];
    }
    var step := ServiceMonths(frequency);
    var first := LastAnniversaryBefore(anchor, start, step);
    var periods := first;
    var dates: seq<Date> := [];
    while true
      invariant periods >= first
      invariant forall d :: d in dates <==>
        start <= d <= end && exists k :: first <= k < periods && IsServiceDate(cal, anchor, step, k, end, d)
      decreases end - Anniversary(anchor, step, periods)
    {
      var raw := Anniversary(anchor, step, periods);
      if raw > end {
        break;
      }
      var adjusted := Adjust(cal, raw, MODIFIED_FOLLOWING);
      assert IsServiceDate(cal, anchor, step, periods, end, adjusted) by {
        ServiceDateIs(cal, anchor, step, periods, end, adjusted);
      }
      ghost var before := dates;
      if start <= adjusted <= end {
        dates := dates + [adjusted];
      }
      AnniversariesIncrease(anchor, step, periods, periods + 1);
      VisitOne(cal, anchor, step, first, periods, start, end, before, dates, adjusted);
      periods := periods + 1;
    }
    r := SortedSet(dates);
    VisitedProgression(cal, anchor, step, first, periods, start, end, dates);
    if NeverSkipsYear(cal) {
      WholeProgression(cal, anchor, step, first, periods, start, end, dates);
    }
    VisitedServe(cal, anchor, step, start, end, r);
  }

  /** On whatever calendar: an anniversary that lies in the window, both ends included, is served if it
      rolls to a day of the window; and what is served is such a roll of an anniversary up to the end. */
  ghost predicate ServesWindow(cal: BusinessCalendar, anchor: Date, step: int, start: Date, end: Date, dates: seq<Date>)
  {
    && (forall k :: start <= Anniversary(anchor, step, k) <= end ==>
      var d := Adjusted(cal, Anniversary(anchor, step, k), MODIFIED_FOLLOWING);
      start <= d <= end ==> d in dates)
    && (forall d :: d in dates ==> start <= d <= end)
    && (forall d :: d in dates ==>
      exists k :: Anniversary(anchor, step, k) <= end && d == Adjusted(cal, Anniversary(anchor, step, k), MODIFIED_FOLLOWING))
  }

  lemma NothingServed(cal: BusinessCalendar, anchor: Date, step: int, start: Date, end: Date)
    requires end < start
    ensures ServesWindow(cal, anchor, step, start, end, [])
  {
    hide Anniversary, Adjusted;
  }

  lemma VisitedServe(cal: BusinessCalendar, anchor: Date, step: int, start: Date, end: Date, dates: seq<Date>)
    requires step > 0
    requires forall d :: d in dates <==> start <= d <= end && LandsVisited(cal, anchor, step, start, end, d)
    ensures ServesWindow(cal, anchor, step, start, end, dates)
  {
    hide Anniversary, Adjusted, MonthIndex;
    forall k | start <= Anniversary(anchor, step, k) <= end
      ensures IsVisited(anchor, step, k, start)
    {
      AnniversariesIncrease(anchor, step, k, k + 1);
    }
    forall k | start <= Anniversary(anchor, step, k) <= end
        && start <= Adjusted(cal, Anniversary(anchor, step, k), MODIFIED_FOLLOWING) <= end
      ensures Adjusted(cal, Anniversary(anchor, step, k), MODIFIED_FOLLOWING) in dates
    {
      assert IsServiceDate(cal, anchor, step, k, end, Adjusted(cal, Anniversary(anchor, step, k), MODIFIED_FOLLOWING));
    }
  }

  lemma ServiceDateIs(cal: BusinessCalendar, anchor: Date, step: int, k: int, last: Date, d: Date)
    requires Anniversary(anchor, step, k) <= last
    requires d == Adjusted(cal, Anniversary(anchor, step, k), MODIFIED_FOLLOWING)
    ensures IsServiceDate(cal, anchor, step, k, last, d)
  {
  }

  lemma VisitOne(cal: BusinessCalendar, anchor: Date, step: int, first: int, k: int, start: Date, end: Date,
                 before: seq<Date>, after: seq<Date>, adjusted: Date)
    requires first <= k && IsServiceDate(cal, anchor, step, k, end, adjusted)
    requires forall d :: d in before <==>
      start <= d <= end && exists i :: first <= i < k && IsServiceDate(cal, anchor, step, i, end, d)
    requires after == if start <= adjusted <= end then before + [adjusted] else before
    ensures forall d :: d in after <==>
      start <= d <= end && exists i :: first <= i < k + 1 && IsServiceDate(cal, anchor, step, i, end, d)
  {
    hide Anniversary, Adjusted;
    forall d
      ensures d in after <==>
        start <= d <= end && exists i :: first <= i < k + 1 && IsServiceDate(cal, anchor, step, i, end, d)
    {
      assert d in after <==> d in before || (d == adjusted && start <= adjusted <= end);
    }
  }

  /** The anniversaries the loop looks at: those from the anchor on, and the ones before it from the
      last that is not after the window's start. */
  ghost predicate IsVisited(anchor: Date, step: int, k: int, start: Date) {
    k >= 0 || Anniversary(anchor, step, k + 1) > start
  }

  ghost predicate LandsVisited(cal: BusinessCalendar, anchor: Date, step: int, start: Date, end: Date, d: Date)
  {
    exists k :: IsVisited(anchor, step, k, start) && IsServiceDate(cal, anchor, step, k, end, d)
  }

  lemma VisitedIff(anchor: Date, step: int, first: int, k: int, start: Date)
    requires step > 0 && first <= 0 && Anniversary(anchor, step, first) <= start
    requires first < 0 ==> Anniversary(anchor, step, first + 1) > start
    ensures first <= k <==> IsVisited(anchor, step, k, start)
  {
    hide Anniversary, MonthIndex;
    if first < k < 0 {
      AnniversariesIncrease(anchor, step, first + 1, k + 1);
    } else if k + 1 < first {
      AnniversariesIncrease(anchor, step, k + 1, first);
    }
  }

  lemma PastTheEnd(cal: BusinessCalendar, anchor: Date, step: int, periods: int, end: Date, k: int, d: Date)
    requires step > 0 && Anniversary(anchor, step, periods) > end
    requires IsServiceDate(cal, anchor, step, k, end, d)
    ensures k < periods
  {
    hide Anniversary, Adjusted, MonthIndex;
    if periods < k {
      AnniversariesIncrease(anchor, step, periods, k);
    }
  }

  lemma VisitedProgression(cal: BusinessCalendar, anchor: Date, step: int, first: int, periods: int, start: Date,
                           end: Date, dates: seq<Date>)
    requires step > 0 && first <= periods && first <= 0
    requires Anniversary(anchor, step, first) <= start && Anniversary(anchor, step, periods) > end
    requires first < 0 ==> Anniversary(anchor, step, first + 1) > start
    requires forall d :: d in dates <==>
      start <= d <= end && exists k :: first <= k < periods && IsServiceDate(cal, anchor, step, k, end, d)
    ensures forall d :: d in dates <==> start <= d <= end && LandsVisited(cal, anchor, step, start, end, d)
  {
    hide Anniversary, Adjusted, IsServiceDate, IsVisited;
    forall d
      ensures d in dates <==> start <= d <= end && LandsVisited(cal, anchor, step, start, end, d)
    {
      forall k | IsServiceDate(cal, anchor, step, k, end, d)
        ensures first <= k < periods <==> IsVisited(anchor, step, k, start)
      {
        VisitedIff(anchor, step, first, k, start);
        PastTheEnd(cal, anchor, step, periods, end, k, d);
      }
    }
  }

  /** The visited part of the progression decides the whole of it. */
  lemma WholeProgression(cal: BusinessCalendar, anchor: Date, step: int, first: int, periods: int, start: Date,
                         end: Date, dates: seq<Date>)
    requires NeverSkipsYear(cal) && step > 0 && first <= periods
    requires Anniversary(anchor, step, first) <= start && Anniversary(anchor, step, periods) > end
    requires forall d :: d in dates <==>
      start <= d <= end && exists k :: first <= k < periods && IsServiceDate(cal, anchor, step, k, end, d)
    ensures forall d :: d in dates <==>
      start <= d <= end && exists k :: IsServiceDate(cal, anchor, step, k, end, d)
  {
    hide Anniversary, Adjusted;
    forall d, k | start <= d <= end && IsServiceDate(cal, anchor, step, k, end, d)
      ensures first <= k < periods
    {
      if k < first {
        EarlierRollsEarlier(cal, anchor, step, k, first, start);
      } else if periods < k {
        AnniversariesIncrease(anchor, step, periods, k);
      }
    }
  }

  /** The rewind loop: back from the anchor to an anniversary at or before the window. */
  method LastAnniversaryBefore(anchor: Date, start: Date, step: int) returns (periods: int)
    requires step > 0
    ensures periods <= 0 && Anniversary(anchor, step, periods) <= start
    ensures periods < 0 ==> Anniversary(anchor, step, periods + 1) > start
  {
    hide Anniversary;
    periods := 0;
    while Anniversary(anchor, step, periods) > start
      invariant periods <= 0
      invariant periods < 0 ==> Anniversary(anchor, step, periods + 1) > start
      decreases Anniversary(anchor, step, periods) - start
    {
      AnniversariesIncrease(anchor, step, periods - 1, periods);
      periods := periods - 1;
    }
  }

  /** The loop stops at the first anniversary after `end`, although that one may roll back into the
      window. It does so exactly when the rest of the month of `end` is closed. */
  lemma RollsBackOverEnd(cal: BusinessCalendar, raw: Date, end: Date)
    requires EveryMonthOpens(cal) && end < raw
    ensures Adjusted(cal, raw, MODIFIED_FOLLOWING) <= end
       <==> MonthIndex(raw) == MonthIndex(end) && ClosedAfter(cal, end)
  {
    hide Adjusted, MonthIndex;
    ModifiedFollowing(cal, raw);
    var r := Adjusted(cal, raw, MODIFIED_FOLLOWING);
    if r <= end {
      MonthIndexMonotone(r, end);
      MonthIndexMonotone(end, raw);
    }
  }

  ghost predicate ClosedAfter(cal: BusinessCalendar, end: Date) {
    forall x :: end < x && MonthIndex(x) == MonthIndex(end) ==> !cal.IsBusinessDay(x)
  }

  /** Exactly when the returned dates lack one that the whole schedule puts into the window. */
  lemma ServiceDateMissedIff(cal: BusinessCalendar, anchor: Date, step: int, start: Date, end: Date)
    requires EveryMonthOpens(cal) && step > 0
    ensures
      (exists k :: Anniversary(anchor, step, k) > end
                && start <= Adjusted(cal, Anniversary(anchor, step, k), MODIFIED_FOLLOWING) <= end)
      <==>
      (&& ClosedAfter(cal, end)
       && (exists k :: Anniversary(anchor, step, k) > end && MonthIndex(Anniversary(anchor, step, k)) == MonthIndex(end))
       && (exists x :: start <= x <= end && MonthIndex(x) == MonthIndex(end) && cal.IsBusinessDay(x)))
  {
    hide Anniversary, Adjusted, MonthIndex;
    forall k | Anniversary(anchor, step, k) > end
      ensures start <= Adjusted(cal, Anniversary(anchor, step, k), MODIFIED_FOLLOWING) <= end <==>
        (&& ClosedAfter(cal, end)
         && MonthIndex(Anniversary(anchor, step, k)) == MonthIndex(end)
         && (exists x :: start <= x <= end && MonthIndex(x) == MonthIndex(end) && cal.IsBusinessDay(x)))
    {
      var raw := Anniversary(anchor, step, k);
      RollsBackOverEnd(cal, raw, end);
      ModifiedFollowing(cal, raw);
    }
  }

  /** Memorial Day 2027 is 31 May. A facility due that day pays on Friday the 28th, inside a
      window that ends on Sunday the 30th, and the schedule of that window does not have it. */
  lemma MissedOnMemorialDay(cal: Closures)
    requires cal == Closures({DateOf(2027, 5, 31)}, {SATURDAY, SUNDAY})
    ensures cal.HasWorkday()
    ensures var due, end := DateOf(2027, 5, 31), DateOf(2027, 5, 30);
      Anniversary(due, 3, 0) > end && Adjusted(cal, due, MODIFIED_FOLLOWING) == DateOf(2027, 5, 28) <= end
  {
    hide DateOf, Anniversary, MonthIndex, AddMonthsEom, Month;
    assert 0 !in cal.weekend;
    EndOfMay2027();
    OnItself(740132);
    assert !cal.IsBusinessDay(740132) && !cal.IsBusinessDay(740131) && !cal.IsBusinessDay(740130);
    assert cal.IsBusinessDay(740129) && cal.IsBusinessDay(740133);
    assert NextBusinessDay(cal, 740132) == 740133;
    assert PreviousBusinessDay(cal, 740132) == 740129;
  }

  lemma EndOfMay2027()
    ensures DateOf(2027, 5, 28) == 740129 && DateOf(2027, 5, 30) == 740131 && DateOf(2027, 5, 31) == 740132
    ensures Month(740132) == 5 && Month(740133) == 6
  {
    hide DaysBeforeYear, DaysBeforeMonth, MonthIndex, Month;
    YearTable(2027);
    Before2027();
    FieldsOfDate(2027, 5, 31);
    FieldsOfDate(2027, 6, 1);
  }

  /** A date is its own anniversary number 0. */
  lemma OnItself(day: Date)
    ensures Anniversary(day, 3, 0) == day
  {
    hide AddMonthsEom, AddMonths, MonthIndex, MonthEnd, MonthStart, MonthDays;
    var r := AddMonthsEom(day, 0);
    AddMonthsEomIs(day, 0);
    AddMonthsIs(day, 0);
    MonthEndIs(day);
    MonthEndIs(r);
  }

  // ----- Payment runs -----

  ghost predicate IsRun(cal: BusinessCalendar, weekday: int, start: Date, end: Date, c: Date, d: Date)
  {
    start <= c <= end && Weekday(c) == weekday && Adjusted(cal, c, PRECEDING) == d
  }

  /** `ap_run_dates`: one fixed weekday, pulled earlier when closed. */
  method ApRunDates(start: Date, end: Date, cal: BusinessCalendar, weekday: int)
    returns (r: Result<seq<Date>, CadenceError>)
    ensures r.Err? <==> !(0 <= weekday <= 6)
    ensures r.Err? ==> r.error == BadWeekday
    ensures r.Ok? ==> Ascending(r.value)
    ensures r.Ok? ==> forall d :: d in r.value <==>
      start <= d <= end && exists c :: IsRun(cal, weekday, start, end, c, d)
    ensures r.Ok? ==> forall c :: start <= c <= end && Weekday(c) == weekday && start <= Adjusted(cal, c, PRECEDING) ==>
      Adjusted(cal, c, PRECEDING) in r.value
    ensures r.Ok? ==> forall d :: d in r.value ==>
      start <= d <= end && exists c :: d <= c <= end && Weekday(c) == weekday && d == Adjusted(cal, c, PRECEDING)
  {
    hide Adjusted, SortedSet, IsRun, Weekday;
    if !(0 <= weekday <= 6) {
      return Err(BadWeekday);
    }
    if end < start {
      return Ok([]);
    }
    var cursor := start + (weekday - Weekday(start)) % 7;
    FirstWeekday(start, cursor, weekday);
    var runs: seq<Date> := [];
    NoRunBefore(cal, weekday, start, end, cursor);
    while cursor <= end
      invariant start <= cursor && Weekday(cursor) == weekday
      invariant forall d :: d in runs <==>
        start <= d <= end && exists c :: c < cursor && IsRun(cal, weekday, start, end, c, d)
      decreases end - cursor
    {
      var adjusted := Adjust(cal, cursor, PRECEDING);
      RunIs(cal, weekday, start, end, cursor, adjusted);
      ghost var before := runs;
      if start <= adjusted <= end {
        runs := runs + [adjusted];
      }
      NextRun(cal, weekday, start, end, cursor, before, runs, adjusted);
      WeekdayRepeats(cursor);
      cursor := cursor + 7;
    }
    NoRunAfter(cal, weekday, start, end, cursor);
    RunsServe(cal, weekday, start, end, runs);
    return Ok(SortedSet(runs));
  }

  lemma WeekdayRepeats(day: Date)
    ensures Weekday(day + 7) == Weekday(day)
  {
  }

  lemma RunIs(cal: BusinessCalendar, weekday: int, start: Date, end: Date, c: Date, d: Date)
    requires start <= c <= end && Weekday(c) == weekday && d == Adjusted(cal, c, PRECEDING)
    ensures IsRun(cal, weekday, start, end, c, d)
  {
  }

  lemma NoRunBefore(cal: BusinessCalendar, weekday: int, start: Date, end: Date, cursor: Date)
    requires forall c :: start <= c < cursor ==> Weekday(c) != weekday
    ensures forall c, d :: c < cursor ==> !IsRun(cal, weekday, start, end, c, d)
  {
  }

  lemma RunsServe(cal: BusinessCalendar, weekday: int, start: Date, end: Date, runs: seq<Date>)
    requires forall d :: d in runs <==> start <= d <= end && exists c :: IsRun(cal, weekday, start, end, c, d)
    ensures forall c :: start <= c <= end && Weekday(c) == weekday && start <= Adjusted(cal, c, PRECEDING) ==>
      Adjusted(cal, c, PRECEDING) in runs
    ensures forall d :: d in runs ==>
      start <= d <= end && exists c :: d <= c <= end && Weekday(c) == weekday && d == Adjusted(cal, c, PRECEDING)
  {
    hide Adjusted, Weekday;
    forall c | start <= c <= end && Weekday(c) == weekday && start <= Adjusted(cal, c, PRECEDING)
      ensures Adjusted(cal, c, PRECEDING) in runs
    {
      PaidNoLater(cal, c);
      assert IsRun(cal, weekday, start, end, c, Adjusted(cal, c, PRECEDING));
    }
    forall d | d in runs
      ensures exists c :: d <= c <= end && Weekday(c) == weekday && d == Adjusted(cal, c, PRECEDING)
    {
      var c :| IsRun(cal, weekday, start, end, c, d);
      PaidNoLater(cal, c);
    }
  }

  lemma NoRunAfter(cal: BusinessCalendar, weekday: int, start: Date, end: Date, cursor: Date)
    requires cursor > end
    ensures forall c, d :: IsRun(cal, weekday, start, end, c, d) ==> c < cursor
  {
  }

  lemma FirstWeekday(start: Date, cursor: Date, weekday: int)
    requires 0 <= weekday <= 6 && cursor == start + (weekday - Weekday(start)) % 7
    ensures start <= cursor && Weekday(cursor) == weekday
    ensures forall c :: start <= c < cursor ==> Weekday(c) != weekday
  {
  }

  lemma NextRun(cal: BusinessCalendar, weekday: int, start: Date, end: Date, cursor: Date, before: seq<Date>,
                after: seq<Date>, adjusted: Date)
    requires IsRun(cal, weekday, start, end, cursor, adjusted)
    requires forall d :: d in before <==>
      start <= d <= end && exists c :: c < cursor && IsRun(cal, weekday, start, end, c, d)
    requires after == if start <= adjusted <= end then before + [adjusted] else before
    ensures forall d :: d in after <==>
      start <= d <= end && exists c :: c < cursor + 7 && IsRun(cal, weekday, start, end, c, d)
  {
    hide Adjusted;
    forall c | cursor < c < cursor + 7
      ensures Weekday(c) != weekday
    {
    }
    forall d
      ensures d in after <==>
        start <= d <= end && exists c :: c < cursor + 7 && IsRun(cal, weekday, start, end, c, d)
    {
      assert d in after <==> d in before || (d == adjusted && start <= adjusted <= end);
    }
  }

  // ----- Biweekly pay -----

  ghost predicate IsPayDay(cal: BusinessCalendar, anchor: Date, k: int, last: Date, d: Date)
  {
    anchor + 14 * k <= last && Adjusted(cal, anchor + 14 * k, PRECEDING) == d
  }

  /** `biweekly_pay_dates`: every 14 days from the anchor, in both directions, paid early if closed. */
  method BiweeklyPayDates(anchor: Date, start: Date, end: Date, cal: BusinessCalendar) returns (r: seq<Date>)
    ensures Ascending(r)
    ensures forall d :: d in r <==> start <= d <= end && exists k :: IsPayDay(cal, anchor, k, end, d)
    ensures forall c :: c <= end && (c - anchor) % 14 == 0 && start <= Adjusted(cal, c, PRECEDING) ==>
      Adjusted(cal, c, PRECEDING) in r
    ensures forall d :: d in r ==>
      start <= d <= end && exists c :: d <= c <= end && (c - anchor) % 14 == 0 && d == Adjusted(cal, c, PRECEDING)
  {
    hide Adjusted;
    if end < start {
      PayDaysServe(cal, anchor, start, end, []);
      return [];
    }
    var cursor := anchor;
    ghost var k := 0;
    if cursor > start {
      var periods := (cursor - start) / 14 + 1;
      cursor := cursor - 14 * periods;
      k := -periods;
    }
    ghost var first := k;
    var dates: seq<Date> := [];
    while cursor <= end
      invariant cursor == anchor + 14 * k && first <= k && anchor + 14 * first <= start
      invariant forall d :: d in dates <==>
        start <= d <= end && exists j :: first <= j < k && IsPayDay(cal, anchor, j, end, d)
      decreases end - cursor
    {
      ghost var before := dates;
      if cursor >= start - 13 {
        var paid := Adjust(cal, cursor, PRECEDING);
        if start <= paid <= end {
          dates := dates + [paid];
        }
      }
      NextPayDay(cal, anchor, first, k, start, end, before, dates);
      cursor := cursor + 14;
      k := k + 1;
    }
    r := SortedSet(dates);
    forall d, j | start <= d <= end && IsPayDay(cal, anchor, j, end, d)
      ensures first <= j < k
    {
      PaidNoLater(cal, anchor + 14 * j);
    }
    PayDaysServe(cal, anchor, start, end, r);
  }

  lemma PayDaysServe(cal: BusinessCalendar, anchor: Date, start: Date, end: Date, dates: seq<Date>)
    requires forall d :: d in dates <==> start <= d <= end && exists k :: IsPayDay(cal, anchor, k, end, d)
    ensures forall c :: c <= end && (c - anchor) % 14 == 0 && start <= Adjusted(cal, c, PRECEDING) ==>
      Adjusted(cal, c, PRECEDING) in dates
    ensures forall d :: d in dates ==>
      start <= d <= end && exists c :: d <= c <= end && (c - anchor) % 14 == 0 && d == Adjusted(cal, c, PRECEDING)
  {
    hide Adjusted;
    forall c | c <= end && (c - anchor) % 14 == 0 && start <= Adjusted(cal, c, PRECEDING)
      ensures Adjusted(cal, c, PRECEDING) in dates
    {
      PaidNoLater(cal, c);
      assert c == anchor + 14 * ((c - anchor) / 14);
      assert IsPayDay(cal, anchor, (c - anchor) / 14, end, Adjusted(cal, c, PRECEDING));
    }
    forall d | d in dates
      ensures exists c :: d <= c <= end && (c - anchor) % 14 == 0 && d == Adjusted(cal, c, PRECEDING)
    {
      var k :| IsPayDay(cal, anchor, k, end, d);
      PaidNoLater(cal, anchor + 14 * k);
      assert (anchor + 14 * k - anchor) % 14 == 0;
    }
  }

  lemma PaidNoLater(cal: BusinessCalendar, day: Date)
    ensures Adjusted(cal, day, PRECEDING) <= day
  {
  }

  lemma NextPayDay(cal: BusinessCalendar, anchor: Date, first: int, k: int, start: Date, end: Date,
                   before: seq<Date>, after: seq<Date>)
    requires first <= k && anchor + 14 * k <= end
    requires forall d :: d in before <==>
      start <= d <= end && exists j :: first <= j < k && IsPayDay(cal, anchor, j, end, d)
    requires var paid := Adjusted(cal, anchor + 14 * k, PRECEDING);
      after == if start - 13 <= anchor + 14 * k && start <= paid <= end then before + [paid] else before
    ensures forall d :: d in after <==>
      start <= d <= end && exists j :: first <= j < k + 1 && IsPayDay(cal, anchor, j, end, d)
  {
    hide Adjusted;
    var paid := Adjusted(cal, anchor + 14 * k, PRECEDING);
    PaidNoLater(cal, anchor + 14 * k);
    assert IsPayDay(cal, anchor, k, end, paid);
    forall d
      ensures d in after <==>
        start <= d <= end && exists j :: first <= j < k + 1 && IsPayDay(cal, anchor, j, end, d)
    {
      assert d in after <==> d in before || (d == paid && start <= paid <= end);
    }
  }

  // ----- Weeks -----

  function WeekStart(day: Date): Date {
    day - Weekday(day)
  }

  /** `week_index`: the 1-based week of `day` on a grid that starts on a Monday, 0 before the grid. */
  function WeekIndex(day: Date, firstWeekStart: Monday): (w: int)
    ensures w >= 0
  {
    var delta := WeekStart(day) - firstWeekStart;
    if delta < 0 then 0 else delta / 7 + 1
  }

  /** Week w holds exactly the seven days from its Monday. */
  lemma WeekIndexIs(day: Date, firstWeekStart: Monday, w: int)
    requires w >= 1
    ensures WeekIndex(day, firstWeekStart) == w
       <==> firstWeekStart + 7 * (w - 1) <= day < firstWeekStart + 7 * w
  {
    assert Weekday(firstWeekStart) == MONDAY;
  }
}
