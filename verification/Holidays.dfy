/** US federal bank holidays as observed, and how far apart they keep business days. */
module Holidays {
  import opened Arith
  import opened Calendar
  import opened Gregorian
  import opened Months
  import opened Results

  function NthWeekday(year: int, month: int, weekday: int, nth: int): Date {
    var first := DateOf(year, month, 1);
    first + (weekday - Weekday(first)) % 7 + 7 * (nth - 1)
  }

  function LastWeekday(year: int, month: int, weekday: int): Date {
    var last := MonthEnd(DateOf(year, month, 1));
    last - (Weekday(last) - weekday) % 7
  }

  /** Sunday holidays are observed on Monday; Saturday holidays are not observed. */
  function FedObserved(day: Date): Option<Date> {
    if Weekday(day) == SUNDAY then Some(day + 1)
    else if Weekday(day) == SATURDAY then None
    else Some(day)
  }

  const KINDS := 11

  /** The eleven holidays of a year in the order of the calendar. */
  function Holiday(year: int, kind: int): Option<Date>
    requires 0 <= kind < KINDS
  {
    match kind
    case 0 => FedObserved(DateOf(year, 1, 1))
    case 1 => Some(NthWeekday(year, 1, MONDAY, 3))
    case 2 => Some(NthWeekday(year, 2, MONDAY, 3))
    case 3 => Some(LastWeekday(year, 5, MONDAY))
    case 4 => FedObserved(DateOf(year, 6, 19))
    case 5 => FedObserved(DateOf(year, 7, 4))
    case 6 => Some(NthWeekday(year, 9, MONDAY, 1))
    case 7 => Some(NthWeekday(year, 10, MONDAY, 2))
    case 8 => FedObserved(DateOf(year, 11, 11))
    case 9 => Some(NthWeekday(year, 11, THURSDAY, 4))
    case _ => FedObserved(DateOf(year, 12, 25))
  }

  ghost predicate IsHoliday(day: Date, from: int, to: int) {
    exists year, kind :: from <= year <= to && 0 <= kind < KINDS && Holiday(year, kind) == Some(day)
  }

  /** `us_federal_holidays`: year by year, the six floating holidays and then the five fixed ones. */
  method UsFederalHolidays(startYear: int, endYear: int) returns (r: Result<set<Date>, CadenceError>)
    ensures r.Err? <==> endYear < startYear
    ensures r.Err? ==> r.error == BadYearRange
    ensures r.Ok? ==> forall day :: day in r.value <==> IsHoliday(day, startYear, endYear)
  {
    if endYear < startYear {
      return Err(BadYearRange);
    }
    var observed: set<Date> := {};
    for year := startYear to endYear + 1
      invariant forall day :: day in observed <==> IsHoliday(day, startYear, year - 1)
    {
      ghost var earlier := observed;
      var floating := {
        NthWeekday(year, 1, MONDAY, 3), NthWeekday(year, 2, MONDAY, 3), LastWeekday(year, 5, MONDAY),
        NthWeekday(year, 9, MONDAY, 1), NthWeekday(year, 10, MONDAY, 2), NthWeekday(year, 11, THURSDAY, 4)
      };
      var fixed := [DateOf(year, 1, 1), DateOf(year, 6, 19), DateOf(year, 7, 4), DateOf(year, 11, 11),
                    DateOf(year, 12, 25)];
      var shifted := ObservedFixed(fixed);
      observed := observed + floating + shifted;
      YearOfHolidays(year, fixed, shifted, floating);
      forall day
        ensures day in observed <==> IsHoliday(day, startYear, year)
      {
        NextYear(day, startYear, year);
      }
    }
    return Ok(observed);
  }

  method ObservedFixed(fixed: seq<Date>) returns (observed: set<Date>)
    ensures forall day :: day in observed <==> exists i :: 0 <= i < |fixed| && FedObserved(fixed[i]) == Some(day)
  {
    observed := {};
    for i := 0 to |fixed|
      invariant forall day :: day in observed <==> exists k :: 0 <= k < i && FedObserved(fixed[k]) == Some(day)
    {
      var shifted := FedObserved(fixed[i]);
      if shifted.Some? {
        observed := observed + {shifted.value};
      }
    }
  }

  lemma YearOfHolidays(year: int, fixed: seq<Date>, shifted: set<Date>, floating: set<Date>)
    requires fixed == [DateOf(year, 1, 1), DateOf(year, 6, 19), DateOf(year, 7, 4), DateOf(year, 11, 11),
                       DateOf(year, 12, 25)]
    requires forall day :: day in shifted <==> exists i :: 0 <= i < |fixed| && FedObserved(fixed[i]) == Some(day)
    requires floating == {
      NthWeekday(year, 1, MONDAY, 3), NthWeekday(year, 2, MONDAY, 3), LastWeekday(year, 5, MONDAY),
      NthWeekday(year, 9, MONDAY, 1), NthWeekday(year, 10, MONDAY, 2), NthWeekday(year, 11, THURSDAY, 4)
    }
    ensures forall day :: day in floating + shifted <==> IsHoliday(day, year, year)
  {
    hide NthWeekday, LastWeekday, FedObserved, DateOf;
    forall day
      ensures day in floating + shifted <==> IsHoliday(day, year, year)
    {
      if day in shifted {
        var i :| 0 <= i < |fixed| && FedObserved(fixed[i]) == Some(day);
        var kind := [0, 4, 5, 8, 10][i];
        assert Holiday(year, kind) == Some(day);
      }
      if day in floating {
        assert exists kind :: 0 <= kind < KINDS && Holiday(year, kind) == Some(day) by {
          assert Holiday(year, 1) == Some(day) || Holiday(year, 2) == Some(day) || Holiday(year, 3) == Some(day)
              || Holiday(year, 6) == Some(day) || Holiday(year, 7) == Some(day) || Holiday(year, 9) == Some(day);
        }
      }
      if IsHoliday(day, year, year) {
        var y, kind :| y == year && 0 <= kind < KINDS && Holiday(y, kind) == Some(day);
        assert kind == 0 ==> FedObserved(fixed[0]) == Some(day);
        assert kind == 4 ==> FedObserved(fixed[1]) == Some(day);
        assert kind == 5 ==> FedObserved(fixed[2]) == Some(day);
        assert kind == 8 ==> FedObserved(fixed[3]) == Some(day);
        assert kind == 10 ==> FedObserved(fixed[4]) == Some(day);
      }
    }
  }

  lemma NextYear(day: Date, from: int, to: int)
    requires from <= to
    ensures IsHoliday(day, from, to) <==> IsHoliday(day, from, to - 1) || IsHoliday(day, to, to)
  {
  }

  // ----- Where in the year each holiday can fall -----

  /** The nth weekday of a month lies in the nth week counted from the first of the month. */
  lemma NthWeekdayWindow(year: int, month: int, weekday: int, nth: int)
    requires 0 <= weekday < 7
    ensures var r, first := NthWeekday(year, month, weekday, nth), DateOf(year, month, 1);
      Weekday(r) == weekday && first + 7 * (nth - 1) <= r < first + 7 * nth
  {
    hide DateOf;
  }

  lemma LastWeekdayWindow(year: int, month: int, weekday: int)
    requires 0 <= weekday < 7
    ensures var r, last := LastWeekday(year, month, weekday), MonthEnd(DateOf(year, month, 1));
      Weekday(r) == weekday && last - 6 <= r <= last
  {
    hide MonthEnd, DateOf;
  }

  /** A fixed day is kept on itself from Monday to Friday, on the Monday after it when it is a Sunday, and
      not at all when it is a Saturday. */
  predicate KeptFor(holiday: Option<Date>, day: Date) {
    match Weekday(day)
    case 5 => holiday == None
    case 6 => holiday == Some(day + 1)
    case _ => holiday == Some(day)
  }

  /** The one such weekday in the seven days from a day of the month. */
  predicate KeptWithin(holiday: Option<Date>, weekday: int, first: Date) {
    holiday.Some? && Weekday(holiday.value) == weekday && first <= holiday.value < first + 7
  }

  /** The eleven holidays of a year: New Year, Juneteenth, Independence Day, Veterans Day and Christmas
      are fixed; Martin Luther King's and Washington's birthday, Memorial Day, Labor Day, Columbus Day
      and Thanksgiving fall in a week of their month. */
  lemma HolidaysOfYear(year: int)
    ensures KeptFor(Holiday(year, 0), DateOf(year, 1, 1)) && KeptFor(Holiday(year, 4), DateOf(year, 6, 19))
    ensures KeptFor(Holiday(year, 5), DateOf(year, 7, 4)) && KeptFor(Holiday(year, 8), DateOf(year, 11, 11))
    ensures KeptFor(Holiday(year, 10), DateOf(year, 12, 25))
    ensures KeptWithin(Holiday(year, 1), MONDAY, DateOf(year, 1, 15))
    ensures KeptWithin(Holiday(year, 2), MONDAY, DateOf(year, 2, 15))
    ensures KeptWithin(Holiday(year, 3), MONDAY, DateOf(year, 5, 25))
    ensures KeptWithin(Holiday(year, 6), MONDAY, DateOf(year, 9, 1))
    ensures KeptWithin(Holiday(year, 7), MONDAY, DateOf(year, 10, 8))
    ensures KeptWithin(Holiday(year, 9), THURSDAY, DateOf(year, 11, 22))
  {
    hide NthWeekday, LastWeekday, DaysBeforeYear, DaysBeforeMonth, MonthEnd;
    NthWeekdayWindow(year, 1, MONDAY, 3);
    NthWeekdayWindow(year, 2, MONDAY, 3);
    NthWeekdayWindow(year, 9, MONDAY, 1);
    NthWeekdayWindow(year, 10, MONDAY, 2);
    NthWeekdayWindow(year, 11, THURSDAY, 4);
    LastWeekdayWindow(year, 5, MONDAY);
    LastOfMay(year);
  }

  lemma LastOfMay(year: int)
    ensures MonthEnd(DateOf(year, 5, 1)) == DateOf(year, 5, 31)
  {
    hide DaysBeforeYear, DaysBeforeMonth;
    YearTable(year);
    FieldsOfDate(year, 5, 1);
  }

  /** The first and last day of the year (0 is 1 January) a holiday can be observed on. */
  function Earliest(kind: int, leap: int): int {
    match kind
    case 0 => 0
    case 1 => 14
    case 2 => 45
    case 3 => 144 + leap
    case 4 => 169 + leap
    case 5 => 184 + leap
    case 6 => 243 + leap
    case 7 => 280 + leap
    case 8 => 314 + leap
    case 9 => 325 + leap
    case _ => 358 + leap
  }

  function Width(kind: int): int {
    if kind == 0 || kind == 4 || kind == 5 || kind == 8 || kind == 10 then 1 else 6
  }

  function LeapDay(year: int): int {
    if IsLeap(year) then 1 else 0
  }

  lemma HolidayWindow(year: int, kind: int)
    requires 0 <= kind < KINDS && Holiday(year, kind).Some?
    ensures var r, start := Holiday(year, kind).value, DaysBeforeYear(year) + 1;
      start + Earliest(kind, LeapDay(year)) <= r <= start + Earliest(kind, LeapDay(year)) + Width(kind)
  {
    hide DaysBeforeYear;
    YearTable(year);
    if kind == 3 {
      FieldsOfDate(year, 5, 1);
      LastWeekdayWindow(year, 5, MONDAY);
      assert MonthEnd(DateOf(year, 5, 1)) == DateOf(year, 6, 1) - 1;
    }
  }

  /** Two different holidays are at least five days apart. */
  lemma HolidaysApart(y: int, k: int, z: int, j: int)
    requires 0 <= k < KINDS && 0 <= j < KINDS
    requires Holiday(y, k).Some? && Holiday(z, j).Some?
    requires y < z || (y == z && k < j)
    ensures Holiday(z, j).value >= Holiday(y, k).value + 5
  {
    hide DaysBeforeYear, Holiday;
    HolidayWindow(y, k);
    HolidayWindow(z, j);
    if y < z {
      YearsApart(y, z);
    }
  }

  lemma {:induction false} YearsApart(y: int, z: int)
    requires y < z
    ensures DaysBeforeYear(y) + 365 + LeapDay(y) <= DaysBeforeYear(z)
    decreases z - y
  {
    hide DaysBeforeYear;
    YearStep(z - 1);
    if y + 1 < z {
      YearsApart(y, z - 1);
    }
  }

  const WEEKEND := {SATURDAY, SUNDAY}

  ghost predicate IsUsCalendar(cal: BusinessCalendar, startYear: int, endYear: int) {
    && cal.weekend == WEEKEND
    && forall day :: day in cal.holidays <==> IsHoliday(day, startYear, endYear)
  }

  lemma OneHoliday(x: Date, y: Date, from: int, to: int)
    requires x < y < x + 5
    ensures !(IsHoliday(x, from, to) && IsHoliday(y, from, to))
  {
    hide Holiday;
    if IsHoliday(x, from, to) && IsHoliday(y, from, to) {
      var y1, k1 :| from <= y1 <= to && 0 <= k1 < KINDS && Holiday(y1, k1) == Some(x);
      var y2, k2 :| from <= y2 <= to && 0 <= k2 < KINDS && Holiday(y2, k2) == Some(y);
      if y1 < y2 || (y1 == y2 && k1 < k2) {
        HolidaysApart(y1, k1, y2, k2);
      } else {
        HolidaysApart(y2, k2, y1, k1);
      }
    }
  }

  /** Four days in a row hold two weekdays, and only one of those can be a holiday. */
  lemma FourDaysHoldOne(cal: BusinessCalendar, day: Date, startYear: int, endYear: int)
    requires IsUsCalendar(cal, startYear, endYear)
    ensures OpenWithin(cal, day, 4)
  {
    var x := if Weekday(day) == SATURDAY then day + 2 else if Weekday(day) == SUNDAY then day + 1 else day;
    var y := if Weekday(day) == FRIDAY then day + 3 else x + 1;
    assert Weekday(x) !in WEEKEND && Weekday(y) !in WEEKEND;
    OneHoliday(x, y, startYear, endYear);
    assert cal.IsBusinessDay(x) || cal.IsBusinessDay(y);
  }

  /** For every year range: a business day in any four, every month open, and no date rolled by
      more than three days. */
  lemma UsCalendarOpens(cal: BusinessCalendar, startYear: int, endYear: int, day: Date, convention: Convention)
    requires IsUsCalendar(cal, startYear, endYear)
    ensures NoClosedRun(cal, 4) && EveryMonthOpens(cal)
    ensures Abs(Adjusted(cal, day, convention) - day) <= 3
  {
    forall d: Date
      ensures OpenWithin(cal, d, 4) && OpenWithin(cal, d, 28)
    {
      FourDaysHoldOne(cal, d, startYear, endYear);
    }
    ShortRunsOpenMonths(cal);
    AdjustMovesAtMost(cal, day, convention, 3);
  }
}
