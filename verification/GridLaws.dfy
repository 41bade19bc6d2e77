/** What a finished grid keeps: every draft once, overrides exactly, the drivers' own totals. */
module GridLaws {
  import opened Allocation
  import opened Calendar
  import opened Drivers
  import opened Forecasts
  import opened Gregorian
  import opened Movements
  import opened Results
  import opened Schedules
  import opened Seqs

  // ----- Every category and week has one cell -----

  /** The cells of one category and week, wherever they are. */
  function Matching(cells: seq<Cell>, category: nat, week: int): seq<Cell> {
    if cells == [] then []
    else
      var n := |cells| - 1;
      Matching(cells[..n], category, week)
        + if cells[n].category == category && cells[n].week == week then [cells[n]] else []
  }

  /** `Forecast.cell`: the first match, or a KeyError. */
  method CellAt(cells: seq<Cell>, category: nat, week: int) returns (r: Option<Cell>)
    ensures r == Lookup(cells, category, week)
  {
    for i := 0 to |cells|
      invariant Matching(cells[..i], category, week) == []
    {
      assert cells[..i + 1][..i] == cells[..i];
      if cells[i].category == category && cells[i].week == week {
        assert cells[..i + 1] + cells[i + 1..] == cells;
        MatchingConcat(cells[..i + 1], cells[i + 1..], category, week);
        return Some(cells[i]);
      }
    }
    assert cells[..|cells|] == cells;
    return None;
  }

  function Lookup(cells: seq<Cell>, category: nat, week: int): Option<Cell> {
    var found := Matching(cells, category, week);
    if found == [] then None else Some(found[0])
  }

  lemma {:induction false} MatchingConcat(a: seq<Cell>, b: seq<Cell>, category: nat, week: int)
    ensures Matching(a + b, category, week) == Matching(a, category, week) + Matching(b, category, week)
  {
    if b == [] {
      assert a + b == a;
    } else {
      assert (a + b)[..|a + b| - 1] == a + b[..|b| - 1];
      MatchingConcat(a, b[..|b| - 1], category, week);
    }
  }

  lemma {:induction false} MatchingInRow(sheet: Sheet, row: nat, weeks: nat, category: nat, week: int)
    ensures Matching(sheet.Row(row, weeks), category, week)
         == if row == category && 1 <= week <= weeks then [sheet.CellOf(category, week)] else []
  {
    hide Sheet.CellOf, Matching;
    if weeks == 0 {
      NothingMatches(category, week);
    } else {
      MatchingInRow(sheet, row, weeks - 1, category, week);
      CellIsOf(sheet, row, weeks);
      MatchingSnoc(sheet.Row(row, weeks - 1), sheet.CellOf(row, weeks), category, week);
    }
  }

  lemma CellIsOf(sheet: Sheet, category: nat, week: int)
    ensures sheet.CellOf(category, week).category == category && sheet.CellOf(category, week).week == week
    ensures sheet.CellOf(category, week).weekStart == sheet.first + 7 * (week - 1)
  {
    hide Sheet.Amount, CellDrafts, OverrideAt;
  }

  lemma MatchingSnoc(cells: seq<Cell>, cell: Cell, category: nat, week: int)
    ensures Matching(cells + [cell], category, week)
         == Matching(cells, category, week) + if cell.category == category && cell.week == week then [cell] else []
  {
    assert (cells + [cell])[..|cells|] == cells;
  }

  /** Each category and week of the grid has exactly one cell, and there are no others. */
  lemma {:induction false} OneCellEach(sheet: Sheet, categories: nat, weeks: nat, category: nat, week: int)
    ensures Matching(sheet.Rows(categories, weeks), category, week)
         == if category < categories && 1 <= week <= weeks then [sheet.CellOf(category, week)] else []
  {
    hide Sheet.CellOf, Sheet.Row, Matching;
    if categories == 0 {
      NothingMatches(category, week);
    } else {
      OneCellEach(sheet, categories - 1, weeks, category, week);
      MatchingConcat(sheet.Rows(categories - 1, weeks), sheet.Row(categories - 1, weeks), category, week);
      MatchingInRow(sheet, categories - 1, weeks, category, week);
    }
  }

  /** What `Forecast.cell` finds in a finished grid. */
  lemma GridCell(f: Forecast, i: Inputs, sheet: Sheet, category: nat, week: int)
    requires i.weeks >= 1 && IsGrid(f, i, sheet)
    ensures Lookup(f.cells, category, week)
         == if category < CATEGORY_COUNT && 1 <= week <= i.weeks then Some(sheet.CellOf(category, week)) else None
    ensures category < CATEGORY_COUNT && 1 <= week <= i.weeks && sheet.first == i.first ==>
      sheet.CellOf(category, week).weekStart == f.weeks[week - 1]
  {
    hide Sheet.CellOf, Sheet.Rows, Sheet.Through, Matching;
    OneCellEach(sheet, CATEGORY_COUNT, i.weeks, category, week);
    CellIsOf(sheet, category, week);
  }

  /** The build refuses exactly the overrides that are meant for no cell of the grid. */
  lemma RefusedOverrides(i: Inputs, drafts: seq<Movement>)
    requires i.Valid()
    ensures OverrideOutside(i.overrides, i.weeks) <==>
      exists o :: o in i.overrides
        && Matching(Sheet(drafts, i.overrides, i.first).Rows(CATEGORY_COUNT, i.weeks), o.category, o.week) == []
  {
    hide Sheet.CellOf, Sheet.Rows, Matching;
    var sheet := Sheet(drafts, i.overrides, i.first);
    forall o | o in i.overrides
      ensures Matching(sheet.Rows(CATEGORY_COUNT, i.weeks), o.category, o.week) == [] <==> o.week > i.weeks
    {
      OneCellEach(sheet, CATEGORY_COUNT, i.weeks, o.category, o.week);
    }
  }

  lemma NothingMatches(category: nat, week: int)
    ensures Matching([], category, week) == []
  {
  }

  // ----- Every draft is counted in exactly one cell -----

  /** A cell holds a movement as often as it was drafted, and only in its own category and week. */
  lemma {:induction false} CellContributions(ms: seq<Movement>, category: nat, week: int, first: Monday, m: Movement)
    ensures multiset(CellDrafts(ms, category, week, first))[m]
         == if InCell(m, category, week, first) then multiset(ms)[m] else 0
  {
    hide WeekIndex;
    if ms != [] {
      var n := |ms| - 1;
      CellContributions(ms[..n], category, week, first, m);
      assert ms == ms[..n] + [ms[n]];
    }
  }

  /** A kept draft falls in a week of the horizon. */
  lemma KeptInGrid(m: Movement, i: Inputs)
    requires i.Valid() && Keeps(m, i.first, i.End())
    ensures 1 <= WeekIndex(m.date, i.first) <= i.weeks
  {
    hide WeekIndex, Keeps;
    assert i.first <= m.date <= i.End() by {
      KeepsDates(m, i.first, i.End());
    }
    var w := (m.date - i.first) / 7 + 1;
    WeekIndexIs(m.date, i.first, w);
  }

  lemma KeepsDates(m: Movement, start: Date, end: Date)
    requires Keeps(m, start, end)
    ensures start <= m.date <= end && m.amount != 0
  {
  }

  lemma EngineSnoc(ms: seq<Movement>, m: Movement, overrides: seq<Override>, first: Monday, category: nat, week: int)
    ensures Sheet(ms + [m], overrides, first).Engine(category, week)
         == Sheet(ms, overrides, first).Engine(category, week)
          + if InCell(m, category, week, first) then m.amount else 0
  {
    hide CellDrafts, InCell, Total;
    CellTotalSnoc(ms, m, category, week, first);
  }

  lemma {:induction false} WeekSnoc(ms: seq<Movement>, m: Movement, first: Monday, week: int, categories: nat)
    ensures Sheet(ms + [m], [], first).Week(week, categories)
         == Sheet(ms, [], first).Week(week, categories)
          + if m.category < categories && WeekIndex(m.date, first) == week then m.amount else 0
  {
    hide WeekIndex, Sheet.Engine;
    if categories > 0 {
      WeekSnoc(ms, m, first, week, categories - 1);
      EngineSnoc(ms, m, [], first, categories - 1, week);
    }
  }

  lemma {:induction false} ThroughSnoc(ms: seq<Movement>, m: Movement, first: Monday, weeks: nat)
    requires m.category < CATEGORY_COUNT
    ensures Sheet(ms + [m], [], first).Through(weeks)
         == Sheet(ms, [], first).Through(weeks) + if 1 <= WeekIndex(m.date, first) <= weeks then m.amount else 0
  {
    hide WeekIndex, Sheet.Week;
    if weeks > 0 {
      ThroughSnoc(ms, m, first, weeks - 1);
      WeekSnoc(ms, m, first, weeks, CATEGORY_COUNT);
    }
  }

  /** What is dated before a day. */
  function TotalBefore(ms: seq<Movement>, day: Date): int {
    if ms == [] then 0
    else
      var n := |ms| - 1;
      TotalBefore(ms[..n], day) + if ms[n].date < day then ms[n].amount else 0
  }

  /** Without overrides the balance at the end of a week has moved by every draft dated up to then. */
  lemma {:induction false} ClosingFollowsDrafts(ms: seq<Movement>, first: Monday, weeks: nat)
    requires forall k :: 0 <= k < |ms| ==> ms[k].category < CATEGORY_COUNT && ms[k].date >= first
    ensures Sheet(ms, [], first).Through(weeks) == TotalBefore(ms, first + 7 * weeks)
  {
    hide WeekIndex, Sheet.Week, Sheet.Through;
    if ms == [] {
      EmptySheet(first, weeks);
    } else {
      var n := |ms| - 1;
      ClosingFollowsDrafts(ms[..n], first, weeks);
      ThroughSnoc(ms[..n], ms[n], first, weeks);
      assert ms == ms[..n] + [ms[n]];
      WeekReached(ms[n].date, first, weeks);
    }
  }

  lemma WeekReached(day: Date, first: Monday, weeks: nat)
    requires day >= first
    ensures 1 <= WeekIndex(day, first) <= weeks <==> day < first + 7 * weeks
  {
    hide WeekIndex;
    WeekIndexIs(day, first, (day - first) / 7 + 1);
  }

  lemma {:induction false} EmptySheet(first: Monday, weeks: nat)
    ensures Sheet([], [], first).Through(weeks) == 0
  {
    if weeks > 0 {
      EmptySheet(first, weeks - 1);
      EmptyWeek(first, weeks, CATEGORY_COUNT);
    }
  }

  lemma {:induction false} EmptyWeek(first: Monday, week: int, categories: nat)
    ensures Sheet([], [], first).Week(week, categories) == 0
  {
    if categories > 0 {
      EmptyWeek(first, week, categories - 1);
    }
  }

  lemma {:induction false} AllBefore(ms: seq<Movement>, day: Date)
    requires forall k :: 0 <= k < |ms| ==> ms[k].date < day
    ensures TotalBefore(ms, day) == Total(ms)
  {
    if ms != [] {
      AllBefore(ms[..|ms| - 1], day);
    }
  }

  /** Without overrides, final cash is opening cash plus everything that was drafted. */
  lemma FinalCashIsOpeningPlusDrafts(i: Inputs, scheduled: seq<Movement>, f: Forecast)
    requires i.Valid() && IsSchedule(scheduled) && i.overrides == []
    requires AllMovements(i, scheduled).Ok?
    requires IsGrid(f, i, Sheet(Kept(AllMovements(i, scheduled).value, i.first, i.End()), [], i.first))
    ensures f.closing[i.weeks - 1] == i.opening + Total(Kept(AllMovements(i, scheduled).value, i.first, i.End()))
    ensures forall k :: 0 <= k < i.weeks ==>
      f.closing[k] == i.opening + TotalBefore(Kept(AllMovements(i, scheduled).value, i.first, i.End()), i.first + 7 * (k + 1))
  {
    hide AllMovements, Kept, Sheet.Through, Sheet.Rows, Keeps;
    var all := AllMovements(i, scheduled).value;
    var ms := Kept(all, i.first, i.End());
    KnownCategories(i, scheduled);
    KeptMembers(all, i.first, i.End());
    forall k | 0 <= k < |ms|
      ensures ms[k].category < CATEGORY_COUNT && i.first <= ms[k].date <= i.End()
    {
      assert ms[k] in ms;
      KeepsDates(ms[k], i.first, i.End());
    }
    forall k | 0 <= k < i.weeks
      ensures f.closing[k] == i.opening + TotalBefore(ms, i.first + 7 * (k + 1))
    {
      ClosingFollowsDrafts(ms, i.first, k + 1);
    }
    AllBefore(ms, i.first + 7 * i.weeks);
  }

  /** Every driver writes to a category of the closed list. */
  lemma KnownCategories(i: Inputs, scheduled: seq<Movement>)
    requires i.Valid() && IsSchedule(scheduled) && AllMovements(i, scheduled).Ok?
    ensures forall m :: m in AllMovements(i, scheduled).value ==> m.category < CATEGORY_COUNT
  {
    hide PayablesDrafted, TradeMovements, DatedMovements;
    TradeCategory(i);
    PaymentsCategory(i);
    DatedCategories(i);
  }

  lemma DatedCategories(i: Inputs)
    ensures forall m :: m in Commitments(i) ==> m.category in {TAX_SALES, CAPEX, INSURANCE_SOFTWARE}
    ensures forall m :: m in DatedMovements(i.otherReceipts, RECEIPTS_OTHER) ==> m.category == RECEIPTS_OTHER
  {
  }

  lemma {:induction false} TradeCategoryOf(invoices: seq<Invoice>, curve: Curve, asOf: Date, cal: BusinessCalendar)
    requires curve.Valid() && TradeMovements(invoices, curve, asOf, cal).Ok?
    ensures forall m :: m in TradeMovements(invoices, curve, asOf, cal).value ==> m.category == RECEIPTS_TRADE_AR
  {
    hide Adjusted, Allocated, Curve.MixtureFor, Expected;
    if invoices != [] {
      TradeCategoryOf(invoices[..|invoices| - 1], curve, asOf, cal);
    }
  }

  lemma TradeCategory(i: Inputs)
    requires i.Valid() && Receivables(i).Ok?
    ensures forall m :: m in Receivables(i).value ==> m.category == RECEIPTS_TRADE_AR
  {
    hide TradeMovements;
    if i.curve.Some? && i.invoices != [] {
      TradeCategoryOf(i.invoices, i.curve.value, i.asOf, i.cal);
    }
  }

  lemma PaymentsCategory(i: Inputs)
    requires i.Valid()
    ensures forall m :: m in Payments(i) ==> m.category == AP_TRADE && i.first <= m.date <= i.End()
  {
    hide RunLands, ApMovements;
    if i.payables != [] && 0 <= i.runWeekday <= 6 {
      var runs := RunsOf(i.cal, i.runWeekday, i.first, i.End());
      if runs != [] {
        ApPaysEverything(i.payables, runs);
      }
    }
  }
}
