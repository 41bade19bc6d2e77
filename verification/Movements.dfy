/** Dated cash movements: totals, the horizon filter, and weeks of a grid. */
module Movements {
  import opened Gregorian
  import opened Schedules

  /** A category is its position in the closed list of fourteen. */
  const CATEGORY_COUNT := 14
  const RECEIPTS_TRADE_AR := 0
  const RECEIPTS_OTHER := 2
  const AP_TRADE := 6
  const TAX_SALES := 9
  const CAPEX := 12
  const INSURANCE_SOFTWARE := 13

  datatype Movement = Movement(category: nat, date: Date, amount: int, reference: string)

  function Total(ms: seq<Movement>): int {
    if ms == [] then 0 else Total(ms[..|ms| - 1]) + ms[|ms| - 1].amount
  }

  /** What `_DraftBuilder.add` records: nothing of amount zero, nothing outside the horizon. */
  predicate Keeps(m: Movement, start: Date, end: Date) {
    m.amount != 0 && start <= m.date <= end
  }

  function Kept(ms: seq<Movement>, start: Date, end: Date): seq<Movement> {
    if ms == [] then []
    else
      var n := |ms| - 1;
      Kept(ms[..n], start, end) + if Keeps(ms[n], start, end) then [ms[n]] else []
  }

  predicate InCell(m: Movement, category: nat, week: int, first: Monday)
  {
    m.category == category && WeekIndex(m.date, first) == week
  }

  /** The movements of one category and week, in order. */
  function CellDrafts(ms: seq<Movement>, category: nat, week: int, first: Monday): seq<Movement>
  {
    if ms == [] then []
    else
      var n := |ms| - 1;
      CellDrafts(ms[..n], category, week, first) + if InCell(ms[n], category, week, first) then [ms[n]] else []
  }

  lemma {:induction false} TotalConcat(a: seq<Movement>, b: seq<Movement>)
    ensures Total(a + b) == Total(a) + Total(b)
  {
    if b == [] {
      assert a + b == a;
    } else {
      assert (a + b)[..|a + b| - 1] == a + b[..|b| - 1];
      TotalConcat(a, b[..|b| - 1]);
    }
  }

  lemma {:induction false} KeptConcat(a: seq<Movement>, b: seq<Movement>, start: Date, end: Date)
    ensures Kept(a + b, start, end) == Kept(a, start, end) + Kept(b, start, end)
  {
    if b == [] {
      assert a + b == a;
    } else {
      assert (a + b)[..|a + b| - 1] == a + b[..|b| - 1];
      KeptConcat(a, b[..|b| - 1], start, end);
    }
  }

  lemma {:induction false} KeptMembers(ms: seq<Movement>, start: Date, end: Date)
    ensures forall m :: m in Kept(ms, start, end) <==> m in ms && Keeps(m, start, end)
  {
    if ms != [] {
      var n := |ms| - 1;
      KeptMembers(ms[..n], start, end);
      assert ms == ms[..n] + [ms[n]];
    }
  }

  /** Movements of one sign only lose that sign's amount to the horizon. */
  lemma {:induction false} KeptBounded(ms: seq<Movement>, start: Date, end: Date)
    requires forall i :: 0 <= i < |ms| ==> ms[i].amount >= 0
    ensures 0 <= Total(Kept(ms, start, end)) <= Total(ms)
  {
    if ms != [] {
      var n := |ms| - 1;
      KeptBounded(ms[..n], start, end);
      if Keeps(ms[n], start, end) {
      } else {
        assert Kept(ms, start, end) == Kept(ms[..n], start, end);
      }
    }
  }

  /** Movements inside the horizon lose nothing. */
  lemma {:induction false} KeptWhole(ms: seq<Movement>, start: Date, end: Date)
    requires forall i :: 0 <= i < |ms| ==> start <= ms[i].date <= end
    ensures Total(Kept(ms, start, end)) == Total(ms)
  {
    if ms != [] {
      var n := |ms| - 1;
      KeptWhole(ms[..n], start, end);
      if Keeps(ms[n], start, end) {
      } else {
        assert Kept(ms, start, end) == Kept(ms[..n], start, end);
      }
    }
  }

  /** The amount of a category in the seven days from a Monday. */
  function DaysTotal(ms: seq<Movement>, category: nat, monday: Date): int {
    if ms == [] then 0
    else
      var m := ms[|ms| - 1];
      DaysTotal(ms[..|ms| - 1], category, monday)
        + if m.category == category && monday <= m.date < monday + 7 then m.amount else 0
  }

  /** What a cell of the grid adds up to depends on the dates of its week, not on where the grid
      starts or ends. */
  lemma {:induction false} CellTotalByDates(ms: seq<Movement>, category: nat, week: int, first: Monday, weeks: int)
    requires 1 <= week <= weeks
    ensures Total(CellDrafts(Kept(ms, first, first + 7 * weeks - 1), category, week, first))
         == DaysTotal(ms, category, first + 7 * (week - 1))
  {
    hide WeekIndex, Keeps, InCell, CellDrafts, Total;
    if ms == [] {
      EmptyCell(category, week, first);
    } else {
      var n, end := |ms| - 1, first + 7 * weeks - 1;
      CellTotalByDates(ms[..n], category, week, first, weeks);
      var m, before := ms[n], Kept(ms[..n], first, end);
      CellHolds(m, category, week, first, weeks);
      if Keeps(m, first, end) {
        CellTotalSnoc(before, m, category, week, first);
      } else {
        assert before + [] == before;
      }
    }
  }

  lemma EmptyCell(category: nat, week: int, first: Monday)
    ensures Total(CellDrafts([], category, week, first)) == 0
  {
  }

  lemma CellTotalSnoc(ms: seq<Movement>, m: Movement, category: nat, week: int, first: Monday)
    ensures Total(CellDrafts(ms + [m], category, week, first))
         == Total(CellDrafts(ms, category, week, first)) + if InCell(m, category, week, first) then m.amount else 0
  {
    hide WeekIndex, InCell;
    var before := CellDrafts(ms, category, week, first);
    assert before + [] == before;
  }

  lemma CellHolds(m: Movement, category: nat, week: int, first: Monday, weeks: int)
    requires 1 <= week <= weeks
    ensures var monday := first + 7 * (week - 1);
      && (Keeps(m, first, first + 7 * weeks - 1) && InCell(m, category, week, first)
         <==> m.amount != 0 && m.category == category && monday <= m.date < monday + 7)
  {
    hide WeekIndex;
    WeekIndexIs(m.date, first, week);
  }
}
