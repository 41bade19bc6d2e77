/** Overrides move the balances by exactly what they change, and rolling forward by one week keeps
    the weeks that both grids have. */
module OverrideLaws {
  import opened Calendar
  import opened Drivers
  import opened Forecasts
  import opened GridLaws
  import opened Gregorian
  import opened Movements
  import opened Results
  import opened Schedules

  // ----- Overrides -----

  ghost predicate LastFor(overrides: seq<Override>, category: nat, week: int, j: int) {
    && 0 <= j < |overrides| && overrides[j].category == category && overrides[j].week == week
    && forall k :: j < k < |overrides| ==> overrides[k].category != category || overrides[k].week != week
  }

  /** The amount of a cell: the last override given for it, or what the drivers say where there is none. */
  lemma {:induction false} AmountIs(ms: seq<Movement>, overrides: seq<Override>, first: Monday, category: nat, week: int)
    ensures var amount := Sheet(ms, overrides, first).Amount(category, week);
      && (forall j :: LastFor(overrides, category, week, j) ==> amount == overrides[j].amount)
      && ((forall j :: !LastFor(overrides, category, week, j)) ==>
        amount == Total(CellDrafts(ms, category, week, first)))
  {
    hide CellDrafts, Total;
    if overrides != [] {
      var n := |overrides| - 1;
      AmountIs(ms, overrides[..n], first, category, week);
      var o := overrides[n];
      if o.category == category && o.week == week {
        assert LastFor(overrides, category, week, n);
        assert forall j :: LastFor(overrides, category, week, j) ==> !(j < n);
      } else {
        forall j
          ensures LastFor(overrides, category, week, j) <==> LastFor(overrides[..n], category, week, j)
        {
          assert forall k :: 0 <= k < n ==> overrides[..n][k] == overrides[k];
        }
      }
    }
  }

  /** What a cell shows besides its amount: every draft of its category in the seven days of its week, as
      often as it was drafted; and whether an override was given for it. */
  lemma CellShows(ms: seq<Movement>, overrides: seq<Override>, first: Monday, category: nat, week: int, m: Movement)
    requires week >= 1
    ensures var cell, monday := Sheet(ms, overrides, first).CellOf(category, week), first + 7 * (week - 1);
      && cell.contributions[m] == (if m.category == category && monday <= m.date < monday + 7 then multiset(ms)[m] else 0)
      && (cell.overridden <==> exists o :: o in overrides && o.category == category && o.week == week)
  {
    hide WeekIndex, CellDrafts, Sheet.Amount, OverrideAt;
    CellContributions(ms, category, week, first, m);
    WeekIndexIs(m.date, first, week);
    OverriddenIff(overrides, category, week);
  }

  lemma {:induction false} OverriddenIff(overrides: seq<Override>, category: nat, week: int)
    ensures OverrideAt(overrides, category, week).Some? <==>
      exists o :: o in overrides && o.category == category && o.week == week
  {
    if overrides != [] {
      var n := |overrides| - 1;
      OverriddenIff(overrides[..n], category, week);
      assert overrides == overrides[..n] + [overrides[n]];
    }
  }

  ghost predicate KnownTargets(overrides: seq<Override>) {
    forall i :: 0 <= i < |overrides| ==> overrides[i].category < CATEGORY_COUNT && overrides[i].week >= 1
  }

  function Without(overrides: seq<Override>, category: nat, week: int): seq<Override> {
    if overrides == [] then []
    else
      var n := |overrides| - 1;
      Without(overrides[..n], category, week)
        + if overrides[n].category == category && overrides[n].week == week then [] else [overrides[n]]
  }

  /** The overrides that count: for each cell the last one given. */
  function LastWins(overrides: seq<Override>): seq<Override> {
    if overrides == [] then []
    else
      var o := overrides[|overrides| - 1];
      Without(LastWins(overrides[..|overrides| - 1]), o.category, o.week) + [o]
  }

  /** Override minus engine, over the given overrides of the first weeks. */
  function Shift(overrides: seq<Override>, ms: seq<Movement>, first: Monday, weeks: nat): int
  {
    if overrides == [] then 0
    else
      var o := overrides[|overrides| - 1];
      Shift(overrides[..|overrides| - 1], ms, first, weeks)
        + if o.week <= weeks then o.amount - Sheet(ms, [], first).Engine(o.category, o.week) else 0
  }

  ghost predicate OnePerCell(overrides: seq<Override>) {
    forall i, j :: 0 <= i < j < |overrides| ==>
      overrides[i].category != overrides[j].category || overrides[i].week != overrides[j].week
  }

  lemma {:induction false} WithoutDropsOnlyThat(overrides: seq<Override>, category: nat, week: int)
    requires OnePerCell(overrides)
    ensures OnePerCell(Without(overrides, category, week))
    ensures forall o :: o in Without(overrides, category, week) <==>
      o in overrides && !(o.category == category && o.week == week)
  {
    if overrides != [] {
      var n := |overrides| - 1;
      var o, rest := overrides[n], Without(overrides[..n], category, week);
      WithoutDropsOnlyThat(overrides[..n], category, week);
      assert overrides == overrides[..n] + [o];
      assert rest + [] == rest;
      forall k | 0 <= k < |rest|
        ensures rest[k].category != o.category || rest[k].week != o.week
      {
        assert rest[k] in rest;
        assert rest[k] in overrides[..n];
      }
    }
  }

  lemma {:induction false} WithoutDecides(overrides: seq<Override>, category: nat, week: int, c: nat, w: int)
    ensures OverrideAt(Without(overrides, category, week), c, w)
         == if c == category && w == week then None else OverrideAt(overrides, c, w)
  {
    if overrides != [] {
      var n := |overrides| - 1;
      var o, rest := overrides[n], Without(overrides[..n], category, week);
      WithoutDecides(overrides[..n], category, week, c, w);
      assert (rest + [o])[..|rest|] == rest;
      assert rest + [] == rest;
    }
  }

  lemma {:induction false} LastWinsOncePerCell(overrides: seq<Override>)
    ensures OnePerCell(LastWins(overrides))
  {
    hide Without;
    if overrides != [] {
      var n := |overrides| - 1;
      var o, before := overrides[n], LastWins(overrides[..n]);
      var rest := Without(before, o.category, o.week);
      LastWinsOncePerCell(overrides[..n]);
      WithoutDropsOnlyThat(before, o.category, o.week);
      forall k | 0 <= k < |rest|
        ensures rest[k].category != o.category || rest[k].week != o.week
      {
        assert rest[k] in rest;
      }
    }
  }

  lemma {:induction false} LastWinsDecides(overrides: seq<Override>, c: nat, w: int)
    ensures OverrideAt(LastWins(overrides), c, w) == OverrideAt(overrides, c, w)
  {
    hide Without;
    if overrides != [] {
      var n := |overrides| - 1;
      var o, before := overrides[n], LastWins(overrides[..n]);
      var rest := Without(before, o.category, o.week);
      LastWinsDecides(overrides[..n], c, w);
      WithoutDecides(before, o.category, o.week, c, w);
      assert (rest + [o])[..|rest|] == rest;
    }
  }

  lemma {:induction false} ShiftWithout(overrides: seq<Override>, category: nat, week: int, ms: seq<Movement>,
                                        first: Monday, weeks: nat)
    requires OnePerCell(overrides)
    ensures Shift(overrides, ms, first, weeks)
         == Shift(Without(overrides, category, week), ms, first, weeks)
          + if week > weeks then 0
            else Sheet(ms, overrides, first).Amount(category, week) - Sheet(ms, [], first).Engine(category, week)
  {
    hide CellDrafts, Total;
    if overrides != [] {
      var n := |overrides| - 1;
      var o, rest := overrides[n], Without(overrides[..n], category, week);
      ShiftWithout(overrides[..n], category, week, ms, first, weeks);
      assert (rest + [o])[..|rest|] == rest;
      assert rest + [] == rest;
      if o.category == category && o.week == week {
        NoneAimedAt(overrides[..n], category, week);
      }
    }
  }

  lemma {:induction false} NoneAimedAt(overrides: seq<Override>, category: nat, week: int)
    requires forall i :: 0 <= i < |overrides| ==> overrides[i].category != category || overrides[i].week != week
    ensures OverrideAt(overrides, category, week) == None
  {
    if overrides != [] {
      NoneAimedAt(overrides[..|overrides| - 1], category, week);
    }
  }

  lemma {:induction false} WeekOverridden(ms: seq<Movement>, overrides: seq<Override>, o: Override, first: Monday,
                                          week: int, categories: nat)
    ensures Sheet(ms, overrides + [o], first).Week(week, categories)
         == Sheet(ms, overrides, first).Week(week, categories)
          + if o.week != week || o.category >= categories then 0
            else o.amount - Sheet(ms, overrides, first).Amount(o.category, week)
  {
    hide CellDrafts, Total;
    assert (overrides + [o])[..|overrides|] == overrides;
    if categories > 0 {
      WeekOverridden(ms, overrides, o, first, week, categories - 1);
    }
  }

  lemma {:induction false} ThroughOverridden(ms: seq<Movement>, overrides: seq<Override>, o: Override, first: Monday, weeks: nat)
    requires o.week >= 1 && o.category < CATEGORY_COUNT
    ensures Sheet(ms, overrides + [o], first).Through(weeks)
         == Sheet(ms, overrides, first).Through(weeks)
          + if o.week <= weeks then o.amount - Sheet(ms, overrides, first).Amount(o.category, o.week) else 0
  {
    hide Sheet.Week, Sheet.Amount;
    if weeks > 0 {
      ThroughOverridden(ms, overrides, o, first, weeks - 1);
      WeekOverridden(ms, overrides, o, first, weeks, CATEGORY_COUNT);
    }
  }

  /** Up to any week, the balance with overrides differs from the one without by the sum of override
      minus engine over the overrides that win. */
  lemma {:induction false} OverridesShiftBalances(ms: seq<Movement>, overrides: seq<Override>, first: Monday, weeks: nat)
    requires KnownTargets(overrides)
    ensures Sheet(ms, overrides, first).Through(weeks)
         == Sheet(ms, [], first).Through(weeks) + Shift(LastWins(overrides), ms, first, weeks)
  {
    hide Sheet.Week, Sheet.Through, Sheet.Amount, Sheet.Engine, OverrideAt, Without, Shift;
    if overrides == [] {
      NoShift(ms, first, weeks);
    } else {
      var n := |overrides| - 1;
      var o, before := overrides[n], LastWins(overrides[..n]);
      var rest := Without(before, o.category, o.week);
      OverridesShiftBalances(ms, overrides[..n], first, weeks);
      assert overrides == overrides[..n] + [o];
      ThroughOverridden(ms, overrides[..n], o, first, weeks);
      LastWinsOncePerCell(overrides[..n]);
      LastWinsAmount(overrides[..n], o.category, o.week, ms, first);
      ShiftWithout(before, o.category, o.week, ms, first, weeks);
      ShiftSnoc(rest, o, ms, first, weeks);
    }
  }

  lemma NoShift(ms: seq<Movement>, first: Monday, weeks: nat)
    ensures Shift([], ms, first, weeks) == 0
  {
  }

  lemma ShiftSnoc(overrides: seq<Override>, o: Override, ms: seq<Movement>, first: Monday, weeks: nat)
    ensures Shift(overrides + [o], ms, first, weeks)
         == Shift(overrides, ms, first, weeks)
          + if o.week <= weeks then o.amount - Sheet(ms, [], first).Engine(o.category, o.week) else 0
  {
    hide Sheet.Engine;
    assert (overrides + [o])[..|overrides|] == overrides;
  }

  lemma LastWinsAmount(overrides: seq<Override>, category: nat, week: int, ms: seq<Movement>, first: Monday)
    ensures Sheet(ms, LastWins(overrides), first).Amount(category, week) == Sheet(ms, overrides, first).Amount(category, week)
  {
    hide CellDrafts, Total, OverrideAt, LastWins;
    LastWinsDecides(overrides, category, week);
  }

  /** The same, said of two finished grids. */
  lemma ClosingsShiftByOverrides(i: Inputs, drafts: seq<Movement>, f: Forecast, plain: Forecast)
    requires i.Valid()
    requires IsGrid(f, i, Sheet(drafts, i.overrides, i.first))
    requires IsGrid(plain, i.(overrides := []), Sheet(drafts, [], i.first))
    ensures forall k :: 0 <= k < i.weeks ==>
      f.closing[k] == plain.closing[k] + Shift(LastWins(i.overrides), drafts, i.first, k + 1)
  {
    hide Sheet.Through, Sheet.Rows, Shift;
    forall k | 0 <= k < i.weeks
      ensures f.closing[k] == plain.closing[k] + Shift(LastWins(i.overrides), drafts, i.first, k + 1)
    {
      OverridesShiftBalances(drafts, i.overrides, i.first, k + 1);
    }
  }

  // ----- Rolling forward -----

  /** `roll_forward`: drop the first week, add one at the end, carry no override over. */
  function RollForward(i: Inputs, asOf: Date, opening: int): (r: Inputs)
  {
    i.(asOf := asOf, opening := opening, first := i.first + 7, overrides := [])
  }

  /** Nothing drives the grid but dated commitments. */
  ghost predicate DatedOnly(i: Inputs) {
    (i.curve.None? || i.invoices == []) && i.payables == []
  }

  /** Dated commitments are the same movements whatever the horizon. */
  lemma DatedIgnoreHorizon(i: Inputs, asOf: Date, opening: int)
    requires i.Valid() && DatedOnly(i)
    ensures var r := RollForward(i, asOf, opening);
      && r.Valid()
      && r.End() == i.End() + 7
      && AllMovements(i, []).Ok?
      && AllMovements(r, []) == AllMovements(i, [])
  {
    hide Curve.Valid, Closures.HasWorkday;
    assert Weekday(i.first + 7) == MONDAY;
  }

  ghost function SheetOf(i: Inputs): (sheet: Sheet)
    requires i.Valid() && DatedOnly(i)
  {
    DatedIgnoreHorizon(i, i.asOf, i.opening);
    Sheet(Kept(AllMovements(i, []).value, i.first, i.End()), i.overrides, i.first)
  }

  /** A rolled cell says what the prior grid's drivers said one week further on. */
  lemma RolledCell(i: Inputs, asOf: Date, opening: int, category: nat, week: int)
    requires i.Valid() && DatedOnly(i) && 1 <= week <= i.weeks - 1
    ensures RollForward(i, asOf, opening).Valid() && DatedOnly(RollForward(i, asOf, opening))
    ensures SheetOf(RollForward(i, asOf, opening)).Engine(category, week) == SheetOf(i).Engine(category, week + 1)
  {
    hide AllMovements, Kept, CellDrafts, Total, Weekday;
    DatedIgnoreHorizon(i, asOf, opening);
    var ms := AllMovements(i, []).value;
    CellTotalByDates(ms, category, week + 1, i.first, i.weeks);
    CellTotalByDates(ms, category, week, i.first + 7, i.weeks);
  }

  lemma {:induction false} RolledWeek(i: Inputs, asOf: Date, opening: int, week: int, categories: nat)
    requires i.Valid() && DatedOnly(i) && 1 <= week <= i.weeks - 1 && i.overrides == []
    requires RollForward(i, asOf, opening).Valid()
    ensures SheetOf(RollForward(i, asOf, opening)).Week(week, categories) == SheetOf(i).Week(week + 1, categories)
  {
    hide AllMovements, Kept, Sheet.Engine;
    if categories > 0 {
      RolledWeek(i, asOf, opening, week, categories - 1);
      RolledCell(i, asOf, opening, categories - 1, week);
    }
  }

  /** The balances of the two grids move together over the weeks they share. */
  lemma {:induction false} RolledThrough(i: Inputs, asOf: Date, opening: int, weeks: nat)
    requires i.Valid() && DatedOnly(i) && weeks <= i.weeks - 1 && i.overrides == []
    requires RollForward(i, asOf, opening).Valid()
    ensures SheetOf(i).Through(weeks + 1) == SheetOf(i).Through(1) + SheetOf(RollForward(i, asOf, opening)).Through(weeks)
  {
    hide AllMovements, Kept, Sheet.Week, Weekday;
    if weeks > 0 {
      RolledThrough(i, asOf, opening, weeks - 1);
      RolledWeek(i, asOf, opening, weeks, CATEGORY_COUNT);
    }
  }

  /** Opened with the prior week-1 closing, the rolled grid closes every shared week on the same balance. */
  lemma RolledClosingsCoincide(i: Inputs, asOf: Date, prior: Forecast, rolled: Forecast)
    requires i.Valid() && DatedOnly(i) && i.overrides == []
    requires IsGrid(prior, i, SheetOf(i))
    requires var r := RollForward(i, asOf, prior.closing[0]);
      r.Valid() && IsGrid(rolled, r, SheetOf(r))
    ensures forall k :: 0 <= k < i.weeks - 1 ==> rolled.weeks[k] == prior.weeks[k + 1]
    ensures forall k :: 0 <= k < i.weeks - 1 ==> rolled.closing[k] == prior.closing[k + 1]
  {
    hide SheetOf, Sheet.Through, Sheet.Rows, Weekday;
    forall k | 0 <= k < i.weeks - 1
      ensures rolled.closing[k] == prior.closing[k + 1]
    {
      RolledThrough(i, asOf, prior.closing[0], k + 1);
    }
  }
}
