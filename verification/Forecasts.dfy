/** The weekly grid of cash by category, its overrides and its running balances. */
module Forecasts {
  import opened Allocation
  import opened Calendar
  import opened Drivers
  import opened Gregorian
  import opened Movements
  import opened Results
  import opened Schedules

  datatype Override = Override(category: nat, week: int, amount: int)

  datatype BuildError = Split(error: Allocation.Error) | Runs(cadence: CadenceError) | OverrideOutsideHorizon

  datatype Inputs = Inputs(first: Monday, weeks: int, opening: int, undrawn: int, cal: BusinessCalendar, asOf: Date,
                           invoices: seq<Invoice>, curve: Option<Curve>, otherReceipts: seq<Dated>,
                           payables: seq<Payable>, runWeekday: int, salesTax: seq<Dated>, capex: seq<Dated>,
                           insurance: seq<Dated>, overrides: seq<Override>) {
    /** What the constructors check. */
    ghost predicate Valid() {
      && weeks >= 1
      && (curve.Some? ==> curve.value.Valid())
      && (forall i :: 0 <= i < |overrides| ==> overrides[i].category < CATEGORY_COUNT && overrides[i].week >= 1)
    }

    function End(): Date {
      first + 7 * weeks - 1
    }
  }

  /** The categories of the drivers whose movements are handed in: subscriptions, payroll, rent,
      estimated tax and debt service. */
  const SCHEDULED := {1, 3, 4, 5, 7, 8, 10, 11}

  ghost predicate IsSchedule(ms: seq<Movement>) {
    forall i :: 0 <= i < |ms| ==> ms[i].category in SCHEDULED
  }

  datatype Cell = Cell(category: nat, week: int, weekStart: Date, amount: int, contributions: multiset<Movement>,
                       overridden: bool)

  datatype Forecast = Forecast(opening: int, weeks: seq<Date>, cells: seq<Cell>, closing: seq<int>,
                               available: seq<int>, undrawn: int)

  // ----- What the drivers draft -----

  ghost function Receivables(i: Inputs): Result<seq<Movement>, Allocation.Error>
    requires i.Valid()
  {
    if i.curve.None? || i.invoices == [] then Ok([])
    else TradeMovements(i.invoices, i.curve.value, i.asOf, i.cal)
  }

  ghost function Payments(i: Inputs): seq<Movement>
    requires i.Valid()
  {
    if i.payables == [] || !(0 <= i.runWeekday <= 6) then []
    else PayablesDrafted(i.payables, i.cal, i.runWeekday, i.first, i.End())
  }

  /** The movements of every driver, before the horizon is applied. */
  ghost function AllMovements(i: Inputs, scheduled: seq<Movement>): Result<seq<Movement>, BuildError>
    requires i.Valid()
  {
    match Receivables(i)
    case Err(e) => Err(Split(e))
    case Ok(trade) =>
      if i.payables != [] && !(0 <= i.runWeekday <= 6) then Err(Runs(BadWeekday))
      else Ok(trade + DatedMovements(i.otherReceipts, RECEIPTS_OTHER) + scheduled + Payments(i)
              + Commitments(i))
  }

  /** The dated commitments that come after the payables. */
  ghost function Commitments(i: Inputs): seq<Movement> {
    DatedMovements(i.salesTax, TAX_SALES) + DatedMovements(i.capex, CAPEX) + DatedMovements(i.insurance, INSURANCE_SOFTWARE)
  }

  method BuildCommitments(builder: DraftBuilder, i: Inputs)
    modifies builder
    ensures builder.drafts == old(builder.drafts) + Kept(Commitments(i), builder.start, builder.end)
  {
    hide Kept, DatedMovements;
    var start, end := builder.start, builder.end;
    ghost var sales, capex := DatedMovements(i.salesTax, TAX_SALES), DatedMovements(i.capex, CAPEX);
    BuildDated(builder, i.salesTax, TAX_SALES);
    BuildDated(builder, i.capex, CAPEX);
    BuildDated(builder, i.insurance, INSURANCE_SOFTWARE);
    KeptConcat(sales, capex, start, end);
    KeptConcat(sales + capex, DatedMovements(i.insurance, INSURANCE_SOFTWARE), start, end);
  }

  /** The drivers, one after the other. */
  method Collect(i: Inputs, scheduled: seq<Movement>) returns (error: Option<BuildError>, drafts: seq<Movement>)
    requires i.Valid()
    ensures match AllMovements(i, scheduled)
      case Ok(ms) => error.None? && drafts == Kept(ms, i.first, i.End())
      case Err(e) => error == Some(e)
  {
    hide Kept, TradeMovements, PayablesDrafted, DatedMovements, Commitments;
    var builder := new DraftBuilder(i.first, i.End());
    drafts := [];
    NothingKept(i.first, i.End());
    if i.curve.Some? && i.invoices != [] {
      var failed := BuildTradeReceipts(builder, i.invoices, i.curve.value, i.asOf, i.cal);
      if failed.Some? {
        return Some(Split(failed.value)), [];
      }
    }
    ghost var trade, other := Receivables(i).value, DatedMovements(i.otherReceipts, RECEIPTS_OTHER);
    BuildDated(builder, i.otherReceipts, RECEIPTS_OTHER);
    BuildAll(builder, scheduled);
    var broken := BuildAp(builder, i.payables, i.cal, i.runWeekday);
    if broken.Some? {
      return Some(Runs(broken.value)), [];
    }
    BuildCommitments(builder, i);
    KeptJoined(trade, other, scheduled, Payments(i), Commitments(i), i.first, i.End());
    return None, builder.drafts;
  }

  lemma KeptJoined(a: seq<Movement>, b: seq<Movement>, c: seq<Movement>, d: seq<Movement>, e: seq<Movement>,
                   start: Date, end: Date)
    ensures Kept(a + b + c + d + e, start, end)
         == Kept(a, start, end) + Kept(b, start, end) + Kept(c, start, end) + Kept(d, start, end) + Kept(e, start, end)
  {
    hide Kept;
    KeptConcat(a, b, start, end);
    KeptConcat(a + b, c, start, end);
    KeptConcat(a + b + c, d, start, end);
    KeptConcat(a + b + c + d, e, start, end);
  }

  // ----- The sheet: what every cell and every balance is -----

  /** The override that decides a cell: the last one given for it. */
  function OverrideAt(overrides: seq<Override>, category: nat, week: int): Option<int> {
    if overrides == [] then None
    else
      var n := |overrides| - 1;
      if overrides[n].category == category && overrides[n].week == week then Some(overrides[n].amount)
      else OverrideAt(overrides[..n], category, week)
  }

  datatype Sheet = Sheet(drafts: seq<Movement>, overrides: seq<Override>, first: Monday) {
    /** What the drivers say about a cell. */
    function Engine(category: nat, week: int): int
    {
      Total(CellDrafts(drafts, category, week, first))
    }

    function Amount(category: nat, week: int): int
    {
      var override := OverrideAt(overrides, category, week);
      if override.Some? then override.value else Engine(category, week)
    }

    /** The first categories of one week. */
    function Week(week: int, categories: nat): int
    {
      if categories == 0 then 0 else Week(week, categories - 1) + Amount(categories - 1, week)
    }

    /** All categories of the first weeks. */
    function Through(weeks: nat): int
    {
      if weeks == 0 then 0 else Through(weeks - 1) + Week(weeks, CATEGORY_COUNT)
    }

    /** One category over the first weeks. */
    function Across(category: nat, weeks: nat): int
    {
      if weeks == 0 then 0 else Across(category, weeks - 1) + Amount(category, weeks)
    }

    function CellOf(category: nat, week: int): Cell
    {
      Cell(category, week, first + 7 * (week - 1), Amount(category, week),
           multiset(CellDrafts(drafts, category, week, first)), OverrideAt(overrides, category, week).Some?)
    }

    /** One category's cells, then all of them, in grid order. */
    function Row(category: nat, weeks: nat): (cells: seq<Cell>)
      ensures |cells| == weeks && forall w :: 0 <= w < weeks ==> cells[w] == CellOf(category, w + 1)
    {
      if weeks == 0 then [] else Row(category, weeks - 1) + [CellOf(category, weeks)]
    }

    function Rows(categories: nat, weeks: nat): (cells: seq<Cell>)
    {
      if categories == 0 then [] else Rows(categories - 1, weeks) + Row(categories - 1, weeks)
    }
  }

  // ----- The build -----

  function Drafted(grouped: map<(nat, int), seq<Movement>>, category: nat, week: int): seq<Movement> {
    if (category, week) in grouped then grouped[(category, week)] else []
  }

  method Group(drafts: seq<Movement>, first: Monday, weeks: int) returns (grouped: map<(nat, int), seq<Movement>>)
    ensures forall c: nat, w :: 1 <= w <= weeks ==> Drafted(grouped, c, w) == CellDrafts(drafts, c, w, first)
  {
    hide WeekIndex;
    grouped := map[];
    for i := 0 to |drafts|
      invariant forall c: nat, w :: 1 <= w <= weeks ==> Drafted(grouped, c, w) == CellDrafts(drafts[..i], c, w, first)
    {
      ghost var before := grouped;
      var d := drafts[i];
      var index := WeekIndex(d.date, first);
      if 1 <= index <= weeks {
        grouped := grouped[(d.category, index) := Drafted(grouped, d.category, index) + [d]];
      }
      assert drafts[..i + 1] == drafts[..i] + [d];
      forall c: nat, w | 1 <= w <= weeks
        ensures Drafted(grouped, c, w) == CellDrafts(drafts[..i + 1], c, w, first)
      {
        assert Drafted(before, c, w) == CellDrafts(drafts[..i], c, w, first);
      }
    }
    assert drafts[..|drafts|] == drafts;
  }

  method MapOverrides(overrides: seq<Override>) returns (chosen: map<(nat, int), int>)
    ensures forall c: nat, w :: OverrideAt(overrides, c, w) == if (c, w) in chosen then Some(chosen[(c, w)]) else None
    ensures forall k :: k in chosen <==> exists i :: 0 <= i < |overrides| && k == (overrides[i].category, overrides[i].week)
  {
    chosen := map[];
    for n := 0 to |overrides|
      invariant forall c: nat, w ::
        OverrideAt(overrides[..n], c, w) == if (c, w) in chosen then Some(chosen[(c, w)]) else None
      invariant forall k :: k in chosen <==> exists i :: 0 <= i < n && k == (overrides[i].category, overrides[i].week)
    {
      assert overrides[..n + 1][..n] == overrides[..n];
      chosen := chosen[(overrides[n].category, overrides[n].week) := overrides[n].amount];
    }
    assert overrides[..|overrides|] == overrides;
  }

  ghost predicate OverrideOutside(overrides: seq<Override>, weeks: int) {
    exists i :: 0 <= i < |overrides| && overrides[i].week > weeks
  }

  method AnyOutside(chosen: map<(nat, int), int>, weeks: int) returns (found: bool)
    ensures found <==> exists k :: k in chosen && k.1 > weeks
  {
    var keys := chosen.Keys;
    while keys != {}
      invariant keys <= chosen.Keys
      invariant forall k :: k in chosen && k !in keys ==> k.1 <= weeks
      decreases |keys|
    {
      var k :| k in keys;
      if k.1 > weeks {
        return true;
      }
      keys := keys - {k};
    }
    return false;
  }

  lemma OutsideIff(overrides: seq<Override>, chosen: map<(nat, int), int>, weeks: int)
    requires forall k :: k in chosen <==> exists i :: 0 <= i < |overrides| && k == (overrides[i].category, overrides[i].week)
    ensures OverrideOutside(overrides, weeks) <==> exists k :: k in chosen && k.1 > weeks
  {
    if i :| 0 <= i < |overrides| && overrides[i].week > weeks {
      assert (overrides[i].category, overrides[i].week) in chosen;
    }
  }

  /** One cell: the override where there is one, the drafts' total otherwise. */
  method FillCell(sheet: Sheet, category: nat, week: int, drafts: seq<Movement>, override: Option<int>)
    returns (cell: Cell)
    requires drafts == CellDrafts(sheet.drafts, category, week, sheet.first)
    requires override == OverrideAt(sheet.overrides, category, week)
    ensures cell == sheet.CellOf(category, week)
  {
    hide CellDrafts, OverrideAt, Total;
    var amount := TotalOf(drafts);
    if override.Some? {
      amount := override.value;
    }
    cell := Cell(category, week, sheet.first + 7 * (week - 1), amount, multiset(drafts), override.Some?);
  }

  method FillCells(sheet: Sheet, weeks: int, grouped: map<(nat, int), seq<Movement>>, chosen: map<(nat, int), int>)
    returns (cells: seq<Cell>)
    requires weeks >= 1
    requires forall c: nat, w :: 1 <= w <= weeks ==> Drafted(grouped, c, w) == CellDrafts(sheet.drafts, c, w, sheet.first)
    requires forall c: nat, w ::
      OverrideAt(sheet.overrides, c, w) == if (c, w) in chosen then Some(chosen[(c, w)]) else None
    ensures cells == sheet.Rows(CATEGORY_COUNT, weeks)
  {
    hide CellDrafts, OverrideAt, Total, Sheet.CellOf, Drafted;
    cells := [];
    for c := 0 to CATEGORY_COUNT
      invariant cells == sheet.Rows(c, weeks)
    {
      for w := 1 to weeks + 1
        invariant cells == sheet.Rows(c, weeks) + sheet.Row(c, w - 1)
      {
        var override := if (c, w) in chosen then Some(chosen[(c, w)]) else None;
        var cell := FillCell(sheet, c, w, Drafted(grouped, c, w), override);
        cells := cells + [cell];
      }
    }
  }

  /** `Money.sum`. */
  method TotalOf(ms: seq<Movement>) returns (total: int)
    ensures total == Total(ms)
  {
    total := 0;
    for i := 0 to |ms|
      invariant total == Total(ms[..i])
    {
      assert ms[..i + 1][..i] == ms[..i];
      total := total + ms[i].amount;
    }
    assert ms[..|ms|] == ms;
  }

  /** The amounts of one week, picked out of the whole grid. */
  function WeekTotal(cells: seq<Cell>, week: int): int {
    if cells == [] then 0
    else
      var n := |cells| - 1;
      WeekTotal(cells[..n], week) + if cells[n].week == week then cells[n].amount else 0
  }

  method SumWeek(cells: seq<Cell>, week: int) returns (total: int)
    ensures total == WeekTotal(cells, week)
  {
    total := 0;
    for i := 0 to |cells|
      invariant total == WeekTotal(cells[..i], week)
    {
      assert cells[..i + 1][..i] == cells[..i];
      if cells[i].week == week {
        total := total + cells[i].amount;
      }
    }
    assert cells[..|cells|] == cells;
  }

  lemma {:induction false} WeekTotalConcat(a: seq<Cell>, b: seq<Cell>, week: int)
    ensures WeekTotal(a + b, week) == WeekTotal(a, week) + WeekTotal(b, week)
  {
    if b == [] {
      assert a + b == a;
    } else {
      assert (a + b)[..|a + b| - 1] == a + b[..|b| - 1];
      WeekTotalConcat(a, b[..|b| - 1], week);
    }
  }

  lemma {:induction false} WeekTotalOfRow(sheet: Sheet, category: nat, weeks: nat, week: int)
    ensures WeekTotal(sheet.Row(category, weeks), week) == if 1 <= week <= weeks then sheet.Amount(category, week) else 0
  {
    hide Sheet.Amount;
    if weeks > 0 {
      WeekTotalOfRow(sheet, category, weeks - 1, week);
      var row := sheet.Row(category, weeks - 1);
      assert (row + [sheet.CellOf(category, weeks)])[..|row|] == row;
    }
  }

  lemma {:induction false} WeekTotalOfRows(sheet: Sheet, categories: nat, weeks: nat, week: int)
    requires 1 <= week <= weeks
    ensures WeekTotal(sheet.Rows(categories, weeks), week) == sheet.Week(week, categories)
  {
    hide Sheet.Amount, Sheet.Row, WeekTotal;
    if categories > 0 {
      WeekTotalOfRows(sheet, categories - 1, weeks, week);
      WeekTotalConcat(sheet.Rows(categories - 1, weeks), sheet.Row(categories - 1, weeks), week);
      WeekTotalOfRow(sheet, categories - 1, weeks, week);
    } else {
      NoCells(week);
    }
  }

  lemma NoCells(week: int)
    ensures WeekTotal([], week) == 0
  {
  }

  /** `build`. */
  method Build(i: Inputs, scheduled: seq<Movement>) returns (r: Result<Forecast, BuildError>)
    requires i.Valid()
    ensures match AllMovements(i, scheduled)
      case Err(e) => r == Err(e)
      case Ok(ms) =>
        if OverrideOutside(i.overrides, i.weeks) then r == Err(OverrideOutsideHorizon)
        else r.Ok? && IsGrid(r.value, i, Sheet(Kept(ms, i.first, i.End()), i.overrides, i.first))
  {
    hide AllMovements, Kept, Sheet.Week, Sheet.Rows, WeekTotal, OverrideAt, CellDrafts;
    var error, drafts := Collect(i, scheduled);
    if error.Some? {
      return Err(error.value);
    }
    ghost var sheet := Sheet(drafts, i.overrides, i.first);
    var weeks := seq(i.weeks, k => i.first + 7 * k);
    var grouped := Group(drafts, i.first, i.weeks);
    var chosen := MapOverrides(i.overrides);
    var outside := AnyOutside(chosen, i.weeks);
    OutsideIff(i.overrides, chosen, i.weeks);
    if outside {
      return Err(OverrideOutsideHorizon);
    }
    var cells := FillCells(Sheet(drafts, i.overrides, i.first), i.weeks, grouped, chosen);
    var closing: seq<int> := [];
    var running := i.opening;
    for w := 1 to i.weeks + 1
      invariant |closing| == w - 1 && running == i.opening + sheet.Through(w - 1)
      invariant forall k :: 0 <= k < w - 1 ==> closing[k] == i.opening + sheet.Through(k + 1)
    {
      var total := SumWeek(cells, w);
      WeekTotalOfRows(sheet, CATEGORY_COUNT, i.weeks, w);
      running := running + total;
      closing := closing + [running];
    }
    var available := seq(|closing|, k requires 0 <= k < |closing| => closing[k] + i.undrawn);
    return Ok(Forecast(i.opening, weeks, cells, closing, available, i.undrawn));
  }

  ghost predicate IsGrid(f: Forecast, i: Inputs, sheet: Sheet)
    requires i.weeks >= 1
  {
    && f.opening == i.opening
    && f.undrawn == i.undrawn
    && |f.weeks| == |f.closing| == |f.available| == i.weeks
    && f.cells == sheet.Rows(CATEGORY_COUNT, i.weeks)
    && (forall k :: 0 <= k < i.weeks ==>
      && f.weeks[k] == i.first + 7 * k
      && f.closing[k] == i.opening + sheet.Through(k + 1)
      && f.available[k] == f.closing[k] + i.undrawn)
  }
}
