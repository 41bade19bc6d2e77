/** What the trade drivers promise of a finished grid: receipts within what is owed, payables in full. */
module DriverTotals {
  import opened Allocation
  import opened Arith
  import opened Calendar
  import opened Drivers
  import opened Forecasts
  import opened GridLaws
  import opened Gregorian
  import opened Movements
  import opened Results
  import opened Schedules

  function CategoryTotal(ms: seq<Movement>, category: nat): int {
    if ms == [] then 0
    else
      var m := ms[|ms| - 1];
      CategoryTotal(ms[..|ms| - 1], category) + if m.category == category then m.amount else 0
  }

  lemma {:induction false} CategoryTotalConcat(a: seq<Movement>, b: seq<Movement>, category: nat)
    ensures CategoryTotal(a + b, category) == CategoryTotal(a, category) + CategoryTotal(b, category)
  {
    if b == [] {
      assert a + b == a;
    } else {
      assert (a + b)[..|a + b| - 1] == a + b[..|b| - 1];
      CategoryTotalConcat(a, b[..|b| - 1], category);
    }
  }

  lemma {:induction false} OneCategory(ms: seq<Movement>, category: nat)
    requires forall m :: m in ms ==> m.category == category
    ensures CategoryTotal(ms, category) == Total(ms)
  {
    if ms != [] {
      OneCategory(ms[..|ms| - 1], category);
    }
  }

  lemma {:induction false} OtherCategories(ms: seq<Movement>, category: nat)
    requires forall m :: m in ms ==> m.category != category
    ensures CategoryTotal(ms, category) == 0
  {
    if ms != [] {
      OtherCategories(ms[..|ms| - 1], category);
    }
  }

  lemma {:induction false} AcrossSnoc(ms: seq<Movement>, m: Movement, first: Monday, category: nat, weeks: nat)
    ensures Sheet(ms + [m], [], first).Across(category, weeks)
         == Sheet(ms, [], first).Across(category, weeks)
          + if m.category == category && 1 <= WeekIndex(m.date, first) <= weeks then m.amount else 0
  {
    hide WeekIndex, Sheet.Engine;
    if weeks > 0 {
      AcrossSnoc(ms, m, first, category, weeks - 1);
      EngineSnoc(ms, m, [], first, category, weeks);
    }
  }

  /** A category's row adds up to what was drafted in it. */
  lemma {:induction false} RowIsCategoryTotal(ms: seq<Movement>, first: Monday, category: nat, weeks: nat)
    requires forall m :: m in ms ==> first <= m.date < first + 7 * weeks
    ensures Sheet(ms, [], first).Across(category, weeks) == CategoryTotal(ms, category)
  {
    hide WeekIndex, Sheet.Across;
    if ms == [] {
      EmptyRow(first, category, weeks);
    } else {
      var n := |ms| - 1;
      RowIsCategoryTotal(ms[..n], first, category, weeks);
      AcrossSnoc(ms[..n], ms[n], first, category, weeks);
      assert ms == ms[..n] + [ms[n]];
      WeekReached(ms[n].date, first, weeks);
    }
  }

  lemma {:induction false} EmptyRow(first: Monday, category: nat, weeks: nat)
    ensures Sheet([], [], first).Across(category, weeks) == 0
  {
    if weeks > 0 {
      EmptyRow(first, category, weeks - 1);
    }
  }

  /** No other driver writes to the two trade categories. */
  lemma TradeCategoriesAreSeparate(i: Inputs, scheduled: seq<Movement>)
    requires i.Valid() && IsSchedule(scheduled) && AllMovements(i, scheduled).Ok?
    ensures Receivables(i).Ok?
    ensures var ms := Kept(AllMovements(i, scheduled).value, i.first, i.End());
      && CategoryTotal(ms, RECEIPTS_TRADE_AR) == Total(Kept(Receivables(i).value, i.first, i.End()))
      && CategoryTotal(ms, AP_TRADE) == Total(Kept(Payments(i), i.first, i.End()))
  {
    hide Kept, Receivables, Payments, Commitments, DatedMovements, Total, CategoryTotal;
    var start, end := i.first, i.End();
    var trade, other := Receivables(i).value, DatedMovements(i.otherReceipts, RECEIPTS_OTHER);
    KeptJoined(trade, other, scheduled, Payments(i), Commitments(i), start, end);
    KeptMembers(trade, start, end);
    KeptMembers(other, start, end);
    KeptMembers(scheduled, start, end);
    KeptMembers(Payments(i), start, end);
    KeptMembers(Commitments(i), start, end);
    TradeCategory(i);
    PaymentsCategory(i);
    DatedCategories(i);
    Separate(Kept(trade, start, end), Kept(other, start, end), Kept(scheduled, start, end), Kept(Payments(i), start, end),
             Kept(Commitments(i), start, end));
  }

  lemma Separate(a: seq<Movement>, b: seq<Movement>, c: seq<Movement>, d: seq<Movement>, e: seq<Movement>)
    requires forall m :: m in a ==> m.category == RECEIPTS_TRADE_AR
    requires forall m :: m in d ==> m.category == AP_TRADE
    requires forall m :: m in b || m in c || m in e ==> m.category != AP_TRADE && m.category != RECEIPTS_TRADE_AR
    ensures CategoryTotal(a + b + c + d + e, RECEIPTS_TRADE_AR) == Total(a)
    ensures CategoryTotal(a + b + c + d + e, AP_TRADE) == Total(d)
  {
    hide CategoryTotal, Total;
    JoinedTotal(a, b, c, d, e, RECEIPTS_TRADE_AR);
    JoinedTotal(a, b, c, d, e, AP_TRADE);
    OneCategory(a, RECEIPTS_TRADE_AR);
    OneCategory(d, AP_TRADE);
    OtherCategories(b, RECEIPTS_TRADE_AR);
    OtherCategories(c, RECEIPTS_TRADE_AR);
    OtherCategories(d, RECEIPTS_TRADE_AR);
    OtherCategories(e, RECEIPTS_TRADE_AR);
    OtherCategories(a, AP_TRADE);
    OtherCategories(b, AP_TRADE);
    OtherCategories(c, AP_TRADE);
    OtherCategories(e, AP_TRADE);
  }

  lemma JoinedTotal(a: seq<Movement>, b: seq<Movement>, c: seq<Movement>, d: seq<Movement>, e: seq<Movement>, k: nat)
    ensures CategoryTotal(a + b + c + d + e, k)
         == CategoryTotal(a, k) + CategoryTotal(b, k) + CategoryTotal(c, k) + CategoryTotal(d, k) + CategoryTotal(e, k)
  {
    hide CategoryTotal;
    CategoryTotalConcat(a, b, k);
    CategoryTotalConcat(a + b, c, k);
    CategoryTotalConcat(a + b + c, d, k);
    CategoryTotalConcat(a + b + c + d, e, k);
  }

  /** The two trade rows of a grid add up to what their drivers drafted inside the horizon. */
  lemma TradeRows(i: Inputs, scheduled: seq<Movement>)
    requires i.Valid() && IsSchedule(scheduled) && AllMovements(i, scheduled).Ok?
    ensures Receivables(i).Ok?
    ensures var sheet := Sheet(Kept(AllMovements(i, scheduled).value, i.first, i.End()), [], i.first);
      && sheet.Across(RECEIPTS_TRADE_AR, i.weeks) == Total(Kept(Receivables(i).value, i.first, i.End()))
      && sheet.Across(AP_TRADE, i.weeks) == Total(Kept(Payments(i), i.first, i.End()))
  {
    hide AllMovements, Kept, CategoryTotal, Total, Sheet.Across, Keeps;
    var all := AllMovements(i, scheduled).value;
    var ms := Kept(all, i.first, i.End());
    KeptMembers(all, i.first, i.End());
    forall m | m in ms
      ensures i.first <= m.date < i.first + 7 * i.weeks
    {
      KeepsDates(m, i.first, i.End());
    }
    TradeCategoriesAreSeparate(i, scheduled);
    RowIsCategoryTotal(ms, i.first, RECEIPTS_TRADE_AR, i.weeks);
    RowIsCategoryTotal(ms, i.first, AP_TRADE, i.weeks);
  }

  /** With collection probabilities between nothing and all, the trade receipts of the grid lie
      between nothing and everything customers owe. */
  lemma GridReceiptsWithinOwed(i: Inputs, scheduled: seq<Movement>)
    requires i.Valid() && IsSchedule(scheduled) && AllMovements(i, scheduled).Ok?
    requires i.curve.Some? ==> ProbabilitiesWithinOne(i.curve.value)
    ensures var sheet := Sheet(Kept(AllMovements(i, scheduled).value, i.first, i.End()), [], i.first);
      0 <= sheet.Across(RECEIPTS_TRADE_AR, i.weeks) <= OpenReceivables(i.invoices)
  {
    hide AllMovements, Kept, Sheet.Across, TradeMovements, ProbabilitiesWithinOne;
    TradeRows(i, scheduled);
    if i.curve.Some? && i.invoices != [] {
      TradeReceiptsBounded(i.invoices, i.curve.value, i.asOf, i.cal, i.first, i.End());
    } else {
      NothingKept(i.first, i.End());
      OwedNonNegative(i.invoices);
    }
  }

  lemma {:induction false} OwedNonNegative(invoices: seq<Invoice>)
    ensures OpenReceivables(invoices) >= 0
  {
    if invoices != [] {
      OwedNonNegative(invoices[..|invoices| - 1]);
    }
  }

  /** If the horizon has a payment run, every open payable is paid inside it, whenever it is due. */
  lemma GridPaysEveryPayable(i: Inputs, scheduled: seq<Movement>)
    requires i.Valid() && IsSchedule(scheduled) && AllMovements(i, scheduled).Ok? && 0 <= i.runWeekday <= 6
    ensures var sheet := Sheet(Kept(AllMovements(i, scheduled).value, i.first, i.End()), [], i.first);
      var runs := RunsOf(i.cal, i.runWeekday, i.first, i.End());
      sheet.Across(AP_TRADE, i.weeks) == if runs == [] then 0 else -OpenPayables(i.payables)
  {
    hide AllMovements, Kept, Sheet.Across, RunLands, ApMovements;
    TradeRows(i, scheduled);
    PaymentsCategory(i);
    NothingKept(i.first, i.End());
    var runs := RunsOf(i.cal, i.runWeekday, i.first, i.End());
    if i.payables != [] && runs != [] {
      ApPaysEverything(i.payables, runs);
      var paid := ApMovements(i.payables, runs);
      assert forall k :: 0 <= k < |paid| ==> paid[k] in paid;
      KeptWhole(paid, i.first, i.End());
    }
  }

  // ----- Every cell, list by list -----

  /** What a list of dated commitments brings in the seven days from a Monday. */
  function DueWithin(items: seq<Dated>, monday: Date): int {
    if items == [] then 0
    else
      var d := items[|items| - 1];
      DueWithin(items[..|items| - 1], monday) + if monday <= d.dueDate < monday + 7 then d.amount else 0
  }

  lemma {:induction false} DaysTotalConcat(a: seq<Movement>, b: seq<Movement>, category: nat, monday: Date)
    ensures DaysTotal(a + b, category, monday) == DaysTotal(a, category, monday) + DaysTotal(b, category, monday)
  {
    if b == [] {
      assert a + b == a;
    } else {
      assert (a + b)[..|a + b| - 1] == a + b[..|b| - 1];
      DaysTotalConcat(a, b[..|b| - 1], category, monday);
    }
  }

  lemma {:induction false} DaysTotalElsewhere(ms: seq<Movement>, category: nat, monday: Date)
    requires forall m :: m in ms ==> m.category != category
    ensures DaysTotal(ms, category, monday) == 0
  {
    if ms != [] {
      DaysTotalElsewhere(ms[..|ms| - 1], category, monday);
    }
  }

  lemma {:induction false} DaysTotalOfDated(items: seq<Dated>, own: nat, category: nat, monday: Date)
    ensures DaysTotal(DatedMovements(items, own), category, monday) == if category == own then DueWithin(items, monday) else 0
  {
    if items != [] {
      var n := |items| - 1;
      DaysTotalOfDated(items[..n], own, category, monday);
      assert DatedMovements(items, own)[..n] == DatedMovements(items[..n], own);
    }
  }

  lemma DaysTotalJoined(a: seq<Movement>, b: seq<Movement>, c: seq<Movement>, d: seq<Movement>, e: seq<Movement>,
                        category: nat, monday: Date)
    ensures DaysTotal(a + b + c + d + e, category, monday)
         == DaysTotal(a, category, monday) + DaysTotal(b, category, monday) + DaysTotal(c, category, monday)
          + DaysTotal(d, category, monday) + DaysTotal(e, category, monday)
  {
    hide DaysTotal;
    DaysTotalConcat(a, b, category, monday);
    DaysTotalConcat(a + b, c, category, monday);
    DaysTotalConcat(a + b + c, d, category, monday);
    DaysTotalConcat(a + b + c + d, e, category, monday);
  }

  lemma CommitmentDays(i: Inputs, category: nat, monday: Date)
    ensures DaysTotal(Commitments(i), category, monday)
         == (if category == TAX_SALES then DueWithin(i.salesTax, monday) else 0)
          + (if category == CAPEX then DueWithin(i.capex, monday) else 0)
          + (if category == INSURANCE_SOFTWARE then DueWithin(i.insurance, monday) else 0)
  {
    hide DaysTotal, DatedMovements, DueWithin;
    var sales, capex := DatedMovements(i.salesTax, TAX_SALES), DatedMovements(i.capex, CAPEX);
    DaysTotalConcat(sales + capex, DatedMovements(i.insurance, INSURANCE_SOFTWARE), category, monday);
    DaysTotalConcat(sales, capex, category, monday);
    DaysTotalOfDated(i.salesTax, TAX_SALES, category, monday);
    DaysTotalOfDated(i.capex, CAPEX, category, monday);
    DaysTotalOfDated(i.insurance, INSURANCE_SOFTWARE, category, monday);
  }

  /** What the drivers say of a cell is what its own list brings in the seven days of its week: other
      receipts, sales tax, capital expenditure and insurance by their due dates, trade receipts and payments
      by what their drivers drafted, and the scheduled categories by what was handed in. */
  lemma CellsByList(i: Inputs, scheduled: seq<Movement>, category: nat, week: int)
    requires i.Valid() && IsSchedule(scheduled) && AllMovements(i, scheduled).Ok?
    requires category < CATEGORY_COUNT && 1 <= week <= i.weeks
    ensures Receivables(i).Ok?
    ensures var monday := i.first + 7 * (week - 1);
      Sheet(Kept(AllMovements(i, scheduled).value, i.first, i.End()), i.overrides, i.first).Engine(category, week)
        == (match category
            case 0 => DaysTotal(Receivables(i).value, 0, monday)
            case 2 => DueWithin(i.otherReceipts, monday)
            case 6 => DaysTotal(Payments(i), 6, monday)
            case 9 => DueWithin(i.salesTax, monday)
            case 12 => DueWithin(i.capex, monday)
            case 13 => DueWithin(i.insurance, monday)
            case _ => DaysTotal(scheduled, category, monday))
  {
    hide Kept, Receivables, Payments, Commitments, DatedMovements, DaysTotal, DueWithin, CellDrafts, Total;
    var monday := i.first + 7 * (week - 1);
    var trade, other := Receivables(i).value, DatedMovements(i.otherReceipts, RECEIPTS_OTHER);
    CellTotalByDates(AllMovements(i, scheduled).value, category, week, i.first, i.weeks);
    DaysTotalJoined(trade, other, scheduled, Payments(i), Commitments(i), category, monday);
    DaysTotalOfDated(i.otherReceipts, RECEIPTS_OTHER, category, monday);
    CommitmentDays(i, category, monday);
    TradeCategory(i);
    PaymentsCategory(i);
    if category != RECEIPTS_TRADE_AR {
      DaysTotalElsewhere(trade, category, monday);
    }
    if category != AP_TRADE {
      DaysTotalElsewhere(Payments(i), category, monday);
    }
    if category !in SCHEDULED {
      DaysTotalElsewhere(scheduled, category, monday);
    }
  }
}
