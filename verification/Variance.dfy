/** The two variance bridges: closed week against forecast, and this forecast against the prior one. */
module Variance {
  import opened Arith
  import opened Forecasts
  import opened GridLaws
  import opened Gregorian
  import opened MapSums
  import opened Movements
  import opened OverrideLaws
  import opened Results
  import opened Schedules

  /** Settled cash of one closed week. A category name outside the closed list is a number outside it. */
  datatype ActualWeek = ActualWeek(weekStart: Date, weekEnd: Date, opening: int, byCategory: map<nat, int>)

  datatype Line = Line(category: nat, forecast: int, comparator: int, variance: int, material: bool)

  /** `None` is the summary of everything below the threshold. */
  datatype Row = Row(category: Option<nat>, forecast: int, comparator: int, variance: int, material: bool)

  datatype Bridge = Bridge(weekEnding: Date, rows: seq<Row>, closingVariance: int)

  datatype VarianceError = WeekNotInHorizon | UnknownCategories | NoSharedWeeks | NoSuchCell

  // ----- Gating -----

  function Only(lines: seq<Line>, material: bool): seq<Line> {
    if lines == [] then []
    else
      var n := |lines| - 1;
      Only(lines[..n], material) + if lines[n].material == material then [lines[n]] else []
  }

  function SumLines(lines: seq<Line>): Line {
    if lines == [] then Line(0, 0, 0, 0, false)
    else
      var t, l := SumLines(lines[..|lines| - 1]), lines[|lines| - 1];
      Line(0, t.forecast + l.forecast, t.comparator + l.comparator, t.variance + l.variance, false)
  }

  function RowOf(line: Line): Row {
    Row(Some(line.category), line.forecast, line.comparator, line.variance, line.material)
  }

  function RowsOf(lines: seq<Line>): (rows: seq<Row>)
    ensures |rows| == |lines| && forall i :: 0 <= i < |rows| ==> rows[i] == RowOf(lines[i])
  {
    seq(|lines|, i requires 0 <= i < |lines| => RowOf(lines[i]))
  }

  /** `_gate`: the material lines, and one summary of the rest if there is a rest. */
  function Gate(lines: seq<Line>): seq<Row> {
    var rest := Only(lines, false);
    var total := SumLines(rest);
    RowsOf(Only(lines, true))
      + if rest == [] then [] else [Row(None, total.forecast, total.comparator, total.variance, false)]
  }

  function RowVariance(rows: seq<Row>): int {
    if rows == [] then 0 else RowVariance(rows[..|rows| - 1]) + rows[|rows| - 1].variance
  }

  /** What `assert_ties` accepts. */
  predicate Ties(bridge: Bridge) {
    bridge.rows != [] ==> RowVariance(bridge.rows) == bridge.closingVariance
  }

  lemma {:induction false} GatingSplits(lines: seq<Line>)
    ensures var m, r, all := SumLines(Only(lines, true)), SumLines(Only(lines, false)), SumLines(lines);
      && m.forecast + r.forecast == all.forecast
      && m.comparator + r.comparator == all.comparator
      && m.variance + r.variance == all.variance
  {
    if lines != [] {
      var n := |lines| - 1;
      GatingSplits(lines[..n]);
      var kept := Only(lines[..n], lines[n].material);
      assert (kept + [lines[n]])[..|kept|] == kept;
      assert Only(lines, !lines[n].material) == Only(lines[..n], !lines[n].material);
    }
  }

  lemma {:induction false} RowsKeepVariance(lines: seq<Line>)
    ensures RowVariance(RowsOf(lines)) == SumLines(lines).variance
  {
    if lines != [] {
      var n := |lines| - 1;
      RowsKeepVariance(lines[..n]);
      assert RowsOf(lines)[..n] == RowsOf(lines[..n]);
    }
  }

  /** Whatever the threshold called material, the rows add up to the variance of all lines. */
  lemma GateTies(lines: seq<Line>)
    ensures RowVariance(Gate(lines)) == SumLines(lines).variance
  {
    hide Only, SumLines, RowVariance, RowsOf;
    var m, r := Only(lines, true), Only(lines, false);
    GatingSplits(lines);
    RowsKeepVariance(m);
    NoLines();
    if r == [] {
      assert Gate(lines) == RowsOf(m);
    } else {
      RowVarianceSnoc(RowsOf(m), Row(None, SumLines(r).forecast, SumLines(r).comparator, SumLines(r).variance, false));
    }
  }

  lemma NoLines()
    ensures SumLines([]).variance == 0
  {
  }

  lemma RowVarianceSnoc(rows: seq<Row>, row: Row)
    ensures RowVariance(rows + [row]) == RowVariance(rows) + row.variance
  {
    assert (rows + [row])[..|rows|] == rows;
  }

  /** The gated rows name exactly the lines at or above the threshold. */
  lemma {:induction false} GateNamesTheMaterial(lines: seq<Line>)
    ensures forall l :: l in Only(lines, true) <==> l in lines && l.material
    ensures forall row :: row in Gate(lines) && row.category.Some? <==> exists l :: l in lines && l.material && row == RowOf(l)
  {
    OnlyMembers(lines, true);
    var m := Only(lines, true);
    forall l | l in lines && l.material
      ensures RowOf(l) in Gate(lines)
    {
      var k :| 0 <= k < |m| && m[k] == l;
      assert Gate(lines)[k] == RowOf(l);
    }
    forall row | row in Gate(lines) && row.category.Some?
      ensures exists l :: l in lines && l.material && row == RowOf(l)
    {
      var k :| 0 <= k < |Gate(lines)| && Gate(lines)[k] == row;
      assert m[k] in m && row == RowOf(m[k]);
    }
  }

  lemma {:induction false} OnlyMembers(lines: seq<Line>, material: bool)
    ensures forall l :: l in Only(lines, material) <==> l in lines && l.material == material
  {
    if lines != [] {
      var n := |lines| - 1;
      OnlyMembers(lines[..n], material);
      assert lines == lines[..n] + [lines[n]];
    }
  }

  /** Every named row stands for a category whose variance reaches the threshold, and every such category
      is named; the variance of a row is what one side has more than the other. */
  ghost predicate Tells(rows: seq<Row>, forecast: nat -> int, comparator: nat -> int, threshold: int, sign: int) {
    && (forall row :: row in rows ==> row.variance == sign * (row.forecast - row.comparator))
    && (forall row :: row in rows && row.category.Some? ==>
      row.forecast == forecast(row.category.value) && row.comparator == comparator(row.category.value))
    && (forall c: nat :: c < CATEGORY_COUNT ==>
      ((exists row :: row in rows && row.category == Some(c)) <==> Abs(forecast(c) - comparator(c)) >= threshold))
    && (forall row :: row in rows && row.category.Some? ==> row.category.value < CATEGORY_COUNT)
    && (forall row :: row in rows ==> (row.material <==> row.category.Some?))
  }

  /** A line for each category, in order. */
  ghost predicate LinesOf(lines: seq<Line>, forecast: nat -> int, comparator: nat -> int, threshold: int, sign: int) {
    forall k :: 0 <= k < |lines| ==>
      && lines[k].category == k && lines[k].forecast == forecast(k) && lines[k].comparator == comparator(k)
      && lines[k].variance == sign * (lines[k].forecast - lines[k].comparator)
      && (lines[k].material <==> Abs(lines[k].forecast - lines[k].comparator) >= threshold)
  }

  lemma GateTells(lines: seq<Line>, forecast: nat -> int, comparator: nat -> int, threshold: int, sign: int)
    requires (sign == 1 || sign == -1) && |lines| == CATEGORY_COUNT
    requires LinesOf(lines, forecast, comparator, threshold, sign)
    ensures Tells(Gate(lines), forecast, comparator, threshold, sign)
  {
    hide Only, SumLines, Abs;
    GateNamesTheMaterial(lines);
    OnlyMembers(lines, false);
    SignOfSum(Only(lines, false), sign);
    forall l | l in lines
      ensures l.category < CATEGORY_COUNT && lines[l.category] == l
    {
      var k :| 0 <= k < |lines| && lines[k] == l;
    }
    forall c: nat | c < CATEGORY_COUNT && lines[c].material
      ensures exists row :: row in Gate(lines) && row.category == Some(c)
    {
      assert lines[c] in lines;
      assert RowOf(lines[c]) in Gate(lines);
    }
  }

  lemma {:induction false} SignOfSum(lines: seq<Line>, sign: int)
    requires forall l :: l in lines ==> l.variance == sign * (l.forecast - l.comparator)
    requires sign == 1 || sign == -1
    ensures var t := SumLines(lines);
      t.variance == sign * (t.forecast - t.comparator)
  {
    if lines != [] {
      SignOfSum(lines[..|lines| - 1], sign);
    }
  }

  function LineOf(category: nat, forecast: int, comparator: int, variance: int, threshold: int): Line {
    Line(category, forecast, comparator, variance, Abs(variance) >= threshold)
  }

  // ----- The closed week -----

  function FirstIndex(weeks: seq<Date>, week: Date): (r: int)
    ensures -1 <= r < |weeks|
    ensures r >= 0 ==> weeks[r] == week && week !in weeks[..r]
    ensures r == -1 <==> week !in weeks
  {
    if weeks == [] then -1
    else
      var n := |weeks| - 1;
      assert weeks == weeks[..n] + [weeks[n]];
      var r := FirstIndex(weeks[..n], week);
      assert r >= 0 ==> weeks[..n][..r] == weeks[..r];
      if r >= 0 then r else if weeks[n] == week then n else -1
  }

  function ActualOf(actual: ActualWeek, category: nat): int {
    if category in actual.byCategory then actual.byCategory[category] else 0
  }

  predicate AllKnown(byCategory: map<nat, int>) {
    forall c :: c in byCategory ==> c < CATEGORY_COUNT
  }

  function ActualLines(f: Forecast, actual: ActualWeek, week: int, threshold: int, categories: nat): Option<seq<Line>> {
    if categories == 0 then Some([])
    else
      var c := categories - 1;
      var before, cell := ActualLines(f, actual, week, threshold, c), Lookup(f.cells, c, week);
      if before.None? || cell.None? then None
      else
        var forecast, settled := cell.value.amount, ActualOf(actual, c);
        Some(before.value + [LineOf(c, forecast, settled, settled - forecast, threshold)])
  }

  function ActualBridge(f: Forecast, actual: ActualWeek, threshold: int): Result<Bridge, VarianceError> {
    var index := FirstIndex(f.weeks, actual.weekStart);
    if index < 0 then Err(WeekNotInHorizon)
    else if !AllKnown(actual.byCategory) then Err(UnknownCategories)
    else
      match ActualLines(f, actual, index + 1, threshold, CATEGORY_COUNT)
      case None => Err(NoSuchCell)
      case Some(lines) => Ok(Bridge(actual.weekEnd, Gate(lines), SumLines(lines).variance))
  }

  lemma {:induction false} MissingStaysMissing(f: Forecast, actual: ActualWeek, week: int, threshold: int, k: nat, n: nat)
    requires k <= n && ActualLines(f, actual, week, threshold, k).None?
    ensures ActualLines(f, actual, week, threshold, n).None?
  {
    hide Lookup;
    if k < n {
      MissingStaysMissing(f, actual, week, threshold, k, n - 1);
    }
  }

  /** `actual_vs_forecast`. */
  method ActualVsForecast(f: Forecast, actual: ActualWeek, threshold: int) returns (r: Result<Bridge, VarianceError>)
    ensures r == ActualBridge(f, actual, threshold)
  {
    hide Lookup, Gate;
    var index := FirstIndex(f.weeks, actual.weekStart);
    if index < 0 {
      return Err(WeekNotInHorizon);
    }
    if !AllKnown(actual.byCategory) {
      return Err(UnknownCategories);
    }
    var lines: seq<Line> := [];
    for c := 0 to CATEGORY_COUNT
      invariant ActualLines(f, actual, index + 1, threshold, c) == Some(lines)
    {
      var cell := CellAt(f.cells, c, index + 1);
      if cell.None? {
        MissingStaysMissing(f, actual, index + 1, threshold, c + 1, CATEGORY_COUNT);
        return Err(NoSuchCell);
      }
      var forecast, settled := cell.value.amount, ActualOf(actual, c);
      lines := lines + [LineOf(c, forecast, settled, settled - forecast, threshold)];
    }
    return Ok(Bridge(actual.weekEnd, Gate(lines), SumLines(lines).variance));
  }

  /** The closed-week bridge ties, for every threshold. */
  lemma ActualBridgeTies(f: Forecast, actual: ActualWeek, threshold: int)
    requires ActualBridge(f, actual, threshold).Ok?
    ensures Ties(ActualBridge(f, actual, threshold).value)
  {
    hide Gate, ActualLines;
    GateTies(ActualLines(f, actual, FirstIndex(f.weeks, actual.weekStart) + 1, threshold, CATEGORY_COUNT).value);
  }

  function ActualThrough(actual: ActualWeek, categories: nat): int {
    if categories == 0 then 0 else ActualThrough(actual, categories - 1) + ActualOf(actual, categories - 1)
  }

  lemma {:induction false} ActualThroughIsNetChange(actual: ActualWeek, categories: nat)
    requires forall c :: c in actual.byCategory ==> c < categories
    ensures ActualThrough(actual, categories) == MapSum(actual.byCategory)
    decreases categories
  {
    var m := actual.byCategory;
    if categories > 0 {
      var c: nat := categories - 1;
      var rest := actual.(byCategory := m - {c});
      ActualThroughIsNetChange(rest, c);
      SameBelow(actual, rest, c);
      if c in m {
        MapSumRemove(m, c);
      } else {
        assert m - {c} == m;
      }
    } else {
      assert m == map[];
    }
  }

  lemma {:induction false} SameBelow(a: ActualWeek, b: ActualWeek, categories: nat)
    requires forall c: nat :: c < categories ==> ActualOf(a, c) == ActualOf(b, c)
    ensures ActualThrough(a, categories) == ActualThrough(b, categories)
  {
    if categories > 0 {
      SameBelow(a, b, categories - 1);
    }
  }

  lemma {:induction false} ActualLinesOfGrid(f: Forecast, i: Inputs, sheet: Sheet, actual: ActualWeek, week: int,
                                             threshold: int, categories: nat)
    requires i.weeks >= 1 && IsGrid(f, i, sheet) && 1 <= week <= i.weeks && categories <= CATEGORY_COUNT
    ensures ActualLines(f, actual, week, threshold, categories).Some?
    ensures SumLines(ActualLines(f, actual, week, threshold, categories).value).variance
         == ActualThrough(actual, categories) - sheet.Week(week, categories)
  {
    hide Sheet.Rows, Sheet.Amount, Sheet.Through, Lookup, IsGrid, Abs, SumLines;
    NoLines();
    if categories > 0 {
      var c := categories - 1;
      ActualLinesOfGrid(f, i, sheet, actual, week, threshold, c);
      GridCell(f, i, sheet, c, week);
      var before := ActualLines(f, actual, week, threshold, c).value;
      var line := LineOf(c, sheet.Amount(c, week), ActualOf(actual, c), ActualOf(actual, c) - sheet.Amount(c, week), threshold);
      SumLinesSnoc(before, line);
    }
  }

  lemma SumLinesSnoc(lines: seq<Line>, line: Line)
    ensures SumLines(lines + [line]).variance == SumLines(lines).variance + line.variance
  {
    assert (lines + [line])[..|lines|] == lines;
  }

  /** Against a finished grid the closed-week bridge exists exactly when the week is in the horizon
      and every category is known, and its closing variance is the actual net change minus what the
      week was forecast to bring. */
  lemma ClosedWeekVariance(f: Forecast, i: Inputs, sheet: Sheet, actual: ActualWeek, threshold: int)
    requires i.weeks >= 1 && IsGrid(f, i, sheet)
    ensures ActualBridge(f, actual, threshold).Ok? <==> actual.weekStart in f.weeks && AllKnown(actual.byCategory)
    ensures ActualBridge(f, actual, threshold).Ok? ==>
      var week := FirstIndex(f.weeks, actual.weekStart) + 1;
      ActualBridge(f, actual, threshold).value.closingVariance
        == MapSum(actual.byCategory) - WeekTotal(f.cells, week)
  {
    hide Sheet.Rows, Sheet.Amount, Sheet.Through, ActualLines, Gate, MapSum, ActualThrough, WeekTotal, SumLines;
    if actual.weekStart in f.weeks && AllKnown(actual.byCategory) {
      var week := FirstIndex(f.weeks, actual.weekStart) + 1;
      ActualLinesOfGrid(f, i, sheet, actual, week, threshold, CATEGORY_COUNT);
      ActualThroughIsNetChange(actual, CATEGORY_COUNT);
      WeekTotalOfRows(sheet, CATEGORY_COUNT, i.weeks, week);
    }
  }

  function CellAmounts(sheet: Sheet, week: int): nat -> int {
    (category: nat) => sheet.Amount(category, week)
  }

  function Settled(actual: ActualWeek): nat -> int {
    (category: nat) => ActualOf(actual, category)
  }

  lemma {:induction false} ActualLinesTell(f: Forecast, i: Inputs, sheet: Sheet, actual: ActualWeek, week: int,
                                           threshold: int, categories: nat)
    requires i.weeks >= 1 && IsGrid(f, i, sheet) && 1 <= week <= i.weeks && categories <= CATEGORY_COUNT
    ensures var lines := ActualLines(f, actual, week, threshold, categories);
      && lines.Some? && |lines.value| == categories
      && LinesOf(lines.value, CellAmounts(sheet, week), Settled(actual), threshold, -1)
  {
    hide Sheet.Rows, Sheet.Amount, Sheet.Through, Lookup, IsGrid;
    if categories > 0 {
      ActualLinesTell(f, i, sheet, actual, week, threshold, categories - 1);
      GridCell(f, i, sheet, categories - 1, week);
    }
  }

  /** The rows of the closed week: actual less forecast, for exactly the categories where that reaches
      the threshold. A category without settled cash counts as zero. */
  lemma ClosedWeekRows(f: Forecast, i: Inputs, sheet: Sheet, actual: ActualWeek, threshold: int)
    requires i.weeks >= 1 && IsGrid(f, i, sheet) && ActualBridge(f, actual, threshold).Ok?
    ensures var b, week := ActualBridge(f, actual, threshold).value, FirstIndex(f.weeks, actual.weekStart) + 1;
      Tells(b.rows, CellAmounts(sheet, week), Settled(actual), threshold, -1) && b.weekEnding == actual.weekEnd
  {
    hide Sheet.Rows, Sheet.Through, ActualLines, Gate, SumLines, Tells, LinesOf;
    var week := FirstIndex(f.weeks, actual.weekStart) + 1;
    ActualLinesTell(f, i, sheet, actual, week, threshold, CATEGORY_COUNT);
    GateTells(ActualLines(f, actual, week, threshold, CATEGORY_COUNT).value, CellAmounts(sheet, week), Settled(actual),
              threshold, -1);
  }

  // ----- This forecast against the prior one -----

  function Shared(current: seq<Date>, prior: seq<Date>): seq<Date> {
    if current == [] then []
    else
      var n := |current| - 1;
      Shared(current[..n], prior) + if current[n] in prior then [current[n]] else []
  }

  /** The index a dictionary built from the weeks holds: the last one. */
  function LastIndex(weeks: seq<Date>, week: Date): (r: int)
    ensures -1 <= r < |weeks| && (r >= 0 ==> weeks[r] == week)
    ensures r == -1 <==> week !in weeks
  {
    if weeks == [] then -1
    else
      var n := |weeks| - 1;
      assert weeks == weeks[..n] + [weeks[n]];
      if weeks[n] == week then n else LastIndex(weeks[..n], week)
  }

  function SharedTotal(f: Forecast, category: nat, shared: seq<Date>): Option<int> {
    if shared == [] then Some(0)
    else
      var n := |shared| - 1;
      var before, cell := SharedTotal(f, category, shared[..n]), Lookup(f.cells, category, LastIndex(f.weeks, shared[n]) + 1);
      if before.None? || cell.None? then None else Some(before.value + cell.value.amount)
  }

  method SumShared(f: Forecast, category: nat, shared: seq<Date>) returns (total: Option<int>)
    ensures total == SharedTotal(f, category, shared)
  {
    hide Lookup;
    var sum := 0;
    for n := 0 to |shared|
      invariant SharedTotal(f, category, shared[..n]) == Some(sum)
    {
      assert shared[..n + 1][..n] == shared[..n];
      var cell := CellAt(f.cells, category, LastIndex(f.weeks, shared[n]) + 1);
      if cell.None? {
        TotalStaysMissing(f, category, shared, n + 1);
        return None;
      }
      sum := sum + cell.value.amount;
    }
    assert shared[..|shared|] == shared;
    return Some(sum);
  }

  lemma {:induction false} TotalStaysMissing(f: Forecast, category: nat, shared: seq<Date>, k: nat)
    requires k <= |shared| && SharedTotal(f, category, shared[..k]).None?
    ensures SharedTotal(f, category, shared).None?
    decreases |shared|
  {
    hide Lookup;
    if k < |shared| {
      var n := |shared| - 1;
      assert shared[..n][..k] == shared[..k];
      TotalStaysMissing(f, category, shared[..n], k);
    } else {
      assert shared[..k] == shared;
    }
  }

  function PriorLines(current: Forecast, prior: Forecast, shared: seq<Date>, threshold: int, categories: nat)
    : Option<seq<Line>>
  {
    if categories == 0 then Some([])
    else
      var c := categories - 1;
      var before := PriorLines(current, prior, shared, threshold, c);
      var now, then_ := SharedTotal(current, c, shared), SharedTotal(prior, c, shared);
      if before.None? || now.None? || then_.None? then None
      else Some(before.value + [LineOf(c, now.value, then_.value, now.value - then_.value, threshold)])
  }

  function PriorBridge(current: Forecast, prior: Forecast, threshold: int): Result<Bridge, VarianceError> {
    var shared := Shared(current.weeks, prior.weeks);
    if shared == [] then Err(NoSharedWeeks)
    else
      match PriorLines(current, prior, shared, threshold, CATEGORY_COUNT)
      case None => Err(NoSuchCell)
      case Some(lines) => Ok(Bridge(shared[|shared| - 1] + 6, Gate(lines), SumLines(lines).variance))
  }

  lemma {:induction false} LinesStayMissing(current: Forecast, prior: Forecast, shared: seq<Date>, threshold: int, k: nat, n: nat)
    requires k <= n && PriorLines(current, prior, shared, threshold, k).None?
    ensures PriorLines(current, prior, shared, threshold, n).None?
  {
    hide SharedTotal;
    if k < n {
      LinesStayMissing(current, prior, shared, threshold, k, n - 1);
    }
  }

  /** `forecast_vs_prior`. */
  method ForecastVsPrior(current: Forecast, prior: Forecast, threshold: int) returns (r: Result<Bridge, VarianceError>)
    ensures r == PriorBridge(current, prior, threshold)
  {
    hide SharedTotal, Gate, SumLines, Shared;
    var shared := Shared(current.weeks, prior.weeks);
    if shared == [] {
      return Err(NoSharedWeeks);
    }
    var lines: seq<Line> := [];
    for c := 0 to CATEGORY_COUNT
      invariant PriorLines(current, prior, shared, threshold, c) == Some(lines)
    {
      var now := SumShared(current, c, shared);
      var before := SumShared(prior, c, shared);
      if now.None? || before.None? {
        LinesStayMissing(current, prior, shared, threshold, c + 1, CATEGORY_COUNT);
        return Err(NoSuchCell);
      }
      lines := lines + [LineOf(c, now.value, before.value, now.value - before.value, threshold)];
    }
    return Ok(Bridge(shared[|shared| - 1] + 6, Gate(lines), SumLines(lines).variance));
  }

  /** The forecast-to-forecast bridge ties, for every threshold. */
  lemma PriorBridgeTies(current: Forecast, prior: Forecast, threshold: int)
    requires PriorBridge(current, prior, threshold).Ok?
    ensures Ties(PriorBridge(current, prior, threshold).value)
  {
    hide Gate, PriorLines, Shared;
    GateTies(PriorLines(current, prior, Shared(current.weeks, prior.weeks), threshold, CATEGORY_COUNT).value);
  }

  /** A quantity of a week, summed over the weeks of one horizon that another one has too. */
  function OverShared(g: Date -> int, weeks: seq<Date>, other: seq<Date>): int {
    if weeks == [] then 0
    else
      var n := |weeks| - 1;
      OverShared(g, weeks[..n], other) + if weeks[n] in other then g(weeks[n]) else 0
  }

  function SumOver(g: Date -> int, weeks: seq<Date>): int {
    if weeks == [] then 0 else SumOver(g, weeks[..|weeks| - 1]) + g(weeks[|weeks| - 1])
  }

  lemma {:induction false} SumOfShared(g: Date -> int, weeks: seq<Date>, other: seq<Date>)
    ensures SumOver(g, Shared(weeks, other)) == OverShared(g, weeks, other)
    ensures forall w :: w in Shared(weeks, other) <==> w in weeks && w in other
  {
    if weeks != [] {
      var n := |weeks| - 1;
      SumOfShared(g, weeks[..n], other);
      assert weeks == weeks[..n] + [weeks[n]];
      var before := Shared(weeks[..n], other);
      if weeks[n] in other {
        assert (before + [weeks[n]])[..|before|] == before;
      } else {
        assert before + [] == before;
      }
    }
  }

  lemma {:induction false} SumOverAdds(g: Date -> int, h: Date -> int, both: Date -> int, weeks: seq<Date>)
    requires forall k :: 0 <= k < |weeks| ==> both(weeks[k]) == g(weeks[k]) + h(weeks[k])
    ensures SumOver(both, weeks) == SumOver(g, weeks) + SumOver(h, weeks)
  {
    if weeks != [] {
      SumOverAdds(g, h, both, weeks[..|weeks| - 1]);
    }
  }

  lemma {:induction false} SumOverZero(g: Date -> int, weeks: seq<Date>)
    requires forall k :: 0 <= k < |weeks| ==> g(weeks[k]) == 0
    ensures SumOver(g, weeks) == 0
  {
    if weeks != [] {
      SumOverZero(g, weeks[..|weeks| - 1]);
    }
  }

  /** What a forecast says of one of its weeks, which is named by its Monday. */
  function Amounts(sheet: Sheet, category: nat): Date -> int {
    week => sheet.Amount(category, WeekIndex(week, sheet.first))
  }

  function Nets(sheet: Sheet, categories: nat): Date -> int {
    week => sheet.Week(WeekIndex(week, sheet.first), categories)
  }

  function SharedSums(sheet: Sheet, weeks: seq<Date>, other: seq<Date>): nat -> int {
    (category: nat) => OverShared(Amounts(sheet, category), weeks, other)
  }

  /** By how much the balance of a forecast moves in one of its weeks. */
  function Moves(f: Forecast): Date -> int {
    (week: Date) =>
      var k := FirstIndex(f.weeks, week);
      if 0 <= k < |f.closing| then f.closing[k] - (if k == 0 then f.opening else f.closing[k - 1]) else 0
  }

  lemma {:induction false} SharedTotalIs(f: Forecast, i: Inputs, sheet: Sheet, category: nat, shared: seq<Date>)
    requires i.weeks >= 1 && IsGrid(f, i, sheet) && sheet.first == i.first && category < CATEGORY_COUNT
    requires forall w :: w in shared ==> w in f.weeks
    ensures SharedTotal(f, category, shared) == Some(SumOver(Amounts(sheet, category), shared))
    decreases |shared|
  {
    hide Sheet.Rows, Sheet.Amount, Sheet.Through, Lookup, LastIndex, IsGrid, WeekIndex;
    if shared != [] {
      var n := |shared| - 1;
      SharedTotalIs(f, i, sheet, category, shared[..n]);
      var k := WeekOfGrid(f, i, sheet, shared[n]);
      GridCell(f, i, sheet, category, k + 1);
    }
  }

  /** The place of a week in a grid. */
  lemma WeekOfGrid(f: Forecast, i: Inputs, sheet: Sheet, week: Date) returns (k: nat)
    requires i.weeks >= 1 && IsGrid(f, i, sheet) && sheet.first == i.first && week in f.weeks
    ensures k < i.weeks && WeekIndex(week, sheet.first) == k + 1 && LastIndex(f.weeks, week) == FirstIndex(f.weeks, week) == k
  {
    hide Sheet.Rows, Sheet.Through, LastIndex, FirstIndex, WeekIndex;
    k :| 0 <= k < |f.weeks| && f.weeks[k] == week;
    WeekIndexIs(week, i.first, k + 1);
  }

  lemma MoveIsWeek(f: Forecast, i: Inputs, sheet: Sheet, week: Date)
    requires i.weeks >= 1 && IsGrid(f, i, sheet) && sheet.first == i.first && week in f.weeks
    ensures Moves(f)(week) == Nets(sheet, CATEGORY_COUNT)(week)
  {
    hide Sheet.Rows, Sheet.Week, LastIndex, FirstIndex, WeekIndex;
    var k := WeekOfGrid(f, i, sheet, week);
    assert sheet.Through(k + 1) == sheet.Through(k) + sheet.Week(k + 1, CATEGORY_COUNT);
  }

  /** The lines of two grids, category by category. */
  lemma {:induction false} PriorLinesOfGrids(current: Forecast, ci: Inputs, cs: Sheet, prior: Forecast, pi: Inputs, ps: Sheet,
                                             shared: seq<Date>, threshold: int, categories: nat)
    requires ci.weeks >= 1 && IsGrid(current, ci, cs) && cs.first == ci.first
    requires pi.weeks >= 1 && IsGrid(prior, pi, ps) && ps.first == pi.first
    requires shared == Shared(current.weeks, prior.weeks) && categories <= CATEGORY_COUNT
    ensures var lines := PriorLines(current, prior, shared, threshold, categories);
      && lines.Some? && |lines.value| == categories
      && LinesOf(lines.value, SharedSums(cs, current.weeks, prior.weeks), SharedSums(ps, current.weeks, prior.weeks),
                 threshold, 1)
      && SumLines(lines.value).variance
         == SumOver(Nets(cs, categories), shared) - SumOver(Nets(ps, categories), shared)
  {
    hide IsGrid, SharedTotal, Shared, OverShared, SumLines, Abs, Amounts, Nets, SumOver;
    NoLines();
    if categories == 0 {
      NetOfNothing(cs, shared);
      NetOfNothing(ps, shared);
    } else {
      var c := categories - 1;
      PriorLinesOfGrids(current, ci, cs, prior, pi, ps, shared, threshold, c);
      SumOfShared(Amounts(cs, c), current.weeks, prior.weeks);
      SharedTotalIs(current, ci, cs, c, shared);
      SharedTotalIs(prior, pi, ps, c, shared);
      OneCategoryMore(cs, c, shared);
      OneCategoryMore(ps, c, shared);
      SumOfShared(Amounts(ps, c), current.weeks, prior.weeks);
      var now, then_ := SumOver(Amounts(cs, c), shared), SumOver(Amounts(ps, c), shared);
      SumLinesSnoc(PriorLines(current, prior, shared, threshold, c).value, LineOf(c, now, then_, now - then_, threshold));
    }
  }

  lemma {:induction false} SumOverSame(g: Date -> int, h: Date -> int, weeks: seq<Date>)
    requires forall k :: 0 <= k < |weeks| ==> g(weeks[k]) == h(weeks[k])
    ensures SumOver(g, weeks) == SumOver(h, weeks)
  {
    if weeks != [] {
      SumOverSame(g, h, weeks[..|weeks| - 1]);
    }
  }

  lemma NetsAreMoves(f: Forecast, i: Inputs, sheet: Sheet, weeks: seq<Date>, other: seq<Date>)
    requires i.weeks >= 1 && IsGrid(f, i, sheet) && sheet.first == i.first
    requires forall w :: w in weeks && w in other ==> w in f.weeks
    ensures SumOver(Nets(sheet, CATEGORY_COUNT), Shared(weeks, other)) == OverShared(Moves(f), weeks, other)
  {
    hide IsGrid, Nets, Moves, Shared, OverShared, SumOver;
    SumOfShared(Moves(f), weeks, other);
    var shared := Shared(weeks, other);
    forall k | 0 <= k < |shared|
      ensures Nets(sheet, CATEGORY_COUNT)(shared[k]) == Moves(f)(shared[k])
    {
      assert shared[k] in shared;
      MoveIsWeek(f, i, sheet, shared[k]);
    }
    SumOverSame(Nets(sheet, CATEGORY_COUNT), Moves(f), Shared(weeks, other));
  }

  /** Of two finished grids there is a bridge exactly if they share a week. It closes on what the balance
      of this forecast moves by over the shared weeks, less what the prior one's does; its rows say so by
      category, and name exactly the categories whose change reaches the threshold; and it is dated on the
      Sunday of the last week they share. */
  lemma ForecastChange(current: Forecast, ci: Inputs, cs: Sheet, prior: Forecast, pi: Inputs, ps: Sheet, threshold: int)
    requires ci.weeks >= 1 && IsGrid(current, ci, cs) && cs.first == ci.first
    requires pi.weeks >= 1 && IsGrid(prior, pi, ps) && ps.first == pi.first
    ensures PriorBridge(current, prior, threshold).Ok? <==> exists w :: w in current.weeks && w in prior.weeks
    ensures PriorBridge(current, prior, threshold).Ok? ==>
      var b := PriorBridge(current, prior, threshold).value;
      && b.closingVariance
         == OverShared(Moves(current), current.weeks, prior.weeks) - OverShared(Moves(prior), current.weeks, prior.weeks)
      && Tells(b.rows, SharedSums(cs, current.weeks, prior.weeks), SharedSums(ps, current.weeks, prior.weeks), threshold, 1)
      && b.weekEnding - 6 in current.weeks && b.weekEnding - 6 in prior.weeks
      && (forall w :: w in current.weeks && w in prior.weeks ==> w <= b.weekEnding - 6)
  {
    hide IsGrid, Shared, OverShared, Moves, Tells, LinesOf, PriorLines, Gate, SumLines, SharedSums, SumOver, Nets;
    var shared := Shared(current.weeks, prior.weeks);
    SumOfShared(Moves(current), current.weeks, prior.weeks);
    if shared != [] {
      LastShared(current, ci, cs, prior.weeks);
      PriorLinesOfGrids(current, ci, cs, prior, pi, ps, shared, threshold, CATEGORY_COUNT);
      GateTells(PriorLines(current, prior, shared, threshold, CATEGORY_COUNT).value,
                SharedSums(cs, current.weeks, prior.weeks), SharedSums(ps, current.weeks, prior.weeks), threshold, 1);
      NetsAreMoves(current, ci, cs, current.weeks, prior.weeks);
      NetsAreMoves(prior, pi, ps, current.weeks, prior.weeks);
    }
  }

  lemma LastShared(f: Forecast, i: Inputs, sheet: Sheet, other: seq<Date>)
    requires i.weeks >= 1 && IsGrid(f, i, sheet) && Shared(f.weeks, other) != []
    ensures var shared := Shared(f.weeks, other);
      && shared[|shared| - 1] in shared
      && forall w :: w in f.weeks && w in other ==> w <= shared[|shared| - 1]
  {
    hide Sheet.Rows, Sheet.Through, Shared;
    LastOfShared(f.weeks, other);
  }

  lemma {:induction false} LastOfShared(weeks: seq<Date>, other: seq<Date>)
    requires Shared(weeks, other) != []
    ensures var shared := Shared(weeks, other);
      exists k :: 0 <= k < |weeks| && weeks[k] == shared[|shared| - 1] && forall j :: k < j < |weeks| ==> weeks[j] !in other
  {
    var n := |weeks| - 1;
    if weeks[n] !in other {
      assert Shared(weeks, other) == Shared(weeks[..n], other);
      LastOfShared(weeks[..n], other);
    }
  }

  lemma NetOfNothing(sheet: Sheet, shared: seq<Date>)
    ensures SumOver(Nets(sheet, 0), shared) == 0
  {
    SumOverZero(Nets(sheet, 0), shared);
  }

  lemma OneCategoryMore(sheet: Sheet, category: nat, shared: seq<Date>)
    ensures SumOver(Nets(sheet, category + 1), shared)
         == SumOver(Nets(sheet, category), shared) + SumOver(Amounts(sheet, category), shared)
  {
    hide Sheet.Amount, WeekIndex, SumOver;
    SumOverAdds(Nets(sheet, category), Amounts(sheet, category), Nets(sheet, category + 1), shared);
  }

  lemma {:induction false} SharedPrefix(current: seq<Date>, prior: seq<Date>, n: nat)
    requires n <= |current|
    requires forall k :: 0 <= k < |current| ==> (current[k] in prior <==> k < n)
    ensures Shared(current, prior) == current[..n]
  {
    if current != [] {
      var last := |current| - 1;
      if n <= last {
        SharedPrefix(current[..last], prior, n);
        assert current[..last][..n] == current[..n];
      } else {
        SharedPrefix(current[..last], prior, last);
        assert current[..last][..last] + [current[last]] == current[..n];
      }
    }
  }

  /** After a normal roll the shared weeks are weeks 1 to H-1 of the current grid and 2 to H of the
      prior one; a one-week horizon shares nothing. */
  lemma RolledWeeksShared(current: Forecast, ci: Inputs, cs: Sheet, prior: Forecast, pi: Inputs, ps: Sheet)
    requires pi.weeks >= 1 && ci.weeks == pi.weeks && ci.first == pi.first + 7
    requires IsGrid(current, ci, cs) && IsGrid(prior, pi, ps)
    ensures Shared(current.weeks, prior.weeks) == current.weeks[..pi.weeks - 1] == prior.weeks[1..]
  {
    hide Sheet.Rows, Sheet.Through, Weekday;
    forall k | 0 <= k < pi.weeks
      ensures current.weeks[k] in prior.weeks <==> k < pi.weeks - 1
    {
      if k < pi.weeks - 1 {
        assert current.weeks[k] == prior.weeks[k + 1];
      }
    }
    SharedPrefix(current.weeks, prior.weeks, pi.weeks - 1);
  }

  /** A run of consecutive weeks of a grid, summed over one category. */
  lemma {:induction false} SharedTotalOfGrid(f: Forecast, i: Inputs, sheet: Sheet, category: nat, shared: seq<Date>, offset: nat)
    requires i.weeks >= 1 && IsGrid(f, i, sheet) && category < CATEGORY_COUNT
    requires offset + |shared| <= i.weeks && forall k :: 0 <= k < |shared| ==> shared[k] == i.first + 7 * (offset + k)
    ensures SharedTotal(f, category, shared)
         == Some(sheet.Across(category, offset + |shared|) - sheet.Across(category, offset))
    decreases |shared|
  {
    hide Sheet.Rows, Sheet.Amount, Sheet.Through, Lookup, LastIndex, IsGrid;
    if shared != [] {
      var n := |shared| - 1;
      SharedTotalOfGrid(f, i, sheet, category, shared[..n], offset);
      LastIndexInGrid(f, i, sheet, offset + n);
      GridCell(f, i, sheet, category, offset + n + 1);
    }
  }

  lemma LastIndexInGrid(f: Forecast, i: Inputs, sheet: Sheet, k: nat)
    requires i.weeks >= 1 && IsGrid(f, i, sheet) && k < i.weeks
    ensures LastIndex(f.weeks, i.first + 7 * k) == k
  {
    hide Sheet.Rows, Sheet.Through, LastIndex;
    assert f.weeks[k] == i.first + 7 * k;
  }

  /** After a roll, a category's row compares weeks 1 to H-1 with the prior weeks 2 to H. */
  lemma RolledRow(current: Forecast, ci: Inputs, cs: Sheet, prior: Forecast, pi: Inputs, ps: Sheet, category: nat)
    requires pi.weeks >= 1 && ci.weeks == pi.weeks && ci.first == pi.first + 7
    requires IsGrid(current, ci, cs) && IsGrid(prior, pi, ps) && category < CATEGORY_COUNT
    ensures var shared, h := Shared(current.weeks, prior.weeks), pi.weeks;
      && SharedTotal(current, category, shared) == Some(cs.Across(category, h - 1))
      && SharedTotal(prior, category, shared) == Some(ps.Across(category, h) - ps.Amount(category, 1))
  {
    hide Sheet.Rows, Sheet.Amount, Sheet.Through, SharedTotal, Shared, Weekday;
    RolledWeeksShared(current, ci, cs, prior, pi, ps);
    var shared := Shared(current.weeks, prior.weeks);
    SharedTotalOfGrid(current, ci, cs, category, shared, 0);
    SharedTotalOfGrid(prior, pi, ps, category, shared, 1);
    FirstWeek(ps, category);
  }

  lemma FirstWeek(sheet: Sheet, category: nat)
    ensures sheet.Across(category, 0) == 0 && sheet.Across(category, 1) == sheet.Amount(category, 1)
  {
    hide Sheet.Amount;
  }

  lemma {:induction false} RolledAcross(i: Inputs, asOf: Date, opening: int, category: nat, weeks: nat)
    requires i.Valid() && DatedOnly(i) && weeks <= i.weeks - 1 && i.overrides == []
    requires RollForward(i, asOf, opening).Valid()
    ensures SheetOf(i).Across(category, weeks + 1) - SheetOf(i).Across(category, 1)
         == SheetOf(RollForward(i, asOf, opening)).Across(category, weeks)
  {
    hide SheetOf, Sheet.Engine, Weekday;
    SheetsKeepOverrides(i, asOf, opening);
    if weeks > 0 {
      RolledAcross(i, asOf, opening, category, weeks - 1);
      RolledCell(i, asOf, opening, category, weeks);
    }
  }

  lemma SheetsKeepOverrides(i: Inputs, asOf: Date, opening: int)
    requires i.Valid() && DatedOnly(i) && RollForward(i, asOf, opening).Valid()
    ensures SheetOf(i).overrides == i.overrides && SheetOf(RollForward(i, asOf, opening)).overrides == []
  {
    hide Kept, AllMovements;
  }

  lemma RolledLineIsFlat(i: Inputs, asOf: Date, opening: int, prior: Forecast, current: Forecast, category: nat)
    requires i.Valid() && DatedOnly(i) && i.overrides == [] && category < CATEGORY_COUNT
    requires RollForward(i, asOf, opening).Valid()
    requires IsGrid(prior, i, SheetOf(i))
    requires IsGrid(current, RollForward(i, asOf, opening), SheetOf(RollForward(i, asOf, opening)))
    ensures var shared := Shared(current.weeks, prior.weeks);
      SharedTotal(current, category, shared) == SharedTotal(prior, category, shared) != None
  {
    hide SheetOf, IsGrid, Sheet.Amount, Sheet.Across, SharedTotal, Shared, Weekday;
    var r := RollForward(i, asOf, opening);
    RolledRow(current, r, SheetOf(r), prior, i, SheetOf(i), category);
    RolledAcross(i, asOf, opening, category, i.weeks - 1);
    FirstWeek(SheetOf(i), category);
  }

  /** Dated commitments alone, no overrides: nothing changed in the weeks both grids cover. */
  lemma {:induction false} RolledLinesAreFlat(i: Inputs, asOf: Date, opening: int, prior: Forecast, current: Forecast,
                                              threshold: int, categories: nat)
    requires i.Valid() && DatedOnly(i) && i.overrides == [] && categories <= CATEGORY_COUNT
    requires RollForward(i, asOf, opening).Valid()
    requires IsGrid(prior, i, SheetOf(i))
    requires IsGrid(current, RollForward(i, asOf, opening), SheetOf(RollForward(i, asOf, opening)))
    ensures var lines := PriorLines(current, prior, Shared(current.weeks, prior.weeks), threshold, categories);
      && lines.Some?
      && SumLines(lines.value).variance == 0
      && forall k :: 0 <= k < |lines.value| ==> lines.value[k].variance == 0
  {
    hide SheetOf, IsGrid, SharedTotal, Shared, RollForward, DatedOnly, SumLines, Abs;
    NoLines();
    if categories > 0 {
      var c := categories - 1;
      RolledLinesAreFlat(i, asOf, opening, prior, current, threshold, c);
      RolledLineIsFlat(i, asOf, opening, prior, current, c);
      var shared := Shared(current.weeks, prior.weeks);
      var before := PriorLines(current, prior, shared, threshold, c).value;
      var total := SharedTotal(current, c, shared).value;
      SumLinesSnoc(before, LineOf(c, total, total, 0, threshold));
    }
  }

  lemma RolledVariancesAreZero(i: Inputs, asOf: Date, opening: int, prior: Forecast, current: Forecast, threshold: int)
    requires i.Valid() && DatedOnly(i) && i.overrides == [] && i.weeks >= 2
    requires RollForward(i, asOf, opening).Valid()
    requires IsGrid(prior, i, SheetOf(i))
    requires IsGrid(current, RollForward(i, asOf, opening), SheetOf(RollForward(i, asOf, opening)))
    ensures PriorBridge(current, prior, threshold).Ok?
    ensures PriorBridge(current, prior, threshold).value.closingVariance == 0
    ensures forall row :: row in PriorBridge(current, prior, threshold).value.rows ==> row.variance == 0
  {
    hide SheetOf, Sheet.Rows, Sheet.Through, PriorLines, Shared, Weekday, SumLines, Gate;
    var r := RollForward(i, asOf, opening);
    RolledWeeksShared(current, r, SheetOf(r), prior, i, SheetOf(i));
    RolledLinesAreFlat(i, asOf, opening, prior, current, threshold, CATEGORY_COUNT);
    FlatLinesGateFlat(PriorLines(current, prior, Shared(current.weeks, prior.weeks), threshold, CATEGORY_COUNT).value);
  }

  lemma FlatLinesGateFlat(lines: seq<Line>)
    requires forall k :: 0 <= k < |lines| ==> lines[k].variance == 0
    ensures forall row :: row in Gate(lines) ==> row.variance == 0
  {
    hide Only, SumLines;
    OnlyMembers(lines, true);
    OnlyMembers(lines, false);
    assert forall l :: l in lines ==> l.variance == 0;
    FlatSum(Only(lines, false));
    forall row | row in Gate(lines)
      ensures row.variance == 0
    {
      if row.category.Some? {
        var k :| 0 <= k < |Only(lines, true)| && row == RowOf(Only(lines, true)[k]);
        assert Only(lines, true)[k] in lines;
      }
    }
  }

  lemma {:induction false} FlatSum(lines: seq<Line>)
    requires forall l :: l in lines ==> l.variance == 0
    ensures SumLines(lines).variance == 0
  {
    if lines != [] {
      FlatSum(lines[..|lines| - 1]);
    }
  }
}
