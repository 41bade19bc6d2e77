/** The drivers that turn receivables, payables and commitments into dated movements. */
module Drivers {
  import opened Allocation
  import opened Arith
  import opened Calendar
  import opened Gregorian
  import opened Movements
  import opened Results
  import opened Schedules
  import opened Seqs

  const BPS := 10_000

  // ----- Inputs -----

  datatype Bucket = CURRENT | TO_30 | TO_60 | TO_90 | OVER_90

  function AgingBucket(daysPastDue: int): Bucket {
    if daysPastDue <= 0 then CURRENT
    else if daysPastDue <= 30 then TO_30
    else if daysPastDue <= 60 then TO_60
    else if daysPastDue <= 90 then TO_90
    else OVER_90
  }

  datatype Lag = Lag(weightBps: int, days: int)

  function WeightsOf(lags: seq<Lag>): (w: seq<int>)
    ensures |w| == |lags| && forall i :: 0 <= i < |lags| ==> w[i] == lags[i].weightBps
  {
    seq(|lags|, i requires 0 <= i < |lags| => lags[i].weightBps)
  }

  /** The lag mixtures per segment, the collection probability per bucket, the dispute haircut. */
  datatype Curve = Curve(mixtures: map<string, seq<Lag>>, probabilityBps: map<Bucket, int>, haircutBps: int) {
    /** What the constructor checks. */
    ghost predicate Valid() {
      && "default" in mixtures
      && (forall s :: s in mixtures ==> mixtures[s] != [] && Sum(WeightsOf(mixtures[s])) == BPS)
      && (forall b: Bucket :: b in probabilityBps)
    }

    function MixtureFor(segment: Option<string>): (lags: seq<Lag>)
      requires Valid()
      ensures lags != [] && Sum(WeightsOf(lags)) == BPS
    {
      if segment.Some? && segment.value in mixtures then mixtures[segment.value] else mixtures["default"]
    }

    function Probability(bucket: Bucket, disputed: bool): int
      requires Valid()
    {
      if disputed then probabilityBps[bucket] * haircutBps / BPS else probabilityBps[bucket]
    }
  }

  datatype Invoice = Invoice(reference: string, open: int, dueDate: Date, segment: Option<string>, disputed: bool,
                             promise: Option<Date>)

  datatype Payable = Payable(reference: string, open: int, dueDate: Date)

  datatype Dated = Dated(reference: string, amount: int, dueDate: Date)

  /** `_DraftBuilder`. */
  class DraftBuilder {
    const start: Date
    const end: Date
    var drafts: seq<Movement>

    constructor (start: Date, end: Date)
      ensures this.start == start && this.end == end && drafts == []
    {
      this.start, this.end := start, end;
      drafts := [];
    }

    method Add(m: Movement)
      modifies this
      ensures drafts == old(drafts) + Kept([m], start, end)
    {
      assert [m][..0] == [];
      if m.amount == 0 {
        return;
      }
      if !(start <= m.date <= end) {
        return;
      }
      drafts := drafts + [m];
    }
  }

  // ----- Trade receipts -----

  /** The part of an open balance expected at all, floored to minor units. */
  function Expected(invoice: Invoice, curve: Curve, asOf: Date): int
    requires curve.Valid()
  {
    if invoice.open <= 0 then 0
    else invoice.open * curve.Probability(AgingBucket(asOf - invoice.dueDate), invoice.disputed) / BPS
  }

  ghost function Landing(cal: BusinessCalendar, day: Date): Date
  {
    Adjusted(cal, day, FOLLOWING)
  }

  ghost function LagMovements(invoice: Invoice, lags: seq<Lag>, parts: seq<int>, cal: BusinessCalendar): (ms: seq<Movement>)
    requires |parts| == |lags|
    ensures |ms| == |parts| && forall i :: 0 <= i < |ms| ==> ms[i].amount == parts[i] && ms[i].category == RECEIPTS_TRADE_AR
  {
    seq(|lags|, i requires 0 <= i < |lags| =>
      Movement(RECEIPTS_TRADE_AR, Landing(cal, invoice.dueDate + lags[i].days), parts[i], invoice.reference))
  }

  /** What one invoice is expected to bring, before the horizon is applied. */
  ghost function InvoiceMovements(invoice: Invoice, curve: Curve, asOf: Date, cal: BusinessCalendar)
    : Result<seq<Movement>, Error>
    requires curve.Valid()
  {
    var expected := Expected(invoice, curve, asOf);
    if invoice.open <= 0 || expected == 0 then Ok([])
    else if invoice.promise.Some? then
      Ok([Movement(RECEIPTS_TRADE_AR, Landing(cal, invoice.promise.value), expected, invoice.reference)])
    else
      var lags := curve.MixtureFor(invoice.segment);
      match Allocated(expected, WeightsOf(lags))
      case Err(e) => Err(e)
      case Ok(parts) =>
        AllocatedLength(expected, WeightsOf(lags));
        Ok(LagMovements(invoice, lags, parts, cal))
  }

  lemma AllocatedLength(amount: int, ratios: seq<int>)
    requires Allocated(amount, ratios).Ok?
    ensures |Allocated(amount, ratios).value| == |ratios|
  {
  }

  ghost function TradeMovements(invoices: seq<Invoice>, curve: Curve, asOf: Date, cal: BusinessCalendar)
    : Result<seq<Movement>, Error>
    requires curve.Valid()
  {
    if invoices == [] then Ok([])
    else
      var n := |invoices| - 1;
      match TradeMovements(invoices[..n], curve, asOf, cal)
      case Err(e) => Err(e)
      case Ok(before) =>
        match InvoiceMovements(invoices[n], curve, asOf, cal)
        case Err(e) => Err(e)
        case Ok(ms) => Ok(before + ms)
  }

  /** `_build_trade_receipts`; a negative lag weight makes the split raise. Where nothing is raised, the
      builder gets the drafts of each invoice, as far as they fall into the horizon. */
  method BuildTradeReceipts(builder: DraftBuilder, invoices: seq<Invoice>, curve: Curve, asOf: Date,
                            cal: BusinessCalendar) returns (error: Option<Error>)
    requires curve.Valid()
    modifies builder
    ensures match TradeMovements(invoices, curve, asOf, cal)
      case Ok(ms) => error.None? && builder.drafts == old(builder.drafts) + Kept(ms, builder.start, builder.end)
      case Err(e) => error == Some(e)
    ensures error.None? ==> exists ms ::
      TradeDrafts(invoices, curve, asOf, cal, ms) && builder.drafts == old(builder.drafts) + Kept(ms, builder.start, builder.end)
  {
    hide Kept, InvoiceMovements, TradeDrafts;
    ghost var done: seq<Movement> := [];
    NothingKept(builder.start, builder.end);
    for i := 0 to |invoices|
      invariant TradeMovements(invoices[..i], curve, asOf, cal) == Ok(done)
      invariant builder.drafts == old(builder.drafts) + Kept(done, builder.start, builder.end)
    {
      assert invoices[..i + 1][..i] == invoices[..i];
      error := BuildInvoice(builder, invoices[i], curve, asOf, cal);
      if error.Some? {
        TradeErrorStays(invoices, curve, asOf, cal, i + 1);
        return;
      }
      ghost var ms := InvoiceMovements(invoices[i], curve, asOf, cal).value;
      KeptConcat(done, ms, builder.start, builder.end);
      done := done + ms;
    }
    assert invoices[..|invoices|] == invoices;
    TradeMovementsAreDrafts(invoices, curve, asOf, cal);
    error := None;
  }

  lemma NothingKept(start: Date, end: Date)
    ensures Kept([], start, end) == []
  {
  }

  lemma {:induction false} TradeErrorStays(invoices: seq<Invoice>, curve: Curve, asOf: Date, cal: BusinessCalendar, k: nat)
    requires curve.Valid()
    requires k <= |invoices| && TradeMovements(invoices[..k], curve, asOf, cal).Err?
    ensures TradeMovements(invoices, curve, asOf, cal) == TradeMovements(invoices[..k], curve, asOf, cal)
    decreases |invoices|
  {
    hide InvoiceMovements;
    if k < |invoices| {
      var n := |invoices| - 1;
      assert invoices[..n][..k] == invoices[..k];
      TradeErrorStays(invoices[..n], curve, asOf, cal, k);
    } else {
      assert invoices[..k] == invoices;
    }
  }

  /** The body of the loop: one invoice. */
  method BuildInvoice(builder: DraftBuilder, invoice: Invoice, curve: Curve, asOf: Date, cal: BusinessCalendar)
    returns (error: Option<Error>)
    requires curve.Valid()
    modifies builder
    ensures match InvoiceMovements(invoice, curve, asOf, cal)
      case Ok(ms) => error.None? && builder.drafts == old(builder.drafts) + Kept(ms, builder.start, builder.end)
      case Err(e) => error == Some(e) && builder.drafts == old(builder.drafts)
  {
    hide Kept, Adjusted, Allocated;
    NothingKept(builder.start, builder.end);
    error := None;
    if invoice.open <= 0 {
      return;
    }
    var bucket := AgingBucket(asOf - invoice.dueDate);
    var probability := curve.Probability(bucket, invoice.disputed);
    var expected := invoice.open * probability / BPS;
    if expected == 0 {
      return;
    }
    if invoice.promise.Some? {
      var landing := Adjust(cal, invoice.promise.value, FOLLOWING);
      builder.Add(Movement(RECEIPTS_TRADE_AR, landing, expected, invoice.reference));
      return;
    }
    var lags := curve.MixtureFor(invoice.segment);
    var split := Allocate(expected, WeightsOf(lags));
    if split.Err? {
      return Some(split.error);
    }
    var parts := split.value;
    AllocatedLength(expected, WeightsOf(lags));
    ghost var all := LagMovements(invoice, lags, parts, cal);
    assert all[..0] == [];
    for i := 0 to |lags|
      invariant builder.drafts == old(builder.drafts) + Kept(all[..i], builder.start, builder.end)
    {
      var landing := Adjust(cal, invoice.dueDate + lags[i].days, FOLLOWING);
      assert all[..i + 1] == all[..i] + [all[i]];
      KeptConcat(all[..i], [all[i]], builder.start, builder.end);
      builder.Add(Movement(RECEIPTS_TRADE_AR, landing, parts[i], invoice.reference));
    }
    assert all[..|lags|] == all;
  }

  // ----- What the drafts of an invoice are -----

  /** `q` is `n` ten-thousandths, rounded down. */
  predicate IsFloor(q: int, n: int) {
    q * 10_000 <= n < q * 10_000 + 10_000
  }

  /** `p` is the chance, in hundredths of a percent, that a balance so many days past due is collected:
      what the curve says of its age, cut by the haircut and rounded down where the invoice is disputed. */
  ghost predicate IsChance(curve: Curve, daysPastDue: int, disputed: bool, p: int)
    requires curve.Valid()
  {
    exists bucket: Bucket :: IsAge(daysPastDue, bucket)
      && if disputed then IsFloor(p, curve.probabilityBps[bucket] * curve.haircutBps) else p == curve.probabilityBps[bucket]
  }

  /** Not yet due, one to thirty days late, and so on in steps of thirty days. */
  predicate IsAge(daysPastDue: int, bucket: Bucket) {
    match bucket
    case CURRENT => daysPastDue <= 0
    case TO_30 => 1 <= daysPastDue <= 30
    case TO_60 => 31 <= daysPastDue <= 60
    case TO_90 => 61 <= daysPastDue <= 90
    case OVER_90 => 91 <= daysPastDue
  }

  /** The first business day that is not before `day`. */
  ghost predicate FirstOpen(cal: BusinessCalendar, day: Date, landing: Date) {
    day <= landing && cal.IsBusinessDay(landing) && forall x :: day <= x < landing ==> !cal.IsBusinessDay(x)
  }

  /** Everything of a total on the first business day from a promised date. */
  ghost predicate OnPromise(invoice: Invoice, promise: Date, total: int, cal: BusinessCalendar, ms: seq<Movement>) {
    |ms| == 1 && ms[0].amount == total && FirstOpen(cal, promise, ms[0].date)
  }

  /** One draft for each mode of the lag: on the first business day from so many days after the due date,
      and within one unit of its share of the total. */
  ghost predicate ByLags(invoice: Invoice, lags: seq<Lag>, total: int, cal: BusinessCalendar, ms: seq<Movement>) {
    && |ms| == |lags|
    && (forall i :: 0 <= i < |ms| ==> FirstOpen(cal, invoice.dueDate + lags[i].days, ms[i].date))
    && (forall i :: 0 <= i < |ms| ==> Abs(ms[i].amount * 10_000 - total * lags[i].weightBps) <= 10_000)
  }

  /** The drafts of one invoice, before the horizon is applied. Nothing is drafted for a balance that is
      not open; otherwise what is expected of it is drafted to the last unit, on the promised date where
      there is one, and by the lags of its segment, or of the default, where there is none. */
  ghost predicate InvoiceDrafts(invoice: Invoice, curve: Curve, asOf: Date, cal: BusinessCalendar, ms: seq<Movement>)
    requires curve.Valid()
  {
    && (forall i :: 0 <= i < |ms| ==> ms[i].category == RECEIPTS_TRADE_AR && ms[i].reference == invoice.reference)
    && (invoice.open <= 0 ==> ms == [])
    && (invoice.open > 0 ==>
      && (exists p :: IsChance(curve, asOf - invoice.dueDate, invoice.disputed, p) && IsFloor(Total(ms), invoice.open * p))
      && (ms == [] || if invoice.promise.Some? then OnPromise(invoice, invoice.promise.value, Total(ms), cal, ms)
                      else ByLags(invoice, LagsOf(curve, invoice.segment), Total(ms), cal, ms)))
  }

  function LagsOf(curve: Curve, segment: Option<string>): seq<Lag>
    requires curve.Valid()
  {
    match segment
    case Some(name) => if name in curve.mixtures then curve.mixtures[name] else curve.mixtures["default"]
    case None => curve.mixtures["default"]
  }

  lemma ChanceIs(curve: Curve, daysPastDue: int, disputed: bool)
    requires curve.Valid()
    ensures IsChance(curve, daysPastDue, disputed, curve.Probability(AgingBucket(daysPastDue), disputed))
  {
    var bucket := AgingBucket(daysPastDue);
    assert IsAge(daysPastDue, bucket);
    FlooredIs(curve.probabilityBps[bucket] * curve.haircutBps);
  }

  lemma FlooredIs(n: int)
    ensures IsFloor(n / BPS, n)
  {
    FloorIff(n, BPS, n / BPS);
  }

  lemma ExpectedIs(invoice: Invoice, curve: Curve, asOf: Date)
    requires curve.Valid() && invoice.open > 0
    ensures exists p ::
      IsChance(curve, asOf - invoice.dueDate, invoice.disputed, p) && IsFloor(Expected(invoice, curve, asOf), invoice.open * p)
  {
    hide IsChance, IsFloor, Curve.Probability, AgingBucket;
    ChanceIs(curve, asOf - invoice.dueDate, invoice.disputed);
    var p := curve.Probability(AgingBucket(asOf - invoice.dueDate), invoice.disputed);
    FlooredIs(invoice.open * p);
    assert Expected(invoice, curve, asOf) == invoice.open * p / BPS;
    assert IsChance(curve, asOf - invoice.dueDate, invoice.disputed, p);
  }

  lemma LandsFirst(cal: BusinessCalendar, day: Date)
    ensures FirstOpen(cal, day, Landing(cal, day))
  {
    hide Closures.IsBusinessDay;
  }

  /** A part is within one unit of its share. */
  lemma ShareIsNear(amount: int, ratios: seq<int>, i: nat)
    requires Allocated(amount, ratios).Ok? && i < |ratios| && Sum(ratios) > 0
    ensures var parts := Allocated(amount, ratios).value;
      |parts| == |ratios| && Abs(parts[i] * Sum(ratios) - amount * ratios[i]) <= Sum(ratios)
  {
    hide Parts, Sum;
    SumNonNegative(ratios);
    var sign, size := if amount >= 0 then 1 else -1, Abs(amount);
    PartIsNear(size, ratios, i);
    NearEitherSign(sign, Parts(size, ratios)[i], size, ratios[i], Sum(ratios));
  }

  lemma PartIsNear(size: nat, ratios: seq<int>, i: nat)
    requires Weights(ratios) && i < |ratios|
    ensures Abs(Parts(size, ratios)[i] * Sum(ratios) - size * ratios[i]) <= Sum(ratios)
  {
    hide Parts, Sum, Floor;
    PartsAreHamilton(size, ratios);
    FloorOrNext(size, ratios[i], Sum(ratios), Parts(size, ratios)[i]);
  }

  lemma FloorOrNext(size: nat, ratio: int, total: int, part: int)
    requires total > 0 && (part == Floor(size, ratio, total) || part == Floor(size, ratio, total) + 1)
    ensures Abs(part * total - size * ratio) <= total
  {
    FloorIff(size * ratio, total, Floor(size, ratio, total));
    assert (part - 1) * total == part * total - total;
  }

  lemma NearEitherSign(sign: int, part: int, size: int, ratio: int, total: int)
    requires (sign == 1 || sign == -1) && Abs(part * total - size * ratio) <= total
    ensures Abs((sign * part) * total - (sign * size) * ratio) <= total
  {
    assert (sign * part) * total - (sign * size) * ratio == sign * (part * total - size * ratio);
  }

  lemma InvoiceDraftsExpected(invoice: Invoice, curve: Curve, asOf: Date, cal: BusinessCalendar)
    requires curve.Valid() && InvoiceMovements(invoice, curve, asOf, cal).Ok?
    ensures var ms := InvoiceMovements(invoice, curve, asOf, cal).value;
      && Total(ms) == Expected(invoice, curve, asOf)
      && InvoiceDrafts(invoice, curve, asOf, cal, ms)
  {
    hide Adjusted, Allocated, Landing, FirstOpen, IsChance;
    var expected := Expected(invoice, curve, asOf);
    if invoice.open > 0 {
      ExpectedIs(invoice, curve, asOf);
      if expected != 0 {
        DraftsFollow(invoice, curve, asOf, cal);
      }
    }
  }

  lemma DraftsFollow(invoice: Invoice, curve: Curve, asOf: Date, cal: BusinessCalendar)
    requires curve.Valid() && InvoiceMovements(invoice, curve, asOf, cal).Ok?
    requires invoice.open > 0 && Expected(invoice, curve, asOf) != 0
    ensures var ms, total := InvoiceMovements(invoice, curve, asOf, cal).value, Expected(invoice, curve, asOf);
      && Total(ms) == total
      && if invoice.promise.Some? then OnPromise(invoice, invoice.promise.value, total, cal, ms)
         else ByLags(invoice, LagsOf(curve, invoice.segment), total, cal, ms)
    ensures forall m :: m in InvoiceMovements(invoice, curve, asOf, cal).value ==>
      m.category == RECEIPTS_TRADE_AR && m.reference == invoice.reference
  {
    hide Adjusted, Allocated, Landing, FirstOpen, Expected;
    var total, ms := Expected(invoice, curve, asOf), InvoiceMovements(invoice, curve, asOf, cal).value;
    if invoice.promise.Some? {
      LandsFirst(cal, invoice.promise.value);
      assert ms[..0] == [] && Total(ms) == Total(ms[..0]) + ms[0].amount;
    } else {
      var lags := curve.MixtureFor(invoice.segment);
      var parts := Allocated(total, WeightsOf(lags)).value;
      AllocatedLength(total, WeightsOf(lags));
      SplitAddsUp(total, WeightsOf(lags));
      TotalIsSum(LagMovements(invoice, lags, parts, cal), parts);
      forall i | 0 <= i < |lags|
        ensures FirstOpen(cal, invoice.dueDate + lags[i].days, ms[i].date)
        ensures Abs(ms[i].amount * 10_000 - total * lags[i].weightBps) <= 10_000
      {
        LandsFirst(cal, invoice.dueDate + lags[i].days);
        ShareIsNear(total, WeightsOf(lags), i);
      }
    }
  }

  /** The drafts of a list of invoices, one invoice after the other. */
  ghost predicate TradeDrafts(invoices: seq<Invoice>, curve: Curve, asOf: Date, cal: BusinessCalendar, ms: seq<Movement>)
    requires curve.Valid()
  {
    if invoices == [] then ms == []
    else
      var n := |invoices| - 1;
      exists k :: 0 <= k <= |ms|
        && TradeDrafts(invoices[..n], curve, asOf, cal, ms[..k]) && InvoiceDrafts(invoices[n], curve, asOf, cal, ms[k..])
  }

  lemma {:induction false} TradeMovementsAreDrafts(invoices: seq<Invoice>, curve: Curve, asOf: Date, cal: BusinessCalendar)
    requires curve.Valid() && TradeMovements(invoices, curve, asOf, cal).Ok?
    ensures TradeDrafts(invoices, curve, asOf, cal, TradeMovements(invoices, curve, asOf, cal).value)
  {
    hide InvoiceMovements, InvoiceDrafts, Expected;
    if invoices != [] {
      var n := |invoices| - 1;
      TradeMovementsAreDrafts(invoices[..n], curve, asOf, cal);
      InvoiceDraftsExpected(invoices[n], curve, asOf, cal);
      var before := TradeMovements(invoices[..n], curve, asOf, cal).value;
      var ms := TradeMovements(invoices, curve, asOf, cal).value;
      assert ms[..|before|] == before && ms[|before|..] == InvoiceMovements(invoices[n], curve, asOf, cal).value;
    }
  }

  /** The split raises only for a negative weight, and only when it is asked for. */
  lemma {:induction false} TradeErrorIff(invoice: Invoice, curve: Curve, asOf: Date, cal: BusinessCalendar)
    requires curve.Valid()
    ensures InvoiceMovements(invoice, curve, asOf, cal).Err? <==>
      && invoice.open > 0 && invoice.promise.None? && Expected(invoice, curve, asOf) != 0
      && exists lag :: lag in LagsOf(curve, invoice.segment) && lag.weightBps < 0
  {
    hide Expected, Adjusted, Landing, Parts, Sum;
    var lags := curve.MixtureFor(invoice.segment);
    var weights := WeightsOf(lags);
    if i :| 0 <= i < |weights| && weights[i] < 0 {
      assert lags[i] in lags;
    }
  }

  /** An undisputed 10,000.00 that is 100 days late, with a chance of 92 % when current and of 30 % beyond
      90 days: 3,000.00 are drafted. */
  lemma HundredDaysLate(invoice: Invoice, curve: Curve, cal: BusinessCalendar, ms: seq<Movement>)
    requires curve.Valid() && curve.probabilityBps[CURRENT] == 9200 && curve.probabilityBps[OVER_90] == 3000
    requires invoice.open == 1_000_000 && !invoice.disputed
    requires InvoiceDrafts(invoice, curve, invoice.dueDate + 100, cal, ms)
    ensures Total(ms) == 300_000
  {
    hide ByLags, OnPromise, Total;
  }

  lemma SplitAddsUp(amount: int, ratios: seq<int>)
    requires Allocated(amount, ratios).Ok?
    ensures Sum(Allocated(amount, ratios).value) == amount
    ensures amount >= 0 ==> forall i :: 0 <= i < |ratios| ==>
      |Allocated(amount, ratios).value| == |ratios| && Allocated(amount, ratios).value[i] >= 0
  {
    SumNonNegative(ratios);
    var sign := if amount >= 0 then 1 else -1;
    PartsAreHamilton(Abs(amount), ratios);
    ScaledSum(sign, Parts(Abs(amount), ratios));
    FloorsNonNegative(Abs(amount), ratios);
  }

  lemma FloorsNonNegative(amount: nat, ratios: seq<int>)
    requires Weights(ratios)
    ensures forall i :: 0 <= i < |ratios| ==> Floors(amount, ratios)[i] >= 0
  {
    forall i | 0 <= i < |ratios|
      ensures Floor(amount, ratios[i], Sum(ratios)) >= 0
    {
      MulMonotone(0, ratios[i], amount);
      FloorMonotone(0, amount * ratios[i], Sum(ratios));
    }
  }

  lemma {:induction false} TotalIsSum(ms: seq<Movement>, amounts: seq<int>)
    requires |ms| == |amounts| && forall i :: 0 <= i < |ms| ==> ms[i].amount == amounts[i]
    ensures Total(ms) == Sum(amounts)
  {
    if ms != [] {
      TotalIsSum(ms[..|ms| - 1], amounts[..|ms| - 1]);
    }
  }

  /** The receivables that are open at all. */
  function OpenReceivables(invoices: seq<Invoice>): int {
    if invoices == [] then 0 else OpenReceivables(invoices[..|invoices| - 1]) + Max(invoices[|invoices| - 1].open, 0)
  }

  ghost predicate ProbabilitiesWithinOne(curve: Curve)
    requires curve.Valid()
  {
    forall b: Bucket, disputed: bool :: 0 <= curve.Probability(b, disputed) <= BPS
  }

  lemma InvoiceBounded(invoice: Invoice, curve: Curve, asOf: Date, cal: BusinessCalendar)
    requires curve.Valid() && ProbabilitiesWithinOne(curve)
    requires InvoiceMovements(invoice, curve, asOf, cal).Ok?
    ensures var ms := InvoiceMovements(invoice, curve, asOf, cal).value;
      && 0 <= Total(ms) <= Max(invoice.open, 0)
      && (forall i :: 0 <= i < |ms| ==> ms[i].amount >= 0 && ms[i].category == RECEIPTS_TRADE_AR)
  {
    hide Adjusted, Allocated;
    InvoiceDraftsExpected(invoice, curve, asOf, cal);
    ExpectedBounded(invoice, curve, asOf);
    var expected := Expected(invoice, curve, asOf);
    if invoice.open > 0 && expected != 0 && invoice.promise.None? {
      SplitAddsUp(expected, WeightsOf(curve.MixtureFor(invoice.segment)));
    }
  }

  lemma ExpectedBounded(invoice: Invoice, curve: Curve, asOf: Date)
    requires curve.Valid() && ProbabilitiesWithinOne(curve)
    ensures 0 <= Expected(invoice, curve, asOf) <= Max(invoice.open, 0)
  {
    hide Curve.Probability;
    if invoice.open > 0 {
      var p := curve.Probability(AgingBucket(asOf - invoice.dueDate), invoice.disputed);
      MulMonotone(0, p, invoice.open);
      MulMonotone(p, BPS, invoice.open);
      FloorMonotone(0, invoice.open * p, BPS);
      FloorMonotone(invoice.open * p, invoice.open * BPS, BPS);
    }
  }

  /** With probabilities between nothing and all, the receipts of the horizon lie between nothing
      and everything that is open. */
  lemma {:induction false} TradeReceiptsBounded(invoices: seq<Invoice>, curve: Curve, asOf: Date, cal: BusinessCalendar,
                                                start: Date, end: Date)
    requires curve.Valid() && ProbabilitiesWithinOne(curve)
    requires TradeMovements(invoices, curve, asOf, cal).Ok?
    ensures var ms := TradeMovements(invoices, curve, asOf, cal).value;
      && 0 <= Total(Kept(ms, start, end)) <= Total(ms) <= OpenReceivables(invoices)
      && (forall i :: 0 <= i < |ms| ==> ms[i].amount >= 0 && ms[i].category == RECEIPTS_TRADE_AR)
  {
    hide InvoiceMovements, Kept;
    if invoices == [] {
      NothingKept(start, end);
    } else {
      var n := |invoices| - 1;
      TradeReceiptsBounded(invoices[..n], curve, asOf, cal, start, end);
      InvoiceBounded(invoices[n], curve, asOf, cal);
      var before := TradeMovements(invoices[..n], curve, asOf, cal).value;
      var ms := InvoiceMovements(invoices[n], curve, asOf, cal).value;
      TotalConcat(before, ms);
      KeptBounded(before + ms, start, end);
    }
  }

  // ----- Payables -----

  /** The first run of a list that is not before the due date. */
  function FirstOnOrAfter(due: Date, runs: seq<Date>): (r: Option<Date>)
    ensures r.Some? ==> r.value in runs && r.value >= due
    ensures r.None? ==> forall d :: d in runs ==> d < due
  {
    if runs == [] then None
    else
      assert forall d :: d in runs <==> d == runs[0] || d in runs[1..];
      if runs[0] >= due then Some(runs[0]) else FirstOnOrAfter(due, runs[1..])
  }

  /** Past the last run the code falls back to the first one of the horizon. */
  function RunFor(due: Date, runs: seq<Date>): (r: Date)
    requires runs != []
    ensures r in runs
  {
    var candidate := FirstOnOrAfter(due, runs);
    if candidate.Some? then candidate.value else runs[0]
  }

  /** Due by the last run: paid on the earliest run that is not before the due date. Due after it:
      paid on the first run of the horizon, before it is due. */
  lemma RunForIs(due: Date, runs: seq<Date>)
    requires runs != [] && Ascending(runs)
    ensures due <= runs[|runs| - 1] ==>
      RunFor(due, runs) >= due && forall r :: r in runs && r >= due ==> RunFor(due, runs) <= r
    ensures due > runs[|runs| - 1] ==> RunFor(due, runs) == runs[0] < due
  {
    EarliestOnOrAfter(due, runs);
    var last := runs[|runs| - 1];
    assert last in runs && forall r :: r in runs ==> r <= last;
  }

  /** Runs on days 10 and 17: a payable due on day 20 is paid on day 10. */
  lemma PaidBeforeDue()
    ensures RunFor(20, [10, 17]) == 10
  {
  }

  lemma {:induction false} EarliestOnOrAfter(due: Date, runs: seq<Date>)
    requires Ascending(runs)
    ensures FirstOnOrAfter(due, runs).Some? ==>
      forall r :: r in runs && r >= due ==> FirstOnOrAfter(due, runs).value <= r
  {
    if runs != [] && runs[0] < due {
      EarliestOnOrAfter(due, runs[1..]);
      assert forall r :: r in runs && r >= due ==> r in runs[1..];
    }
  }

  function PayableMovement(p: Payable, runs: seq<Date>): Movement
    requires runs != []
  {
    Movement(AP_TRADE, RunFor(p.dueDate, runs), -p.open, p.reference)
  }

  /** One movement for every payable that is open at all. */
  function ApMovements(payables: seq<Payable>, runs: seq<Date>): seq<Movement>
    requires runs != []
  {
    if payables == [] then []
    else
      var n := |payables| - 1;
      ApMovements(payables[..n], runs) + if payables[n].open > 0 then [PayableMovement(payables[n], runs)] else []
  }

  function OpenPayables(payables: seq<Payable>): int {
    if payables == [] then 0 else OpenPayables(payables[..|payables| - 1]) + Max(payables[|payables| - 1].open, 0)
  }

  ghost predicate RunLands(cal: BusinessCalendar, weekday: int, start: Date, end: Date, d: Date)
  {
    exists c :: IsRun(cal, weekday, start, end, c, d)
  }

  ghost predicate AreRuns(runs: seq<Date>, cal: BusinessCalendar, weekday: int, start: Date, end: Date)
  {
    Ascending(runs) && forall d :: d in runs <==> start <= d <= end && RunLands(cal, weekday, start, end, d)
  }

  /** The payment runs of a horizon. */
  ghost function RunsOf(cal: BusinessCalendar, weekday: int, start: Date, end: Date): (runs: seq<Date>)
    requires 0 <= weekday <= 6
    ensures AreRuns(runs, cal, weekday, start, end)
  {
    RunsExist(cal, weekday, start, end);
    var runs :| AreRuns(runs, cal, weekday, start, end);
    runs
  }

  lemma RunsExist(cal: BusinessCalendar, weekday: int, start: Date, end: Date)
    ensures exists runs :: AreRuns(runs, cal, weekday, start, end)
  {
    hide RunLands, SortedSet;
    var listed := set d | start <= d <= end && RunLands(cal, weekday, start, end, d);
    var all := Listed(listed);
    var runs := SortedSet(all);
    assert AreRuns(runs, cal, weekday, start, end);
  }

  lemma {:induction false} Listed(days: set<Date>) returns (s: seq<Date>)
    ensures forall d :: d in s <==> d in days
    decreases days
  {
    s := [];
    if d :| d in days {
      var rest := Listed(days - {d});
      s := rest + [d];
      assert forall x :: x in days <==> x == d || x in days - {d};
    }
  }

  lemma RunsUnique(runs: seq<Date>, cal: BusinessCalendar, weekday: int, start: Date, end: Date)
    requires 0 <= weekday <= 6 && AreRuns(runs, cal, weekday, start, end)
    ensures runs == RunsOf(cal, weekday, start, end)
  {
    hide RunLands;
    AscendingUnique(runs, RunsOf(cal, weekday, start, end));
  }

  /** What the payables driver drafts: nothing without a run. */
  ghost function PayablesDrafted(payables: seq<Payable>, cal: BusinessCalendar, weekday: int, start: Date, end: Date)
    : seq<Movement>
    requires 0 <= weekday <= 6
  {
    var runs := RunsOf(cal, weekday, start, end);
    if runs == [] then [] else ApMovements(payables, runs)
  }

  /** `_build_ap`. */
  method BuildAp(builder: DraftBuilder, payables: seq<Payable>, cal: BusinessCalendar, weekday: int)
    returns (error: Option<CadenceError>)
    modifies builder
    ensures error.Some? <==> payables != [] && !(0 <= weekday <= 6)
    ensures error.Some? ==> error.value == BadWeekday
    ensures error.None? && payables != [] ==>
      builder.drafts == old(builder.drafts) +
        Kept(PayablesDrafted(payables, cal, weekday, builder.start, builder.end), builder.start, builder.end)
    ensures payables == [] || error.Some? ==> builder.drafts == old(builder.drafts)
  {
    hide Kept, IsRun, RunFor;
    NothingKept(builder.start, builder.end);
    error := None;
    if payables == [] {
      return;
    }
    var found := ApRunDates(builder.start, builder.end, cal, weekday);
    if found.Err? {
      return Some(found.error);
    }
    var runs := found.value;
    RunsUnique(runs, cal, weekday, builder.start, builder.end);
    if runs == [] {
      return;
    }
    for i := 0 to |payables|
      invariant builder.drafts == old(builder.drafts) + Kept(ApMovements(payables[..i], runs), builder.start, builder.end)
    {
      assert payables[..i + 1][..i] == payables[..i];
      if payables[i].open > 0 {
        var m := Movement(AP_TRADE, RunFor(payables[i].dueDate, runs), -payables[i].open, payables[i].reference);
        KeptConcat(ApMovements(payables[..i], runs), [m], builder.start, builder.end);
        builder.Add(m);
      } else {
        assert ApMovements(payables[..i + 1], runs) == ApMovements(payables[..i], runs);
      }
    }
    assert payables[..|payables|] == payables;
  }

  /** The open payables are paid in full, whatever the runs. */
  lemma {:induction false} ApPaysEverything(payables: seq<Payable>, runs: seq<Date>)
    requires runs != []
    ensures Total(ApMovements(payables, runs)) == -OpenPayables(payables)
    ensures forall m :: m in ApMovements(payables, runs) ==> m.category == AP_TRADE && m.date in runs && m.amount < 0
  {
    hide RunFor;
    if payables != [] {
      var n := |payables| - 1;
      ApPaysEverything(payables[..n], runs);
      if payables[n].open > 0 {
      } else {
        assert ApMovements(payables, runs) == ApMovements(payables[..n], runs);
      }
    }
  }

  /** Under distinct references an open payable is paid exactly once, on its run, for its balance. */
  lemma {:induction false} PaidOnce(payables: seq<Payable>, runs: seq<Date>, k: nat)
    requires runs != [] && k < |payables| && payables[k].open > 0
    requires forall i, j :: 0 <= i < j < |payables| ==> payables[i].reference != payables[j].reference
    ensures Settlements(payables[k].reference, ApMovements(payables, runs)) == [PayableMovement(payables[k], runs)]
  {
    hide RunFor, Settlements, ApMovements;
    var n := |payables| - 1;
    PaidNext(payables, runs, payables[k].reference);
    if k == n {
      NeverPaid(payables[..n], runs, payables[k].reference);
    } else {
      PaidOnce(payables[..n], runs, k);
      assert payables[..n][k] == payables[k];
    }
  }

  lemma PaidNext(payables: seq<Payable>, runs: seq<Date>, reference: string)
    requires runs != [] && payables != []
    ensures var n := |payables| - 1;
      Settlements(reference, ApMovements(payables, runs))
        == Settlements(reference, ApMovements(payables[..n], runs))
         + if payables[n].open > 0 && payables[n].reference == reference then [PayableMovement(payables[n], runs)] else []
  {
    hide RunFor;
    var n := |payables| - 1;
    var before := ApMovements(payables[..n], runs);
    if payables[n].open > 0 {
      assert (before + [PayableMovement(payables[n], runs)])[..|before|] == before;
    } else {
      assert ApMovements(payables, runs) == before;
      assert Settlements(reference, before) + [] == Settlements(reference, before);
    }
  }

  /** The movements that settle one reference. */
  function Settlements(reference: string, ms: seq<Movement>): seq<Movement> {
    if ms == [] then []
    else
      var n := |ms| - 1;
      Settlements(reference, ms[..n]) + if ms[n].reference == reference then [ms[n]] else []
  }

  lemma {:induction false} NeverPaid(payables: seq<Payable>, runs: seq<Date>, reference: string)
    requires runs != [] && forall i :: 0 <= i < |payables| ==> payables[i].reference != reference
    ensures Settlements(reference, ApMovements(payables, runs)) == []
  {
    hide RunFor;
    if payables != [] {
      NeverPaid(payables[..|payables| - 1], runs, reference);
      PaidNext(payables, runs, reference);
    }
  }

  // ----- Dated commitments -----

  function DatedMovements(items: seq<Dated>, category: nat): (ms: seq<Movement>)
    ensures |ms| == |items|
    ensures forall i :: 0 <= i < |ms| ==>
      ms[i] == Movement(category, items[i].dueDate, items[i].amount, items[i].reference)
  {
    seq(|items|, i requires 0 <= i < |items| =>
      Movement(category, items[i].dueDate, items[i].amount, items[i].reference))
  }

  /** `_build_dated`; the other receipts and the sales tax remittances are drafted in the same way. */
  method BuildDated(builder: DraftBuilder, items: seq<Dated>, category: nat)
    modifies builder
    ensures builder.drafts == old(builder.drafts) + Kept(DatedMovements(items, category), builder.start, builder.end)
  {
    BuildAll(builder, DatedMovements(items, category));
  }

  /** Movements offered to the builder one after the other. */
  method BuildAll(builder: DraftBuilder, ms: seq<Movement>)
    modifies builder
    ensures builder.drafts == old(builder.drafts) + Kept(ms, builder.start, builder.end)
  {
    hide Keeps;
    assert ms[..0] == [];
    for i := 0 to |ms|
      invariant builder.drafts == old(builder.drafts) + Kept(ms[..i], builder.start, builder.end)
    {
      assert ms[..i + 1] == ms[..i] + [ms[i]];
      KeptConcat(ms[..i], [ms[i]], builder.start, builder.end);
      builder.Add(ms[i]);
    }
    assert ms[..|ms|] == ms;
  }
}
