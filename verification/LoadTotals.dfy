/** The totals a load reports, what is stored, and what the reconciliation gate makes of them. */
module LoadTotals {
  import opened Arith
  import opened Loader
  import opened LoaderLaws
  import opened MapSums
  import opened Reconcile
  import opened Results
  import opened Text

  // ----- Rows that a later row of the same key replaces -----

  predicate Replaced<T>(vs: seq<Verdict<T>>, i: int) {
    0 <= i < |vs| && vs[i].Loaded? && exists j :: i < j < |vs| && vs[j].Loaded? && vs[j].key == vs[i].key
  }

  /** The amounts of the replaced rows among the first n. */
  function ReplacedTotal(ps: seq<Verdict<int>>, n: nat): int
    requires n <= |ps|
  {
    if n == 0 then 0 else ReplacedTotal(ps, n - 1) + if Replaced(ps, n - 1) then ps[n - 1].value else 0
  }

  function Reported(ps: seq<Verdict<int>>): int {
    if ps == [] then 0
    else Reported(ps[..|ps| - 1]) + if ps[|ps| - 1].Loaded? then ps[|ps| - 1].value else 0
  }

  /** A row more replaces the last earlier row of its key, and no other. */
  lemma ReplacedByOneMore(ps: seq<Verdict<int>>, v: Verdict<int>, i: int)
    requires 0 <= i < |ps|
    ensures Replaced(ps + [v], i) <==> Replaced(ps, i) || (v.Loaded? && i == LastLoaded(ps, v.key))
  {
    hide LastLoaded;
    var qs := ps + [v];
    if v.Loaded? && i == LastLoaded(ps, v.key) {
      assert qs[|ps|].key == qs[i].key;
    }
    if Replaced(ps, i) {
      var j :| i < j < |ps| && ps[j].Loaded? && ps[j].key == ps[i].key;
      assert qs[j].key == qs[i].key;
    }
  }

  lemma NotTwice(ps: seq<Verdict<int>>, key: string)
    ensures !Replaced(ps, LastLoaded(ps, key))
  {
    hide LastLoaded;
  }

  lemma {:induction false} ReplacedTotalSnoc(ps: seq<Verdict<int>>, v: Verdict<int>, n: nat)
    requires n <= |ps|
    ensures ReplacedTotal(ps + [v], n) == ReplacedTotal(ps, n)
      + if v.Loaded? && 0 <= LastLoaded(ps, v.key) < n then ps[LastLoaded(ps, v.key)].value else 0
  {
    hide LastLoaded, Replaced;
    if n > 0 {
      ReplacedTotalSnoc(ps, v, n - 1);
      ReplacedByOneMore(ps, v, n - 1);
      if v.Loaded? {
        NotTwice(ps, v.key);
      }
    }
  }

  /** What is reported is what is stored plus what was replaced on the way. */
  lemma {:induction false} ReportedIsStoredPlusReplaced(ps: seq<Verdict<int>>)
    ensures Reported(ps) == MapSum(Written(ps)) + ReplacedTotal(ps, |ps|)
  {
    hide MapSum, LastLoaded, Replaced;
    if ps == [] {
      MapSumOfNothing<string>();
    } else {
      var n := |ps| - 1;
      var before, v := ps[..n], ps[n];
      ReportedIsStoredPlusReplaced(before);
      assert before + [v] == ps;
      ReplacedTotalSnoc(before, v, n);
      LastIsNotReplaced(ps);
      if v.Loaded? {
        WrittenIsLast(before, v.key);
        MapSumUpdate(Written(before), v.key, v.value);
        assert Written(ps) == Written(before)[v.key := v.value];
      } else {
        assert Written(ps) == Written(before);
      }
    }
  }

  lemma LastIsNotReplaced(ps: seq<Verdict<int>>)
    requires ps != []
    ensures !Replaced(ps, |ps| - 1)
  {
  }

  // ----- Documents and movements -----

  function OpenPart(v: Verdict<Document>): Verdict<int> {
    match v
    case Loaded(key, d, complaint) => Loaded(key, d.open, complaint)
    case Refused(key, reason) => Refused(key, reason)
  }

  function OpenParts(vs: seq<Verdict<Document>>): (ps: seq<Verdict<int>>)
    ensures |ps| == |vs| && forall i :: 0 <= i < |vs| ==> ps[i] == OpenPart(vs[i])
  {
    seq(|vs|, i requires 0 <= i < |vs| => OpenPart(vs[i]))
  }

  function CashPart(v: Verdict<Entry>): Verdict<int> {
    match v
    case Loaded(key, e, complaint) => Loaded(key, e.amount, complaint)
    case Refused(key, reason) => Refused(key, reason)
  }

  function CashParts(vs: seq<Verdict<Entry>>): (ps: seq<Verdict<int>>)
    ensures |ps| == |vs| && forall i :: 0 <= i < |vs| ==> ps[i] == CashPart(vs[i])
  {
    seq(|vs|, i requires 0 <= i < |vs| => CashPart(vs[i]))
  }

  function Opens(docs: map<string, Document>): map<string, int> {
    map k | k in docs :: docs[k].open
  }

  ghost function StoredOpen(docs: map<string, Document>): int {
    MapSum(Opens(docs))
  }

  function Amounts(entries: map<string, Entry>): map<string, int> {
    map k | k in entries :: entries[k].amount
  }

  ghost function StoredCash(entries: map<string, Entry>): int {
    MapSum(Amounts(entries))
  }

  /** The open amounts of the loaded rows that a later row of their key replaces. */
  function ReplacedOpen(vs: seq<Verdict<Document>>): int {
    ReplacedTotal(OpenParts(vs), |vs|)
  }

  function ReplacedCash(vs: seq<Verdict<Entry>>): int {
    ReplacedTotal(CashParts(vs), |vs|)
  }

  lemma {:induction false} OpenPartsAgree(vs: seq<Verdict<Document>>)
    ensures OpenReported(vs) == Reported(OpenParts(vs))
    ensures Opens(Written(vs)) == Written(OpenParts(vs))
  {
    hide Opens;
    if vs == [] {
      OpensWith(map[], None);
    } else {
      var n := |vs| - 1;
      OpenPartsAgree(vs[..n]);
      assert OpenParts(vs)[..n] == OpenParts(vs[..n]);
      OpensWith(Written(vs[..n]), if vs[n].Loaded? then Some((vs[n].key, vs[n].value)) else None);
    }
  }

  lemma OpensWith(m: map<string, Document>, more: Option<(string, Document)>)
    ensures var n := if more.Some? then map[more.value.0 := more.value.1] else map[];
      Opens(m + n) == Opens(m) + if more.Some? then map[more.value.0 := more.value.1.open] else map[]
    ensures Opens(map[]) == map[]
  {
  }

  lemma {:induction false} CashPartsAgree(vs: seq<Verdict<Entry>>)
    ensures MovedReported(vs) == Reported(CashParts(vs))
    ensures Amounts(Written(vs)) == Written(CashParts(vs))
  {
    hide Amounts;
    if vs == [] {
      AmountsWith(map[], None);
    } else {
      var n := |vs| - 1;
      CashPartsAgree(vs[..n]);
      assert CashParts(vs)[..n] == CashParts(vs[..n]);
      AmountsWith(Written(vs[..n]), if vs[n].Loaded? then Some((vs[n].key, vs[n].value)) else None);
    }
  }

  lemma AmountsWith(m: map<string, Entry>, more: Option<(string, Entry)>)
    ensures var n := if more.Some? then map[more.value.0 := more.value.1] else map[];
      Amounts(m + n) == Amounts(m) + if more.Some? then map[more.value.0 := more.value.1.amount] else map[]
    ensures Amounts(map[]) == map[]
  {
  }

  /** The reported open total is what is stored plus what was replaced on the way. */
  lemma OpenReportedIs(vs: seq<Verdict<Document>>)
    ensures OpenReported(vs) == StoredOpen(Written(vs)) + ReplacedOpen(vs)
  {
    hide OpenReported, Written, Reported, MapSum, ReplacedTotal, Opens, OpenParts;
    OpenPartsAgree(vs);
    ReportedIsStoredPlusReplaced(OpenParts(vs));
  }

  lemma MovedReportedIs(vs: seq<Verdict<Entry>>)
    ensures MovedReported(vs) == StoredCash(Written(vs)) + ReplacedCash(vs)
  {
    hide MovedReported, Written, Reported, MapSum, ReplacedTotal, Amounts, CashParts;
    CashPartsAgree(vs);
    ReportedIsStoredPlusReplaced(CashParts(vs));
  }

  // ----- When nothing that counts is replaced -----

  /** No loaded document row with an open amount has a later loaded row of its key. */
  ghost predicate NoOpenRowReplaced(vs: seq<Verdict<Document>>) {
    forall i, j :: 0 <= i < j < |vs| && vs[i].Loaded? && vs[j].Loaded? && vs[i].key == vs[j].key ==> vs[i].value.open == 0
  }

  lemma {:induction false} ReplacedTotalZero(ps: seq<Verdict<int>>, n: nat)
    requires n <= |ps| && forall i :: 0 <= i < |ps| && ps[i].Loaded? ==> ps[i].value >= 0
    ensures ReplacedTotal(ps, n) >= 0
    ensures ReplacedTotal(ps, n) == 0 <==> forall i :: 0 <= i < n && Replaced(ps, i) ==> ps[i].value == 0
  {
    hide Replaced;
    if n > 0 {
      ReplacedTotalZero(ps, n - 1);
      if Replaced(ps, n - 1) {
        ReplacedIsLoaded(ps, n - 1);
      }
    }
  }

  lemma ReplacedIsLoaded<T>(vs: seq<Verdict<T>>, i: int)
    requires Replaced(vs, i)
    ensures 0 <= i < |vs| && vs[i].Loaded?
  {
  }

  lemma NothingOpenReplacedIff(vs: seq<Verdict<Document>>)
    ensures ReplacedOpen(vs) == 0 <==> NoOpenRowReplaced(vs)
  {
    hide ReplacedTotal;
    var ps := OpenParts(vs);
    ReplacedTotalZero(ps, |ps|);
    if ReplacedOpen(vs) == 0 {
      forall i, j | 0 <= i < j < |vs| && vs[i].Loaded? && vs[j].Loaded? && vs[i].key == vs[j].key
        ensures vs[i].value.open == 0
      {
        assert ps[j].Loaded? && ps[j].key == ps[i].key;
        assert Replaced(ps, i);
      }
    }
  }

  ghost predicate DistinctKeys<T>(vs: seq<Verdict<T>>) {
    forall i, j :: 0 <= i < j < |vs| && vs[i].Loaded? && vs[j].Loaded? ==> vs[i].key != vs[j].key
  }

  lemma {:induction false} NoneReplaced(ps: seq<Verdict<int>>, n: nat)
    requires n <= |ps| && DistinctKeys(ps)
    ensures ReplacedTotal(ps, n) == 0
  {
    if n > 0 {
      NoneReplaced(ps, n - 1);
    }
  }

  // ----- The gate -----

  /** `LoadReport.totals`. */
  function TotalsOf(s: Source, known: Known): MappedTotals {
    var t := TallyOf(s, known);
    var ar, ap := OpenReported(Invoices(s, known)), OpenReported(VendorInvoices(s, known));
    var cash := MovedReported(Entries(s, known));
    MappedTotals(ar, ap, cash, t.mappedRows, t.sourceRows, Abs(ar) + Abs(ap) + Abs(cash), Abs(ar) + Abs(ap) + Abs(cash))
  }

  /** Mapped and source value are one number, so the value coverage is all or nothing. */
  lemma ValueCoverageIsAllOrNothing(s: Source, known: Known)
    ensures var m := TotalsOf(s, known);
      CoverageBps(m.mappedValue, m.sourceValue) == if m.sourceValue == 0 then 0 else 10_000
  {
    hide TallyOf;
  }

  const NOTHING := Books(map[], map[], map[], map[], map[], map[])
  const NO_KEYS := Known({}, {}, {})

  ghost predicate GateAccepts(stated: BalanceSnapshot, mapped: MappedTotals, tolerance: int) {
    forall f: Failure :: !Fails(f, stated, mapped, tolerance)
  }

  /** Exactly what acceptance of a fresh tenant's load says about the stored books. */
  lemma AcceptanceMeans(s: Source, stated: BalanceSnapshot, tolerance: int)
    ensures var b := AfterRun(NOTHING, s, NO_KEYS);
      GateAccepts(stated, TotalsOf(s, NO_KEYS), tolerance) <==>
        && StoredOpen(b.invoices) + ReplacedOpen(Invoices(s, NO_KEYS)) == stated.ar
        && StoredOpen(b.vendorInvoices) + ReplacedOpen(VendorInvoices(s, NO_KEYS)) == stated.ap
        && Abs(StoredCash(b.entries) + ReplacedCash(Entries(s, NO_KEYS)) - stated.cash) <= tolerance
        && (stated.debits.Some? && stated.credits.Some? ==> stated.debits == stated.credits)
  {
    hide TallyOf, Written, OpenReported, MovedReported, StoredOpen, StoredCash, ReplacedOpen, ReplacedCash;
    hide Invoices, VendorInvoices, Entries;
    OpenReportedIs(Invoices(s, NO_KEYS));
    OpenReportedIs(VendorInvoices(s, NO_KEYS));
    MovedReportedIs(Entries(s, NO_KEYS));
    var m := TotalsOf(s, NO_KEYS);
    assert GateAccepts(stated, m, tolerance) <==>
        !Fails(AR_MISMATCH, stated, m, tolerance) && !Fails(AP_MISMATCH, stated, m, tolerance) &&
        !Fails(CASH_MISMATCH, stated, m, tolerance) && !Fails(GL_IMBALANCE, stated, m, tolerance);
    assert forall w: map<string, Document> :: map[] + w == w;
    assert forall w: map<string, Entry> :: map[] + w == w;
  }

  lemma NothingReplaced(invoices: seq<Verdict<Document>>, bills: seq<Verdict<Document>>, entries: seq<Verdict<Entry>>)
    requires DistinctKeys(invoices) && DistinctKeys(bills) && DistinctKeys(entries)
    ensures ReplacedOpen(invoices) == ReplacedOpen(bills) == ReplacedCash(entries) == 0
  {
    hide ReplacedTotal;
    NoneReplaced(OpenParts(invoices), |invoices|);
    NoneReplaced(OpenParts(bills), |bills|);
    NoneReplaced(CashParts(entries), |entries|);
  }

  /** With one row per key, an accepted load of a fresh tenant stores exactly the stated AR and AP,
      and cash within the tolerance. */
  lemma AcceptedBooksTieOut(s: Source, stated: BalanceSnapshot, tolerance: int)
    requires DistinctKeys(Invoices(s, NO_KEYS)) && DistinctKeys(VendorInvoices(s, NO_KEYS))
    requires DistinctKeys(Entries(s, NO_KEYS))
    requires GateAccepts(stated, TotalsOf(s, NO_KEYS), tolerance)
    ensures var b := AfterRun(NOTHING, s, NO_KEYS);
      && StoredOpen(b.invoices) == stated.ar
      && StoredOpen(b.vendorInvoices) == stated.ap
      && Abs(StoredCash(b.entries) - stated.cash) <= tolerance
  {
    hide TallyOf, Written, OpenReported, MovedReported, StoredOpen, StoredCash, ReplacedOpen, ReplacedCash;
    hide Invoices, VendorInvoices, Entries, GateAccepts, DistinctKeys, TotalsOf;
    AcceptanceMeans(s, stated, tolerance);
    NothingReplaced(Invoices(s, NO_KEYS), VendorInvoices(s, NO_KEYS), Entries(s, NO_KEYS));
  }

  /** What an accepted load is taken to mean. */
  ghost predicate TiesOut(s: Source, stated: BalanceSnapshot, tolerance: int) {
    var b := AfterRun(NOTHING, s, NO_KEYS);
    && StoredOpen(b.invoices) == stated.ar
    && StoredOpen(b.vendorInvoices) == stated.ap
    && Abs(StoredCash(b.entries) - stated.cash) <= tolerance
  }

  /** One accepted load holds the stated receivables, or payables, exactly when no row with an open
      amount was replaced by a later row of its key. */
  lemma AcceptedOpenTiesIff(s: Source, stated: BalanceSnapshot, tolerance: int)
    requires GateAccepts(stated, TotalsOf(s, NO_KEYS), tolerance)
    ensures var b := AfterRun(NOTHING, s, NO_KEYS);
      && (StoredOpen(b.invoices) == stated.ar <==> NoOpenRowReplaced(Invoices(s, NO_KEYS)))
      && (StoredOpen(b.vendorInvoices) == stated.ap <==> NoOpenRowReplaced(VendorInvoices(s, NO_KEYS)))
  {
    hide TotalsOf, AfterRun, GateAccepts, StoredOpen, ReplacedOpen, StoredCash, ReplacedCash, NoOpenRowReplaced;
    hide Invoices, VendorInvoices, Entries;
    AcceptanceMeans(s, stated, tolerance);
    NothingOpenReplacedIff(Invoices(s, NO_KEYS));
    NothingOpenReplacedIff(VendorInvoices(s, NO_KEYS));
  }

  /** Whatever is stated and tolerated, acceptance leaves stored cash within the tolerance exactly for
      the sources whose replaced movements add up to nothing. */
  lemma AcceptedCashTiesIff(s: Source)
    ensures (forall stated, tolerance :: GateAccepts(stated, TotalsOf(s, NO_KEYS), tolerance) ==>
              Abs(StoredCash(AfterRun(NOTHING, s, NO_KEYS).entries) - stated.cash) <= tolerance)
       <==> ReplacedCash(Entries(s, NO_KEYS)) == 0
  {
    hide TotalsOf, AfterRun, GateAccepts, StoredOpen, ReplacedOpen, StoredCash, ReplacedCash;
    hide Invoices, VendorInvoices, Entries;
    var b := AfterRun(NOTHING, s, NO_KEYS);
    forall stated, tolerance | GateAccepts(stated, TotalsOf(s, NO_KEYS), tolerance) && ReplacedCash(Entries(s, NO_KEYS)) == 0
      ensures Abs(StoredCash(b.entries) - stated.cash) <= tolerance
    {
      AcceptanceMeans(s, stated, tolerance);
    }
    var reported := Statement(s);
    AcceptanceMeans(s, reported, 0);
    assert GateAccepts(reported, TotalsOf(s, NO_KEYS), 0);
  }

  /** The statement that agrees with what a load reports. */
  ghost function Statement(s: Source): BalanceSnapshot {
    var b := AfterRun(NOTHING, s, NO_KEYS);
    BalanceSnapshot(StoredOpen(b.invoices) + ReplacedOpen(Invoices(s, NO_KEYS)),
                    StoredOpen(b.vendorInvoices) + ReplacedOpen(VendorInvoices(s, NO_KEYS)),
                    StoredCash(b.entries) + ReplacedCash(Entries(s, NO_KEYS)), None, None)
  }

  /** The sources for which acceptance can be trusted, whatever is stated and tolerated. */
  lemma AcceptanceTiesOutIff(s: Source)
    ensures (forall stated, tolerance :: GateAccepts(stated, TotalsOf(s, NO_KEYS), tolerance) ==>
              TiesOut(s, stated, tolerance))
       <==> NoOpenRowReplaced(Invoices(s, NO_KEYS)) && NoOpenRowReplaced(VendorInvoices(s, NO_KEYS))
            && ReplacedCash(Entries(s, NO_KEYS)) == 0
  {
    hide TotalsOf, AfterRun, GateAccepts, StoredOpen, ReplacedOpen, StoredCash, ReplacedCash, Invoices, VendorInvoices;
    hide Entries, NoOpenRowReplaced;
    AcceptedCashTiesIff(s);
    forall stated, tolerance | GateAccepts(stated, TotalsOf(s, NO_KEYS), tolerance)
      ensures TiesOut(s, stated, tolerance) <==>
        && NoOpenRowReplaced(Invoices(s, NO_KEYS)) && NoOpenRowReplaced(VendorInvoices(s, NO_KEYS))
        && Abs(StoredCash(AfterRun(NOTHING, s, NO_KEYS).entries) - stated.cash) <= tolerance
    {
      AcceptedOpenTiesIff(s, stated, tolerance);
    }
    AcceptanceMeans(s, Statement(s), 0);
    assert GateAccepts(Statement(s), TotalsOf(s, NO_KEYS), 0);
  }

  function Twice(first: nat, second: nat): Source {
    var row := DocumentRow("i", "c", Some("USD"), Some(9), Some(40), Missing, "open", Read(first));
    Source(Some([PartyRow("c", "", "")]), None, None, Some([row, row.(openAmount := Read(second))]), None, None)
  }

  lemma TwiceJudged(first: nat, second: nat)
    requires first <= 9 && second <= 9
    ensures Invoices(Twice(first, second), NO_KEYS)
         == [Loaded("i", Document("c", "i", 10, 40, 9, first, "USD", "open"), None),
             Loaded("i", Document("c", "i", 10, 40, 9, second, "USD", "open"), None)]
  {
    var s := Twice(first, second);
    assert Strip("i") == "i" && Strip("c") == "c";
    var vs := Customers(s);
    assert vs[..0] == [] && Written(vs[..0]) == map[];
    assert "c" in Written(vs);
    assert "c" in KnownAfter(s, NO_KEYS).customers;
    assert Strip("open") == "open" && Lower("open") == "open";
  }

  /** Two rows of one invoice: the gate accepts their sum, the books hold the second. */
  lemma DuplicateInvoiceIsAccepted()
    ensures var s, stated := Twice(5, 3), BalanceSnapshot(8, 0, 0, None, None);
      && GateAccepts(stated, TotalsOf(s, NO_KEYS), 0)
      && StoredOpen(AfterRun(NOTHING, s, NO_KEYS).invoices) == 3 != stated.ar
  {
    hide TallyOf, MapSum, Customers, KnownAfter, JudgeDocument;
    var s := Twice(5, 3);
    var vs := Invoices(s, NO_KEYS);
    TwiceJudged(5, 3);
    var two := vs[1].value;
    assert vs[..1][..0] == [] && OpenReported(vs[..1]) == 5;
    assert Written(vs) == map["i" := two];
    var none: map<string, int> := map[];
    MapSumUpdate(none, "i", 3);
    MapSumOfNothing<string>();
    var stored := AfterRun(NOTHING, s, NO_KEYS).invoices;
    assert stored == map["i" := two] && Opens(stored) == none["i" := 3];
    assert VendorInvoices(s, NO_KEYS) == [] && Entries(s, NO_KEYS) == [];
  }
}
