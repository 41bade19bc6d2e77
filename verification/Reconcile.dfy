/** The acceptance gate of a load: the mapped totals against what the tenant states. */
module Reconcile {
  import opened Arith
  import opened Results

  datatype BalanceSnapshot = BalanceSnapshot(ar: int, ap: int, cash: int, debits: Option<int>, credits: Option<int>)

  datatype MappedTotals = MappedTotals(openInvoices: int, openVendorInvoices: int, moved: int, mappedRows: nat,
                                       sourceRows: nat, mappedValue: nat, sourceValue: nat)

  datatype Failure = AR_MISMATCH | AP_MISMATCH | CASH_MISMATCH | GL_IMBALANCE

  datatype Outcome = Outcome(accepted: bool, rowsBps: nat, valueBps: nat, failures: seq<Failure>)

  /** What the gate holds a load to, one failure at a time. */
  ghost predicate Fails(failure: Failure, stated: BalanceSnapshot, mapped: MappedTotals, tolerance: int) {
    match failure
    case AR_MISMATCH => mapped.openInvoices != stated.ar
    case AP_MISMATCH => mapped.openVendorInvoices != stated.ap
    case CASH_MISMATCH => Abs(mapped.moved - stated.cash) > tolerance
    case GL_IMBALANCE => stated.debits.Some? && stated.credits.Some? && stated.debits != stated.credits
  }

  function CoverageBps(mapped: nat, source: nat): (bps: nat)
    ensures bps <= 10_000
    ensures mapped == source ==> bps == if source == 0 then 0 else 10_000
    ensures 0 < source && mapped <= source ==> bps * source <= 10_000 * mapped < bps * source + source
  {
    if source == 0 then 0
    else
      assert mapped == source ==> 10_000 * mapped / source == 10_000 by {
        FloorIff(10_000 * mapped, source, 10_000);
      }
      Min(10_000, 10_000 * mapped / source)
  }

  function FailuresOf(stated: BalanceSnapshot, mapped: MappedTotals, tolerance: int): seq<Failure> {
    (if mapped.openInvoices != stated.ar then [AR_MISMATCH] else [])
    + (if mapped.openVendorInvoices != stated.ap then [AP_MISMATCH] else [])
    + (if Abs(mapped.moved - stated.cash) > tolerance then [CASH_MISMATCH] else [])
    + if stated.debits.Some? && stated.credits.Some? && stated.debits != stated.credits then [GL_IMBALANCE] else []
  }

  /** Every check that fails is reported, and reported once. */
  lemma FailuresAre(stated: BalanceSnapshot, mapped: MappedTotals, tolerance: int, f: Failure)
    ensures multiset(FailuresOf(stated, mapped, tolerance))[f] == if Fails(f, stated, mapped, tolerance) then 1 else 0
    ensures f in FailuresOf(stated, mapped, tolerance) <==> Fails(f, stated, mapped, tolerance)
  {
    hide Abs;
  }

  /** `reconcile`: only an empty list of failures accepts. */
  method Reconcile(stated: BalanceSnapshot, mapped: MappedTotals, tolerance: int) returns (r: Outcome)
    ensures r.failures == FailuresOf(stated, mapped, tolerance)
    ensures r.accepted <==> forall f: Failure :: !Fails(f, stated, mapped, tolerance)
    ensures r.rowsBps == CoverageBps(mapped.mappedRows, mapped.sourceRows)
    ensures r.valueBps == CoverageBps(mapped.mappedValue, mapped.sourceValue)
  {
    hide Abs, Fails, CoverageBps;
    var failures: seq<Failure> := [];
    if mapped.openInvoices != stated.ar {
      failures := failures + [AR_MISMATCH];
    }
    if mapped.openVendorInvoices != stated.ap {
      failures := failures + [AP_MISMATCH];
    }
    if Abs(mapped.moved - stated.cash) > tolerance {
      failures := failures + [CASH_MISMATCH];
    }
    if stated.debits.Some? && stated.credits.Some? && stated.debits != stated.credits {
      failures := failures + [GL_IMBALANCE];
    }
    NoFailureIff(stated, mapped, tolerance);
    r := Outcome(failures == [], CoverageBps(mapped.mappedRows, mapped.sourceRows),
                 CoverageBps(mapped.mappedValue, mapped.sourceValue), failures);
  }

  lemma NoFailureIff(stated: BalanceSnapshot, mapped: MappedTotals, tolerance: int)
    ensures FailuresOf(stated, mapped, tolerance) == [] <==> forall f: Failure :: !Fails(f, stated, mapped, tolerance)
  {
    hide FailuresOf, Fails;
    var failures := FailuresOf(stated, mapped, tolerance);
    forall f: Failure
      ensures f in failures <==> Fails(f, stated, mapped, tolerance)
    {
      FailuresAre(stated, mapped, tolerance, f);
    }
    if failures != [] {
      assert failures[0] in failures;
    }
  }
}
