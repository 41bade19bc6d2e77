/** Draws against a facility and covenants against their thresholds: where rounding in basis points
    and rounding in currency disagree. */
module Covenants {
  import opened Arith
  import opened Results

  const BPS := 10_000

  // ----- Facilities -----

  datatype Facility = Facility(limit: int, drawn: int, maxUtilizationBps: int) {
    predicate Valid() {
      0 <= drawn <= limit && 0 <= maxUtilizationBps <= BPS
    }
  }

  function Ceiling(f: Facility, policyBps: int): int {
    Min(f.maxUtilizationBps, policyBps)
  }

  /** `max_safe_draw`. */
  function MaxSafeDraw(f: Facility, policyBps: int): int {
    var headroom := f.limit * Ceiling(f, policyBps) / BPS - f.drawn;
    if headroom < 0 then 0 else headroom
  }

  /** `_revolver_capacity`: does a draw fit into the undrawn amount? */
  predicate CapacityPasses(f: Facility, draw: int) {
    f.limit - f.drawn - draw >= 0
  }

  /** `_revolver_utilization`: does the utilisation, floored to basis points, stay within the policy? */
  predicate UtilizationPasses(f: Facility, policyBps: int, draw: int)
    requires f.limit >= 0
  {
    f.limit == 0 || (f.drawn + draw) * BPS / f.limit <= policyBps
  }

  /** What is drawn keeps both the facility's own ceiling and the policy's. */
  ghost predicate WithinCeiling(f: Facility, policyBps: int, draw: int) {
    (f.drawn + draw) * 10_000 <= f.limit * f.maxUtilizationBps && (f.drawn + draw) * 10_000 <= f.limit * policyBps
  }

  /** A facility within its ceiling: the safe draws are exactly 0 up to the maximum. One over it:
      only nothing is offered. */
  lemma MaxSafeDrawIsLargest(f: Facility, policyBps: int, draw: int)
    requires f.Valid() && draw >= 0
    ensures WithinCeiling(f, policyBps, 0) ==> (draw <= MaxSafeDraw(f, policyBps) <==> WithinCeiling(f, policyBps, draw))
    ensures !WithinCeiling(f, policyBps, 0) ==> MaxSafeDraw(f, policyBps) == 0
  {
    FloorIff(f.limit * Ceiling(f, policyBps), BPS, f.limit * Ceiling(f, policyBps) / BPS);
    MulMonotone(Ceiling(f, policyBps), f.maxUtilizationBps, f.limit);
    MulMonotone(Ceiling(f, policyBps), policyBps, f.limit);
  }

  /** The capacity gate lets a draw through exactly if a facility that has it drawn is still a valid one. */
  lemma CapacityGate(f: Facility, draw: int)
    requires f.Valid() && draw >= 0
    ensures CapacityPasses(f, draw) <==> f.(drawn := f.drawn + draw).Valid()
  {
  }

  /** Every safe draw passes both gates. */
  lemma SafeDrawPassesGates(f: Facility, policyBps: int, draw: int)
    requires f.Valid() && 0 <= policyBps <= BPS && 0 <= draw <= MaxSafeDraw(f, policyBps)
    requires WithinCeiling(f, policyBps, 0)
    ensures CapacityPasses(f, draw) && UtilizationPasses(f, policyBps, draw)
  {
    MaxSafeDrawIsLargest(f, policyBps, draw);
    var ceiling := Ceiling(f, policyBps);
    MulMonotone(ceiling, BPS, f.limit);
    MulMonotone(ceiling, policyBps, f.limit);
    if f.limit > 0 {
      UtilizationGate(f, policyBps, draw);
    }
  }

  /** The utilisation gate floors, so it lets through up to one basis point more than its ceiling. */
  lemma UtilizationGate(f: Facility, policyBps: int, draw: int)
    requires f.limit > 0
    ensures UtilizationPasses(f, policyBps, draw) <==> (f.drawn + draw) * BPS < policyBps * f.limit + f.limit
  {
    var n, q := (f.drawn + draw) * BPS, (f.drawn + draw) * BPS / f.limit;
    FloorIff(n, f.limit, q);
    if q <= policyBps {
      MulMonotone(q, policyBps, f.limit);
    } else {
      MulMonotone(policyBps + 1, q, f.limit);
      assert (policyBps + 1) * f.limit == policyBps * f.limit + f.limit;
    }
  }

  /** Two of three units drawn under a ceiling of 66.66 %: above it, and let through. */
  lemma GateLetsThroughOverCeiling()
    ensures var f := Facility(3, 2, 6666);
      f.Valid() && UtilizationPasses(f, 6666, 0) && !WithinCeiling(f, 6666, 0)
  {
    FloorIff(20_000, 3, 6666);
  }

  // ----- Covenants -----

  datatype Kind = NET_DEBT_TO_EBITDA | INTEREST_COVERAGE | MIN_LIQUIDITY | MIN_CASH

  datatype Inputs = Inputs(cash: int, debt: int, undrawn: int, ebitda: int, interest: int)

  /** Headroom in basis points is reported for ratios only, in currency unless not computable. */
  datatype Status = Status(passed: bool, headroomBps: Option<int>, headroom: Option<int>)

  const NOT_COMPUTABLE := Status(false, None, None)

  function RatioStatus(value: int, threshold: int, isCeiling: bool, headroom: int): Status {
    var bps := if isCeiling then threshold - value else value - threshold;
    Status(bps >= 0, Some(bps), Some(headroom))
  }

  /** `evaluate`; the threshold is in basis points for a ratio and in minor units for an amount. */
  function Evaluate(kind: Kind, threshold: int, inputs: Inputs): Status {
    match kind
    case NET_DEBT_TO_EBITDA =>
      if inputs.ebitda <= 0 then NOT_COMPUTABLE
      else
        var netDebt := inputs.debt - inputs.cash;
        RatioStatus(netDebt * BPS / inputs.ebitda, threshold, true, threshold * inputs.ebitda / BPS - netDebt)
    case INTEREST_COVERAGE =>
      if inputs.interest <= 0 then NOT_COMPUTABLE
      else
        RatioStatus(inputs.ebitda * BPS / inputs.interest, threshold, false,
                    inputs.ebitda - threshold * inputs.interest / BPS)
    case MIN_LIQUIDITY =>
      var headroom := inputs.cash + inputs.undrawn - threshold;
      Status(headroom >= 0, None, Some(headroom))
    case MIN_CASH =>
      var headroom := inputs.cash - threshold;
      Status(headroom >= 0, None, Some(headroom))
  }

  lemma FloorAtMost(n: int, d: int, k: int)
    requires d > 0
    ensures n / d <= k <==> n < k * d + d
    ensures n / d >= k <==> n >= k * d
  {
    var q := n / d;
    FloorIff(n, d, q);
    if q <= k {
      MulMonotone(q, k, d);
    } else {
      MulMonotone(k + 1, q, d);
      assert (k + 1) * d == k * d + d;
    }
    if q < k {
      MulMonotone(q + 1, k, d);
      assert (q + 1) * d == q * d + d;
    } else {
      MulMonotone(k, q, d);
    }
  }

  /** Leverage: currency headroom is the exact test and the verdict is one basis point of EBITDA
      more lenient, so a pass may carry a negative headroom, by less than that. */
  lemma LeverageHeadroom(threshold: int, inputs: Inputs)
    requires inputs.ebitda > 0
    ensures var s, netDebt, e := Evaluate(NET_DEBT_TO_EBITDA, threshold, inputs), inputs.debt - inputs.cash, inputs.ebitda;
      && (s.passed <==> netDebt * BPS < threshold * e + e)
      && (s.headroom.value >= 0 <==> netDebt * BPS <= threshold * e)
      && (s.headroom.value >= 0 ==> s.passed)
      && (s.passed ==> s.headroom.value * BPS > -(e + BPS))
      && s.headroomBps.Some?
      && (threshold - s.headroomBps.value) * e <= netDebt * BPS < (threshold - s.headroomBps.value) * e + e
  {
    var netDebt, e := inputs.debt - inputs.cash, inputs.ebitda;
    FloorAtMost(netDebt * BPS, e, threshold);
    FloorIff(netDebt * BPS, e, netDebt * BPS / e);
    FloorAtMost(threshold * e, BPS, netDebt);
  }

  /** A net debt of one unit against a threshold of zero: passed, with a headroom of minus one. */
  lemma LeveragePassesBelowZero()
    ensures var s := Evaluate(NET_DEBT_TO_EBITDA, 0, Inputs(0, 1, 0, 20_000, 0));
      s.passed && s.headroom == Some(-1)
  {
  }

  /** Coverage: the verdict is the exact test and the currency headroom is up to one unit generous,
      so a fail may carry a headroom of zero, never a positive one. */
  lemma CoverageHeadroom(threshold: int, inputs: Inputs)
    requires inputs.interest > 0
    ensures var s, required := Evaluate(INTEREST_COVERAGE, threshold, inputs), threshold * inputs.interest;
      && (s.passed <==> inputs.ebitda * BPS >= required)
      && (s.passed ==> s.headroom.value >= 0)
      && (s.headroom.value > 0 ==> s.passed)
      && (s.headroom.value == 0 ==> (s.passed <==> required % BPS == 0))
      && s.headroomBps.Some?
      && (threshold + s.headroomBps.value) * inputs.interest <= inputs.ebitda * BPS
      && inputs.ebitda * BPS < (threshold + s.headroomBps.value) * inputs.interest + inputs.interest
  {
    FloorIff(inputs.ebitda * BPS, inputs.interest, inputs.ebitda * BPS / inputs.interest);
    FloorAtMost(inputs.ebitda * BPS, inputs.interest, threshold);
    var required := threshold * inputs.interest;
    FloorAtMost(required, BPS, inputs.ebitda);
  }

  /** A ratio without earnings, or without interest, to hold against is no pass and has no headroom. */
  lemma RatioNeedsBase(threshold: int, inputs: Inputs)
    ensures inputs.ebitda <= 0 ==> Evaluate(NET_DEBT_TO_EBITDA, threshold, inputs) == Status(false, None, None)
    ensures inputs.interest <= 0 ==> Evaluate(INTEREST_COVERAGE, threshold, inputs) == Status(false, None, None)
  {
  }

  /** Minimum cash and minimum liquidity: the headroom is exactly the cash that may still go out, and
      undrawn credit counts towards liquidity only. */
  lemma AmountHeadroom(threshold: int, inputs: Inputs, spent: int)
    ensures var after := inputs.(cash := inputs.cash - spent);
      && (Evaluate(MIN_CASH, threshold, after).passed <==> spent <= Evaluate(MIN_CASH, threshold, inputs).headroom.value)
      && (Evaluate(MIN_LIQUIDITY, threshold, after).passed
          <==> spent <= Evaluate(MIN_LIQUIDITY, threshold, inputs).headroom.value)
      && (Evaluate(MIN_CASH, inputs.cash, inputs).headroom == Some(0))
      && (Evaluate(MIN_LIQUIDITY, inputs.cash + inputs.undrawn, inputs).headroom == Some(0))
      && Evaluate(MIN_CASH, threshold, inputs).headroomBps == Evaluate(MIN_LIQUIDITY, threshold, inputs).headroomBps == None
  {
  }
}
