/** Integer division with an explicit rounding mode, and what each mode means. */
module Rounding {
  import opened Arith
  import opened Results

  datatype Mode = HALF_EVEN | HALF_UP | DOWN

  datatype Error = ZeroDivision

  /** The rounded quotient of two magnitudes. */
  function Magnitude(n: nat, d: nat, mode: Mode): nat
    requires d != 0
  {
    var q, r := n / d, n % d;
    match mode
    case DOWN => q
    case HALF_UP => if 2 * r >= d then q + 1 else q
    case HALF_EVEN => if 2 * r > d || (2 * r == d && q % 2 == 1) then q + 1 else q
  }

  function Rounded(n: int, d: int, mode: Mode): int
    requires d != 0
  {
    var m: int := Magnitude(Abs(n), Abs(d), mode);
    if (n < 0) == (d < 0) then m else -m
  }

  method DivRound(numer: int, denom: int, mode: Mode) returns (r: Result<int, Error>)
    ensures r.Err? <==> denom == 0
    ensures denom != 0 ==> r == Ok(Rounded(numer, denom, mode))
  {
    hide Rounded, Magnitude;
    var n: int, d: int := numer, denom;
    if d == 0 {
      return Err(ZeroDivision);
    }
    var sign: int := 1;
    if n < 0 {
      sign, n := -sign, -n;
    }
    if d < 0 {
      sign, d := -sign, -d;
    }
    var q := RoundMagnitude(n, d, mode);
    SignedIs(numer, denom, mode, sign, q);
    return Ok(sign * q);
  }

  /** The second half of `div_round`, where both operands are positive. */
  method RoundMagnitude(n: nat, d: nat, mode: Mode) returns (q: nat)
    requires d > 0
    ensures q == Magnitude(n, d, mode)
  {
    q := n / d;
    var rest := n % d;
    if rest == 0 || mode == DOWN {
      return;
    }
    var twice := rest * 2;
    if mode == HALF_UP {
      if twice >= d {
        q := q + 1;
      }
      return;
    }
    if twice > d || (twice == d && q % 2 == 1) {
      q := q + 1;
    }
  }

  lemma SignedIs(n: int, d: int, mode: Mode, sign: int, q: nat)
    requires d != 0 && sign == (if (n < 0) == (d < 0) then 1 else -1)
    requires q == Magnitude(Abs(n), Abs(d), mode)
    ensures sign * q == Rounded(n, d, mode)
  {
    hide Magnitude;
  }

  /** What the modes promise, without saying how: DOWN is the integer quotient nearest zero
      that does not exceed the exact one in size; the half modes return an integer at most half
      a unit away, and on a tie the one further from zero, or the even one. */
  ghost predicate IsRounding(n: int, d: int, mode: Mode, q: int)
    requires d != 0
  {
    match mode
    case DOWN =>
      && Abs(q) * Abs(d) <= Abs(n) < Abs(q) * Abs(d) + Abs(d)
      && (q != 0 ==> (q < 0) == ((n < 0) != (d < 0)))
    case HALF_UP =>
      && 2 * Abs(n - q * d) <= Abs(d)
      && (2 * Abs(n - q * d) == Abs(d) ==> Abs(q * d) > Abs(n))
    case HALF_EVEN =>
      && 2 * Abs(n - q * d) <= Abs(d)
      && (2 * Abs(n - q * d) == Abs(d) ==> q % 2 == 0)
  }

  lemma MagnitudeIsRounding(n: nat, d: nat, mode: Mode)
    requires d != 0
    ensures IsRounding(n, d, mode, Magnitude(n, d, mode))
  {
    hide IsRounding;
    var q, r, m := n / d, n % d, Magnitude(n, d, mode);
    assert n == q * d + r;
    assert m == q || m == q + 1;
    OneMoreTimes(q, d);
    RoundingOfMagnitude(n, d, mode, m, m * d);
  }

  lemma OneMoreTimes(q: int, d: int)
    ensures (q + 1) * d == q * d + d
  {
  }

  lemma RoundingOfMagnitude(n: nat, d: nat, mode: Mode, q: nat, p: int)
    requires d != 0 && p == q * d
    requires match mode
      case DOWN => p <= n < p + d
      case HALF_UP => 2 * Abs(n - p) <= d && (2 * Abs(n - p) == d ==> p > n)
      case HALF_EVEN => 2 * Abs(n - p) <= d && (2 * Abs(n - p) == d ==> q % 2 == 0)
    ensures IsRounding(n, d, mode, q)
  {
    MulMonotone(0, q, d);
  }

  lemma ProductSigns(q: int, d: int)
    ensures (-q) * d == -(q * d) && q * (-d) == -(q * d) && (-q) * (-d) == q * d
  {
  }

  lemma RoundedIsRounding(n: int, d: int, mode: Mode)
    requires d != 0
    ensures IsRounding(n, d, mode, Rounded(n, d, mode))
  {
    hide Magnitude;
    var m := Magnitude(Abs(n), Abs(d), mode);
    MagnitudeIsRounding(Abs(n), Abs(d), mode);
    ProductSigns(m, d);
    ProductSigns(m, Abs(d));
  }

  lemma RoundingUnique(n: int, d: int, mode: Mode, p: int, q: int)
    requires d != 0 && IsRounding(n, d, mode, p) && IsRounding(n, d, mode, q)
    ensures p == q
  {
    if p < q {
      RoundingOrder(n, d, mode, p, q);
    } else if q < p {
      RoundingOrder(n, d, mode, q, p);
    }
  }

  lemma RoundingOrder(n: int, d: int, mode: Mode, p: int, q: int)
    requires d != 0 && IsRounding(n, d, mode, p) && IsRounding(n, d, mode, q)
    ensures p >= q
  {
    if p < q {
      var e := Abs(d);
      ProductSigns(p, e);
      ProductSigns(q, e);
      MulStrict(p, q, e);
      if mode == DOWN {
        if Abs(p) < Abs(q) {
          MulStrict(Abs(p), Abs(q), e);
        } else if Abs(q) < Abs(p) {
          MulStrict(Abs(q), Abs(p), e);
        }
      } else {
        assert q == p + 1 by {
          assert (p + 1) * e == p * e + e;
          if q > p + 1 {
            MulStrict(p + 1, q, e);
          }
        }
        if mode == HALF_UP {
          if p >= 0 {
            MulMonotone(0, p, e);
          } else {
            MulMonotone(q, 0, e);
          }
        }
      }
    }
  }

  /** The computed quotient is the one integer the mode allows. */
  lemma RoundedIff(n: int, d: int, mode: Mode, q: int)
    requires d != 0
    ensures q == Rounded(n, d, mode) <==> IsRounding(n, d, mode, q)
  {
    RoundedIsRounding(n, d, mode);
    if IsRounding(n, d, mode, q) {
      RoundingUnique(n, d, mode, q, Rounded(n, d, mode));
    }
  }

  lemma RoundedOdd(n: int, d: int, mode: Mode)
    requires d != 0
    ensures Rounded(-n, d, mode) == -Rounded(n, d, mode)
    ensures Rounded(n, -d, mode) == -Rounded(n, d, mode)
  {
    if n == 0 {
      assert 0 / Abs(d) == 0 && 0 % Abs(d) == 0;
    }
  }

  lemma RoundedMonotone(n: int, m: int, d: int, mode: Mode)
    requires 0 < d && n <= m
    ensures Rounded(n, d, mode) <= Rounded(m, d, mode)
  {
    RoundedIsRounding(n, d, mode);
    RoundedIsRounding(m, d, mode);
    var p, q := Rounded(n, d, mode), Rounded(m, d, mode);
    if q < p {
      MulStrict(q, p, d);
      ProductSigns(p, d);
      ProductSigns(q, d);
    }
  }

  /** A common positive factor cancels. */
  lemma RoundedScale(n: int, d: int, k: int, mode: Mode)
    requires 0 < d && 0 < k
    ensures 0 < k * d && Rounded(k * n, k * d, mode) == Rounded(n, d, mode)
  {
    ScaleAbs(k, n);
    ScaleAbs(k, d);
    var m := Abs(n);
    ScaledQuotient(m, d, k);
    var r := m % d;
    CompareScaled(k, 2 * r, d);
    CompareScaled(k, d, 2 * r);
    assert k * (2 * r) == 2 * (k * r);
    SameMagnitude(k * m, k * d, m, d, mode);
  }

  lemma SameMagnitude(n: nat, d: nat, m: nat, e: nat, mode: Mode)
    requires d != 0 && e != 0 && n / d == m / e
    requires 2 * (n % d) > d <==> 2 * (m % e) > e
    requires 2 * (n % d) < d <==> 2 * (m % e) < e
    ensures Magnitude(n, d, mode) == Magnitude(m, e, mode)
  {
  }

  lemma ScaledQuotient(m: nat, d: nat, k: nat)
    requires 0 < d && 0 < k
    ensures 0 < k * d && (k * m) / (k * d) == m / d && (k * m) % (k * d) == k * (m % d)
  {
    var q, r := m / d, m % d;
    MulStrict(0, k, d);
    calc {
      k * m;
      k * (q * d + r);
      k * (q * d) + k * r;
      q * (k * d) + k * r;
    }
    CompareScaled(k, r, d);
    MulMonotone(0, r, k);
    QuotientFrom(k * m, k * d, q, k * r);
  }

  lemma QuotientFrom(n: nat, d: nat, q: nat, r: nat)
    requires d != 0 && n == q * d + r && r < d
    ensures n / d == q && n % d == r
  {
    FloorIff(n, d, q);
  }

  lemma CompareScaled(k: int, x: int, y: int)
    requires 0 < k
    ensures k * x < k * y <==> x < y
  {
    if x < y {
      MulStrict(x, y, k);
    } else {
      MulMonotone(y, x, k);
    }
  }

  lemma ScaleAbs(k: int, x: int)
    requires 0 < k
    ensures Abs(k * x) == k * Abs(x)
    ensures x < 0 <==> k * x < 0
  {
    if x >= 0 {
      MulMonotone(0, x, k);
    } else {
      MulStrict(x, 0, k);
    }
  }
}
