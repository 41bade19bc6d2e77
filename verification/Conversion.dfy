/** Currency conversion by an integer ratio, and what is left of the source amount. */
module Conversion {
  import opened Arith
  import opened Results
  import opened Rounding

  /** An ISO-4217 currency: the code and how many decimals its minor unit has. */
  datatype Currency = Currency(code: string, exponent: nat)

  datatype Money = Money(amount: int, currency: Currency)

  /** `numer / denom` major units of `quote` for one major unit of `base`. */
  datatype FXRate = FXRate(base: Currency, quote: Currency, numer: int, denom: int) {
    predicate Valid() {
      numer > 0 && denom > 0 && (base.code == quote.code ==> numer == denom)
    }

    function Invert(): FXRate {
      FXRate(quote, base, denom, numer)
    }
  }

  datatype ConversionError = NeedsIdentityPair | PairMismatch

  function Pow10(k: nat): (p: nat)
    ensures p > 0
  {
    if k == 0 then 1 else 10 * Pow10(k - 1)
  }

  /** Minor units per major unit, multiplied up one decimal at a time. */
  method MinorUnits(c: Currency) returns (scale: nat)
    ensures scale == Pow10(c.exponent)
  {
    scale := 1;
    for k := 0 to c.exponent
      invariant scale == Pow10(k)
    {
      scale := scale * 10;
    }
  }

  /** The ratio (numerator, denominator) of a rate read in the direction source to target. */
  function Direction(source: Currency, target: Currency, rate: FXRate): Option<(int, int)> {
    if rate.base.code == source.code && rate.quote.code == target.code then Some((rate.numer, rate.denom))
    else if rate.base.code == target.code && rate.quote.code == source.code then Some((rate.denom, rate.numer))
    else None
  }

  /** Target minor units per source minor unit, as the fraction Gain / Cost. */
  function Gain(target: Currency, numer: int): int {
    Pow10(target.exponent) * numer
  }

  function Cost(source: Currency, denom: int): int {
    Pow10(source.exponent) * denom
  }

  /** `c` minor units of the target are what `amount` minor units of the source are worth, at
      `numer / denom` major units of the target for one of the source: to within half a minor unit
      either side, or cut off towards zero. */
  ghost predicate ConvertsAt(amount: int, source: Currency, target: Currency, numer: int, denom: int, mode: Mode, c: int)
  {
    var exact, unit := amount * Pow10(target.exponent) * numer, Pow10(source.exponent) * denom;
    match mode
    case DOWN => Abs(c) * unit <= Abs(exact) < Abs(c) * unit + unit && (c != 0 ==> ((c < 0) <==> (exact < 0)))
    case HALF_UP =>
      2 * Abs(c * unit - exact) <= unit && (2 * Abs(c * unit - exact) == unit ==> Abs(c * unit) > Abs(exact))
    case HALF_EVEN =>
      2 * Abs(c * unit - exact) <= unit && (2 * Abs(c * unit - exact) == unit ==> c % 2 == 0)
  }

  /** A conversion at a price of `numer / denom`, and back again. */
  ghost predicate ConvertsWithRest(self: Money, target: Currency, numer: int, denom: int, mode: Mode,
                                   r: Result<(Money, int), ConversionError>)
  {
    && r.Ok? && r.value.0.currency == target
    && ConvertsAt(self.amount, self.currency, target, numer, denom, mode, r.value.0.amount)
    && ConvertsAt(r.value.0.amount, target, self.currency, denom, numer, mode, self.amount - r.value.1)
  }

  /** `Money.convert_with_remainder`. The result is fixed by the two roundings: the converted
      amount is the exact one rounded, and what it stands for, rounded back, plus the leftover
      is the source amount. A rate whose base is the source is read as it stands, one whose base is
      the target the other way round. */
  method ConvertWithRemainder(self: Money, target: Currency, rate: FXRate, mode: Mode)
    returns (r: Result<(Money, int), ConversionError>)
    requires rate.Valid()
    ensures self.currency.code == target.code ==>
      if rate.base.code == self.currency.code && rate.quote.code == target.code
      then r == Ok((self, 0)) else r == Err(NeedsIdentityPair)
    ensures self.currency.code != target.code ==>
      match Direction(self.currency, target, rate)
      case None => r == Err(PairMismatch)
      case Some((numer, denom)) =>
        var a, b := Gain(target, numer), Cost(self.currency, denom);
        && a > 0 && b > 0
        && r == Ok((Money(Converted(self.amount, a, b, mode), target), Leftover(self.amount, a, b, mode)))
    ensures self.currency.code != target.code && rate.base.code == self.currency.code && rate.quote.code == target.code ==>
      ConvertsWithRest(self, target, rate.numer, rate.denom, mode, r)
    ensures self.currency.code != target.code && rate.base.code == target.code && rate.quote.code == self.currency.code ==>
      ConvertsWithRest(self, target, rate.denom, rate.numer, mode, r)
    ensures self.currency.code != target.code && {rate.base.code, rate.quote.code} != {self.currency.code, target.code} ==>
      r == Err(PairMismatch)
  {
    hide ConvertsWithRest, Rounded, Pow10;
    var source := self.currency;
    if source.code == target.code {
      if rate.base.code != source.code || rate.quote.code != target.code {
        return Err(NeedsIdentityPair);
      }
      return Ok((self, 0));
    }
    var numer, denom: int;
    if rate.base.code == source.code && rate.quote.code == target.code {
      numer, denom := rate.numer, rate.denom;
    } else if rate.base.code == target.code && rate.quote.code == source.code {
      numer, denom := rate.denom, rate.numer;
    } else {
      return Err(PairMismatch);
    }
    var targetScale := MinorUnits(target);
    var sourceScale := MinorUnits(source);
    ghost var a, b := Gain(target, numer), Cost(source, denom);
    MulStrict(0, targetScale, numer);
    MulStrict(0, sourceScale, denom);
    MulAssociates(self.amount, targetScale, numer);
    var converted := DivRound(self.amount * targetScale * numer, sourceScale * denom, mode);
    MulAssociates(converted.value, sourceScale, denom);
    var implied := DivRound(converted.value * sourceScale * denom, targetScale * numer, mode);
    ConvertedWithRest(self, target, numer, denom, mode);
    return Ok((Money(converted.value, target), self.amount - implied.value));
  }

  lemma ConvertedWithRest(self: Money, target: Currency, numer: int, denom: int, mode: Mode)
    requires numer > 0 && denom > 0
    ensures Gain(target, numer) > 0 && Cost(self.currency, denom) > 0
    ensures var a, b := Gain(target, numer), Cost(self.currency, denom);
      ConvertsWithRest(self, target, numer, denom, mode,
                       Ok((Money(Converted(self.amount, a, b, mode), target), Leftover(self.amount, a, b, mode))))
  {
    hide ConvertsAt, Rounded, Pow10;
    ConvertedAtPrice(self.amount, self.currency, target, numer, denom, mode);
    var c := Converted(self.amount, Gain(target, numer), Cost(self.currency, denom), mode);
    ConvertedAtPrice(c, target, self.currency, denom, numer, mode);
  }

  lemma ConvertedAtPrice(amount: int, source: Currency, target: Currency, numer: int, denom: int, mode: Mode)
    requires numer > 0 && denom > 0
    ensures Gain(target, numer) > 0 && Cost(source, denom) > 0
    ensures ConvertsAt(amount, source, target, numer, denom, mode,
                       Rounded(amount * Gain(target, numer), Cost(source, denom), mode))
  {
    hide Rounded, Pow10;
    MulStrict(0, Pow10(target.exponent), numer);
    MulStrict(0, Pow10(source.exponent), denom);
    MulAssociates(amount, Pow10(target.exponent), numer);
    RoundedIsRounding(amount * Gain(target, numer), Cost(source, denom), mode);
  }

  const EUR := Currency("EUR", 2)
  const USD := Currency("USD", 2)
  const JPY := Currency("JPY", 0)

  /** At 1.0850 dollars for one euro, 100.00 euros are 108.50 dollars and nothing else; at 160 yen for
      one euro they are 16000 yen, which has no decimals. */
  lemma HundredEuros(mode: Mode, c: int)
    ensures ConvertsAt(10_000, EUR, USD, 10_850, 10_000, mode, c) <==> c == 10_850
    ensures ConvertsAt(10_000, EUR, JPY, 160, 1, mode, c) <==> c == 16_000
  {
    assert Pow10(0) == 1 && Pow10(1) == 10 && Pow10(2) == 100;
  }

  lemma MulAssociates(x: int, y: int, z: int)
    ensures x * y * z == x * (y * z)
  {
  }

  /** A rate and its inverse convert alike. */
  lemma InvertedRateAgrees(source: Currency, target: Currency, rate: FXRate)
    requires rate.Valid()
    ensures rate.Invert().Valid() && rate.Invert().Invert() == rate
    ensures source.code != target.code ==>
      Direction(source, target, rate.Invert()) == Direction(source, target, rate)
  {
  }

  // ----- The arithmetic of one conversion: a / b target units for one source unit -----

  function Converted(x: int, a: int, b: int, mode: Mode): int
    requires a > 0 && b > 0
  {
    Rounded(x * a, b, mode)
  }

  function Leftover(x: int, a: int, b: int, mode: Mode): int
    requires a > 0 && b > 0
  {
    x - Rounded(Converted(x, a, b, mode) * b, a, mode)
  }

  lemma ConvertedMonotone(x: int, y: int, a: int, b: int, mode: Mode)
    requires a > 0 && b > 0 && x <= y
    ensures Converted(x, a, b, mode) <= Converted(y, a, b, mode)
  {
    MulMonotone(x, y, a);
    RoundedMonotone(x * a, y * a, b, mode);
  }

  lemma ConvertedOdd(x: int, a: int, b: int, mode: Mode)
    requires a > 0 && b > 0
    ensures Converted(-x, a, b, mode) == -Converted(x, a, b, mode)
    ensures Leftover(-x, a, b, mode) == -Leftover(x, a, b, mode)
  {
    ProductSigns(x, a);
    RoundedOdd(x * a, b, mode);
    var c := Converted(x, a, b, mode);
    ProductSigns(c, b);
    RoundedOdd(c * b, a, mode);
  }

  /** The converted amount `c` and what it stands for, `m`, are roundings. */
  lemma Roundings(x: int, a: int, b: int, mode: Mode) returns (c: int, m: int)
    requires a > 0 && b > 0
    ensures c == Converted(x, a, b, mode) && Leftover(x, a, b, mode) == x - m
    ensures IsRounding(x * a, b, mode, c) && IsRounding(c * b, a, mode, m)
  {
    c := Converted(x, a, b, mode);
    m := Rounded(c * b, a, mode);
    RoundedIsRounding(x * a, b, mode);
    RoundedIsRounding(c * b, a, mode);
  }

  /** Converting leaves an error of at most b / 2, rounding back one of at most a / 2, and the
      leftover is worth their sum. */
  lemma Errors(x: int, a: int, b: int, mode: Mode, c: int, m: int)
    requires a > 0 && b > 0 && mode != DOWN
    requires IsRounding(x * a, b, mode, c) && IsRounding(c * b, a, mode, m)
    ensures 2 * Abs(c * b - m * a) <= a && 2 * Abs((x - m) * a - (c * b - m * a)) <= b
  {
    assert (x - m) * a == x * a - m * a;
  }

  /** In the half modes the leftover is worth at most half a target unit plus half a source unit. */
  lemma LeftoverBound(x: int, a: int, b: int, mode: Mode)
    requires a > 0 && b > 0 && mode != DOWN
    ensures Abs(Leftover(x, a, b, mode)) * (2 * a) <= a + b
  {
    var c, m := Roundings(x, a, b, mode);
    Errors(x, a, b, mode, c, m);
    AbsTimes(x - m, a);
  }

  lemma AbsTimes(l: int, a: int)
    requires a > 0
    ensures Abs(l) * (2 * a) == 2 * Abs(l * a)
  {
    ProductSigns(l, a);
    MulMonotone(0, Abs(l), a);
  }

  /** A target at least as fine as the source loses nothing. */
  lemma FinerTargetLosesNothing(x: int, a: int, b: int, mode: Mode)
    requires 0 < b <= a && mode != DOWN
    ensures Leftover(x, a, b, mode) == 0
  {
    if a == b {
      RoundedIff(x * a, b, mode, x);
      RoundedIff(x * b, a, mode, x);
    } else {
      LeftoverBound(x, a, b, mode);
      OneIsTooMuch(Abs(Leftover(x, a, b, mode)), a);
    }
  }

  lemma OneIsTooMuch(l: nat, a: int)
    requires a > 0 && l * (2 * a) < 2 * a
    ensures l == 0
  {
    if l > 0 {
      MulMonotone(1, l, 2 * a);
    }
  }

  // ----- Does converting the leftover give nothing? -----

  /** Its documentation says so (money.py:208-213). It does not at the rate 2/3. */
  lemma LeftoverMayConvert()
    ensures Leftover(1, 2, 3, HALF_EVEN) == -1
    ensures Converted(Leftover(1, 2, 3, HALF_EVEN), 2, 3, HALF_EVEN) == -1
  {
  }

  ghost predicate LeftoverVanishes(a: int, b: int, mode: Mode)
    requires a > 0 && b > 0
  {
    forall x :: Converted(Leftover(x, a, b, mode), a, b, mode) == 0
  }

  /** What a caller can check: the whole quotient of the rate, and whether it is exact. */
  predicate RateKeepsPromise(a: int, b: int, mode: Mode)
    requires a > 0 && b > 0
  {
    match mode
    case HALF_EVEN => b % a == 0 || (b / a) % 2 == 0
    case HALF_UP => if b % a == 0 then (b / a) % 2 == 1 else (b / a) % 2 == 0
    case DOWN => b % a == 0 || b % a == Gcd(a, b)
  }

  function Gcd(a: nat, b: nat): nat
    decreases b
  {
    if b == 0 then a else Gcd(b, a % b)
  }

  lemma ConvertsToZero(l: int, a: int, b: int, mode: Mode)
    requires a > 0 && b > 0
    ensures Converted(l, a, b, mode) == 0 <==>
      match mode
      case HALF_EVEN => 2 * Abs(l * a) <= b
      case HALF_UP => 2 * Abs(l * a) < b
      case DOWN => Abs(l * a) < b
  {
    RoundedIff(l * a, b, mode, 0);
    assert 0 * b == 0;
  }

  lemma MultipleWithinHalf(j: int, a: int)
    requires a > 0 && 2 * Abs(j * a) <= a
    ensures j == 0
  {
    if j > 0 {
      MulMonotone(1, j, a);
    } else if j < 0 {
      MulMonotone(j, -1, a);
    }
  }

  /** Rounding back a multiple of an exact rate leaves no error. */
  lemma ExactRateNoError(a: int, k: int, c: int, m: int)
    requires a > 0 && 2 * Abs(c * (k * a) - m * a) <= a
    ensures c * (k * a) == m * a
  {
    assert (c * k - m) * a == c * (k * a) - m * a;
    MultipleWithinHalf(c * k - m, a);
  }

  lemma OddIsNoDouble(l: int, k: int, a: int)
    requires a > 0 && k % 2 == 1
    ensures 2 * (l * a) != k * a
  {
    assert 2 * (l * a) == (2 * l) * a;
    if 2 * l < k {
      MulStrict(2 * l, k, a);
    } else {
      MulStrict(k, 2 * l, a);
    }
  }

  lemma EvenRateKeeps(l: int, a: int, k: int, rho: int, s: int)
    requires 0 < rho < a && l >= 0 && k % 2 == 0
    requires 2 * Abs(s) <= a && 2 * Abs(l * a - s) <= k * a + rho
    ensures 2 * Abs(l * a) < k * a + rho
  {
    MulMonotone(0, l, a);
    if 2 * l >= k + 2 {
      MulMonotone(k + 2, 2 * l, a);
      assert (k + 2) * a == k * a + 2 * a;
    } else {
      assert 2 * l <= k;
      MulMonotone(2 * l, k, a);
    }
  }

  /** The algebra of a kept promise: a leftover `x - m >= 0` is worth at most half a target unit. */
  lemma LeftoverIsSmall(x: int, a: int, b: int, mode: Mode, c: int, m: int)
    requires a > 0 && b > 0 && mode != DOWN && RateKeepsPromise(a, b, mode) && x >= m
    requires 2 * Abs(c * b - m * a) <= a && 2 * Abs((x - m) * a - (c * b - m * a)) <= b
    ensures if mode == HALF_EVEN then 2 * Abs((x - m) * a) <= b else 2 * Abs((x - m) * a) < b
  {
    var k := b / a;
    assert b == k * a + b % a;
    if b % a == 0 {
      ExactRateNoError(a, k, c, m);
      if k % 2 == 1 {
        OddIsNoDouble(x - m, k, a);
        MulMonotone(0, x - m, a);
      }
    } else {
      EvenRateKeeps(x - m, a, k, b % a, c * b - m * a);
    }
  }

  /** Truncating both ways loses `b - g` and `a - g` at most, too little to reach the next multiple. */
  lemma TruncatedLeftoverIsSmall(x: int, a: int, b: int, c: int, m: int)
    requires a > 0 && b > 0 && x >= 0 && RateKeepsPromise(a, b, DOWN)
    requires IsRounding(x * a, b, DOWN, c) && IsRounding(c * b, a, DOWN, m)
    ensures 0 <= (x - m) * a < b
  {
    MulMonotone(0, x, a);
    NonNegativeQuotient(x * a, b, c);
    MulMonotone(0, c, b);
    NonNegativeQuotient(c * b, a, m);
    TruncatedErrors(x, a, b, c, m);
  }

  lemma TruncatedErrors(x: int, a: int, b: int, c: int, m: int)
    requires a > 0 && b > 0 && (b % a == 0 || b % a == Gcd(a, b))
    requires 0 <= x * a - c * b < b && 0 <= c * b - m * a < a
    ensures 0 <= (x - m) * a < b
  {
    hide Gcd;
    assert (x - m) * a == x * a - m * a;
    if b % a == 0 {
      ExactTruncation(a, b / a, c, m);
    } else {
      ErrorsBelowByGcd(x, a, b, c, m);
      if (x - m) * a >= b {
        NextMultiple(x - m, a, b);
      }
    }
  }

  lemma ExactTruncation(a: int, k: int, c: int, m: int)
    requires a > 0 && 0 <= c * (k * a) - m * a < a
    ensures c * (k * a) == m * a
  {
    assert (c * k - m) * a == c * (k * a) - m * a;
    MultipleBelowOne(c * k - m, a);
  }

  lemma ErrorsBelowByGcd(x: int, a: int, b: int, c: int, m: int)
    requires a > 0 && b > 0
    requires 0 <= x * a - c * b < b && 0 <= c * b - m * a < a
    ensures x * a - c * b <= b - Gcd(a, b) && c * b - m * a <= a - Gcd(a, b)
  {
    var g, p, q, u, v := LowestTerms(a, b);
    assert x * a - c * b == g * (x * p - c * q) by {
      assert g * (x * p - c * q) == x * (g * p) - c * (g * q);
    }
    assert c * b - m * a == g * (c * q - m * p) by {
      assert g * (c * q - m * p) == c * (g * q) - m * (g * p);
    }
    StepBelow(g, x * p - c * q, q);
    StepBelow(g, c * q - m * p, p);
  }

  /** A multiple of `a` that reaches `b` overshoots it by what `b` lacks. */
  lemma NextMultiple(l: int, a: int, b: int)
    requires a > 0 && b > 0 && b % a != 0 && l * a >= b
    ensures l * a >= b + a - b % a
  {
    var k := b / a;
    assert b == k * a + b % a;
    if l <= k {
      MulMonotone(l, k, a);
    } else {
      MulMonotone(k + 1, l, a);
      assert (k + 1) * a == k * a + a;
    }
  }

  lemma NonNegativeQuotient(n: int, d: int, q: int)
    requires n >= 0 && d > 0 && IsRounding(n, d, DOWN, q)
    ensures q >= 0 && 0 <= n - q * d < d
  {
  }

  lemma MultipleBelowOne(j: int, a: int)
    requires a > 0 && 0 <= j * a < a
    ensures j == 0
  {
    if j > 0 {
      MulMonotone(1, j, a);
    } else if j < 0 {
      MulMonotone(j, -1, a);
    }
  }

  lemma StepBelow(g: int, i: int, n: int)
    requires g > 0 && g * i < g * n
    ensures g * i <= g * n - g
  {
    CompareScaled(g, i, n);
    MulMonotone(i, n - 1, g);
    assert g * (n - 1) == g * n - g;
  }

  lemma PromiseKeptPositive(x: int, a: int, b: int, mode: Mode)
    requires a > 0 && b > 0 && RateKeepsPromise(a, b, mode)
    requires if mode == DOWN then x >= 0 else Leftover(x, a, b, mode) >= 0
    ensures Converted(Leftover(x, a, b, mode), a, b, mode) == 0
  {
    var c, m := Roundings(x, a, b, mode);
    if mode == DOWN {
      TruncatedLeftoverIsSmall(x, a, b, c, m);
    } else {
      Errors(x, a, b, mode, c, m);
      LeftoverIsSmall(x, a, b, mode, c, m);
    }
    ConvertsToZero(x - m, a, b, mode);
  }

  lemma PromiseKept(a: int, b: int, mode: Mode)
    requires a > 0 && b > 0 && RateKeepsPromise(a, b, mode)
    ensures LeftoverVanishes(a, b, mode)
  {
    forall x
      ensures Converted(Leftover(x, a, b, mode), a, b, mode) == 0
    {
      ConvertedOdd(x, a, b, mode);
      if (if mode == DOWN then x else Leftover(x, a, b, mode)) >= 0 {
        PromiseKeptPositive(x, a, b, mode);
      } else {
        PromiseKeptPositive(-x, a, b, mode);
        ConvertedOdd(Leftover(x, a, b, mode), a, b, mode);
      }
    }
  }

  /** Bezout: lowest terms and a combination that gives one. */
  lemma {:induction false} LowestTerms(a: int, b: int) returns (g: int, p: int, q: int, u: int, v: int)
    requires a > 0 && b >= 0
    ensures g == Gcd(a, b) > 0 && a == g * p && b == g * q && u * q - v * p == 1
    decreases b
  {
    if b == 0 {
      g, p, q, u, v := a, 1, 0, 0, -1;
    } else {
      var k, r := a / b, a % b;
      var g', p', q', u', v' := LowestTerms(b, r);
      // b = g p', r = g q', u' q' - v' p' = 1, and a = k b + r
      g, p, q := g', k * p' + q', p';
      FactorStep(g, k, p', q');
      u, v := -v' - k * u', -u';
      BezoutStep(k, p', q', u', v');
    }
  }

  lemma FactorStep(g: int, k: int, p: int, q: int)
    ensures g * (k * p + q) == k * (g * p) + g * q
  {
  }

  lemma BezoutStep(k: int, p: int, q: int, u: int, v: int)
    requires u * q - v * p == 1
    ensures (-v - k * u) * p - (-u) * (k * p + q) == 1
  {
    var w := k * u;
    assert (-v - w) * p == -(v * p) - w * p;
    assert (-u) * (k * p + q) == -(u * (k * p)) - u * q;
    assert u * (k * p) == w * p;
  }

  /** Every rounding error that is a multiple of the common factor occurs, at either parity of
      whichever coefficient has an odd step. */
  lemma ErrorOccurs(g: int, p: int, q: int, u: int, v: int, s: int, t: int) returns (c: int, m: int)
    requires u * q - v * p == 1
    ensures c == s * u + t * p && m == s * v + t * q
    ensures c * (g * q) - m * (g * p) == g * s
  {
    c, m := s * u + t * p, s * v + t * q;
    calc {
      c * q - m * p;
      (s * u) * q + (t * p) * q - (s * v) * p - (t * q) * p;
      s * (u * q) - s * (v * p);
      s * (u * q - v * p);
      s;
    }
    assert c * (g * q) - m * (g * p) == g * (c * q - m * p);
  }

  lemma RoundedFromError(n: int, d: int, mode: Mode, q: int, e: int)
    requires d > 0 && mode != DOWN && e == n - q * d && 2 * Abs(e) <= d
    requires mode == HALF_EVEN && 2 * Abs(e) == d ==> q % 2 == 0
    requires mode == HALF_UP ==> e <= 0 && q > 0
    ensures Rounded(n, d, mode) == q
  {
    if mode == HALF_UP {
      MulMonotone(1, q, d);
    }
    RoundedIff(n, d, mode, q);
  }

  /** An amount built from its two errors: `s` on the way back and `l * a - s` on the way out. */
  lemma AmountWithErrors(a: int, b: int, mode: Mode, c: int, m: int, l: int, s: int)
    requires a > 0 && b > 0 && mode != DOWN && s == c * b - m * a
    requires 2 * Abs(s) <= a && 2 * Abs(l * a - s) <= b
    requires mode == HALF_EVEN ==> (2 * Abs(s) == a ==> m % 2 == 0) && (2 * Abs(l * a - s) == b ==> c % 2 == 0)
    requires mode == HALF_UP ==> s <= 0 && l * a - s <= 0 && c > 0 && m > 0
    ensures Leftover(m + l, a, b, mode) == l
  {
    assert (m + l) * a == m * a + l * a;
    RoundedFromError((m + l) * a, b, mode, c, l * a - s);
    RoundedFromError(c * b, a, mode, m, s);
  }

  /** When the whole quotient is odd and not exact, half a source unit back can be lost twice. */
  lemma BrokenHalfEven(a: int, b: int) returns (x: int)
    requires a > 0 && b > 0 && !RateKeepsPromise(a, b, HALF_EVEN)
    ensures Converted(Leftover(x, a, b, HALF_EVEN), a, b, HALF_EVEN) != 0
  {
    var k := b / a;
    assert b == k * a + b % a;
    var g, p, q, u, v := LowestTerms(a, b);
    var l, h := (k + 1) / 2, p / 2;
    OddQuotient(a, b, g, p, q, l);
    HalfOfMultiple(g, p);
    var t := Parity(p, q, u, v, h);
    var c, m := ErrorOccurs(g, p, q, u, v, h, t);
    TieRule(a, b, g * h, l * a, p, c, m);
    AmountWithErrors(a, b, HALF_EVEN, c, m, l, g * h);
    x := m + l;
    ConvertsToZero(l, a, b, HALF_EVEN);
  }

  lemma TieRule(a: int, b: int, s: int, la: int, p: int, c: int, m: int)
    requires 0 < a <= b < 2 * la <= b + 2 * s && 2 * s <= a && 2 * la < b + a
    requires if p % 2 == 1 then 2 * s < a && c % 2 == 0 else 2 * s == a && m % 2 == 0
    ensures 2 * Abs(s) <= a && 2 * Abs(la - s) <= b
    ensures (2 * Abs(s) == a ==> m % 2 == 0) && (2 * Abs(la - s) == b ==> c % 2 == 0)
  {
  }

  /** With `b == k a + rho`, k odd: the middle multiple `l a` exceeds b / 2, by at most `g * (p / 2)`. */
  lemma OddQuotient(a: int, b: int, g: int, p: int, q: int, l: int)
    requires a > 0 && b > 0 && b % a != 0 && (b / a) % 2 == 1
    requires g > 0 && a == g * p && b == g * q && l == (b / a + 1) / 2
    ensures b < 2 * (l * a) <= b + 2 * (g * (p / 2)) && 2 * (g * (p / 2)) <= a
    ensures 2 * (l * a) < b + a && l > 0 && a <= b && p > 0 && q > 0
  {
    var k, rho := b / a, b % a;
    assert b == k * a + rho;
    assert 2 * (l * a) == (2 * l) * a == (k + 1) * a == k * a + a;
    var d := (k + 1) * p - q;
    assert g * d == a - rho by {
      assert g * d == (k + 1) * (g * p) - g * q;
    }
    assert p > 0 by {
      if p <= 0 {
        MulMonotone(p, 0, g);
      }
    }
    MultipleBelow(g, p, d);
    MulMonotone(1, k, a);
    assert q > 0 by {
      if q <= 0 {
        MulMonotone(q, 0, g);
      }
    }
  }

  lemma HalfOfMultiple(g: int, p: int)
    requires g > 0
    ensures p % 2 == 1 ==> 2 * (g * (p / 2)) == g * p - g
    ensures p % 2 == 0 ==> 2 * (g * (p / 2)) == g * p
  {
    var h := p / 2;
    if p % 2 == 0 {
      assert p == 2 * h;
      assert g * (2 * h) == 2 * (g * h);
    } else {
      assert p == 2 * h + 1;
      assert g * (2 * h + 1) == 2 * (g * h) + g;
    }
  }

  lemma MultipleBelow(g: int, p: int, d: int)
    requires g > 0 && p > 0 && g * d < g * p
    ensures g * d <= 2 * (g * (p / 2)) <= g * p
  {
    var h := p / 2;
    CompareScaled(g, d, p);
    assert d <= 2 * h <= p;
    MulMonotone(d, 2 * h, g);
    MulMonotone(2 * h, p, g);
    assert g * (2 * h) == 2 * (g * h);
  }

  /** A shift that makes the coefficient facing a tie even. */
  lemma Parity(p: int, q: int, u: int, v: int, h: int) returns (t: int)
    requires u * q - v * p == 1
    ensures p % 2 == 1 ==> (h * u + t * p) % 2 == 0
    ensures p % 2 == 0 ==> (h * v + t * q) % 2 == 0
  {
    if p % 2 == 1 {
      t := (h * u) % 2;
      ParityStep(h * u, t, p);
    } else {
      OddPartner(p, q, u, v);
      t := (h * v) % 2;
      ParityStep(h * v, t, q);
    }
  }

  lemma ParityStep(y: int, t: int, p: int)
    requires p % 2 == 1 && t == y % 2
    ensures (y + t * p) % 2 == 0
  {
  }

  lemma OddPartner(p: int, q: int, u: int, v: int)
    requires u * q - v * p == 1 && p % 2 == 0
    ensures q % 2 == 1
  {
    var i, j := p / 2, q / 2;
    assert v * p == 2 * (v * i) by { assert p == 2 * i; }
    assert u * q == 2 * (u * j) + u * (q % 2) by { assert q == 2 * j + q % 2; }
  }

  /** HALF_UP away from zero: the same loss, and also a tie when an exact quotient is even. */
  lemma BrokenHalfUp(a: int, b: int) returns (x: int)
    requires a > 0 && b > 0 && !RateKeepsPromise(a, b, HALF_UP)
    ensures Converted(Leftover(x, a, b, HALF_UP), a, b, HALF_UP) != 0
  {
    assert b == (b / a) * a + b % a;
    if b % a == 0 {
      x := EvenExactQuotient(a, b / a);
    } else {
      x := OddQuotientHalfUp(a, b);
    }
  }

  lemma EvenExactQuotient(a: int, k: int) returns (x: int)
    requires a > 0 && k * a > 0 && k % 2 == 0
    ensures Converted(Leftover(x, a, k * a, HALF_UP), a, k * a, HALF_UP) != 0
  {
    var h, b := k / 2, k * a;
    assert 2 * (h * a) == b by { assert (2 * h) * a == k * a; }
    ProductSigns(h, a);
    if k <= 0 {
      MulMonotone(k, 0, a);
    }
    AmountWithErrors(a, b, HALF_UP, 1, k, -h, 0);
    x := k + -h;
    ConvertsToZero(-h, a, b, HALF_UP);
  }

  lemma OddQuotientHalfUp(a: int, b: int) returns (x: int)
    requires a > 0 && b > 0 && b % a != 0 && (b / a) % 2 == 1
    ensures Converted(Leftover(x, a, b, HALF_UP), a, b, HALF_UP) != 0
  {
    var g, p, q, u, v := LowestTerms(a, b);
    var l, h := (b / a + 1) / 2, p / 2;
    OddQuotient(a, b, g, p, q, l);
    var t := Beyond(p, q, h * u, h * v);
    var c, m := ErrorOccurs(g, p, q, u, v, -h, t);
    ProductSigns(h, u);
    ProductSigns(h, v);
    ProductSigns(l, a);
    TimesNegated(g, h);
    AmountWithErrors(a, b, HALF_UP, c, m, -l, -(g * h));
    x := m + -l;
    ConvertsToZero(-l, a, b, HALF_UP);
  }

  lemma TimesNegated(g: int, h: int)
    ensures g * -h == -(g * h)
  {
  }

  /** A shift large enough to make both coefficients positive. */
  lemma Beyond(p: int, q: int, y: int, z: int) returns (t: int)
    requires p > 0 && q > 0
    ensures -y + t * p > 0 && -z + t * q > 0
  {
    t := Abs(y) + Abs(z) + 1;
    MulMonotone(1, p, t);
    MulMonotone(1, q, t);
  }

  lemma OneLess(g: int, p: int)
    ensures g * (p - 1) == g * p - g
  {
  }

  /** DOWN: lose `a - g` on the way back and what is missing to the next multiple on the way out. */
  lemma BrokenDown(a: int, b: int) returns (x: int)
    requires a > 0 && b > 0 && !RateKeepsPromise(a, b, DOWN)
    ensures Converted(Leftover(x, a, b, DOWN), a, b, DOWN) != 0
  {
    hide DownReaches, Converted, Leftover;
    var k := b / a;
    assert b == k * a + b % a;
    var g, p, q, u, v := LowestTerms(a, b);
    FactorsPositive(a, b, g, p, q, k);
    OneLess(g, p);
    NextAbove(a, b, k, g);
    var t := Beyond(p, q, -((p - 1) * u), -((p - 1) * v));
    var c, m := ErrorOccurs(g, p, q, u, v, p - 1, t);
    x := TruncatedAmount(a, b, c, m, k + 1, a - g);
  }

  lemma FactorsPositive(a: int, b: int, g: int, p: int, q: int, k: int)
    requires a > 0 && b > 0 && g > 0 && a == g * p && b == g * q
    requires b == k * a + b % a && b % a != 0
    ensures p > 0 && q > 0 && g <= a && g <= b % a
  {
    assert p > 0 && q > 0 by {
      if p <= 0 {
        MulMonotone(p, 0, g);
      }
      if q <= 0 {
        MulMonotone(q, 0, g);
      }
    }
    MulMonotone(1, p, g);
    assert g * (q - k * p) == g * q - k * (g * p);
    MultipleAtLeast(g, q - k * p);
  }

  predicate DownReaches(next: int, s: int, b: int) {
    0 <= next - s < b <= next
  }

  lemma NextAbove(a: int, b: int, k: int, g: int)
    requires a > 0 && b == k * a + b % a && 0 < g < b % a && k >= 0
    ensures DownReaches((k + 1) * a, a - g, b)
  {
    assert (k + 1) * a == k * a + a;
    MulMonotone(0, k, a);
  }

  lemma TruncatedAmount(a: int, b: int, c: int, m: int, l: int, s: int) returns (x: int)
    requires a > 0 && b > 0 && c > 0 && m > 0 && l > 0
    requires s == c * b - m * a && 0 <= s < a && DownReaches(l * a, s, b)
    ensures Converted(Leftover(x, a, b, DOWN), a, b, DOWN) != 0
  {
    x := m + l;
    assert x * a == m * a + l * a;
    TruncatedFromError(x * a, b, c, l * a - s);
    TruncatedFromError(c * b, a, m, s);
    ConvertsToZero(l, a, b, DOWN);
  }

  lemma MultipleAtLeast(g: int, i: int)
    requires g > 0 && g * i > 0
    ensures g * i >= g
  {
    if i <= 0 {
      MulMonotone(i, 0, g);
    } else {
      MulMonotone(1, i, g);
    }
  }

  lemma TruncatedFromError(n: int, d: int, q: int, e: int)
    requires d > 0 && q > 0 && e == n - q * d && 0 <= e < d
    ensures Rounded(n, d, DOWN) == q
  {
    MulMonotone(1, q, d);
    RoundedIff(n, d, DOWN, q);
  }

  /** The documented promise holds for every amount exactly for the rates that keep it. */
  lemma LeftoverVanishesIff(a: int, b: int, mode: Mode)
    requires a > 0 && b > 0
    ensures LeftoverVanishes(a, b, mode) <==> RateKeepsPromise(a, b, mode)
  {
    if RateKeepsPromise(a, b, mode) {
      PromiseKept(a, b, mode);
    } else if mode == HALF_EVEN {
      var x := BrokenHalfEven(a, b);
    } else if mode == HALF_UP {
      var x := BrokenHalfUp(a, b);
    } else {
      var x := BrokenDown(a, b);
    }
  }
}
