/** Integer facts the solver does not find by itself, each stated for the one product it needs. */
module Arith {

  function Abs(x: int): (r: nat)
    ensures r == x || r == -x
  {
    if x < 0 then -x else x
  }

  function Min(x: int, y: int): (r: int)
    ensures r <= x && r <= y && (r == x || r == y)
  {
    if x < y then x else y
  }

  function Max(x: int, y: int): (r: int)
    ensures r >= x && r >= y && (r == x || r == y)
  {
    if x < y then y else x
  }

  lemma MulMonotone(x: int, y: int, d: int)
    requires x <= y && 0 <= d
    ensures x * d <= y * d
  {
  }

  lemma MulStrict(x: int, y: int, d: int)
    requires x < y && 0 < d
    ensures x * d + d <= y * d
  {
    MulMonotone(x + 1, y, d);
    assert (x + 1) * d == x * d + d;
  }

  /** Floor division by a positive divisor: `q == n / d` says exactly this. */
  lemma FloorIff(n: int, d: int, q: int)
    requires 0 < d
    ensures q == n / d <==> q * d <= n < q * d + d
  {
    var f := n / d;
    assert f * d <= n < f * d + d;
    if q < f {
      MulStrict(q, f, d);
    } else if f < q {
      MulStrict(f, q, d);
    }
  }

  lemma FloorMonotone(n: int, m: int, d: int)
    requires n <= m && 0 < d
    ensures n / d <= m / d
  {
    if m / d < n / d {
      MulStrict(m / d, n / d, d);
    }
  }
}
