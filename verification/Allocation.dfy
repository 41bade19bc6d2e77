/** Splitting an amount by integer ratios, largest remainder first.

    `Money.allocate` of the finance layer and the one of the contracts layer are two loops over
    the same arithmetic. Both are proved against `Allocated`; what an allocation promises is
    proved about `Parts`, the split of a magnitude. */
module Allocation {
  import opened Arith
  import opened Results
  import opened Seqs

  datatype Error = NoRatios | NegativeRatio | ZeroTotal

  ghost predicate Weights(ratios: seq<int>) {
    (forall i :: 0 <= i < |ratios| ==> ratios[i] >= 0) && Sum(ratios) > 0
  }

  function Floor(amount: nat, ratio: int, total: int): int
    requires total > 0
  {
    amount * ratio / total
  }

  function Rest(amount: nat, ratio: int, total: int): int
    requires total > 0
  {
    amount * ratio % total
  }

  function Floors(amount: nat, ratios: seq<int>): seq<int>
    requires Sum(ratios) > 0
  {
    seq(|ratios|, i requires 0 <= i < |ratios| => Floor(amount, ratios[i], Sum(ratios)))
  }

  function Rests(amount: nat, ratios: seq<int>): seq<int>
    requires Sum(ratios) > 0
  {
    seq(|ratios|, i requires 0 <= i < |ratios| => Rest(amount, ratios[i], Sum(ratios)))
  }

  /** The sort key `(-remainder, index)`. */
  predicate Before(rests: seq<int>, i: nat, j: nat)
    requires i < |rests| && j < |rests|
  {
    rests[i] > rests[j] || (rests[i] == rests[j] && i < j)
  }

  ghost predicate IsRanking(rests: seq<int>, order: seq<nat>) {
    && |order| == |rests|
    && (forall p :: 0 <= p < |order| ==> order[p] < |rests|)
    && (forall p, q :: 0 <= p < q < |order| ==> Before(rests, order[p], order[q]))
    && (forall i :: 0 <= i < |rests| ==> i in order)
  }

  /** Python's `sorted(range(n), key=...)` on that key. */
  function Ranking(rests: seq<int>): (order: seq<nat>)
    ensures IsRanking(rests, order)
  {
    if rests == [] then []
    else
      var n := |rests| - 1;
      var order := Ranking(rests[..n]);
      assert forall p, q :: 0 <= p < q < |order| ==> Before(rests[..n], order[p], order[q]);
      InsertRank(rests, order, n)
  }

  ghost predicate RankedPrefix(rests: seq<int>, order: seq<nat>, k: nat) {
    && (forall p :: 0 <= p < |order| ==> order[p] < |rests| && order[p] < k)
    && (forall p, q :: 0 <= p < q < |order| ==> Before(rests, order[p], order[q]))
  }

  function InsertRank(rests: seq<int>, order: seq<nat>, k: nat): (r: seq<nat>)
    requires k < |rests| && RankedPrefix(rests, order, k)
    ensures |r| == |order| + 1
    ensures forall i :: i in r <==> i in order || i == k
    ensures forall p :: 0 <= p < |r| ==> r[p] <= k
    ensures forall p, q :: 0 <= p < q < |r| ==> Before(rests, r[p], r[q])
  {
    if order == [] then [k]
    else
      var n := |order| - 1;
      if Before(rests, order[n], k) then order + [k]
      else
        var r := InsertRank(rests, order[..n], k);
        assert order == order[..n] + [order[n]];
        assert forall i :: i in order[..n] ==> Before(rests, i, order[n]);
        assert forall i :: i in r ==> i < |rests| && Before(rests, i, order[n]);
        assert forall p :: 0 <= p < |r| ==> r[p] in r;
        r + [order[n]]
  }

  /** `floors[index] += 1` for every listed index. */
  function Bumped(floors: seq<int>, indices: seq<nat>): (r: seq<int>)
    requires forall p :: 0 <= p < |indices| ==> indices[p] < |floors|
    ensures |r| == |floors|
  {
    if indices == [] then floors
    else
      var n := |indices| - 1;
      var f := Bumped(floors, indices[..n]);
      f[indices[n] := f[indices[n]] + 1]
  }

  /** How many units the floors leave over. */
  function Leftover(amount: nat, ratios: seq<int>): int
    requires Sum(ratios) > 0
  {
    amount - Sum(Floors(amount, ratios))
  }

  lemma {:induction false} SumBelow(s: seq<int>, t: int)
    requires s != [] && forall i :: 0 <= i < |s| ==> 0 <= s[i] < t
    ensures 0 <= Sum(s) < |s| * t
  {
    var n := |s| - 1;
    if n == 0 {
      assert s[..0] == [];
      assert |s| * t == t;
    } else {
      SumBelow(s[..n], t);
      assert |s| * t == n * t + t;
    }
  }

  /** The remainders add up to exactly the leftover, in units of the total ratio. */
  lemma RestsSum(amount: nat, ratios: seq<int>)
    requires Weights(ratios)
    ensures Sum(Rests(amount, ratios)) == Leftover(amount, ratios) * Sum(ratios)
  {
    var t, f, r := Sum(ratios), Floors(amount, ratios), Rests(amount, ratios);
    var products := seq(|ratios|, i requires 0 <= i < |ratios| => amount * ratios[i]);
    var zeros := seq(|ratios|, i => 0);
    SumZero(zeros);
    SumLinear(zeros, ratios, amount, products);
    forall i | 0 <= i < |ratios|
      ensures products[i] == r[i] + t * f[i]
    {
    }
    SumLinear(r, f, t, products);
    assert amount * t == Sum(r) + t * Sum(f);
    assert (amount - Sum(f)) * t == amount * t - t * Sum(f);
  }

  lemma LeftoverBounds(amount: nat, ratios: seq<int>)
    requires Weights(ratios)
    ensures 0 <= Leftover(amount, ratios) < |ratios|
  {
    var t, l := Sum(ratios), Leftover(amount, ratios);
    assert ratios != [];
    RestsSum(amount, ratios);
    SumBelow(Rests(amount, ratios), t);
    if l < 0 {
      MulStrict(l, 0, t);
    } else if l >= |ratios| {
      MulMonotone(|ratios|, l, t);
    }
  }

  function Parts(amount: nat, ratios: seq<int>): (r: seq<int>)
    requires Weights(ratios)
    ensures |r| == |ratios|
  {
    LeftoverBounds(amount, ratios);
    Bumped(Floors(amount, ratios), Ranking(Rests(amount, ratios))[..Leftover(amount, ratios)])
  }

  function Scaled(sign: int, parts: seq<int>): seq<int> {
    seq(|parts|, i requires 0 <= i < |parts| => sign * parts[i])
  }

  ghost function Allocated(amount: int, ratios: seq<int>): Result<seq<int>, Error> {
    if ratios == [] then Err(NoRatios)
    else if exists i :: 0 <= i < |ratios| && ratios[i] < 0 then Err(NegativeRatio)
    else if Sum(ratios) == 0 then Err(ZeroTotal)
    else
      SumNonNegative(ratios);
      Ok(Scaled(if amount >= 0 then 1 else -1, Parts(Abs(amount), ratios)))
  }

  lemma SumNonNegative(s: seq<int>)
    requires forall i :: 0 <= i < |s| ==> s[i] >= 0
    ensures Sum(s) >= 0
  {
    var zeros := seq(|s|, i => 0);
    SumZero(zeros);
    SumLeq(zeros, s);
  }

  /** The finance layer's loop (`Money.allocate`). */
  method Allocate(amount: int, ratios: seq<int>) returns (r: Result<seq<int>, Error>)
    ensures r == Allocated(amount, ratios)
  {
    hide Sum, Ranking, Bumped, Scaled;
    if ratios == [] {
      return Err(NoRatios);
    }
    if exists i :: 0 <= i < |ratios| && ratios[i] < 0 {
      return Err(NegativeRatio);
    }
    var total := Sum(ratios);
    if total == 0 {
      return Err(ZeroTotal);
    }
    SumNonNegative(ratios);
    var sign := if amount >= 0 then 1 else -1;
    var magnitude := Abs(amount);
    var floors: seq<int>, rests: seq<int> := [], [];
    ghost var allFloors, allRests := Floors(magnitude, ratios), Rests(magnitude, ratios);
    for i := 0 to |ratios|
      invariant floors == allFloors[..i] && rests == allRests[..i]
    {
      var product := magnitude * ratios[i];
      floors := floors + [product / total];
      rests := rests + [product % total];
      assert floors[i] == allFloors[i] && rests[i] == allRests[i];
    }
    assert floors == allFloors && rests == allRests;
    LeftoverBounds(magnitude, ratios);
    var leftover := magnitude - Sum(floors);
    floors := AddUnits(floors, Ranking(rests)[..leftover]);
    return Ok(Scaled(sign, floors));
  }

  /** The contracts layer's loop: quotients in one pass, remainders recomputed for the sort. */
  method AllocateContract(minorUnits: int, weights: seq<int>) returns (r: Result<seq<int>, Error>)
    ensures r == Allocated(minorUnits, weights)
  {
    hide Sum, Ranking, Bumped, Scaled;
    if weights == [] {
      return Err(NoRatios);
    }
    if exists i :: 0 <= i < |weights| && weights[i] < 0 {
      return Err(NegativeRatio);
    }
    var total := Sum(weights);
    if total == 0 {
      return Err(ZeroTotal);
    }
    SumNonNegative(weights);
    var sign := if minorUnits < 0 then -1 else 1;
    var magnitude := Abs(minorUnits);
    var shares := seq(|weights|, i requires 0 <= i < |weights| => magnitude * weights[i] / total);
    assert shares == Floors(magnitude, weights);
    LeftoverBounds(magnitude, weights);
    var remainder := magnitude - Sum(shares);
    var rests := seq(|weights|, i requires 0 <= i < |weights| => magnitude * weights[i] % total);
    assert rests == Rests(magnitude, weights);
    shares := AddUnits(shares, Ranking(rests)[..remainder]);
    return Ok(Scaled(sign, shares));
  }

  /** The closing loop of both: one more unit for each listed index. */
  method AddUnits(floors: seq<int>, indices: seq<nat>) returns (parts: seq<int>)
    requires forall p :: 0 <= p < |indices| ==> indices[p] < |floors|
    ensures parts == Bumped(floors, indices)
  {
    parts := floors;
    assert indices[..0] == [];
    for k := 0 to |indices|
      invariant parts == Bumped(floors, indices[..k])
    {
      assert indices[..k + 1][..k] == indices[..k];
      parts := parts[indices[k] := parts[indices[k]] + 1];
    }
    assert indices[..|indices|] == indices;
  }

  // ----- What a split promises -----

  /** The largest-remainder split of `amount` over floors `f` and remainders `r`, said without an
      algorithm. */
  ghost predicate IsSplit(amount: int, f: seq<int>, r: seq<int>, parts: seq<int>)
    requires |f| == |r|
  {
    && |parts| == |f|
    && Sum(parts) == amount
    && (forall i :: 0 <= i < |parts| ==> parts[i] == f[i] || parts[i] == f[i] + 1)
    && (forall i, j :: 0 <= i < |parts| && 0 <= j < |parts| && parts[i] == f[i] + 1 && parts[j] == f[j]
         ==> Before(r, i, j))
  }

  ghost predicate IsHamilton(amount: nat, ratios: seq<int>, parts: seq<int>)
    requires Weights(ratios)
  {
    IsSplit(amount, Floors(amount, ratios), Rests(amount, ratios), parts)
  }

  lemma {:induction false} BumpedEach(floors: seq<int>, indices: seq<nat>)
    requires forall p :: 0 <= p < |indices| ==> indices[p] < |floors|
    requires forall p, q :: 0 <= p < q < |indices| ==> indices[p] != indices[q]
    ensures Sum(Bumped(floors, indices)) == Sum(floors) + |indices|
    ensures forall i :: 0 <= i < |floors| ==>
      Bumped(floors, indices)[i] == floors[i] + if i in indices then 1 else 0
  {
    hide Sum;
    if indices != [] {
      var n := |indices| - 1;
      assert indices == indices[..n] + [indices[n]];
      BumpedEach(floors, indices[..n]);
      assert indices[n] !in indices[..n];
      var f := Bumped(floors, indices[..n]);
      SumUpdate(f, indices[n], f[indices[n]] + 1);
    }
  }

  lemma PartsAreHamilton(amount: nat, ratios: seq<int>)
    requires Weights(ratios)
    ensures IsHamilton(amount, ratios, Parts(amount, ratios))
  {
    LeftoverBounds(amount, ratios);
    var f, r, l := Floors(amount, ratios), Rests(amount, ratios), Leftover(amount, ratios);
    var order := Ranking(r);
    BumpedEach(f, order[..l]);
    var parts := Parts(amount, ratios);
    forall i, j | 0 <= i < |parts| && 0 <= j < |parts| && parts[i] == f[i] + 1 && parts[j] == f[j]
      ensures Before(r, i, j)
    {
      TakenFirst(r, order, l, i, j);
    }
  }

  lemma TakenFirst(rests: seq<int>, order: seq<nat>, l: nat, i: nat, j: nat)
    requires IsRanking(rests, order) && l <= |order| && i < |rests| && j < |rests|
    requires i in order[..l] && j !in order[..l]
    ensures Before(rests, i, j)
  {
    hide Before;
    var p :| 0 <= p < l && order[p] == i;
    assert j in order;
    var q :| 0 <= q < |order| && order[q] == j;
    assert forall k :: 0 <= k < l ==> order[k] in order[..l];
  }

  /** There is one such split, so every loop that meets the description returns the same parts. */
  lemma HamiltonUnique(amount: nat, ratios: seq<int>, p: seq<int>, q: seq<int>)
    requires Weights(ratios) && IsHamilton(amount, ratios, p) && IsHamilton(amount, ratios, q)
    ensures p == q
  {
    SplitUnique(amount, Floors(amount, ratios), Rests(amount, ratios), p, q);
  }

  lemma SplitUnique(amount: int, f: seq<int>, r: seq<int>, p: seq<int>, q: seq<int>)
    requires |f| == |r| && IsSplit(amount, f, r, p) && IsSplit(amount, f, r, q)
    ensures p == q
  {
    forall i: nat | i < |p|
      ensures p[i] == q[i]
    {
      if p[i] > q[i] {
        var j := SumTradeOff(p, q, i);
      } else if q[i] > p[i] {
        var j := SumTradeOff(q, p, i);
      }
    }
  }

  lemma ZeroRatioGetsZero(amount: nat, ratios: seq<int>, i: nat)
    requires Weights(ratios) && i < |ratios| && ratios[i] == 0
    ensures Parts(amount, ratios)[i] == 0
  {
    PartsAreHamilton(amount, ratios);
    RestsSum(amount, ratios);
    var f, r, t := Floors(amount, ratios), Rests(amount, ratios), Sum(ratios);
    QuotasSplit(amount, ratios);
    NothingForNothing(t, amount, f, r, Parts(amount, ratios), i);
  }

  /** If index i, with no remainder, were given a unit, everything left at its floor would have no
      remainder either: too little to pay for the units that were added. */
  lemma NothingForNothing(t: int, amount: int, f: seq<int>, r: seq<int>, parts: seq<int>, i: nat)
    requires |f| == |r| && i < |r| && IsSplit(amount, f, r, parts) && Sum(r) == (amount - Sum(f)) * t
    requires f[i] == 0 && r[i] == 0 && forall k :: 0 <= k < |r| ==> 0 <= r[k] < t
    ensures parts[i] == 0
  {
    if parts[i] != 0 {
      forall k | 0 <= k < |r|
        ensures r[k] <= t * (parts[k] - f[k]) - if k == i then 1 else 0
      {
        if parts[k] == f[k] {
          assert Before(r, i, k);
          assert t * 0 == 0;
        } else {
          assert t * 1 == t;
        }
      }
      RestsTooSmall(t, f, r, parts, i);
    }
  }

  lemma {:induction false} RestsTooSmall(t: int, f: seq<int>, r: seq<int>, parts: seq<int>, i: nat)
    requires |parts| == |f| == |r|
    requires forall k :: 0 <= k < |r| ==> r[k] <= t * (parts[k] - f[k]) - if k == i then 1 else 0
    ensures Sum(r) <= (Sum(parts) - Sum(f)) * t - if i < |r| then 1 else 0
  {
    if r != [] {
      var n := |r| - 1;
      RestsTooSmall(t, f[..n], r[..n], parts[..n], i);
      var x, y := Sum(parts[..n]) - Sum(f[..n]), parts[n] - f[n];
      assert (x + y) * t == x * t + t * y;
    }
  }

  /** A larger ratio never gets less; of equal ratios the earlier never gets less. */
  lemma PartsFollowRatios(amount: nat, ratios: seq<int>, i: nat, j: nat)
    requires Weights(ratios) && i < |ratios| && j < |ratios|
    requires ratios[i] > ratios[j] || (ratios[i] == ratios[j] && i <= j)
    ensures Parts(amount, ratios)[i] >= Parts(amount, ratios)[j]
  {
    PartsAreHamilton(amount, ratios);
    var parts, f, r, t := Parts(amount, ratios), Floors(amount, ratios), Rests(amount, ratios), Sum(ratios);
    if amount == 0 {
      ZeroAmount(ratios);
    } else {
      QuotaOrder(amount, ratios[i], ratios[j], t);
      assert parts[j] == f[j] + 1 && parts[i] == f[i] ==> Before(r, j, i);
    }
  }

  lemma QuotaOrder(amount: nat, x: int, y: int, t: int)
    requires amount > 0 && t > 0 && x >= y
    ensures Floor(amount, x, t) >= Floor(amount, y, t)
    ensures Floor(amount, x, t) == Floor(amount, y, t) ==> Rest(amount, x, t) >= Rest(amount, y, t)
    ensures Floor(amount, x, t) == Floor(amount, y, t) && x > y ==> Rest(amount, x, t) > Rest(amount, y, t)
  {
    MulMonotone(y, x, amount);
    FloorMonotone(amount * y, amount * x, t);
    if x > y {
      MulStrict(y, x, amount);
    }
  }

  lemma ZeroAmount(ratios: seq<int>)
    requires Weights(ratios)
    ensures forall i :: 0 <= i < |ratios| ==> Parts(0, ratios)[i] == 0
  {
    PartsAreHamilton(0, ratios);
    var parts, f := Parts(0, ratios), Floors(0, ratios);
    assert forall i :: 0 <= i < |ratios| ==> f[i] == 0;
    SumZero(f);
    forall i: nat | i < |ratios|
      ensures parts[i] == 0
    {
      if parts[i] > f[i] {
        var j := SumTradeOff(parts, f, i);
      }
    }
  }

  function Quotas(amount: int, ratios: seq<int>): seq<int> {
    seq(|ratios|, i requires 0 <= i < |ratios| => amount * ratios[i])
  }

  function Distances(quotas: seq<int>, total: int, parts: seq<int>): seq<int>
    requires |parts| == |quotas|
  {
    seq(|parts|, i requires 0 <= i < |parts| => Abs(parts[i] * total - quotas[i]))
  }

  /** The total distance of a split from the exact quotas, in units of 1/total. */
  ghost function Deviation(amount: int, ratios: seq<int>, parts: seq<int>): int
    requires |parts| == |ratios|
  {
    Sum(Distances(Quotas(amount, ratios), Sum(ratios), parts))
  }

  /** With a price of `t - 2 * cut` per unit, no integer quota beats the rounded one. */
  lemma PricedQuota(e: int, t: int, f: int, m: int, b: int, p: int, cut: int)
    requires 0 < t && e == f * t + m && 0 <= m < t && 0 <= cut <= t
    requires (b == 1 && m >= cut) || (b == 0 && m <= cut)
    ensures Abs((f + b) * t - e) - (t - 2 * cut) * (f + b) <= Abs(p * t - e) - (t - 2 * cut) * p
  {
    var c, x := t - 2 * cut, p - f;
    assert p * t - e == x * t - m by { assert (f + x) * t == f * t + x * t; }
    assert (f + b) * t - e == b * t - m by { assert (f + b) * t == f * t + b * t; }
    assert c * p == c * f + c * x by { assert p == f + x; }
    assert c * (f + b) == c * f + c * b;
    PricedStep(t, m, b, x, cut);
  }

  lemma PricedStep(t: int, m: int, b: int, x: int, cut: int)
    requires 0 <= m < t && 0 <= cut <= t
    requires (b == 1 && m >= cut) || (b == 0 && m <= cut)
    ensures Abs(b * t - m) - (t - 2 * cut) * b <= Abs(x * t - m) - (t - 2 * cut) * x
  {
    var xt, xc := x * t, x * (2 * cut);
    assert (t - 2 * cut) * x == xt - xc;
    if x >= 1 {
      MulMonotone(1, x, 2 * cut);
      MulMonotone(1, x, t);
    } else {
      MulMonotone(x, 0, 2 * t - 2 * cut);
      assert x * (2 * t - 2 * cut) == 2 * xt - xc;
      MulMonotone(x, 0, t);
    }
  }

  /** No integer split with this total lies closer to the exact quotas. */
  lemma HamiltonIsClosest(amount: nat, ratios: seq<int>, parts: seq<int>, other: seq<int>)
    requires Weights(ratios) && IsHamilton(amount, ratios, parts)
    requires |other| == |ratios| && Sum(other) == amount
    ensures Deviation(amount, ratios, parts) <= Deviation(amount, ratios, other)
  {
    var t, f, r := Sum(ratios), Floors(amount, ratios), Rests(amount, ratios);
    QuotasSplit(amount, ratios);
    var cut := Cut(t, f, r, parts);
    PricedDistances(Quotas(amount, ratios), t, f, r, parts, other, cut);
  }

  lemma QuotasSplit(amount: nat, ratios: seq<int>)
    requires Weights(ratios)
    ensures forall i :: 0 <= i < |ratios| ==>
      && Quotas(amount, ratios)[i] == Floors(amount, ratios)[i] * Sum(ratios) + Rests(amount, ratios)[i]
      && 0 <= Rests(amount, ratios)[i] < Sum(ratios)
  {
    forall i | 0 <= i < |ratios|
      ensures Quotas(amount, ratios)[i]
           == Floor(amount, ratios[i], Sum(ratios)) * Sum(ratios) + Rest(amount, ratios[i], Sum(ratios))
    {
    }
  }

  lemma {:induction false} PricedDistances(quotas: seq<int>, t: int, f: seq<int>, r: seq<int>, parts: seq<int>,
                                           other: seq<int>, cut: int)
    requires |quotas| == |f| == |r| == |parts| == |other|
    requires 0 < t && 0 <= cut <= t
    requires forall i :: 0 <= i < |quotas| ==> quotas[i] == f[i] * t + r[i] && 0 <= r[i] < t
    requires forall i :: 0 <= i < |quotas| ==>
      (parts[i] == f[i] && r[i] <= cut) || (parts[i] == f[i] + 1 && r[i] >= cut)
    ensures Sum(Distances(quotas, t, parts)) - (t - 2 * cut) * Sum(parts)
         <= Sum(Distances(quotas, t, other)) - (t - 2 * cut) * Sum(other)
  {
    if quotas != [] {
      var n, price := |quotas| - 1, t - 2 * cut;
      PricedDistances(quotas[..n], t, f[..n], r[..n], parts[..n], other[..n], cut);
      LastDistance(quotas, t, parts, price);
      LastDistance(quotas, t, other, price);
      PricedQuota(quotas[n], t, f[n], r[n], parts[n] - f[n], other[n], cut);
    }
  }

  lemma LastDistance(quotas: seq<int>, t: int, parts: seq<int>, price: int)
    requires |parts| == |quotas| > 0
    ensures var n := |quotas| - 1;
      Sum(Distances(quotas, t, parts)) - price * Sum(parts)
        == Sum(Distances(quotas[..n], t, parts[..n])) - price * Sum(parts[..n])
         + Abs(parts[n] * t - quotas[n]) - price * parts[n]
  {
    var n := |quotas| - 1;
    assert Distances(quotas, t, parts)[..n] == Distances(quotas[..n], t, parts[..n]);
    assert price * (Sum(parts[..n]) + parts[n]) == price * Sum(parts[..n]) + price * parts[n];
  }

  /** A remainder that separates the indices given an extra unit from the others. */
  lemma Cut(t: int, f: seq<int>, r: seq<int>, parts: seq<int>) returns (cut: int)
    requires |f| == |r| == |parts| && t > 0 && forall i :: 0 <= i < |r| ==> 0 <= r[i] < t
    requires forall i :: 0 <= i < |parts| ==> parts[i] == f[i] || parts[i] == f[i] + 1
    requires forall i, j | 0 <= i < |parts| && 0 <= j < |parts| :: parts[i] == f[i] + 1 && parts[j] == f[j] ==> Before(r, i, j)
    ensures 0 <= cut <= t
    ensures forall i :: 0 <= i < |parts| ==> if parts[i] == f[i] then r[i] <= cut else r[i] >= cut
  {
    cut := t;
    for k := 0 to |parts|
      invariant 0 <= cut <= t
      invariant forall i :: 0 <= i < k && parts[i] != f[i] ==> r[i] >= cut
      invariant cut == t || exists i :: 0 <= i < k && parts[i] != f[i] && r[i] == cut
    {
      if parts[k] != f[k] && r[k] < cut {
        cut := r[k];
      }
    }
  }

  lemma {:induction false} ScaledSum(sign: int, parts: seq<int>)
    ensures Sum(Scaled(sign, parts)) == sign * Sum(parts)
  {
    var zeros := seq(|parts|, i => 0);
    SumZero(zeros);
    SumLinear(zeros, parts, sign, Scaled(sign, parts));
  }

  /** The promise of both `allocate` methods, for every amount and every accepted ratio list. */
  lemma AllocationPromise(amount: int, ratios: seq<int>, other: seq<int>)
    requires Allocated(amount, ratios).Ok?
    requires |other| == |ratios| && Sum(other) == amount
    ensures Weights(ratios)
    ensures var parts := Allocated(amount, ratios).value;
      && |parts| == |ratios|
      && Sum(parts) == amount
      && Deviation(amount, ratios, parts) <= Deviation(amount, ratios, other)
  {
    SumNonNegative(ratios);
    var sign := if amount >= 0 then 1 else -1;
    PartsAreHamilton(Abs(amount), ratios);
    ScaledSum(sign, Parts(Abs(amount), ratios));
    SignedIsClosest(sign, Abs(amount), ratios, other);
  }

  lemma SignedIsClosest(sign: int, magnitude: nat, ratios: seq<int>, other: seq<int>)
    requires Weights(ratios) && (sign == 1 || sign == -1)
    requires |other| == |ratios| && Sum(other) == sign * magnitude
    ensures Deviation(sign * magnitude, ratios, Scaled(sign, Parts(magnitude, ratios)))
         <= Deviation(sign * magnitude, ratios, other)
  {
    hide Parts, Deviation, IsHamilton, Weights;
    var mirrored := Scaled(sign, other);
    ScaledSum(sign, other);
    PartsAreHamilton(magnitude, ratios);
    HamiltonIsClosest(magnitude, ratios, Parts(magnitude, ratios), mirrored);
    DeviationMirrored(magnitude, ratios, Parts(magnitude, ratios), sign);
    DeviationMirrored(magnitude, ratios, mirrored, sign);
    assert Scaled(sign, mirrored) == other;
  }

  lemma DeviationMirrored(amount: int, ratios: seq<int>, parts: seq<int>, sign: int)
    requires |parts| == |ratios| && (sign == 1 || sign == -1)
    ensures Deviation(sign * amount, ratios, Scaled(sign, parts)) == Deviation(amount, ratios, parts)
  {
    var t := Sum(ratios);
    var a := Distances(Quotas(sign * amount, ratios), t, Scaled(sign, parts));
    var b := Distances(Quotas(amount, ratios), t, parts);
    forall i | 0 <= i < |parts|
      ensures a[i] == b[i]
    {
    }
    assert a == b;
  }

  /** Negative amounts mirror positive ones. */
  lemma AllocationMirrored(amount: int, ratios: seq<int>)
    requires Allocated(amount, ratios).Ok?
    ensures Allocated(-amount, ratios).Ok?
    ensures Allocated(-amount, ratios).value == Scaled(-1, Allocated(amount, ratios).value)
  {
    SumNonNegative(ratios);
    if amount == 0 {
      ZeroAmount(ratios);
    }
  }

  /** Equal weights: the parts fall by at most one unit, the larger ones first. */
  lemma EvenSplit(amount: nat, n: nat)
    requires 0 < n
    ensures Weights(Ones(n))
    ensures var parts := Parts(amount, Ones(n));
      && Sum(parts) == amount
      && (forall i :: 0 <= i < n ==> amount / n <= parts[i] <= amount / n + 1)
    ensures var parts := Parts(amount, Ones(n));
      (forall i, j :: 0 <= i <= j < n ==> parts[j] <= parts[i] <= parts[j] + 1)
  {
    var ones := Ones(n);
    OnesSum(n);
    PartsAreHamilton(amount, ones);
    var parts := Parts(amount, ones);
    forall i, j | 0 <= i <= j < n
      ensures parts[j] <= parts[i]
    {
      PartsFollowRatios(amount, ones, i, j);
    }
  }

  function Ones(n: nat): (s: seq<int>)
    ensures |s| == n
  {
    seq(n, i => 1)
  }

  lemma {:induction false} OnesSum(n: nat)
    ensures Sum(Ones(n)) == n
  {
    if n > 0 {
      assert Ones(n)[..n - 1] == Ones(n - 1);
      OnesSum(n - 1);
    }
  }
}
