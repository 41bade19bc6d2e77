/** Sums over sequences, and sorted sequences without repeats. */
module Seqs {

  function Sum(s: seq<int>): int {
    if s == [] then 0 else Sum(s[..|s| - 1]) + s[|s| - 1]
  }

  lemma {:induction false} SumConcat(s: seq<int>, t: seq<int>)
    ensures Sum(s + t) == Sum(s) + Sum(t)
  {
    if t == [] {
      assert s + t == s;
    } else {
      var u := t[..|t| - 1];
      assert (s + t)[..|s + t| - 1] == s + u;
      SumConcat(s, u);
    }
  }

  lemma {:induction false} SumUpdate(s: seq<int>, k: nat, x: int)
    requires k < |s|
    ensures Sum(s[k := x]) == Sum(s) - s[k] + x
  {
    var n := |s| - 1;
    if k == n {
      assert s[k := x][..n] == s[..n];
    } else {
      assert s[k := x][..n] == s[..n][k := x];
      SumUpdate(s[..n], k, x);
    }
  }

  lemma {:induction false} SumLeq(s: seq<int>, t: seq<int>)
    requires |s| == |t| && forall i :: 0 <= i < |s| ==> s[i] <= t[i]
    ensures Sum(s) <= Sum(t)
  {
    if s != [] {
      SumLeq(s[..|s| - 1], t[..|t| - 1]);
    }
  }

  /** `z` is pointwise `x + k * y`. */
  lemma {:induction false} SumLinear(x: seq<int>, y: seq<int>, k: int, z: seq<int>)
    requires |x| == |y| == |z| && forall i :: 0 <= i < |x| ==> z[i] == x[i] + k * y[i]
    ensures Sum(z) == Sum(x) + k * Sum(y)
  {
    if x != [] {
      var n := |x| - 1;
      SumLinear(x[..n], y[..n], k, z[..n]);
      assert k * (Sum(y[..n]) + y[n]) == k * Sum(y[..n]) + k * y[n];
    }
  }

  lemma {:induction false} SumZero(s: seq<int>)
    requires forall i :: 0 <= i < |s| ==> s[i] == 0
    ensures Sum(s) == 0
  {
    if s != [] {
      SumZero(s[..|s| - 1]);
    }
  }

  lemma {:induction false} SumNegated(s: seq<int>, t: seq<int>)
    requires |s| == |t| && forall i :: 0 <= i < |s| ==> t[i] == -s[i]
    ensures Sum(t) == -Sum(s)
  {
    if s != [] {
      SumNegated(s[..|s| - 1], t[..|t| - 1]);
    }
  }

  /** Two sequences with one total: where one is larger somewhere, it is smaller elsewhere. */
  lemma {:induction false} SumTradeOff(s: seq<int>, t: seq<int>, k: nat) returns (j: nat)
    requires |s| == |t| && k < |s| && s[k] > t[k] && Sum(s) <= Sum(t)
    ensures j < |s| && s[j] < t[j]
  {
    if j' :| 0 <= j' < |s| && s[j'] < t[j'] {
      j := j';
    } else {
      var u := t[k := t[k] + 1];
      SumUpdate(t, k, t[k] + 1);
      SumLeq(u, s);
      assert false;
    }
  }

  ghost predicate Ascending(s: seq<int>) {
    forall i, j :: 0 <= i < j < |s| ==> s[i] < s[j]
  }

  /** Python's `sorted(set(s))`: one item is placed at a time. */
  function SortedSet(s: seq<int>): (r: seq<int>)
    ensures Ascending(r)
    ensures forall x :: x in r <==> x in s
  {
    if s == [] then [] else Place(SortedSet(s[..|s| - 1]), s[|s| - 1])
  }

  function Place(s: seq<int>, x: int): (r: seq<int>)
    requires Ascending(s)
    ensures Ascending(r)
    ensures forall y :: y in r <==> y in s || y == x
  {
    if s == [] then [x]
    else
      var n := |s| - 1;
      assert s == s[..n] + [s[n]];
      if s[n] < x then s + [x]
      else if s[n] == x then s
      else
        var r := Place(s[..n], x);
        assert forall y :: y in r ==> y < s[n];
        assert forall i :: 0 <= i < |r| ==> r[i] in r;
        r + [s[n]]
  }

  lemma HasMember(s: seq<int>)
    requires s != []
    ensures exists x :: x in s
  {
    var x := s[0];
    assert x in s;
  }

  /** A set has one ascending listing. */
  lemma {:induction false} AscendingUnique(s: seq<int>, t: seq<int>)
    requires Ascending(s) && Ascending(t)
    requires forall x :: x in s <==> x in t
    ensures s == t
  {
    if s == [] {
      if t != [] {
        HasMember(t);
      }
    } else if t == [] {
      HasMember(s);
    } else {
      var m, n := |s| - 1, |t| - 1;
      assert s[m] in t && t[n] in s;
      assert s[m] == t[n];
      forall x
        ensures x in s[..m] <==> x in t[..n]
      {
        assert x in s <==> x in s[..m] || x == s[m];
        assert x in t <==> x in t[..n] || x == t[n];
      }
      AscendingUnique(s[..m], t[..n]);
      assert s == s[..m] + [s[m]] && t == t[..n] + [t[n]];
    }
  }
}
