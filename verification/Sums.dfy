/** Sums of sequences, and counting the members of a sequence of distinct indices. */
module Sums {
  import opened Collections

  function Sum(xs: seq<int>): int {
    if xs == [] then 0 else Sum(xs[..|xs| - 1]) + xs[|xs| - 1]
  }

  // Changing one element changes the sum by the difference.
  lemma {:induction false} SumUpdate(xs: seq<int>, ys: seq<int>, t: nat)
    requires |xs| == |ys| && t < |xs|
    requires forall i :: 0 <= i < |xs| && i != t ==> xs[i] == ys[i]
    ensures Sum(ys) == Sum(xs) - xs[t] + ys[t]
  {
    var n := |xs| - 1;
    if t < n {
      SumUpdate(xs[..n], ys[..n], t);
    } else {
      assert xs[..n] == ys[..n];
    }
  }

  lemma {:induction false} SumOfZeros(xs: seq<int>)
    requires forall i :: 0 <= i < |xs| ==> xs[i] == 0
    ensures Sum(xs) == 0
  {
    if xs != [] { SumOfZeros(xs[..|xs| - 1]); }
  }

  lemma {:induction false} SumAtLeast(xs: seq<int>, t: nat)
    requires t < |xs|
    requires forall i :: 0 <= i < |xs| ==> xs[i] >= 0
    ensures Sum(xs) >= xs[t]
  {
    var n := |xs| - 1;
    if t < n {
      SumAtLeast(xs[..n], t);
    } else {
      SumMonotone(seq(n, _ => 0), xs[..n]);
      SumOfZeros(seq(n, _ => 0));
    }
  }

  lemma {:induction false} SumMonotone(xs: seq<int>, ys: seq<int>)
    requires |xs| == |ys|
    requires forall i :: 0 <= i < |xs| ==> xs[i] <= ys[i]
    ensures Sum(xs) <= Sum(ys)
  {
    if xs != [] { SumMonotone(xs[..|xs| - 1], ys[..|ys| - 1]); }
  }

  // Equal sums of pointwise ordered sequences: the sequences are equal.
  lemma SumTight(xs: seq<int>, ys: seq<int>, t: nat)
    requires |xs| == |ys| && t < |xs|
    requires forall i :: 0 <= i < |xs| ==> xs[i] <= ys[i]
    requires Sum(xs) >= Sum(ys)
    ensures xs[t] == ys[t]
  {
    SumUpdate(xs, xs[t := ys[t]], t);
    SumMonotone(xs[t := ys[t]], ys);
  }

  lemma SumStrict(xs: seq<int>, ys: seq<int>, t: nat)
    requires |xs| == |ys| && t < |xs| && xs[t] < ys[t]
    requires forall i :: 0 <= i < |xs| ==> xs[i] <= ys[i]
    ensures Sum(xs) < Sum(ys)
  {
    SumUpdate(ys, ys[t := xs[t]], t);
    SumMonotone(xs, ys[t := xs[t]]);
  }

  lemma {:induction false} SumOfPointwise(xs: seq<int>, ys: seq<int>, zs: seq<int>)
    requires |xs| == |ys| == |zs|
    requires forall i :: 0 <= i < |xs| ==> zs[i] == xs[i] + ys[i]
    ensures Sum(zs) == Sum(xs) + Sum(ys)
  {
    if xs != [] {
      var n := |xs| - 1;
      SumOfPointwise(xs[..n], ys[..n], zs[..n]);
    }
  }

  // Distinct indices that each weigh at least one are at most as many as the total weight.
  lemma {:induction false} DistinctAtMostSum(q: seq<nat>, xs: seq<int>)
    requires Distinct(q)
    requires forall i :: 0 <= i < |xs| ==> xs[i] >= 0
    requires forall i :: 0 <= i < |q| ==> q[i] < |xs| && xs[q[i]] >= 1
    ensures |q| <= Sum(xs)
  {
    if q == [] {
      SumMonotone(seq(|xs|, _ => 0), xs);
      SumOfZeros(seq(|xs|, _ => 0));
    } else {
      var t := q[0];
      var ys := xs[t := xs[t] - 1];
      SumUpdate(xs, ys, t);
      DistinctAtMostSum(q[1..], ys);
    }
  }

  // When every index that weighs anything weighs one and is listed, the list is at least as
  // long as the total weight.
  lemma {:induction false} SumAtMostListed(q: seq<nat>, xs: seq<int>)
    requires forall i :: 0 <= i < |xs| ==> 0 <= xs[i] <= 1
    requires forall i :: 0 <= i < |xs| && xs[i] == 1 ==> i in q
    ensures Sum(xs) <= |q|
    decreases |q|
  {
    if q == [] {
      SumOfZeros(xs);
    } else {
      var t := q[0];
      var ys := if t < |xs| then xs[t := 0] else xs;
      if t < |xs| { SumUpdate(xs, ys, t); }
      assert q == [q[0]] + q[1..];
      SumAtMostListed(q[1..], ys);
    }
  }
}
