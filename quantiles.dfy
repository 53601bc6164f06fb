/** The empirical VaR/ES read-off that the historical and Monte-Carlo
    models share: on a column of scenario values sorted ascending, VaR is
    v0 minus the value at rank ceil((1 - p) * n) - 1 and ES is v0 minus the
    mean of the ceil((1 - p) * n) smallest values. */
module Quantiles {
  import opened Numerics
  import opened Sorting

  /** `np.ceil((1 - p) * n).astype(int)`: how many of the n sorted
      scenarios form the tail at probability p. */
  function TailCount(p: real, n: nat): (k: int)
    requires 0.0 < p < 1.0 && 1 <= n
    ensures 1 <= k <= n
  {
    var x := (1.0 - p) * (n as real);
    assert 0.0 < x <= n as real by {
      assert x == (n as real) - p * (n as real);
      ProductPositive(p, n as real);
      ScaleMonotone(n as real, p, 1.0);
    }
    Ceil(x)
  }

  /** The 0-based row read for VaR: one less than the tail count. */
  function Rank(p: real, n: nat): (k: int)
    requires 0.0 < p < 1.0 && 1 <= n
    ensures 0 <= k < n
  {
    TailCount(p, n) - 1
  }

  /** VaR of one sorted scenario column. */
  function EmpiricalVaR(v0: real, sorted: seq<real>, p: real): real
    requires 0.0 < p < 1.0 && 1 <= |sorted|
  {
    v0 - sorted[Rank(p, |sorted|)]
  }

  /** ES of one sorted scenario column. */
  function EmpiricalES(v0: real, sorted: seq<real>, p: real): real
    requires 0.0 < p < 1.0 && 1 <= |sorted|
  {
    v0 - Mean(sorted[..TailCount(p, |sorted|)])
  }

  /** A higher probability never selects a larger tail. */
  lemma TailCountAntitone(p1: real, p2: real, n: nat)
    requires 0.0 < p1 <= p2 < 1.0 && 1 <= n
    ensures TailCount(p2, n) <= TailCount(p1, n)
  {
    var x1, x2 := (1.0 - p1) * (n as real), (1.0 - p2) * (n as real);
    assert x2 <= x1 by {
      ScaleMonotone(n as real, 1.0 - p2, 1.0 - p1);
    }
  }

  /** VaR is non-decreasing in the VaR probability on a sorted column. */
  lemma VaRMonotone(v0: real, sorted: seq<real>, p1: real, p2: real)
    requires Sorted(sorted) && 1 <= |sorted|
    requires 0.0 < p1 <= p2 < 1.0
    ensures EmpiricalVaR(v0, sorted, p1) <= EmpiricalVaR(v0, sorted, p2)
  {
    TailCountAntitone(p1, p2, |sorted|);
  }

  /** The mean of a sorted prefix does not exceed the prefix's last value,
      so ES is at least VaR at the same probability. */
  lemma ESAtLeastVaR(v0: real, sorted: seq<real>, p: real)
    requires Sorted(sorted) && 1 <= |sorted|
    requires 0.0 < p < 1.0
    ensures EmpiricalVaR(v0, sorted, p) <= EmpiricalES(v0, sorted, p)
  {
    var k := TailCount(p, |sorted|);
    var tail := sorted[..k];
    assert forall i :: 0 <= i < k ==> tail[i] <= sorted[k - 1];
    MeanAtMost(tail, sorted[k - 1]);
  }

  /** Means of longer prefixes of a sorted sequence are larger. */
  lemma {:induction false} PrefixMeanStep(s: seq<real>, k: nat)
    requires Sorted(s) && 1 <= k < |s|
    ensures Mean(s[..k]) <= Mean(s[..k + 1])
  {
    var a := Sum(s[..k]);
    var n := k as real;
    SumPrefixStep(s, k);
    assert forall i :: 0 <= i < k ==> s[..k][i] <= s[k];
    SumAtMost(s[..k], s[k]);
    assert a <= n * s[k];
    assert (a + s[k]) / (n + 1.0) - a / n == (n * s[k] - a) / (n * (n + 1.0));
    assert (n * s[k] - a) / (n * (n + 1.0)) >= 0.0;
  }

  lemma {:induction false} PrefixMeanMonotone(s: seq<real>, k1: nat, k2: nat)
    requires Sorted(s) && 1 <= k1 <= k2 <= |s|
    ensures Mean(s[..k1]) <= Mean(s[..k2])
    decreases k2 - k1
  {
    if k1 < k2 {
      PrefixMeanStep(s, k1);
      PrefixMeanMonotone(s, k1 + 1, k2);
    }
  }

  /** ES is non-decreasing in the ES probability on a sorted column. */
  lemma ESMonotone(v0: real, sorted: seq<real>, p1: real, p2: real)
    requires Sorted(sorted) && 1 <= |sorted|
    requires 0.0 < p1 <= p2 < 1.0
    ensures EmpiricalES(v0, sorted, p1) <= EmpiricalES(v0, sorted, p2)
  {
    TailCountAntitone(p1, p2, |sorted|);
    PrefixMeanMonotone(sorted, TailCount(p2, |sorted|), TailCount(p1, |sorted|));
  }

  /** A column in which every scenario keeps the value v0 carries no risk. */
  lemma NoMovementNoRisk(v0: real, sorted: seq<real>, p: real)
    requires 1 <= |sorted| && 0.0 < p < 1.0
    requires forall i :: 0 <= i < |sorted| ==> sorted[i] == v0
    ensures EmpiricalVaR(v0, sorted, p) == 0.0
    ensures EmpiricalES(v0, sorted, p) == 0.0
  {
    var k := TailCount(p, |sorted|);
    MeanConstant(sorted[..k], v0);
  }

  /** Sorting a column of all-v0 scenarios leaves it all-v0. */
  lemma SortedCopyConstant(s: seq<real>, c: real)
    requires forall i :: 0 <= i < |s| ==> s[i] == c
    ensures forall i :: 0 <= i < |s| ==> SortedCopy(s)[i] == c
  {
    var r := SortedCopy(s);
    forall i | 0 <= i < |r|
      ensures r[i] == c
    {
      assert r[i] in multiset(r);
      assert r[i] in s;
    }
  }

  /** Columns of a scenario matrix, as sequences of equal length n. */
  ghost predicate Shaped(cols: seq<seq<real>>, n: nat) {
    forall i :: 0 <= i < |cols| ==> |cols[i]| == n
  }

  /** The VaR row of a scenario matrix given by its columns: each column is
      sorted ascending and read at the VaR rank. */
  function ColumnVaRs(v0: real, cols: seq<seq<real>>, n: nat, p: real): (r: seq<real>)
    requires 1 <= n && 0.0 < p < 1.0 && Shaped(cols, n)
    ensures |r| == |cols|
    ensures forall i {:trigger r[i]} :: 0 <= i < |cols| ==> r[i] == EmpiricalVaR(v0, SortedCopy(cols[i]), p)
  {
    seq(|cols|, i requires 0 <= i < |cols| => EmpiricalVaR(v0, SortedCopy(cols[i]), p))
  }

  /** The ES row of a scenario matrix given by its columns. */
  function ColumnESs(v0: real, cols: seq<seq<real>>, n: nat, p: real): (r: seq<real>)
    requires 1 <= n && 0.0 < p < 1.0 && Shaped(cols, n)
    ensures |r| == |cols|
    ensures forall i {:trigger r[i]} :: 0 <= i < |cols| ==> r[i] == EmpiricalES(v0, SortedCopy(cols[i]), p)
  {
    seq(|cols|, i requires 0 <= i < |cols| => EmpiricalES(v0, SortedCopy(cols[i]), p))
  }

  /** At equal probabilities ES is at least VaR in every column. */
  lemma ColumnESAtLeastVaR(v0: real, cols: seq<seq<real>>, n: nat, p: real)
    requires 1 <= n && 0.0 < p < 1.0 && Shaped(cols, n)
    ensures forall i :: 0 <= i < |cols| ==> ColumnVaRs(v0, cols, n, p)[i] <= ColumnESs(v0, cols, n, p)[i]
  {
    forall i | 0 <= i < |cols|
      ensures ColumnVaRs(v0, cols, n, p)[i] <= ColumnESs(v0, cols, n, p)[i]
    {
      ESAtLeastVaR(v0, SortedCopy(cols[i]), p);
    }
  }

  /** Every column's VaR and ES are non-decreasing in their probabilities. */
  lemma ColumnRiskMonotone(v0: real, cols: seq<seq<real>>, n: nat, p1: real, p2: real)
    requires 1 <= n && 0.0 < p1 <= p2 < 1.0 && Shaped(cols, n)
    ensures forall i :: 0 <= i < |cols| ==>
      ColumnVaRs(v0, cols, n, p1)[i] <= ColumnVaRs(v0, cols, n, p2)[i] &&
      ColumnESs(v0, cols, n, p1)[i] <= ColumnESs(v0, cols, n, p2)[i]
  {
    forall i | 0 <= i < |cols|
      ensures ColumnVaRs(v0, cols, n, p1)[i] <= ColumnVaRs(v0, cols, n, p2)[i]
      ensures ColumnESs(v0, cols, n, p1)[i] <= ColumnESs(v0, cols, n, p2)[i]
    {
      VaRMonotone(v0, SortedCopy(cols[i]), p1, p2);
      ESMonotone(v0, SortedCopy(cols[i]), p1, p2);
    }
  }

  /** A matrix whose column i holds the single value c[i] has
      VaR = ES = v0 - c[i] in column i. */
  lemma ColumnRiskConstant(v0: real, cols: seq<seq<real>>, n: nat, p: real, q: real, c: seq<real>)
    requires 1 <= n && 0.0 < p < 1.0 && 0.0 < q < 1.0 && Shaped(cols, n) && |c| == |cols|
    requires forall i, k :: 0 <= i < |cols| && 0 <= k < n ==> cols[i][k] == c[i]
    ensures forall i :: 0 <= i < |cols| ==>
      ColumnVaRs(v0, cols, n, p)[i] == v0 - c[i] && ColumnESs(v0, cols, n, q)[i] == v0 - c[i]
  {
    forall i | 0 <= i < |cols|
      ensures ColumnVaRs(v0, cols, n, p)[i] == v0 - c[i] && ColumnESs(v0, cols, n, q)[i] == v0 - c[i]
    {
      var sorted := SortedCopy(cols[i]);
      SortedCopyConstant(cols[i], c[i]);
      MeanConstant(sorted[..TailCount(q, n)], c[i]);
    }
  }

  /** Sorts every column of a scenario matrix (`np.sort(m, axis=0)`) and
      reads the VaR row at the rank and the ES row as the tail means. */
  method SortAndReadOff(scenarios: array2<real>, v0: real, varProb: real, esProb: real, ghost cols: seq<seq<real>>)
    returns (valueAtRisk: seq<real>, expectedShortfall: seq<real>)
    requires 1 <= scenarios.Length0 && 0.0 < varProb < 1.0 && 0.0 < esProb < 1.0
    requires |cols| == scenarios.Length1 && Shaped(cols, scenarios.Length0)
    requires forall i :: 0 <= i < |cols| ==> Column(scenarios, i) == cols[i]
    ensures valueAtRisk == ColumnVaRs(v0, cols, scenarios.Length0, varProb)
    ensures expectedShortfall == ColumnESs(v0, cols, scenarios.Length0, esProb)
  {
    var sorted := SortColumns(scenarios);
    var n, trials := sorted.Length0, sorted.Length1;
    var rank, tail := Rank(varProb, n), TailCount(esProb, n);
    valueAtRisk := seq(trials, i requires 0 <= i < trials reads sorted => v0 - sorted[rank, i]);
    expectedShortfall := seq(trials, i requires 0 <= i < trials reads sorted => v0 - Mean(Column(sorted, i)[..tail]));
    ghost var vars, ess := ColumnVaRs(v0, cols, n, varProb), ColumnESs(v0, cols, n, esProb);
    forall i | 0 <= i < trials
      ensures valueAtRisk[i] == vars[i] && expectedShortfall[i] == ess[i]
    {
      assert Column(sorted, i) == SortedCopy(cols[i]);
      assert sorted[rank, i] == Column(sorted, i)[rank];
    }
  }
}
