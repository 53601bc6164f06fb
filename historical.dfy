/** Historical-simulation VaR/ES (`historical`, app.py:111-123): every
    anchor date gets a column of realized five-day outcomes, the columns are
    sorted and the empirical quantile and tail mean are read off. */
module HistoricalModel {
  import opened Numerics
  import opened Sorting
  import opened Quantiles

  /** `price_res = v0 * exp(log p[:N - h] - log p[5:])`: the value v0 would
      reach over the five days ending at date j. Over exact reals
      exp(log a - log b) is a / b. */
  function HorizonValues(v0: real, prices: seq<real>, h: nat): (r: seq<real>)
    requires h == 5 && h <= |prices| && Positive(prices)
    ensures |r| == |prices| - h
    ensures forall j {:trigger r[j]} :: 0 <= j < |r| ==> r[j] == v0 * (prices[j] / prices[j + h])
  {
    seq(|prices| - h, j requires 0 <= j < |prices| - h => v0 * (prices[j] / prices[j + 5]))
  }

  /** The columns of the `npaths x ntrials` scenario matrix: column i is
      `price_res[i : i + npaths]`, so every read stays below index
      N - h - 1 of `price_res`. */
  function HistoricalScenarios(v0: real, prices: seq<real>, w: nat, h: nat): (cols: seq<seq<real>>)
    requires h == 5 && h < w <= |prices| && Positive(prices)
    ensures |cols| == |prices| - w && Shaped(cols, w - h)
    ensures forall i, k {:trigger cols[i][k]} :: 0 <= i < |cols| && 0 <= k < w - h ==>
      i + k <= |prices| - h - 2 && cols[i][k] == v0 * (prices[i + k] / prices[i + k + h])
  {
    var values := HorizonValues(v0, prices, h);
    seq(|prices| - w, i requires 0 <= i < |prices| - w => values[i..i + (w - h)])
  }

  /** The VaR and ES rows of the historical scenario matrix. */
  function HistoricalRisk(v0: real, prices: seq<real>, varProb: real, esProb: real, w: nat, h: nat): (r: (seq<real>, seq<real>))
    requires h == 5 && h < w <= |prices| && Positive(prices)
    requires 0.0 < varProb < 1.0 && 0.0 < esProb < 1.0
    ensures |r.0| == |r.1| == |prices| - w
  {
    var cols := HistoricalScenarios(v0, prices, w, h);
    (ColumnVaRs(v0, cols, w - h, varProb), ColumnESs(v0, cols, w - h, esProb))
  }

  /** `historical(v0, price, VaR_prob, ES_prob, window_days, horizon_days)`:
      fills the scenario matrix column by column, sorts it and reads off
      one VaR and one ES per anchor date. */
  method Historical(v0: real, prices: seq<real>, varProb: real, esProb: real, windowDays: nat, horizonDays: nat)
    returns (valueAtRisk: seq<real>, expectedShortfall: seq<real>)
    requires horizonDays == 5 && horizonDays < windowDays <= |prices| && Positive(prices)
    requires 0.0 < varProb < 1.0 && 0.0 < esProb < 1.0
    ensures |valueAtRisk| == |expectedShortfall| == |prices| - windowDays
    ensures (valueAtRisk, expectedShortfall) == HistoricalRisk(v0, prices, varProb, esProb, windowDays, horizonDays)
    ensures varProb == esProb ==> forall i :: 0 <= i < |valueAtRisk| ==> valueAtRisk[i] <= expectedShortfall[i]
  {
    var npaths, ntrials := windowDays - horizonDays, |prices| - windowDays;
    var priceRes := HorizonValues(v0, prices, horizonDays);
    ghost var cols := HistoricalScenarios(v0, prices, windowDays, horizonDays);
    var scenarios := new real[npaths, ntrials]((_, _) => 0.0);
    for i := 0 to ntrials
      invariant forall t, k :: 0 <= t < i && 0 <= k < npaths ==> scenarios[k, t] == cols[t][k]
    {
      StoreColumn(scenarios, i, priceRes[i..i + npaths]);
    }
    ColumnsFromEntries(scenarios, cols);
    valueAtRisk, expectedShortfall := SortAndReadOff(scenarios, v0, varProb, esProb, cols);
    if varProb == esProb {
      ColumnESAtLeastVaR(v0, cols, npaths, varProb);
    }
  }

  /** A series whose every five-day growth factor is g (a deterministic,
      constant-drift series) has VaR = ES = v0 - v0 * g at every anchor. */
  lemma HistoricalConstantGrowth(v0: real, prices: seq<real>, p: real, q: real, w: nat, h: nat, g: real)
    requires h == 5 && h < w <= |prices| && Positive(prices)
    requires 0.0 < p < 1.0 && 0.0 < q < 1.0
    requires forall j :: 0 <= j < |prices| - h ==> prices[j] == g * prices[j + h]
    ensures var r := HistoricalRisk(v0, prices, p, q, w, h);
      forall i :: 0 <= i < |prices| - w ==> r.0[i] == v0 - v0 * g && r.1[i] == v0 - v0 * g
  {
    var cols := HistoricalScenarios(v0, prices, w, h);
    var c := seq(|cols|, i => v0 * g);
    forall i, k | 0 <= i < |cols| && 0 <= k < w - h
      ensures cols[i][k] == c[i]
    {
      var a, b := prices[i + k], prices[i + k + h];
      assert a == g * b;
      assert a / b == g;
    }
    ColumnRiskConstant(v0, cols, w - h, p, q, c);
  }
}
