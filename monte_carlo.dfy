/** Monte-Carlo VaR/ES (`monte_carlo`, app.py:126-138): every anchor date
    gets a column of 5000 simulated terminal values under the rolling GBM
    estimate of that date; the read-off is the historical one. The
    standard-normal draws are an input. */
module MonteCarloModel {
  import opened Numerics
  import opened Sorting
  import opened Quantiles

  /** `npaths`, the number of simulated paths per anchor date. */
  const Paths: nat := 5000

  /** `v0 * exp(sigma * bm - (mu + sigma^2 / 2) * horizon)` for the draw z,
      where `bm = sqrt(horizon) * z`. */
  function TerminalValue(m: Math, v0: real, mu: real, sigma: real, horizon: real, z: real): (r: real)
    ensures PositiveValued(m.exp) ==> (0.0 < r <==> 0.0 < v0)
  {
    var g := m.exp(sigma * (m.sqrt(horizon) * z) - (mu + sigma * sigma / 2.0) * horizon);
    assert PositiveValued(m.exp) ==> (0.0 < v0 * g <==> 0.0 < v0) by {
      if PositiveValued(m.exp) {
        PositiveFactorSign(v0, g);
      }
    }
    v0 * g
  }

  /** Column i of the `npaths x ntrials` matrix `p1`: the terminal values
      of the draws of trial i under the estimate (mu[i], sigma[i]). */
  function MonteCarloScenarios(m: Math, v0: real, mu: seq<real>, sigma: seq<real>, horizon: real, draws: seq<seq<real>>): (cols: seq<seq<real>>)
    requires |draws| <= |mu| && |draws| <= |sigma| && Shaped(draws, Paths)
    ensures |cols| == |draws| && Shaped(cols, Paths)
    ensures forall i, k {:trigger cols[i][k]} :: 0 <= i < |cols| && 0 <= k < Paths ==>
      cols[i][k] == TerminalValue(m, v0, mu[i], sigma[i], horizon, draws[i][k])
  {
    seq(|draws|, i requires 0 <= i < |draws| =>
      seq(Paths, k requires 0 <= k < Paths => TerminalValue(m, v0, mu[i], sigma[i], horizon, draws[i][k])))
  }

  /** The VaR and ES rows of the simulated scenario matrix. */
  function MonteCarloRisk(m: Math, v0: real, mu: seq<real>, sigma: seq<real>, varProb: real, esProb: real, horizon: real, draws: seq<seq<real>>): (r: (seq<real>, seq<real>))
    requires |draws| <= |mu| && |draws| <= |sigma| && Shaped(draws, Paths)
    requires 0.0 < varProb < 1.0 && 0.0 < esProb < 1.0
    ensures |r.0| == |r.1| == |draws|
  {
    var cols := MonteCarloScenarios(m, v0, mu, sigma, horizon, draws);
    (ColumnVaRs(v0, cols, Paths, varProb), ColumnESs(v0, cols, Paths, esProb))
  }

  /** `monte_carlo(v0, price, mu, sigma, VaR_prob, ES_prob, window_days,
      horizon)` with `draws[i]` the 5000 standard-normal samples of trial i. */
  method MonteCarlo(m: Math, v0: real, prices: seq<real>, mu: seq<real>, sigma: seq<real>,
                    varProb: real, esProb: real, windowDays: nat, horizon: real, draws: seq<seq<real>>)
    returns (valueAtRisk: seq<real>, expectedShortfall: seq<real>)
    requires windowDays <= |prices|
    requires |prices| - windowDays <= |mu| && |prices| - windowDays <= |sigma|
    requires |draws| == |prices| - windowDays && Shaped(draws, Paths)
    requires 0.0 < varProb < 1.0 && 0.0 < esProb < 1.0
    ensures |valueAtRisk| == |expectedShortfall| == |prices| - windowDays
    ensures (valueAtRisk, expectedShortfall) == MonteCarloRisk(m, v0, mu, sigma, varProb, esProb, horizon, draws)
    ensures varProb == esProb ==> forall i :: 0 <= i < |valueAtRisk| ==> valueAtRisk[i] <= expectedShortfall[i]
  {
    var ntrials := |prices| - windowDays;
    ghost var cols := MonteCarloScenarios(m, v0, mu, sigma, horizon, draws);
    var p1 := new real[Paths, ntrials]((_, _) => 0.0);
    for i := 0 to ntrials
      invariant forall t, k :: 0 <= t < i && 0 <= k < Paths ==> p1[k, t] == cols[t][k]
    {
      var y := seq(Paths, k requires 0 <= k < Paths => TerminalValue(m, v0, mu[i], sigma[i], horizon, draws[i][k]));
      StoreColumn(p1, i, y);
    }
    ColumnsFromEntries(p1, cols);
    valueAtRisk, expectedShortfall := SortAndReadOff(p1, v0, varProb, esProb, cols);
    if varProb == esProb {
      ColumnESAtLeastVaR(v0, cols, Paths, varProb);
    }
  }

  /** The growth factor `exp(-mu * horizon)` of a path with no volatility. */
  function Decay(m: Math, mu: real, horizon: real): real {
    m.exp(-mu * horizon)
  }

  /** With zero volatility the draw does not matter. */
  lemma ZeroVolatilityValue(m: Math, v0: real, mu: real, horizon: real, z: real)
    ensures TerminalValue(m, v0, mu, 0.0, horizon, z) == v0 * Decay(m, mu, horizon)
  {
    assert 0.0 * (m.sqrt(horizon) * z) - (mu + 0.0 * 0.0 / 2.0) * horizon == -mu * horizon;
  }

  /** With zero volatility every scenario of trial i is v0 * Decay(mu[i]). */
  lemma ZeroVolatilityScenarios(m: Math, v0: real, mu: seq<real>, sigma: seq<real>, horizon: real, draws: seq<seq<real>>)
    requires |draws| <= |mu| && |draws| <= |sigma| && Shaped(draws, Paths)
    requires forall i :: 0 <= i < |draws| ==> sigma[i] == 0.0
    ensures forall i, k :: 0 <= i < |draws| && 0 <= k < Paths ==>
      MonteCarloScenarios(m, v0, mu, sigma, horizon, draws)[i][k] == v0 * Decay(m, mu[i], horizon)
  {
    var cols := MonteCarloScenarios(m, v0, mu, sigma, horizon, draws);
    forall i, k | 0 <= i < |draws| && 0 <= k < Paths
      ensures cols[i][k] == v0 * Decay(m, mu[i], horizon)
    {
      assert cols[i][k] == TerminalValue(m, v0, mu[i], sigma[i], horizon, draws[i][k]);
      ZeroVolatilityValue(m, v0, mu[i], horizon, draws[i][k]);
    }
  }

  /** With zero volatility every path of trial i ends at
      v0 * exp(-mu[i] * horizon), so VaR and ES are both
      v0 - v0 * exp(-mu[i] * horizon): the simulated drift enters with the
      sign opposite to the one in the closed-form model. */
  lemma MonteCarloZeroVolatility(m: Math, v0: real, mu: seq<real>, sigma: seq<real>, p: real, q: real, horizon: real, draws: seq<seq<real>>)
    requires |draws| <= |mu| && |draws| <= |sigma| && Shaped(draws, Paths)
    requires 0.0 < p < 1.0 && 0.0 < q < 1.0
    requires forall i :: 0 <= i < |draws| ==> sigma[i] == 0.0
    ensures var r := MonteCarloRisk(m, v0, mu, sigma, p, q, horizon, draws);
      forall i :: 0 <= i < |draws| ==>
        r.0[i] == v0 - v0 * Decay(m, mu[i], horizon) && r.1[i] == v0 - v0 * Decay(m, mu[i], horizon)
  {
    var cols := MonteCarloScenarios(m, v0, mu, sigma, horizon, draws);
    var c := seq(|cols|, i requires 0 <= i < |cols| => v0 * Decay(m, mu[i], horizon));
    ZeroVolatilityScenarios(m, v0, mu, sigma, horizon, draws);
    ColumnRiskConstant(v0, cols, Paths, p, q, c);
  }
}
