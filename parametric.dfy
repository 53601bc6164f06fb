/** Closed-form VaR and ES under the log-normal GBM model (`parametric`,
    app.py:105-108), elementwise over the rolling estimates. */
module ParametricModel {
  import opened Numerics

  /** VaR for one (mu, sigma) pair over a horizon of t years: v0 minus the
      (1 - p) quantile of the terminal value. */
  function ParametricVaR(m: Math, v0: real, mu: real, sigma: real, p: real, t: real): (r: real)
    ensures PositiveValued(m.exp) ==> (r < v0 <==> 0.0 < v0)
  {
    var g := m.exp(sigma * m.sqrt(t) * m.normPpf(1.0 - p) + (mu - sigma * sigma / 2.0) * t);
    assert PositiveValued(m.exp) ==> (0.0 < v0 * g <==> 0.0 < v0) by {
      if PositiveValued(m.exp) {
        PositiveFactorSign(v0, g);
      }
    }
    v0 - v0 * g
  }

  /** ES for one (mu, sigma) pair: v0 times one minus the tail-conditional
      growth factor. */
  function ParametricES(m: Math, v0: real, mu: real, sigma: real, q: real, t: real): (r: real)
    requires q != 1.0
    ensures PositiveValued(m.exp) && UnitValued(m.normCdf) && q < 1.0 && 0.0 <= v0 ==> r <= v0
  {
    var c, g := m.normCdf(m.normPpf(1.0 - q) - m.sqrt(t) * sigma), m.exp(mu * t);
    var es := v0 * (1.0 - c * (g / (1.0 - q)));
    assert PositiveValued(m.exp) && UnitValued(m.normCdf) && q < 1.0 && 0.0 <= v0 ==> es <= v0 by {
      if PositiveValued(m.exp) && UnitValued(m.normCdf) && q < 1.0 && 0.0 <= v0 {
        QuotientNonNegative(g, 1.0 - q);
        ProductNonNegative(c, g / (1.0 - q));
        ScaleMonotone(v0, 1.0 - c * (g / (1.0 - q)), 1.0);
      }
    }
    es
  }

  /** `parametric(v0, mu, sigma, VaR_prob, ES_prob, t)` over arrays: the
      k-th VaR and ES come from the k-th rolling estimate. */
  function Parametric(m: Math, v0: real, mu: seq<real>, sigma: seq<real>, varProb: real, esProb: real, t: real): (r: (seq<real>, seq<real>))
    requires |mu| == |sigma| && esProb != 1.0
    ensures |r.0| == |r.1| == |mu|
    ensures forall k {:trigger r.0[k]} :: 0 <= k < |mu| ==> r.0[k] == ParametricVaR(m, v0, mu[k], sigma[k], varProb, t)
    ensures forall k {:trigger r.1[k]} :: 0 <= k < |mu| ==> r.1[k] == ParametricES(m, v0, mu[k], sigma[k], esProb, t)
  {
    (seq(|mu|, k requires 0 <= k < |mu| => ParametricVaR(m, v0, mu[k], sigma[k], varProb, t)),
     seq(|mu|, k requires 0 <= k < |mu| => ParametricES(m, v0, mu[k], sigma[k], esProb, t)))
  }

  /** VaR is non-decreasing in the VaR probability: a higher confidence
      reads a lower quantile of the terminal value. */
  lemma ParametricVaRMonotone(m: Math, v0: real, mu: real, sigma: real, p1: real, p2: real, t: real)
    requires NonDecreasing(m.exp) && NonDecreasingOnUnit(m.normPpf) && IsSqrt(m.sqrt)
    requires 0.0 <= v0 && 0.0 <= sigma && 0.0 <= t
    requires 0.0 < p1 <= p2 < 1.0
    ensures ParametricVaR(m, v0, mu, sigma, p1, t) <= ParametricVaR(m, v0, mu, sigma, p2, t)
  {
    var c := sigma * m.sqrt(t);
    assert 0.0 <= m.sqrt(t);
    assert 0.0 <= c by {
      ScaleMonotone(sigma, 0.0, m.sqrt(t));
    }
    var z1, z2 := m.normPpf(1.0 - p1), m.normPpf(1.0 - p2);
    assert z2 <= z1;
    ScaleMonotone(c, z2, z1);
    var drift := (mu - sigma * sigma / 2.0) * t;
    var g1, g2 := m.exp(c * z1 + drift), m.exp(c * z2 + drift);
    assert g2 <= g1;
    ScaleMonotone(v0, g2, g1);
  }

  /** With zero volatility VaR and ES coincide: both are the loss
      v0 - v0 * exp(mu * t) of the deterministic terminal value. */
  lemma ParametricZeroVolatility(m: Math, v0: real, mu: real, p: real, q: real, t: real)
    requires InvertsOnUnit(m.normCdf, m.normPpf)
    requires 0.0 < q < 1.0
    ensures ParametricVaR(m, v0, mu, 0.0, p, t) == v0 - v0 * m.exp(mu * t)
    ensures ParametricES(m, v0, mu, 0.0, q, t) == v0 - v0 * m.exp(mu * t)
  {
    var z := m.normPpf(1.0 - q);
    assert m.normCdf(z - m.sqrt(t) * 0.0) == 1.0 - q;
    var g := m.exp(mu * t);
    assert (1.0 - q) * (g / (1.0 - q)) == g;
    assert ParametricES(m, v0, mu, 0.0, q, t) == v0 * (1.0 - g);
  }
}
