/** The sizing arithmetic of the stock-plus-put hedge (`options_cal`,
    app.py:210-231): the capital v0 is split by the liquidity rate between
    shares at the spot price and puts at the put price, and the hedged VaR
    is compared with the parametric VaR of the unhedged position. */
module OptionHedge {
  import opened Numerics
  import opened GbmEstimator
  import opened ParametricModel

  /** Numbers of shares and of puts bought. */
  datatype Sizing = Sizing(nstocks: real, nputs: real)

  /** `nstocks = v0 * (1 - liq_rate) / s0`, `nputs = v0 * liq_rate / put0`. */
  function Size(v0: real, liqRate: real, s0: real, put0: real): (z: Sizing)
    requires 0.0 < s0 && 0.0 < put0
    ensures z.nstocks * s0 == v0 * (1.0 - liqRate)
    ensures z.nputs * put0 == v0 * liqRate
  {
    Sizing(v0 * (1.0 - liqRate) / s0, v0 * liqRate / put0)
  }

  /** The shares and the puts together cost exactly the capital. */
  lemma SpendsCapital(v0: real, liqRate: real, s0: real, put0: real)
    requires 0.0 < s0 && 0.0 < put0
    ensures var z := Size(v0, liqRate, s0, put0);
      z.nstocks * s0 + z.nputs * put0 == v0
  {
  }

  /** A liquidity rate in [0, 1] buys no negative position. */
  lemma SizingNonNegative(v0: real, liqRate: real, s0: real, put0: real)
    requires 0.0 < s0 && 0.0 < put0
    requires 0.0 <= v0 && 0.0 <= liqRate <= 1.0
    ensures var z := Size(v0, liqRate, s0, put0);
      0.0 <= z.nstocks && 0.0 <= z.nputs
  {
    ProductNonNegative(v0, 1.0 - liqRate);
    ProductNonNegative(v0, liqRate);
    QuotientNonNegative(v0 * (1.0 - liqRate), s0);
    QuotientNonNegative(v0 * liqRate, put0);
  }

  /** `reduction = 100 * (1 - VaR_2 / VaR_1)`, the percentage by which the
      hedge lowers the VaR; None where the unhedged VaR is zero (numpy's
      infinite or undefined quotient). */
  function Reduction(unhedged: real, hedged: real): (r: Option<real>)
    ensures r.None? <==> unhedged == 0.0
    ensures r.Some? ==> hedged == unhedged * (1.0 - r.value / 100.0)
  {
    if unhedged == 0.0 then None else Some(100.0 * (1.0 - hedged / unhedged))
  }

  /** For a positive unhedged VaR the reduction is positive exactly when the
      hedge lowers the VaR, and zero exactly when it leaves it unchanged. */
  lemma ReductionSign(unhedged: real, hedged: real)
    requires 0.0 < unhedged
    ensures Reduction(unhedged, hedged).Some?
    ensures 0.0 < Reduction(unhedged, hedged).value <==> hedged < unhedged
    ensures Reduction(unhedged, hedged).value == 0.0 <==> hedged == unhedged
  {
    var r := Reduction(unhedged, hedged).value;
    assert hedged == unhedged * (1.0 - r / 100.0);
    assert unhedged - hedged == unhedged * (r / 100.0);
    if 0.0 < r {
      assert 0.0 < unhedged * (r / 100.0);
    }
    if hedged < unhedged {
      assert 0.0 < unhedged * (r / 100.0);
      assert 0.0 < r / 100.0;
    }
  }

  /** The figures `options_cal` reports. */
  datatype HedgeReport = HedgeReport(
    s0: real,
    nstocks: real,
    put0: real,
    nputs: real,
    unhedgedVaR: real,
    hedgedVaR: real,
    reduction: Option<real>)

  /** `VaR_1`: the parametric VaR of the unhedged capital at the first
      rolling estimate. */
  function UnhedgedVaR(m: Math, prices: seq<real>, v0: real, varProb: real, window: nat, horizon: real): (r: real)
    requires IsSqrt(m.sqrt) && 1 <= window * 252 <= |prices| - 1
    ensures PositiveValued(m.exp) ==> (r < v0 <==> 0.0 < v0)
  {
    var e := GbmEst(m, prices, window * 252);
    ParametricVaR(m, v0, e.mu[0], e.sigma[0], varProb, horizon)
  }

  /** `options_cal`: the spot is the first price, the unhedged VaR
      is the parametric VaR at the first rolling estimate, the put price and
      the hedged (simulated) VaR are inputs; the positions are sized by
      `Size` and the saving is `Reduction`. */
  function OptionsCal(m: Math, prices: seq<real>, v0: real, liqRate: real, varProb: real,
                      window: nat, horizon: real, put0: real, hedgedVaR: real): (r: HedgeReport)
    requires IsSqrt(m.sqrt) && 1 <= window * 252 <= |prices| - 1
    requires Positive(prices) && 0.0 < put0
    ensures r.s0 == prices[0] && r.put0 == put0 && r.hedgedVaR == hedgedVaR
    ensures r.unhedgedVaR == UnhedgedVaR(m, prices, v0, varProb, window, horizon)
    ensures Sizing(r.nstocks, r.nputs) == Size(v0, liqRate, prices[0], put0)
    ensures r.reduction == Reduction(r.unhedgedVaR, hedgedVaR)
  {
    var unhedged := UnhedgedVaR(m, prices, v0, varProb, window, horizon);
    var z := Size(v0, liqRate, prices[0], put0);
    HedgeReport(prices[0], z.nstocks, put0, z.nputs, unhedged, hedgedVaR, Reduction(unhedged, hedgedVaR))
  }

  /** The estimate `options_cal` prices with is entry 0 of the rolling
      estimates (`GbmEst` returns `Mubar` as its mubar), and entry 0 is the
      one over the OLDEST window of returns, rtn[N - 1 - W .. N - 1]. */
  lemma OptionsUseOldestWindow(ln: real -> real, prices: seq<real>, window: nat)
    requires 1 <= window * 252 <= |prices| - 1
    ensures var w := window * 252;
      Mubar(ln, prices, w)[0] == Mean(LogReturns(ln, prices)[|prices| - 1 - w .. |prices| - 1])
  {
  }
}
