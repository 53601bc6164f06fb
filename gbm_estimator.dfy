/** Rolling-window estimation of Geometric Brownian Motion parameters from
    a most-recent-first price series (`gbm_est`, app.py:62-71). */
module GbmEstimator {
  import opened Numerics

  /** Trading days per year. */
  const TradingDays: real := 252.0

  /** `-np.diff(np.log(prices))`: entry i is the log return from day i + 1
      to the more recent day i. */
  function LogReturns(ln: real -> real, prices: seq<real>): (rtn: seq<real>)
    requires 1 <= |prices|
    ensures |rtn| == |prices| - 1
    ensures forall i {:trigger rtn[i]} :: 0 <= i < |rtn| ==> rtn[i] == ln(prices[i]) - ln(prices[i + 1])
  {
    seq(|prices| - 1, i requires 0 <= i < |prices| - 1 => -(ln(prices[i + 1]) - ln(prices[i])))
  }

  /** `np.convolve(x, np.ones((w,))/w, mode='valid')` for w <= |x|: the
      mean of every run of w consecutive entries, first run first. */
  function MovingAverage(x: seq<real>, w: nat): (r: seq<real>)
    requires 1 <= w <= |x|
    ensures |r| == |x| - w + 1
    ensures forall j {:trigger r[j]} :: 0 <= j < |r| ==> r[j] == Mean(x[j..j + w])
  {
    seq(|x| - w + 1, j requires 0 <= j < |x| - w + 1 => Mean(x[j..j + w]))
  }

  function Reverse(s: seq<real>): (r: seq<real>)
    ensures |r| == |s|
    ensures forall i {:trigger r[i]} :: 0 <= i < |s| ==> r[i] == s[|s| - 1 - i]
  {
    seq(|s|, i requires 0 <= i < |s| => s[|s| - 1 - i])
  }

  /** The five arrays `gbm_est` returns. */
  datatype Estimate = Estimate(
    rtn: seq<real>,
    mu: seq<real>,
    sigma: seq<real>,
    mubar: seq<real>,
    sigmabar: seq<real>)

  /** Estimate k is computed from the returns rtn[WindowStart(n, w, k) ..
      WindowStart(n, w, k) + w] of a series of n prices: after the
      reversal, estimate 0 is the one over the OLDEST w returns. */
  function WindowStart(n: nat, w: nat, k: nat): int {
    n - 1 - w - k
  }

  /** Sample variance of a window: mean of squares minus square of mean. */
  function WindowVariance(x: seq<real>): real
    requires |x| > 0
  {
    Mean(Squares(x)) - Square(Mean(x))
  }

  /** `mubar`: the reversed moving average of the log returns. */
  function Mubar(ln: real -> real, prices: seq<real>, w: nat): (r: seq<real>)
    requires 1 <= w <= |prices| - 1
    ensures |r| == |prices| - w
    ensures forall k :: 0 <= k < |r| ==>
      var a := WindowStart(|prices|, w, k);
      0 <= a && r[k] == Mean(LogReturns(ln, prices)[a..a + w])
  {
    Reverse(MovingAverage(LogReturns(ln, prices), w))
  }

  /** `x2bar`: the reversed moving average of the squared log returns. */
  function X2bar(ln: real -> real, prices: seq<real>, w: nat): (r: seq<real>)
    requires 1 <= w <= |prices| - 1
    ensures |r| == |prices| - w
    ensures forall k :: 0 <= k < |r| ==>
      var a := WindowStart(|prices|, w, k);
      0 <= a && r[k] == Mean(Squares(LogReturns(ln, prices)[a..a + w]))
  {
    var rtn := LogReturns(ln, prices);
    var ma := MovingAverage(Squares(rtn), w);
    var r := Reverse(ma);
    forall k | 0 <= k < |r|
      ensures r[k] == Mean(Squares(rtn[WindowStart(|prices|, w, k)..WindowStart(|prices|, w, k) + w]))
    {
      var a := WindowStart(|prices|, w, k);
      assert r[k] == ma[a];
      assert ma[a] == Mean(Squares(rtn)[a..a + w]);
      SquaresSlice(rtn, a, a + w);
    }
    r
  }

  /** `sqrt(maximum(var, 0))` for one window. */
  function ClampedStdDev(sqrt: real -> real, x2: real, mb: real): real {
    sqrt(Max(x2 - Square(mb), 0.0))
  }

  /** `sigmabar / sqrt(1/252)`. */
  function AnnualVolatility(sqrt: real -> real, sb: real): real
    requires IsSqrt(sqrt)
  {
    var scale := sqrt(1.0 / TradingDays);
    assert scale != 0.0 by {
      assert scale * scale == 1.0 / TradingDays;
    }
    sb / scale
  }

  /** `mubar * 252 + sigma^2 / 2`. */
  function AnnualDrift(mb: real, sigma: real): real {
    mb * TradingDays + sigma * sigma / 2.0
  }

  /** `gbm_est(prices, window_days)`. */
  function GbmEst(m: Math, prices: seq<real>, windowDays: nat): (e: Estimate)
    requires IsSqrt(m.sqrt)
    requires 1 <= windowDays <= |prices| - 1
    ensures e.rtn == LogReturns(m.ln, prices) && |e.rtn| == |prices| - 1
    ensures e.mubar == Mubar(m.ln, prices, windowDays)
    ensures |e.mubar| == |e.sigmabar| == |e.mu| == |e.sigma| == |prices| - windowDays
    ensures forall k :: 0 <= k < |e.mubar| ==>
      var a := WindowStart(|prices|, windowDays, k);
      0 <= a && a + windowDays <= |e.rtn| && e.mubar[k] == Mean(e.rtn[a..a + windowDays])
    ensures forall k :: 0 <= k < |e.mubar| ==> 0.0 <= e.sigmabar[k]
    ensures forall k :: 0 <= k < |e.mubar| ==>
      e.sigmabar[k] == ClampedStdDev(m.sqrt, X2bar(m.ln, prices, windowDays)[k], e.mubar[k]) &&
      e.sigma[k] == AnnualVolatility(m.sqrt, e.sigmabar[k]) &&
      e.mu[k] == AnnualDrift(e.mubar[k], e.sigma[k])
  {
    var rtn := LogReturns(m.ln, prices);
    var mubar := Mubar(m.ln, prices, windowDays);
    var x2bar := X2bar(m.ln, prices, windowDays);
    var n := |mubar|;
    var sigmabar := seq(n, k requires 0 <= k < n => ClampedStdDev(m.sqrt, x2bar[k], mubar[k]));
    var sigma := seq(n, k requires 0 <= k < n => AnnualVolatility(m.sqrt, sigmabar[k]));
    var mu := seq(n, k requires 0 <= k < n => AnnualDrift(mubar[k], sigma[k]));
    forall k | 0 <= k < n
      ensures 0.0 <= sigmabar[k]
    {
      ClampedStdDevSquare(m.sqrt, x2bar[k], mubar[k]);
    }
    Estimate(rtn, mu, sigma, mubar, sigmabar)
  }

  /** A sum of consecutive differences telescopes. */
  lemma {:induction false} Telescope(x: seq<real>, g: seq<real>)
    requires |g| == |x| + 1
    requires forall i :: 0 <= i < |x| ==> x[i] == g[i] - g[i + 1]
    ensures Sum(x) == g[0] - g[|x|]
  {
    if |x| > 0 {
      var n := |x|;
      Telescope(x[..n - 1], g[..n]);
    }
  }

  /** The log prices of days a .. b. */
  function Logs(ln: real -> real, prices: seq<real>, a: nat, b: nat): (r: seq<real>)
    requires a <= b < |prices|
    ensures |r| == b - a + 1
    ensures forall i {:trigger r[i]} :: 0 <= i < |r| ==> r[i] == ln(prices[a + i])
  {
    seq(b - a + 1, i requires 0 <= i < b - a + 1 => ln(prices[a + i]))
  }

  /** The log returns over [a, b) are the differences of consecutive log prices. */
  lemma LogReturnsAreDifferences(ln: real -> real, prices: seq<real>, a: nat, b: nat)
    requires a <= b <= |prices| - 1
    ensures var x, g := LogReturns(ln, prices)[a..b], Logs(ln, prices, a, b);
      |g| == |x| + 1 && forall i :: 0 <= i < |x| ==> x[i] == g[i] - g[i + 1]
  {
  }

  /** Consecutive log returns telescope: their sum over [a, b) is the log
      growth of the price from day b to day a. */
  lemma LogReturnsTelescope(ln: real -> real, prices: seq<real>, a: nat, b: nat)
    requires a <= b <= |prices| - 1
    ensures Sum(LogReturns(ln, prices)[a..b]) == ln(prices[a]) - ln(prices[b])
  {
    LogReturnsAreDifferences(ln, prices, a, b);
    var g := Logs(ln, prices, a, b);
    Telescope(LogReturns(ln, prices)[a..b], g);
    assert g[0] == ln(prices[a]) && g[b - a] == ln(prices[b]);
  }

  /** The mean log return over [a, a + w) is the log growth over the window
      divided by w. */
  lemma WindowMean(ln: real -> real, prices: seq<real>, a: nat, w: nat)
    requires 1 <= w && a + w <= |prices| - 1
    ensures Mean(LogReturns(ln, prices)[a..a + w]) == (ln(prices[a]) - ln(prices[a + w])) / (w as real)
  {
    var x := LogReturns(ln, prices)[a..a + w];
    LogReturnsTelescope(ln, prices, a, a + w);
    assert |x| as real == w as real;
    assert Mean(x) == Sum(x) / (w as real);
  }

  /** Sum of (x[i] - y)^2 written out: never negative. */
  lemma {:induction false} DeviationsNonNegative(x: seq<real>, y: real)
    ensures Sum(Squares(x)) - 2.0 * y * Sum(x) + (|x| as real) * y * y >= 0.0
  {
    if |x| > 0 {
      var init, z := x[..|x| - 1], x[|x| - 1];
      DeviationsNonNegative(init, y);
      SquaresPrefix(x);
      var n, q, s := |init| as real, Sum(Squares(init)), Sum(init);
      assert Sum(Squares(x)) == q + z * z;
      assert Sum(x) == s + z;
      assert (q + z * z) - 2.0 * y * (s + z) + (n + 1.0) * y * y
        == (q - 2.0 * y * s + n * y * y) + (z - y) * (z - y);
    }
  }

  lemma SquaresPrefix(x: seq<real>)
    requires |x| > 0
    ensures Squares(x)[..|x| - 1] == Squares(x[..|x| - 1])
  {
    var p, q := Squares(x)[..|x| - 1], Squares(x[..|x| - 1]);
    assert |p| == |q|;
    assert forall i :: 0 <= i < |p| ==> p[i] == q[i];
  }

  /** n * (sum of squares) >= (sum)^2, the Cauchy-Schwarz bound. */
  lemma {:induction false} SquareSumBound(x: seq<real>)
    ensures (|x| as real) * Sum(Squares(x)) - Sum(x) * Sum(x) >= 0.0
  {
    if |x| > 0 {
      var init, z := x[..|x| - 1], x[|x| - 1];
      SquareSumBound(init);
      DeviationsNonNegative(init, z);
      SquaresPrefix(x);
      var n, q, s := |init| as real, Sum(Squares(init)), Sum(init);
      assert Sum(Squares(x)) == q + z * z;
      assert Sum(x) == s + z;
      assert (n + 1.0) * (q + z * z) - (s + z) * (s + z)
        == (n * q - s * s) + (q - 2.0 * z * s + n * z * z);
    }
  }

  /** n > 0 and n * n * d >= 0 force d >= 0. */
  lemma SquareFactorSign(n: real, d: real)
    requires 0.0 < n && 0.0 <= n * n * d
    ensures 0.0 <= d
  {
    if d < 0.0 {
      PositiveTimesNegative(n, d);
      PositiveTimesNegative(n, n * d);
    }
  }

  /** (q / n) - (s / n)^2 has the sign of n * q - s^2: dividing
      n * Q - S^2 >= 0 through by n^2 gives Q/n - (S/n)^2 >= 0. */
  lemma MeanSquareSign(q: real, s: real, n: real)
    requires 0.0 < n && 0.0 <= n * q - s * s
    ensures 0.0 <= q / n - (s / n) * (s / n)
  {
    var a, b := q / n, s / n;
    assert a * n == q;
    assert b * n == s;
    assert n * q - s * s == n * n * (a - b * b);
    SquareFactorSign(n, a - b * b);
  }

  /** Over exact reals the windowed variance is never negative. */
  lemma VarianceNonNegative(x: seq<real>)
    requires |x| > 0
    ensures WindowVariance(x) >= 0.0
  {
    SquareSumBound(x);
    var n, q, s := |x| as real, Sum(Squares(x)), Sum(x);
    MeanSquareSign(q, s, n);
  }

  /** The squares of a window are the window of the squares. */
  lemma SquaresSlice(x: seq<real>, a: nat, b: nat)
    requires a <= b <= |x|
    ensures Squares(x)[a..b] == Squares(x[a..b])
  {
    var p, q := Squares(x)[a..b], Squares(x[a..b]);
    assert |p| == |q|;
    assert forall i :: 0 <= i < |p| ==> p[i] == q[i];
  }

  /** `sigmabar = sqrt(max(x2bar - mubar^2, 0))` for window k is never
      negative, and its square is the clamped variance of the window. */
  lemma SigmabarIsClampedStdDev(sqrt: real -> real, ln: real -> real, prices: seq<real>, w: nat, k: nat)
    requires IsSqrt(sqrt)
    requires 1 <= w <= |prices| - 1
    requires k < |prices| - w
    ensures 0 <= WindowStart(|prices|, w, k)
    ensures 0.0 <= ClampedStdDev(sqrt, X2bar(ln, prices, w)[k], Mubar(ln, prices, w)[k])
    ensures var sb := ClampedStdDev(sqrt, X2bar(ln, prices, w)[k], Mubar(ln, prices, w)[k]);
      var a := WindowStart(|prices|, w, k);
      Square(sb) == Max(WindowVariance(LogReturns(ln, prices)[a..a + w]), 0.0)
  {
    ClampedStdDevSquare(sqrt, X2bar(ln, prices, w)[k], Mubar(ln, prices, w)[k]);
  }

  /** The clamped standard deviation squares to the clamped variance. */
  lemma ClampedStdDevSquare(sqrt: real -> real, x2: real, mb: real)
    requires IsSqrt(sqrt)
    ensures 0.0 <= ClampedStdDev(sqrt, x2, mb)
    ensures Square(ClampedStdDev(sqrt, x2, mb)) == Max(x2 - Square(mb), 0.0)
  {
    SqrtOf(sqrt, Max(x2 - Square(mb), 0.0));
  }

  /** Over exact reals the clamp never binds: sigmabar computed from the
      two moments of a window squares to that window's variance itself. */
  lemma ClampNeverBinds(sqrt: real -> real, x: seq<real>)
    requires IsSqrt(sqrt) && |x| > 0
    ensures Square(ClampedStdDev(sqrt, Mean(Squares(x)), Mean(x))) == WindowVariance(x)
  {
    ClampedStdDevSquare(sqrt, Mean(Squares(x)), Mean(x));
    MaxOfVariance(x);
  }

  /** The clamp leaves a non-negative variance alone. */
  lemma MaxOfVariance(x: seq<real>)
    requires |x| > 0
    ensures Max(WindowVariance(x), 0.0) == WindowVariance(x)
  {
    VarianceNonNegative(x);
  }

  /** The annualisation of one window is invertible: its daily mean and
      standard deviation are recovered from (mu, sigma). */
  lemma AnnualisationInvertible(sqrt: real -> real, mb: real, sb: real)
    requires IsSqrt(sqrt) && 0.0 <= sb
    ensures var sigma := AnnualVolatility(sqrt, sb);
      0.0 <= sigma &&
      sigma * sigma == TradingDays * (sb * sb) &&
      mb == (AnnualDrift(mb, sigma) - sigma * sigma / 2.0) / TradingDays
  {
    var scale := sqrt(1.0 / TradingDays);
    assert scale * scale == 1.0 / TradingDays;
    assert 0.0 < scale;
    var sigma := sb / scale;
    assert sigma * sigma == (sb * sb) / (scale * scale);
  }
}
