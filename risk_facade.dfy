/** The entry point of the risk engine (`plot_risk`, app.py:141-179,
    without the charts and the CSV file): picks the estimator named by the
    caller, trims its VaR/ES series to the display length and lines the VaR
    series up with the losses realized over the horizon for the back-test. */
module RiskFacade {
  import opened Numerics
  import opened GbmEstimator
  import opened ParametricModel
  import opened Quantiles
  import opened HistoricalModel
  import opened MonteCarloModel

  datatype RiskMethod = ParametricMethod | HistoricalMethod | MonteCarloMethod

  /** The three method names the web form offers. */
  function MethodName(k: RiskMethod): string {
    match k
    case ParametricMethod => "Parametric VaR/ES"
    case HistoricalMethod => "Historical VaR/ES"
    case MonteCarloMethod => "Monte Carlo VaR/ES"
  }

  /** The `if/elif` chain of app.py:142-151: a method name is recognised
      exactly when it is one of the three names. */
  function ParseMethod(name: string): (r: Option<RiskMethod>)
    ensures r.Some? ==> MethodName(r.value) == name
    ensures r.None? ==> forall k :: MethodName(k) != name
  {
    if name == "Parametric VaR/ES" then Some(ParametricMethod)
    else if name == "Historical VaR/ES" then Some(HistoricalMethod)
    else if name == "Monte Carlo VaR/ES" then Some(MonteCarloMethod)
    else None
  }

  lemma ParseMethodName(k: RiskMethod)
    ensures ParseMethod(MethodName(k)) == Some(k)
  {
  }

  /** The failures of the entry point: `sys.exit('Error!')` on an unknown
      method name (app.py:151), pandas' refusal of a table whose columns are
      shorter than its date index (app.py:153), and the missing last date of
      an empty table that names the CSV file (app.py:154-155). */
  datatype Error = UnknownMethod | ShortHistory | EmptyDisplay

  datatype Result<T> = Ok(value: T) | Err(error: Error)

  /** What `plot_risk` charts: the VaR and ES series trimmed to the display
      length, and the back-test pair of VaR estimates and realized losses. */
  datatype Report = Report(
    valueAtRisk: seq<real>,
    expectedShortfall: seq<real>,
    testVaR: seq<real>,
    testLoss: seq<real>)

  /** A Python slice bound: a negative bound counts from the end, and the
      result is clipped to [0, len]. */
  function SliceBound(i: int, len: nat): (r: nat)
    ensures r <= len
    ensures 0 <= i <= len ==> r == i
    ensures i < 0 && 0 <= len + i ==> r == len + i
    ensures len + i < 0 ==> r == 0
  {
    if i < 0 then (if len + i < 0 then 0 else len + i)
    else if len < i then len
    else i
  }

  /** Python's `s[start:stop]`. */
  function Slice(s: seq<real>, start: int, stop: int): (r: seq<real>)
    ensures var a, b := SliceBound(start, |s|), SliceBound(stop, |s|);
      |r| == (if a <= b then b - a else 0) &&
      forall i {:trigger r[i]} :: 0 <= i < |r| ==> r[i] == s[a + i]
  {
    var a, b := SliceBound(start, |s|), SliceBound(stop, |s|);
    if a <= b then s[a..b] else []
  }

  /** `int(horizon * 252)`: the horizon in trading days. */
  function HorizonDays(horizon: real): (d: int)
    ensures 0.0 <= horizon ==> 0 <= d && d as real <= horizon * 252.0 < d as real + 1.0
  {
    Truncate(horizon * TradingDays)
  }

  /** `loss = v0 - (price[:N - hd] / price[hd:]) * v0`: the loss of
      v0 over the hd days ending at each date (position by position). */
  function Losses(v0: real, prices: seq<real>, hd: nat): (r: seq<real>)
    requires hd <= |prices| && Positive(prices)
    ensures |r| == |prices| - hd
    ensures forall j {:trigger r[j]} :: 0 <= j < |r| ==> r[j] == v0 - (prices[j] / prices[j + hd]) * v0
  {
    seq(|prices| - hd, j requires 0 <= j < |prices| - hd => v0 - (prices[j] / prices[j + hd]) * v0)
  }

  /** Lines 152 and 165-168: the display length is the shortest of the two
      series and the requested length, and the back-test pairs
      `VaR[hd:length_loss]` with `loss[:length_loss - hd]`. */
  function Assemble(valueAtRisk: seq<real>, expectedShortfall: seq<real>, loss: seq<real>, plotLength: nat, hd: nat): (r: Report)
    ensures r.valueAtRisk <= valueAtRisk && r.expectedShortfall <= expectedShortfall
    ensures |r.valueAtRisk| == |r.expectedShortfall| <= plotLength
    ensures r.testLoss <= loss && |r.testVaR| <= |valueAtRisk| && |r.testVaR| <= plotLength
  {
    var length := Min(|valueAtRisk|, Min(|expectedShortfall|, plotLength));
    var lengthLoss := Min(|loss|, Min(|valueAtRisk|, plotLength));
    Report(valueAtRisk[..length], expectedShortfall[..length],
           Slice(valueAtRisk, hd, lengthLoss), Slice(loss, 0, lengthLoss - hd))
  }

  /** The displayed series are the first min(len VaR, len ES, plot_length)
      estimates of each series. */
  lemma AssembleDisplayLength(valueAtRisk: seq<real>, expectedShortfall: seq<real>, loss: seq<real>, plotLength: nat, hd: nat)
    ensures var r := Assemble(valueAtRisk, expectedShortfall, loss, plotLength, hd);
      var length := Min(|valueAtRisk|, Min(|expectedShortfall|, plotLength));
      |r.valueAtRisk| == |r.expectedShortfall| == length &&
      length <= plotLength && length <= |valueAtRisk| && length <= |expectedShortfall| &&
      (length == plotLength || length == |valueAtRisk| || length == |expectedShortfall|) &&
      r.valueAtRisk <= valueAtRisk && r.expectedShortfall <= expectedShortfall
  {
  }

  /** Line 153 tabulates the two trimmed series against the first
      plot_length dates, `price.index[:plot_length]`, of which there are
      `dates`; pandas accepts the table only when each series has one entry
      per date, and line 155 then needs a last date. */
  function Tabulate(a: Report, dates: nat): (r: Result<Report>)
    ensures r.Ok? <==> |a.valueAtRisk| == dates && |a.expectedShortfall| == dates && 0 < dates
    ensures r.Ok? ==> r.value == a
    ensures r == Err(ShortHistory) <==> |a.valueAtRisk| != dates || |a.expectedShortfall| != dates
    ensures r == Err(EmptyDisplay) ==> dates == 0
  {
    if |a.valueAtRisk| != dates || |a.expectedShortfall| != dates then Err(ShortHistory)
    else if dates == 0 then Err(EmptyDisplay)
    else Ok(a)
  }

  /** When the horizon fits in the back-test length, the two back-test
      series both have length_loss - hd entries and entry i pairs the VaR
      estimate at position hd + i with the loss realized at position i. */
  lemma BacktestAligned(valueAtRisk: seq<real>, expectedShortfall: seq<real>, loss: seq<real>, plotLength: nat, hd: nat)
    requires hd <= Min(|loss|, Min(|valueAtRisk|, plotLength))
    ensures var r := Assemble(valueAtRisk, expectedShortfall, loss, plotLength, hd);
      var lengthLoss := Min(|loss|, Min(|valueAtRisk|, plotLength));
      |r.testVaR| == |r.testLoss| == lengthLoss - hd &&
      forall i :: 0 <= i < lengthLoss - hd ==> r.testVaR[i] == valueAtRisk[hd + i] && r.testLoss[i] == loss[i]
  {
    var lengthLoss := Min(|loss|, Min(|valueAtRisk|, plotLength));
    assert SliceBound(hd, |valueAtRisk|) == hd;
    assert SliceBound(lengthLoss, |valueAtRisk|) == lengthLoss;
    assert SliceBound(lengthLoss - hd, |loss|) == lengthLoss - hd;
  }

  /** The back-test series have equal lengths exactly when the horizon fits
      in the back-test length or the negative stop `length_loss - hd`
      empties the loss slice too. */
  lemma BacktestLengthsAgree(valueAtRisk: seq<real>, expectedShortfall: seq<real>, loss: seq<real>, plotLength: nat, hd: nat)
    ensures var r := Assemble(valueAtRisk, expectedShortfall, loss, plotLength, hd);
      var lengthLoss := Min(|loss|, Min(|valueAtRisk|, plotLength));
      |r.testVaR| == |r.testLoss| <==> hd <= lengthLoss || |loss| + lengthLoss <= hd
  {
    var lengthLoss := Min(|loss|, Min(|valueAtRisk|, plotLength));
    if hd <= lengthLoss {
      BacktestAligned(valueAtRisk, expectedShortfall, loss, plotLength, hd);
    }
  }

  /** What the entry point requires of its inputs for the chosen method:
      a window that leaves at least one return (and, for the historical
      model, the five-day horizon its scenario matrix is written for), and
      for the simulation one column of 5000 draws per anchor date. */
  ghost predicate Admissible(m: Math, k: RiskMethod, prices: seq<real>, window: nat, horizon: real, draws: seq<seq<real>>) {
    match k
    case ParametricMethod =>
      IsSqrt(m.sqrt) && 1 <= window * 252 <= |prices| - 1
    case HistoricalMethod =>
      HorizonDays(horizon) == 5 < window * 252 <= |prices|
    case MonteCarloMethod =>
      IsSqrt(m.sqrt) && 1 <= window * 252 <= |prices| - 1 &&
      |draws| == |prices| - window * 252 && Shaped(draws, Paths)
  }

  /** The VaR and ES series of the chosen method
      (app.py:142-149). */
  function Risk(m: Math, k: RiskMethod, v0: real, prices: seq<real>, varProb: real, esProb: real,
                window: nat, horizon: real, draws: seq<seq<real>>): (r: (seq<real>, seq<real>))
    requires Positive(prices) && 0.0 < varProb < 1.0 && 0.0 < esProb < 1.0
    requires Admissible(m, k, prices, window, horizon, draws)
    ensures |r.0| == |r.1| == |prices| - window * 252
  {
    match k
    case ParametricMethod =>
      var e := GbmEst(m, prices, window * 252);
      Parametric(m, v0, e.mu, e.sigma, varProb, esProb, horizon)
    case HistoricalMethod =>
      HistoricalRisk(v0, prices, varProb, esProb, window * 252, HorizonDays(horizon))
    case MonteCarloMethod =>
      var e := GbmEst(m, prices, window * 252);
      MonteCarloRisk(m, v0, e.mu, e.sigma, varProb, esProb, horizon, draws)
  }

  /** Each method yields one estimate per anchor date, N - window * 252
      of them, so the display length is min(N - window * 252, plot_length). */
  lemma RiskDisplayLength(m: Math, k: RiskMethod, v0: real, prices: seq<real>, varProb: real, esProb: real,
                          window: nat, horizon: real, draws: seq<seq<real>>, plotLength: nat, hd: nat)
    requires Positive(prices) && 0.0 < varProb < 1.0 && 0.0 < esProb < 1.0
    requires Admissible(m, k, prices, window, horizon, draws)
    requires hd <= |prices|
    ensures var s := Risk(m, k, v0, prices, varProb, esProb, window, horizon, draws);
      var r := Assemble(s.0, s.1, Losses(v0, prices, hd), plotLength, hd);
      |r.valueAtRisk| == |r.expectedShortfall| == Min(|prices| - window * 252, plotLength)
  {
    var s := Risk(m, k, v0, prices, varProb, esProb, window, horizon, draws);
    AssembleDisplayLength(s.0, s.1, Losses(v0, prices, hd), plotLength, hd);
  }

  /** Every method needs a window of at least one day that fits in the
      price history. */
  lemma AdmissibleWindow(m: Math, k: RiskMethod, prices: seq<real>, window: nat, horizon: real, draws: seq<seq<real>>)
    requires Admissible(m, k, prices, window, horizon, draws)
    ensures 1 <= window * 252 <= |prices|
  {
  }

  /** Since every method yields N - window * 252 < N estimates, the table
      of line 153 is refused exactly when the history leaves fewer
      estimates than plot_length, it is empty exactly when plot_length is
      0, and otherwise the report is the trimmed series. */
  lemma TabulateOutcome(m: Math, k: RiskMethod, v0: real, prices: seq<real>, varProb: real, esProb: real,
                        window: nat, horizon: real, draws: seq<seq<real>>, plotLength: nat, hd: nat)
    requires Positive(prices) && 0.0 < varProb < 1.0 && 0.0 < esProb < 1.0
    requires Admissible(m, k, prices, window, horizon, draws)
    requires hd <= |prices|
    ensures var s := Risk(m, k, v0, prices, varProb, esProb, window, horizon, draws);
      var t := Tabulate(Assemble(s.0, s.1, Losses(v0, prices, hd), plotLength, hd), Min(|prices|, plotLength));
      (t == Err(ShortHistory) <==> |prices| - window * 252 < plotLength) &&
      (t == Err(EmptyDisplay) <==> plotLength == 0) &&
      (t.Ok? <==> 1 <= plotLength <= |prices| - window * 252)
  {
    AdmissibleWindow(m, k, prices, window, horizon, draws);
    RiskDisplayLength(m, k, v0, prices, varProb, esProb, window, horizon, draws, plotLength, hd);
  }

  /** For the two simulation-style methods, every displayed ES is at least
      the displayed VaR of the same date when the probabilities agree. */
  lemma ReportESAtLeastVaR(m: Math, k: RiskMethod, v0: real, prices: seq<real>, p: real,
                           window: nat, horizon: real, draws: seq<seq<real>>, plotLength: nat, hd: nat)
    requires k == HistoricalMethod || k == MonteCarloMethod
    requires Positive(prices) && 0.0 < p < 1.0
    requires Admissible(m, k, prices, window, horizon, draws)
    requires hd <= |prices|
    ensures var s := Risk(m, k, v0, prices, p, p, window, horizon, draws);
      var r := Assemble(s.0, s.1, Losses(v0, prices, hd), plotLength, hd);
      forall i :: 0 <= i < |r.valueAtRisk| ==> r.valueAtRisk[i] <= r.expectedShortfall[i]
  {
    var s := Risk(m, k, v0, prices, p, p, window, horizon, draws);
    RiskESAtLeastVaR(m, k, v0, prices, p, window, horizon, draws);
    AssembleDisplayLength(s.0, s.1, Losses(v0, prices, hd), plotLength, hd);
  }

  /** The same for the full series, before trimming for display. */
  lemma RiskESAtLeastVaR(m: Math, k: RiskMethod, v0: real, prices: seq<real>, p: real,
                         window: nat, horizon: real, draws: seq<seq<real>>)
    requires k == HistoricalMethod || k == MonteCarloMethod
    requires Positive(prices) && 0.0 < p < 1.0
    requires Admissible(m, k, prices, window, horizon, draws)
    ensures var s := Risk(m, k, v0, prices, p, p, window, horizon, draws);
      forall i :: 0 <= i < |s.0| ==> s.0[i] <= s.1[i]
  {
    if k == HistoricalMethod {
      var w, h := window * 252, HorizonDays(horizon);
      ColumnESAtLeastVaR(v0, HistoricalScenarios(v0, prices, w, h), w - h, p);
    } else {
      var e := GbmEst(m, prices, window * 252);
      ColumnESAtLeastVaR(v0, MonteCarloScenarios(m, v0, e.mu, e.sigma, horizon, draws), Paths, p);
    }
  }

  /** `plot_risk(v0, price, VaR_prob, ES_prob, method, window, horizon,
      plot_length)`, with the simulation's draws passed in: an unknown method
      name, a history too short for plot_length estimates, or a zero
      plot_length fails; otherwise the report of the chosen method. */
  method PlotRisk(m: Math, v0: real, prices: seq<real>, varProb: real, esProb: real, name: string,
                  window: nat, horizon: real, plotLength: nat, draws: seq<seq<real>>)
    returns (r: Result<Report>)
    requires Positive(prices) && 0.0 < varProb < 1.0 && 0.0 < esProb < 1.0
    requires 0.0 <= horizon && HorizonDays(horizon) <= |prices|
    requires ParseMethod(name).Some? ==> Admissible(m, ParseMethod(name).value, prices, window, horizon, draws)
    ensures r == Err(UnknownMethod) <==> ParseMethod(name).None?
    ensures r == Err(ShortHistory) <==> ParseMethod(name).Some? && |prices| - window * 252 < plotLength
    ensures r == Err(EmptyDisplay) <==> ParseMethod(name).Some? && plotLength == 0
    ensures r.Ok? ==>
      var series := Risk(m, ParseMethod(name).value, v0, prices, varProb, esProb, window, horizon, draws);
      r.value == Assemble(series.0, series.1, Losses(v0, prices, HorizonDays(horizon)), plotLength, HorizonDays(horizon))
  {
    var valueAtRisk, expectedShortfall;
    var windowDays, hd := window * 252, HorizonDays(horizon);
    if name == "Parametric VaR/ES" {
      var e := GbmEst(m, prices, windowDays);
      var series := Parametric(m, v0, e.mu, e.sigma, varProb, esProb, horizon);
      valueAtRisk, expectedShortfall := series.0, series.1;
    } else if name == "Historical VaR/ES" {
      valueAtRisk, expectedShortfall := Historical(v0, prices, varProb, esProb, windowDays, hd);
    } else if name == "Monte Carlo VaR/ES" {
      var e := GbmEst(m, prices, windowDays);
      valueAtRisk, expectedShortfall := MonteCarlo(m, v0, prices, e.mu, e.sigma, varProb, esProb, windowDays, horizon, draws);
    } else {
      return Err(UnknownMethod);
    }
    var loss := Losses(v0, prices, hd);
    TabulateOutcome(m, ParseMethod(name).value, v0, prices, varProb, esProb, window, horizon, draws, plotLength, hd);
    r := Tabulate(Assemble(valueAtRisk, expectedShortfall, loss, plotLength, hd), Min(|prices|, plotLength));
  }
}
