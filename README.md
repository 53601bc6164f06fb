# Risk engine of risk-mgmt-eevee, modelled in Dafny

The repository is a small Flask application that estimates the market risk
of a stock, a portfolio or a stock-plus-put hedge. Its numerical core, in
`app.py`, is modelled here: the rolling estimation of Geometric Brownian
Motion drift and volatility (`gbm_est`), the three VaR/ES estimators
(`parametric`, `historical` and `monte_carlo`), the entry point that picks
one by name and lines its output up for display and back-testing
(`plot_risk`), the position sizing of the option hedge (`options_cal`), and
the parsing of the comma-separated ticker field.

Numbers are exact `real`s. The library functions the code calls (numpy's
`log`, `exp` and `sqrt`, scipy's normal CDF and quantile function) are
fields of a `Math` value passed to every operation that uses them. What a
proof needs of them is stated as a requirement: `sqrt` is the square root of
non-negative reals, `exp` and the quantile function are monotone, and the
CDF undoes the quantile function. The Monte-Carlo draws
(`np.random.randn`) are an input matrix.

Modules, one per component:

- `Numerics`: the `Math` record, sums and means, `ceil`, and `int()` truncation.
- `Sorting`: `np.sort(m, axis=0)` as an insertion sort of each column, specified by a functional sorted copy.
- `Quantiles`: the VaR rank, the ES tail, and the read-off shared by the two scenario models.
- `GbmEstimator`: `gbm_est`.
- `ParametricModel`: `parametric`.
- `HistoricalModel`: `historical`.
- `MonteCarloModel`: `monte_carlo`.
- `RiskFacade`: `plot_risk`'s dispatch and slicing.
- `OptionHedge`: `options_cal`'s arithmetic.
- `Tickers`: the ticker-string split.

The scenario models are imperative, as in the source. Each allocates a
zeroed `array2` and fills it column by column in a loop. It then sorts
every column into a fresh matrix and reads off one VaR and one ES per
anchor date. The rest is functions and lemmas.

Observations about the code that the model keeps as written:

- **Estimate order.** After `reversed(...)`, entry 0 of `gbm_est`'s output is the estimate over the OLDEST window of returns, while column 0 of the historical matrix is anchored at the most recent date. The reversal might be read as putting the most recent estimate first; it does the opposite, and the model follows what the code computes (`GbmEstimator.GbmEst`, `OptionHedge.OptionsUseOldestWindow`). So `options_cal` prices with the oldest estimate, and `plot_risk` charts the parametric and Monte-Carlo series in the opposite date order to the historical series.
- **Monte-Carlo drift sign.** The terminal value of `monte_carlo` is `v0 * exp(sigma * bm - (mu + sigma^2/2) * horizon)`; the closed-form VaR grows with `exp((mu - sigma^2/2) * t)`.
  - At zero volatility the simulation therefore loses `v0 - v0 * exp(-mu * horizon)` (`MonteCarloModel.MonteCarloZeroVolatility`).
  - The closed form loses `v0 - v0 * exp(mu * t)` (`ParametricModel.ParametricZeroVolatility`).
  - The historical model on a series of constant growth `g` loses `v0 - v0 * g` (`HistoricalModel.HistoricalConstantGrowth`).

## Model

| member | source | states |
|---|---|---|
| Numerics.Ceil | app.py:121 | `np.ceil(x).astype(int)` is the least integer not below x |
| Numerics.Truncate | app.py:146 | `int(x)` of a non-negative x is its floor and is non-negative |
| Sorting.SortedCopy | app.py:120 | the functional specification of one column's sort: ascending, same multiset, same length |
| Sorting.SortedUnique | app.py:120 | two ascending sequences with the same elements are equal, so the sorted column is determined by the column |
| Sorting.SortAscending | app.py:120 | the in-place sort of one column leaves it ascending and a permutation of what it held |
| Sorting.SortedColumn | app.py:120 | sorting a copy of column j yields exactly the sorted copy of column j |
| Sorting.StoreColumn | app.py:119 | the column assignment `m[:, j] = c` sets column j to c and leaves every other entry unchanged |
| Sorting.SortColumns | app.py:120 | `np.sort(m, axis=0)` returns a fresh matrix of the same shape whose column j is the ascending rearrangement of column j of m |
| Quantiles.TailCount | app.py:122 | for 0 < p < 1 and n >= 1 the ES tail `ceil((1-p)*n)` has between 1 and n entries |
| Quantiles.Rank | app.py:121 | the VaR row `ceil((1-p)*n) - 1` is a valid index 0..n-1 |
| Quantiles.TailCountAntitone | app.py:121-122 | a higher probability never selects a larger tail or a higher rank |
| Quantiles.VaRMonotone | app.py:121 | on a sorted column VaR is non-decreasing in the VaR probability |
| Quantiles.ESAtLeastVaR | app.py:121-122 | on a sorted column ES is at least VaR at the same probability |
| Quantiles.PrefixMeanMonotone | app.py:122 | means of longer prefixes of a sorted column are not smaller |
| Quantiles.ESMonotone | app.py:122 | on a sorted column ES is non-decreasing in the ES probability |
| Quantiles.NoMovementNoRisk | app.py:121-122 | a column whose every scenario is v0 has VaR = ES = 0 |
| Quantiles.ColumnVaRs | app.py:121 | the VaR row has one entry per column, v0 minus the sorted column at the rank |
| Quantiles.ColumnESs | app.py:122 | the ES row has one entry per column, v0 minus the mean of the sorted tail |
| Quantiles.ColumnESAtLeastVaR | app.py:136-137 | in every column of a scenario matrix ES >= VaR when the probabilities agree |
| Quantiles.ColumnRiskMonotone | app.py:136-137 | every column's VaR and ES are non-decreasing in their probabilities |
| Quantiles.ColumnRiskConstant | app.py:121-122 | a column holding a single value c has VaR = ES = v0 - c |
| Quantiles.SortAndReadOff | app.py:120-122 | sorting the matrix and reading the rank row and the tail means gives exactly the column VaR and ES rows |
| GbmEstimator.LogReturns | app.py:63 | `-np.diff(np.log(p))` has N-1 entries, entry i being ln p[i] - ln p[i+1] |
| GbmEstimator.MovingAverage | app.py:65 | `np.convolve(x, ones(w)/w, 'valid')` has len-w+1 entries, entry j the mean of x[j..j+w) |
| GbmEstimator.Mubar | app.py:65 | `mubar` has N-W entries; entry k is the mean of rtn[N-1-W-k .. N-1-k), entry 0 the oldest window |
| GbmEstimator.X2bar | app.py:66 | `x2bar` has N-W entries; entry k is the mean of the squared returns over the same window as mubar[k] |
| GbmEstimator.GbmEst | app.py:62-71 | the five outputs: rtn of length N-1, the other four of length N-W, each mubar[k] the mean of its window, sigmabar >= 0, and sigma, mu the annualisations of sigmabar, mubar |
| GbmEstimator.LogReturnsTelescope | app.py:63 | the log returns over [a, b) sum to ln p[a] - ln p[b] |
| GbmEstimator.WindowMean | app.py:63-65 | the mean log return over a window of w days is the log growth over the window divided by w |
| GbmEstimator.SquareSumBound | app.py:67 | n times the sum of squares is at least the square of the sum |
| GbmEstimator.VarianceNonNegative | app.py:67 | over exact reals mean-of-squares minus square-of-mean is never negative |
| GbmEstimator.SigmabarIsClampedStdDev | app.py:67-68 | sigmabar[k] >= 0 and its square is max(variance of window k, 0) |
| GbmEstimator.ClampNeverBinds | app.py:67-68 | over exact reals the clamped standard deviation computed from a window's two moments squares to the window's variance itself |
| GbmEstimator.AnnualisationInvertible | app.py:69-70 | sigma >= 0, sigma^2 = 252 sigmabar^2, and mubar = (mu - sigma^2/2)/252 |
| ParametricModel.ParametricVaR | app.py:106 | for a positive-valued exp, the VaR stays below the capital v0 exactly when v0 is positive, since the terminal value's quantile is positive |
| ParametricModel.ParametricES | app.py:107 | for a positive-valued exp, a CDF valued in [0, 1], ES_prob < 1 and v0 >= 0, the ES never exceeds the capital v0 |
| ParametricModel.Parametric | app.py:105-108 | one VaR and one ES per (mu, sigma) pair, each the closed-form value of that pair |
| ParametricModel.ParametricVaRMonotone | app.py:106 | for sigma, t, v0 >= 0 the closed-form VaR is non-decreasing in the VaR probability |
| ParametricModel.ParametricZeroVolatility | app.py:106-107 | at sigma = 0 VaR and ES both equal v0 - v0 exp(mu t) |
| HistoricalModel.HorizonValues | app.py:114-116 | `price_res` has N-5 entries, entry j being v0 p[j] / p[j+5] |
| HistoricalModel.HistoricalScenarios | app.py:117-119 | the matrix has N-W columns of W-h scenarios; column i is price_res[i .. i+W-h), every index read is at most N-h-2 |
| HistoricalModel.Historical | app.py:111-123 | the method returns N-W VaRs and ESs, equal to the sorted read-off of the scenario columns, with ES >= VaR when the probabilities agree |
| HistoricalModel.HistoricalConstantGrowth | app.py:115-122 | a series whose every five-day growth is g has VaR = ES = v0 - v0 g at every anchor |
| MonteCarloModel.TerminalValue | app.py:131-133 | for a positive-valued exp, a simulated terminal value is positive exactly when the capital v0 is |
| MonteCarloModel.MonteCarloScenarios | app.py:129-134 | the matrix has one column per trial, 5000 terminal values each, entry (k, i) the terminal value of draw k under (mu[i], sigma[i]) |
| MonteCarloModel.MonteCarlo | app.py:126-138 | the method returns N-W VaRs and ESs equal to the sorted read-off of the simulated columns, with ES >= VaR when the probabilities agree |
| MonteCarloModel.ZeroVolatilityValue | app.py:133 | with sigma = 0 the terminal value is v0 exp(-mu horizon) whatever the draw |
| MonteCarloModel.MonteCarloZeroVolatility | app.py:133-137 | with zero volatility VaR = ES = v0 - v0 exp(-mu[i] horizon) in every column |
| RiskFacade.ParseMethod | app.py:142-151 | a name is recognised exactly when it is one of the three method names, and then as that method |
| RiskFacade.ParseMethodName | app.py:142-147 | each method's own name is parsed back to that method |
| RiskFacade.SliceBound | app.py:168 | a Python slice bound is clipped to [0, len], a negative one counting from the end |
| RiskFacade.HorizonDays | app.py:146 | for a non-negative horizon in years, `int(horizon*252)` is the whole number of trading days d with d <= 252·horizon < d + 1 |
| RiskFacade.Slice | app.py:168 | Python's `s[a:b]` has max(b'-a', 0) entries taken from s from a' on, with a', b' the normalised bounds |
| RiskFacade.Losses | app.py:165-166 | the loss series has N-hd entries, entry j being v0 - (p[j]/p[j+hd]) v0 |
| RiskFacade.Assemble | app.py:152-168 | the displayed VaR and ES series are equal-length prefixes of the full series, no longer than plot_length; the back-test losses are a prefix of the loss series, and the back-test VaR series is no longer than the VaR series or plot_length |
| RiskFacade.AssembleDisplayLength | app.py:152 | the displayed series are prefixes of VaR and ES of length min(len VaR, len ES, plot_length) |
| RiskFacade.BacktestAligned | app.py:165-168 | when hd <= length_loss both back-test series have length_loss - hd entries, pairing VaR[hd+i] with loss[i] |
| RiskFacade.BacktestLengthsAgree | app.py:167-168 | the two back-test series have equal lengths exactly when hd <= length_loss or the negative stop empties the loss slice |
| RiskFacade.Risk | app.py:142-149 | every method yields N - 252 window estimates of VaR and of ES |
| RiskFacade.RiskDisplayLength | app.py:152 | the displayed length is min(N - 252 window, plot_length) for every method |
| RiskFacade.RiskESAtLeastVaR | app.py:142-149 | for the historical and Monte-Carlo methods every ES estimate is at least the VaR estimate of the same date when the probabilities agree |
| RiskFacade.ReportESAtLeastVaR | app.py:152 | for the historical and Monte-Carlo methods every displayed ES is at least the displayed VaR when the probabilities agree |
| RiskFacade.Tabulate | app.py:153-155 | the table of the trimmed series is accepted exactly when each series has one entry per displayed date and there is at least one date |
| RiskFacade.TabulateOutcome | app.py:152-155 | for every method the table is refused exactly when N - 252·window < plot_length, is empty exactly when plot_length is 0, and is accepted exactly when 1 <= plot_length <= N - 252·window |
| RiskFacade.PlotRisk | app.py:141-168 | fails with UnknownMethod exactly for an unknown name, with ShortHistory exactly when the history leaves fewer than plot_length estimates, with EmptyDisplay exactly when plot_length is 0; otherwise the report is the chosen method's series assembled for display and back-test |
| OptionHedge.Size | app.py:217-219 | nstocks s0 = v0 (1 - liq_rate) and nputs put0 = v0 liq_rate |
| OptionHedge.SpendsCapital | app.py:217-219 | the shares and puts together cost exactly v0 |
| OptionHedge.SizingNonNegative | app.py:217-219 | for v0 >= 0 and liq_rate in [0, 1] both position sizes are non-negative |
| OptionHedge.Reduction | app.py:221 | the reduction is undefined exactly when the unhedged VaR is 0, and otherwise recovers the hedged VaR as VaR_1 (1 - reduction/100) |
| OptionHedge.ReductionSign | app.py:221 | for a positive unhedged VaR the reduction is positive iff the hedge lowers VaR, zero iff it leaves it unchanged |
| OptionHedge.UnhedgedVaR | app.py:211-214 | `VaR_1` is the parametric VaR at the first rolling estimate, so for a positive-valued exp it stays below v0 exactly when v0 is positive |
| OptionHedge.OptionsCal | app.py:210-221 | the spot is the first price, the unhedged VaR the parametric VaR of the first estimate, the positions those of `Size` and the reduction that of `Reduction` |
| OptionHedge.OptionsUseOldestWindow | app.py:211-212 | mubar[0], the entry `options_cal` uses, is the mean of the oldest window of returns, rtn[N-1-W .. N-1) |
| Tickers.RemoveSpaces | app.py:27 | the result has no space and every other character as often as the input |
| Tickers.RemoveSpacesAppend | app.py:27 | dropping spaces from a concatenation drops them from each part, so the kept characters keep their order |
| Tickers.RemoveSpacesChar | app.py:27 | a single space becomes the empty string and any other single character is kept |
| Tickers.RemoveSpacesIdempotent | app.py:27 | dropping spaces twice is dropping them once |
| Tickers.Split | app.py:27 | `split(",")` yields at least one piece and no piece contains a comma |
| Tickers.SplitCount | app.py:27 | there is one more piece than there are commas |
| Tickers.JoinSplit | app.py:27 | joining the pieces with commas gives back the string |
| Tickers.SplitJoin | app.py:27 | splitting a comma-join of comma-free pieces gives back the pieces |
| Tickers.TickerList | app.py:38 | the ticker list has one more entry than the field has commas, no entry contains a comma or a space, and joining it gives the field without spaces |

## Left out

- The Flask routes and form handling (app.py:235-513), `render_template` and `send_file`: web plumbing. Form values reach the model as already-converted arguments (`window` a whole number of years, `horizon` in years, `plot_length` a count).
- Market-data retrieval and the DataFrame built around it (`create_df_from_tickers`, app.py:26-34, apart from the ticker split at line 27): the prices are an input series, most recent first, and `plot_length` is an input.
- The portfolio construction of `create_df_from_tickers_port` (app.py:39-48): weight parsing, share rounding and the matrix product over fetched data. Only its ticker split (app.py:38) is modelled.
- `plot_price` and `plot_parameters` (app.py:50-102): Bokeh charts and CSV files.
- The chart and CSV parts of `plot_risk` (app.py:153-164 and 169-179). Of the DataFrame at line 153 only its length check and the last date that names the CSV file are modelled (`RiskFacade.Tabulate`). `RiskFacade.Report` holds the sliced series themselves.
- RiskFacade.Losses: the division `price[:N-hd] / price[hd:]` is modelled position by position; label-based alignment of the two pandas slices is not modelled.
- RiskFacade.PlotRisk: the back-test table of line 168 is modelled as the two position-based slices that `RiskFacade.BacktestAligned` pairs. In the source, `loss` is a pandas Series, and pandas places it in the table by its date labels rather than by position. So the Loss column charted is not paired with `VaR[hd+i]` the way the model pairs it.
- RiskFacade.PlotRisk: the horizon is required to satisfy `0 <= horizon` and `int(horizon*252) <= N`. Outside that range the two slices divided at line 165 have unequal lengths, and what numpy and pandas then do is not modelled.
- Quantiles.TailCount: `(1-p)*n` is computed over exact reals. In IEEE doubles the product can land just above an integer: (1-0.99)·5000 = 50.00000000000004, (1-0.975)·5000 = 125.00000000000011 and (1-0.95)·5000 = 250.00000000000023. `np.ceil` then gives 51, 126 and 251. So at 5000 Monte-Carlo paths with the form's default probabilities 0.99 and 0.975, the source reads row 50 and averages 126 values, where the model reads row 49 (`Quantiles.Rank`) and averages 125.
- `bs_put` (app.py:182-190), the Black-Scholes put price: the put price is an input of `OptionsCal`.
- The strike `options[0]` of `options_cal` (app.py:216) is not modelled: it only reaches `bs_put` and `option_mc`, whose results are inputs of `OptionsCal`.
- `option_mc` (app.py:194-207), the 1,000,000-path hedge simulation with `np.percentile`'s interpolation: the hedged VaR is an input of `OptionsCal`.
- The ES at 0.975 that `options_cal` computes at line 214 but never returns.
- Random sampling (`np.random.randn`, app.py:132): the standard-normal draws are the `draws` argument of `MonteCarlo`.
- Floating-point behaviour: the model computes over exact reals. The clamp at app.py:68 exists for floating-point cancellation, which cannot arise here (`ClampNeverBinds`). Likewise `int(horizon*252)` is exact here, so a float product just below an integer is not modelled.
- The transcendental functions are parameters. Only the laws named in the requirements are assumed of them.
- HistoricalModel.HorizonValues: `v0 * exp(log p[j] - log p[j+5])` is modelled as `v0 * p[j] / p[j+5]`, its value over exact reals.
- Inputs outside the source's working range are excluded by requirements rather than modelled. This covers:
  - probabilities outside (0, 1), where the rank can become -1 and Python reads the last row;
  - `window_days > N-1` in `gbm_est`, where `np.convolve` swaps its operands;
  - `window = 0` for the parametric and Monte-Carlo methods and in `options_cal`: `gbm_est(price, 0)` builds the empty kernel `np.ones((0,))/0`, and `np.convolve` raises ValueError. An `int(window_year)` of 0 from the form reaches this error, which the model does not have;
  - `horizon_days != 5` in `historical`, whose line 115 hard-codes 5;
  - `window_days <= horizon_days` or `window_days > N` there.
- `sys.exit('Error!')` on an unknown method is modelled as the recoverable `Err(UnknownMethod)`; pandas' ValueError at line 153 and the IndexError at line 155 are modelled as `Err(ShortHistory)` and `Err(EmptyDisplay)`.
