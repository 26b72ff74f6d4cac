# Pairs trading strategy engine, modelled in Dafny

This project models the strategy engine of `basic_coint.py`, the class
`PairsTradingStrategy`. For one pair of instruments the engine:

- masks out the dates on which either leg has no price;
- screens the pair on sample size, correlation and cointegration;
- estimates a hedge ratio and forms the spread `y - beta * x`;
- normalises the spread into a rolling z-score over a trailing window;
- runs a three-state hysteresis machine (flat, long, short) over the z-scores;
- turns the signals into daily strategy returns net of transaction costs, and into leg positions and exposures;
- summarises the returns into metrics;
- assembles a `PairTradingResult`, or rejects the pair.

Modules, one file each:

- `Numbers` (`numbers.dfy`): IEEE-style values `Float = NaN | NegInf | PosInf | Fin(real)`. It also holds the comparisons, which are false on NaN, and division, which gives 0/0 = NaN and x/0 = ±inf. Addition, subtraction and multiplication propagate NaN and infinity as numpy does. Sums and means are here too.
- `Cleaning` (`cleaning.dfy`): `prepare_pair_data`. A missing price is `None`.
- `Hedge` (`hedge.dfy`): `calculate_hedge_ratio` and the spread.
- `ZScore` (`zscore.dfy`): `calculate_zscore`, as a method with a loop over the windows.
- `Signals` (`signals.dfy`): `generate_signals`, as a method with the position counter. Also the trade count of `execute_pair_trade`.
- `Accounting` (`accounting.dfy`): `calculate_returns` and `calculate_position_exposures`.
- `Metrics` (`metrics.dfy`): the counting, drawdown and streak parts of `calculate_metrics`.
- `Strategy` (`strategy.dfy`):
  - the parameters and their defaults;
  - `check_pair_validity`;
  - `execute_pair_trade`, as a method with early returns;
  - the result record.

Parts of the system that have no exact counterpart over the reals are parameters of the model:

- the sample standard deviation `sd` (pandas, one degree of freedom), which needs a square root;
- the correlation (`np.corrcoef`), an oracle that returns a `Float` and may be NaN;
- the cointegration test (`statsmodels` `coint`), an oracle that either raises or returns a p-value.

Dates are of a type chosen by the caller.

Where the code and its design description disagree, the model follows the code:

- **Zero window deviation.** A date whose window has zero deviation gets z-score NaN only when its own spread equals the window mean. Otherwise it gets ±inf (`ZScore.ZScoreSign`), and ±inf does pass the entry thresholds.
- **Losing streak.** The losing streak counts runs of non-positive returns (`Metrics.Losses`), so zero returns extend it rather than break it.
- **NaN correlation.** A NaN correlation is not rejected by `abs(corr) < min_correlation` (`Strategy.CheckPairValidity`).
- **Length mismatch.** The length-mismatch rejection can never fire. The cleaned legs always have equal lengths (`Cleaning.PreparePairData`), so `Strategy.ExecutePairTrade` has no such branch.
- **Hedge ratio of an exact line.** The covariance uses n − 1 and the variance uses n. So a leg that lies exactly on `y = c * x + d` gets hedge ratio `c * n / (n - 1)`, not `c` (`Hedge.HedgeRatioOfExactLine`).

## Model

| member | source | states |
|---|---|---|
| Numbers.Div | basic_coint.py:159 | division as numpy does it: finite exactly when the divisor is non-zero, and then quotient times divisor is the dividend; 0/0 is NaN and a non-zero value over 0 is an infinity of its sign; a positive divisor keeps the sign |
| Numbers.FMul | basic_coint.py:212-215 | a product is finite exactly when both factors are; NaN exactly when a factor is NaN or zero meets an infinity; an infinite product has the product of the signs |
| Numbers.FSub | basic_coint.py:222 | a difference is finite exactly when both operands are; NaN exactly when an operand is NaN or two equal infinities meet |
| Numbers.FAbs | basic_coint.py:334 | `abs` keeps NaN and finiteness and gives a non-negative value equal to the input or its negation |
| Numbers.DropUndefined | basic_coint.py:397 | the result has one value per defined entry, and a fully defined series is kept as it is |
| Numbers.DropUndefinedKeeps | basic_coint.py:397 | every defined entry appears in the result at its rank among defined entries |
| Numbers.DropUndefinedOnlyKeeps | basic_coint.py:397 | every value of the result is a defined entry, at that entry's rank |
| Numbers.DefinedMonotone | basic_coint.py:397 | the filter keeps order: a later defined entry has a strictly later rank |
| Numbers.SeriesMean | basic_coint.py:156 | a mean is defined exactly for a non-empty series, never infinite, and times the length gives the sum |
| Cleaning.PreparePairData | basic_coint.py:141-144 | the cleaned dates and legs have one common length, the number of dates on which both prices are present |
| Cleaning.PreparePairDataKeeps | basic_coint.py:143-144 | every date with both prices appears in the cleaned series at its rank among such dates, with both prices and its date |
| Cleaning.PreparePairDataOnlyKeeps | basic_coint.py:143-144 | every cleaned entry comes from a date with both prices present |
| Cleaning.KeptMonotone | basic_coint.py:143-144 | the masking keeps the original order: a later kept date has a strictly later rank |
| Hedge.HedgeRatio | basic_coint.py:146-148 | the hedge ratio is never infinite, and it is NaN exactly when there are fewer than two samples or the second leg is constant |
| Hedge.Spread | basic_coint.py:373 | the spread plus beta times leg 2 gives back leg 1 on every date |
| Hedge.SpreadSeries | basic_coint.py:372-373 | the spread as numpy computes it with the hedge ratio as a float: NaN on every date when the ratio is NaN, and `Hedge.Spread` on every date when it is finite |
| Hedge.SquaresNonNegative | basic_coint.py:148 | the centred sum of squares of the second leg is never negative |
| Hedge.SquaresZeroMeansFlat | basic_coint.py:148 | a zero centred sum of squares means every value equals the mean |
| Hedge.LineCoDeviation | basic_coint.py:148 | for legs on a line `y = c x + d` the centred cross sum is `c` times the centred square sum |
| Hedge.HedgeRatioOnLine | basic_coint.py:148 | legs on a line `y = c x + d` over n ≥ 2 non-constant samples give hedge ratio `c n / (n - 1)` |
| Hedge.HedgeRatioOfExactLine | basic_coint.py:148 | the same, for legs given point by point as `y[i] = c x[i] + d` |
| ZScore.WindowStd | basic_coint.py:157 | the window deviation is defined exactly for windows of two values or more, and never infinite |
| ZScore.CalculateZScore | basic_coint.py:150-159 | one z-score per spread value; each is the z-score of its trailing window; the first `lookback` are NaN, and all are NaN when the window has fewer than two dates |
| ZScore.DefinedSeriesZScore | basic_coint.py:154-159 | over a spread with no NaN, the z-scores with pandas' NaN-skipping window mean and deviation are those of `CalculateZScore` |
| ZScore.UndefinedSeriesZScore | basic_coint.py:154-159 | an all-NaN spread has a NaN z-score on every date |
| ZScore.ZScoreExcludesCurrent | basic_coint.py:154-159 | the value of a date is not in its own window: changing it changes only the numerator |
| ZScore.ZScoreSign | basic_coint.py:159 | the z-score is positive or negative exactly when the spread is above or below the trailing mean; with zero deviation such a spread gives +inf or -inf |
| ZScore.ConstantSpreadUndefined | basic_coint.py:154-159 | a constant spread has a NaN z-score on every date |
| Signals.Step | basic_coint.py:166-181 | one date of the machine keeps the position in {-1, 0, 1}, never turns long into short or short into long, and holds on a NaN z-score |
| Signals.GenerateSignals | basic_coint.py:161-183 | the emitted series has one entry per z-score, and each entry is the signal the machine writes on that date |
| Signals.PositionInRange | basic_coint.py:164-181 | the position is always -1, 0 or 1 |
| Signals.SignalIsEntry | basic_coint.py:163-181 | a signal is -1, 0 or 1; it is non-zero exactly on a date that starts flat and ends in a position, and then equals that position |
| Signals.NoConsecutiveSignals | basic_coint.py:163-181 | two consecutive dates never both carry a non-zero signal |
| Signals.SignalStepIsUnit | basic_coint.py:163-181 | consecutive signals differ by at most one |
| Signals.FlatBetweenLongAndShort | basic_coint.py:167-181 | between a date ending long and a later date ending short there is a date ending flat |
| Signals.FlatBetweenShortAndLong | basic_coint.py:167-181 | between a date ending short and a later date ending long there is a date ending flat |
| Signals.UndefinedPrefixSilent | basic_coint.py:166-181 | over a prefix of NaN z-scores the machine stays flat and emits only zeros |
| Signals.TradeCount | basic_coint.py:388-390 | the trade count is below the number of dates, or zero |
| Signals.TradeCountZero | basic_coint.py:388-392 | no trade is counted exactly when the signal never changes from one date to the next |
| Signals.SignalsTradeCount | basic_coint.py:388-392 | over two dates or more, the machine's signals count no trade exactly when it never enters a position |
| Accounting.LegWeights | basic_coint.py:201-208 | the weights are defined for every hedge ratio; leg 1 is in (0, 1]; leg 2 is beta times leg 1 with beta's sign; the absolute weights add up to one |
| Accounting.PctChangeAt | basic_coint.py:194-195 | the daily change is NaN on the first date; after it, it is finite exactly when the previous close is non-zero, and then the previous close times one plus the change is the close; over a zero close it is NaN exactly when the close is also zero |
| Accounting.Change | basic_coint.py:198 | the change of signal is zero on the first date, and afterwards the previous signal plus the change is the signal |
| Accounting.TransactionCost | basic_coint.py:217-220 | the cost of a date is the absolute change of signal times the rate, whatever the hedge ratio; it is zero on the first date and on unchanged dates |
| Accounting.StrategyReturn | basic_coint.py:212-222 | a date's return is NaN on the first date and finite when both previous closes are non-zero |
| Accounting.CalculateReturns | basic_coint.py:187-229 | one return per date, NaN on the first date, finite where both previous closes are non-zero |
| Accounting.ReturnUsesPreviousSignal | basic_coint.py:212-222 | with finite leg changes, a return is the previous date's signal times `w1 r1 - w2 r2`, less the absolute change of signal times the rate |
| Accounting.FlatDateEarnsNothing | basic_coint.py:212-222 | a date that starts and ends flat returns exactly zero |
| Accounting.CommonMoveHedged | basic_coint.py:201-222 | with hedge ratio 1, a date on which both legs move by the same fraction returns minus its cost |
| Accounting.Costs | basic_coint.py:217-220 | one cost per date, the absolute change of signal times the rate |
| Accounting.TotalCostIsTradeCount | basic_coint.py:217-220 | when the signal moves by at most one unit a date, the costs add up to the rate times the trade count |
| Accounting.TurnoverCost | basic_coint.py:217-220 | a series charging the rate on exactly the changed dates sums to the rate times the trade count |
| Accounting.LegPositions | basic_coint.py:243-251 | the short leg is minus beta times the long leg, the long leg times `1 + abs(beta)` is the signal, and a flat signal gives flat legs |
| Accounting.ExposureAt | basic_coint.py:243-263 | each exposure is its position times that leg's price; position 2 is minus beta times position 1, and position 1 times `1 + abs(beta)` is the signal; net is the sum of the exposures and gross the sum of their absolute values, so gross bounds the absolute net; a flat date has all six values zero |
| Accounting.CalculatePositionExposures | basic_coint.py:232-263 | one exposure row per date, made from that date's signal and closes only |
| Metrics.Winning | basic_coint.py:278 | the winning count is at most the number of returns, and zero exactly when no return is positive |
| Metrics.LosingIsNonPositive | basic_coint.py:317 | total minus winning is the number of non-positive returns |
| Metrics.LosingTradesIncludeZeros | basic_coint.py:317 | the losing count of the metrics counts non-positive returns, zeros included |
| Metrics.WinRate | basic_coint.py:277-280 | the win rate is in [0, 1]; it is 0 on an empty series; otherwise the rate times the count is the winning count; it is 0 exactly when no return is positive |
| Metrics.Negatives | basic_coint.py:289 | the negative count is zero exactly when no return is negative |
| Metrics.GainSum | basic_coint.py:290 | the gain sum is non-negative, and positive exactly when some return is positive |
| Metrics.LossSum | basic_coint.py:290 | the loss sum is non-positive, and negative exactly when some return is negative |
| Metrics.AverageWin | basic_coint.py:288 | the average win is 0 without wins; otherwise it is positive, and times the winning count it gives the gain sum |
| Metrics.AverageLoss | basic_coint.py:289 | the average loss is 0 without losses; otherwise it is negative, and times the negative count it gives the loss sum |
| Metrics.ProfitFactor | basic_coint.py:290 | the profit factor is +inf exactly when no return is negative, and never NaN or -inf; a finite one is non-negative and times the absolute loss sum gives the gain sum |
| Metrics.Peak | basic_coint.py:284 | the running maximum bounds every cumulative return so far and is one of them |
| Metrics.Drawdown | basic_coint.py:284 | every drawdown is at most zero |
| Metrics.Trough | basic_coint.py:285 | the running minimum of the drawdowns is at most each of them, at most zero, and attained |
| Metrics.MaxDrawdown | basic_coint.py:283-285 | the maximum drawdown is defined exactly for a non-empty series; it is at most zero, at most every drawdown, and attained |
| Metrics.NoLossNoDrawdown | basic_coint.py:283-285 | a non-empty series with no negative return has maximum drawdown zero |
| Metrics.AtPeak | basic_coint.py:283-284 | with no negative return, every date is at its running peak |
| Metrics.WealthGrows | basic_coint.py:283 | with no negative return, wealth is at least one and never falls |
| Metrics.WinIndicator | basic_coint.py:297 | one 0/1 flag per return |
| Metrics.Streak | basic_coint.py:297-298 | one ±1 value per return |
| Metrics.Wins | basic_coint.py:297-300 | through the ±1 encoding, a date is flagged a win exactly when its return is positive |
| Metrics.Losses | basic_coint.py:297-301 | through the ±1 encoding, a date counts toward the losing streak exactly when its return is not positive |
| Metrics.WinsAndLossesPartition | basic_coint.py:297-301 | every date is flagged exactly one of a win and a loss |
| Metrics.RunBefore | basic_coint.py:303-306 | the run ending before a date is all flagged, at most that long, and preceded by an unflagged date unless it reaches the start |
| Metrics.LongestRun | basic_coint.py:303-307 | the longest run is at most the length and at least the run ending at the end |
| Metrics.RunBeforeIsMaximal | basic_coint.py:303-306 | no flagged run ending at a date is longer than the run counted there |
| Metrics.LongestRunIsMaximal | basic_coint.py:303-307 | no flagged run is longer than the longest run |
| Metrics.LongestRunIsAttained | basic_coint.py:303-307 | the longest run is the length of an actual flagged run |
| Metrics.LongestRunZero | basic_coint.py:303-307 | the longest run is zero exactly when no flag is set |
| Metrics.StreaksVanish | basic_coint.py:297-307 | the win streak is zero exactly when no return is positive, and the losing streak exactly when every return is positive |
| Metrics.CalculateMetrics | basic_coint.py:266-326 | total trades is the number of returns and winning plus losing adds up to it; the win rate is in [0, 1]; the maximum drawdown and the daily mean are defined exactly on a non-empty series; the drawdown is at most zero; the profit factor is +inf exactly when no return is negative; the streaks are bounded by the length |
| Strategy.CheckPairValidity | basic_coint.py:329-341 | too few samples always reject, whatever the oracles say; a pass needs a correlation that does not compare below the minimum and a p-value that was returned, is not NaN and is at most the threshold; with a NaN correlation the verdict is the cointegration test's; conversely enough samples, a correlation not below the minimum and a returned p-value at most the threshold always pass |
| Strategy.ZScores | basic_coint.py:376 | one z-score per spread value, NaN over the first window |
| Strategy.TradedSignals | basic_coint.py:372-377 | the traded signals have one entry per date, are -1, 0 or 1, are 0 over the first window, and change by at most one unit a date |
| Strategy.SignalSeriesShape | basic_coint.py:161-183 | the signals of any z-score series are -1, 0 or 1, move by at most one unit a date, and are 0 over a NaN prefix |
| Strategy.AverageTradeDuration | basic_coint.py:402 | the average trade duration times the number of trades is the number of dates |
| Strategy.Assemble | basic_coint.py:400-438 | the result holds the pair, the first and last kept dates, the statistics, the returns, the exposures, the metrics of the defined returns, and one positions row per date with entry and exit markers both set on exactly the dates whose signal changes |
| Strategy.ExecutePairTrade | basic_coint.py:343-461 | rejects for empty data exactly when no date survives masking; always rejects a short sample; rejects as not tradable exactly when the screen fails; rejects for no trades exactly when the hedge ratio is NaN or the traded signals never change; a produced result has a finite hedge ratio and is described by `Describes` |
| Strategy.UndefinedZScoresNeverTrade | basic_coint.py:376-394 | an all-NaN z-score series gives signals with no trade |
| Strategy.NaNHedgeRatioNeverTrades | basic_coint.py:372-394 | a NaN hedge ratio makes the spread, and through the NaN-skipping window statistics every z-score, NaN, so the signals count no trade |
| Strategy.FiniteHedgeRatioZScores | basic_coint.py:372-376 | with a finite hedge ratio the z-scores over the spread as numpy holds it equal those the pipeline trades on |
| Strategy.ConstantSpreadStaysFlat | basic_coint.py:150-183 | a constant spread leaves the machine flat on every date |
| Strategy.ShortWindowNeverTrades | basic_coint.py:150-159 | a window of fewer than two dates makes every z-score NaN, so no trade is ever counted |
| Strategy.NoTradesMeansNoEntry | basic_coint.py:388-394 | over two dates or more, the pair is rejected for no trades exactly when the machine never enters |
| Strategy.CostsMatchTradeCount | basic_coint.py:217-220 | the costs along the traded signals add up to the rate times the number of trades |

## Left out

- `PairsDataProcessor` is not part of this model. It covers reading CSV files, the trading calendar, parallel loading, and pandas resampling and filling, which are I/O and library code.
- The correlation and the cointegration test are oracles. Their statistics are not modelled.
- The sample standard deviation is a parameter `sd`. Square roots have no exact real counterpart here.
- Total and annual return (`log1p`/`expm1`), annual volatility and the Sharpe ratio are not modelled. They are transcendental or need square roots.
- Rounding and the `float32` dtype of the rolling mean and deviation are not modelled. All arithmetic is exact over the reals, with NaN and infinities as separate values.
- Printing, tracebacks, the `.attrs` metadata, the extra result attributes and the drawdown column are not modelled. The extra attributes are the spread and z-score means and deviations, and `trade_count`. These are output only.
- `strftime` date formatting is not modelled. Dates are carried as values of a caller-chosen type.
- The catch-all exception handler of `execute_pair_trade` is not modelled. Every modelled operation is total, and the one raising call, the cointegration test, is handled inside `check_pair_validity`.
- Strategy.ExecutePairTrade: on a NaN hedge ratio it returns the no-trades rejection directly rather than running the accounting on the all-NaN spread. `Strategy.NaNHedgeRatioNeverTrades` shows that the NaN spread, its z-scores and the signals reach the same rejection.
- Strategy.Config: `lookback` is a natural number. A negative `lookback_period` is not modelled.
- Numbers.DropUndefined: it drops infinite returns as well as NaN, while `dropna` keeps ±inf. Metrics are stated over finite reals only. An infinite return needs a zero previous close.
- Metrics.CalculateMetrics: the winning count, the averages, the profit factor and the streaks are each stated on their own function (`Metrics.WinRate`, `Metrics.ProfitFactor`, `Metrics.StreaksVanish`, ...) rather than all repeated in its own contract.
