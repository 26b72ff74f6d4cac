/** `PairsTradingStrategy`: its parameters, the pair screen (`check_pair_validity`)
    and the pipeline of `execute_pair_trade`, which cleans the two price series,
    screens the pair, estimates the hedge ratio, builds the spread and its rolling
    z-score, runs the signal machine, does the accounting and assembles the result.
    The correlation and the cointegration test are oracles passed in, and so is the
    sample standard deviation used by the z-score. */
module Strategy {
  import opened Numbers
  import Cleaning
  import Hedge
  import ZScore
  import Signals
  import Accounting
  import Metrics

  /** The constructor parameters of `PairsTradingStrategy`. */
  datatype Config = Config(
    lookback: nat,
    enterLong: real,
    enterShort: real,
    exitLong: real,
    exitShort: real,
    minSamples: int,
    cointPValue: real,
    minCorrelation: real)

  /** The default parameters: a 60-date window, entries at 1.5, exits at 0.5, a year
      of 252 samples, a p-value of at most 0.08 and a correlation of at least 0.7. */
  const DefaultConfig := Config(60, 1.5, 1.5, 0.5, 0.5, 252, 0.08, 0.7)

  /** The transaction cost rate `execute_pair_trade` leaves at its default. */
  const TransactionCostRate := 0.001

  function Thresholds(cfg: Config): Signals.Thresholds
  {
    Signals.Thresholds(cfg.enterLong, cfg.enterShort, cfg.exitLong, cfg.exitShort)
  }

  /** What the cointegration test does: raise, or return a p-value. */
  datatype CointOutcome = Raised | Returned(pValue: Float)

  /** `check_pair_validity`: enough samples, then a correlation that is not too weak,
      then a cointegration p-value at most the threshold. The correlation test is a
      comparison `|corr| < min`, which a NaN correlation fails, so a NaN correlation
      lets the pair through to the cointegration test; a test that raises, or a NaN
      p-value, rejects. */
  function CheckPairValidity(cfg: Config, y: seq<real>, x: seq<real>,
                             corr: (seq<real>, seq<real>) -> Float,
                             coint: (seq<real>, seq<real>) -> CointOutcome): (ok: bool)
    ensures |y| < cfg.minSamples ==> !ok
    ensures ok ==> !Less(FAbs(corr(y, x)), cfg.minCorrelation)
    ensures ok ==> coint(y, x).Returned? && AtMost(coint(y, x).pValue, cfg.cointPValue)
    ensures ok ==> !coint(y, x).pValue.NaN?
    ensures (&& |y| >= cfg.minSamples
             && !Less(FAbs(corr(y, x)), cfg.minCorrelation)
             && coint(y, x).Returned? && AtMost(coint(y, x).pValue, cfg.cointPValue)) ==> ok
    ensures |y| >= cfg.minSamples && corr(y, x).NaN? ==>
              (ok <==> coint(y, x).Returned? && AtMost(coint(y, x).pValue, cfg.cointPValue))
  {
    if |y| < cfg.minSamples then false
    else if Less(FAbs(corr(y, x)), cfg.minCorrelation) then false
    else
      match coint(y, x)
      case Raised => false
      case Returned(p) => AtMost(p, cfg.cointPValue)
  }

  /** The rolling z-scores of a spread (`calculate_zscore` as a value). */
  function ZScores(spread: seq<real>, lookback: nat, sd: seq<real> -> real): (z: seq<Float>)
    ensures |z| == |spread|
    ensures forall i :: 0 <= i < |z| && i < lookback ==> z[i] == NaN
  {
    seq(|spread|, i requires 0 <= i < |spread| => ZScore.ZScoreAt(spread, lookback, sd, i))
  }

  /** The signals the pipeline trades on: the state machine over the rolling z-scores
      of `y - beta * x`. They are -1, 0 or 1, silent over the first window, and move by
      at most one unit from one date to the next. */
  function TradedSignals(cfg: Config, y: seq<real>, x: seq<real>, beta: real, sd: seq<real> -> real): (s: seq<int>)
    requires |y| == |x|
    ensures |s| == |y|
    ensures forall i :: 0 <= i < |s| ==> -1 <= s[i] <= 1
    ensures forall i :: 0 <= i < |s| && i < cfg.lookback ==> s[i] == 0
    ensures forall t :: 0 <= t < |s| ==> -1 <= Accounting.Change(s, t) <= 1
  {
    var z := ZScores(Hedge.Spread(y, x, beta), cfg.lookback, sd);
    var s := seq(|z|, i requires 0 <= i < |z| => Signals.SignalAt(Thresholds(cfg), z, i));
    SignalSeriesShape(Thresholds(cfg), z, s, if cfg.lookback < |z| then cfg.lookback else |z|);
    s
  }

  /** The signals of any z-score series are -1, 0 or 1, move by at most one unit a
      date, and are 0 over a prefix of undefined z-scores. */
  lemma SignalSeriesShape(th: Signals.Thresholds, z: seq<Float>, s: seq<int>, k: nat)
    requires |s| == |z| && forall i :: 0 <= i < |z| ==> s[i] == Signals.SignalAt(th, z, i)
    requires k <= |z| && forall j :: 0 <= j < k ==> z[j] == NaN
    ensures forall i :: 0 <= i < |s| ==> -1 <= s[i] <= 1
    ensures forall i :: 0 <= i < k ==> s[i] == 0
    ensures forall t :: 0 <= t < |s| ==> -1 <= Accounting.Change(s, t) <= 1
  {
    forall i | 0 <= i < |s|
      ensures -1 <= s[i] <= 1
    {
      Signals.SignalIsEntry(th, z, i);
    }
    Signals.UndefinedPrefixSilent(th, z, k);
    forall t | 0 < t < |s|
      ensures -1 <= Accounting.Change(s, t) <= 1
    {
      Signals.SignalStepIsUnit(th, z, t);
    }
  }

  /** One row of the positions table. The drawdown column is not part of this model. */
  datatype PositionRow = PositionRow(
    signal: int,
    zscore: Float,
    spread: real,
    price1: real,
    price2: real,
    position1: real,
    position2: real,
    netExposure: real,
    tradeEntry: bool,
    tradeExit: bool)

  /** The trade statistics merged into the metrics dictionary. */
  datatype TradeStats = TradeStats(
    numberOfTrades: nat,
    avgTradeDuration: real,
    hedgeRatio: real,
    spreadStdev: real,
    correlation: Float)

  /** `PairTradingResult`, with dates of a type chosen by the caller. */
  datatype PairTradingResult<D> = PairTradingResult(
    pair: (string, string),
    startDate: D,
    endDate: D,
    positions: seq<PositionRow>,
    dailyReturns: seq<Float>,
    metrics: Metrics.Metrics,
    stats: TradeStats,
    exposures: seq<Accounting.Exposure>)

  /** Why no result was produced; the source returns None in each case. */
  datatype Rejection = EmptyData | NotTradable | NoTrades

  datatype Outcome<D> = Rejected(reason: Rejection) | Produced(result: PairTradingResult<D>)

  /** What a produced result holds, given the cleaned legs `c`, the hedge ratio, the
      z-scores `z`, the signal series `s`, the correlation and the deviation `sd`: the
      pair, the first and last kept dates, the trade statistics (at least one trade,
      an average trade duration that is the number of dates over the number of
      trades, the deviation of the spread), the strategy returns, the exposures and
      the metrics of the defined returns, and one positions row per date carrying
      that date's signal, z-score, closes, spread and leg positions, with the entry
      and exit markers both set on exactly the dates whose signal changes. */
  ghost predicate Describes<D>(res: PairTradingResult<D>, pair: (string, string), c: Cleaning.Cleaned<D>,
                               beta: real, z: seq<Float>, s: seq<int>, correlation: Float,
                               sd: seq<real> -> real)
  {
    && |c.dates| == |c.y| == |c.x| == |z| == |s| > 0
    && res.pair == pair
    && res.startDate == c.dates[0] && res.endDate == c.dates[|s| - 1]
    && res.stats.hedgeRatio == beta
    && res.stats.correlation == correlation
    && res.stats.spreadStdev == sd(Hedge.Spread(c.y, c.x, beta))
    && res.stats.numberOfTrades == Signals.TradeCount(s) > 0
    && Prod(res.stats.avgTradeDuration, res.stats.numberOfTrades as real) == |s| as real
    && res.dailyReturns == Accounting.CalculateReturns(c.y, c.x, s, beta, TransactionCostRate)
    && res.exposures == Accounting.CalculatePositionExposures(c.y, c.x, s, beta)
    && res.metrics == Metrics.CalculateMetrics(DropUndefined(res.dailyReturns))
    && |res.positions| == |s|
    && (forall i :: 0 <= i < |s| ==>
          && res.positions[i].signal == s[i]
          && res.positions[i].zscore == z[i]
          && res.positions[i].price1 == c.y[i]
          && res.positions[i].price2 == c.x[i]
          && res.positions[i].spread == Hedge.Spread(c.y, c.x, beta)[i]
          && res.positions[i].position1 == res.exposures[i].pos1
          && res.positions[i].position2 == res.exposures[i].pos2
          && res.positions[i].netExposure == res.exposures[i].net
          && (res.positions[i].tradeEntry <==> Accounting.Change(s, i) != 0)
          && res.positions[i].tradeExit == res.positions[i].tradeEntry)
  }

  /** `avg_trade_duration`: the number of dates over the number of trades. */
  function AverageTradeDuration(dates: nat, trades: nat): (d: real)
    requires trades > 0
    ensures d > 0.0 <==> dates > 0
    ensures Prod(d, trades as real) == dates as real
  {
    var q := Div(dates as real, trades as real);
    assert q.Fin? && Prod(q.v, trades as real) == dates as real;
    q.v
  }

  /** The result assembly of `execute_pair_trade`, once the signals have a trade. */
  method Assemble<D>(pair: (string, string), c: Cleaning.Cleaned<D>, beta: real,
                     z: seq<Float>, s: seq<int>, correlation: Float, sd: seq<real> -> real)
    returns (res: PairTradingResult<D>)
    requires |c.dates| == |c.y| == |c.x| == |z| == |s|
    requires Signals.TradeCount(s) > 0
    ensures Describes(res, pair, c, beta, z, s, correlation, sd)
  {
    var n := |s|;
    var spread := Hedge.Spread(c.y, c.x, beta);
    var rets := Accounting.CalculateReturns(c.y, c.x, s, beta, TransactionCostRate);
    var exposures := Accounting.CalculatePositionExposures(c.y, c.x, s, beta);
    var tradeCount := Signals.TradeCount(s);
    var metrics := Metrics.CalculateMetrics(DropUndefined(rets));
    var duration := AverageTradeDuration(n, tradeCount);
    var stats := TradeStats(tradeCount, duration, beta, sd(spread), correlation);
    var positions := seq(n, i requires 0 <= i < n =>
      PositionRow(s[i], z[i], spread[i], c.y[i], c.x[i],
                  exposures[i].pos1, exposures[i].pos2, exposures[i].net,
                  Accounting.Change(s, i) != 0, Accounting.Change(s, i) != 0));
    res := PairTradingResult(pair, c.dates[0], c.dates[n - 1], positions, rets, metrics, stats, exposures);
    assert forall i :: 0 <= i < n ==>
          && res.positions[i].signal == s[i]
          && res.positions[i].zscore == z[i]
          && res.positions[i].price1 == c.y[i]
          && res.positions[i].price2 == c.x[i]
          && res.positions[i].spread == Hedge.Spread(c.y, c.x, beta)[i]
          && res.positions[i].position1 == res.exposures[i].pos1
          && res.positions[i].position2 == res.exposures[i].pos2
          && res.positions[i].netExposure == res.exposures[i].net
          && (res.positions[i].tradeEntry <==> Accounting.Change(s, i) != 0)
          && res.positions[i].tradeExit == res.positions[i].tradeEntry;
  }

  /** `execute_pair_trade`. The length-mismatch guard of the source is absent: the
      cleaned legs always have equal lengths (`Cleaning.PreparePairData`). A NaN hedge
      ratio (fewer than two dates, or a constant second leg) makes the whole spread
      NaN, so no z-score is defined, no signal fires and the pair is rejected for
      having no trades (`UndefinedZScoresNeverTrade`); the method takes that branch
      directly. */
  method ExecutePairTrade<D>(cfg: Config, pair: (string, string),
                             dates: seq<D>, ys: seq<Option<real>>, xs: seq<Option<real>>,
                             corr: (seq<real>, seq<real>) -> Float,
                             coint: (seq<real>, seq<real>) -> CointOutcome,
                             sd: seq<real> -> real) returns (out: Outcome<D>)
    requires |dates| == |ys| == |xs|
    ensures var c := Cleaning.PreparePairData(dates, ys, xs);
      && (out == Rejected(EmptyData) <==> |c.y| == 0)
      && (Cleaning.Kept(ys, xs, |ys|) < cfg.minSamples ==> out.Rejected?)
      && (out == Rejected(NotTradable) <==> |c.y| > 0 && !CheckPairValidity(cfg, c.y, c.x, corr, coint))
      && (out == Rejected(NoTrades) <==>
            |c.y| > 0 && CheckPairValidity(cfg, c.y, c.x, corr, coint)
            && (Hedge.HedgeRatio(c.y, c.x).NaN?
                || Signals.TradeCount(TradedSignals(cfg, c.y, c.x, Hedge.HedgeRatio(c.y, c.x).v, sd)) == 0))
      && (out.Produced? ==>
            var beta := Hedge.HedgeRatio(c.y, c.x);
            && beta.Fin?
            && Describes(out.result, pair, c, beta.v, ZScores(Hedge.Spread(c.y, c.x, beta.v), cfg.lookback, sd),
                         TradedSignals(cfg, c.y, c.x, beta.v, sd), corr(c.y, c.x), sd))
  {
    var c := Cleaning.PreparePairData(dates, ys, xs);
    if |c.y| == 0 {
      return Rejected(EmptyData);
    }
    if !CheckPairValidity(cfg, c.y, c.x, corr, coint) {
      return Rejected(NotTradable);
    }
    var beta := Hedge.HedgeRatio(c.y, c.x);
    if beta.NaN? {
      return Rejected(NoTrades);
    }
    var spread := Hedge.Spread(c.y, c.x, beta.v);
    var z := ZScore.CalculateZScore(spread, cfg.lookback, sd);
    assert z == ZScores(spread, cfg.lookback, sd);
    var signals := Signals.GenerateSignals(Thresholds(cfg), z);
    assert signals == TradedSignals(cfg, c.y, c.x, beta.v, sd);
    if Signals.TradeCount(signals) == 0 {
      return Rejected(NoTrades);
    }
    var res := Assemble(pair, c, beta.v, z, signals, corr(c.y, c.x), sd);
    out := Produced(res);
  }

  /** An all-NaN z-score series, which is what a NaN hedge ratio produces, never
      trades: this is the branch `ExecutePairTrade` takes for a NaN hedge ratio. */
  lemma UndefinedZScoresNeverTrade(th: Signals.Thresholds, z: seq<Float>)
    requires forall i :: 0 <= i < |z| ==> z[i] == NaN
    ensures var s := seq(|z|, i requires 0 <= i < |z| => Signals.SignalAt(th, z, i));
      Signals.TradeCount(s) == 0
  {
    var s := seq(|z|, i requires 0 <= i < |z| => Signals.SignalAt(th, z, i));
    Signals.UndefinedPrefixSilent(th, z, |z|);
    Signals.TradeCountZero(s);
  }

  /** The z-scores of `calculate_zscore` over the spread as numpy holds it. */
  function SeriesZScores(cfg: Config, y: seq<real>, x: seq<real>, beta: Float, sd: seq<real> -> real): (z: seq<Float>)
    requires |y| == |x|
    ensures |z| == |y|
  {
    var spread := Hedge.SpreadSeries(y, x, beta);
    seq(|spread|, i requires 0 <= i < |spread| => ZScore.ZScoreOfSeries(spread, cfg.lookback, sd, i))
  }

  /** With a finite hedge ratio the z-scores over the spread as numpy holds it are
      those the pipeline trades on. */
  lemma FiniteHedgeRatioZScores(cfg: Config, y: seq<real>, x: seq<real>, beta: real, sd: seq<real> -> real)
    requires |y| == |x|
    ensures SeriesZScores(cfg, y, x, Fin(beta), sd) == ZScores(Hedge.Spread(y, x, beta), cfg.lookback, sd)
  {
    var spread := Hedge.Spread(y, x, beta);
    var f := Hedge.SpreadSeries(y, x, Fin(beta));
    forall i | 0 <= i < |y|
      ensures SeriesZScores(cfg, y, x, Fin(beta), sd)[i] == ZScores(spread, cfg.lookback, sd)[i]
    {
      ZScore.DefinedSeriesZScore(spread, f, cfg.lookback, sd, i);
    }
  }

  /** A NaN hedge ratio makes the spread NaN on every date, hence every z-score, so
      the signals count no trade: the rejection `ExecutePairTrade` returns directly. */
  lemma NaNHedgeRatioNeverTrades(cfg: Config, y: seq<real>, x: seq<real>, sd: seq<real> -> real)
    requires |y| == |x| && Hedge.HedgeRatio(y, x).NaN?
    ensures var z := SeriesZScores(cfg, y, x, Hedge.HedgeRatio(y, x), sd);
      Signals.TradeCount(seq(|z|, i requires 0 <= i < |z| => Signals.SignalAt(Thresholds(cfg), z, i))) == 0
  {
    var spread := Hedge.SpreadSeries(y, x, Hedge.HedgeRatio(y, x));
    var z := SeriesZScores(cfg, y, x, Hedge.HedgeRatio(y, x), sd);
    forall i | 0 <= i < |z|
      ensures z[i] == NaN
    {
      ZScore.UndefinedSeriesZScore(spread, cfg.lookback, sd, i);
    }
    UndefinedZScoresNeverTrade(Thresholds(cfg), z);
  }

  /** A constant spread, whose windows have zero deviation, has no defined z-score,
      so the machine stays flat on every date. */
  lemma ConstantSpreadStaysFlat(th: Signals.Thresholds, spread: seq<real>, lookback: nat, sd: seq<real> -> real)
    requires Constant(spread)
    requires forall w: seq<real> :: |w| >= 2 && Constant(w) ==> sd(w) == 0.0
    ensures var z := ZScores(spread, lookback, sd);
      forall i :: 0 <= i < |z| ==> Signals.SignalAt(th, z, i) == 0
  {
    var z := ZScores(spread, lookback, sd);
    forall i | 0 <= i < |z|
      ensures z[i] == NaN
    {
      ZScore.ConstantSpreadUndefined(spread, lookback, sd, i);
    }
    Signals.UndefinedPrefixSilent(th, z, |z|);
  }

  /** A window shorter than two dates leaves every z-score NaN (a one-value window has
      no sample deviation), so such a strategy never trades. */
  lemma ShortWindowNeverTrades(cfg: Config, y: seq<real>, x: seq<real>, beta: real, sd: seq<real> -> real)
    requires |y| == |x| && cfg.lookback < 2
    ensures Signals.TradeCount(TradedSignals(cfg, y, x, beta, sd)) == 0
  {
    var spread := Hedge.Spread(y, x, beta);
    var z := ZScores(spread, cfg.lookback, sd);
    forall i | 0 <= i < |z|
      ensures z[i] == NaN
    {
    }
    UndefinedZScoresNeverTrade(Thresholds(cfg), z);
  }

  /** Over two dates or more, the pair is rejected for having no trades exactly when
      the signal machine never enters a position. */
  lemma NoTradesMeansNoEntry(cfg: Config, y: seq<real>, x: seq<real>, beta: real, sd: seq<real> -> real)
    requires |y| == |x| >= 2
    ensures var s := TradedSignals(cfg, y, x, beta, sd);
      Signals.TradeCount(s) == 0 <==> forall i :: 0 <= i < |s| ==> s[i] == 0
  {
    var z := ZScores(Hedge.Spread(y, x, beta), cfg.lookback, sd);
    Signals.SignalsTradeCount(Thresholds(cfg), z, TradedSignals(cfg, y, x, beta, sd));
  }

  /** The transaction costs charged along the traded signals add up to the cost rate
      times the number of trades, whatever the rate (the pipeline uses
      `TransactionCostRate`). */
  lemma CostsMatchTradeCount(cfg: Config, y: seq<real>, x: seq<real>, beta: real, rate: real,
                             sd: seq<real> -> real, s: seq<int>)
    requires |y| == |x| && s == TradedSignals(cfg, y, x, beta, sd)
    ensures Sum(Accounting.Costs(s, beta, rate)) == rate * Signals.TradeCount(s) as real
  {
    Accounting.TotalCostIsTradeCount(s, beta, rate);
  }
}
