/** Rolling z-score (`calculate_zscore`): each date from `lookback` on is measured
    against the mean and sample standard deviation of the `lookback` spread values
    strictly before it; the dates before that, and every date whose window statistics
    are NaN, get NaN. Dividing by a zero window deviation gives NaN or an infinity,
    as in IEEE arithmetic. */
module ZScore {
  import opened Numbers

  /** `window.std()` with pandas' one degree of freedom: NaN below two values, and
      otherwise `sd(w)`, the sample standard deviation, which needs a square root and
      is therefore a parameter of the model. */
  function WindowStd(sd: seq<real> -> real, w: seq<real>): (s: Float)
    ensures s.Fin? <==> |w| >= 2
    ensures !s.PosInf? && !s.NegInf?
  {
    if |w| < 2 then NaN else Fin(sd(w))
  }

  /** `(spread - mean) / std` at one date. */
  function Standardize(x: real, m: Float, s: Float): Float
  {
    if m.Fin? && s.Fin? then Div(x - m.v, s.v) else NaN
  }

  /** The z-score of date `i`: NaN before the first full window, otherwise the
      spread at `i` standardised by the window `spread[i - lookback .. i - 1]`. */
  function ZScoreAt(spread: seq<real>, lookback: nat, sd: seq<real> -> real, i: nat): Float
    requires i < |spread|
  {
    if i < lookback then NaN
    else
      var w := spread[i - lookback..i];
      Standardize(spread[i], SeriesMean(w), WindowStd(sd, w))
  }

  /** The z-score of date `i` over a spread that may hold NaN. pandas' window `mean()`
      and `std()` skip NaN values, so they are taken over the defined values of the
      window, and a NaN spread value has a NaN z-score. The spread never holds an
      infinity (its legs are finite and the hedge ratio is never infinite), so NaN is
      the only undefined value to skip. */
  function ZScoreOfSeries(spread: seq<Float>, lookback: nat, sd: seq<real> -> real, i: nat): Float
    requires i < |spread|
  {
    if i < lookback || !spread[i].Fin? then NaN
    else
      var w := DropUndefined(spread[i - lookback..i]);
      Standardize(spread[i].v, SeriesMean(w), WindowStd(sd, w))
  }

  /** Over a spread with no undefined value, the z-scores are those of `ZScoreAt`. */
  lemma DefinedSeriesZScore(spread: seq<real>, f: seq<Float>, lookback: nat, sd: seq<real> -> real, i: nat)
    requires |f| == |spread| && i < |spread|
    requires forall j :: 0 <= j < |spread| ==> f[j] == Fin(spread[j])
    ensures ZScoreOfSeries(f, lookback, sd, i) == ZScoreAt(spread, lookback, sd, i)
  {
    if lookback <= i {
      var fw := f[i - lookback..i];
      assert forall j :: 0 <= j < |fw| ==> fw[j] == Fin(spread[i - lookback + j]);
      assert DropUndefined(fw) == spread[i - lookback..i];
    }
  }

  /** An all-NaN spread has a NaN z-score on every date. */
  lemma UndefinedSeriesZScore(spread: seq<Float>, lookback: nat, sd: seq<real> -> real, i: nat)
    requires i < |spread| && forall j :: 0 <= j < |spread| ==> spread[j] == NaN
    ensures ZScoreOfSeries(spread, lookback, sd, i) == NaN
  {
  }

  /** `calculate_zscore`: fills the rolling mean and deviation series date by date,
      then standardises the whole spread at once. */
  method CalculateZScore(spread: seq<real>, lookback: nat, sd: seq<real> -> real) returns (z: seq<Float>)
    ensures |z| == |spread|
    ensures forall i :: 0 <= i < |z| ==> z[i] == ZScoreAt(spread, lookback, sd, i)
    ensures forall i :: 0 <= i < |z| && i < lookback ==> z[i] == NaN
    ensures lookback < 2 ==> forall i :: 0 <= i < |z| ==> z[i] == NaN
  {
    var n := |spread|;
    var mean := new Float[n](_ => NaN);
    var std := new Float[n](_ => NaN);
    var i := lookback;
    while i < n
      invariant lookback <= i
      invariant forall j :: 0 <= j < n && (j < lookback || i <= j) ==> mean[j] == NaN && std[j] == NaN
      invariant forall j :: lookback <= j < i && j < n ==>
        mean[j] == SeriesMean(spread[j - lookback..j]) && std[j] == WindowStd(sd, spread[j - lookback..j])
    {
      var window := spread[i - lookback..i];
      mean[i] := SeriesMean(window);
      std[i] := WindowStd(sd, window);
      i := i + 1;
    }
    z := seq(n, j requires 0 <= j < n reads mean, std => Standardize(spread[j], mean[j], std[j]));
  }

  /** The current value never enters its own window: replacing the spread at `i`
      changes the z-score at `i` only through the numerator. */
  lemma ZScoreExcludesCurrent(spread: seq<real>, lookback: nat, sd: seq<real> -> real, i: nat, v: real)
    requires lookback <= i < |spread|
    ensures ZScoreAt(spread[i := v], lookback, sd, i)
         == Standardize(v, SeriesMean(spread[i - lookback..i]), WindowStd(sd, spread[i - lookback..i]))
  {
    assert spread[i := v][i - lookback..i] == spread[i - lookback..i];
  }

  /** With a non-negative deviation, the z-score is positive exactly when the spread
      is above its trailing mean and negative exactly when it is below; a zero
      deviation turns such a spread into an infinity rather than NaN. */
  lemma ZScoreSign(spread: seq<real>, lookback: nat, sd: seq<real> -> real, i: nat)
    requires 2 <= lookback <= i < |spread|
    requires sd(spread[i - lookback..i]) >= 0.0
    ensures var w := spread[i - lookback..i]; var m := Sum(w) / lookback as real;
      && (Greater(ZScoreAt(spread, lookback, sd, i), 0.0) <==> spread[i] > m)
      && (Less(ZScoreAt(spread, lookback, sd, i), 0.0) <==> spread[i] < m)
      && (sd(w) == 0.0 && spread[i] > m ==> ZScoreAt(spread, lookback, sd, i) == PosInf)
      && (sd(w) == 0.0 && spread[i] < m ==> ZScoreAt(spread, lookback, sd, i) == NegInf)
  {
    var w := spread[i - lookback..i];
    var m := Sum(w) / lookback as real;
    if sd(w) > 0.0 {
      Quotient(spread[i] - m, sd(w));
    }
  }

  lemma DivideBack(s: real, c: real, n: real)
    requires n > 0.0 && s == n * c
    ensures s / n == c
  {
  }

  /** A constant spread (numpy's deviation of a constant window being 0) yields
      NaN at every date: its deviations from the window mean are 0 / 0. */
  lemma ConstantSpreadUndefined(spread: seq<real>, lookback: nat, sd: seq<real> -> real, i: nat)
    requires Constant(spread) && i < |spread|
    requires forall w: seq<real> :: |w| >= 2 && Constant(w) ==> sd(w) == 0.0
    ensures ZScoreAt(spread, lookback, sd, i) == NaN
  {
    if 2 <= lookback <= i {
      var w := spread[i - lookback..i];
      assert Constant(w);
      SumConstant(w, spread[i]);
      DivideBack(Sum(w), spread[i], |w| as real);
    }
  }
}
