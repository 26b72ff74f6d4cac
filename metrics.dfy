/** The counting, drawdown and streak parts of `calculate_metrics`, over the daily
    strategy returns left after dropping the undefined ones. A winning date has a
    strictly positive return; the losing count is the rest, zero returns included,
    while the average loss and the profit factor look at strictly negative returns
    only. */
module Metrics {
  import opened Numbers

  /** `(returns > 0).sum()`. */
  function Winning(r: seq<real>): (k: nat)
    ensures k <= |r|
    ensures k == 0 <==> forall i :: 0 <= i < |r| ==> r[i] <= 0.0
  {
    if |r| == 0 then 0
    else
      var n := |r| - 1;
      assert forall i :: 0 <= i < n ==> r[..n][i] == r[i];
      Winning(r[..n]) + (if r[n] > 0.0 then 1 else 0)
  }

  /** The number of non-positive returns. */
  function NonPositive(r: seq<real>): (k: nat)
  {
    if |r| == 0 then 0 else NonPositive(r[..|r| - 1]) + (if r[|r| - 1] <= 0.0 then 1 else 0)
  }

  /** `losing_trades = total_trades - winning_trades` counts exactly the dates whose
      return is not positive: zero returns are losses. */
  lemma {:induction false} LosingIsNonPositive(r: seq<real>)
    ensures |r| - Winning(r) == NonPositive(r)
  {
    if |r| > 0 {
      LosingIsNonPositive(r[..|r| - 1]);
    }
  }

  /** `win_rate`: the winning share, 0 for no returns at all. */
  function WinRate(r: seq<real>): (w: real)
    ensures 0.0 <= w <= 1.0
    ensures |r| == 0 ==> w == 0.0
    ensures |r| > 0 ==> Prod(w, |r| as real) == Winning(r) as real
    ensures w == 0.0 <==> forall i :: 0 <= i < |r| ==> r[i] <= 0.0
  {
    if |r| > 0 then
      var q := Div(Winning(r) as real, |r| as real);
      Fraction(q.v, Winning(r) as real, |r| as real);
      assert Prod(q.v, |r| as real) == Winning(r) as real;
      q.v
    else 0.0
  }

  /** A count over a positive total, as a fraction: between 0 and 1, and 0 exactly
      for a zero count. */
  lemma Fraction(w: real, k: real, n: real)
    requires n > 0.0 && 0.0 <= k <= n && w * n == k
    ensures 0.0 <= w <= 1.0
    ensures w == 0.0 <==> k == 0.0
  {
  }

  /** The number of strictly negative returns. */
  function Negatives(r: seq<real>): (k: nat)
    ensures k == 0 <==> forall i :: 0 <= i < |r| ==> r[i] >= 0.0
  {
    if |r| == 0 then 0
    else
      var n := |r| - 1;
      assert forall i :: 0 <= i < n ==> r[..n][i] == r[i];
      Negatives(r[..n]) + (if r[n] < 0.0 then 1 else 0)
  }

  /** `returns[returns > 0].sum()`: positive exactly when some return is. */
  function GainSum(r: seq<real>): (g: real)
    ensures g >= 0.0
    ensures g > 0.0 <==> Winning(r) > 0
  {
    if |r| == 0 then 0.0
    else GainSum(r[..|r| - 1]) + (if r[|r| - 1] > 0.0 then r[|r| - 1] else 0.0)
  }

  /** `returns[returns < 0].sum()`: negative exactly when some return is. */
  function LossSum(r: seq<real>): (l: real)
    ensures l <= 0.0
    ensures l < 0.0 <==> Negatives(r) > 0
  {
    if |r| == 0 then 0.0
    else LossSum(r[..|r| - 1]) + (if r[|r| - 1] < 0.0 then r[|r| - 1] else 0.0)
  }

  /** `avg_win`: the mean winning return, or 0 without a win. */
  function AverageWin(r: seq<real>): (a: real)
    ensures Winning(r) == 0 ==> a == 0.0
    ensures Winning(r) > 0 ==> a > 0.0 && Prod(a, Winning(r) as real) == GainSum(r)
  {
    var k := Winning(r);
    if k > 0 then
      var g := GainSum(r);
      var q := Div(g, k as real);
      assert q.Fin? && q.v > 0.0 && Prod(q.v, k as real) == g;
      q.v
    else 0.0
  }

  /** `avg_loss`: the mean strictly negative return, or 0 without one. */
  function AverageLoss(r: seq<real>): (a: real)
    ensures Negatives(r) == 0 ==> a == 0.0
    ensures Negatives(r) > 0 ==> a < 0.0 && Prod(a, Negatives(r) as real) == LossSum(r)
  {
    var k := Negatives(r);
    if k > 0 then
      var l := LossSum(r);
      var q := Div(l, k as real);
      assert q.Fin? && q.v < 0.0 && Prod(q.v, k as real) == l;
      q.v
    else 0.0
  }

  /** `profit_factor`: gains over the magnitude of losses, and +inf exactly when no
      return is negative (even when there is no gain either). */
  function ProfitFactor(r: seq<real>): (pf: Float)
    ensures pf.PosInf? <==> forall i :: 0 <= i < |r| ==> r[i] >= 0.0
    ensures !pf.NaN? && !pf.NegInf?
    ensures pf.Fin? ==> pf.v >= 0.0 && Prod(pf.v, -LossSum(r)) == GainSum(r)
  {
    if Negatives(r) > 0 then
      var g := GainSum(r);
      var l := LossSum(r);
      var q := Div(g, l);
      LossRatio(q.v, g, l);
      assert Prod(Abs(q.v), -l) == g;
      Fin(Abs(q.v))
    else PosInf
  }

  /** A ratio of gains to a negative loss sum, taken in magnitude, multiplies the
      magnitude of the losses back to the gains. */
  lemma LossRatio(q: real, g: real, l: real)
    requires q * l == g && g >= 0.0 && l < 0.0
    ensures Abs(q) >= 0.0 && Prod(Abs(q), -l) == g
  {
  }

  /** `(1 + returns).cumprod()` after `k` dates: the growth of one unit invested. */
  function Wealth(r: seq<real>, k: nat): real
    requires k <= |r|
  {
    if k == 0 then 1.0 else Wealth(r, k - 1) * (1.0 + r[k - 1])
  }

  /** `cumulative_returns` at date `i`. */
  function Cumulative(r: seq<real>, i: nat): real
    requires i < |r|
  {
    Wealth(r, i + 1) - 1.0
  }

  /** `cumulative_returns.cummax()` at date `i`: the highest cumulative return so far. */
  function Peak(r: seq<real>, i: nat): (m: real)
    requires i < |r|
    ensures forall j :: 0 <= j <= i ==> Cumulative(r, j) <= m
    ensures exists j :: 0 <= j <= i && Cumulative(r, j) == m
  {
    if i == 0 then Cumulative(r, 0)
    else
      var prev := Peak(r, i - 1);
      if Cumulative(r, i) > prev then Cumulative(r, i) else prev
  }

  /** `drawdowns` at date `i`: how far the cumulative return is below its peak. */
  function Drawdown(r: seq<real>, i: nat): (d: real)
    requires i < |r|
    ensures d <= 0.0
  {
    Cumulative(r, i) - Peak(r, i)
  }

  /** The lowest drawdown over the first `i + 1` dates. */
  function Trough(r: seq<real>, i: nat): (m: real)
    requires i < |r|
    ensures m <= 0.0
    ensures forall j :: 0 <= j <= i ==> m <= Drawdown(r, j)
    ensures exists j :: 0 <= j <= i && Drawdown(r, j) == m
  {
    if i == 0 then Drawdown(r, 0)
    else
      var prev := Trough(r, i - 1);
      if Drawdown(r, i) < prev then Drawdown(r, i) else prev
  }

  /** `max_drawdown = drawdowns.min()`: NaN for no returns, otherwise the worst
      drawdown, which is never positive. */
  function MaxDrawdown(r: seq<real>): (dd: Float)
    ensures dd.Fin? <==> |r| > 0
    ensures !dd.PosInf? && !dd.NegInf?
    ensures dd.Fin? ==> dd.v <= 0.0
    ensures dd.Fin? ==> forall j :: 0 <= j < |r| ==> dd.v <= Drawdown(r, j)
    ensures dd.Fin? ==> exists j :: 0 <= j < |r| && Drawdown(r, j) == dd.v
  {
    if |r| == 0 then NaN else Fin(Trough(r, |r| - 1))
  }

  /** Without a losing date wealth never falls, so there is no drawdown at all. */
  lemma NoLossNoDrawdown(r: seq<real>)
    requires |r| > 0
    requires forall i :: 0 <= i < |r| ==> r[i] >= 0.0
    ensures MaxDrawdown(r) == Fin(0.0)
  {
    forall i | 0 <= i < |r|
      ensures Drawdown(r, i) == 0.0
    {
      AtPeak(r, i);
    }
  }

  /** Under non-negative returns each date's cumulative return is its peak. */
  lemma {:induction false} AtPeak(r: seq<real>, i: nat)
    requires i < |r|
    requires forall j :: 0 <= j < |r| ==> r[j] >= 0.0
    ensures Peak(r, i) == Cumulative(r, i)
  {
    if i > 0 {
      AtPeak(r, i - 1);
      WealthGrows(r, i + 1);
    }
  }

  /** Under non-negative returns wealth is at least one and never decreases. */
  lemma {:induction false} WealthGrows(r: seq<real>, k: nat)
    requires 0 < k <= |r|
    requires forall j :: 0 <= j < |r| ==> r[j] >= 0.0
    ensures Wealth(r, k - 1) >= 1.0
    ensures Wealth(r, k) >= Wealth(r, k - 1)
  {
    if k > 1 {
      WealthGrows(r, k - 1);
    }
    NoShrink(Wealth(r, k - 1), r[k - 1]);
  }

  lemma NoShrink(w: real, g: real)
    requires w >= 1.0 && g >= 0.0
    ensures w * (1.0 + g) >= w
  {
  }

  /** `(returns > 0).astype(int)`: 1 on a positive return, 0 otherwise. */
  function WinIndicator(r: seq<real>): (f: seq<int>)
    ensures |f| == |r|
    ensures forall i :: 0 <= i < |r| ==> f[i] == 0 || f[i] == 1
  {
    seq(|r|, i requires 0 <= i < |r| => if r[i] > 0.0 then 1 else 0)
  }

  /** `streak.map({1: 1, 0: -1})`: the indicator recoded as +1 for a win and -1
      otherwise. Every date gets a key of the mapping, so none is left undefined. */
  function Streak(r: seq<real>): (t: seq<int>)
    ensures |t| == |r|
    ensures forall i :: 0 <= i < |r| ==> t[i] == 1 || t[i] == -1
  {
    var f := WinIndicator(r);
    seq(|r|, i requires 0 <= i < |r| => if f[i] == 1 then 1 else -1)
  }

  /** `streak > 0`, the flags the win streak is run over: exactly the dates with a
      positive return. */
  function Wins(r: seq<real>): (b: seq<bool>)
    ensures |b| == |r|
    ensures forall i :: 0 <= i < |r| ==> (b[i] <==> r[i] > 0.0)
  {
    var t := Streak(r);
    seq(|r|, i requires 0 <= i < |r| => t[i] > 0)
  }

  /** `streak < 0`, the flags the losing streak is run over: exactly the dates whose
      return is not positive, zero returns included. */
  function Losses(r: seq<real>): (b: seq<bool>)
    ensures |b| == |r|
    ensures forall i :: 0 <= i < |r| ==> (b[i] <==> r[i] <= 0.0)
  {
    var t := Streak(r);
    seq(|r|, i requires 0 <= i < |r| => t[i] < 0)
  }

  /** Every date is flagged for exactly one of the two streaks. */
  lemma WinsAndLossesPartition(r: seq<real>)
    ensures forall i :: 0 <= i < |r| ==> (Losses(r)[i] <==> !Wins(r)[i])
  {
  }

  /** Every flag in `b[i..j]` is set. */
  predicate AllSet(b: seq<bool>, i: nat, j: nat)
    requires i <= j <= |b|
  {
    forall k :: i <= k < j ==> b[k]
  }

  /** Length of the run of set flags ending just before `k`. */
  function RunBefore(b: seq<bool>, k: nat): (n: nat)
    requires k <= |b|
    ensures n <= k
    ensures AllSet(b, k - n, k)
    ensures n < k ==> !b[k - n - 1]
  {
    if k == 0 || !b[k - 1] then 0 else RunBefore(b, k - 1) + 1
  }

  /** The longest run of set flags among the first `k` (the per-group sums of the
      grouped 0/1 streak series, maximised). */
  function LongestRun(b: seq<bool>, k: nat): (n: nat)
    requires k <= |b|
    ensures n <= k
    ensures RunBefore(b, k) <= n
  {
    if k == 0 then 0
    else
      var prev := LongestRun(b, k - 1);
      if RunBefore(b, k) > prev then RunBefore(b, k) else prev
  }

  /** A run of set flags ending at `k` is no longer than the run counted there. */
  lemma {:induction false} RunBeforeIsMaximal(b: seq<bool>, i: nat, k: nat)
    requires i <= k <= |b| && AllSet(b, i, k)
    ensures k - i <= RunBefore(b, k)
  {
    if i < k {
      RunBeforeIsMaximal(b, i, k - 1);
    }
  }

  /** Every run of set flags within the first `k` is at most the longest run. */
  lemma {:induction false} LongestRunIsMaximal(b: seq<bool>, i: nat, j: nat, k: nat)
    requires i <= j <= k <= |b| && AllSet(b, i, j)
    ensures j - i <= LongestRun(b, k)
  {
    if j < k {
      LongestRunIsMaximal(b, i, j, k - 1);
    } else {
      RunBeforeIsMaximal(b, i, k);
    }
  }

  /** A run of `n` set flags starts at `i`. */
  predicate RunAt(b: seq<bool>, i: nat, n: nat)
  {
    i + n <= |b| && AllSet(b, i, i + n)
  }

  /** The longest run is the length of an actual run of set flags. */
  lemma {:induction false} LongestRunIsAttained(b: seq<bool>, k: nat)
    requires k <= |b|
    ensures exists i: nat :: i + LongestRun(b, k) <= k && RunAt(b, i, LongestRun(b, k))
  {
    if k > 0 && LongestRun(b, k) != RunBefore(b, k) {
      LongestRunIsAttained(b, k - 1);
    } else {
      assert RunAt(b, k - LongestRun(b, k), LongestRun(b, k));
    }
  }

  /** The longest run is zero exactly when no flag is set. */
  lemma LongestRunZero(b: seq<bool>)
    ensures LongestRun(b, |b|) == 0 <==> forall i :: 0 <= i < |b| ==> !b[i]
  {
    var longest := LongestRun(b, |b|);
    if longest > 0 {
      LongestRunIsAttained(b, |b|);
      var i: nat :| i + longest <= |b| && RunAt(b, i, longest);
      assert b[i];
    } else {
      forall i | 0 <= i < |b|
        ensures !b[i]
      {
        if b[i] {
          LongestRunIsMaximal(b, i, i + 1, |b|);
          assert false;
        }
      }
    }
  }

  /** The metrics this model computes. */
  datatype Metrics = Metrics(
    winRate: real,
    totalTrades: nat,
    winningTrades: nat,
    losingTrades: int,
    totalPnl: real,
    averageDailyPnl: Float,
    averageWin: real,
    averageLoss: real,
    profitFactor: Float,
    maxDrawdown: Float,
    longestWinStreak: nat,
    longestLoseStreak: nat)

  /** `calculate_metrics` on defined returns: the counts add up, the rates and
      streaks are bounded by the number of dates, and the drawdown is never positive. */
  function CalculateMetrics(r: seq<real>): (m: Metrics)
    ensures m.totalTrades == |r| && m.winningTrades + m.losingTrades == |r|
    ensures 0 <= m.losingTrades
    ensures 0.0 <= m.winRate <= 1.0
    ensures m.maxDrawdown.Fin? <==> |r| > 0
    ensures m.maxDrawdown.Fin? ==> m.maxDrawdown.v <= 0.0
    ensures m.profitFactor.PosInf? <==> forall i :: 0 <= i < |r| ==> r[i] >= 0.0
    ensures m.longestWinStreak <= |r| && m.longestLoseStreak <= |r|
    ensures m.averageDailyPnl.Fin? <==> |r| > 0
  {
    Metrics(
      WinRate(r),
      |r|,
      Winning(r),
      |r| - Winning(r),
      Sum(r),
      SeriesMean(r),
      AverageWin(r),
      AverageLoss(r),
      ProfitFactor(r),
      MaxDrawdown(r),
      LongestRun(Wins(r), |r|),
      LongestRun(Losses(r), |r|))
  }

  /** The losing count of `calculate_metrics` counts the dates whose return is not
      positive, zero returns included. */
  lemma LosingTradesIncludeZeros(r: seq<real>)
    ensures CalculateMetrics(r).losingTrades == NonPositive(r)
  {
    LosingIsNonPositive(r);
  }

  /** The win streak is zero exactly when no return is positive, and the losing
      streak exactly when every return is; both are zero on an empty series. */
  lemma StreaksVanish(r: seq<real>)
    ensures var m := CalculateMetrics(r);
      && (m.longestWinStreak == 0 <==> forall i :: 0 <= i < |r| ==> r[i] <= 0.0)
      && (m.longestLoseStreak == 0 <==> forall i :: 0 <= i < |r| ==> r[i] > 0.0)
  {
    LongestRunZero(Wins(r));
    LongestRunZero(Losses(r));
  }
}
