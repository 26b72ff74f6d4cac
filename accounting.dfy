/** Return and exposure accounting (`calculate_returns`, `calculate_position_exposures`).
    Leg 1 carries a notional of 1 and leg 2 a notional of the hedge ratio; both are
    scaled by the total notional 1 + |beta|. A date's strategy return is the previous
    date's signal times the hedged leg return, less a cost proportional to the change
    of signal. Returns are IEEE values, since a zero previous close gives an infinite
    or NaN daily change; prices and exposures are finite. */
module Accounting {
  import opened Numbers
  import Signals

  /** The two leg weights. */
  datatype Weights = Weights(w1: real, w2: real)

  /** `1 / total_notional` and `beta / total_notional`: defined for every hedge ratio
      (the total is at least 1), leg 1 always long, leg 2 carrying the sign of beta,
      and the absolute weights adding up to one. */
  function LegWeights(beta: real): (w: Weights)
    ensures 0.0 < w.w1 <= 1.0
    ensures Abs(w.w1) + Abs(w.w2) == 1.0
    ensures w.w2 == beta * w.w1
    ensures (w.w2 > 0.0 <==> beta > 0.0) && (w.w2 < 0.0 <==> beta < 0.0)
  {
    var total := 1.0 + Abs(beta);
    Weights(1.0 / total, beta / total)
  }

  /** `pct_change` at date `t`: NaN on the first date, `p[t] / p[t - 1] - 1` after it. */
  function PctChangeAt(p: seq<real>, t: nat): (r: Float)
    requires t < |p|
    ensures t == 0 ==> r.NaN?
    ensures t > 0 ==> (r.Fin? <==> p[t - 1] != 0.0)
    ensures t > 0 && r.Fin? ==> p[t - 1] * (1.0 + r.v) == p[t]
    ensures t > 0 && p[t - 1] == 0.0 ==> (r.NaN? <==> p[t] == 0.0)
  {
    if t == 0 then NaN
    else
      var r := FSub(Div(p[t], p[t - 1]), Fin(1.0));
      assert r.Fin? ==> p[t - 1] * (1.0 + r.v) == p[t] by {
        if p[t - 1] != 0.0 {
          assert Div(p[t], p[t - 1]).v * p[t - 1] == p[t];
        }
      }
      r
  }

  /** The change of signal at date `t` (`signals.diff().fillna(0)`): 0 on the first date. */
  function Change(s: seq<int>, t: nat): (d: int)
    requires t < |s|
    ensures t > 0 ==> s[t - 1] + d == s[t]
    ensures t == 0 ==> d == 0
  {
    if t == 0 then 0 else s[t] - s[t - 1]
  }

  /** The cost charged at date `t`: the absolute change of signal times the rate times
      the absolute weights. Since those add up to one, the hedge ratio drops out and
      the cost is the turnover times the rate; it is zero on the first date and on
      every date whose signal is unchanged. */
  function TransactionCost(s: seq<int>, beta: real, rate: real, t: nat): (c: real)
    requires t < |s|
    ensures c == Abs(Change(s, t) as real) * rate
    ensures t == 0 || s[t] == s[t - 1] ==> c == 0.0
  {
    var w := LegWeights(beta);
    Abs(Change(s, t) as real) * rate * (Abs(w.w1) + Abs(w.w2))
  }

  /** The strategy return of date `t`: the signal shifted by one date (NaN on the
      first date) times `w1 * r1 - w2 * r2`, less the transaction cost. */
  function StrategyReturn(p1: seq<real>, p2: seq<real>, s: seq<int>, beta: real, rate: real, t: nat): (r: Float)
    requires |p1| == |p2| == |s| && t < |s|
    ensures t == 0 ==> r.NaN?
    ensures t > 0 && p1[t - 1] != 0.0 && p2[t - 1] != 0.0 ==> r.Fin?
  {
    var w := LegWeights(beta);
    var held := if t == 0 then NaN else Fin(s[t - 1] as real);
    var hedged := FSub(FMul(Fin(w.w1), PctChangeAt(p1, t)), FMul(Fin(w.w2), PctChangeAt(p2, t)));
    FSub(FMul(held, hedged), Fin(TransactionCost(s, beta, rate, t)))
  }

  /** `calculate_returns`: one strategy return per date. */
  function CalculateReturns(p1: seq<real>, p2: seq<real>, s: seq<int>, beta: real, rate: real): (r: seq<Float>)
    requires |p1| == |p2| == |s|
    ensures |r| == |s|
    ensures |s| > 0 ==> r[0].NaN?
    ensures forall t :: 0 < t < |s| && p1[t - 1] != 0.0 && p2[t - 1] != 0.0 ==> r[t].Fin?
  {
    seq(|s|, t requires 0 <= t < |s| => StrategyReturn(p1, p2, s, beta, rate, t))
  }

  /** On finite leg returns the strategy return of date `t` is the previous date's
      signal times the hedged leg return, less the turnover cost: the position taken
      on a date earns from the next date on, never on the date of the signal. */
  lemma ReturnUsesPreviousSignal(p1: seq<real>, p2: seq<real>, s: seq<int>, beta: real, rate: real, t: nat)
    requires |p1| == |p2| == |s| && 0 < t < |s|
    requires p1[t - 1] != 0.0 && p2[t - 1] != 0.0
    ensures var w := LegWeights(beta);
      var g1 := p1[t] / p1[t - 1] - 1.0;
      var g2 := p2[t] / p2[t - 1] - 1.0;
      StrategyReturn(p1, p2, s, beta, rate, t)
        == Fin(s[t - 1] as real * (w.w1 * g1 - w.w2 * g2) - Abs((s[t] - s[t - 1]) as real) * rate)
  {
  }

  /** A date that starts and ends flat earns exactly nothing, whatever the prices do
      (as long as the previous closes are non-zero). */
  lemma FlatDateEarnsNothing(p1: seq<real>, p2: seq<real>, s: seq<int>, beta: real, rate: real, t: nat)
    requires |p1| == |p2| == |s| && 0 < t < |s|
    requires p1[t - 1] != 0.0 && p2[t - 1] != 0.0
    requires s[t - 1] == 0 && s[t] == 0
    ensures StrategyReturn(p1, p2, s, beta, rate, t) == Fin(0.0)
  {
  }

  /** With a hedge ratio of 1 the weights are equal, so a date on which both legs move
      by the same fraction earns nothing but pays the cost. */
  lemma CommonMoveHedged(p1: seq<real>, p2: seq<real>, s: seq<int>, rate: real, t: nat)
    requires |p1| == |p2| == |s| && 0 < t < |s|
    requires p1[t - 1] != 0.0 && p2[t - 1] != 0.0
    requires p1[t] / p1[t - 1] == p2[t] / p2[t - 1]
    ensures StrategyReturn(p1, p2, s, 1.0, rate, t) == Fin(-TransactionCost(s, 1.0, rate, t))
  {
    var w := LegWeights(1.0);
    assert w.w1 == w.w2;
    ReturnUsesPreviousSignal(p1, p2, s, 1.0, rate, t);
  }

  /** The transaction costs of all dates. */
  function Costs(s: seq<int>, beta: real, rate: real): (c: seq<real>)
    ensures |c| == |s|
    ensures forall t :: 0 <= t < |s| ==> c[t] == Abs(Change(s, t) as real) * rate
  {
    seq(|s|, t requires 0 <= t < |s| => TransactionCost(s, beta, rate, t))
  }

  /** When the signal never moves by more than one unit in a date, as the state
      machine guarantees, the costs over the whole run add up to the rate times the
      number of trades counted by the pipeline. */
  lemma TotalCostIsTradeCount(s: seq<int>, beta: real, rate: real)
    requires forall t :: 0 <= t < |s| ==> -1 <= Change(s, t) <= 1
    ensures Sum(Costs(s, beta, rate)) == rate * Signals.TradeCount(s) as real
  {
    var c := Costs(s, beta, rate);
    forall t | 0 <= t < |s|
      ensures c[t] == if Change(s, t) == 0 then 0.0 else rate
    {
      assert Abs(Change(s, t) as real) == if Change(s, t) == 0 then 0.0 else 1.0;
    }
    TurnoverCost(s, c, rate);
  }

  /** A series charging `rate` on each date whose signal changes sums to the rate
      times the number of changes. */
  lemma {:induction false} TurnoverCost(s: seq<int>, c: seq<real>, rate: real)
    requires |c| == |s|
    requires forall t :: 0 <= t < |s| ==> c[t] == if Change(s, t) == 0 then 0.0 else rate
    ensures Sum(c) == Prod(rate, Signals.TradeCount(s) as real)
  {
    if |s| >= 2 {
      var n := |s| - 1;
      var p := s[..n];
      assert Sum(c[..n]) == Prod(rate, Signals.TradeCount(p) as real) by {
        assert forall t :: 0 <= t < |p| ==> Change(p, t) == Change(s, t);
        TurnoverCost(p, c[..n], rate);
      }
      assert Sum(c) == Sum(c[..n]) + c[n];
      if s[n] != s[n - 1] {
        assert Signals.TradeCount(s) == Signals.TradeCount(p) + 1;
        OneMoreTrade(rate, Signals.TradeCount(p) as real);
      } else {
        assert Signals.TradeCount(s) == Signals.TradeCount(p);
      }
    } else if |s| == 1 {
      assert Sum(c) == Sum(c[..0]) + c[0];
    }
  }

  lemma OneMoreTrade(rate: real, k: real)
    ensures Prod(rate, k) + rate == Prod(rate, k + 1.0)
  {
  }

  /** One date of `calculate_position_exposures`. */
  datatype Exposure = Exposure(pos1: real, pos2: real, exp1: real, exp2: real, net: real, gross: real)

  /** The leg positions of one date: the signal times the weights, leg 2 with its
      sign flipped, so that it is short beta units of leg 1's notional. */
  function LegPositions(s: int, beta: real): (pos: (real, real))
    ensures pos.1 == -beta * pos.0
    ensures pos.0 * (1.0 + Abs(beta)) == s as real
    ensures s == 0 ==> pos == (0.0, 0.0)
  {
    var w := LegWeights(beta);
    var a := s as real;
    assert -a * w.w2 == -beta * (a * w.w1) by {
      assert w.w2 == beta * w.w1;
    }
    assert a * w.w1 * (1.0 + Abs(beta)) == a by {
      assert w.w1 * (1.0 + Abs(beta)) == 1.0;
    }
    (a * w.w1, -a * w.w2)
  }

  /** The exposures of one date: the leg positions, and each exposure as position
      times price. The gross exposure bounds the net one, and a flat date carries no
      exposure at all. */
  function ExposureAt(s: int, p1: real, p2: real, beta: real): (e: Exposure)
    ensures e.pos2 == -beta * e.pos1
    ensures e.pos1 * (1.0 + Abs(beta)) == s as real
    ensures e.exp1 == Prod(e.pos1, p1) && e.exp2 == Prod(e.pos2, p2)
    ensures e.net == e.exp1 + e.exp2 && e.gross == Abs(e.exp1) + Abs(e.exp2)
    ensures e.gross >= Abs(e.net)
    ensures s == 0 ==> e == Exposure(0.0, 0.0, 0.0, 0.0, 0.0, 0.0)
  {
    var pos := LegPositions(s, beta);
    var exp1 := Prod(pos.0, p1);
    var exp2 := Prod(pos.1, p2);
    Exposure(pos.0, pos.1, exp1, exp2, exp1 + exp2, Abs(exp1) + Abs(exp2))
  }

  /** `calculate_position_exposures`: one row per date, each from that date's signal
      and closes only. */
  function CalculatePositionExposures(p1: seq<real>, p2: seq<real>, s: seq<int>, beta: real): (e: seq<Exposure>)
    requires |p1| == |p2| == |s|
    ensures |e| == |s|
    ensures forall t :: 0 <= t < |s| ==> e[t] == ExposureAt(s[t], p1[t], p2[t], beta)
  {
    seq(|s|, t requires 0 <= t < |s| => ExposureAt(s[t], p1[t], p2[t], beta))
  }
}
