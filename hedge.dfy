/** Hedge-ratio estimation (`calculate_hedge_ratio`) and the spread built from it.
    numpy's `cov` normalises by n - 1 while its `var` normalises by n, so the ratio
    is (Sxy / (n - 1)) / (Sxx / n), with Sxy and Sxx the centred cross and square sums. */
module Hedge {
  import opened Numbers

  /** The mean of a non-empty leg, `Numbers.SeriesMean` as a real. */
  function Mean(s: seq<real>): real
    requires |s| > 0
  {
    SeriesMean(s).v
  }

  /** Sum over i of (y[i] - my) * (x[i] - mx). */
  function CoDeviation(y: seq<real>, x: seq<real>, my: real, mx: real): real
    requires |y| == |x|
  {
    if |x| == 0 then 0.0
    else
      var n := |x| - 1;
      CoDeviation(y[..n], x[..n], my, mx) + Prod(y[n] - my, x[n] - mx)
  }

  /** `calculate_hedge_ratio`: cov(y, x) with n - 1 over var(x) with n. Fewer than two
      samples make numpy's covariance NaN; a constant `x` makes it 0 / 0. The ratio is
      never infinite, since a zero variance forces a zero covariance. */
  function HedgeRatio(y: seq<real>, x: seq<real>): (beta: Float)
    requires |y| == |x|
    ensures !beta.PosInf? && !beta.NegInf?
    ensures beta.NaN? <==> |x| < 2 || Constant(x)
  {
    if |x| < 2 then NaN
    else
      var n := |x| as real;
      var sxx := CoDeviation(x, x, Mean(x), Mean(x));
      var sxy := CoDeviation(y, x, Mean(y), Mean(x));
      SquaresNonNegative(x, Mean(x));
      if Constant(x) then
        ConstantIsItsMean(x);
        CoDeviationFlat(y, x, Mean(y), Mean(x));
        CoDeviationFlat(x, x, Mean(x), Mean(x));
        Div(sxy / (n - 1.0), sxx / n)
      else
        assert sxx != 0.0 by {
          if sxx == 0.0 {
            SquaresZeroMeansFlat(x, Mean(x));
          }
        }
        Div(sxy / (n - 1.0), sxx / n)
  }

  /** `spread = y - beta * x`, date by date. */
  function Spread(y: seq<real>, x: seq<real>, beta: real): (s: seq<real>)
    requires |y| == |x|
    ensures |s| == |y|
    ensures forall i :: 0 <= i < |s| ==> s[i] + beta * x[i] == y[i]
  {
    seq(|y|, i requires 0 <= i < |y| => y[i] - beta * x[i])
  }

  /** `y - hedge_ratio * x` with the hedge ratio as numpy holds it, NaN included: a
      NaN ratio gives a NaN spread on every date, and a finite one gives `Spread`. */
  function SpreadSeries(y: seq<real>, x: seq<real>, beta: Float): (s: seq<Float>)
    requires |y| == |x|
    ensures |s| == |y|
    ensures beta.NaN? ==> forall i :: 0 <= i < |s| ==> s[i] == NaN
    ensures beta.Fin? ==> forall i :: 0 <= i < |s| ==> s[i] == Fin(Spread(y, x, beta.v)[i])
  {
    seq(|y|, i requires 0 <= i < |y| => FSub(Fin(y[i]), FMul(beta, Fin(x[i]))))
  }

  /** A sum of squares is never negative. */
  lemma {:induction false} SquaresNonNegative(x: seq<real>, m: real)
    ensures CoDeviation(x, x, m, m) >= 0.0
  {
    if |x| > 0 {
      var n := |x| - 1;
      SquaresNonNegative(x[..n], m);
      if x[n] - m != 0.0 {
        SquarePositive(x[n] - m);
      }
    }
  }

  /** A sum of squares is zero only when every term is. */
  lemma {:induction false} SquaresZeroMeansFlat(x: seq<real>, m: real)
    requires CoDeviation(x, x, m, m) == 0.0
    ensures forall i :: 0 <= i < |x| ==> x[i] == m
  {
    if |x| > 0 {
      var n := |x| - 1;
      SquaresNonNegative(x[..n], m);
      if x[n] - m != 0.0 {
        SquarePositive(x[n] - m);
        assert false;
      }
      SquaresZeroMeansFlat(x[..n], m);
      assert forall i :: 0 <= i < n ==> x[..n][i] == x[i];
    }
  }

  /** When every x[i] sits at its centre, the cross sum vanishes. */
  lemma {:induction false} CoDeviationFlat(y: seq<real>, x: seq<real>, my: real, mx: real)
    requires |y| == |x|
    requires forall i :: 0 <= i < |x| ==> x[i] == mx
    ensures CoDeviation(y, x, my, mx) == 0.0
  {
    if |x| > 0 {
      CoDeviationFlat(y[..|x| - 1], x[..|x| - 1], my, mx);
    }
  }

  /** Every entry of a constant sequence equals its mean. */
  lemma ConstantIsItsMean(x: seq<real>)
    requires |x| > 0 && Constant(x)
    ensures forall i :: 0 <= i < |x| ==> x[i] == Mean(x)
  {
    SumConstant(x, x[0]);
  }

  /** y[i] == c * x[i] + d at every index, stated recursively so that each step
      of an induction meets one product only. */
  predicate OnLine(y: seq<real>, x: seq<real>, c: real, d: real)
    requires |y| == |x|
  {
    |x| == 0 || (OnLine(y[..|x| - 1], x[..|x| - 1], c, d) && y[|x| - 1] == Prod(c, x[|x| - 1]) + d)
  }

  lemma {:induction false} OnLineFromPoints(y: seq<real>, x: seq<real>, c: real, d: real)
    requires |y| == |x|
    requires forall i :: 0 <= i < |x| ==> y[i] == c * x[i] + d
    ensures OnLine(y, x, c, d)
  {
    if |x| > 0 {
      OnLineFromPoints(y[..|x| - 1], x[..|x| - 1], c, d);
    }
  }

  /** The sum of an affine image is the affine image of the sum. */
  lemma {:induction false} LineSum(y: seq<real>, x: seq<real>, c: real, d: real)
    requires |y| == |x| && OnLine(y, x, c, d)
    ensures Sum(y) == Prod(c, Sum(x)) + |x| as real * d
  {
    if |x| > 0 {
      var n := |x| - 1;
      LineSum(y[..n], x[..n], c, d);
      AddToLine(Sum(y[..n]), Sum(x[..n]), y[n], x[n], c, d, n as real);
    }
  }

  /** The cross sum of points on a line is the slope times the sum of squares. */
  lemma {:induction false} LineCoDeviation(y: seq<real>, x: seq<real>, c: real, d: real, mx: real, my: real)
    requires |y| == |x| && OnLine(y, x, c, d) && my == Prod(c, mx) + d
    ensures CoDeviation(y, x, my, mx) == Prod(c, CoDeviation(x, x, mx, mx))
  {
    if |x| > 0 {
      var n := |x| - 1;
      LineCoDeviation(y[..n], x[..n], c, d, mx, my);
      var a := x[n] - mx;
      PointDeviation(y[n], x[n], c, d, mx, my);
      ScaledProduct(y[n] - my, a, c);
      Distribute(CoDeviation(y[..n], x[..n], my, mx), Prod(y[n] - my, a),
                 CoDeviation(x[..n], x[..n], mx, mx), Prod(a, a), c);
    }
  }

  /** When y is exactly c * x + d and x varies, the estimate is c * n / (n - 1), not c:
      the n - 1 of `np.cov` against the n of `np.var` inflates the slope by n / (n - 1). */
  lemma HedgeRatioOfExactLine(y: seq<real>, x: seq<real>, c: real, d: real)
    requires |y| == |x| && |x| >= 2 && !Constant(x)
    requires forall i :: 0 <= i < |x| ==> y[i] == c * x[i] + d
    ensures var n := |x| as real; HedgeRatio(y, x) == Fin(c * n / (n - 1.0))
  {
    OnLineFromPoints(y, x, c, d);
    HedgeRatioOnLine(y, x, c, d);
  }

  lemma HedgeRatioOnLine(y: seq<real>, x: seq<real>, c: real, d: real)
    requires |y| == |x| && |x| >= 2 && !Constant(x) && OnLine(y, x, c, d)
    ensures var n := |x| as real; HedgeRatio(y, x) == Fin(c * n / (n - 1.0))
  {
    var n := |x| as real;
    var mx := Mean(x);
    var sxx := CoDeviation(x, x, mx, mx);
    var sxy := CoDeviation(y, x, Mean(y), mx);
    assert sxy == Prod(c, sxx) by {
      LineSum(y, x, c, d);
      AffineMean(Sum(y), Sum(x), c, d, n);
      LineCoDeviation(y, x, c, d, mx, Mean(y));
    }
    assert sxx != 0.0 by {
      SquaresNonNegative(x, mx);
      if sxx == 0.0 {
        SquaresZeroMeansFlat(x, mx);
      }
    }
    ExactRatio(sxy, sxx, c, n);
  }

  lemma ScaledProduct(b: real, a: real, c: real)
    requires b == Prod(c, a)
    ensures Prod(b, a) == Prod(c, Prod(a, a))
  {
  }

  lemma Distribute(u: real, t: real, sp: real, q: real, c: real)
    requires u == Prod(c, sp) && t == Prod(c, q)
    ensures u + t == Prod(c, sp + q)
  {
  }

  lemma PointDeviation(yv: real, xv: real, c: real, d: real, mx: real, my: real)
    requires yv == Prod(c, xv) + d && my == Prod(c, mx) + d
    ensures yv - my == Prod(c, xv - mx)
  {
  }

  lemma AddToLine(sy: real, sx: real, yv: real, xv: real, c: real, d: real, k: real)
    requires sy == Prod(c, sx) + k * d && yv == Prod(c, xv) + d
    ensures sy + yv == Prod(c, sx + xv) + (k + 1.0) * d
  {
  }

  lemma MulPositive(a: real, b: real)
    requires a > 0.0 && b > 0.0
    ensures Prod(a, b) > 0.0
  {
  }

  lemma SquarePositive(d: real)
    requires d != 0.0
    ensures Prod(d, d) > 0.0
  {
    if d < 0.0 {
      MulPositive(-d, -d);
      assert Prod(-d, -d) == Prod(d, d);
    } else {
      MulPositive(d, d);
    }
  }

  lemma AffineMean(sy: real, sx: real, c: real, d: real, n: real)
    requires n > 0.0 && sy == Prod(c, sx) + n * d
    ensures sy / n == Prod(c, sx / n) + d
  {
  }

  lemma ExactRatio(sxy: real, sxx: real, c: real, n: real)
    requires sxx != 0.0 && n > 1.0 && sxy == Prod(c, sxx)
    ensures Div(sxy / (n - 1.0), sxx / n) == Fin(c * n / (n - 1.0))
  {
    RatioCancels(c, sxx, n);
  }

  lemma RatioCancels(c: real, s: real, n: real)
    requires s != 0.0 && n > 1.0
    ensures Prod(c, s) / (n - 1.0) / (s / n) == c * n / (n - 1.0)
  {
    var a := (c * s) / (n - 1.0);
    var q := n / (n - 1.0);
    assert q * (n - 1.0) == n;
    assert a * (n - 1.0) == c * s;
    assert (c * q * (s / n)) * (n - 1.0) == c * s;
    assert c * q * (s / n) == a;
    assert a / (s / n) == c * q;
  }
}
