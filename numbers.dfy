/** Numeric vocabulary shared by the strategy engine: missing prices, IEEE-style
    values over the reals (NaN and the two infinities, no rounding), division by
    zero as numpy performs it, the comparisons the strategy makes on such values,
    and sums over sequences of reals. */
module Numbers {

  /** A value that may be missing, such as one instrument's closing price on one date. */
  datatype Option<T> = None | Some(value: T)

  /** A double-precision value seen over the reals: rounding is not modelled, but
      NaN and the infinities that numpy produces on a division by zero are. */
  datatype Float = NaN | NegInf | PosInf | Fin(v: real)

  /** `a < t`; NaN compares false with everything. */
  predicate Less(a: Float, t: real) {
    match a
    case NaN => false
    case NegInf => true
    case PosInf => false
    case Fin(v) => v < t
  }

  /** `a > t`; NaN compares false with everything. */
  predicate Greater(a: Float, t: real) {
    match a
    case NaN => false
    case NegInf => false
    case PosInf => true
    case Fin(v) => v > t
  }

  /** `a >= t`; NaN compares false with everything. */
  predicate AtLeast(a: Float, t: real) {
    match a
    case NaN => false
    case NegInf => false
    case PosInf => true
    case Fin(v) => v >= t
  }

  /** `a <= t`; NaN compares false with everything. */
  predicate AtMost(a: Float, t: real) {
    match a
    case NaN => false
    case NegInf => true
    case PosInf => false
    case Fin(v) => v <= t
  }

  function Abs(x: real): (r: real)
    ensures r >= 0.0 && (r == x || r == -x)
  {
    if x < 0.0 then -x else x
  }

  /** `abs` of a double: NaN stays NaN, either infinity becomes +inf. */
  function FAbs(a: Float): (r: Float)
    ensures r.NaN? <==> a.NaN?
    ensures r.Fin? <==> a.Fin?
    ensures r.Fin? ==> r.v >= 0.0 && (r.v == a.v || r.v == -a.v)
  {
    match a
    case NaN => NaN
    case NegInf => PosInf
    case PosInf => PosInf
    case Fin(v) => Fin(Abs(v))
  }

  /** `a / b` in IEEE arithmetic: a non-zero numerator over zero is an infinity of
      its sign, zero over zero is NaN. */
  function Div(a: real, b: real): (r: Float)
    ensures r.Fin? <==> b != 0.0
    ensures r.Fin? ==> r.v * b == a
    ensures r.NaN? <==> a == 0.0 && b == 0.0
    ensures r.PosInf? <==> b == 0.0 && a > 0.0
    ensures r.NegInf? <==> b == 0.0 && a < 0.0
    ensures b > 0.0 ==> (r.v > 0.0 <==> a > 0.0) && (r.v < 0.0 <==> a < 0.0)
  {
    if b > 0.0 then
      Quotient(a, b);
      Fin(a / b)
    else if b != 0.0 then Fin(a / b)
    else if a > 0.0 then PosInf
    else if a < 0.0 then NegInf
    else NaN
  }

  /** `-a`. */
  function FNeg(a: Float): (r: Float)
    ensures r.NaN? <==> a.NaN?
    ensures r.PosInf? <==> a.NegInf?
    ensures r.NegInf? <==> a.PosInf?
    ensures r.Fin? ==> r.v == -a.v
  {
    match a
    case NaN => NaN
    case NegInf => PosInf
    case PosInf => NegInf
    case Fin(v) => Fin(-v)
  }

  /** `a + b`: NaN absorbs, opposite infinities give NaN, an infinity absorbs any
      finite value. */
  function FAdd(a: Float, b: Float): (r: Float)
    ensures r.Fin? <==> a.Fin? && b.Fin?
    ensures r.Fin? ==> r.v == a.v + b.v
    ensures r.NaN? <==> a.NaN? || b.NaN? || (a.PosInf? && b.NegInf?) || (a.NegInf? && b.PosInf?)
  {
    if a.NaN? || b.NaN? then NaN
    else if a.Fin? && b.Fin? then Fin(a.v + b.v)
    else if a.Fin? then b
    else if b.Fin? || a == b then a
    else NaN
  }

  /** `a - b`. */
  function FSub(a: Float, b: Float): (r: Float)
    ensures r.Fin? <==> a.Fin? && b.Fin?
    ensures r.Fin? ==> r.v == a.v - b.v
    ensures r.NaN? <==> a.NaN? || b.NaN? || (a.PosInf? && b.PosInf?) || (a.NegInf? && b.NegInf?)
  {
    FAdd(a, FNeg(b))
  }

  /** The sign of a non-NaN value: 1, 0 or -1. */
  function Sign(a: Float): int
    requires !a.NaN?
  {
    match a
    case NegInf => -1
    case PosInf => 1
    case Fin(v) => if v > 0.0 then 1 else if v < 0.0 then -1 else 0
  }

  /** `a * b`: NaN absorbs, zero times an infinity is NaN, and otherwise an infinite
      operand gives an infinity carrying the product of the signs. */
  function FMul(a: Float, b: Float): (r: Float)
    ensures r.Fin? <==> a.Fin? && b.Fin?
    ensures r.Fin? ==> r.v == a.v * b.v
    ensures r.NaN? <==> a.NaN? || b.NaN? || (!a.Fin? && b == Fin(0.0)) || (a == Fin(0.0) && !b.Fin?)
    ensures !r.Fin? && !r.NaN? ==> Sign(r) == Sign(a) * Sign(b)
  {
    if a.NaN? || b.NaN? then NaN
    else if a.Fin? && b.Fin? then Fin(a.v * b.v)
    else if a == Fin(0.0) || b == Fin(0.0) then NaN
    else if Sign(a) * Sign(b) > 0 then PosInf
    else NegInf
  }

  /** A product of two reals, kept behind a name so that facts about products of
      unknowns stay apart from the rest of the arithmetic. */
  function Prod(a: real, b: real): real
  {
    a * b
  }

  /** Sum of a sequence of reals, accumulated from the front. */
  function Sum(s: seq<real>): real
  {
    if |s| == 0 then 0.0 else Sum(s[..|s| - 1]) + s[|s| - 1]
  }

  /** pandas' `mean()` of a series without missing values: NaN when it is empty. */
  function SeriesMean(w: seq<real>): (m: Float)
    ensures m.Fin? <==> |w| > 0
    ensures m.Fin? ==> m.v * |w| as real == Sum(w)
    ensures !m.PosInf? && !m.NegInf?
  {
    if |w| == 0 then NaN else Fin(Sum(w) / |w| as real)
  }

  /** Number of finite entries before position `i`; this is also the position that
      entry `i` takes once the undefined entries are dropped, when it is kept. */
  function Defined(r: seq<Float>, i: nat): (k: nat)
    requires i <= |r|
    ensures k <= i
  {
    if i == 0 then 0 else Defined(r, i - 1) + (if r[i - 1].Fin? then 1 else 0)
  }

  /** `dropna()`: keeps the finite values, in order. */
  function DropUndefined(r: seq<Float>): (d: seq<real>)
    ensures |d| == Defined(r, |r|)
    ensures (forall i :: 0 <= i < |r| ==> r[i].Fin?) ==> |d| == |r|
    ensures (forall i :: 0 <= i < |r| ==> r[i].Fin?) ==> forall i :: 0 <= i < |r| ==> d[i] == r[i].v
  {
    if |r| == 0 then []
    else
      var n := |r| - 1;
      var rest := DropUndefined(r[..n]);
      assert Defined(r[..n], n) == Defined(r, n) by { DefinedPrefix(r, n, n); }
      assert (forall i :: 0 <= i < |r| ==> r[i].Fin?) ==> forall i :: 0 <= i < n ==> r[..n][i] == r[i];
      if r[n].Fin? then rest + [r[n].v] else rest
  }

  /** Counting over a prefix gives the same count. */
  lemma {:induction false} DefinedPrefix(r: seq<Float>, m: nat, i: nat)
    requires i <= m <= |r|
    ensures Defined(r[..m], i) == Defined(r, i)
  {
    if i > 0 {
      DefinedPrefix(r, m, i - 1);
    }
  }

  /** `Defined` never decreases, and it grows past every finite entry. */
  lemma {:induction false} DefinedMonotone(r: seq<Float>, i: nat, j: nat)
    requires i <= j <= |r|
    ensures Defined(r, i) <= Defined(r, j)
    ensures i < j && r[i].Fin? ==> Defined(r, i) < Defined(r, j)
  {
    if i < j {
      DefinedMonotone(r, i, j - 1);
    }
  }

  /** Every finite entry survives `dropna()`, at its rank among the finite entries. */
  lemma {:induction false} DropUndefinedKeeps(r: seq<Float>, i: nat)
    requires i < |r| && r[i].Fin?
    ensures Defined(r, i) < |DropUndefined(r)| && DropUndefined(r)[Defined(r, i)] == r[i].v
  {
    var n := |r| - 1;
    DefinedPrefix(r, n, n);
    if i < n {
      DropUndefinedKeeps(r[..n], i);
      DefinedPrefix(r, n, i);
      DefinedMonotone(r, i, n);
    }
  }

  /** Every value left by `dropna()` is a finite entry of the input, at its rank. */
  lemma {:induction false} DropUndefinedOnlyKeeps(r: seq<Float>, k: nat)
    requires k < |DropUndefined(r)|
    ensures exists i :: 0 <= i < |r| && r[i].Fin? && Defined(r, i) == k && DropUndefined(r)[k] == r[i].v
  {
    var n := |r| - 1;
    DefinedPrefix(r, n, n);
    if k < Defined(r, n) {
      DropUndefinedOnlyKeeps(r[..n], k);
      var i :| 0 <= i < n && r[..n][i].Fin? && Defined(r[..n], i) == k && DropUndefined(r[..n])[k] == r[..n][i].v;
      DefinedPrefix(r, n, i);
      DropUndefinedKeeps(r, i);
    } else {
      assert r[n].Fin? && Defined(r, n) == k;
      DropUndefinedKeeps(r, n);
    }
  }

  /** A sequence all of whose entries are equal. */
  predicate Constant(s: seq<real>) {
    forall i, j :: 0 <= i < |s| && 0 <= j < |s| ==> s[i] == s[j]
  }

  /** The sum of `n` copies of `c` is `n * c`. */
  lemma {:induction false} SumConstant(s: seq<real>, c: real)
    requires forall i :: 0 <= i < |s| ==> s[i] == c
    ensures Sum(s) == |s| as real * c
  {
    if |s| > 0 {
      SumConstant(s[..|s| - 1], c);
    }
  }

  /** Dividing by a positive number: the quotient multiplies back and keeps the
      dividend's sign. */
  lemma Quotient(a: real, b: real)
    requires b > 0.0
    ensures a / b * b == a
    ensures a / b > 0.0 <==> a > 0.0
    ensures a / b < 0.0 <==> a < 0.0
  {
    if a > 0.0 {
      assert a / b * b == a;
    } else if a < 0.0 {
      assert a / b * b == a;
    }
  }
}
