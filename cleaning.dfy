/** Pairwise missing-value masking (`prepare_pair_data`): a date is kept only when
    both instruments have a closing price on it. The two price columns come from
    one date-aligned matrix, so they share one date index. */
module Cleaning {
  import opened Numbers

  /** Both legs have a price on this date. */
  predicate Both(y: Option<real>, x: Option<real>) {
    y.Some? && x.Some?
  }

  /** Number of dates before `i` on which both legs have a price; this is also the
      position that date `i` takes in the cleaned series when it is kept. */
  function Kept(ys: seq<Option<real>>, xs: seq<Option<real>>, i: nat): (k: nat)
    requires |ys| == |xs| && i <= |ys|
    ensures k <= i
  {
    if i == 0 then 0
    else Kept(ys, xs, i - 1) + (if Both(ys[i - 1], xs[i - 1]) then 1 else 0)
  }

  /** The two cleaned legs together with their common date index. */
  datatype Cleaned<D> = Cleaned(dates: seq<D>, y: seq<real>, x: seq<real>)

  /** `prepare_pair_data`: keeps, in order, the dates on which neither leg is missing. */
  function PreparePairData<D>(dates: seq<D>, ys: seq<Option<real>>, xs: seq<Option<real>>): (c: Cleaned<D>)
    requires |dates| == |ys| == |xs|
    ensures |c.dates| == |c.y| == |c.x| == Kept(ys, xs, |ys|)
  {
    if |ys| == 0 then Cleaned([], [], [])
    else
      var n := |ys| - 1;
      var rest := PreparePairData(dates[..n], ys[..n], xs[..n]);
      assert Kept(ys[..n], xs[..n], n) == Kept(ys, xs, n) by { KeptPrefix(ys, xs, n, n); }
      if Both(ys[n], xs[n]) then Cleaned(rest.dates + [dates[n]], rest.y + [ys[n].value], rest.x + [xs[n].value])
      else rest
  }

  /** Counting over a prefix of the inputs gives the same count. */
  lemma {:induction false} KeptPrefix(ys: seq<Option<real>>, xs: seq<Option<real>>, m: nat, i: nat)
    requires |ys| == |xs| && i <= m <= |ys|
    ensures Kept(ys[..m], xs[..m], i) == Kept(ys, xs, i)
  {
    if i > 0 {
      KeptPrefix(ys, xs, m, i - 1);
    }
  }

  /** `Kept` never decreases, and it grows past every kept date. */
  lemma {:induction false} KeptMonotone(ys: seq<Option<real>>, xs: seq<Option<real>>, i: nat, j: nat)
    requires |ys| == |xs| && i <= j <= |ys|
    ensures Kept(ys, xs, i) <= Kept(ys, xs, j)
    ensures i < j && Both(ys[i], xs[i]) ==> Kept(ys, xs, i) < Kept(ys, xs, j)
  {
    if i < j {
      KeptMonotone(ys, xs, i, j - 1);
    }
  }

  /** Every date on which both legs are present appears in the cleaned series, at
      position `Kept(i)`, with both of its prices and its date. */
  lemma {:induction false} PreparePairDataKeeps<D>(dates: seq<D>, ys: seq<Option<real>>, xs: seq<Option<real>>, i: nat)
    requires |dates| == |ys| == |xs| && i < |ys| && Both(ys[i], xs[i])
    ensures var c := PreparePairData(dates, ys, xs);
      Kept(ys, xs, i) < |c.y|
      && c.y[Kept(ys, xs, i)] == ys[i].value
      && c.x[Kept(ys, xs, i)] == xs[i].value
      && c.dates[Kept(ys, xs, i)] == dates[i]
  {
    var n := |ys| - 1;
    KeptPrefix(ys, xs, n, n);
    if i < n {
      PreparePairDataKeeps(dates[..n], ys[..n], xs[..n], i);
      KeptPrefix(ys, xs, n, i);
      KeptMonotone(ys, xs, i, n);
    }
  }

  /** Every entry of the cleaned series comes from a date on which both legs are
      present; with `PreparePairDataKeeps` and `KeptMonotone` this says the cleaned
      series is exactly the fully-present dates, in their original order. */
  lemma {:induction false} PreparePairDataOnlyKeeps<D>(dates: seq<D>, ys: seq<Option<real>>, xs: seq<Option<real>>, k: nat)
    requires |dates| == |ys| == |xs| && k < |PreparePairData(dates, ys, xs).y|
    ensures exists i :: 0 <= i < |ys| && Both(ys[i], xs[i]) && Kept(ys, xs, i) == k
  {
    var n := |ys| - 1;
    KeptPrefix(ys, xs, n, n);
    if k < Kept(ys, xs, n) {
      PreparePairDataOnlyKeeps(dates[..n], ys[..n], xs[..n], k);
      var i :| 0 <= i < n && Both(ys[..n][i], xs[..n][i]) && Kept(ys[..n], xs[..n], i) == k;
      KeptPrefix(ys, xs, n, i);
    } else {
      assert Both(ys[n], xs[n]) && Kept(ys, xs, n) == k;
    }
  }
}
