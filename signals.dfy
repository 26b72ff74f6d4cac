/** The signal state machine (`generate_signals`). A position of 0 (flat), 1 (long)
    or -1 (short) is carried from date to date. The emitted series is not the
    position: it starts as all zeros and is written only on a date that starts flat
    (with the new position) or on an exit (with 0), so it is non-zero exactly on
    entry dates. */
module Signals {
  import opened Numbers

  /** Entry at z < -enterLong (long) or z > enterShort (short); exit from long at
      z >= exitLong, from short at z <= -exitShort. */
  datatype Thresholds = Thresholds(enterLong: real, enterShort: real, exitLong: real, exitShort: real)

  /** One date of the machine. NaN satisfies no comparison, so it holds the position;
      an entry is only ever taken from flat, so long and short never swap directly. */
  function Step(th: Thresholds, position: int, z: Float): (next: int)
    ensures -1 <= position <= 1 ==> -1 <= next <= 1
    ensures position == 1 ==> next != -1
    ensures position == -1 ==> next != 1
    ensures z.NaN? ==> next == position
  {
    if position == 0 then
      if Less(z, -th.enterLong) then 1
      else if Greater(z, th.enterShort) then -1
      else 0
    else if position == 1 then
      if AtLeast(z, th.exitLong) then 0 else 1
    else if position == -1 then
      if AtMost(z, -th.exitShort) then 0 else -1
    else position
  }

  /** The position after the first `k` dates, starting flat. */
  function PositionAfter(th: Thresholds, z: seq<Float>, k: nat): int
    requires k <= |z|
  {
    if k == 0 then 0 else Step(th, PositionAfter(th, z, k - 1), z[k - 1])
  }

  /** What `generate_signals` leaves at date `i`: the new position when the date
      starts flat, and the initial 0 otherwise. */
  function SignalAt(th: Thresholds, z: seq<Float>, i: nat): int
    requires i < |z|
  {
    if PositionAfter(th, z, i) == 0 then PositionAfter(th, z, i + 1) else 0
  }

  /** `generate_signals`: a zero-filled series and a position counter updated in a
      loop, the series written only on an entry or an exit. */
  method GenerateSignals(th: Thresholds, z: seq<Float>) returns (signals: seq<int>)
    ensures |signals| == |z|
    ensures forall i :: 0 <= i < |z| ==> signals[i] == SignalAt(th, z, i)
  {
    var out := new int[|z|](_ => 0);
    var position := 0;
    for i := 0 to |z|
      invariant position == PositionAfter(th, z, i)
      invariant forall j :: 0 <= j < i ==> out[j] == SignalAt(th, z, j)
      invariant forall j :: i <= j < |z| ==> out[j] == 0
    {
      if position == 0 {
        if Less(z[i], -th.enterLong) {
          position := 1;
          out[i] := 1;
        } else if Greater(z[i], th.enterShort) {
          position := -1;
          out[i] := -1;
        }
      } else if position == 1 {
        if AtLeast(z[i], th.exitLong) {
          position := 0;
          out[i] := 0;
        }
      } else if position == -1 {
        if AtMost(z[i], -th.exitShort) {
          position := 0;
          out[i] := 0;
        }
      }
    }
    signals := out[..];
  }

  /** The position is always flat, long or short. */
  lemma {:induction false} PositionInRange(th: Thresholds, z: seq<Float>, k: nat)
    requires k <= |z|
    ensures -1 <= PositionAfter(th, z, k) <= 1
  {
    if k > 0 {
      PositionInRange(th, z, k - 1);
    }
  }

  /** A signal is -1, 0 or 1; it is non-zero exactly on a date that starts flat and
      ends in a position, and then it is that position. */
  lemma SignalIsEntry(th: Thresholds, z: seq<Float>, i: nat)
    requires i < |z|
    ensures -1 <= SignalAt(th, z, i) <= 1
    ensures SignalAt(th, z, i) != 0 <==> PositionAfter(th, z, i) == 0 && PositionAfter(th, z, i + 1) != 0
    ensures SignalAt(th, z, i) != 0 ==> SignalAt(th, z, i) == PositionAfter(th, z, i + 1)
  {
    PositionInRange(th, z, i + 1);
  }

  /** After an entry the next date starts in a position, so two consecutive dates
      never both carry a signal. */
  lemma NoConsecutiveSignals(th: Thresholds, z: seq<Float>, i: nat)
    requires i + 1 < |z|
    ensures SignalAt(th, z, i) != 0 ==> SignalAt(th, z, i + 1) == 0
  {
  }

  /** Consecutive signals differ by at most one, so every counted trade moves the
      signal by exactly one unit. */
  lemma SignalStepIsUnit(th: Thresholds, z: seq<Float>, i: nat)
    requires 0 < i < |z|
    ensures -1 <= SignalAt(th, z, i) - SignalAt(th, z, i - 1) <= 1
  {
    SignalIsEntry(th, z, i);
    SignalIsEntry(th, z, i - 1);
    NoConsecutiveSignals(th, z, i - 1);
  }

  /** Between a date that ends long and a later date that ends short there is a date
      that ends flat. */
  lemma {:induction false} FlatBetweenLongAndShort(th: Thresholds, z: seq<Float>, i: nat, j: nat)
    requires i < j <= |z|
    requires PositionAfter(th, z, i) == 1 && PositionAfter(th, z, j) == -1
    ensures exists m :: i < m < j && PositionAfter(th, z, m) == 0
  {
    var p := PositionAfter(th, z, j - 1);
    PositionInRange(th, z, j - 1);
    if p == 0 {
      assert i < j - 1;
    } else if p == -1 {
      FlatBetweenLongAndShort(th, z, i, j - 1);
    } else {
      assert false;
    }
  }

  /** The same, from short to long. */
  lemma {:induction false} FlatBetweenShortAndLong(th: Thresholds, z: seq<Float>, i: nat, j: nat)
    requires i < j <= |z|
    requires PositionAfter(th, z, i) == -1 && PositionAfter(th, z, j) == 1
    ensures exists m :: i < m < j && PositionAfter(th, z, m) == 0
  {
    var p := PositionAfter(th, z, j - 1);
    PositionInRange(th, z, j - 1);
    if p == 0 {
      assert i < j - 1;
    } else if p == 1 {
      FlatBetweenShortAndLong(th, z, i, j - 1);
    } else {
      assert false;
    }
  }

  /** While the z-scores are NaN the machine stays flat and emits nothing; so the
      first `lookback` signals are 0 and an all-NaN series gives all-zero signals. */
  lemma {:induction false} UndefinedPrefixSilent(th: Thresholds, z: seq<Float>, k: nat)
    requires k <= |z|
    requires forall j :: 0 <= j < k ==> z[j] == NaN
    ensures PositionAfter(th, z, k) == 0
    ensures forall j :: 0 <= j < k ==> SignalAt(th, z, j) == 0
  {
    if k > 0 {
      UndefinedPrefixSilent(th, z, k - 1);
    }
  }

  /** The number of dates after the first whose signal differs from the previous
      date's (`signals.diff().fillna(0) != 0`, summed). */
  function TradeCount(s: seq<int>): (count: nat)
    ensures count < |s| || count == 0
  {
    if |s| < 2 then 0
    else TradeCount(s[..|s| - 1]) + (if s[|s| - 1] != s[|s| - 2] then 1 else 0)
  }

  /** No trade is counted exactly when the series never changes. */
  lemma {:induction false} TradeCountZero(s: seq<int>)
    ensures TradeCount(s) == 0 <==> forall i :: 1 <= i < |s| ==> s[i] == s[i - 1]
  {
    if |s| >= 2 {
      var p := s[..|s| - 1];
      TradeCountZero(p);
      assert forall i :: 0 <= i < |p| ==> p[i] == s[i];
    }
  }

  /** Over two dates or more, the signal series counts no trade exactly when the
      machine never enters a position. */
  lemma SignalsTradeCount(th: Thresholds, z: seq<Float>, s: seq<int>)
    requires |s| == |z| >= 2
    requires forall i :: 0 <= i < |z| ==> s[i] == SignalAt(th, z, i)
    ensures TradeCount(s) == 0 <==> forall i :: 0 <= i < |z| ==> SignalAt(th, z, i) == 0
  {
    TradeCountZero(s);
    if exists i :: 0 <= i < |z| && SignalAt(th, z, i) != 0 {
      var i :| 0 <= i < |z| && SignalAt(th, z, i) != 0;
      if i == 0 {
        NoConsecutiveSignals(th, z, 0);
        assert s[1] != s[0];
      } else {
        NoConsecutiveSignals(th, z, i - 1);
        assert s[i] != s[i - 1];
      }
    }
  }
}
