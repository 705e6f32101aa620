/** The backtest's streaming drawdown (crates/ssm-execution/src/backtest.rs:289-314) against
    its definition over the whole equity history. */
module Drawdown {
  import opened Domain

  datatype Tracker = Tracker(
    peak: real, maxDd: real, maxDdPct: real, start: Option<nat>, maxDuration: nat)

  function Pct(peak: real, equity: real): real
    requires peak != 0.0
  {
    (peak - equity) / peak * 100.0
  }

  function Begin(equity: real): Tracker {
    Tracker(equity, 0.0, 0.0, None, 0)
  }

  /** One equity reading, at candle `i`. The start of a drawdown is forgotten only at a
      strictly new peak. */
  function Track(t: Tracker, equity: real, i: nat): Tracker {
    var peak := if equity > t.peak then equity else t.peak;
    var start := if equity > t.peak then None else t.start;
    if peak > 0.0 then
      var dd := peak - equity;
      var first := if dd > 0.0 && start.None? then Some(i) else start;
      Tracker(
        peak,
        if dd > t.maxDd then dd else t.maxDd,
        if Pct(peak, equity) > t.maxDdPct then Pct(peak, equity) else t.maxDdPct,
        first,
        if dd > 0.0 && first.value <= i && i - first.value + 1 > t.maxDuration
        then i - first.value + 1 else t.maxDuration)
    else
      t.(peak := peak, start := start)
  }

  /** `es[0]` is the initial balance; `es[i]` the equity at candle `i`. */
  function TrackAll(es: seq<real>): Tracker
    requires es != []
  {
    if |es| == 1 then Begin(es[0]) else Track(TrackAll(Front(es)), Last(es), |es| - 1)
  }

  // ---------------------------------------------------------------------
  // The definitions
  // ---------------------------------------------------------------------

  function Peak(es: seq<real>, i: nat): real
    requires i < |es|
  {
    if i == 0 then es[0] else Max(Peak(es, i - 1), es[i])
  }

  predicate Underwater(es: seq<real>, i: nat)
    requires i < |es|
  {
    es[i] < Peak(es, i)
  }

  /** Underwater at `s` and at `i`, with no strictly new peak in between. */
  ghost predicate IsSpan(es: seq<real>, s: nat, i: nat) {
    s <= i < |es| && Underwater(es, s) && Underwater(es, i) && Peak(es, s) == Peak(es, i)
  }

  lemma {:induction false} PeakIsPrefixMaximum(es: seq<real>, i: nat) returns (j: nat)
    requires i < |es|
    ensures j <= i && es[j] == Peak(es, i)
    ensures forall k :: 0 <= k <= i ==> es[k] <= Peak(es, i)
  {
    if i == 0 {
      j := 0;
    } else {
      j := PeakIsPrefixMaximum(es, i - 1);
      if es[i] > Peak(es, i - 1) {
        j := i;
      }
    }
  }

  lemma {:induction false} PeakOfPrefix(es: seq<real>, i: nat)
    requires i + 1 < |es|
    ensures Peak(es, i) == Peak(Front(es), i)
  {
    if i > 0 {
      PeakOfPrefix(es, i - 1);
    }
  }

  lemma {:induction false} PeakGrows(es: seq<real>, i: nat, j: nat)
    requires i <= j < |es|
    ensures Peak(es, i) <= Peak(es, j)
    decreases j - i
  {
    if i < j {
      PeakGrows(es, i, j - 1);
    }
  }

  // ---------------------------------------------------------------------
  // Depth
  // ---------------------------------------------------------------------

  ghost predicate PeakAgrees(es: seq<real>, peak: real)
    requires es != []
  {
    peak == Peak(es, |es| - 1) && forall i :: 0 <= i < |es| ==> Peak(es, i) > 0.0
  }

  ghost predicate DepthAgrees(es: seq<real>, maxDd: real) {
    && (forall i :: 0 <= i < |es| ==> Peak(es, i) - es[i] <= maxDd)
    && (exists i :: 0 <= i < |es| && Peak(es, i) - es[i] == maxDd)
  }

  ghost predicate PctAgrees(es: seq<real>, maxDdPct: real) {
    && (forall i :: 0 <= i < |es| ==> Peak(es, i) > 0.0 && Pct(Peak(es, i), es[i]) <= maxDdPct)
    && (exists i :: 0 <= i < |es| && Pct(Peak(es, i), es[i]) == maxDdPct)
  }

  lemma PrefixPeaks(es: seq<real>)
    requires 1 < |es|
    ensures forall i :: 0 <= i < |es| - 1 ==> Peak(es, i) == Peak(Front(es), i) && es[i] == Front(es)[i]
  {
    forall i | 0 <= i < |es| - 1
      ensures Peak(es, i) == Peak(Front(es), i) && es[i] == Front(es)[i]
    {
      PeakOfPrefix(es, i);
    }
  }

  lemma DepthStep(es: seq<real>, maxDd: real)
    requires 1 < |es| && DepthAgrees(Front(es), maxDd)
    ensures var dd := Peak(es, |es| - 1) - Last(es);
      DepthAgrees(es, if dd > maxDd then dd else maxDd)
  {
    PrefixPeaks(es);
    var n := |es| - 1;
    var a :| 0 <= a < n && Peak(Front(es), a) - Front(es)[a] == maxDd;
    assert Peak(es, a) - es[a] == maxDd && Peak(es, n) - es[n] == Peak(es, n) - Last(es);
  }

  lemma PctStep(es: seq<real>, maxDdPct: real)
    requires 1 < |es| && PctAgrees(Front(es), maxDdPct) && Peak(es, |es| - 1) > 0.0
    ensures var pct := Pct(Peak(es, |es| - 1), Last(es));
      PctAgrees(es, if pct > maxDdPct then pct else maxDdPct)
  {
    PrefixPeaks(es);
    var n := |es| - 1;
    var a :| 0 <= a < n && Pct(Peak(Front(es), a), Front(es)[a]) == maxDdPct;
    assert Pct(Peak(es, a), es[a]) == maxDdPct && Pct(Peak(es, n), es[n]) == Pct(Peak(es, n), Last(es));
  }

  lemma {:induction false} DepthIsTracked(es: seq<real>)
    requires es != [] && es[0] > 0.0
    ensures var t := TrackAll(es);
      PeakAgrees(es, t.peak) && DepthAgrees(es, t.maxDd) && PctAgrees(es, t.maxDdPct)
  {
    if |es| == 1 {
      assert Peak(es, 0) - es[0] == 0.0 && Pct(Peak(es, 0), es[0]) == 0.0;
    } else {
      DepthIsTracked(Front(es));
      PrefixPeaks(es);
      var t := TrackAll(Front(es));
      DepthStep(es, t.maxDd);
      PctStep(es, t.maxDdPct);
    }
  }

  /** The largest fall from an earlier equity to a later one; 0 if equity never falls. */
  ghost predicate LargestFall(es: seq<real>, fall: real) {
    && (forall j, i :: 0 <= j <= i < |es| ==> es[j] - es[i] <= fall)
    && (exists j, i :: 0 <= j <= i < |es| && es[j] - es[i] == fall)
  }

  /** `max_drawdown` is the largest fall; `max_drawdown_pct` is the largest fall from the
      highest equity so far, in percent of it. */
  lemma MaxDrawdownIsLargestFall(es: seq<real>)
    requires es != [] && es[0] > 0.0
    ensures LargestFall(es, TrackAll(es).maxDd) && PctAgrees(es, TrackAll(es).maxDdPct)
  {
    DepthIsTracked(es);
    var t := TrackAll(es);
    forall j, i | 0 <= j <= i < |es|
      ensures es[j] - es[i] <= t.maxDd
    {
      var top := PeakIsPrefixMaximum(es, i);
    }
    var i :| 0 <= i < |es| && Peak(es, i) - es[i] == t.maxDd;
    var j := PeakIsPrefixMaximum(es, i);
    assert es[j] - es[i] == t.maxDd;
  }

  // ---------------------------------------------------------------------
  // Duration
  // ---------------------------------------------------------------------

  /** `start` is the first underwater candle since the last strictly new peak. */
  ghost predicate StartAgrees(es: seq<real>, t: Tracker)
    requires es != []
  {
    var n := |es| - 1;
    match t.start
    case None => forall k :: 0 <= k <= n && Peak(es, k) == Peak(es, n) ==> !Underwater(es, k)
    case Some(s) =>
      && s <= n && Underwater(es, s) && Peak(es, s) == Peak(es, n)
      && (forall k :: 0 <= k < s && Peak(es, k) == Peak(es, n) ==> !Underwater(es, k))
  }

  /** The longest inclusive span between two underwater candles with no strictly new peak in
      between; 0 if equity is never underwater. */
  ghost predicate LongestSpan(es: seq<real>, longest: nat) {
    && (forall s: nat, i: nat :: IsSpan(es, s, i) ==> i - s + 1 <= longest)
    && (longest > 0 ==> exists s: nat, i: nat :: IsSpan(es, s, i) && i - s + 1 == longest)
  }

  ghost predicate DurationAgrees(es: seq<real>, t: Tracker)
    requires es != []
  {
    && t.peak == Peak(es, |es| - 1) > 0.0
    && StartAgrees(es, t)
    && LongestSpan(es, t.maxDuration)
  }

  lemma SpansOfPrefix(es: seq<real>)
    requires 1 < |es|
    ensures forall s: nat, i: nat :: i + 1 < |es| ==> (IsSpan(es, s, i) <==> IsSpan(Front(es), s, i))
    ensures forall i: nat :: i + 1 < |es| ==> Peak(es, i) == Peak(Front(es), i)
  {
    forall i: nat | i + 1 < |es|
      ensures Peak(es, i) == Peak(Front(es), i) && es[i] == Front(es)[i]
    {
      PeakOfPrefix(es, i);
    }
  }

  lemma StartStep(es: seq<real>, t: Tracker)
    requires 1 < |es| && t.peak == Peak(Front(es), |es| - 2) > 0.0 && StartAgrees(Front(es), t)
    ensures var t' := Track(t, Last(es), |es| - 1);
      t'.peak == Peak(es, |es| - 1) > 0.0 && StartAgrees(es, t')
  {
    SpansOfPrefix(es);
    var n := |es| - 1;
    forall k | 0 <= k < n
      ensures Peak(es, k) <= Peak(es, n - 1)
    {
      PeakGrows(es, k, n - 1);
    }
  }

  lemma DurationStep(es: seq<real>, t: Tracker)
    requires 1 < |es| && DurationAgrees(Front(es), t)
    ensures DurationAgrees(es, Track(t, Last(es), |es| - 1))
  {
    SpansOfPrefix(es);
    StartStep(es, t);
    var n, t' := |es| - 1, Track(t, Last(es), |es| - 1);
    forall s: nat, i: nat | IsSpan(es, s, i)
      ensures i - s + 1 <= t'.maxDuration
    {
      if i == n {
        assert t'.start.Some? && t'.start.value <= s;
      } else {
        assert IsSpan(Front(es), s, i);
      }
    }
    if t'.maxDuration != t.maxDuration {
      assert IsSpan(es, t'.start.value, n);
    } else if t.maxDuration > 0 {
      var s: nat, i: nat :| IsSpan(Front(es), s, i) && i - s + 1 == t.maxDuration;
      assert IsSpan(es, s, i);
    }
  }

  lemma {:induction false} DurationIsTracked(es: seq<real>)
    requires es != [] && es[0] > 0.0
    ensures DurationAgrees(es, TrackAll(es))
  {
    if |es| == 1 {
      assert forall s: nat, i: nat :: !IsSpan(es, s, i);
    } else {
      DurationIsTracked(Front(es));
      DurationStep(es, TrackAll(Front(es)));
    }
  }

  /** `max_drawdown_duration` is the longest span. */
  lemma MaxDurationIsLongestSpan(es: seq<real>)
    requires es != [] && es[0] > 0.0
    ensures LongestSpan(es, TrackAll(es).maxDuration)
  {
    DurationIsTracked(es);
  }

  /** The percentage is the fall per hundred of the peak. */
  lemma PctIsPercentOfPeak(peak: real, equity: real)
    requires peak != 0.0
    ensures Pct(peak, equity) * peak == 100.0 * (peak - equity)
  {
    assert (peak - equity) / peak * peak == peak - equity;
  }
}
