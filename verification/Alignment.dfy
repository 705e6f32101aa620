/** Alignment of coarse buckets with base candles (crates/ssm-ai/src/multi_timeframe.rs:136-168):
    a base candle may use only a bucket that closed before it opened. */
module Alignment {
  import opened MachineWords
  import opened Domain
  import opened Candles

  predicate ClosedBefore(bucket: Candle, base: Candle) {
    bucket.closeTime <= base.openTime
  }

  /** Where the coarse cursor stops when it is moved on for one base candle. */
  function Advance(higher: seq<Candle>, hi: nat, base: Candle): (h: nat)
    requires hi < |higher|
    ensures hi <= h < |higher|
    decreases |higher| - hi
  {
    if hi + 1 < |higher| && ClosedBefore(higher[hi + 1], base) then Advance(higher, hi + 1, base) else hi
  }

  /** The coarse cursor after the first `n` base candles. */
  function Cursor(base: seq<Candle>, higher: seq<Candle>, n: nat): (h: nat)
    requires n <= |base| && higher != []
    ensures h < |higher|
  {
    if n == 0 then 0 else Advance(higher, Cursor(base, higher, n - 1), base[n - 1])
  }

  /** The bucket aligned with base candle `i`, given `rows` feature rows. */
  function Aligned(base: seq<Candle>, higher: seq<Candle>, rows: nat, i: nat): Option<nat>
    requires i < |base|
  {
    if higher == [] || rows == 0 then None
    else
      var h := Cursor(base, higher, i + 1);
      if ClosedBefore(higher[h], base[i]) && h < rows then Some(h) else None
  }

  method AlignHigherTf(baseCandles: seq<Candle>, higherCandles: seq<Candle>, rows: nat)
      returns (aligned: seq<Option<nat>>)
    ensures |aligned| == |baseCandles|
    ensures forall i :: 0 <= i < |baseCandles| ==>
      aligned[i] == Aligned(baseCandles, higherCandles, rows, i)
  {
    if higherCandles == [] || rows == 0 {
      return seq(|baseCandles|, _ => None);
    }
    aligned := [];
    var hiIdx := 0;
    for i := 0 to |baseCandles|
      invariant |aligned| == i && hiIdx == Cursor(baseCandles, higherCandles, i)
      invariant forall j :: 0 <= j < i ==>
        aligned[j] == Aligned(baseCandles, higherCandles, rows, j)
    {
      var base := baseCandles[i];
      ghost var target := Cursor(baseCandles, higherCandles, i + 1);
      while hiIdx + 1 < |higherCandles| && higherCandles[hiIdx + 1].closeTime <= base.openTime
        invariant hiIdx < |higherCandles| && Advance(higherCandles, hiIdx, base) == target
      {
        hiIdx := hiIdx + 1;
      }
      if higherCandles[hiIdx].closeTime <= base.openTime && hiIdx < rows {
        aligned := aligned + [Some(hiIdx)];
      } else {
        aligned := aligned + [None];
      }
    }
  }

  // ---------------------------------------------------------------------
  // The scan finds the last closed bucket
  // ---------------------------------------------------------------------

  ghost predicate OpensInOrder(cs: seq<Candle>) {
    forall i, j :: 0 <= i < j < |cs| ==> cs[i].openTime <= cs[j].openTime
  }

  ghost predicate ClosesInOrder(cs: seq<Candle>) {
    forall i, j :: 0 <= i < j < |cs| ==> cs[i].closeTime <= cs[j].closeTime
  }

  /** Bucket `h` closed before the candle opened and every later bucket did not. */
  ghost predicate IsLastClosed(higher: seq<Candle>, base: Candle, h: nat) {
    && h < |higher| && ClosedBefore(higher[h], base)
    && (forall k :: h < k < |higher| ==> !ClosedBefore(higher[k], base))
  }

  lemma {:induction false} AdvanceStopsAtUnclosed(higher: seq<Candle>, hi: nat, base: Candle)
    requires hi < |higher| && ClosesInOrder(higher)
    ensures var h := Advance(higher, hi, base);
      && (forall k :: h < k < |higher| ==> !ClosedBefore(higher[k], base))
      && (h > hi ==> ClosedBefore(higher[h], base))
    decreases |higher| - hi
  {
    if hi + 1 < |higher| && ClosedBefore(higher[hi + 1], base) {
      AdvanceStopsAtUnclosed(higher, hi + 1, base);
    }
  }

  lemma {:induction false} CursorIsClosedOrFirst(base: seq<Candle>, higher: seq<Candle>, n: nat)
    requires 0 < n <= |base| && higher != [] && ClosesInOrder(higher) && OpensInOrder(base)
    ensures var h := Cursor(base, higher, n);
      && (forall k :: h < k < |higher| ==> !ClosedBefore(higher[k], base[n - 1]))
      && (h > 0 ==> ClosedBefore(higher[h], base[n - 1]))
  {
    AdvanceStopsAtUnclosed(higher, Cursor(base, higher, n - 1), base[n - 1]);
    if n > 1 {
      CursorIsClosedOrFirst(base, higher, n - 1);
    }
  }

  /** The two-cursor scan picks exactly the last bucket that closed before the base candle
      opened, if there is one and its number is below the number of feature rows. */
  lemma {:induction false} ScanFindsLastClosed(base: seq<Candle>, higher: seq<Candle>, rows: nat, i: nat)
    requires i < |base| && OpensInOrder(base) && ClosesInOrder(higher)
    ensures forall h: nat ::
      Aligned(base, higher, rows, i) == Some(h) <==> h < rows && IsLastClosed(higher, base[i], h)
  {
    if higher != [] {
      CursorIsClosedOrFirst(base, higher, i + 1);
    }
  }

  // ---------------------------------------------------------------------
  // No repainting
  // ---------------------------------------------------------------------

  /** Feature extraction returns one row per bucket of the last `window` buckets. */
  function Rows(higher: seq<Candle>, window: nat): nat {
    if |higher| < window then |higher| else window
  }

  /** The bucket that feature row `r` describes. */
  function RowBucket(higher: seq<Candle>, window: nat, r: nat): (b: nat)
    requires r < Rows(higher, window)
    ensures b < |higher|
  {
    |higher| - Rows(higher, window) + r
  }

  /** The number picked for candle `i` when all of `base` is known: found as a bucket number,
      used as a row number. */
  function Pick(base: seq<Candle>, interval: nat, window: nat, i: nat): Option<nat>
    requires 0 < interval && i < |base|
  {
    var higher := Resample(base, interval);
    Aligned(base, higher, Rows(higher, window), i)
  }

  lemma {:induction false} GroupsOfPrefix(cs: seq<Candle>, interval: nat, m: nat)
    requires 0 < interval && 0 < m <= |cs|
    ensures var p, f := Groups(cs[..m], interval), Groups(cs, interval);
      p != [] && |p| <= |f| && Front(p) == f[..|p| - 1]
    decreases |cs|
  {
    hide TruncDiv;
    if m == |cs| {
      assert cs[..m] == cs;
    } else {
      GroupsOfPrefix(Front(cs), interval, m);
      assert Front(cs)[..m] == cs[..m];
      var g, g' := Groups(Front(cs), interval), Groups(cs, interval);
      var k := |Groups(cs[..m], interval)| - 1;
      assert g'[..k] == g[..k];
    }
  }

  /** More candles keep all buckets but the last, and only extend the last. */
  lemma {:induction false} BucketsOfPrefix(cs: seq<Candle>, interval: nat, m: nat)
    requires 0 < interval && 0 < m <= |cs|
    ensures var p, f := Resample(cs[..m], interval), Resample(cs, interval);
      p != [] && |p| <= |f| && Front(p) == f[..|p| - 1]
    ensures |Groups(cs[..m], interval)| == |Resample(cs[..m], interval)|
  {
    hide TruncDiv;
    ResampleSummarisesGroups(cs[..m], interval);
    ResampleSummarisesGroups(cs, interval);
    GroupsOfPrefix(cs, interval, m);
    var p, f := Groups(cs[..m], interval), Groups(cs, interval);
    SummariesOfPrefix(p, f, |p| - 1);
  }

  lemma {:induction false} SummariesOfPrefix(p: seq<seq<Candle>>, f: seq<seq<Candle>>, k: nat)
    requires k <= |p| && k <= |f| && p[..k] == f[..k]
    requires (forall j :: 0 <= j < |p| ==> p[j] != []) && (forall j :: 0 <= j < |f| ==> f[j] != [])
    ensures Summaries(p)[..k] == Summaries(f)[..k]
  {
    assert forall j :: 0 <= j < k ==> p[..k][j] == f[..k][j];
  }

  ghost predicate PositiveLength(cs: seq<Candle>) {
    forall i :: 0 <= i < |cs| ==> cs[i].openTime < cs[i].closeTime
  }

  /** One more candle leaves all buckets but the last alone and closes the last. */
  lemma {:induction false} NewestBucket(cs: seq<Candle>, interval: nat)
    requires 0 < interval && cs != []
    ensures var r, r' := Resample(Front(cs), interval), Resample(cs, interval);
      && r' != [] && Last(r').closeTime == Last(cs).closeTime
      && |r'| - 1 <= |r| <= |r'| && Front(r') == r[..|r'| - 1]
  {
    hide TruncDiv;
    var r, r' := Resample(Front(cs), interval), Resample(cs, interval);
    assert r' == PushCandle(r, Last(cs), interval);
  }

  /** From the bucket of candle `i` on, every bucket closes after candle `i` opens. */
  lemma {:induction false} LaterBucketsStayOpen(cs: seq<Candle>, interval: nat, i: nat, first: nat)
    requires 0 < interval && i < |cs| && OpensInOrder(cs) && PositiveLength(cs)
    requires first + 1 == |Resample(cs[..i + 1], interval)|
    ensures forall k :: first <= k < |Resample(cs, interval)| ==>
      !ClosedBefore(Resample(cs, interval)[k], cs[i])
    decreases |cs|
  {
    hide TruncDiv;
    NewestBucket(cs, interval);
    if i + 1 == |cs| {
      assert cs[..i + 1] == cs;
    } else {
      assert Front(cs)[..i + 1] == cs[..i + 1];
      LaterBucketsStayOpen(Front(cs), interval, i, first);
      var r, r' := Resample(Front(cs), interval), Resample(cs, interval);
      assert forall k :: 0 <= k < |r'| - 1 ==> r'[k] == Front(r')[k] == r[k];
      assert cs[i].openTime <= Last(cs).openTime < Last(cs).closeTime;
    }
  }

  /** Two lists that agree on the first `k` buckets, the rest open in both, move the
      cursor alike. */
  lemma {:induction false} CursorsAgree(base: seq<Candle>, a: seq<Candle>, b: seq<Candle>, k: nat, n: nat)
    requires n <= |base| && k < |a| && k < |b| && a[..k] == b[..k]
    requires forall j, m :: 0 <= j < n && k <= m < |a| ==> !ClosedBefore(a[m], base[j])
    requires forall j, m :: 0 <= j < n && k <= m < |b| ==> !ClosedBefore(b[m], base[j])
    ensures Cursor(base, a, n) == Cursor(base, b, n)
    ensures Cursor(base, a, n) < k || (k == 0 && Cursor(base, a, n) == 0)
  {
    if n > 0 {
      CursorsAgree(base, a, b, k, n - 1);
      AdvancesAgree(base[n - 1], a, b, k, Cursor(base, a, n - 1));
    }
  }

  lemma {:induction false} AdvancesAgree(base: Candle, a: seq<Candle>, b: seq<Candle>, k: nat, hi: nat)
    requires k < |a| && k < |b| && a[..k] == b[..k]
    requires forall m :: k <= m < |a| ==> !ClosedBefore(a[m], base)
    requires forall m :: k <= m < |b| ==> !ClosedBefore(b[m], base)
    requires hi < k || (k == 0 && hi == 0)
    ensures Advance(a, hi, base) == Advance(b, hi, base)
    ensures Advance(a, hi, base) < k || (k == 0 && Advance(a, hi, base) == 0)
    decreases k - hi
  {
    if hi + 1 < k {
      assert a[hi + 1] == a[..k][hi + 1] == b[..k][hi + 1] == b[hi + 1];
      if ClosedBefore(a[hi + 1], base) {
        AdvancesAgree(base, a, b, k, hi + 1);
      }
    }
  }

  /** Knowing only the first i + 1 candles leaves the closed buckets as they are, and what
      is open stays open, for every base candle up to `i`. */
  lemma {:induction false} KnownBuckets(cs: seq<Candle>, interval: nat, i: nat)
      returns (full: seq<Candle>, part: seq<Candle>, k: nat)
    requires 0 < interval && i < |cs| && OpensInOrder(cs) && PositiveLength(cs)
    ensures full == Resample(cs, interval) && part == Resample(cs[..i + 1], interval)
    ensures |part| == k + 1 <= |full| && full[..k] == part[..k]
    ensures forall j, m :: 0 <= j <= i && k <= m < |full| ==> !ClosedBefore(full[m], cs[j])
    ensures forall j, m :: 0 <= j <= i && k <= m < |part| ==> !ClosedBefore(part[m], cs[j])
  {
    hide TruncDiv;
    var known := cs[..i + 1];
    full, part := Resample(cs, interval), Resample(known, interval);
    BucketsOfPrefix(cs, interval, i + 1);
    k := |part| - 1;
    assert known[..i + 1] == known && known[i] == cs[i];
    LaterBucketsStayOpen(known, interval, i, k);
    LaterBucketsStayOpen(cs, interval, i, k);
    EarlierCandlesStayBehind(cs, full, i, k);
    EarlierCandlesStayBehind(cs, part, i, k);
  }

  /** The cursor reaches the same bucket, before the one candle `i` falls into, from the
      whole series and from its first i + 1 candles. */
  lemma {:induction false} CursorNeverRepaints(cs: seq<Candle>, interval: nat, i: nat)
    requires 0 < interval && i < |cs| && OpensInOrder(cs) && PositiveLength(cs)
    ensures var full, part := Resample(cs, interval), Resample(cs[..i + 1], interval);
      && part != [] && |part| <= |full| && Front(part) == full[..|part| - 1]
      && !ClosedBefore(full[|part| - 1], cs[i]) && !ClosedBefore(part[|part| - 1], cs[i])
      && var h := Cursor(cs, full, i + 1);
         && h == Cursor(cs[..i + 1], part, i + 1)
         && (h < |part| - 1 || (|part| == 1 && h == 0))
  {
    hide TruncDiv;
    var full, part, k := KnownBuckets(cs, interval, i);
    CursorsAgree(cs, full, part, k, i + 1);
    SameCursor(cs, cs[..i + 1], part, i + 1);
  }

  /** No repainting of the buckets: for base candles in time order, each opening before it
      closes, the bucket picked for candle `i` from the whole series has the same number,
      the same contents and the same candles as the one picked when only the first i + 1
      candles are known, and its candles all come before candle `i`. The feature row of that
      number describes that bucket exactly when every bucket has a row. */
  lemma {:induction false} NoRepainting(cs: seq<Candle>, interval: nat, window: nat, i: nat)
    requires 0 < interval && i < |cs| && OpensInOrder(cs) && PositiveLength(cs)
    ensures Pick(cs, interval, window, i) == Pick(cs[..i + 1], interval, window, i)
    ensures var pick := Pick(cs, interval, window, i);
      pick.Some? ==>
        && pick.value < |Resample(cs[..i + 1], interval)| - 1 < |Resample(cs, interval)|
        && Resample(cs, interval)[pick.value] == Resample(cs[..i + 1], interval)[pick.value]
        && UsesOnly(cs, interval, pick.value, i)
        && (RowBucket(Resample(cs, interval), window, pick.value) == pick.value <==>
              |Resample(cs, interval)| <= window)
  {
    CursorNeverRepaints(cs, interval, i);
    var full, part := Resample(cs, interval), Resample(cs[..i + 1], interval);
    var h := Cursor(cs, full, i + 1);
    if h < |part| - 1 {
      assert full[h] == full[..|part| - 1][h] == Front(part)[h] == part[h];
      PrefixUsesOnly(cs, interval, h, i);
    }
  }

  /** Row `r`, looked up for candle `i`, is settled when it describes one bucket, with the
      same contents, whether all candles or only the first i + 1 are known, and that bucket
      had closed and is made of earlier candles. */
  ghost predicate RowIsSettled(cs: seq<Candle>, interval: nat, window: nat, r: nat, i: nat)
    requires 0 < interval && i < |cs|
  {
    var full, part := Resample(cs, interval), Resample(cs[..i + 1], interval);
    && r < Rows(full, window) && r < Rows(part, window)
    && var b := RowBucket(full, window, r);
       && b == RowBucket(part, window, r)
       && full[b] == part[b] && ClosedBefore(full[b], cs[i])
       && UsesOnly(cs, interval, b, i)
  }

  /** With as many rows as buckets nothing repaints: the row picked for a candle is settled
      and describes the last bucket closed before the candle. */
  lemma {:induction false} PickedRowIsSettled(cs: seq<Candle>, interval: nat, window: nat, i: nat)
    requires 0 < interval && i < |cs| && OpensInOrder(cs) && PositiveLength(cs)
    requires |Resample(cs, interval)| <= window
    ensures var pick := Pick(cs, interval, window, i);
      pick.Some? ==>
        && RowIsSettled(cs, interval, window, pick.value, i)
        && RowBucket(Resample(cs, interval), window, pick.value) == pick.value
  {
    NoRepainting(cs, interval, window, i);
  }

  /** Otherwise it does: with more buckets than rows, the picked row describes a bucket that
      had not closed when the candle opened. */
  lemma {:induction false} RowIsSettledIff(cs: seq<Candle>, interval: nat, window: nat, i: nat)
    requires 0 < interval && i < |cs| && OpensInOrder(cs) && ClosesInOrder(cs) && PositiveLength(cs)
    ensures var full, pick := Resample(cs, interval), Pick(cs, interval, window, i);
      pick.Some? ==>
        && (RowIsSettled(cs, interval, window, pick.value, i) <==> |full| <= window)
        && (ClosedBefore(full[RowBucket(full, window, pick.value)], cs[i]) <==> |full| <= window)
  {
    hide Resample;
    var full, pick := Resample(cs, interval), Pick(cs, interval, window, i);
    if |full| <= window {
      PickedRowIsSettled(cs, interval, window, i);
    } else if pick.Some? {
      BucketCloses(cs, interval);
      CursorIsClosedOrFirst(cs, full, i + 1);
    }
  }

  /** Three candles, each alone in its quarter hour, and a window of one row: the second
      candle is given row 0, which describes its own, still forming bucket when the third
      candle is not known, and the third candle's bucket when it is. */
  lemma {:induction false} RowRepaintsExample()
    ensures var cs, interval := [Minute(0), Minute(900_000), Minute(1_800_000)], M15.DurationMs();
      && Pick(cs, interval, 1, 1) == Some(0) == Pick(cs[..2], interval, 1, 1)
      && RowBucket(Resample(cs, interval), 1, 0) == 2 && RowBucket(Resample(cs[..2], interval), 1, 0) == 1
      && Resample(cs, interval)[2] == cs[2] && Resample(cs[..2], interval)[1] == cs[1]
      && !RowIsSettled(cs, interval, 1, 0, 1)
  {
    hide Resample;
    var cs, interval := [Minute(0), Minute(900_000), Minute(1_800_000)], M15.DurationMs();
    assert Key(cs[0], interval) == 0 && Key(cs[1], interval) == 1 && Key(cs[2], interval) == 2;
    UnitBuckets(cs, interval, 0);
    UnitBuckets(cs[..2], interval, 0);
    CursorStays(cs, cs);
    CursorStays(cs[..2], cs[..2]);
  }

  lemma CursorStays(base: seq<Candle>, higher: seq<Candle>)
    requires 2 <= |base| && 2 <= |higher|
    requires !ClosedBefore(higher[1], base[0]) && !ClosedBefore(higher[1], base[1])
    ensures Cursor(base, higher, 2) == 0
  {
    assert Cursor(base, higher, 1) == Advance(higher, Cursor(base, higher, 0), base[0]) == 0;
  }

  /** The buckets up to `h` are made of the first `i` candles alone. */
  ghost predicate UsesOnly(cs: seq<Candle>, interval: nat, h: nat, i: nat)
    requires 0 < interval
  {
    && h < |Groups(cs, interval)|
    && Flatten(Groups(cs, interval)[..h + 1]) <= cs
    && |Flatten(Groups(cs, interval)[..h + 1])| <= i
  }

  lemma {:induction false} EarlierCandlesStayBehind(base: seq<Candle>, higher: seq<Candle>, i: nat, k: nat)
    requires i < |base| && OpensInOrder(base)
    requires forall m :: k <= m < |higher| ==> !ClosedBefore(higher[m], base[i])
    ensures forall j, m :: 0 <= j <= i && k <= m < |higher| ==> !ClosedBefore(higher[m], base[j])
  {
  }

  lemma {:induction false} SameCursor(a: seq<Candle>, b: seq<Candle>, higher: seq<Candle>, n: nat)
    requires higher != [] && n <= |a| && n <= |b| && a[..n] == b[..n]
    ensures Cursor(a, higher, n) == Cursor(b, higher, n)
  {
    if n > 0 {
      assert a[..n - 1] == a[..n][..n - 1] == b[..n][..n - 1] == b[..n - 1];
      SameCursor(a, b, higher, n - 1);
      assert a[n - 1] == a[..n][n - 1] == b[..n][n - 1] == b[n - 1];
    }
  }

  lemma {:induction false} FlattenConcat(a: seq<seq<Candle>>, b: seq<seq<Candle>>)
    ensures Flatten(a + b) == Flatten(a) + Flatten(b)
  {
    if b == [] {
      assert a + b == a;
    } else {
      FlattenConcat(a, Front(b));
      assert Front(a + b) == a + Front(b);
    }
  }

  lemma {:induction false} PrefixUsesOnly(cs: seq<Candle>, interval: nat, h: nat, i: nat)
    requires 0 < interval && i < |cs| && h < |Resample(cs[..i + 1], interval)| - 1
    ensures UsesOnly(cs, interval, h, i)
  {
    hide Resample, Regroup, TruncDiv, Groups, Flatten, GroupedByKey;
    BucketsOfPrefix(cs, interval, i + 1);
    GroupsOfPrefix(cs, interval, i + 1);
    var p, f := Groups(cs[..i + 1], interval), Groups(cs, interval);
    GroupsAreRuns(cs[..i + 1], interval);
    TakeOfTake(p, f, |p| - 1, h + 1);
    FlattenDropsLast(p, h + 1);
    assert cs[..i + 1] <= cs;
  }

  lemma TakeOfTake<T>(p: seq<T>, f: seq<T>, k: nat, n: nat)
    requires n <= k <= |p| && k <= |f| && p[..k] == f[..k]
    ensures p[..n] == f[..n]
  {
    assert p[..n] == p[..k][..n] && f[..n] == f[..k][..n];
  }

  lemma {:induction false} FlattenDropsLast(p: seq<seq<Candle>>, n: nat)
    requires n < |p| && Last(p) != []
    ensures Flatten(p[..n]) <= Flatten(p) && |Flatten(p[..n])| < |Flatten(p)|
  {
    FlattenConcat(p[..n], p[n..]);
    assert p == p[..n] + p[n..];
    assert Last(p[n..]) == Last(p);
  }

  // ---------------------------------------------------------------------
  // Why candles must have positive length
  // ---------------------------------------------------------------------

  /** Growing or replacing the newest bucket keeps closing times in order. */
  lemma StillClosesInOrder(r: seq<Candle>, r': seq<Candle>)
    requires r != [] && r' != [] && ClosesInOrder(r) && |r'| - 1 <= |r| && Front(r') == r[..|r'| - 1]
    requires Last(r).closeTime <= Last(r').closeTime
    ensures ClosesInOrder(r')
  {
    forall i, j | 0 <= i < j < |r'|
      ensures r'[i].closeTime <= r'[j].closeTime
    {
      assert r'[i] == Front(r')[i] == r[i];
      assert r[i].closeTime <= Last(r).closeTime;
      assert j < |r'| - 1 ==> r'[j] == Front(r')[j] == r[j];
    }
  }

  lemma {:induction false} BucketCloses(cs: seq<Candle>, interval: nat)
    requires 0 < interval && cs != [] && ClosesInOrder(cs)
    ensures var r := Resample(cs, interval);
      r != [] && Last(r).closeTime == Last(cs).closeTime && ClosesInOrder(r)
  {
    hide PushCandle, TruncDiv;
    NewestBucket(cs, interval);
    if |cs| == 1 {
      assert Resample(Front(cs), interval) == [];
    } else {
      BucketCloses(Front(cs), interval);
      StillClosesInOrder(Resample(Front(cs), interval), Resample(cs, interval));
    }
  }

  /** With times in order, a candle is shown its own bucket, when it is the newest, exactly
      when it closes no later than it opens and every bucket has a row; and from a longer
      series, its own or a later bucket exactly when its own has closed when it opens. */
  lemma {:induction false} OwnBucketIffNoLength(cs: seq<Candle>, interval: nat, window: nat, i: nat)
    requires 0 < interval && i < |cs| && OpensInOrder(cs) && ClosesInOrder(cs)
    ensures var part := Resample(cs[..i + 1], interval);
      part != [] &&
      (Pick(cs[..i + 1], interval, window, i) == Some(|part| - 1) <==>
         |part| <= window && cs[i].closeTime <= cs[i].openTime)
    ensures var own, full := |Resample(cs[..i + 1], interval)| - 1, Resample(cs, interval);
      own < |full| &&
      forall h :: Pick(cs, interval, window, i) == Some(h) ==> (own <= h <==> ClosedBefore(full[own], cs[i]))
  {
    hide Resample, Cursor;
    var known, full := cs[..i + 1], Resample(cs, interval);
    var part := Resample(known, interval);
    BucketCloses(known, interval);
    BucketCloses(cs, interval);
    BucketsOfPrefix(cs, interval, i + 1);
    assert Last(known) == known[i] == cs[i];
    ScanFindsLastClosed(known, part, Rows(part, window), i);
    ScanFindsLastClosed(cs, full, Rows(full, window), i);
  }

  /** A candle without length sees the bucket that it is still forming. */
  lemma {:induction false} OwnBucketExample()
    ensures var c := Minute(0).(closeTime := 0);
      && Resample([c], M15.DurationMs()) == [c]
      && Pick([c], M15.DurationMs(), 1, 0) == Some(0)
  {
    hide TruncDiv;
    var c := Minute(0).(closeTime := 0);
    UnitBuckets([c], M15.DurationMs(), Key(c, M15.DurationMs()));
  }
}
