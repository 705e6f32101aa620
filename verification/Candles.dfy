/** Candle resampling: by time bucket (crates/ssm-ai/src/multi_timeframe.rs:66-114) and by
    fixed-size chunk (crates/ssm-ai/src/multi_feature.rs:21-58). */
module Candles {
  import opened MachineWords
  import opened Domain

  datatype Timeframe = M3 | M15 | H1 | H4 {
    function DurationMs(): (d: nat)
      ensures 0 < d
    {
      match this
      case M3 => 3 * 60 * 1000
      case M15 => 15 * 60 * 1000
      case H1 => 60 * 60 * 1000
      case H4 => 4 * 60 * 60 * 1000
    }
  }

  /** A one-minute candle, for examples. */
  function Minute(openTime: int): Candle {
    Candle(openTime, 1.0, 1.0, 1.0, 1.0, 1.0, openTime + 59_999, 1.0, 1, 1.0, 0.0)
  }

  /** The bucket number; the division truncates, so bucket 0 is twice as wide. */
  function Key(c: Candle, interval: nat): int
    requires 0 < interval
  {
    TruncDiv(c.openTime, interval)
  }

  /** A later candle absorbed into an aggregate. */
  function Merge(a: Candle, c: Candle): Candle {
    a.(high := Max(a.high, c.high), low := Min(a.low, c.low), close := c.close,
       closeTime := c.closeTime, volume := a.volume + c.volume,
       quoteVolume := a.quoteVolume + c.quoteVolume, trades := a.trades + c.trades,
       takerBuyVolume := a.takerBuyVolume + c.takerBuyVolume,
       takerSellVolume := a.takerSellVolume + c.takerSellVolume)
  }

  function PushCandle(r: seq<Candle>, c: Candle, interval: nat): seq<Candle>
    requires 0 < interval
  {
    if r != [] && Key(Last(r), interval) == Key(c, interval)
    then Front(r) + [Merge(Last(r), c)]
    else r + [c]
  }

  function Resample(cs: seq<Candle>, interval: nat): seq<Candle>
    requires 0 < interval
  {
    if cs == [] then [] else PushCandle(Resample(Front(cs), interval), Last(cs), interval)
  }

  /** The running bucket is the last one: what one more candle does to it. */
  lemma {:induction false} ResampleOneMore(closed: seq<Candle>, agg: Candle, candles: seq<Candle>,
                                           i: nat, interval: nat)
    requires 0 < interval && i < |candles|
    requires closed + [agg] == Resample(candles[..i], interval)
    ensures Resample(candles[..i + 1], interval) ==
      if Key(agg, interval) == Key(candles[i], interval)
      then closed + [Merge(agg, candles[i])] else closed + [agg] + [candles[i]]
  {
    hide TruncDiv;
    assert Front(candles[..i + 1]) == candles[..i];
    assert Front(closed + [agg]) == closed;
  }

  lemma {:induction false} ResampleFirst(candles: seq<Candle>, interval: nat)
    requires 0 < interval
    ensures candles == [] ==> Resample(candles, interval) == []
    ensures candles != [] ==> Resample(candles[..1], interval) == [candles[0]]
  {
    hide TruncDiv;
    if candles != [] {
      assert Front(candles[..1]) == [];
    }
  }

  method ResampleCandles(candles: seq<Candle>, target: Timeframe) returns (result: seq<Candle>)
    ensures result == Resample(candles, target.DurationMs())
  {
    hide TruncDiv, Resample, PushCandle;
    ResampleFirst(candles, target.DurationMs());
    if candles == [] {
      return [];
    }
    var intervalMs := target.DurationMs();
    result := [];
    var bucket: Option<(int, Candle)> := None;
    for i := 0 to |candles|
      invariant i == 0 <==> bucket.None?
      invariant bucket.None? ==> result == []
      invariant bucket.Some? ==>
        && bucket.value.0 == Key(bucket.value.1, intervalMs)
        && result + [bucket.value.1] == Resample(candles[..i], intervalMs)
    {
      var c := candles[i];
      var bucketKey := TruncDiv(c.openTime, intervalMs);
      match bucket {
        case Some((key, agg)) =>
          ResampleOneMore(result, agg, candles, i, intervalMs);
          if key == bucketKey {
            var high := if c.high > agg.high then c.high else agg.high;
            var low := if c.low < agg.low then c.low else agg.low;
            agg := agg.(high := high, low := low, close := c.close, closeTime := c.closeTime);
            agg := agg.(volume := agg.volume + c.volume, quoteVolume := agg.quoteVolume + c.quoteVolume);
            agg := agg.(trades := agg.trades + c.trades);
            agg := agg.(takerBuyVolume := agg.takerBuyVolume + c.takerBuyVolume);
            agg := agg.(takerSellVolume := agg.takerSellVolume + c.takerSellVolume);
            bucket := Some((key, agg));
          } else {
            result := result + [agg];
            bucket := Some((bucketKey, c));
          }
        case None =>
          bucket := Some((bucketKey, c));
      }
    }
    assert candles[..|candles|] == candles;
    if bucket.Some? {
      result := result + [bucket.value.1];
    }
  }

  // ---------------------------------------------------------------------
  // What a bucket contains
  // ---------------------------------------------------------------------

  function MaxOf(xs: seq<real>): real
    requires xs != []
  {
    if |xs| == 1 then xs[0] else Max(MaxOf(Front(xs)), Last(xs))
  }

  function MinOf(xs: seq<real>): real
    requires xs != []
  {
    if |xs| == 1 then xs[0] else Min(MinOf(Front(xs)), Last(xs))
  }

  function SumOf(xs: seq<nat>): nat {
    if xs == [] then 0 else SumOf(Front(xs)) + Last(xs)
  }

  /** One candle for a run of candles, field by field. */
  function Summary(cs: seq<Candle>): Candle
    requires cs != []
  {
    Candle(
      cs[0].openTime, cs[0].open,
      MaxOf(seq(|cs|, i requires 0 <= i < |cs| => cs[i].high)),
      MinOf(seq(|cs|, i requires 0 <= i < |cs| => cs[i].low)),
      Last(cs).close,
      Sum(seq(|cs|, i requires 0 <= i < |cs| => cs[i].volume)),
      Last(cs).closeTime,
      Sum(seq(|cs|, i requires 0 <= i < |cs| => cs[i].quoteVolume)),
      SumOf(seq(|cs|, i requires 0 <= i < |cs| => cs[i].trades)),
      Sum(seq(|cs|, i requires 0 <= i < |cs| => cs[i].takerBuyVolume)),
      Sum(seq(|cs|, i requires 0 <= i < |cs| => cs[i].takerSellVolume)))
  }

  lemma SumOfOne(x: real, n: nat)
    ensures Sum([x]) == x && SumOf([n]) == n
  {
    assert Front([x]) == [] && Front([n]) == [];
  }

  lemma SummaryOfOne(cs: seq<Candle>)
    requires |cs| == 1
    ensures Summary(cs) == cs[0]
  {
    var c := cs[0];
    SumOfOne(c.volume, c.trades);
    SumOfOne(c.quoteVolume, 0);
    SumOfOne(c.takerBuyVolume, 0);
    SumOfOne(c.takerSellVolume, 0);
    assert seq(1, i requires 0 <= i < |cs| => cs[i].volume) == [c.volume];
    assert seq(1, i requires 0 <= i < |cs| => cs[i].quoteVolume) == [c.quoteVolume];
    assert seq(1, i requires 0 <= i < |cs| => cs[i].trades) == [c.trades];
    assert seq(1, i requires 0 <= i < |cs| => cs[i].takerBuyVolume) == [c.takerBuyVolume];
    assert seq(1, i requires 0 <= i < |cs| => cs[i].takerSellVolume) == [c.takerSellVolume];
  }

  /** A summary grows one candle at a time by `Merge`. */
  lemma SummaryMerges(cs: seq<Candle>)
    requires 1 < |cs|
    ensures Summary(cs) == Merge(Summary(Front(cs)), Last(cs))
  {
    var n, f := |cs|, Front(cs);
    var high := seq(n, i requires 0 <= i < |cs| => cs[i].high);
    var low := seq(n, i requires 0 <= i < |cs| => cs[i].low);
    var volume := seq(n, i requires 0 <= i < |cs| => cs[i].volume);
    var quote := seq(n, i requires 0 <= i < |cs| => cs[i].quoteVolume);
    var trades := seq(n, i requires 0 <= i < |cs| => cs[i].trades);
    var buy := seq(n, i requires 0 <= i < |cs| => cs[i].takerBuyVolume);
    var sell := seq(n, i requires 0 <= i < |cs| => cs[i].takerSellVolume);
    assert Front(high) == seq(|f|, i requires 0 <= i < |f| => f[i].high);
    assert Front(low) == seq(|f|, i requires 0 <= i < |f| => f[i].low);
    assert Front(volume) == seq(|f|, i requires 0 <= i < |f| => f[i].volume);
    assert Front(quote) == seq(|f|, i requires 0 <= i < |f| => f[i].quoteVolume);
    assert Front(trades) == seq(|f|, i requires 0 <= i < |f| => f[i].trades);
    assert Front(buy) == seq(|f|, i requires 0 <= i < |f| => f[i].takerBuyVolume);
    assert Front(sell) == seq(|f|, i requires 0 <= i < |f| => f[i].takerSellVolume);
  }

  /** One more candle: into the last run when its key agrees, else into a run of its own. */
  function Regroup(g: seq<seq<Candle>>, c: Candle, interval: nat): (g': seq<seq<Candle>>)
    requires 0 < interval && (forall k :: 0 <= k < |g| ==> g[k] != [])
    ensures g' != [] && (forall k :: 0 <= k < |g'| ==> g'[k] != [])
  {
    if g != [] && Key(Last(g)[0], interval) == Key(c, interval)
    then Front(g) + [Last(g) + [c]]
    else g + [[c]]
  }

  /** Maximal runs of candles with equal bucket numbers. */
  function Groups(cs: seq<Candle>, interval: nat): (g: seq<seq<Candle>>)
    requires 0 < interval
    ensures forall k :: 0 <= k < |g| ==> g[k] != []
    ensures cs != [] ==> g != []
  {
    if cs == [] then [] else Regroup(Groups(Front(cs), interval), Last(cs), interval)
  }

  function Flatten(g: seq<seq<Candle>>): seq<Candle> {
    if g == [] then [] else Flatten(Front(g)) + Last(g)
  }

  ghost predicate OneKey(cs: seq<Candle>, interval: nat)
    requires 0 < interval
  {
    cs != [] && forall i :: 0 <= i < |cs| ==> Key(cs[i], interval) == Key(cs[0], interval)
  }

  ghost predicate GroupedByKey(g: seq<seq<Candle>>, interval: nat)
    requires 0 < interval
  {
    && (forall k :: 0 <= k < |g| ==> OneKey(g[k], interval))
    && (forall k :: 0 < k < |g| ==> Key(g[k - 1][0], interval) != Key(g[k][0], interval))
  }

  lemma OneKeyGrows(run: seq<Candle>, c: Candle, interval: nat)
    requires 0 < interval && OneKey(run, interval) && Key(run[0], interval) == Key(c, interval)
    ensures OneKey(run + [c], interval) && (run + [c])[0] == run[0]
  {
    hide TruncDiv;
  }

  lemma RegroupKeepsRuns(g: seq<seq<Candle>>, c: Candle, interval: nat)
    requires 0 < interval && GroupedByKey(g, interval)
    ensures GroupedByKey(Regroup(g, c, interval), interval)
  {
    hide TruncDiv;
    var g' := Regroup(g, c, interval);
    if |g'| == |g| {
      OneKeyGrows(Last(g), c, interval);
      assert forall k :: 0 <= k < |g| ==> g'[k][0] == g[k][0] && OneKey(g'[k], interval);
    } else {
      assert OneKey([c], interval);
    }
  }

  lemma {:induction false} RegroupKeepsCandles(g: seq<seq<Candle>>, c: Candle, interval: nat)
    requires 0 < interval && (forall k :: 0 <= k < |g| ==> g[k] != [])
    ensures Flatten(Regroup(g, c, interval)) == Flatten(g) + [c]
  {
    hide Key;
    var g' := Regroup(g, c, interval);
    if |g'| == |g| {
      assert Front(g') == Front(g);
    } else {
      assert Front(g') == g;
    }
  }

  /** The groups are the input cut into runs of one key, neighbouring runs differing. */
  lemma {:induction false} GroupsAreRuns(cs: seq<Candle>, interval: nat)
    requires 0 < interval
    ensures Flatten(Groups(cs, interval)) == cs
    ensures GroupedByKey(Groups(cs, interval), interval)
  {
    hide TruncDiv, Regroup;
    if cs != [] {
      GroupsAreRuns(Front(cs), interval);
      RegroupKeepsRuns(Groups(Front(cs), interval), Last(cs), interval);
      RegroupKeepsCandles(Groups(Front(cs), interval), Last(cs), interval);
      assert cs == Front(cs) + [Last(cs)];
    }
  }

  function Summaries(g: seq<seq<Candle>>): seq<Candle>
    requires forall k :: 0 <= k < |g| ==> g[k] != []
  {
    seq(|g|, k requires 0 <= k < |g| => Summary(g[k]))
  }

  lemma SummaryFacts(g: seq<Candle>, c: Candle)
    ensures Summary([c]) == c
    ensures g != [] ==> Summary(g + [c]) == Merge(Summary(g), c)
  {
    SummaryOfOne([c]);
    if g != [] {
      SummaryMerges(g + [c]);
      assert Front(g + [c]) == g;
    }
  }

  lemma PushIsRegroup(g: seq<seq<Candle>>, c: Candle, interval: nat)
    requires 0 < interval && (forall k :: 0 <= k < |g| ==> g[k] != [])
    ensures PushCandle(Summaries(g), c, interval) == Summaries(Regroup(g, c, interval))
  {
    hide TruncDiv;
    var r, g' := Summaries(g), Regroup(g, c, interval);
    if g == [] {
      SummaryFacts([], c);
    } else {
      SummaryFacts(Last(g), c);
      assert Last(r) == Summary(Last(g));
      assert Front(r) == Summaries(Front(g));
      if |g'| == |g| {
        assert Summaries(g') == Front(r) + [Summary(Last(g'))];
      } else {
        assert Summaries(g') == r + [c];
      }
    }
  }

  /** The streaming resampler computes one summary per maximal run of equal keys. */
  lemma {:induction false} ResampleSummarisesGroups(cs: seq<Candle>, interval: nat)
    requires 0 < interval
    ensures Resample(cs, interval) == Summaries(Groups(cs, interval))
  {
    hide TruncDiv;
    if cs != [] {
      ResampleSummarisesGroups(Front(cs), interval);
      PushIsRegroup(Groups(Front(cs), interval), Last(cs), interval);
    }
  }

  // ---------------------------------------------------------------------
  // Resampling twice
  // ---------------------------------------------------------------------

  lemma MergeAssociates(a: Candle, b: Candle, c: Candle)
    ensures Merge(Merge(a, b), c) == Merge(a, Merge(b, c))
  {
  }

  /** Two candles of one fine bucket are in one coarse bucket. */
  lemma CoarserKey(x: Candle, y: Candle, fine: nat, coarse: nat)
    requires 0 < fine && 0 < coarse && coarse % fine == 0
    requires Key(x, fine) == Key(y, fine)
    ensures Key(x, coarse) == Key(y, coarse)
  {
    var n := coarse / fine;
    assert coarse == fine * n;
    TruncDivTwice(x.openTime, fine, n);
    TruncDivTwice(y.openTime, fine, n);
  }

  /** Pushing a merged pair is pushing one and then the other. */
  lemma PushMerged(r: seq<Candle>, a: Candle, c: Candle, interval: nat)
    requires 0 < interval && Key(a, interval) == Key(c, interval)
    ensures PushCandle(r, Merge(a, c), interval) ==
      PushCandle(PushCandle(r, a, interval), c, interval)
  {
    hide TruncDiv;
    if r != [] && Key(Last(r), interval) == Key(a, interval) {
      MergeAssociates(Last(r), a, c);
      assert Front(PushCandle(r, a, interval)) == Front(r);
    } else {
      assert Front(r + [a]) == r;
    }
  }

  /** When the fine interval divides the coarse one, resampling through the fine one gives
      the same coarse candles on every field. */
  lemma {:induction false} ResamplingComposes(cs: seq<Candle>, fine: nat, coarse: nat)
    requires 0 < fine && 0 < coarse && coarse % fine == 0
    ensures Resample(Resample(cs, fine), coarse) == Resample(cs, coarse)
  {
    hide TruncDiv;
    if cs != [] {
      ResamplingComposes(Front(cs), fine, coarse);
      var a, c := Resample(Front(cs), fine), Last(cs);
      if a != [] && Key(Last(a), fine) == Key(c, fine) {
        CoarserKey(Last(a), c, fine, coarse);
        PushMerged(Resample(Front(a), coarse), Last(a), c, coarse);
        assert Front(Front(a) + [Merge(Last(a), c)]) == Front(a);
      } else {
        assert Front(a + [c]) == a;
      }
    }
  }

  // ---------------------------------------------------------------------
  // Resampling by chunk
  // ---------------------------------------------------------------------

  function Chunks(cs: seq<Candle>, factor: nat): (g: seq<seq<Candle>>)
    requires 0 < factor
    ensures forall k :: 0 <= k < |g| ==> g[k] != []
  {
    if |cs| <= factor then (if cs == [] then [] else [cs])
    else [cs[..factor]] + Chunks(cs[factor..], factor)
  }

  function ResampleChunks(cs: seq<Candle>, factor: nat): seq<Candle> {
    if cs == [] || factor == 0 then [] else if factor == 1 then cs
    else Summaries(Chunks(cs, factor))
  }

  /** Candle `i` opens `i` steps of `step` after the first. */
  ghost predicate GapFree(cs: seq<Candle>, step: nat) {
    forall i :: 0 <= i < |cs| ==> cs[i].openTime == cs[0].openTime + i * step
  }

  lemma ProductOrder(i: int, j: int, step: nat)
    requires i <= j
    ensures i * step <= j * step
  {
  }

  lemma KeyOfOffset(base: nat, i: nat, step: nat, factor: nat)
    requires 0 < step && 0 < factor
    ensures 0 < step * factor
    ensures TruncDiv(base * (step * factor) + i * step, step * factor) == base + i / factor
  {
    var q, r := i / factor, i % factor;
    assert i == factor * q + r;
    assert base * (step * factor) + i * step == (step * factor) * (base + q) + r * step;
    ProductOrder(r, factor - 1, step);
    ProductOrder(0, r, step);
    assert 0 <= r * step < step * factor;
    DivModUnique(base * (step * factor) + i * step, step * factor, base + q, r * step);
  }

  /** A run of one key before a candle of another key is the first group. */
  lemma {:induction false} FirstRunSplitsOff(a: seq<Candle>, b: seq<Candle>, interval: nat)
    requires 0 < interval && OneKey(a, interval)
    requires b != [] ==> Key(b[0], interval) != Key(a[0], interval)
    ensures Groups(a + b, interval) == [a] + Groups(b, interval)
    decreases |a| + |b|
  {
    hide TruncDiv;
    if b == [] {
      assert a + b == a;
      if |a| == 1 {
        assert Front(a) == [];
        assert Groups(Front(a), interval) == [];
        assert a == [Last(a)];
      } else {
        FirstRunSplitsOff(Front(a), [], interval);
        assert Front(a) + [] == Front(a);
        assert Front([Front(a)]) == [];
        assert Front(a) + [Last(a)] == a;
      }
    } else {
      FirstRunSplitsOff(a, Front(b), interval);
      assert Front(a + b) == a + Front(b);
      RegroupAfter(a, Groups(Front(b), interval), Last(b), interval);
    }
  }

  lemma RegroupAfter(a: seq<Candle>, g: seq<seq<Candle>>, c: Candle, interval: nat)
    requires 0 < interval && a != [] && (forall k :: 0 <= k < |g| ==> g[k] != [])
    requires g == [] ==> Key(a[0], interval) != Key(c, interval)
    ensures Regroup([a] + g, c, interval) == [a] + Regroup(g, c, interval)
  {
    hide TruncDiv;
    if g != [] {
      assert Front([a] + g) == [a] + Front(g);
    }
  }

  /** Every `factor` candles share a bucket, and the next ones share the next. */
  ghost predicate KeysAdvance(cs: seq<Candle>, interval: nat, factor: nat, base: int)
    requires 0 < interval && 0 < factor
  {
    forall i :: 0 <= i < |cs| ==> Key(cs[i], interval) == base + i / factor
  }

  lemma AlignedKeysAdvance(cs: seq<Candle>, step: nat, factor: nat, base: nat)
    requires 0 < step && 0 < factor && GapFree(cs, step)
    requires cs != [] ==> cs[0].openTime == base * (step * factor)
    ensures 0 < step * factor && KeysAdvance(cs, step * factor, factor, base)
  {
    KeyOfOffset(base, 0, step, factor);
    forall i | 0 <= i < |cs|
      ensures Key(cs[i], step * factor) == base + i / factor
    {
      KeyOfOffset(base, i, step, factor);
    }
  }

  lemma QuotientAfter(i: nat, d: nat)
    requires 0 < d
    ensures i < d ==> i / d == 0
    ensures (d + i) / d == 1 + i / d
  {
    if i < d {
      DivModUnique(i, d, 0, i);
    }
    DivModUnique(d + i, d, 1 + i / d, i % d);
  }

  /** The runs of equal keys are then the chunks. */
  lemma {:induction false} GroupsAreChunks(cs: seq<Candle>, interval: nat, factor: nat, base: int)
    requires 0 < interval && 0 < factor && KeysAdvance(cs, interval, factor, base)
    ensures Groups(cs, interval) == Chunks(cs, factor)
    decreases |cs|
  {
    hide TruncDiv, Regroup;
    if cs != [] {
      var first := if |cs| <= factor then cs else cs[..factor];
      var rest := cs[|first|..];
      assert cs == first + rest;
      forall i | 0 <= i < |cs|
        ensures i < factor ==> i / factor == 0
        ensures (factor + i) / factor == 1 + i / factor
      {
        QuotientAfter(i, factor);
      }
      assert OneKey(first, interval);
      forall i | 0 <= i < |rest|
        ensures Key(rest[i], interval) == base + 1 + i / factor
      {
        assert rest[i] == cs[factor + i];
      }
      FirstRunSplitsOff(first, rest, interval);
      GroupsAreChunks(rest, interval, factor, base + 1);
      assert |cs| <= factor ==> [first] + Groups(rest, interval) == [first];
    }
  }

  lemma AlignedUnitKeys(cs: seq<Candle>, step: nat, base: int)
    requires 0 < step && GapFree(cs, step)
    requires cs != [] ==> cs[0].openTime == base * step
    ensures forall i :: 0 <= i < |cs| ==> Key(cs[i], step) == base + i
  {
    forall i | 0 <= i < |cs|
      ensures Key(cs[i], step) == base + i
    {
      assert cs[i].openTime == base * step + i * step == (base + i) * step;
      KeyOfMultiple(base + i, step);
    }
  }

  lemma PushStartsBucket(r: seq<Candle>, c: Candle, interval: nat)
    requires 0 < interval && (r != [] ==> Key(Last(r), interval) != Key(c, interval))
    ensures PushCandle(r, c, interval) == r + [c]
  {
  }

  /** Each candle is its own bucket when buckets are as long as the candles. */
  lemma {:induction false} UnitBuckets(cs: seq<Candle>, interval: nat, base: int)
    requires 0 < interval && (forall i :: 0 <= i < |cs| ==> Key(cs[i], interval) == base + i)
    ensures Resample(cs, interval) == cs
  {
    hide TruncDiv, PushCandle;
    if cs != [] {
      UnitBuckets(Front(cs), interval, base);
      assert |cs| > 1 ==> Last(Front(cs)) == cs[|cs| - 2];
      PushStartsBucket(Front(cs), Last(cs), interval);
      assert cs == Front(cs) + [Last(cs)];
    }
  }

  lemma KeyOfMultiple(n: int, step: nat)
    requires 0 < step
    ensures TruncDiv(n * step, step) == n
  {
    if 0 <= n {
      ProductOrder(0, n, step);
      DivModUnique(n * step, step, n, 0);
    } else {
      ProductOrder(n, -1, step);
      assert -(n * step) == (-n) * step;
      DivModUnique((-n) * step, step, -n, 0);
    }
  }

  /** Before time 0 the truncating division ends the first bucket after one candle. */
  lemma NegativeStartSplits(cs: seq<Candle>, step: nat, factor: nat, base: int)
    requires 0 < step && 2 <= factor && 2 <= |cs| && GapFree(cs, step) && base < 0
    requires cs[0].openTime == base * (step * factor)
    ensures 0 < step * factor
    ensures Key(cs[0], step * factor) == base && Key(cs[1], step * factor) == base + 1
  {
    var I := step * factor;
    ProductOrder(2, factor, step);
    assert I >= 2 * step;
    KeyOfMultiple(base, I);
    assert cs[1].openTime == base * I + 1 * step;
    var m := -base;
    assert -(base * I + step) == I * (m - 1) + (I - step);
    ProductOrder(0, m - 1, I);
    DivModUnique(-(base * I + step), I, m - 1, I - step);
  }

  ghost predicate ClosesIncrease(cs: seq<Candle>) {
    forall i, j :: 0 <= i < j < |cs| ==> cs[i].closeTime < cs[j].closeTime
  }

  /** When chunk resampling agrees with bucket resampling on gap-free aligned input. */
  predicate ChunksMeetBuckets(cs: seq<Candle>, factor: nat) {
    |cs| <= 1 || factor == 1 || 0 <= cs[0].openTime
  }

  lemma ChunksEqualBuckets(cs: seq<Candle>, step: nat, factor: nat, base: int)
    requires 0 < step && 0 < factor && GapFree(cs, step)
    requires cs != [] ==> cs[0].openTime == base * (step * factor)
    requires ChunksMeetBuckets(cs, factor)
    ensures 0 < step * factor && ResampleChunks(cs, factor) == Resample(cs, step * factor)
  {
    KeyOfOffset(0, 0, step, factor);
    if cs == [] {
    } else if factor == 1 {
      AlignedUnitKeys(cs, step, base);
      UnitBuckets(cs, step, base);
    } else if |cs| == 1 {
      SummaryFacts([], cs[0]);
      assert Front(cs) == [] && cs == [cs[0]];
      assert ResampleChunks(cs, factor) == [Summary(cs)];
    } else {
      if base < 0 {
        ProductOrder(base, -1, step * factor);
      }
      AlignedKeysAdvance(cs, step, factor, base);
      GroupsAreChunks(cs, step * factor, factor, base);
      ResampleSummarisesGroups(cs, step * factor);
    }
  }

  lemma FirstGroupAlone(cs: seq<Candle>, interval: nat)
    requires 0 < interval && 2 <= |cs| && Key(cs[0], interval) != Key(cs[1], interval)
    ensures Resample(cs, interval) != [] && Resample(cs, interval)[0] == cs[0]
  {
    hide TruncDiv;
    assert OneKey([cs[0]], interval);
    assert cs == [cs[0]] + cs[1..];
    FirstRunSplitsOff([cs[0]], cs[1..], interval);
    ResampleSummarisesGroups(cs, interval);
    SummaryFacts([], cs[0]);
  }

  /** A first bucket of one candle is not a first chunk of several. */
  lemma FirstChunkDiffers(cs: seq<Candle>, interval: nat, factor: nat)
    requires 0 < interval && 2 <= factor && 2 <= |cs| && ClosesIncrease(cs)
    requires Key(cs[0], interval) != Key(cs[1], interval)
    ensures ResampleChunks(cs, factor) != Resample(cs, interval)
  {
    hide TruncDiv;
    FirstGroupAlone(cs, interval);
    var chunk := Chunks(cs, factor)[0];
    assert chunk == if |cs| <= factor then cs else cs[..factor];
    assert Last(chunk) == cs[|chunk| - 1];
    assert ResampleChunks(cs, factor)[0] == Summary(chunk);
  }

  /** On gap-free input aligned to a bucket start, resampling by chunks of `factor` and by
      buckets of `factor` candle lengths give the same candles when the input starts at or
      after time 0 (or is trivial), and with increasing close times only then. */
  lemma ChunkResampleIffNonNegative(cs: seq<Candle>, step: nat, factor: nat, base: int)
    requires 0 < step && 0 < factor && GapFree(cs, step)
    requires cs != [] ==> cs[0].openTime == base * (step * factor)
    ensures 0 < step * factor
    ensures ChunksMeetBuckets(cs, factor) ==> ResampleChunks(cs, factor) == Resample(cs, step * factor)
    ensures ClosesIncrease(cs) ==>
      (ResampleChunks(cs, factor) == Resample(cs, step * factor) <==> ChunksMeetBuckets(cs, factor))
  {
    KeyOfOffset(0, 0, step, factor);
    if ChunksMeetBuckets(cs, factor) {
      ChunksEqualBuckets(cs, step, factor, base);
    } else if ClosesIncrease(cs) {
      if 0 <= base {
        ProductOrder(0, base, step * factor);
      }
      NegativeStartSplits(cs, step, factor, base);
      FirstChunkDiffers(cs, step * factor, factor);
    }
  }

  /** It fails before time 0: two candles that fill the two steps from -15 to -9 minutes are
      one chunk of five, but the truncating division puts the second into bucket 0. */
  lemma {:induction false} NegativeStartExample()
    ensures var cs, step, factor := [Minute(-900_000), Minute(-720_000)], M3.DurationMs(), 5;
      && GapFree(cs, step) && cs[0].openTime == -1 * (step * factor) && step * factor == M15.DurationMs()
      && ResampleChunks(cs, factor) != Resample(cs, step * factor)
  {
    hide Resample, ResampleChunks;
    ChunkResampleIffNonNegative([Minute(-900_000), Minute(-720_000)], M3.DurationMs(), 5, -1);
  }

  lemma Durations()
    ensures M3.DurationMs() == 180_000 && M15.DurationMs() == 5 * M3.DurationMs()
    ensures H1.DurationMs() == 4 * M15.DurationMs() && H4.DurationMs() == 4 * H1.DurationMs()
  {
  }

  lemma {:induction false} FlattenFirst(first: seq<Candle>, g: seq<seq<Candle>>)
    ensures Flatten([first] + g) == first + Flatten(g)
  {
    if g == [] {
      assert [first] + g == [first] && Front([first]) == [];
    } else {
      FlattenFirst(first, Front(g));
      assert Front([first] + g) == [first] + Front(g);
    }
  }

  /** The chunks are the input in order, cut after every `factor` candles. */
  lemma {:induction false} ChunksCutEvery(cs: seq<Candle>, factor: nat)
    requires 0 < factor
    ensures var g := Chunks(cs, factor);
      && Flatten(g) == cs
      && (forall k :: 0 <= k < |g| - 1 ==> |g[k]| == factor)
      && (g != [] ==> |Last(g)| <= factor)
    decreases |cs|
  {
    if |cs| > factor {
      ChunksCutEvery(cs[factor..], factor);
      FlattenFirst(cs[..factor], Chunks(cs[factor..], factor));
      assert cs == cs[..factor] + cs[factor..];
    } else if cs != [] {
      FlattenFirst(cs, []);
    }
  }

  /** One candle per chunk, its summary; a factor of 0 gives nothing, a factor of 1 the input. */
  lemma ChunkCandles(cs: seq<Candle>, factor: nat)
    ensures factor == 0 ==> ResampleChunks(cs, factor) == []
    ensures factor == 1 ==> ResampleChunks(cs, factor) == cs
    ensures 1 < factor ==>
      && |ResampleChunks(cs, factor)| == |Chunks(cs, factor)|
      && forall k :: 0 <= k < |Chunks(cs, factor)| ==>
           ResampleChunks(cs, factor)[k] == Summary(Chunks(cs, factor)[k])
  {
    hide Summary;
  }
}
