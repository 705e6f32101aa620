/** The streaming trade-to-candle aggregator (crates/ssm-exchange/src/aggregator.rs). */
module Aggregator {
  import opened MachineWords
  import opened Domain
  import opened Candles

  function Start(t: Trade, interval: nat): int
    requires 0 < interval
  {
    TruncDiv(t.timestamp, interval) * interval
  }

  function QuoteValue(t: Trade): real {
    t.price * t.quantity
  }

  /** The candle of a single trade. */
  function Tick(t: Trade, interval: nat): Candle
    requires 0 < interval
  {
    Candle(Start(t, interval), t.price, t.price, t.price, t.price, t.quantity,
           Start(t, interval) + interval - 1, QuoteValue(t), 1,
           if t.side == Buy then t.quantity else 0.0,
           if t.side == Sell then t.quantity else 0.0)
  }

  /** A trade absorbed into a forming candle; the candle keeps its times. */
  function Absorb(c: Candle, t: Trade, interval: nat): Candle
    requires 0 < interval
  {
    Merge(c, Tick(t, interval)).(closeTime := c.closeTime)
  }

  function PushTrade(r: seq<Candle>, t: Trade, interval: nat): seq<Candle>
    requires 0 < interval
  {
    if r == [] || Start(t, interval) > Last(r).openTime
    then r + [Tick(t, interval)]
    else Front(r) + [Absorb(Last(r), t, interval)]
  }

  /** All candles of a trade sequence, the forming one included. */
  function Aggregate(trades: seq<Trade>, interval: nat): seq<Candle>
    requires 0 < interval
  {
    if trades == [] then [] else PushTrade(Aggregate(Front(trades), interval), Last(trades), interval)
  }

  /** A candle still being formed: everything but its close time. */
  datatype Forming = Forming(
    openTime: int, open: real, high: real, low: real, close: real, volume: real,
    quoteVolume: real, trades: nat, takerBuyVolume: real, takerSellVolume: real)
  {
    function Closed(interval: nat): Candle {
      Candle(openTime, open, high, low, close, volume, openTime + interval - 1,
             quoteVolume, trades, takerBuyVolume, takerSellVolume)
    }
  }

  class TradeAggregator {
    const intervalMs: nat
    var current: Option<Forming>
    var closed: seq<Candle>
    ghost var ingested: seq<Trade>
    ghost var drained: seq<Candle>

    /** Every candle handed out, waiting and forming, in order, is the aggregate of every
        trade ingested. */
    ghost predicate Valid()
      reads this
    {
      && 0 < intervalMs
      && (current.None? <==> ingested == [])
      && drained + closed + Pending() == Aggregate(ingested, intervalMs)
    }

    ghost function Pending(): seq<Candle>
      reads this
    {
      if current.None? then [] else [current.value.Closed(intervalMs)]
    }

    constructor (intervalMs: nat)
      requires 0 < intervalMs
      ensures Valid() && ingested == [] && drained == [] && this.intervalMs == intervalMs
    {
      this.intervalMs, current, closed := intervalMs, None, [];
      ingested, drained := [], [];
    }

    /** Answers the candle that the trade closed, which also joins `closed`. */
    method Ingest(trade: Trade) returns (result: Option<Candle>)
      requires Valid()
      modifies this
      ensures Valid() && ingested == old(ingested) + [trade] && drained == old(drained)
      ensures result.Some? <==> |closed| == |old(closed)| + 1
      ensures closed == old(closed) + (if result.Some? then [result.value] else [])
    {
      var candleStart := Start(trade, intervalMs);
      ghost var before := Aggregate(ingested, intervalMs);
      assert Front(ingested + [trade]) == ingested;
      if current.Some? {
        assert before == drained + closed + Pending();
        assert Last(before) == current.value.Closed(intervalMs);
        assert Front(before) == drained + closed;
      }
      ingested := ingested + [trade];
      result := None;
      if current.Some? && candleStart > current.value.openTime {
        var c := CloseCandle();
        result := Some(c);
      }
      UpdateForming(trade);
      assert drained + closed + Pending() == PushTrade(before, trade, intervalMs);
    }

    /** Updates the forming candle, or starts one. */
    method UpdateForming(trade: Trade)
      requires 0 < intervalMs
      modifies this`current
      ensures current.Some?
      ensures current.value.Closed(intervalMs) ==
        (if old(current).None? then Tick(trade, intervalMs)
         else Absorb(old(current).value.Closed(intervalMs), trade, intervalMs))
    {
      match current {
        case Some(c) =>
          var high := if trade.price > c.high then trade.price else c.high;
          var low := if trade.price < c.low then trade.price else c.low;
          c := c.(high := high, low := low, close := trade.price);
          c := c.(volume := c.volume + trade.quantity);
          c := c.(quoteVolume := c.quoteVolume + QuoteValue(trade));
          c := c.(trades := c.trades + 1);
          match trade.side {
            case Buy => c := c.(takerBuyVolume := c.takerBuyVolume + trade.quantity);
            case Sell => c := c.(takerSellVolume := c.takerSellVolume + trade.quantity);
          }
          current := Some(c);
        case None =>
          current := Some(Forming(
            Start(trade, intervalMs), trade.price, trade.price, trade.price, trade.price, trade.quantity,
            QuoteValue(trade), 1,
            if trade.side == Buy then trade.quantity else 0.0,
            if trade.side == Sell then trade.quantity else 0.0));
      }
    }

    method CloseCandle() returns (candle: Candle)
      requires current.Some?
      modifies this`current, this`closed
      ensures candle == old(current).value.Closed(intervalMs)
      ensures current == None && closed == old(closed) + [candle]
    {
      var c := current.value;
      current := None;
      candle := c.Closed(intervalMs);
      closed := closed + [candle];
    }

    method DrainClosed() returns (taken: seq<Candle>)
      requires Valid()
      modifies this`closed, this`drained
      ensures Valid() && taken == old(closed) && closed == [] && drained == old(drained) + taken
    {
      taken := closed;
      closed := [];
      drained := drained + taken;
    }
  }

  // ---------------------------------------------------------------------
  // Aggregating and then resampling
  // ---------------------------------------------------------------------

  ghost predicate TimeOrdered(trades: seq<Trade>) {
    && (forall i :: 0 <= i < |trades| ==> 0 <= trades[i].timestamp)
    && (forall i, j :: 0 <= i < j < |trades| ==> trades[i].timestamp <= trades[j].timestamp)
  }

  /** The bucket number and every field but the two times. */
  function Body(c: Candle): Candle {
    c.(openTime := 0, closeTime := 0)
  }

  predicate SameBucket(a: Candle, b: Candle, interval: nat)
    requires 0 < interval
  {
    Key(a, interval) == Key(b, interval) && Body(a) == Body(b)
  }

  ghost predicate SameBuckets(a: seq<Candle>, b: seq<Candle>, interval: nat)
    requires 0 < interval
  {
    |a| == |b| && forall j :: 0 <= j < |a| ==> SameBucket(a[j], b[j], interval)
  }

  lemma StartKey(t: Trade, fine: nat, coarse: nat)
    requires 0 < fine && 0 < coarse && coarse % fine == 0 && 0 <= t.timestamp
    ensures 0 <= Start(t, fine) && Start(t, fine) / fine == t.timestamp / fine
    ensures Key(Tick(t, fine), coarse) == t.timestamp / coarse
  {
    var n, x := coarse / fine, t.timestamp / fine;
    assert coarse == fine * n;
    assert Start(t, fine) == fine * x;
    MulMonotone(fine, 0, x);
    DivModUnique(fine * x, fine, x, 0);
    DivTwice(t.timestamp, fine, n);
    DivTwice(fine * x, fine, n);
  }

  lemma QuotientMonotone(a: nat, b: nat, d: nat)
    requires 0 < d && a <= b
    ensures a / d <= b / d
    ensures (a / d) * d < (b / d) * d <==> a / d < b / d
  {
    if b / d < a / d {
      MulMonotone(d, b / d + 1, a / d);
    }
    if a / d < b / d {
      MulMonotone(d, a / d + 1, b / d);
    }
  }

  /** The candle of the latest trade is the last one, and it starts a new candle exactly
      when it starts a new bucket. */
  lemma {:induction false} LatestCandle(trades: seq<Trade>, interval: nat)
    requires 0 < interval && TimeOrdered(trades) && trades != []
    ensures var r := Aggregate(trades, interval);
      && r != [] && Last(r).openTime == Start(Last(trades), interval)
      && Key(Last(r), interval) == Last(trades).timestamp / interval
      && (forall t: Trade :: Last(trades).timestamp <= t.timestamp ==>
            (Start(t, interval) > Last(r).openTime <==>
             t.timestamp / interval != Last(trades).timestamp / interval))
  {
    StartKey(Last(trades), interval, interval);
    forall t: Trade | Last(trades).timestamp <= t.timestamp
      ensures Start(t, interval) > Start(Last(trades), interval) <==>
        t.timestamp / interval != Last(trades).timestamp / interval
    {
      QuotientMonotone(Last(trades).timestamp, t.timestamp, interval);
    }
    if |trades| > 1 {
      LatestCandle(Front(trades), interval);
      assert Last(Front(trades)).timestamp <= Last(trades).timestamp;
    } else {
      assert Aggregate(Front(trades), interval) == [];
    }
  }

  lemma MergeBodies(a: Candle, b: Candle, a': Candle, b': Candle)
    requires Body(a) == Body(b) && Body(a') == Body(b')
    ensures Body(Merge(a, a')) == Body(Merge(b, b'))
  {
  }

  lemma TickBodies(t: Trade, fine: nat, coarse: nat)
    requires 0 < fine && 0 < coarse
    ensures Body(Tick(t, fine)) == Body(Tick(t, coarse))
  {
  }

  /** Replacing the times of a candle within its bucket changes no bucket's body. */
  lemma PushSameBucket(r: seq<Candle>, a: Candle, b: Candle, interval: nat)
    requires 0 < interval && SameBucket(a, b, interval)
    ensures SameBuckets(PushCandle(r, a, interval), PushCandle(r, b, interval), interval)
  {
    hide TruncDiv;
  }

  /** Two last candles that are the same bucket stay so when a trade joins both. */
  lemma SameAfterTrade(r: seq<Candle>, d: seq<Candle>, t: Trade, fine: nat, coarse: nat)
    requires 0 < fine && 0 < coarse && coarse % fine == 0 && 0 <= t.timestamp
    requires SameBuckets(r, d, coarse)
    requires d != [] ==>
      (Start(t, coarse) > Last(d).openTime <==> Key(Last(d), coarse) != t.timestamp / coarse)
    ensures SameBuckets(PushCandle(r, Tick(t, fine), coarse), PushTrade(d, t, coarse), coarse)
  {
    hide TruncDiv;
    StartKey(t, fine, coarse);
    StartKey(t, coarse, coarse);
    TickBodies(t, fine, coarse);
    if d != [] && Key(Last(d), coarse) == t.timestamp / coarse {
      assert SameBucket(Last(r), Last(d), coarse);
      MergeBodies(Last(r), Last(d), Tick(t, fine), Tick(t, coarse));
    }
  }

  /** For trades in time order, aggregating at a fine interval and resampling to a coarse
      one that it divides gives, bucket by bucket, the candles of aggregating at the coarse
      interval directly: same bucket number, prices, volumes and counts. */
  lemma {:induction false} AggregateThenResample(trades: seq<Trade>, fine: nat, coarse: nat)
    requires 0 < fine && 0 < coarse && coarse % fine == 0 && TimeOrdered(trades)
    ensures SameBuckets(Resample(Aggregate(trades, fine), coarse), Aggregate(trades, coarse), coarse)
  {
    hide TruncDiv;
    if trades != [] {
      var before, t := Front(trades), Last(trades);
      AggregateThenResample(before, fine, coarse);
      var a, d := Aggregate(before, fine), Aggregate(before, coarse);
      if before == [] {
        SameAfterTrade([], [], t, fine, coarse);
        assert Front([Tick(t, fine)]) == [];
      } else {
        LatestCandle(before, fine);
        LatestCandle(before, coarse);
        SameAfterTrade(Resample(a, coarse), d, t, fine, coarse);
        if t.timestamp / fine != Last(before).timestamp / fine {
          assert Front(a + [Tick(t, fine)]) == a;
        } else {
          AbsorbIsPush(a, t, fine, coarse);
        }
      }
    }
  }

  /** Absorbing a trade into the last fine candle is, bucket by bucket, resampling the
      trade as a candle of its own. */
  lemma AbsorbIsPush(a: seq<Candle>, t: Trade, fine: nat, coarse: nat)
    requires 0 < fine && 0 < coarse && coarse % fine == 0 && 0 <= t.timestamp
    requires a != [] && Key(Last(a), fine) == t.timestamp / fine
    ensures SameBuckets(Resample(Front(a) + [Absorb(Last(a), t, fine)], coarse),
                        PushCandle(Resample(a, coarse), Tick(t, fine), coarse), coarse)
  {
    hide TruncDiv;
    var r := Resample(Front(a), coarse);
    var merged, absorbed := Merge(Last(a), Tick(t, fine)), Absorb(Last(a), t, fine);
    StartKey(t, fine, fine);
    CoarserKey(Last(a), Tick(t, fine), fine, coarse);
    PushMerged(r, Last(a), Tick(t, fine), coarse);
    PushSameBucket(r, absorbed, merged, coarse);
    assert Front(Front(a) + [absorbed]) == Front(a);
  }
}
