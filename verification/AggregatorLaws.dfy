/** What the aggregator's candles say, read off the trades alone
    (crates/ssm-exchange/src/aggregator.rs:39-131). */
module AggregatorLaws {
  import opened MachineWords
  import opened Domain
  import opened Aggregator

  // ---------------------------------------------------------------------
  // Sums over trades
  // ---------------------------------------------------------------------

  function TotalQuantity(trades: seq<Trade>): real {
    if trades == [] then 0.0 else TotalQuantity(Front(trades)) + Last(trades).quantity
  }

  function QuantityOn(trades: seq<Trade>, side: Side): real {
    if trades == [] then 0.0
    else QuantityOn(Front(trades), side) + (if Last(trades).side == side then Last(trades).quantity else 0.0)
  }

  function TotalValue(trades: seq<Trade>): real {
    if trades == [] then 0.0 else TotalValue(Front(trades)) + Last(trades).price * Last(trades).quantity
  }

  lemma NoTrades()
    ensures TotalQuantity([]) == 0.0 == TotalValue([]) && QuantityOn([], Buy) == 0.0 == QuantityOn([], Sell)
  {
  }

  lemma {:induction false} SumsGrow(trades: seq<Trade>, t: Trade)
    ensures TotalQuantity(trades + [t]) == TotalQuantity(trades) + t.quantity
    ensures QuantityOn(trades + [t], Buy) == QuantityOn(trades, Buy) + (if t.side == Buy then t.quantity else 0.0)
    ensures QuantityOn(trades + [t], Sell) == QuantityOn(trades, Sell) + (if t.side == Sell then t.quantity else 0.0)
    ensures TotalValue(trades + [t]) == TotalValue(trades) + t.price * t.quantity
  {
    assert Front(trades + [t]) == trades;
  }

  // ---------------------------------------------------------------------
  // The candle of a run of trades
  // ---------------------------------------------------------------------

  function Bucket(t: Trade, interval: nat): int
    requires 0 < interval
  {
    TruncDiv(t.timestamp, interval)
  }

  /** First, highest, lowest and last price, the sums, and the span of the first trade's
      bucket. */
  ghost predicate IsCandleOf(c: Candle, run: seq<Trade>, interval: nat)
    requires 0 < interval
  {
    && run != []
    && c.openTime == Bucket(run[0], interval) * interval && c.closeTime == c.openTime + interval - 1
    && c.open == run[0].price && c.close == run[|run| - 1].price
    && (forall k :: 0 <= k < |run| ==> c.low <= run[k].price <= c.high)
    && (exists k :: 0 <= k < |run| && run[k].price == c.high)
    && (exists k :: 0 <= k < |run| && run[k].price == c.low)
    && c.volume == TotalQuantity(run) && c.quoteVolume == TotalValue(run) && c.trades == |run|
    && c.takerBuyVolume == QuantityOn(run, Buy) && c.takerSellVolume == QuantityOn(run, Sell)
  }

  lemma {:induction false} FirstTrade(t: Trade, interval: nat)
    requires 0 < interval
    ensures IsCandleOf(Tick(t, interval), [t], interval)
  {
    hide TruncDiv, TotalQuantity, QuantityOn, TotalValue;
    SumsGrow([], t);
    NoTrades();
    assert [] + [t] == [t];
    assert [t][0].price == t.price;
  }

  lemma {:induction false} NextTrade(c: Candle, run: seq<Trade>, t: Trade, interval: nat)
    requires 0 < interval && IsCandleOf(c, run, interval)
    ensures IsCandleOf(Absorb(c, t, interval), run + [t], interval)
  {
    hide TruncDiv, TotalQuantity, QuantityOn, TotalValue;
    var c', run' := Absorb(c, t, interval), run + [t];
    SumsGrow(run, t);
    var high :| 0 <= high < |run| && run[high].price == c.high;
    var low :| 0 <= low < |run| && run[low].price == c.low;
    assert run'[high].price == c.high && run'[low].price == c.low && run'[|run|].price == t.price;
    assert c'.high == c.high || c'.high == t.price;
    assert c'.low == c.low || c'.low == t.price;
  }

  // ---------------------------------------------------------------------
  // The runs
  // ---------------------------------------------------------------------

  /** A trade joins the last run unless its bucket is after that of the run's first trade. */
  function Runs(trades: seq<Trade>, interval: nat): (g: seq<seq<Trade>>)
    requires 0 < interval
    ensures forall k :: 0 <= k < |g| ==> g[k] != []
    ensures trades != [] ==> g != []
  {
    if trades == [] then []
    else
      var g, t := Runs(Front(trades), interval), Last(trades);
      if g == [] || Bucket(t, interval) > Bucket(Last(g)[0], interval)
      then g + [[t]] else Front(g) + [Last(g) + [t]]
  }

  function Joined(g: seq<seq<Trade>>): seq<Trade> {
    if g == [] then [] else Joined(Front(g)) + Last(g)
  }

  lemma {:induction false} RunsStep(g: seq<seq<Trade>>, t: Trade)
    ensures Joined(g + [[t]]) == Joined(g) + [t]
    ensures g != [] ==> Joined(Front(g) + [Last(g) + [t]]) == Joined(g) + [t]
  {
    assert Front(g + [[t]]) == g;
    if g != [] {
      assert Front(Front(g) + [Last(g) + [t]]) == Front(g);
    }
  }

  /** The runs are the trades, in order, cut into pieces. */
  lemma {:induction false} RunsAreTheTrades(trades: seq<Trade>, interval: nat)
    requires 0 < interval
    ensures Joined(Runs(trades, interval)) == trades
  {
    hide Bucket;
    if trades != [] {
      RunsAreTheTrades(Front(trades), interval);
      RunsStep(Runs(Front(trades), interval), Last(trades));
      assert trades == Front(trades) + [Last(trades)];
    }
  }

  lemma SameOrder(a: int, b: int, interval: nat)
    requires 0 < interval
    ensures a * interval > b * interval <==> a > b
  {
    if a > b {
      MulMonotone(interval, b + 1, a);
    } else {
      MulMonotone(interval, a, b);
    }
  }

  ghost predicate AreCandlesOf(r: seq<Candle>, g: seq<seq<Trade>>, interval: nat)
    requires 0 < interval
  {
    |r| == |g| && forall k :: 0 <= k < |g| ==> IsCandleOf(r[k], g[k], interval)
  }

  lemma CandlesStep(r: seq<Candle>, g: seq<seq<Trade>>, t: Trade, interval: nat)
    requires 0 < interval && AreCandlesOf(r, g, interval) && (forall k :: 0 <= k < |g| ==> g[k] != [])
    ensures AreCandlesOf(PushTrade(r, t, interval),
                         if g == [] || Bucket(t, interval) > Bucket(Last(g)[0], interval)
                         then g + [[t]] else Front(g) + [Last(g) + [t]], interval)
  {
    hide TruncDiv, Absorb, Tick, TotalQuantity, QuantityOn, TotalValue;
    FirstTrade(t, interval);
    if g != [] {
      assert IsCandleOf(Last(r), Last(g), interval);
      NextTrade(Last(r), Last(g), t, interval);
      SameOrder(Bucket(t, interval), Bucket(Last(g)[0], interval), interval);
    }
  }

  /** Whatever the order of the trades: there is one candle for each run, and it is the
      candle of that run. */
  lemma {:induction false} CandlesAreOfRuns(trades: seq<Trade>, interval: nat)
    requires 0 < interval
    ensures AreCandlesOf(Aggregate(trades, interval), Runs(trades, interval), interval)
  {
    hide PushTrade, IsCandleOf;
    if trades != [] {
      CandlesAreOfRuns(Front(trades), interval);
      CandlesStep(Aggregate(Front(trades), interval), Runs(Front(trades), interval), Last(trades), interval);
    }
  }

  // ---------------------------------------------------------------------
  // Totals
  // ---------------------------------------------------------------------

  /** The sums over all candles. */
  datatype Totals = Totals(volume: real, value: real, trades: nat, buys: real, sells: real)

  function CandleTotals(r: seq<Candle>): Totals {
    if r == [] then Totals(0.0, 0.0, 0, 0.0, 0.0)
    else
      var s, c := CandleTotals(Front(r)), Last(r);
      Totals(s.volume + c.volume, s.value + c.quoteVolume, s.trades + c.trades,
             s.buys + c.takerBuyVolume, s.sells + c.takerSellVolume)
  }

  lemma {:induction false} PushAddsOne(r: seq<Candle>, t: Trade, interval: nat)
    requires 0 < interval
    ensures var s := CandleTotals(r);
      CandleTotals(PushTrade(r, t, interval)) ==
        Totals(s.volume + t.quantity, s.value + t.price * t.quantity, s.trades + 1,
               s.buys + (if t.side == Buy then t.quantity else 0.0),
               s.sells + (if t.side == Sell then t.quantity else 0.0))
  {
    hide Start;
    assert Front(r + [Tick(t, interval)]) == r;
    if r != [] {
      assert Front(Front(r) + [Absorb(Last(r), t, interval)]) == Front(r);
    }
  }

  /** Nothing traded is lost or counted twice: over all candles, volume, quote volume and
      number are those of all trades, taker buy volume that of the buys and taker sell volume
      that of the sells. */
  lemma {:induction false} TotalsAreOfTrades(trades: seq<Trade>, interval: nat)
    requires 0 < interval
    ensures CandleTotals(Aggregate(trades, interval)) ==
      Totals(TotalQuantity(trades), TotalValue(trades), |trades|, QuantityOn(trades, Buy), QuantityOn(trades, Sell))
  {
    hide PushTrade;
    if trades != [] {
      TotalsAreOfTrades(Front(trades), interval);
      PushAddsOne(Aggregate(Front(trades), interval), Last(trades), interval);
    }
  }

  // ---------------------------------------------------------------------
  // In time order the runs are the buckets
  // ---------------------------------------------------------------------

  ghost predicate InTimeOrder(trades: seq<Trade>) {
    forall i, j :: 0 <= i < j < |trades| ==> trades[i].timestamp <= trades[j].timestamp
  }

  lemma BucketsInOrder(a: int, b: int, d: nat)
    requires 0 < d && a <= b
    ensures TruncDiv(a, d) <= TruncDiv(b, d)
  {
    if 0 <= a {
      QuotientMonotone(a, b, d);
    } else if b < 0 {
      QuotientMonotone(-b, -a, d);
    } else {
      QuotientMonotone(0, -a, d);
      QuotientMonotone(0, b, d);
    }
  }

  ghost predicate OneBucketEach(g: seq<seq<Trade>>, interval: nat)
    requires 0 < interval
  {
    && (forall k :: 0 <= k < |g| ==> g[k] != [])
    && (forall k, i :: 0 <= k < |g| && 0 <= i < |g[k]| ==> Bucket(g[k][i], interval) == Bucket(g[k][0], interval))
    && (forall k, m :: 0 <= k < m < |g| ==> Bucket(g[k][0], interval) < Bucket(g[m][0], interval))
  }

  /** For trades in time order each run holds exactly the trades of one bucket, and the
      buckets come in order: so each candle is the candle of the trades of its bucket. */
  lemma {:induction false} RunsAreBuckets(trades: seq<Trade>, interval: nat)
    requires 0 < interval && InTimeOrder(trades)
    ensures OneBucketEach(Runs(trades, interval), interval)
    ensures trades != [] ==>
      Bucket(Last(Runs(trades, interval))[0], interval) == Bucket(Last(trades), interval)
  {
    hide TruncDiv;
    if trades != [] {
      var before, t := Front(trades), Last(trades);
      RunsAreBuckets(before, interval);
      if before != [] {
        assert Last(before).timestamp <= t.timestamp;
        BucketsInOrder(Last(before).timestamp, t.timestamp, interval);
      }
      OneBucketStep(Runs(before, interval), t, interval);
    }
  }

  lemma OneBucketStep(g: seq<seq<Trade>>, t: Trade, interval: nat)
    requires 0 < interval && OneBucketEach(g, interval)
    ensures g == [] || Bucket(t, interval) > Bucket(Last(g)[0], interval) ==> OneBucketEach(g + [[t]], interval)
    ensures g != [] && Bucket(t, interval) == Bucket(Last(g)[0], interval) ==>
      OneBucketEach(Front(g) + [Last(g) + [t]], interval)
  {
    hide Bucket;
    if g != [] {
      var g' := Front(g) + [Last(g) + [t]];
      assert forall k :: 0 <= k < |g| ==> g'[k][0] == g[k][0];
    }
  }
}
