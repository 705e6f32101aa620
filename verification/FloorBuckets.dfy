/** Bucket resampling as documented, by floor division, against the code's truncating
    division (crates/ssm-ai/src/multi_timeframe.rs:66-114). */
module FloorBuckets {
  import opened MachineWords
  import opened Domain
  import opened Candles

  // ---------------------------------------------------------------------
  // The two divisions
  // ---------------------------------------------------------------------

  /** Dafny's `/` with a positive divisor is the floor. */
  lemma TruncatesToFloorIff(x: int, d: nat)
    requires 0 < d
    ensures TruncDiv(x, d) == x / d <==> 0 <= x || x % d == 0
    ensures x < 0 && x % d != 0 ==> TruncDiv(x, d) == x / d + 1
  {
    var q, r := x / d, x % d;
    if x < 0 {
      if r == 0 {
        assert -x == d * -q;
        DivModUnique(-x, d, -q, 0);
      } else {
        assert -x == d * (-q - 1) + (d - r);
        DivModUnique(-x, d, -q - 1, d - r);
      }
    }
  }

  lemma QuotientRange(x: nat, d: nat, k: nat)
    requires 0 < d
    ensures x / d == k <==> d * k <= x < d * k + d
  {
    if d * k <= x < d * k + d {
      DivModUnique(x, d, k, x - d * k);
    }
  }

  /** Bucket 0 reaches from -d to d, both excluded; every other bucket is `d` wide. */
  lemma BucketWidths(x: int, d: int, k: int)
    requires 0 < d
    ensures TruncDiv(x, d) == 0 <==> -d < x < d
    ensures 0 < k ==> (TruncDiv(x, d) == k <==> d * k <= x < d * k + d)
    ensures 0 < k ==> (TruncDiv(x, d) == -k <==> -(d * k) - d < x <= -(d * k))
  {
    var size := if 0 <= x then x else -x;
    QuotientRange(size, d, 0);
    if 0 < k {
      QuotientRange(size, d, k);
      MulMonotone(d, 1, k);
    }
  }

  // ---------------------------------------------------------------------
  // Resampling
  // ---------------------------------------------------------------------

  function FloorKey(c: Candle, interval: nat): int
    requires 0 < interval
  {
    c.openTime / interval
  }

  /** The documented resampling. */
  function FloorResample(cs: seq<Candle>, interval: nat): seq<Candle>
    requires 0 < interval
  {
    if cs == [] then []
    else
      var r, c := FloorResample(Front(cs), interval), Last(cs);
      if r != [] && FloorKey(Last(r), interval) == FloorKey(c, interval)
      then Front(r) + [Merge(Last(r), c)]
      else r + [c]
  }

  predicate OpensIncrease(cs: seq<Candle>) {
    forall i, j :: 0 <= i < j < |cs| ==> cs[i].openTime < cs[j].openTime
  }

  /** Both divisions draw the line between neighbours `a` and `b` alike. */
  predicate SameBoundary(a: Candle, b: Candle, interval: nat)
    requires 0 < interval
  {
    Key(a, interval) == Key(b, interval) <==> FloorKey(a, interval) == FloorKey(b, interval)
  }

  predicate SameBoundaries(cs: seq<Candle>, interval: nat)
    requires 0 < interval
  {
    forall i :: 0 < i < |cs| ==> SameBoundary(cs[i - 1], cs[i], interval)
  }

  function Starts(r: seq<Candle>): seq<int> {
    seq(|r|, i requires 0 <= i < |r| => r[i].openTime)
  }

  /** The last bucket has the key, either way, of the last candle, and starts no later. */
  lemma {:induction false} LastBucketKeys(cs: seq<Candle>, interval: nat)
    requires 0 < interval && cs != [] && OpensIncrease(cs)
    ensures var r, f := Resample(cs, interval), FloorResample(cs, interval);
      && r != [] && f != []
      && Key(Last(r), interval) == Key(Last(cs), interval) && Last(r).openTime <= Last(cs).openTime
      && FloorKey(Last(f), interval) == FloorKey(Last(cs), interval) && Last(f).openTime <= Last(cs).openTime
  {
    hide TruncDiv;
    if |cs| == 1 {
      assert Resample(Front(cs), interval) == [] && FloorResample(Front(cs), interval) == [];
    } else {
      LastBucketKeys(Front(cs), interval);
      assert Last(Front(cs)).openTime < Last(cs).openTime;
    }
  }

  lemma SameBoundariesStep(cs: seq<Candle>, interval: nat)
    requires 0 < interval && 1 < |cs|
    ensures SameBoundaries(cs, interval) <==>
      SameBoundaries(Front(cs), interval) && SameBoundary(Last(Front(cs)), Last(cs), interval)
  {
    hide SameBoundary;
    var before := Front(cs);
    if SameBoundaries(before, interval) && SameBoundary(Last(before), Last(cs), interval) {
      forall i | 0 < i < |cs|
        ensures SameBoundary(cs[i - 1], cs[i], interval)
      {
        assert i < |before| ==> SameBoundary(before[i - 1], before[i], interval);
      }
    }
    if SameBoundaries(cs, interval) {
      forall i | 0 < i < |before|
        ensures SameBoundary(before[i - 1], before[i], interval)
      {
        assert SameBoundary(cs[i - 1], cs[i], interval);
      }
      assert SameBoundary(cs[|cs| - 2], cs[|cs| - 1], interval);
    }
  }

  function Pushed(r: seq<Candle>, c: Candle, joins: bool): seq<Candle>
    requires joins ==> r != []
  {
    if joins then Front(r) + [Merge(Last(r), c)] else r + [c]
  }

  lemma PushedStarts(r: seq<Candle>, c: Candle, joins: bool)
    requires joins ==> r != []
    ensures Starts(Pushed(r, c, joins)) == if joins then Starts(r) else Starts(r) + [c.openTime]
  {
  }

  lemma {:induction false} BothPush(cs: seq<Candle>, interval: nat)
    requires 0 < interval && 1 < |cs| && OpensIncrease(cs)
    ensures var before, c := Front(cs), Last(cs);
      var r, f := Resample(before, interval), FloorResample(before, interval);
      && r != [] && f != [] && Last(r).openTime < c.openTime && Last(f).openTime < c.openTime
      && Resample(cs, interval) == Pushed(r, c, Key(Last(before), interval) == Key(c, interval))
      && FloorResample(cs, interval) == Pushed(f, c, FloorKey(Last(before), interval) == FloorKey(c, interval))
  {
    hide TruncDiv;
    LastBucketKeys(Front(cs), interval);
    assert Last(Front(cs)).openTime < Last(cs).openTime;
  }

  lemma StartsDiffer(r: seq<Candle>, f: seq<Candle>, c: Candle)
    requires f != [] && Last(f).openTime < c.openTime
    ensures Starts(r) + [c.openTime] != Starts(f)
  {
    assert Last(Starts(r) + [c.openTime]) == c.openTime && Last(Starts(f)) == Last(f).openTime;
  }

  lemma {:induction false} StartsAgreeIff(cs: seq<Candle>, interval: nat)
    requires 0 < interval && OpensIncrease(cs)
    ensures Starts(Resample(cs, interval)) == Starts(FloorResample(cs, interval)) <==> SameBoundaries(cs, interval)
    ensures SameBoundaries(cs, interval) ==> Resample(cs, interval) == FloorResample(cs, interval)
  {
    hide TruncDiv, FloorKey, Starts;
    if |cs| == 1 {
      assert Front(cs) == [];
      assert Resample(Front(cs), interval) == [] && FloorResample(Front(cs), interval) == [];
    } else if |cs| > 1 {
      hide Pushed;
      var before, c := Front(cs), Last(cs);
      StartsAgreeIff(before, interval);
      SameBoundariesStep(cs, interval);
      BothPush(cs, interval);
      var r, f := Resample(before, interval), FloorResample(before, interval);
      var joinsR, joinsF :=
        Key(Last(before), interval) == Key(c, interval), FloorKey(Last(before), interval) == FloorKey(c, interval);
      PushedStarts(r, c, joinsR);
      PushedStarts(f, c, joinsF);
      StartsDiffer(r, f, c);
      StartsDiffer(f, r, c);
      if Starts(r) + [c.openTime] == Starts(f) + [c.openTime] {
        assert Front(Starts(r) + [c.openTime]) == Starts(r) && Front(Starts(f) + [c.openTime]) == Starts(f);
      }
    }
  }

  /** For candles in strict time order the code resamples as documented exactly when the two
      divisions agree on every pair of neighbours. */
  lemma {:induction false} ResampleIsFloorIff(cs: seq<Candle>, interval: nat)
    requires 0 < interval && OpensIncrease(cs)
    ensures Resample(cs, interval) == FloorResample(cs, interval) <==> SameBoundaries(cs, interval)
  {
    hide Resample, FloorResample, SameBoundaries;
    StartsAgreeIff(cs, interval);
  }

  /** From time 0 on they always agree. */
  lemma {:induction false} NonNegativeTimesAgree(cs: seq<Candle>, interval: nat)
    requires 0 < interval && OpensIncrease(cs) && (cs != [] ==> 0 <= cs[0].openTime)
    ensures Resample(cs, interval) == FloorResample(cs, interval)
  {
    ResampleIsFloorIff(cs, interval);
  }

  lemma {:induction false} ResampleTwo(a: Candle, b: Candle, interval: nat)
    requires 0 < interval
    ensures Resample([a, b], interval) ==
      if Key(a, interval) == Key(b, interval) then [Merge(a, b)] else [a, b]
    ensures FloorResample([a, b], interval) ==
      if FloorKey(a, interval) == FloorKey(b, interval) then [Merge(a, b)] else [a, b]
  {
    hide TruncDiv, FloorKey;
    assert Front([a, b]) == [a] && Front([a]) == [];
    assert Resample([a], interval) == [a] == FloorResample([a], interval);
  }

  /** A candle that opens a millisecond before time 0 and one that opens at 0 share a bucket
      that the documentation cuts in two. */
  lemma {:induction false} NegativeTimeJoinsBuckets()
    ensures var cs, interval := [Minute(-1), Minute(0)], M15.DurationMs();
      && Resample(cs, interval) == [Merge(Minute(-1), Minute(0))]
      && FloorResample(cs, interval) == cs
      && !SameBoundaries(cs, interval)
  {
    hide Resample, FloorResample, Merge;
    var cs, interval := [Minute(-1), Minute(0)], M15.DurationMs();
    assert FloorKey(Minute(-1), interval) == -1 && FloorKey(Minute(0), interval) == 0;
    assert Key(Minute(-1), interval) == 0 == Key(Minute(0), interval);
    ResampleTwo(Minute(-1), Minute(0), interval);
    assert !SameBoundary(cs[0], cs[1], interval);
  }
}
