/** Candle aggregation and Heikin-Ashi smoothing of the Nifty 50 tick table
    (scripts/compute_heikin_ashi_py.py).

    A tick's time of day is a whole number of seconds since midnight. Candles of
    `interval` minutes are anchored at 09:15; a candle summarises one non-empty
    bucket with open = first tick, high = max, low = min, close = last tick. The
    Heikin-Ashi open follows the recurrence over UNROUNDED values; every output
    column is rounded to two decimals (numpy's round-half-to-even) at the end. */
module HeikinAshi {
  import opened Wrappers
  import opened Calendar
  import opened Seqs

  /** 09:15:00, the session open every bucket is measured from. */
  const Anchor: int := 9 * 3600 + 15 * 60

  datatype Tick = Tick(time: int, open: real, high: real, low: real, close: real)

  datatype Candle = Candle(tradeDate: Date, candleTime: int, open: real, high: real, low: real, close: real)

  /** A candle with its four Heikin-Ashi columns. */
  datatype HaCandle = HaCandle(candle: Candle, haOpen: real, haHigh: real, haLow: real, haClose: real)

  /** The three candle widths in minutes read from strategy_settings. */
  datatype Intervals = Intervals(big: int, small: int, oneM: int)

  /** The widths used when no strategy_settings row is found. */
  const DefaultIntervals: Intervals := Intervals(15, 5, 1)

  predicate WellFormedCandle(c: Candle) {
    c.low <= c.open <= c.high && c.low <= c.close <= c.high
  }

  predicate WellFormedTick(t: Tick) {
    t.low <= t.open <= t.high && t.low <= t.close <= t.high
  }

  // ---- buckets ----

  /** Start of bucket b, in seconds since midnight: 09:15 + b * interval minutes. */
  function BucketStart(b: int, interval: int): int {
    Anchor + b * (interval * 60)
  }

  /** `seconds // (interval * 60)` for a tick at or after the anchor: the bucket is the
      one whose window [start, start + interval minutes) holds the tick. */
  function Bucket(time: int, interval: int): (b: int)
    requires interval > 0 && time >= Anchor
    ensures b >= 0 && BucketStart(b, interval) <= time < BucketStart(b + 1, interval)
  {
    var w := interval * 60;
    var q := (time - Anchor) / w;
    assert q * w <= time - Anchor < q * w + w;
    assert (q + 1) * w == q * w + w;
    q
  }

  lemma MulStep(a: int, b: int, w: int)
    requires w > 0 && a < b
    ensures a * w + w <= b * w
  {
    var d := b - a - 1;
    assert b * w == a * w + w + d * w;
    assert d * w >= 0;
  }

  /** Later buckets start at least one interval later. */
  lemma BucketStartIncreasing(a: int, b: int, interval: int)
    requires interval > 0 && a < b
    ensures BucketStart(a, interval) + interval * 60 <= BucketStart(b, interval)
  {
    MulStep(a, b, interval * 60);
  }

  predicate InBucket(t: Tick, interval: int, b: int) {
    interval > 0 && t.time >= Anchor && Bucket(t.time, interval) == b
  }

  function InBucketP(interval: int, b: int): Tick -> bool {
    (t: Tick) => InBucket(t, interval, b)
  }

  /** The SQL and frame filter `time >= 09:15`. */
  function AtOrAfterAnchor(): Tick -> bool {
    (t: Tick) => t.time >= Anchor
  }

  /** The ticks of bucket b, in their original order. */
  function BucketTicks(ticks: seq<Tick>, interval: int, b: int): seq<Tick> {
    Filter(ticks, InBucketP(interval, b))
  }

  function MaxHigh(ts: seq<Tick>): (r: real)
    requires |ts| > 0
    ensures forall i :: 0 <= i < |ts| ==> ts[i].high <= r
    ensures exists i :: 0 <= i < |ts| && ts[i].high == r
  {
    if |ts| == 1 then ts[0].high
    else
      var m := MaxHigh(ts[1..]);
      assert forall i :: 1 <= i < |ts| ==> ts[i] == ts[1..][i - 1];
      if ts[0].high >= m then ts[0].high else m
  }

  function MinLow(ts: seq<Tick>): (r: real)
    requires |ts| > 0
    ensures forall i :: 0 <= i < |ts| ==> r <= ts[i].low
    ensures exists i :: 0 <= i < |ts| && ts[i].low == r
  {
    if |ts| == 1 then ts[0].low
    else
      var m := MinLow(ts[1..]);
      assert forall i :: 1 <= i < |ts| ==> ts[i] == ts[1..][i - 1];
      if ts[0].low <= m then ts[0].low else m
  }

  /** The groupby aggregation of one non-empty bucket. */
  function CandleOf(day: Date, interval: int, b: int, ts: seq<Tick>): Candle
    requires |ts| > 0
  {
    Candle(day, BucketStart(b, interval), ts[0].open, MaxHigh(ts), MinLow(ts), ts[|ts| - 1].close)
  }

  /** The largest bucket of the ticks at or after the anchor (0 when there are none). */
  function MaxBucket(ticks: seq<Tick>, interval: int): (r: int)
    requires interval > 0
    ensures r >= 0
    ensures forall i :: 0 <= i < |ticks| && ticks[i].time >= Anchor ==> Bucket(ticks[i].time, interval) <= r
  {
    if ticks == [] then 0
    else
      var m := MaxBucket(ticks[1..], interval);
      assert forall i :: 1 <= i < |ticks| ==> ticks[i] == ticks[1..][i - 1];
      if ticks[0].time >= Anchor && Bucket(ticks[0].time, interval) > m then Bucket(ticks[0].time, interval) else m
  }

  /** The non-empty buckets in [lo, hi], ascending: `groupby('bucket', sort=True)`. */
  function Buckets(ticks: seq<Tick>, interval: int, lo: int, hi: int): (r: seq<int>)
    requires interval > 0
    ensures forall i :: 0 <= i < |r| ==> lo <= r[i] <= hi && BucketTicks(ticks, interval, r[i]) != []
    ensures forall i, j :: 0 <= i < j < |r| ==> r[i] < r[j]
    ensures forall b :: lo <= b <= hi && BucketTicks(ticks, interval, b) != [] ==> b in r
    decreases hi - lo
  {
    if lo > hi then []
    else (if BucketTicks(ticks, interval, lo) != [] then [lo] else []) + Buckets(ticks, interval, lo + 1, hi)
  }

  /** The non-empty buckets of the ticks kept at or after 09:15, ascending. */
  function CandleBuckets(kept: seq<Tick>, interval: int): seq<int>
    requires interval > 0
  {
    Buckets(kept, interval, 0, MaxBucket(kept, interval))
  }

  /** `make_candles_for_interval`: ticks before 09:15 are dropped; None when nothing is
      left, otherwise one candle per non-empty bucket, in bucket order. */
  function MakeCandles(ticks: seq<Tick>, interval: int, day: Date): (r: Option<seq<Candle>>)
    requires interval > 0
    ensures r.None? <==> forall i :: 0 <= i < |ticks| ==> ticks[i].time < Anchor
    ensures r.Some? ==> |r.value| > 0
  {
    var kept := Filter(ticks, AtOrAfterAnchor());
    if kept == [] then None
    else
      var bs := CandleBuckets(kept, interval);
      assert BucketTicks(kept, interval, Bucket(kept[0].time, interval)) != [] by {
        assert kept[0] in BucketTicks(kept, interval, Bucket(kept[0].time, interval));
      }
      Some(seq(|bs|, k requires 0 <= k < |bs| => CandleOf(day, interval, bs[k], BucketTicks(kept, interval, bs[k]))))
  }

  /** The buckets of kept ticks are the buckets of all ticks: the anchor test is part of
      bucket membership. */
  lemma KeptBucketTicks(ticks: seq<Tick>, interval: int, b: int)
    requires interval > 0
    ensures BucketTicks(Filter(ticks, AtOrAfterAnchor()), interval, b) == BucketTicks(ticks, interval, b)
  {
    FilterFilter(ticks, AtOrAfterAnchor(), InBucketP(interval, b));
  }

  /** Candle k of a day is the aggregate of the k-th non-empty bucket of ALL the day's ticks. */
  lemma MakeCandlesAt(ticks: seq<Tick>, interval: int, day: Date, k: nat)
    requires interval > 0 && MakeCandles(ticks, interval, day).Some?
    requires k < |MakeCandles(ticks, interval, day).value|
    ensures var bs := CandleBuckets(Filter(ticks, AtOrAfterAnchor()), interval);
      && k < |bs| && bs[k] >= 0 && BucketTicks(ticks, interval, bs[k]) != []
      && MakeCandles(ticks, interval, day).value[k] == CandleOf(day, interval, bs[k], BucketTicks(ticks, interval, bs[k]))
  {
    var bs := CandleBuckets(Filter(ticks, AtOrAfterAnchor()), interval);
    KeptBucketTicks(ticks, interval, bs[k]);
  }

  /** Candles come out in strictly increasing candle_time, one interval apart at least. */
  lemma MakeCandlesAscending(ticks: seq<Tick>, interval: int, day: Date)
    requires interval > 0 && MakeCandles(ticks, interval, day).Some?
    ensures var cs := MakeCandles(ticks, interval, day).value;
      forall i, j :: 0 <= i < j < |cs| ==> cs[i].candleTime + interval * 60 <= cs[j].candleTime
  {
    var cs := MakeCandles(ticks, interval, day).value;
    var bs := CandleBuckets(Filter(ticks, AtOrAfterAnchor()), interval);
    forall i, j | 0 <= i < j < |cs| ensures cs[i].candleTime + interval * 60 <= cs[j].candleTime {
      MakeCandlesAt(ticks, interval, day, i);
      MakeCandlesAt(ticks, interval, day, j);
      BucketStartIncreasing(bs[i], bs[j], interval);
    }
  }

  /** Candle k summarises exactly one non-empty bucket b of the day's ticks: its
      candle_time is 09:15 + b * interval, its open is the open of the first tick of the
      bucket and its close the close of the last one, its high is the largest high and
      its low the smallest low of the bucket. */
  lemma MakeCandlesSummary(ticks: seq<Tick>, interval: int, day: Date, k: nat)
    returns (b: int, first: nat, last: nat, hi: nat, lo: nat)
    requires interval > 0 && MakeCandles(ticks, interval, day).Some?
    requires k < |MakeCandles(ticks, interval, day).value|
    ensures var c := MakeCandles(ticks, interval, day).value[k];
      && b >= 0 && c.tradeDate == day && c.candleTime == BucketStart(b, interval)
      && first < |ticks| && InBucket(ticks[first], interval, b) && c.open == ticks[first].open
      && (forall j :: 0 <= j < first ==> !InBucket(ticks[j], interval, b))
      && last < |ticks| && InBucket(ticks[last], interval, b) && c.close == ticks[last].close
      && (forall j :: last < j < |ticks| ==> !InBucket(ticks[j], interval, b))
      && hi < |ticks| && InBucket(ticks[hi], interval, b) && c.high == ticks[hi].high
      && lo < |ticks| && InBucket(ticks[lo], interval, b) && c.low == ticks[lo].low
      && (forall j :: 0 <= j < |ticks| && InBucket(ticks[j], interval, b) ==> c.low <= ticks[j].low && ticks[j].high <= c.high)
  {
    MakeCandlesAt(ticks, interval, day, k);
    b := CandleBuckets(Filter(ticks, AtOrAfterAnchor()), interval)[k];
    first := FilterFirst(ticks, InBucketP(interval, b));
    last := FilterLast(ticks, InBucketP(interval, b));
    hi, lo := Extremes(ticks, interval, b);
  }

  /** Where a bucket's high and low come from, and that they bound the bucket. */
  lemma Extremes(ticks: seq<Tick>, interval: int, b: int) returns (hi: nat, lo: nat)
    requires BucketTicks(ticks, interval, b) != []
    ensures var ts := BucketTicks(ticks, interval, b);
      && hi < |ticks| && InBucket(ticks[hi], interval, b) && MaxHigh(ts) == ticks[hi].high
      && lo < |ticks| && InBucket(ticks[lo], interval, b) && MinLow(ts) == ticks[lo].low
      && (forall j :: 0 <= j < |ticks| && InBucket(ticks[j], interval, b) ==> MinLow(ts) <= ticks[j].low && ticks[j].high <= MaxHigh(ts))
  {
    var ts := BucketTicks(ticks, interval, b);
    var ih :| 0 <= ih < |ts| && ts[ih].high == MaxHigh(ts);
    var il :| 0 <= il < |ts| && ts[il].low == MinLow(ts);
    assert ts[ih] in ticks && InBucket(ts[ih], interval, b);
    assert ts[il] in ticks && InBucket(ts[il], interval, b);
    hi :| 0 <= hi < |ticks| && ticks[hi] == ts[ih];
    lo :| 0 <= lo < |ticks| && ticks[lo] == ts[il];
    forall j | 0 <= j < |ticks| && InBucket(ticks[j], interval, b)
      ensures MinLow(ts) <= ticks[j].low && ticks[j].high <= MaxHigh(ts)
    {
      assert InBucketP(interval, b)(ticks[j]);
      assert ticks[j] in ts;
    }
  }

  /** Every tick at or after 09:15 is covered by the candle of its bucket, whose window
      [candle_time, candle_time + interval) holds the tick's time. */
  lemma MakeCandlesCover(ticks: seq<Tick>, interval: int, day: Date, i: nat) returns (k: nat)
    requires interval > 0 && i < |ticks| && ticks[i].time >= Anchor
    ensures MakeCandles(ticks, interval, day).Some?
    ensures var cs := MakeCandles(ticks, interval, day).value;
      k < |cs| && cs[k].candleTime <= ticks[i].time < cs[k].candleTime + interval * 60
  {
    k := BucketListed(ticks, interval, i);
    MakeCandlesAt(ticks, interval, day, k);
    BucketWindow(ticks[i].time, interval);
  }

  /** The bucket of every tick at or after 09:15 is among the candle buckets. */
  lemma BucketListed(ticks: seq<Tick>, interval: int, i: nat) returns (k: nat)
    requires interval > 0 && i < |ticks| && ticks[i].time >= Anchor
    ensures var bs := CandleBuckets(Filter(ticks, AtOrAfterAnchor()), interval);
      k < |bs| && bs[k] == Bucket(ticks[i].time, interval)
  {
    var kept := Filter(ticks, AtOrAfterAnchor());
    var b := Bucket(ticks[i].time, interval);
    assert AtOrAfterAnchor()(ticks[i]);
    assert ticks[i] in kept;
    var j :| 0 <= j < |kept| && kept[j] == ticks[i];
    var bs := CandleBuckets(kept, interval);
    assert InBucketP(interval, b)(kept[j]);
    assert kept[j] in BucketTicks(kept, interval, b);
    assert b in bs;
    k :| 0 <= k < |bs| && bs[k] == b;
  }

  lemma BucketWindow(time: int, interval: int)
    requires interval > 0 && time >= Anchor
    ensures BucketStart(Bucket(time, interval), interval) <= time < BucketStart(Bucket(time, interval), interval) + interval * 60
  {
    var b := Bucket(time, interval);
    assert (b + 1) * (interval * 60) == b * (interval * 60) + interval * 60;
  }

  /** Candles built from well-formed ticks are well-formed: low <= open, close <= high. */
  lemma MakeCandlesWellFormed(ticks: seq<Tick>, interval: int, day: Date, k: nat)
    requires interval > 0 && MakeCandles(ticks, interval, day).Some?
    requires k < |MakeCandles(ticks, interval, day).value|
    requires forall i :: 0 <= i < |ticks| ==> WellFormedTick(ticks[i])
    ensures WellFormedCandle(MakeCandles(ticks, interval, day).value[k])
  {
    var b, first, last, hi, lo := MakeCandlesSummary(ticks, interval, day, k);
  }

  // ---- rounding ----

  /** numpy's `rint`: the nearest integer, ties to the even one. */
  function RoundHalfEven(y: real): (n: int)
    ensures y - 0.5 <= n as real <= y + 0.5
    ensures (n as real - y == 0.5 || y - n as real == 0.5) ==> n % 2 == 0
  {
    var f := y.Floor;
    var frac := y - f as real;
    if frac < 0.5 then f
    else if frac > 0.5 then f + 1
    else if f % 2 == 0 then f
    else f + 1
  }

  /** `round(2)` on a pandas column: round-half-to-even at two decimals. */
  function Round2(x: real): real {
    RoundHalfEven(x * 100.0) as real / 100.0
  }

  lemma RoundHalfEvenMonotone(x: real, y: real)
    requires x <= y
    ensures RoundHalfEven(x) <= RoundHalfEven(y)
  {
    var fx, fy := x.Floor, y.Floor;
    assert fx <= fy;
    if fx < fy {
      assert RoundHalfEven(x) <= fx + 1 <= fy <= RoundHalfEven(y);
    }
  }

  /** Rounding never reorders values. */
  lemma Round2Monotone(x: real, y: real)
    requires x <= y
    ensures Round2(x) <= Round2(y)
  {
    RoundHalfEvenMonotone(x * 100.0, y * 100.0);
  }

  /** Rounding an already rounded value changes nothing. */
  lemma Round2Idempotent(x: real)
    ensures Round2(Round2(x)) == Round2(x)
  {
    var n := RoundHalfEven(x * 100.0);
    assert Round2(x) * 100.0 == n as real;
    var m := RoundHalfEven(n as real);
    assert m == n;
  }

  // ---- Heikin-Ashi ----

  /** ha_close = (open + high + low + close) / 4. */
  function HaClose(c: Candle): real {
    (c.open + c.high + c.low + c.close) / 4.0
  }

  /** The unrounded Heikin-Ashi open: the first candle's open, then the mean of the
      previous (unrounded) ha_open and ha_close. */
  function HaOpen(cs: seq<Candle>, i: nat): real
    requires i < |cs|
  {
    if i == 0 then cs[0].open else (HaOpen(cs, i - 1) + HaClose(cs[i - 1])) / 2.0
  }

  function Max3(a: real, b: real, c: real): real {
    if a >= b && a >= c then a else if b >= c then b else c
  }

  function Min3(a: real, b: real, c: real): real {
    if a <= b && a <= c then a else if b <= c then b else c
  }

  /** Output row i: the Heikin-Ashi columns, rounded only here; ha_high and ha_low take
      the extremes over the already rounded ha_open and ha_close. */
  function HaRow(cs: seq<Candle>, i: nat): HaCandle
    requires i < |cs|
  {
    var o := Round2(HaOpen(cs, i));
    var c := Round2(HaClose(cs[i]));
    HaCandle(cs[i], o, Round2(Max3(cs[i].high, o, c)), Round2(Min3(cs[i].low, o, c)), c)
  }

  function HaSeries(cs: seq<Candle>): (r: seq<HaCandle>)
    ensures |r| == |cs|
  {
    seq(|cs|, i requires 0 <= i < |cs| => HaRow(cs, i))
  }

  /** `compute_heikin_ashi`: one output row per candle, the ha_open list built by
      appending in a loop, the other columns computed column-wise. */
  method ComputeHeikinAshi(candles: seq<Candle>) returns (ha: seq<HaCandle>)
    ensures |ha| == |candles|
    ensures forall i :: 0 <= i < |candles| ==> ha[i] == HaRow(candles, i)
  {
    if |candles| == 0 {
      return [];
    }
    var haClose := seq(|candles|, i requires 0 <= i < |candles| => HaClose(candles[i]));
    var haOpen := OpenColumn(candles, haClose);
    ha := seq(|candles|, k requires 0 <= k < |candles| =>
      var o := Round2(haOpen[k]);
      var c := Round2(haClose[k]);
      HaCandle(candles[k], o, Round2(Max3(candles[k].high, o, c)), Round2(Min3(candles[k].low, o, c)), c));
  }

  /** The ha_open list: the first open, then the mean of the previous ha_open and
      ha_close, appended one at a time. */
  method OpenColumn(candles: seq<Candle>, haClose: seq<real>) returns (haOpen: seq<real>)
    requires |candles| > 0 && |haClose| == |candles|
    requires forall i :: 0 <= i < |candles| ==> haClose[i] == HaClose(candles[i])
    ensures |haOpen| == |candles|
    ensures forall k :: 0 <= k < |candles| ==> haOpen[k] == HaOpen(candles, k)
  {
    haOpen := [candles[0].open];
    var i := 1;
    while i < |candles|
      invariant 1 <= i <= |candles| && |haOpen| == i
      invariant forall k :: 0 <= k < i ==> haOpen[k] == HaOpen(candles, k)
    {
      var prev := (haOpen[i - 1] + haClose[i - 1]) / 2.0;
      haOpen := haOpen + [prev];
      i := i + 1;
    }
  }

  /** A well-formed candle's ha_close lies within its low..high. */
  lemma HaCloseWithin(c: Candle)
    requires WellFormedCandle(c)
    ensures c.low <= HaClose(c) <= c.high
  {
  }

  /** The unrounded ha_open never leaves the price range of the candles so far: it is a
      weighted mean of the first open and of earlier ha_close values. */
  lemma {:induction false} HaOpenWithin(cs: seq<Candle>, i: nat, lo: real, hi: real)
    requires i < |cs|
    requires forall j :: 0 <= j <= i ==> WellFormedCandle(cs[j]) && lo <= cs[j].low && cs[j].high <= hi
    ensures lo <= HaOpen(cs, i) <= hi
  {
    if i > 0 {
      HaOpenWithin(cs, i - 1, lo, hi);
      HaCloseWithin(cs[i - 1]);
    }
  }

  /** Every output row is a consistent bar: ha_low <= ha_open, ha_close <= ha_high, and
      the bar reaches the candle's own (rounded) high and low. */
  lemma HaRowEnvelope(cs: seq<Candle>, i: nat)
    requires i < |cs|
    ensures var h := HaRow(cs, i);
      && h.haLow <= h.haOpen <= h.haHigh && h.haLow <= h.haClose <= h.haHigh
      && h.haLow <= Round2(cs[i].low) && Round2(cs[i].high) <= h.haHigh
  {
    var o := Round2(HaOpen(cs, i));
    var c := Round2(HaClose(cs[i]));
    var mx := Max3(cs[i].high, o, c);
    var mn := Min3(cs[i].low, o, c);
    Round2Monotone(o, mx);
    Round2Monotone(c, mx);
    Round2Monotone(cs[i].high, mx);
    Round2Monotone(mn, o);
    Round2Monotone(mn, c);
    Round2Monotone(mn, cs[i].low);
    Round2Idempotent(HaOpen(cs, i));
    Round2Idempotent(HaClose(cs[i]));
  }

  // ---- day loop ----

  /** `daterange(start, end)`: the days from start up to, not including, end. */
  method DateRange(start: Date, end: Date) returns (days: seq<Date>)
    requires ValidDate(start) && ValidDate(end)
    ensures days == DaysBetween(start, end)
  {
    days := [];
    var cur := start;
    while Before(cur, end)
      invariant ValidDate(cur)
      invariant days + DaysBetween(cur, end) == DaysBetween(start, end)
      decreases Ordinal(end) - Ordinal(cur)
    {
      OrdinalBefore(cur, end);
      OrdinalNextDay(cur);
      assert DaysBetween(cur, end) == [cur] + DaysBetween(NextDay(cur), end);
      days := days + [cur];
      cur := NextDay(cur);
    }
  }

  /** What one day contributes: nothing without ticks or candles, else its HA rows. */
  function DayOutput(dayRows: map<Date, seq<Tick>>, day: Date, interval: int): seq<HaCandle>
    requires interval > 0
  {
    if day !in dayRows || dayRows[day] == [] then []
    else match MakeCandles(dayRows[day], interval, day)
      case None => []
      case Some(cs) => HaSeries(cs)
  }

  function RangeOutput(dayRows: map<Date, seq<Tick>>, days: seq<Date>, interval: int): seq<HaCandle>
    requires interval > 0
  {
    if days == [] then [] else DayOutput(dayRows, days[0], interval) + RangeOutput(dayRows, days[1..], interval)
  }

  /** `process_range`: the rows written to the target table, day by day, and their count.
      `dayRows[d]` stands for the rows the per-day query returns for date d. */
  method ProcessRange(start: Date, end: Date, interval: int, dayRows: map<Date, seq<Tick>>)
    returns (total: nat, written: seq<HaCandle>)
    requires ValidDate(start) && ValidDate(end) && interval > 0
    ensures written == RangeOutput(dayRows, DaysBetween(start, end), interval)
    ensures total == |written|
  {
    var days := DateRange(start, end);
    total, written := 0, [];
    var i := 0;
    while i < |days|
      invariant 0 <= i <= |days|
      invariant written + RangeOutput(dayRows, days[i..], interval) == RangeOutput(dayRows, days, interval)
      invariant total == |written|
    {
      RangeStep(dayRows, days, i, interval);
      var ha := ProcessDay(dayRows, days[i], interval);
      assert written + (ha + RangeOutput(dayRows, days[i + 1..], interval))
        == (written + ha) + RangeOutput(dayRows, days[i + 1..], interval);
      written := written + ha;
      total := total + |ha|;
      i := i + 1;
    }
    assert days[i..] == [];
  }

  /** The output from day i on: day i's output, then the rest. */
  lemma RangeStep(dayRows: map<Date, seq<Tick>>, days: seq<Date>, i: nat, interval: int)
    requires interval > 0 && i < |days|
    ensures RangeOutput(dayRows, days[i..], interval) ==
      DayOutput(dayRows, days[i], interval) + RangeOutput(dayRows, days[i + 1..], interval)
  {
    assert days[i..][1..] == days[i + 1..];
  }

  /** One day of `process_range`: skipped without ticks or candles, else its candles'
      HA rows. */
  method ProcessDay(dayRows: map<Date, seq<Tick>>, day: Date, interval: int) returns (ha: seq<HaCandle>)
    requires interval > 0
    ensures ha == DayOutput(dayRows, day, interval)
  {
    if day !in dayRows || dayRows[day] == [] {
      return [];
    }
    var candles := MakeCandles(dayRows[day], interval, day);
    if candles.None? || candles.value == [] {
      return [];
    }
    ha := ComputeHeikinAshi(candles.value);
    assert ha == HaSeries(candles.value);
  }

  /** Every row written by a range run belongs to a day of that range, and the run's
      output is the concatenation of its days' outputs. */
  lemma {:induction false} RangeOutputDates(dayRows: map<Date, seq<Tick>>, days: seq<Date>, interval: int)
    requires interval > 0
    ensures forall r :: r in RangeOutput(dayRows, days, interval) ==> r.candle.tradeDate in days
  {
    if days != [] {
      RangeOutputDates(dayRows, days[1..], interval);
      var d := days[0];
      if d in dayRows && dayRows[d] != [] && MakeCandles(dayRows[d], interval, d).Some? {
        var cs := MakeCandles(dayRows[d], interval, d).value;
        forall k | 0 <= k < |cs| ensures cs[k].tradeDate == d {
          var b, first, last, hi, lo := MakeCandlesSummary(dayRows[d], interval, d, k);
        }
      }
    }
  }

  /** `process_range` writes only rows dated start <= trade_date < end. */
  lemma ProcessRangeWithinRange(start: Date, end: Date, interval: int, dayRows: map<Date, seq<Tick>>)
    requires ValidDate(start) && ValidDate(end) && interval > 0
    ensures forall r :: r in RangeOutput(dayRows, DaysBetween(start, end), interval) ==>
      ValidDate(r.candle.tradeDate) && NotAfter(start, r.candle.tradeDate) && Before(r.candle.tradeDate, end)
  {
    var days := DaysBetween(start, end);
    RangeOutputDates(dayRows, days, interval);
    DaysBetweenSteps(start, end);
    forall r | r in RangeOutput(dayRows, days, interval)
      ensures ValidDate(r.candle.tradeDate) && NotAfter(start, r.candle.tradeDate) && Before(r.candle.tradeDate, end)
    {
      var d := r.candle.tradeDate;
      assert ValidDate(d);
      DaysBetweenExact(start, end, d);
    }
  }

  /** The targets processed for a set of widths, in order: big, small, then 1-minute. */
  function Targets(iv: Intervals): (r: seq<(int, string)>)
    ensures |r| == 3 && r[0] == (iv.big, "ha_big") && r[1] == (iv.small, "ha_small") && r[2] == (iv.oneM, "ha_1m")
  {
    [(iv.big, "ha_big"), (iv.small, "ha_small"), (iv.oneM, "ha_1m")]
  }

  /** The widths read from settings, or 15, 5 and 1 minutes when there is no row. */
  function IntervalsOrDefault(row: Option<Intervals>): (r: Intervals)
    ensures row.None? ==> r == Intervals(15, 5, 1)
    ensures row.Some? ==> r == row.value
  {
    if row.None? then DefaultIntervals else row.value
  }
}
