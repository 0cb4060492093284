/** Candles: fills gathered into buckets of time, and what a coarse chart has to do
    with a fine one. */
module Candles {
  import opened Reals
  import opened Text

  datatype FillRow = FillRow(fillId: int, time: real, price: real, quantity: real)

  datatype Candle = Candle(open: real, high: real, low: real, close: real, volume: real, timestamp: int)

  // ---- Intervals ----

  function IntervalToSeconds(interval: string): (r: Option<int>)
    ensures r.Some? ==> r.value in {60, 300, 900, 3600, 14400, 86400}
  {
    var key := Lower(Strip(interval));
    if key == "1m" then Some(60)
    else if key == "5m" then Some(300)
    else if key == "15m" then Some(900)
    else if key == "1h" then Some(3600)
    else if key == "4h" then Some(14400)
    else if key == "1d" then Some(86400)
    else None
  }

  /** A decimal number, read from the left. */
  function DecimalValue(digits: string): int {
    if digits == "" then 0 else 10 * DecimalValue(digits[..|digits| - 1]) + (digits[|digits| - 1] as int - '0' as int)
  }

  function UnitSeconds(unit: char): int {
    if unit == 'm' then 60 else if unit == 'h' then 60 * 60 else 24 * 60 * 60
  }

  /** Six intervals are supported, blanks and case apart, and each lasts what it says: so many
      minutes, hours or days. */
  lemma {:induction false} IntervalsLastWhatTheySay(interval: string)
    ensures var (key, seconds) := (Lower(Strip(interval)), IntervalToSeconds(interval));
            && (seconds.Some? <==> key in {"1m", "5m", "15m", "1h", "4h", "1d"})
            && (seconds.Some? ==> seconds.value == DecimalValue(key[..|key| - 1]) * UnitSeconds(key[|key| - 1]))
  {
    hide Lower, Strip;
    var key := Lower(Strip(interval));
    assert DecimalValue("1") == 1 && DecimalValue("5") == 5 && DecimalValue("4") == 4 by {
      assert "1"[..0] == "" && "5"[..0] == "" && "4"[..0] == "";
    }
    assert DecimalValue("15") == 15 by {
      assert "15"[..1] == "1";
    }
    assert "1m"[..1] == "1" && "5m"[..1] == "5" && "15m"[..2] == "15" && "1h"[..1] == "1" && "4h"[..1] == "4" && "1d"[..1] == "1";
    hide DecimalValue;
  }

  predicate Divides(fine: int, coarse: int)
    requires fine > 0
  {
    coarse % fine == 0
  }

  lemma {:induction false} SecondsDivide(fine: int, coarse: int)
    requires fine in {60, 300, 900, 3600, 14400, 86400} && coarse in {60, 300, 900, 3600, 14400, 86400} && fine <= coarse
    ensures Divides(fine, coarse)
  {
    if fine == 60 {
      assert coarse % 60 == 0;
    } else if fine == 300 {
      assert coarse % 300 == 0;
    } else if fine == 900 {
      assert coarse % 900 == 0;
    } else if fine == 3600 {
      assert coarse % 3600 == 0;
    }
  }

  /** Of two supported intervals the longer is a multiple of the shorter. */
  lemma {:induction false} SupportedIntervalsDivide(fine: string, coarse: string)
    requires IntervalToSeconds(fine).Some? && IntervalToSeconds(coarse).Some?
    requires IntervalToSeconds(fine).value <= IntervalToSeconds(coarse).value
    ensures Divides(IntervalToSeconds(fine).value, IntervalToSeconds(coarse).value)
  {
    hide IntervalToSeconds, Divides;
    SecondsDivide(IntervalToSeconds(fine).value, IntervalToSeconds(coarse).value);
  }

  /** Python's int(): towards zero. */
  function Truncated(time: real): int {
    if time >= 0.0 then time.Floor else -((-time).Floor)
  }

  /** window_start_sec on whole seconds; Dafny's division floors for a positive step, as
      Python's does. */
  function Bucket(timestamp: int, step: int): int
    requires step > 0
  {
    timestamp / step * step
  }

  lemma {:induction false} ScaleBounds(a: int, step: int)
    requires step > 0
    ensures a >= 1 ==> a * step >= step
    ensures a <= -1 ==> a * step <= -step
  {
    if a >= 1 {
      assert (a - 1) * step >= 0;
    } else if a <= -1 {
      assert (-a - 1) * step >= 0;
    }
  }

  lemma {:induction false} MultipleOf(q: int, step: int)
    requires step > 0
    ensures q * step % step == 0
  {
    var r, d := q * step % step, q * step / step;
    assert q * step == d * step + r;
    assert (q - d) * step == r;
    ScaleBounds(q - d, step);
  }

  lemma {:induction false} BucketBounds(t: int, step: int)
    requires step > 0
    ensures Bucket(t, step) <= t < Bucket(t, step) + step && Bucket(t, step) % step == 0
    ensures t % step == 0 ==> Bucket(t, step) == t
  {
    assert t == t / step * step + t % step;
    MultipleOf(t / step, step);
  }

  lemma {:induction false} DivideBetween(t: int, q: int, step: int)
    requires step > 0 && q * step <= t < (q + 1) * step
    ensures t / step == q
  {
    var d, r := t / step, t % step;
    assert t == d * step + r;
    assert (q + 1) * step == q * step + step;
    assert (d - q) * step == d * step - q * step;
    ScaleBounds(d - q, step);
  }

  /** A bucket is the only multiple of the step that starts at or before t and ends
      after it. */
  lemma {:induction false} BucketUnique(t: int, b: int, step: int)
    requires step > 0 && b % step == 0 && b <= t < b + step
    ensures Bucket(t, step) == b
  {
    var q := b / step;
    assert b == q * step;
    assert (q + 1) * step == b + step;
    DivideBetween(t, q, step);
  }

  lemma {:induction false} BucketMonotone(t: int, u: int, step: int)
    requires step > 0 && t <= u
    ensures Bucket(t, step) <= Bucket(u, step)
  {
    hide Bucket;
    BucketBounds(t, step);
    BucketBounds(u, step);
    if Bucket(u, step) < Bucket(t, step) {
      BucketUnique(t, Bucket(u, step), step);
    }
  }

  lemma {:induction false} CoarseIsFine(c: int, fine: int, coarse: int)
    requires fine > 0 && coarse > 0 && coarse % fine == 0 && c % coarse == 0
    ensures c % fine == 0
  {
    var m, k := coarse / fine, c / coarse;
    assert c == k * coarse && coarse == m * fine;
    assert c == k * m * fine;
    MultipleOf(k * m, fine);
  }

  /** Buckets nest: the coarse bucket of a second is that of its fine bucket. */
  lemma {:induction false} BucketsNest(t: int, fine: int, coarse: int)
    requires fine > 0 && coarse > 0 && coarse % fine == 0
    ensures Bucket(Bucket(t, fine), coarse) == Bucket(t, coarse)
  {
    hide Bucket;
    var b, c := Bucket(t, fine), Bucket(t, coarse);
    BucketBounds(t, fine);
    BucketBounds(t, coarse);
    CoarseIsFine(c, fine, coarse);
    if b < c {
      BucketUnique(c, b, fine);
      BucketBounds(c, fine);
    }
    BucketUnique(b, c, coarse);
  }

  // ---- Sorting ----

  /** Python's sorted is stable: a row goes after all rows of the same key. */
  function Insert<T>(rows: seq<T>, row: T, key: T -> real): (r: seq<T>)
    ensures |r| == |rows| + 1
  {
    if rows != [] && key(rows[|rows| - 1]) > key(row) then
      Insert(rows[..|rows| - 1], row, key) + [rows[|rows| - 1]]
    else rows + [row]
  }

  function Sort<T>(rows: seq<T>, key: T -> real): (r: seq<T>)
    ensures |r| == |rows|
  {
    if rows == [] then [] else Insert(Sort(rows[..|rows| - 1], key), rows[|rows| - 1], key)
  }

  ghost predicate InOrder<T>(rows: seq<T>, key: T -> real) {
    forall i, j :: 0 <= i < j < |rows| ==> key(rows[i]) <= key(rows[j])
  }

  function WithKey<T>(rows: seq<T>, key: T -> real, k: real): seq<T> {
    if rows == [] then []
    else WithKey(rows[..|rows| - 1], key, k) + if key(rows[|rows| - 1]) == k then [rows[|rows| - 1]] else []
  }

  lemma {:induction false} InsertKeepsRows<T>(rows: seq<T>, row: T, key: T -> real)
    ensures multiset(Insert(rows, row, key)) == multiset(rows) + multiset{row}
  {
    if rows != [] && key(rows[|rows| - 1]) > key(row) {
      InsertKeepsRows(rows[..|rows| - 1], row, key);
      assert rows == rows[..|rows| - 1] + [rows[|rows| - 1]];
    }
  }

  lemma {:induction false} InsertedIsOld<T>(rows: seq<T>, row: T, key: T -> real, i: nat)
    requires i < |Insert(rows, row, key)|
    ensures Insert(rows, row, key)[i] == row || exists j :: 0 <= j < |rows| && rows[j] == Insert(rows, row, key)[i]
  {
    if rows != [] && key(rows[|rows| - 1]) > key(row) && i < |rows| {
      InsertedIsOld(rows[..|rows| - 1], row, key, i);
    }
  }

  lemma {:induction false} InsertSorts<T>(rows: seq<T>, row: T, key: T -> real)
    requires InOrder(rows, key)
    ensures InOrder(Insert(rows, row, key), key)
  {
    if rows != [] && key(rows[|rows| - 1]) > key(row) {
      var init, last := rows[..|rows| - 1], rows[|rows| - 1];
      InsertSorts(init, row, key);
      var inserted := Insert(init, row, key);
      forall i | 0 <= i < |inserted| ensures key(inserted[i]) <= key(last) {
        InsertedIsOld(init, row, key, i);
      }
    }
  }

  lemma {:induction false} InsertIsStable<T>(rows: seq<T>, row: T, key: T -> real, k: real)
    ensures WithKey(Insert(rows, row, key), key, k) == WithKey(rows, key, k) + if key(row) == k then [row] else []
  {
    if rows != [] && key(rows[|rows| - 1]) > key(row) {
      var init, last := rows[..|rows| - 1], rows[|rows| - 1];
      InsertIsStable(init, row, key, k);
      assert (Insert(init, row, key) + [last])[..|rows|] == Insert(init, row, key);
      if key(row) == k {
        assert WithKey(rows, key, k) == WithKey(init, key, k);
      }
    } else {
      assert (rows + [row])[..|rows|] == rows;
    }
  }

  lemma {:induction false} SortSorts<T>(rows: seq<T>, key: T -> real)
    ensures InOrder(Sort(rows, key), key)
  {
    hide Insert;
    if rows != [] {
      SortSorts(rows[..|rows| - 1], key);
      InsertSorts(Sort(rows[..|rows| - 1], key), rows[|rows| - 1], key);
    }
  }

  lemma {:induction false} SortKeepsRows<T>(rows: seq<T>, key: T -> real)
    ensures multiset(Sort(rows, key)) == multiset(rows)
  {
    hide Insert;
    if rows != [] {
      var init, last := rows[..|rows| - 1], rows[|rows| - 1];
      SortKeepsRows(init, key);
      InsertKeepsRows(Sort(init, key), last, key);
      assert rows == init + [last];
    }
  }

  lemma {:induction false} SortKeepsOrder<T>(rows: seq<T>, key: T -> real, k: real)
    ensures WithKey(Sort(rows, key), key, k) == WithKey(rows, key, k)
  {
    hide Insert;
    if rows != [] {
      SortKeepsOrder(rows[..|rows| - 1], key, k);
      InsertIsStable(Sort(rows[..|rows| - 1], key), rows[|rows| - 1], key, k);
    }
  }

  /** Sorting puts the rows in order, keeps them all, and keeps rows of one key in the
      order in which they came. */
  lemma {:induction false} SortIsStable<T>(rows: seq<T>, key: T -> real, k: real)
    ensures InOrder(Sort(rows, key), key)
    ensures multiset(Sort(rows, key)) == multiset(rows)
    ensures WithKey(Sort(rows, key), key, k) == WithKey(rows, key, k)
  {
    SortSorts(rows, key);
    SortKeepsRows(rows, key);
    SortKeepsOrder(rows, key, k);
  }

  function FillTime(f: FillRow): real { f.time }

  // ---- Rolling up ----

  /** Two candles in a row as one. */
  function Merge(a: Candle, b: Candle): Candle {
    Candle(a.open, Max(a.high, b.high), Min(a.low, b.low), b.close, a.volume + b.volume, a.timestamp)
  }

  function Push(candles: seq<Candle>, c: Candle, step: int): seq<Candle>
    requires step > 0
  {
    var b := Bucket(c.timestamp, step);
    if candles != [] && candles[|candles| - 1].timestamp == b then
      candles[..|candles| - 1] + [Merge(candles[|candles| - 1], c)]
    else candles + [c.(timestamp := b)]
  }

  /** Neighbouring candles of one bucket become one candle of that bucket. */
  function Rollup(candles: seq<Candle>, step: int): seq<Candle>
    requires step > 0
  {
    if candles == [] then [] else Push(Rollup(candles[..|candles| - 1], step), candles[|candles| - 1], step)
  }

  lemma {:induction false} RollupLast(candles: seq<Candle>, c: Candle, step: int)
    requires step > 0
    ensures Rollup(candles + [c], step) == Push(Rollup(candles, step), c, step)
  {
    assert (candles + [c])[..|candles|] == candles;
  }

  lemma {:induction false} RollupNothing(step: int)
    requires step > 0
    ensures Rollup([], step) == []
  {
  }

  lemma {:induction false} PushOnBucket(candles: seq<Candle>, last: Candle, c: Candle, step: int)
    requires step > 0 && last.timestamp == Bucket(c.timestamp, step)
    ensures Push(candles + [last], c, step) == candles + [Merge(last, c)]
  {
    hide Bucket, Merge;
    assert (candles + [last])[..|candles|] == candles;
  }

  lemma {:induction false} MergeInStages(last: Candle, a: Candle, c: Candle)
    ensures Merge(Merge(last, a), c) == Merge(last, Merge(a, c))
    ensures Merge(a, c).timestamp == a.timestamp
    ensures forall b :: Merge(a.(timestamp := b), c) == Merge(a, c).(timestamp := b)
    ensures forall b :: Merge(last, a.(timestamp := b)) == Merge(last, a)
  {
  }

  lemma {:induction false} PushMerged(candles: seq<Candle>, a: Candle, c: Candle, step: int)
    requires step > 0 && Bucket(a.timestamp, step) == Bucket(c.timestamp, step)
    ensures Push(Push(candles, a, step), c, step) == Push(candles, Merge(a, c), step)
  {
    var b := Bucket(c.timestamp, step);
    hide Bucket, Merge;
    if candles != [] && candles[|candles| - 1].timestamp == b {
      var init, last := candles[..|candles| - 1], candles[|candles| - 1];
      assert candles == init + [last];
      MergeInStages(last, a, c);
      MergeInStages(last, last, a);
      PushOnBucket(init, last, a, step);
      PushOnBucket(init, Merge(last, a), c, step);
      PushOnBucket(init, last, Merge(a, c), step);
    } else {
      MergeInStages(a, a, c);
      PushOnBucket(candles, a.(timestamp := b), c, step);
    }
  }

  /** Pushing looks at a candle's time only through its bucket. */
  lemma {:induction false} PushNesting(candles: seq<Candle>, c: Candle, b: int, step: int)
    requires step > 0 && Bucket(b, step) == Bucket(c.timestamp, step)
    ensures Push(candles, c.(timestamp := b), step) == Push(candles, c, step)
  {
    hide Bucket;
  }

  lemma {:induction false} PushInStages(done: seq<Candle>, c: Candle, fine: int, coarse: int)
    requires fine > 0 && coarse > 0 && coarse % fine == 0
    ensures Rollup(Push(done, c, fine), coarse) == Push(Rollup(done, coarse), c, coarse)
  {
    BucketsNest(c.timestamp, fine, coarse);
    hide Bucket, Rollup, Merge;
    var b := Bucket(c.timestamp, fine);
    if done != [] && done[|done| - 1].timestamp == b {
      var rest, last := done[..|done| - 1], done[|done| - 1];
      assert done == rest + [last];
      PushOnBucket(rest, last, c, fine);
      RollupLast(rest, last, coarse);
      RollupLast(rest, Merge(last, c), coarse);
      PushMerged(Rollup(rest, coarse), last, c, coarse);
    } else {
      RollupLast(done, c.(timestamp := b), coarse);
      PushNesting(Rollup(done, coarse), c, b, coarse);
    }
  }

  /** Rolling up in two stages, first fine and then coarse, is rolling up at once. */
  lemma {:induction false} RollupInStages(candles: seq<Candle>, fine: int, coarse: int)
    requires fine > 0 && coarse > 0 && coarse % fine == 0
    ensures Rollup(Rollup(candles, fine), coarse) == Rollup(candles, coarse)
  {
    hide Rollup, Push, Bucket;
    if candles == [] {
      RollupNothing(fine);
      RollupNothing(coarse);
    } else {
      var init, c := candles[..|candles| - 1], candles[|candles| - 1];
      assert candles == init + [c];
      RollupInStages(init, fine, coarse);
      RollupLast(init, c, fine);
      RollupLast(init, c, coarse);
      PushInStages(Rollup(init, fine), c, fine, coarse);
    }
  }

  /** A fill as a candle of one second. */
  function Tick(f: FillRow): Candle {
    Candle(f.price, f.price, f.price, f.price, f.quantity, Truncated(f.time))
  }

  function Ticks(fills: seq<FillRow>): (ticks: seq<Candle>)
    ensures |ticks| == |fills|
    ensures forall i :: 0 <= i < |fills| ==> ticks[i] == Tick(fills[i])
  {
    seq(|fills|, i requires 0 <= i < |fills| => Tick(fills[i]))
  }

  function Aggregate(fills: seq<FillRow>, step: int): seq<Candle>
    requires step > 0
  {
    Rollup(Ticks(Sort(fills, FillTime)), step)
  }

  /** Multi-resolution agreement: the candles of a coarse interval are the fine candles
      rolled up. */
  lemma {:induction false} CoarseIsFineRolledUp(fills: seq<FillRow>, fine: int, coarse: int)
    requires fine > 0 && coarse > 0 && coarse % fine == 0
    ensures Rollup(Aggregate(fills, fine), coarse) == Aggregate(fills, coarse)
  {
    RollupInStages(Ticks(Sort(fills, FillTime)), fine, coarse);
  }

  // ---- Candle by candle ----

  ghost predicate Ascending(candles: seq<Candle>) {
    forall i, j :: 0 <= i < j < |candles| ==> candles[i].timestamp <= candles[j].timestamp
  }

  ghost predicate StrictlyAscending(candles: seq<Candle>) {
    forall i, j :: 0 <= i < j < |candles| ==> candles[i].timestamp < candles[j].timestamp
  }

  function InBucket(candles: seq<Candle>, b: int, step: int): seq<Candle>
    requires step > 0
  {
    if candles == [] then []
    else
      InBucket(candles[..|candles| - 1], b, step)
      + if Bucket(candles[|candles| - 1].timestamp, step) == b then [candles[|candles| - 1]] else []
  }

  function MergeAll(candles: seq<Candle>): Candle
    requires candles != []
  {
    if |candles| == 1 then candles[0] else Merge(MergeAll(candles[..|candles| - 1]), candles[|candles| - 1])
  }

  function Volume(candles: seq<Candle>): real {
    if candles == [] then 0.0 else Volume(candles[..|candles| - 1]) + candles[|candles| - 1].volume
  }

  /** First open, greatest high, least low, last close, summed volume. */
  lemma {:induction false} MergeAllMeans(candles: seq<Candle>)
    requires candles != []
    ensures var c := MergeAll(candles);
            && c.open == candles[0].open && c.close == candles[|candles| - 1].close
            && (forall i :: 0 <= i < |candles| ==> candles[i].high <= c.high && c.low <= candles[i].low)
            && (exists i :: 0 <= i < |candles| && candles[i].high == c.high)
            && (exists i :: 0 <= i < |candles| && candles[i].low == c.low)
            && c.volume == Volume(candles)
  {
    if |candles| == 1 {
      assert Volume(candles[..0]) == 0.0;
    } else {
      var init := candles[..|candles| - 1];
      MergeAllMeans(init);
      var h :| 0 <= h < |init| && init[h].high == MergeAll(init).high;
      var l :| 0 <= l < |init| && init[l].low == MergeAll(init).low;
      assert candles[h].high == init[h].high && candles[l].low == init[l].low;
      var c := MergeAll(candles);
      assert c.high == candles[h].high || c.high == candles[|candles| - 1].high;
      assert c.low == candles[l].low || c.low == candles[|candles| - 1].low;
    }
  }

  ghost predicate HasBucket(rolled: seq<Candle>, b: int) {
    exists k :: 0 <= k < |rolled| && rolled[k].timestamp == b
  }

  /** rolled is the candle-by-candle account of candles: one candle a bucket, in order,
      each merging exactly the candles of its bucket. */
  ghost predicate Accounts(rolled: seq<Candle>, candles: seq<Candle>, step: int)
    requires step > 0
  {
    && StrictlyAscending(rolled)
    && (forall k :: 0 <= k < |rolled| ==>
          var bucket := InBucket(candles, rolled[k].timestamp, step);
          bucket != [] && rolled[k] == MergeAll(bucket).(timestamp := rolled[k].timestamp))
    && (forall i :: 0 <= i < |candles| ==> HasBucket(rolled, Bucket(candles[i].timestamp, step)))
  }

  lemma {:induction false} InBucketEmpty(candles: seq<Candle>, b: int, step: int)
    requires step > 0
    ensures InBucket(candles, b, step) == []
       <==> forall i :: 0 <= i < |candles| ==> Bucket(candles[i].timestamp, step) != b
  {
    hide Bucket;
    if candles != [] {
      InBucketEmpty(candles[..|candles| - 1], b, step);
    }
  }

  lemma {:induction false} InBucketLast(candles: seq<Candle>, c: Candle, b: int, step: int)
    requires step > 0
    ensures InBucket(candles + [c], b, step)
         == InBucket(candles, b, step) + if Bucket(c.timestamp, step) == b then [c] else []
  {
    assert (candles + [c])[..|candles|] == candles;
  }

  lemma {:induction false} MergeAllLast(candles: seq<Candle>, c: Candle)
    requires candles != []
    ensures MergeAll(candles + [c]) == Merge(MergeAll(candles), c)
  {
    assert (candles + [c])[..|candles|] == candles;
  }

  lemma {:induction false} MergeOne(c: Candle)
    ensures MergeAll([c]) == c
  {
  }

  lemma {:induction false} BucketNotAfter(init: seq<Candle>, c: Candle, b: int, step: int)
    requires step > 0 && Ascending(init + [c]) && InBucket(init, b, step) != []
    ensures b <= Bucket(c.timestamp, step)
  {
    hide Bucket;
    InBucketEmpty(init, b, step);
    var i :| 0 <= i < |init| && Bucket(init[i].timestamp, step) == b;
    assert (init + [c])[i].timestamp <= (init + [c])[|init|].timestamp;
    BucketMonotone(init[i].timestamp, c.timestamp, step);
  }

  lemma {:induction false} PushAccounts(rolled: seq<Candle>, init: seq<Candle>, c: Candle, step: int)
    requires step > 0 && Accounts(rolled, init, step) && Ascending(init + [c])
    ensures Accounts(Push(rolled, c, step), init + [c], step)
  {
    hide Bucket, MergeAll, InBucket;
    var candles, b, rolled' := init + [c], Bucket(c.timestamp, step), Push(rolled, c, step);
    forall k | 0 <= k < |rolled|
      ensures rolled[k].timestamp <= b
      ensures b == rolled[k].timestamp ==> InBucket(candles, b, step) == InBucket(init, b, step) + [c]
      ensures b != rolled[k].timestamp ==>
        InBucket(candles, rolled[k].timestamp, step) == InBucket(init, rolled[k].timestamp, step)
    {
      InBucketLast(init, c, rolled[k].timestamp, step);
      BucketNotAfter(init, c, rolled[k].timestamp, step);
    }
    if rolled != [] && rolled[|rolled| - 1].timestamp == b {
      var n := |rolled| - 1;
      MergeAllLast(InBucket(init, b, step), c);
      assert rolled'[n] == MergeAll(InBucket(candles, b, step)).(timestamp := b);
      assert forall k :: 0 <= k < n ==> rolled'[k] == rolled[k] && rolled[k].timestamp < b;
    } else {
      forall k | 0 <= k < |rolled| ensures rolled[k].timestamp < b {
      }
      assert !HasBucket(rolled, b);
      forall i | 0 <= i < |init| ensures Bucket(init[i].timestamp, step) != b {
        assert HasBucket(rolled, Bucket(init[i].timestamp, step));
      }
      InBucketEmpty(init, b, step);
      InBucketLast(init, c, b, step);
      assert InBucket(candles, b, step) == [c];
      MergeOne(c);
    }
    assert StrictlyAscending(rolled');
    forall k | 0 <= k < |rolled'|
      ensures InBucket(candles, rolled'[k].timestamp, step) != []
      ensures rolled'[k] == MergeAll(InBucket(candles, rolled'[k].timestamp, step)).(timestamp := rolled'[k].timestamp)
    {
    }
    forall i | 0 <= i < |candles| ensures HasBucket(rolled', Bucket(candles[i].timestamp, step)) {
      if i < |init| {
        assert HasBucket(rolled, Bucket(init[i].timestamp, step));
        var k :| 0 <= k < |rolled| && rolled[k].timestamp == Bucket(init[i].timestamp, step);
        assert rolled'[k].timestamp == rolled[k].timestamp;
      } else {
        assert rolled'[|rolled'| - 1].timestamp == b;
      }
    }
  }

  lemma {:induction false} RollupAccounts(candles: seq<Candle>, step: int)
    requires step > 0 && Ascending(candles)
    ensures Accounts(Rollup(candles, step), candles, step)
  {
    if candles != [] {
      hide Accounts, Push;
      var init, c := candles[..|candles| - 1], candles[|candles| - 1];
      RollupAccounts(init, step);
      assert init + [c] == candles;
      PushAccounts(Rollup(init, step), init, c, step);
    }
  }

  function Stamps(candles: seq<Candle>): (stamps: seq<int>)
    ensures |stamps| == |candles|
    ensures forall i :: 0 <= i < |candles| ==> stamps[i] == candles[i].timestamp
  {
    seq(|candles|, i requires 0 <= i < |candles| => candles[i].timestamp)
  }

  ghost predicate HasKey(keys: seq<int>, b: int) {
    exists k :: 0 <= k < |keys| && keys[k] == b
  }

  lemma {:induction false} StampOf(candles: seq<Candle>, b: int)
    requires HasBucket(candles, b)
    ensures HasKey(Stamps(candles), b)
  {
    var k :| 0 <= k < |candles| && candles[k].timestamp == b;
    assert Stamps(candles)[k] == b;
  }

  ghost predicate Within(xs: seq<int>, ys: seq<int>) {
    forall i :: 0 <= i < |xs| ==> HasKey(ys, xs[i])
  }

  lemma {:induction false} StampsWithin(xs: seq<Candle>, ys: seq<Candle>, candles: seq<Candle>, step: int)
    requires step > 0 && Accounts(xs, candles, step) && Accounts(ys, candles, step)
    ensures Within(Stamps(xs), Stamps(ys))
  {
    hide Bucket, InBucket, MergeAll;
    forall k | 0 <= k < |xs| ensures HasKey(Stamps(ys), Stamps(xs)[k]) {
      InBucketEmpty(candles, xs[k].timestamp, step);
      assert HasBucket(ys, xs[k].timestamp);
      StampOf(ys, xs[k].timestamp);
    }
  }

  ghost predicate Increasing(keys: seq<int>) {
    forall i, j :: 0 <= i < j < |keys| ==> keys[i] < keys[j]
  }

  lemma {:induction false} WithoutTheLast(xs: seq<int>, ys: seq<int>)
    requires xs != [] && ys != [] && Increasing(xs) && Within(xs, ys) && xs[|xs| - 1] == ys[|ys| - 1]
    ensures Within(xs[..|xs| - 1], ys[..|ys| - 1])
  {
    var init, m := xs[..|xs| - 1], |ys| - 1;
    forall i | 0 <= i < |init| ensures HasKey(ys[..m], init[i]) {
      assert HasKey(ys, xs[i]);
      var j :| 0 <= j < |ys| && ys[j] == xs[i];
      assert ys[..m][j] == ys[j];
    }
  }

  /** The last of one ascending list is no later than the last of another that holds it. */
  lemma {:induction false} LastNotAfter(xs: seq<int>, ys: seq<int>)
    requires Increasing(ys) && Within(xs, ys)
    ensures xs != [] ==> ys != [] && xs[|xs| - 1] <= ys[|ys| - 1]
  {
    if xs != [] {
      assert HasKey(ys, xs[|xs| - 1]);
    }
  }

  lemma {:induction false} SameAscending(xs: seq<int>, ys: seq<int>)
    requires Increasing(xs) && Increasing(ys) && Within(xs, ys) && Within(ys, xs)
    ensures xs == ys
  {
    LastNotAfter(xs, ys);
    LastNotAfter(ys, xs);
    if xs != [] && ys != [] {
      var n, m := |xs| - 1, |ys| - 1;
      WithoutTheLast(xs, ys);
      WithoutTheLast(ys, xs);
      SameAscending(xs[..n], ys[..m]);
      assert xs == xs[..n] + [xs[n]] && ys == ys[..m] + [ys[m]];
    }
  }

  lemma {:induction false} AccountsUnique(xs: seq<Candle>, ys: seq<Candle>, candles: seq<Candle>, step: int)
    requires step > 0 && Accounts(xs, candles, step) && Accounts(ys, candles, step)
    ensures xs == ys
  {
    hide Bucket, InBucket, MergeAll;
    StampsWithin(xs, ys, candles, step);
    StampsWithin(ys, xs, candles, step);
    SameAscending(Stamps(xs), Stamps(ys));
    forall k | 0 <= k < |xs| ensures xs[k] == ys[k] {
      assert Stamps(xs)[k] == Stamps(ys)[k];
    }
  }

  lemma {:induction false} TruncatedMonotone(s: real, t: real)
    requires s <= t
    ensures Truncated(s) <= Truncated(t)
  {
  }

  lemma {:induction false} SortedByTime(fills: seq<FillRow>)
    ensures forall i, j :: 0 <= i < j < |fills| ==> Sort(fills, FillTime)[i].time <= Sort(fills, FillTime)[j].time
  {
    hide Sort;
    SortIsStable(fills, FillTime, 0.0);
    var sorted := Sort(fills, FillTime);
    assert forall i :: 0 <= i < |sorted| ==> FillTime(sorted[i]) == sorted[i].time;
    assert InOrder(sorted, FillTime);
  }

  lemma {:induction false} SortedTicksAscend(fills: seq<FillRow>)
    ensures Ascending(Ticks(Sort(fills, FillTime)))
  {
    hide Truncated, Sort;
    SortedByTime(fills);
    var sorted := Sort(fills, FillTime);
    forall i, j | 0 <= i < j < |sorted| ensures Ticks(sorted)[i].timestamp <= Ticks(sorted)[j].timestamp {
      TruncatedMonotone(sorted[i].time, sorted[j].time);
    }
  }

  /** Each coarse candle merges exactly the fine candles of its bucket. */
  lemma {:induction false} CoarseCandlesMergeFineOnes(fills: seq<FillRow>, fine: int, coarse: int)
    requires fine > 0 && coarse > 0 && coarse % fine == 0
    ensures Accounts(Aggregate(fills, coarse), Aggregate(fills, fine), coarse)
  {
    CoarseIsFineRolledUp(fills, fine, coarse);
    SortedTicksAscend(fills);
    RollupAccounts(Ticks(Sort(fills, FillTime)), fine);
    RollupAccounts(Aggregate(fills, fine), coarse);
  }

  // ---- The loops ----

  function LastN<T>(s: seq<T>, n: nat): seq<T> {
    if n < |s| then s[|s| - n..] else s
  }

  function FillsIn(fills: seq<FillRow>, b: int, step: int): seq<FillRow>
    requires step > 0
  {
    if fills == [] then []
    else
      FillsIn(fills[..|fills| - 1], b, step)
      + if Bucket(Truncated(fills[|fills| - 1].time), step) == b then [fills[|fills| - 1]] else []
  }

  lemma {:induction false} TicksInBucket(fills: seq<FillRow>, b: int, step: int)
    requires step > 0
    ensures Ticks(FillsIn(fills, b, step)) == InBucket(Ticks(fills), b, step)
  {
    hide Bucket, Truncated;
    if fills != [] {
      var init, last := fills[..|fills| - 1], fills[|fills| - 1];
      TicksInBucket(init, b, step);
      assert Ticks(fills)[..|fills| - 1] == Ticks(init);
    }
  }

  /** One candle from the fills of a window, as the loop over its prices computes it. */
  method CandleOf(window: seq<FillRow>, b: int) returns (c: Candle)
    requires window != []
    ensures c == MergeAll(Ticks(window)).(timestamp := b)
  {
    c := Candle(window[0].price, window[0].price, window[0].price, window[0].price, window[0].quantity, b);
    var i := 1;
    assert Ticks(window)[..1] == [Tick(window[0])];
    while i < |window|
      invariant 1 <= i <= |window|
      invariant c == MergeAll(Ticks(window)[..i]).(timestamp := b)
    {
      var f := window[i];
      MergeAllLast(Ticks(window)[..i], Tick(f));
      assert Ticks(window)[..i] + [Tick(f)] == Ticks(window)[..i + 1];
      c := Candle(c.open, Max(c.high, f.price), Min(c.low, f.price), f.price, c.volume + f.quantity, b);
      i := i + 1;
    }
    assert Ticks(window)[..i] == Ticks(window);
  }

  function AsReal(k: int): real { k as real }

  function Members(order: seq<int>): set<int> {
    if order == [] then {} else Members(order[..|order| - 1]) + {order[|order| - 1]}
  }

  lemma {:induction false} MembersIndexed(order: seq<int>, b: int)
    ensures b in Members(order) <==> exists k :: 0 <= k < |order| && order[k] == b
  {
    if order != [] {
      var init := order[..|order| - 1];
      MembersIndexed(init, b);
      if k :| 0 <= k < |order| && order[k] == b {
        assert k < |init| ==> init[k] == b;
      }
    }
  }

  /** A dictionary of windows for the fills seen so far. */
  ghost predicate Grouped(buckets: map<int, seq<FillRow>>, fills: seq<FillRow>, step: int)
    requires step > 0
  {
    && (forall b :: b in buckets ==> buckets[b] == FillsIn(fills, b, step) != [])
    && (forall b :: b !in buckets ==> FillsIn(fills, b, step) == [])
  }

  lemma {:induction false} GroupedNext(buckets: map<int, seq<FillRow>>, fills: seq<FillRow>, row: FillRow, step: int)
    requires step > 0 && Grouped(buckets, fills, step)
    ensures var b := Bucket(Truncated(row.time), step);
            Grouped(buckets[b := (if b in buckets then buckets[b] else []) + [row]], fills + [row], step)
  {
    hide Bucket, Truncated;
    assert (fills + [row])[..|fills|] == fills;
  }

  lemma {:induction false} InOwnWindow(fills: seq<FillRow>, i: nat, step: int)
    requires step > 0 && i < |fills|
    ensures FillsIn(fills, Bucket(Truncated(fills[i].time), step), step) != []
  {
    hide Bucket, Truncated;
    if i < |fills| - 1 {
      InOwnWindow(fills[..|fills| - 1], i, step);
    }
  }

  /** Every key of the dictionary is at most the bucket of a later fill. */
  lemma {:induction false} WindowNotAfter(fills: seq<FillRow>, row: FillRow, b: int, step: int)
    requires step > 0 && Ascending(Ticks(fills + [row])) && FillsIn(fills, b, step) != []
    ensures b <= Bucket(Truncated(row.time), step)
  {
    hide Bucket, Truncated;
    TicksInBucket(fills, b, step);
    assert Ticks(fills + [row]) == Ticks(fills) + [Tick(row)];
    BucketNotAfter(Ticks(fills), Tick(row), b, step);
  }

  lemma {:induction false} OrderNext(buckets: map<int, seq<FillRow>>, order: seq<int>, fills: seq<FillRow>, row: FillRow, step: int)
    requires step > 0 && Grouped(buckets, fills, step) && Ascending(Ticks(fills + [row]))
    requires Increasing(order) && Members(order) == buckets.Keys
    ensures var b := Bucket(Truncated(row.time), step);
            && Members(order + [b]) == Members(order) + {b}
            && (b !in buckets ==> Increasing(order + [b]))
  {
    hide Bucket, Truncated, FillsIn;
    var b := Bucket(Truncated(row.time), step);
    assert (order + [b])[..|order|] == order;
    forall k | 0 <= k < |order| ensures order[k] in buckets && order[k] <= b {
      MembersIndexed(order, order[k]);
      WindowNotAfter(fills, row, order[k], step);
    }
  }

  lemma {:induction false} NothingGrouped(step: int)
    requires step > 0
    ensures Grouped(map[], [], step) && Increasing([])
  {
  }

  lemma {:induction false} TicksPrefix(fills: seq<FillRow>, n: nat)
    requires n <= |fills| && Ascending(Ticks(fills))
    ensures Ascending(Ticks(fills[..n]))
  {
    hide Tick;
    assert Ticks(fills[..n]) == Ticks(fills)[..n];
  }

  /** The first loop: a dictionary of the windows, and its keys in order of insertion. */
  method FillBuckets(sorted: seq<FillRow>, step: int) returns (buckets: map<int, seq<FillRow>>, order: seq<int>)
    requires step > 0 && Ascending(Ticks(sorted))
    ensures Grouped(buckets, sorted, step) && Increasing(order) && Members(order) == buckets.Keys
  {
    hide Bucket, Truncated, Increasing, Ascending;
    buckets, order := map[], [];
    assert Grouped(buckets, sorted[..0], step) && Increasing(order) by { NothingGrouped(step); }
    hide Grouped, Members;
    var i := 0;
    while i < |sorted|
      invariant 0 <= i <= |sorted|
      invariant Grouped(buckets, sorted[..i], step)
      invariant Increasing(order) && Members(order) == buckets.Keys
    {
      var row := sorted[i];
      var b := Bucket(Truncated(row.time), step);
      assert sorted[..i] + [row] == sorted[..i + 1];
      TicksPrefix(sorted, i + 1);
      GroupedNext(buckets, sorted[..i], row, step);
      OrderNext(buckets, order, sorted[..i], row, step);
      if b !in buckets {
        order := order + [b];
      }
      buckets := buckets[b := (if b in buckets then buckets[b] else []) + [row]];
      i := i + 1;
    }
    assert sorted[..i] == sorted;
  }

  lemma {:induction false} SortOfSorted<T>(rows: seq<T>, key: T -> real)
    requires InOrder(rows, key)
    ensures Sort(rows, key) == rows
  {
    if rows != [] {
      var init, last := rows[..|rows| - 1], rows[|rows| - 1];
      SortOfSorted(init, key);
      assert rows == init + [last];
    }
  }

  lemma {:induction false} TickTime(fills: seq<FillRow>, i: nat)
    requires i < |fills|
    ensures Ticks(fills)[i].timestamp == Truncated(fills[i].time)
  {
    hide Truncated;
  }

  lemma {:induction false} KeysCover(sorted: seq<FillRow>, buckets: map<int, seq<FillRow>>, order: seq<int>, step: int)
    requires step > 0 && Grouped(buckets, sorted, step) && Members(order) == buckets.Keys
    ensures forall i :: 0 <= i < |Ticks(sorted)| ==> HasKey(order, Bucket(Ticks(sorted)[i].timestamp, step))
  {
    hide Bucket, Truncated, FillsIn, Members;
    forall i | 0 <= i < |sorted| ensures HasKey(order, Bucket(Ticks(sorted)[i].timestamp, step)) {
      InOwnWindow(sorted, i, step);
      MembersIndexed(order, Bucket(Truncated(sorted[i].time), step));
      TickTime(sorted, i);
    }
  }

  lemma {:induction false} TicksOfSome(fills: seq<FillRow>)
    ensures fills != [] ==> Ticks(fills) != []
  {
  }

  lemma {:induction false} KeyHolds(sorted: seq<FillRow>, buckets: map<int, seq<FillRow>>, order: seq<int>, i: nat, step: int)
    requires step > 0 && Grouped(buckets, sorted, step) && Members(order) == buckets.Keys && i < |order|
    ensures order[i] in buckets && buckets[order[i]] != []
    ensures Ticks(buckets[order[i]]) == InBucket(Ticks(sorted), order[i], step) != []
  {
    hide Bucket, FillsIn, Members, InBucket;
    MembersIndexed(order, order[i]);
    TicksInBucket(sorted, order[i], step);
    TicksOfSome(buckets[order[i]]);
  }

  /** One candle for each of the first keys, from the ticks of its bucket. */
  ghost predicate Windows(candles: seq<Candle>, keys: seq<int>, ticks: seq<Candle>, step: int)
    requires step > 0
  {
    && |candles| <= |keys|
    && forall k :: 0 <= k < |candles| ==>
         InBucket(ticks, keys[k], step) != []
         && candles[k] == MergeAll(InBucket(ticks, keys[k], step)).(timestamp := keys[k])
  }

  lemma {:induction false} NoWindows(keys: seq<int>, ticks: seq<Candle>, step: int)
    requires step > 0
    ensures Windows([], keys, ticks, step)
  {
  }

  lemma {:induction false} NextWindow(candles: seq<Candle>, keys: seq<int>, ticks: seq<Candle>, step: int, c: Candle)
    requires step > 0 && Windows(candles, keys, ticks, step) && |candles| < |keys|
    requires InBucket(ticks, keys[|candles|], step) != []
    requires c == MergeAll(InBucket(ticks, keys[|candles|], step)).(timestamp := keys[|candles|])
    ensures Windows(candles + [c], keys, ticks, step)
  {
    hide MergeAll, InBucket;
  }

  lemma {:induction false} WindowsAccount(candles: seq<Candle>, keys: seq<int>, ticks: seq<Candle>, step: int)
    requires step > 0 && Windows(candles, keys, ticks, step) && |candles| == |keys| && Increasing(keys)
    requires forall i :: 0 <= i < |ticks| ==> HasKey(keys, Bucket(ticks[i].timestamp, step))
    ensures Accounts(candles, ticks, step)
  {
    hide Bucket, MergeAll, InBucket;
    assert forall k :: 0 <= k < |candles| ==> candles[k].timestamp == keys[k];
    forall i | 0 <= i < |ticks| ensures HasBucket(candles, Bucket(ticks[i].timestamp, step)) {
      var b := Bucket(ticks[i].timestamp, step);
      assert HasKey(keys, b);
      var k :| 0 <= k < |keys| && keys[k] == b;
      assert candles[k].timestamp == b;
    }
  }

  /** The second loop: one candle a key, in ascending order. */
  method CandlesOf(sorted: seq<FillRow>, buckets: map<int, seq<FillRow>>, order: seq<int>, step: int)
    returns (candles: seq<Candle>)
    requires step > 0
    requires Grouped(buckets, sorted, step) && Increasing(order) && Members(order) == buckets.Keys
    ensures Accounts(candles, Ticks(sorted), step)
  {
    var keys := Sort(order, AsReal);
    SortOfSorted(order, AsReal);
    ghost var ticks := Ticks(sorted);
    KeysCover(sorted, buckets, order, step);
    hide *;
    candles := [];
    NoWindows(keys, ticks, step);
    var i := 0;
    while i < |keys|
      invariant 0 <= i <= |keys| && |candles| == i
      invariant Windows(candles, keys, ticks, step)
    {
      KeyHolds(sorted, buckets, order, i, step);
      var c := CandleOf(buckets[keys[i]], keys[i]);
      NextWindow(candles, keys, ticks, step, c);
      candles := candles + [c];
      i := i + 1;
    }
    WindowsAccount(candles, order, ticks, step);
  }

  /** fills_to_candles: a dictionary of buckets over the sorted fills, then one candle a
      key in ascending order, then the last limit of them.  An unsupported interval raises,
      unless there is nothing to do. */
  method FillsToCandles(fills: seq<FillRow>, interval: string, limit: int) returns (result: Option<seq<Candle>>)
    ensures result ==
              if fills == [] || limit <= 0 then Some([])
              else match IntervalToSeconds(interval)
                   case None => None
                   case Some(step) => Some(LastN(Aggregate(fills, step), limit))
  {
    if fills == [] || limit <= 0 {
      return Some([]);
    }
    var seconds := IntervalToSeconds(interval);
    if seconds.None? {
      return None;
    }
    var step := seconds.value;
    hide IntervalToSeconds;
    var sorted := Sort(fills, FillTime);
    SortedTicksAscend(fills);
    var buckets, order := FillBuckets(sorted, step);
    var candles := CandlesOf(sorted, buckets, order, step);
    RollupAccounts(Ticks(sorted), step);
    AccountsUnique(candles, Rollup(Ticks(sorted), step), Ticks(sorted), step);
    result := Some(LastN(candles, limit));
  }
}
