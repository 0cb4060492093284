/** When the pages of a walk are the whole history, exactly. */
module WalkCompleteness {
  import opened Text
  import opened Candles
  import opened CandlesPage

  // ---- What was traded ----

  /** The quantity of all fills together. */
  function Traded(fills: seq<FillRow>): real {
    if fills == [] then 0.0 else Traded(fills[..|fills| - 1]) + fills[|fills| - 1].quantity
  }

  ghost predicate AllPositive(fills: seq<FillRow>) {
    forall i :: 0 <= i < |fills| ==> fills[i].quantity > 0.0
  }

  lemma {:induction false} VolumeLast(candles: seq<Candle>, c: Candle)
    ensures Volume(candles + [c]) == Volume(candles) + c.volume
  {
    assert (candles + [c])[..|candles|] == candles;
  }

  lemma {:induction false} PushVolume(candles: seq<Candle>, c: Candle, step: int)
    requires step > 0
    ensures Volume(Push(candles, c, step)) == Volume(candles) + c.volume
  {
    hide Bucket, Volume;
    var b := Bucket(c.timestamp, step);
    if candles != [] && candles[|candles| - 1].timestamp == b {
      var init, last := candles[..|candles| - 1], candles[|candles| - 1];
      assert candles == init + [last];
      VolumeLast(init, last);
      VolumeLast(init, Merge(last, c));
    } else {
      VolumeLast(candles, c.(timestamp := b));
    }
  }

  lemma {:induction false} NoVolume()
    ensures Volume([]) == 0.0
  {
  }

  lemma {:induction false} RollupVolume(ticks: seq<Candle>, step: int)
    requires step > 0
    ensures Volume(Rollup(ticks, step)) == Volume(ticks)
  {
    hide Push, Volume;
    if ticks == [] {
      assert Volume([]) == 0.0 by { NoVolume(); }
    } else {
      var init, c := ticks[..|ticks| - 1], ticks[|ticks| - 1];
      assert ticks == init + [c];
      RollupVolume(init, step);
      PushVolume(Rollup(init, step), c, step);
      VolumeLast(init, c);
    }
  }

  lemma {:induction false} TradedLast(fills: seq<FillRow>, f: FillRow)
    ensures Traded(fills + [f]) == Traded(fills) + f.quantity
  {
    assert (fills + [f])[..|fills|] == fills;
  }

  lemma {:induction false} TicksVolume(fills: seq<FillRow>)
    ensures Volume(Ticks(fills)) == Traded(fills)
  {
    hide Truncated;
    if fills != [] {
      var init, last := fills[..|fills| - 1], fills[|fills| - 1];
      TicksVolume(init);
      assert Ticks(fills) == Ticks(init) + [Tick(last)];
      VolumeLast(Ticks(init), Tick(last));
      hide Volume;
    }
  }

  lemma {:induction false} InsertTraded(rows: seq<FillRow>, row: FillRow)
    ensures Traded(Insert(rows, row, FillTime)) == Traded(rows) + row.quantity
  {
    hide Insert, Traded;
    if rows == [] {
      InsertNothing(row);
      assert [] + [row] == [row];
      TradedLast([], row);
    } else {
      var init, last := rows[..|rows| - 1], rows[|rows| - 1];
      assert rows == init + [last];
      InsertTraded(init, row);
      InsertLast(init, last, row);
      TradedLast(init, last);
      TradedLast(Insert(init, row, FillTime), last);
      TradedLast(rows, row);
    }
  }

  lemma {:induction false} SortTraded(fills: seq<FillRow>)
    ensures Traded(Sort(fills, FillTime)) == Traded(fills)
  {
    hide Insert;
    if fills != [] {
      SortTraded(fills[..|fills| - 1]);
      InsertTraded(Sort(fills[..|fills| - 1], FillTime), fills[|fills| - 1]);
    }
  }

  /** Aggregation keeps the volume. */
  lemma {:induction false} AggregateVolume(fills: seq<FillRow>, step: int)
    requires step > 0
    ensures Volume(Aggregate(fills, step)) == Traded(fills)
  {
    hide Rollup, Sort, Volume, Traded, Ticks;
    RollupVolume(Ticks(Sort(fills, FillTime)), step);
    TicksVolume(Sort(fills, FillTime));
    SortTraded(fills);
  }

  lemma {:induction false} PushNonNegative(candles: seq<Candle>, c: Candle, step: int)
    requires step > 0 && c.volume >= 0.0 && forall i :: 0 <= i < |candles| ==> candles[i].volume >= 0.0
    ensures forall i :: 0 <= i < |Push(candles, c, step)| ==> Push(candles, c, step)[i].volume >= 0.0
  {
    hide Bucket;
  }

  lemma {:induction false} RollupNonNegative(ticks: seq<Candle>, step: int)
    requires step > 0 && forall i :: 0 <= i < |ticks| ==> ticks[i].volume >= 0.0
    ensures forall i :: 0 <= i < |Rollup(ticks, step)| ==> Rollup(ticks, step)[i].volume >= 0.0
  {
    hide Push;
    if ticks != [] {
      RollupNonNegative(ticks[..|ticks| - 1], step);
      PushNonNegative(Rollup(ticks[..|ticks| - 1], step), ticks[|ticks| - 1], step);
    }
  }

  lemma {:induction false} VolumeOfEnd(candles: seq<Candle>, n: nat)
    requires n <= |candles| && forall i :: 0 <= i < |candles| ==> candles[i].volume >= 0.0
    ensures Volume(candles[n..]) <= Volume(candles)
  {
    if n == |candles| {
      assert candles[n..] == [];
      if candles != [] {
        VolumeOfEnd(candles[..|candles| - 1], |candles| - 1);
        assert candles[..|candles| - 1][|candles| - 1..] == [];
      }
    } else {
      VolumeOfEnd(candles[..|candles| - 1], n);
      assert candles[n..][..|candles[n..]| - 1] == candles[..|candles| - 1][n..];
    }
  }

  // ---- Queries ----

  lemma {:induction false} NothingTraded()
    ensures Traded([]) == 0.0
  {
  }

  lemma {:induction false} QueryLastTraded(fills: seq<FillRow>, start: Option<int>, before: Option<int>)
    requires fills != []
    ensures var f := fills[|fills| - 1];
            Traded(Query(fills, start, before))
            == Traded(Query(fills[..|fills| - 1], start, before)) + if Queried(f, start, before) then f.quantity else 0.0
  {
    hide Queried;
    var q := Query(fills[..|fills| - 1], start, before);
    TradedLast(q, fills[|fills| - 1]);
    assert q + [] == q;
    hide Traded;
  }

  lemma {:induction false} QueryTraded(fills: seq<FillRow>, lo: int, cut: int, before: Option<int>)
    requires lo <= cut && (before.Some? ==> cut <= before.value)
    ensures Traded(Query(fills, Some(lo), before))
         == Traded(Query(fills, Some(lo), Some(cut))) + Traded(Query(fills, Some(cut), before))
  {
    hide Traded;
    if fills == [] {
      assert Traded([]) == 0.0 by { NothingTraded(); }
    } else {
      var init, f := fills[..|fills| - 1], fills[|fills| - 1];
      QueryTraded(init, lo, cut, before);
      QueryLastTraded(fills, Some(lo), before);
      QueryLastTraded(fills, Some(lo), Some(cut));
      QueryLastTraded(fills, Some(cut), before);
      hide Query;
    }
  }

  /** Something was queried exactly when something was traded. */
  lemma {:induction false} TradedPositive(fills: seq<FillRow>, start: Option<int>, before: Option<int>)
    requires AllPositive(fills)
    ensures Traded(Query(fills, start, before)) >= 0.0
    ensures Traded(Query(fills, start, before)) > 0.0 <==>
              exists i :: 0 <= i < |fills| && Queried(fills[i], start, before)
  {
    hide Queried, Traded;
    if fills == [] {
      assert Traded([]) == 0.0 by { NothingTraded(); }
    } else {
      var init, n := fills[..|fills| - 1], |fills| - 1;
      TradedPositive(init, start, before);
      QueryLastTraded(fills, start, before);
      hide Query;
      if i :| 0 <= i < |init| && Queried(init[i], start, before) {
        assert Queried(fills[i], start, before);
      }
      if i :| 0 <= i < |fills| && Queried(fills[i], start, before) {
        assert i < n ==> Queried(init[i], start, before);
      }
    }
  }

  /** Two queries that differ in nothing of the fills. */
  lemma {:induction false} SameQuery(fills: seq<FillRow>, lo: int, cut: int, before: Option<int>)
    requires lo <= cut
    requires forall i :: 0 <= i < |fills| && Queried(fills[i], Some(lo), before) ==> fills[i].time >= cut as real
    ensures Query(fills, Some(lo), before) == Query(fills, Some(cut), before)
  {
    if fills != [] {
      var init, last := fills[..|fills| - 1], fills[|fills| - 1];
      assert forall i :: 0 <= i < |init| ==> init[i] == fills[i];
      SameQuery(init, lo, cut, before);
      assert Queried(last, Some(lo), before) == Queried(last, Some(cut), before);
      hide Queried;
    }
  }

  // ---- One page ----

  function WindowStart(step: int, limit: int, before: Option<int>, clock: int): int {
    IndexerWindow(step, ClampLimit(limit), before, clock).0
  }

  /** The window starts at the floor or later, and before the cursor unless the cursor is
      not above the floor itself. */
  lemma {:induction false} WindowStarts(step: int, limit: int, before: Option<int>, clock: int)
    ensures WindowStart(step, limit, before, clock) >= HistoryFloor(clock)
    ensures before.Some? && before.value > HistoryFloor(clock) ==> WindowStart(step, limit, before, clock) < before.value
  {
  }

  /** A fill since the floor and before the cursor that the window leaves out. */
  predicate Older(f: FillRow, step: int, limit: int, before: Option<int>, clock: int) {
    Queried(f, Some(HistoryFloor(clock)), before) && f.time < WindowStart(step, limit, before, clock) as real
  }

  function BucketOf(f: FillRow, step: int): int
    requires step > 0
  {
    Bucket(Truncated(f.time), step)
  }

  /** The buckets in which the window's fills traded. */
  function BucketsIn(fills: seq<FillRow>, start: int, before: Option<int>, step: int): set<int>
    requires step > 0
  {
    set i | 0 <= i < |fills| && Queried(fills[i], Some(start), before) :: BucketOf(fills[i], step)
  }

  /** Nothing is lost at this page, in terms of the fills alone: if anything is older than
      the window, then the window holds fills of more buckets than a page has candles, or of
      exactly as many, and nothing older falls into one of these. */
  ghost predicate Covers(fills: seq<FillRow>, step: int, limit: int, before: Option<int>, clock: int)
    requires step > 0
  {
    var buckets, n := BucketsIn(fills, WindowStart(step, limit, before, clock), before, step), ClampLimit(limit);
    forall i :: 0 <= i < |fills| && Older(fills[i], step, limit, before, clock) ==>
      |buckets| > n || (|buckets| == n && BucketOf(fills[i], step) !in buckets)
  }

  /** The same in terms of the page: what is older than the window is also older than the
      next cursor. */
  ghost predicate LeftForNext(fills: seq<FillRow>, step: int, limit: int, before: Option<int>, clock: int)
    requires step > 0
  {
    var page := GetPage(fills, step, limit, before, clock);
    forall i :: 0 <= i < |fills| && Older(fills[i], step, limit, before, clock) ==>
      page.hasMore && page.oldest.Some? && fills[i].time < page.oldest.value as real
  }

  function StampSet(candles: seq<Candle>): set<int> {
    set k | 0 <= k < |candles| :: candles[k].timestamp
  }

  lemma {:induction false} StampsDiffer(candles: seq<Candle>)
    requires StrictlyAscending(candles)
    ensures |StampSet(candles)| == |candles|
  {
    if candles != [] {
      var init, last := candles[..|candles| - 1], candles[|candles| - 1];
      StampsDiffer(init);
      assert StampSet(candles) == StampSet(init) + {last.timestamp} by {
        assert forall k :: 0 <= k < |init| ==> candles[k] == init[k];
        assert candles[|init|] == last;
      }
      assert last.timestamp !in StampSet(init);
    }
  }

  /** How many of the buckets are as new as b or newer. */
  function Rank(buckets: set<int>, b: int): nat {
    |set c | c in buckets && c >= b|
  }

  lemma {:induction false} RankOfStamp(candles: seq<Candle>, k: nat)
    requires StrictlyAscending(candles) && k < |candles|
    ensures Rank(StampSet(candles), candles[k].timestamp) == |candles| - k
  {
    var end := candles[k..];
    StampsDiffer(end);
    assert (set b | b in StampSet(candles) && b >= candles[k].timestamp) == StampSet(end) by {
      assert forall j :: 0 <= j < |end| ==> end[j] == candles[k + j];
      assert forall j :: k <= j < |candles| ==> candles[j] == end[j - k];
    }
  }

  lemma {:induction false} CandleHasFill(fills: seq<FillRow>, start: Option<int>, before: Option<int>, step: int, k: nat)
    returns (f: FillRow)
    requires step > 0 && k < |Aggregate(Query(fills, start, before), step)|
    ensures f in fills && Queried(f, start, before)
    ensures Bucket(Truncated(f.time), step) == Aggregate(Query(fills, start, before), step)[k].timestamp
  {
    hide Rollup, Truncated, Bucket, Query, Sort, Queried;
    var q := Query(fills, start, before);
    var sorted := Sort(q, FillTime);
    SortedTicksAscend(q);
    RollupAccounts(Ticks(sorted), step);
    var b := Aggregate(q, step)[k].timestamp;
    InBucketEmpty(Ticks(sorted), b, step);
    var i :| 0 <= i < |sorted| && Bucket(Ticks(sorted)[i].timestamp, step) == b;
    f := sorted[i];
    SortIsStable(q, FillTime, 0.0);
    assert f in multiset(q);
    QueryBounds(fills, start, before);
  }

  /** The candles of a window stand for its buckets. */
  lemma {:induction false} CandlesAreBuckets(fills: seq<FillRow>, start: int, before: Option<int>, step: int)
    requires step > 0
    ensures StampSet(Aggregate(Query(fills, Some(start), before), step)) == BucketsIn(fills, start, before, step)
  {
    hide Aggregate, Query, Queried, Bucket, Truncated;
    var candles, buckets := Aggregate(Query(fills, Some(start), before), step), BucketsIn(fills, start, before, step);
    forall b | b in buckets ensures b in StampSet(candles) {
      var i :| 0 <= i < |fills| && Queried(fills[i], Some(start), before) && BucketOf(fills[i], step) == b;
      QueriedFillHasCandle(fills, fills[i], Some(start), before, step);
      var k :| 0 <= k < |candles| && candles[k].timestamp == b;
    }
    forall b | b in StampSet(candles) ensures b in buckets {
      var k :| 0 <= k < |candles| && candles[k].timestamp == b;
      var f := CandleHasFill(fills, Some(start), before, step, k);
      var i :| 0 <= i < |fills| && fills[i] == f;
      assert BucketOf(fills[i], step) == b;
    }
  }

  lemma {:induction false} RankIsN(candles: seq<Candle>, n: nat, b: int)
    requires StrictlyAscending(candles) && n > 0
    ensures b in StampSet(candles) && Rank(StampSet(candles), b) == n <==> n <= |candles| && candles[|candles| - n].timestamp == b
  {
    hide Rank, StrictlyAscending;
    if n <= |candles| {
      RankOfStamp(candles, |candles| - n);
    }
    if b in StampSet(candles) {
      var k :| 0 <= k < |candles| && candles[k].timestamp == b;
      RankOfStamp(candles, k);
    }
  }

  lemma {:induction false} EndOf(candles: seq<Candle>, n: nat)
    requires n > 0
    ensures |LastN(candles, n)| == if n < |candles| then n else |candles|
    ensures n <= |candles| ==> LastN(candles, n)[0] == candles[|candles| - n]
  {
  }

  lemma {:induction false} SameStart(step: int, limit: int, before: Option<int>, clock: int)
    ensures WindowStart(step, limit, before, clock) == IndexerWindow(step, ClampLimit(limit), before, clock).0
  {
  }

  lemma {:induction false} PageOfWindow(fills: seq<FillRow>, step: int, limit: int, before: Option<int>, clock: int)
    requires step > 0 && HistoryFloor(clock) > 0 && (before.Some? ==> before.value > 0)
    ensures var page := GetPage(fills, step, limit, before, clock);
            var (start, n) := (WindowStart(step, limit, before, clock), ClampLimit(limit));
            var candles := Aggregate(Query(fills, Some(start), before), step);
            && page.candles == LastN(candles, n)
            && (page.hasMore ==>
                  && n <= |candles| && page.oldest == Some(candles[|candles| - n].timestamp)
                  && page.oldest.value > HistoryFloor(clock)
                  && (before.Some? ==> page.oldest.value < before.value))
            && (!page.hasMore && n < |candles| ==> LastN(candles, n)[0].timestamp <= HistoryFloor(clock))
  {
    hide *;
    var start, n := WindowStart(step, limit, before, clock), ClampLimit(limit);
    PageCandles(fills, step, limit, before, clock);
    PageMore(fills, step, limit, before, clock);
    PageEdges(fills, step, limit, before, clock);
    SameStart(step, limit, before, clock);
    var candles := Aggregate(Query(fills, Some(start), before), step);
    EndOf(candles, n);
    if before.Some? {
      AggregateBefore(fills, Some(start), before.value, step);
    }
  }

  lemma {:induction false} PageInWindow(fills: seq<FillRow>, step: int, limit: int, before: Option<int>, clock: int)
    requires step > 0 && HistoryFloor(clock) > 0 && (before.Some? ==> before.value > 0)
    ensures var page, n := GetPage(fills, step, limit, before, clock), ClampLimit(limit);
            var candles := Aggregate(Query(fills, Some(WindowStart(step, limit, before, clock)), before), step);
            && (page.hasMore <==> n <= |candles| && candles[|candles| - n].timestamp > HistoryFloor(clock))
            && (page.hasMore ==> page.oldest == Some(candles[|candles| - n].timestamp))
  {
    hide *;
    var n := ClampLimit(limit);
    var candles := Aggregate(Query(fills, Some(WindowStart(step, limit, before, clock)), before), step);
    PageOfWindow(fills, step, limit, before, clock);
    PageMore(fills, step, limit, before, clock);
    PageEdges(fills, step, limit, before, clock);
    EndOf(candles, n);
  }

  /** Whether there is a next page, and from where, in terms of the window's buckets. */
  lemma {:induction false} NextCursorExactlyWhen(fills: seq<FillRow>, step: int, limit: int, before: Option<int>, clock: int, b: int)
    requires step > 0 && HistoryFloor(clock) > 0 && (before.Some? ==> before.value > 0)
    ensures var page, buckets := GetPage(fills, step, limit, before, clock),
                                 BucketsIn(fills, WindowStart(step, limit, before, clock), before, step);
            page.hasMore && page.oldest == Some(b)
            <==> b in buckets && Rank(buckets, b) == ClampLimit(limit) && b > HistoryFloor(clock)
  {
    hide *;
    var start, n := WindowStart(step, limit, before, clock), ClampLimit(limit);
    var candles := Aggregate(Query(fills, Some(start), before), step);
    CandlesAreBuckets(fills, start, before, step);
    AggregateAscends(Query(fills, Some(start), before), step);
    PageInWindow(fills, step, limit, before, clock);
    RankIsN(candles, n, b);
  }

  lemma {:induction false} TimesAndBuckets(time: real, floor: int, step: int)
    requires step > 0 && floor > 0 && time >= floor as real
    ensures Truncated(time) >= floor
  {
    TruncatedBelow(time, floor);
  }

  lemma {:induction false} BeforeBucket(time: real, cut: int, floor: int, step: int)
    requires step > 0 && floor > 0 && Truncated(time) >= floor && cut % step == 0 && cut >= Bucket(Truncated(time), step)
    ensures cut > floor && time < cut as real <==> cut != Bucket(Truncated(time), step)
  {
    hide Truncated, Bucket;
    var t := Truncated(time);
    BucketBounds(t, step);
    BucketBounds(cut, step);
    if cut > 0 {
      TruncatedBelow(time, cut);
    }
    if cut <= t {
      BucketMonotone(cut, t, step);
    }
  }

  /** One older fill: it lies before the bucket of the page's first candle exactly when the
      window has more buckets than the page, or as many and none with the fill. */
  lemma {:induction false} OlderThanCursor(candles: seq<Candle>, n: nat, time: real, floor: int, step: int)
    requires step > 0 && n > 0 && floor > 0 && time >= floor as real && StrictlyAscending(candles)
    requires forall k :: 0 <= k < |candles| ==>
               candles[k].timestamp >= Bucket(Truncated(time), step) && candles[k].timestamp % step == 0
    ensures (n <= |candles| && candles[|candles| - n].timestamp > floor && time < candles[|candles| - n].timestamp as real)
       <==> |candles| > n || (|candles| == n && Bucket(Truncated(time), step) !in StampSet(candles))
  {
    hide Truncated;
    var t := Truncated(time);
    var b := Bucket(t, step);
    TimesAndBuckets(time, floor, step);
    hide Bucket;
    if n <= |candles| {
      var cut := candles[|candles| - n].timestamp;
      BeforeBucket(time, cut, floor, step);
      if |candles| > n {
        assert candles[0].timestamp < candles[|candles| - n].timestamp;
      } else {
        assert b in StampSet(candles) <==> b == cut by {
          assert candles[0].timestamp == cut;
        }
      }
    }
  }

  lemma {:induction false} OlderBuckets(fills: seq<FillRow>, f: FillRow, start: int, before: Option<int>, step: int)
    requires step > 0 && start > 0 && f.time < start as real
    ensures forall k :: 0 <= k < |Aggregate(Query(fills, Some(start), before), step)| ==>
              Aggregate(Query(fills, Some(start), before), step)[k].timestamp >= BucketOf(f, step)
              && Aggregate(Query(fills, Some(start), before), step)[k].timestamp % step == 0
  {
    AggregateBounds(fills, start, before, step);
    TruncatedBelow(f.time, start);
    hide Aggregate, Query, Truncated, Bucket;
    BucketMonotone(Truncated(f.time), start, step);
  }

  lemma {:induction false} SinceFloor(f: FillRow, floor: int, before: Option<int>)
    requires Queried(f, Some(floor), before)
    ensures f.time >= floor as real
  {
  }

  /** The two readings agree. */
  lemma {:induction false} CoversExactlyWhen(fills: seq<FillRow>, step: int, limit: int, before: Option<int>, clock: int)
    requires step > 0 && HistoryFloor(clock) > 0 && (before.Some? ==> before.value > 0)
    ensures Covers(fills, step, limit, before, clock) <==> LeftForNext(fills, step, limit, before, clock)
  {
    hide GetPage, Aggregate, Query, WindowStart, StampSet, BucketsIn, Bucket, Truncated, StrictlyAscending, Queried;
    var start, n, floor := WindowStart(step, limit, before, clock), ClampLimit(limit), HistoryFloor(clock);
    var page, candles := GetPage(fills, step, limit, before, clock), Aggregate(Query(fills, Some(start), before), step);
    AggregateAscends(Query(fills, Some(start), before), step);
    CandlesAreBuckets(fills, start, before, step);
    StampsDiffer(candles);
    PageInWindow(fills, step, limit, before, clock);
    WindowStarts(step, limit, before, clock);
    forall i | 0 <= i < |fills| && Older(fills[i], step, limit, before, clock)
      ensures (page.hasMore && page.oldest.Some? && fills[i].time < page.oldest.value as real)
         <==> |candles| > n || (|candles| == n && BucketOf(fills[i], step) !in StampSet(candles))
    {
      SinceFloor(fills[i], floor, before);
      OlderBuckets(fills, fills[i], start, before, step);
      OlderThanCursor(candles, n, fills[i].time, floor, step);
    }
  }

  /** The cursors of the walk's pages. */
  function Cursors(fills: seq<FillRow>, step: int, limit: int, before: Option<int>, clock: int): seq<Option<int>>
    requires step > 0 && HistoryFloor(clock) > 0 && (before.Some? ==> before.value > 0)
    decreases before.None?, if before.Some? then before.value else 0
  {
    var page := GetPage(fills, step, limit, before, clock);
    PageDescends(fills, step, limit, before, clock);
    if page.hasMore then [before] + Cursors(fills, step, limit, page.oldest, clock) else [before]
  }

  /** A query from cut on leaves out a fill that a query from lo on finds. */
  ghost predicate LeavesOut(fills: seq<FillRow>, lo: int, cut: int, before: Option<int>) {
    exists i :: 0 <= i < |fills| && Queried(fills[i], Some(lo), before) && fills[i].time < cut as real
  }

  /** A fill between two starts makes the aggregations differ; without one they are equal. */
  lemma {:induction false} AggregatesDiffer(fills: seq<FillRow>, lo: int, cut: int, before: Option<int>, step: int)
    requires step > 0 && lo <= cut && (before.Some? ==> cut <= before.value) && AllPositive(fills)
    ensures var older, newer := Aggregate(Query(fills, Some(lo), before), step), Aggregate(Query(fills, Some(cut), before), step);
            if LeavesOut(fills, lo, cut, before) then Volume(older) > Volume(newer) else older == newer
  {
    hide Aggregate, Volume, Traded;
    if LeavesOut(fills, lo, cut, before) {
      var i :| 0 <= i < |fills| && Queried(fills[i], Some(lo), before) && fills[i].time < cut as real;
      assert Queried(fills[i], Some(lo), Some(cut));
      hide Query, Queried;
      AggregateVolume(Query(fills, Some(lo), before), step);
      AggregateVolume(Query(fills, Some(cut), before), step);
      QueryTraded(fills, lo, cut, before);
      TradedPositive(fills, Some(lo), Some(cut));
    } else {
      SameQuery(fills, lo, cut, before);
    }
  }

  lemma {:induction false} TickVolumes(fills: seq<FillRow>)
    requires forall i :: 0 <= i < |fills| ==> fills[i].quantity > 0.0
    ensures forall i :: 0 <= i < |Ticks(fills)| ==> Ticks(fills)[i].volume >= 0.0
  {
    hide Truncated;
  }

  lemma {:induction false} QueryPositive(fills: seq<FillRow>, start: Option<int>, before: Option<int>)
    requires AllPositive(fills)
    ensures AllPositive(Query(fills, start, before))
  {
    hide Queried;
    if fills != [] {
      QueryPositive(fills[..|fills| - 1], start, before);
    }
  }

  lemma {:induction false} SortPositive(fills: seq<FillRow>)
    requires AllPositive(fills)
    ensures AllPositive(Sort(fills, FillTime))
  {
    hide Sort;
    SortKeepsRows(fills, FillTime);
    var sorted := Sort(fills, FillTime);
    forall i | 0 <= i < |sorted| ensures sorted[i].quantity > 0.0 {
      assert sorted[i] in multiset(fills);
    }
  }

  /** A page holds no more volume than its window. */
  lemma {:induction false} PageVolume(fills: seq<FillRow>, start: int, before: Option<int>, step: int, n: nat)
    requires step > 0 && AllPositive(fills)
    ensures var candles := Aggregate(Query(fills, Some(start), before), step);
            Volume(LastN(candles, n)) <= Volume(candles)
  {
    hide Rollup, Sort, Query, Volume;
    var q := Query(fills, Some(start), before);
    QueryPositive(fills, Some(start), before);
    SortPositive(q);
    TickVolumes(Sort(q, FillTime));
    RollupNonNegative(Ticks(Sort(q, FillTime)), step);
    var candles := Aggregate(q, step);
    if n < |candles| {
      VolumeOfEnd(candles, |candles| - n);
    }
  }

  lemma {:induction false} LeftForNextMeans(fills: seq<FillRow>, step: int, limit: int, before: Option<int>, clock: int)
    requires step > 0
    ensures var (page, start) := (GetPage(fills, step, limit, before, clock), WindowStart(step, limit, before, clock));
            && (page.hasMore && page.oldest.Some? && page.oldest.value > HistoryFloor(clock) ==>
                  (LeftForNext(fills, step, limit, before, clock) <==> !LeavesOut(fills, page.oldest.value, start, before)))
            && (!page.hasMore ==>
                  (LeftForNext(fills, step, limit, before, clock) <==> !LeavesOut(fills, HistoryFloor(clock), start, before)))
  {
    hide GetPage, WindowStart;
  }

  /** What it means to cover, for a page with a next one and for the last. */
  lemma {:induction false} CoversMeans(fills: seq<FillRow>, step: int, limit: int, before: Option<int>, clock: int)
    requires step > 0 && HistoryFloor(clock) > 0 && (before.Some? ==> before.value > 0)
    ensures var (page, start) := (GetPage(fills, step, limit, before, clock), WindowStart(step, limit, before, clock));
            && (page.hasMore && page.oldest.Some? && page.oldest.value > HistoryFloor(clock) ==>
                  (Covers(fills, step, limit, before, clock) <==> !LeavesOut(fills, page.oldest.value, start, before)))
            && (!page.hasMore ==>
                  (Covers(fills, step, limit, before, clock) <==> !LeavesOut(fills, HistoryFloor(clock), start, before)))
  {
    CoversExactlyWhen(fills, step, limit, before, clock);
    LeftForNextMeans(fills, step, limit, before, clock);
    hide *;
  }

  lemma {:induction false} AlignedCandle(fills: seq<FillRow>, lo: int, before: Option<int>, step: int, i: nat)
    requires step > 0 && lo > 0 && i < |Aggregate(Query(fills, Some(lo), before), step)|
    ensures Aggregate(Query(fills, Some(lo), before), step)[i].timestamp % step == 0
  {
    AggregateBounds(fills, lo, before, step);
    hide Aggregate, Query, Bucket;
  }

  lemma {:induction false} NothingToLeaveOut(fills: seq<FillRow>, lo: int, cut: int, before: Option<int>)
    requires cut <= lo
    ensures !LeavesOut(fills, lo, cut, before)
  {
  }

  /** The end of a window that starts at a cut inside it is the aggregation from the cut on. */
  lemma {:induction false} LateCut(fills: seq<FillRow>, start: int, cut: int, before: Option<int>, step: int, n: nat)
    requires step > 0 && start > 0 && start <= cut && cut % step == 0 && (before.Some? ==> cut <= before.value)
    requires var candles := Aggregate(Query(fills, Some(start), before), step);
             0 < n <= |candles| && candles[|candles| - n].timestamp == cut
    ensures LastN(Aggregate(Query(fills, Some(start), before), step), n) == Aggregate(Query(fills, Some(cut), before), step)
  {
    hide *;
    AggregateAscends(Query(fills, Some(start), before), step);
    AggregateSplits(fills, start, cut, before, step);
    AggregateBefore(fills, Some(start), cut, step);
    var older, newer := Aggregate(Query(fills, Some(start), Some(cut)), step), Aggregate(Query(fills, Some(cut), before), step);
    SplitHere(older, newer, n, cut);
  }

  /** A page that starts with the window's first bucket is the whole window. */
  lemma {:induction false} FirstBucketIsAll(candles: seq<Candle>, n: nat, start: int, step: int)
    requires step > 0 && 0 < n <= |candles| && StrictlyAscending(candles)
    requires forall i :: 0 <= i < |candles| ==> candles[i].timestamp >= Bucket(start, step) && candles[i].timestamp % step == 0
    requires candles[|candles| - n].timestamp < start
    ensures LastN(candles, n) == candles
  {
    hide Bucket;
    var cut := candles[|candles| - n].timestamp;
    BucketBounds(cut, step);
    BucketMonotone(cut, start, step);
    assert cut == Bucket(start, step);
    assert forall k :: 0 < k < |candles| ==> candles[0].timestamp < candles[k].timestamp;
  }

  /** A page whose first bucket the start of the window cuts is the whole window, and equal
      to the aggregation of whole buckets only if the cut hit no fill. */
  lemma {:induction false} EarlyCut(fills: seq<FillRow>, start: int, cut: int, before: Option<int>, step: int, n: nat)
    requires step > 0 && 0 < cut < start && cut % step == 0 && (before.Some? ==> start <= before.value) && AllPositive(fills)
    requires var candles := Aggregate(Query(fills, Some(start), before), step);
             0 < n <= |candles| && candles[|candles| - n].timestamp == cut
    ensures LastN(Aggregate(Query(fills, Some(start), before), step), n) == Aggregate(Query(fills, Some(cut), before), step)
       <==> !LeavesOut(fills, cut, start, before)
  {
    AggregateBounds(fills, start, before, step);
    AggregatesDiffer(fills, cut, start, before, step);
    hide Aggregate, Query, LeavesOut, Volume, Bucket;
    FirstBucketIsAll(Aggregate(Query(fills, Some(start), before), step), n, start, step);
  }

  /** A page with a next one continues it without a gap exactly when it covers. */
  lemma {:induction false} PageContinuesExactlyWhen(fills: seq<FillRow>, step: int, limit: int, before: Option<int>, clock: int)
    requires step > 0 && HistoryFloor(clock) > 0 && (before.Some? ==> before.value > HistoryFloor(clock)) && AllPositive(fills)
    requires GetPage(fills, step, limit, before, clock).hasMore
    ensures var page := GetPage(fills, step, limit, before, clock);
            && page.oldest.Some? && page.oldest.value > HistoryFloor(clock) && page.oldest.value % step == 0
            && (before.Some? ==> page.oldest.value < before.value)
            && (page.candles == Aggregate(Query(fills, page.oldest, before), step)
                <==> Covers(fills, step, limit, before, clock))
  {
    hide *;
    var start, n := WindowStart(step, limit, before, clock), ClampLimit(limit);
    var page := GetPage(fills, step, limit, before, clock);
    PageOfWindow(fills, step, limit, before, clock);
    CoversMeans(fills, step, limit, before, clock);
    WindowStarts(step, limit, before, clock);
    var cut := page.oldest.value;
    AlignedCandle(fills, start, before, step, |Aggregate(Query(fills, Some(start), before), step)| - n);
    if start <= cut {
      NothingToLeaveOut(fills, cut, start, before);
      LateCut(fills, start, cut, before, step, n);
    } else {
      EarlyCut(fills, start, cut, before, step, n);
    }
  }

  /** The last page is all there is exactly when it covers. */
  lemma {:induction false} LastPageExactlyWhen(fills: seq<FillRow>, step: int, limit: int, before: Option<int>, clock: int)
    requires step > 0 && HistoryFloor(clock) > 0 && (before.Some? ==> before.value > HistoryFloor(clock)) && AllPositive(fills)
    requires !GetPage(fills, step, limit, before, clock).hasMore
    ensures GetPage(fills, step, limit, before, clock).candles == Full(fills, step, before, clock)
       <==> Covers(fills, step, limit, before, clock)
  {
    var floor, n, start := HistoryFloor(clock), ClampLimit(limit), WindowStart(step, limit, before, clock);
    PageOfWindow(fills, step, limit, before, clock);
    CoversMeans(fills, step, limit, before, clock);
    WindowStarts(step, limit, before, clock);
    FullBounds(fills, step, before, clock);
    AggregatesDiffer(fills, floor, start, before, step);
    PageVolume(fills, start, before, step, n);
    hide GetPage, Aggregate, Query, WindowStart, Bucket, Volume, LeavesOut, Covers, StrictlyAscending;
    if Covers(fills, step, limit, before, clock) {
      LastPageIsAll(Full(fills, step, before, clock), n, floor, step);
    }
  }

  lemma {:induction false} NothingQueried(fills: seq<FillRow>, start: int, before: Option<int>)
    requires before.Some? && before.value <= start
    ensures Query(fills, Some(start), before) == []
  {
    if fills != [] {
      NothingQueried(fills[..|fills| - 1], start, before);
    }
  }

  /** Below the floor there is nothing to page through. */
  lemma {:induction false} NothingBelowTheFloor(fills: seq<FillRow>, step: int, limit: int, before: Option<int>, clock: int)
    requires step > 0 && HistoryFloor(clock) > 0 && before.Some? && 0 < before.value <= HistoryFloor(clock)
    ensures GetPage(fills, step, limit, before, clock).candles == [] == Full(fills, step, before, clock)
    ensures !GetPage(fills, step, limit, before, clock).hasMore && Covers(fills, step, limit, before, clock)
  {
    var start := WindowStart(step, limit, before, clock);
    PageCandles(fills, step, limit, before, clock);
    PageMore(fills, step, limit, before, clock);
    WindowStarts(step, limit, before, clock);
    NothingQueried(fills, start, before);
    NothingQueried(fills, HistoryFloor(clock), before);
    NothingAggregates(step);
    hide GetPage, Aggregate, IndexerWindow;
  }

  // ---- The walk ----

  lemma {:induction false} SameCut(all: seq<Candle>, a: nat, b: nat, cut: int)
    requires a <= |all| && b <= |all|
    requires forall i :: 0 <= i < |all| ==> (all[i].timestamp < cut <==> i < a)
    requires forall i :: 0 <= i < |all| ==> (all[i].timestamp < cut <==> i < b)
    ensures a == b
  {
    var k := if a < b then a else b;
    if k < |all| {
      var t := all[k].timestamp;
    }
  }

  lemma {:induction false} PartsEqual(xs: seq<Candle>, ys: seq<Candle>, xs': seq<Candle>, ys': seq<Candle>, cut: int)
    requires forall i :: 0 <= i < |xs| ==> xs[i].timestamp < cut
    requires forall i :: 0 <= i < |xs'| ==> xs'[i].timestamp < cut
    requires forall i :: 0 <= i < |ys| ==> ys[i].timestamp >= cut
    requires forall i :: 0 <= i < |ys'| ==> ys'[i].timestamp >= cut
    ensures xs + ys == xs' + ys' <==> xs == xs' && ys == ys'
  {
    var all, all' := xs + ys, xs' + ys';
    assert xs == all[..|xs|] && ys == all[|xs|..];
    assert xs' == all'[..|xs'|] && ys' == all'[|xs'|..];
    if all == all' {
      assert forall i :: 0 <= i < |xs'| ==> all[i] == xs'[i];
      assert forall i :: |xs'| <= i < |all| ==> all[i] == ys'[i - |xs'|];
      assert forall i :: |xs| <= i < |all| ==> all[i] == ys[i - |xs|];
      SameCut(all, |xs|, |xs'|, cut);
    }
  }

  lemma {:induction false} WalkUnfolds(fills: seq<FillRow>, step: int, limit: int, before: Option<int>, clock: int)
    requires step > 0 && HistoryFloor(clock) > 0 && (before.Some? ==> before.value > 0)
    ensures var page := GetPage(fills, step, limit, before, clock);
            var pages, cursors := Walk(fills, step, limit, before, clock), Cursors(fills, step, limit, before, clock);
            if page.hasMore then
              && page.oldest.Some? && page.oldest.value > 0
              && Joined(pages) == Joined(Walk(fills, step, limit, page.oldest, clock)) + page.candles
              && cursors == [before] + Cursors(fills, step, limit, page.oldest, clock)
            else Joined(pages) == page.candles && cursors == [before]
  {
    hide GetPage;
    PageDescends(fills, step, limit, before, clock);
    var page, pages := GetPage(fills, step, limit, before, clock), Walk(fills, step, limit, before, clock);
    if page.hasMore {
      assert pages[1..] == Walk(fills, step, limit, page.oldest, clock);
    } else {
      assert pages == [page] && pages[1..] == [];
    }
  }

  ghost predicate AllCover(fills: seq<FillRow>, step: int, limit: int, cursors: seq<Option<int>>, clock: int)
    requires step > 0
  {
    forall k :: 0 <= k < |cursors| ==> Covers(fills, step, limit, cursors[k], clock)
  }

  lemma {:induction false} AllCoverFirst(fills: seq<FillRow>, step: int, limit: int, first: Option<int>, rest: seq<Option<int>>, clock: int)
    requires step > 0
    ensures AllCover(fills, step, limit, [first] + rest, clock)
       <==> Covers(fills, step, limit, first, clock) && AllCover(fills, step, limit, rest, clock)
  {
    hide Covers;
    var all := [first] + rest;
    assert all[0] == first;
    assert forall k :: 0 <= k < |rest| ==> all[k + 1] == rest[k];
    assert forall k :: 1 <= k < |all| ==> all[k] == rest[k - 1];
  }

  lemma {:induction false} NoCursors(fills: seq<FillRow>, step: int, limit: int, clock: int)
    requires step > 0
    ensures AllCover(fills, step, limit, [], clock)
  {
  }

  /** A walk with more than one page is complete when its first page and its rest are. */
  lemma {:induction false} WalkSplits(fills: seq<FillRow>, step: int, limit: int, before: Option<int>, clock: int)
    requires step > 0 && HistoryFloor(clock) > 0 && (before.Some? ==> before.value > 0)
    requires var page := GetPage(fills, step, limit, before, clock);
             && page.hasMore && page.oldest.Some? && page.oldest.value > HistoryFloor(clock)
             && page.oldest.value % step == 0 && (before.Some? ==> page.oldest.value < before.value)
    ensures var page := GetPage(fills, step, limit, before, clock);
            var older := Joined(Walk(fills, step, limit, page.oldest, clock));
            older + page.candles == Full(fills, step, before, clock)
            <==> older == Full(fills, step, page.oldest, clock)
                 && page.candles == Aggregate(Query(fills, page.oldest, before), step)
  {
    var page := GetPage(fills, step, limit, before, clock);
    PageDescends(fills, step, limit, before, clock);
    hide GetPage, Walk, Joined, Full, Aggregate, Query;
    var cut := page.oldest.value;
    var older := Joined(Walk(fills, step, limit, page.oldest, clock));
    WalkDescends(fills, step, limit, page.oldest, clock);
    forall i | 0 <= i < |older| ensures older[i].timestamp < cut {
      assert older[i] in older;
    }
    FullSplits(fills, step, cut, before, clock);
    FullBefore(fills, step, cut, clock);
    PartsEqual(older, page.candles, Full(fills, step, Some(cut), clock), Aggregate(Query(fills, Some(cut), before), step), cut);
  }

  /** The pages of a walk, joined, are the full aggregation since the floor exactly when every
      page covers: a window that leaves older fills out has more buckets than the page has
      candles, or as many, and none of them holds an older fill. */
  lemma {:induction false} WalkIsCompleteExactlyWhen(fills: seq<FillRow>, step: int, limit: int, before: Option<int>, clock: int)
    requires step > 0 && HistoryFloor(clock) > 0 && (before.Some? ==> before.value > 0) && AllPositive(fills)
    ensures Joined(Walk(fills, step, limit, before, clock)) == Full(fills, step, before, clock)
       <==> AllCover(fills, step, limit, Cursors(fills, step, limit, before, clock), clock)
    decreases before.None?, if before.Some? then before.value else 0
  {
    hide GetPage, Walk, Cursors, Joined, Full, Covers, AllCover, AllPositive, Aggregate, Query;
    var page := GetPage(fills, step, limit, before, clock);
    WalkUnfolds(fills, step, limit, before, clock);
    assert [before] + [] == [before];
    AllCoverFirst(fills, step, limit, before, [], clock);
    NoCursors(fills, step, limit, clock);
    if before.Some? && before.value <= HistoryFloor(clock) {
      NothingBelowTheFloor(fills, step, limit, before, clock);
    } else if page.hasMore {
      PageContinuesExactlyWhen(fills, step, limit, before, clock);
      AllCoverFirst(fills, step, limit, before, Cursors(fills, step, limit, page.oldest, clock), clock);
      WalkIsCompleteExactlyWhen(fills, step, limit, page.oldest, clock);
      WalkSplits(fills, step, limit, before, clock);
    } else {
      LastPageExactlyWhen(fills, step, limit, before, clock);
    }
  }

  // ---- The two ways to lose fills ----

  /** A window with fewer candles than a page holds ends the walk, whatever lies before it:
      the one page is complete exactly when nothing does. */
  lemma {:induction false} ShortWindowEndsTheWalk(fills: seq<FillRow>, step: int, limit: int, before: Option<int>, clock: int)
    requires step > 0 && HistoryFloor(clock) > 0 && (before.Some? ==> before.value > HistoryFloor(clock)) && AllPositive(fills)
    requires |Aggregate(Query(fills, Some(WindowStart(step, limit, before, clock)), before), step)| < ClampLimit(limit)
    ensures Cursors(fills, step, limit, before, clock) == [before]
    ensures Joined(Walk(fills, step, limit, before, clock)) == Full(fills, step, before, clock)
       <==> !LeavesOut(fills, HistoryFloor(clock), WindowStart(step, limit, before, clock), before)
  {
    hide *;
    PageOfWindow(fills, step, limit, before, clock);
    WalkUnfolds(fills, step, limit, before, clock);
    CoversMeans(fills, step, limit, before, clock);
    LastPageExactlyWhen(fills, step, limit, before, clock);
  }

  /** A window that starts inside the bucket of the oldest candle loses for good what that
      bucket traded before: the next page starts from the bucket's beginning. */
  lemma {:induction false} CutBucketIsLost(fills: seq<FillRow>, step: int, limit: int, before: Option<int>, clock: int)
    requires step > 0 && HistoryFloor(clock) > 0 && (before.Some? ==> before.value > HistoryFloor(clock)) && AllPositive(fills)
    requires var page := GetPage(fills, step, limit, before, clock);
             page.hasMore && page.oldest.Some?
             && LeavesOut(fills, page.oldest.value, WindowStart(step, limit, before, clock), before)
    ensures Joined(Walk(fills, step, limit, before, clock)) != Full(fills, step, before, clock)
  {
    hide *;
    PageContinuesExactlyWhen(fills, step, limit, before, clock);
    CoversMeans(fills, step, limit, before, clock);
    WalkUnfolds(fills, step, limit, before, clock);
    WalkSplits(fills, step, limit, before, clock);
  }

  const CLOCK := 34560150

  lemma {:induction false} OneFillAggregate(fills: seq<FillRow>, f: FillRow, step: int)
    requires step > 0 && fills == [f]
    ensures Aggregate(fills, step) == [Tick(f).(timestamp := Bucket(Truncated(f.time), step))]
  {
    hide Bucket, Truncated;
    assert fills[..0] == [];
    assert Sort(fills, FillTime) == Insert([], f, FillTime);
    InsertNothing(f);
    var ticks: seq<Candle> := [Tick(f)];
    assert Ticks([f]) == ticks && ticks[..0] == [];
    RollupNothing(step);
    var none: seq<Candle> := [];
    assert none + ticks == ticks;
    RollupLast(none, Tick(f), step);
    assert none + [Tick(f).(timestamp := Bucket(Truncated(f.time), step))] == [Tick(f).(timestamp := Bucket(Truncated(f.time), step))];
  }

  lemma {:induction false} TwoFills(past: FillRow, recent: FillRow, start: int)
    requires past.time < start as real <= recent.time
    ensures Query([past, recent], Some(start), None) == [recent]
  {
    var fills: seq<FillRow> := [past, recent];
    assert fills[..1] == [past] && fills[..1][..0] == [];
    assert Query([past], Some(start), None) == [];
    assert [] + [recent] == [recent];
  }

  /** A minute page of 150 that sees only the newer of two fills. */
  lemma {:induction false} PartlyFilledWindow(past: FillRow, recent: FillRow)
    requires past.time == 34460000.0 && recent.time == 34560090.0 && past.quantity > 0.0 && recent.quantity > 0.0
    ensures var fills := [past, recent];
            && GetPage(fills, 60, 150, None, CLOCK).candles != []
            && Joined(Walk(fills, 60, 150, None, CLOCK)) != Full(fills, 60, None, CLOCK)
  {
    var fills := [past, recent];
    var start := WindowStart(60, 150, None, CLOCK);
    assert start == 34542150 && HistoryFloor(CLOCK) == 3024150;
    TwoFills(past, recent, start);
    OneFillAggregate([recent], recent, 60);
    assert AllPositive(fills);
    assert LeavesOut(fills, HistoryFloor(CLOCK), start, None) by { assert fills[0] == past; }
    hide Aggregate, Query, GetPage, IndexerWindow, LeavesOut, AllPositive;
    PageOfWindow(fills, 60, 150, None, CLOCK);
    ShortWindowEndsTheWalk(fills, 60, 150, None, CLOCK);
  }

  /** A minute page of one whose window starts in the middle of a minute that traded twice:
      the page shows the second trade as the whole candle, and there is more to come. */
  lemma {:induction false} HalfACandle(early: FillRow, late: FillRow)
    requires early.time == 34560010.0 && late.time == 34560040.0 && early.quantity == late.quantity == 1.0
    requires early.price == 1.0 && late.price == 2.0
    ensures var fills := [early, late];
            var page := GetPage(fills, 60, 1, None, CLOCK);
            && page.candles == [Candle(2.0, 2.0, 2.0, 2.0, 1.0, 34560000)] && page.hasMore
            && Joined(Walk(fills, 60, 1, None, CLOCK)) != Full(fills, 60, None, CLOCK)
  {
    var fills := [early, late];
    var start := WindowStart(60, 1, None, CLOCK);
    assert start == 34560030 && HistoryFloor(CLOCK) == 3024150;
    TwoFills(early, late, start);
    OneFillAggregate([late], late, 60);
    assert Bucket(Truncated(late.time), 60) == 34560000;
    assert AllPositive(fills);
    assert LeavesOut(fills, 34560000, start, None) by { assert fills[0] == early; }
    hide Aggregate, Query, GetPage, IndexerWindow, LeavesOut, AllPositive;
    PageOfWindow(fills, 60, 1, None, CLOCK);
    PageMore(fills, 60, 1, None, CLOCK);
    CutBucketIsLost(fills, 60, 1, None, CLOCK);
  }
}
