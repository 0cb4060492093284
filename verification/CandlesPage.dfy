/** Pages of candles: a clamped query window, and a cursor that walks back in time. */
module CandlesPage {
  import opened Text
  import opened Candles

  const HISTORY_MAX_SEC := 365 * 86400
  const MAX_PAGE_LIMIT := 500

  datatype Page = Page(candles: seq<Candle>, hasMore: bool, oldest: Option<int>, newest: Option<int>)

  function ClampLimit(limit: int): (n: int)
    ensures 1 <= n <= MAX_PAGE_LIMIT
  {
    var capped := if limit <= MAX_PAGE_LIMIT then limit else MAX_PAGE_LIMIT;
    if capped >= 1 then capped else 1
  }

  function HistoryFloor(clock: int): int { clock - HISTORY_MAX_SEC }

  function Later(x: int, y: int): int { if x >= y then x else y }

  /** compute_indexer_window, both ends inclusive. */
  function IndexerWindow(step: int, limit: int, before: Option<int>, clock: int): (int, int) {
    var span := step * ClampLimit(limit);
    var floor := HistoryFloor(clock);
    var end := if before.Some? then Later(floor, before.value - 1) else clock;
    var start := Later(floor, end - span * 2);
    (if start > end then end else start, end)
  }

  function CandleTime(c: Candle): real { c.timestamp as real }

  function OlderThan(candles: seq<Candle>, before: int): seq<Candle> {
    if candles == [] then []
    else
      OlderThan(candles[..|candles| - 1], before)
      + if candles[|candles| - 1].timestamp < before then [candles[|candles| - 1]] else []
  }

  function TrimCandles(candles: seq<Candle>, limit: nat, before: Option<int>): seq<Candle> {
    var ordered := Sort(candles, CandleTime);
    LastN(if before.Some? then OlderThan(ordered, before.value) else ordered, limit)
  }

  function BuildPage(candles: seq<Candle>, limit: int, before: Option<int>, clock: int): Page {
    var trimmed := TrimCandles(candles, ClampLimit(limit), before);
    if trimmed == [] then Page([], false, None, None)
    else
      var oldest := trimmed[0].timestamp;
      Page(trimmed, oldest > HistoryFloor(clock) && |trimmed| >= ClampLimit(limit),
           Some(oldest), Some(trimmed[|trimmed| - 1].timestamp))
  }

  /** The fills query: from the start of the window, and before the cursor if there is
      one.  Without a start it is the whole history. */
  predicate Queried(f: FillRow, start: Option<int>, before: Option<int>) {
    && (start.Some? ==> f.time >= start.value as real)
    && (before.Some? ==> f.time < before.value as real)
  }

  function Query(fills: seq<FillRow>, start: Option<int>, before: Option<int>): seq<FillRow> {
    if fills == [] then []
    else
      Query(fills[..|fills| - 1], start, before)
      + if Queried(fills[|fills| - 1], start, before) then [fills[|fills| - 1]] else []
  }

  /** One request for a page, on the fills path. */
  function GetPage(fills: seq<FillRow>, step: int, limit: int, before: Option<int>, clock: int): Page
    requires step > 0
  {
    var count := ClampLimit(limit);
    var start := IndexerWindow(step, count, before, clock).0;
    BuildPage(LastN(Aggregate(Query(fills, Some(start), before), step), count), count, before, clock)
  }

  /** A page holds as many candles as asked for, within 1 and 500. */
  lemma {:induction false} ClampsExactly(limit: int)
    ensures ClampLimit(limit) == if limit < 1 then 1 else if limit > 500 then 500 else limit
  {
  }

  lemma {:induction false} OlderThanMeans(candles: seq<Candle>, before: int, c: Candle)
    ensures c in OlderThan(candles, before) <==> c in candles && c.timestamp < before
  {
    if candles != [] {
      var front, last := candles[..|candles| - 1], candles[|candles| - 1];
      OlderThanMeans(front, before, c);
      assert candles == front + [last];
    }
  }

  // ---- Windows and history ----

  function From(candles: seq<Candle>, start: int): seq<Candle> {
    if candles == [] then []
    else
      From(candles[..|candles| - 1], start)
      + if candles[|candles| - 1].timestamp >= start then [candles[|candles| - 1]] else []
  }

  lemma {:induction false} FromLast(candles: seq<Candle>, c: Candle, start: int)
    ensures From(candles + [c], start) == From(candles, start) + if c.timestamp >= start then [c] else []
  {
    assert (candles + [c])[..|candles|] == candles;
  }

  lemma {:induction false} FromNone(candles: seq<Candle>, start: int)
    requires forall i :: 0 <= i < |candles| ==> candles[i].timestamp < start
    ensures From(candles, start) == []
  {
    if candles != [] {
      FromNone(candles[..|candles| - 1], start);
    }
  }

  lemma {:induction false} SuffixGrows(init: seq<Candle>, suffix: seq<Candle>, last: Candle)
    requires |suffix| <= |init| && suffix == init[|init| - |suffix|..]
    ensures suffix + [last] == (init + [last])[|init| - |suffix|..]
  {
  }

  lemma {:induction false} FromAll(candles: seq<Candle>, start: int)
    ensures forall i :: 0 <= i < |From(candles, start)| ==> From(candles, start)[i].timestamp >= start
  {
    if candles != [] {
      FromAll(candles[..|candles| - 1], start);
    }
  }

  lemma {:induction false} BelowLast(candles: seq<Candle>, start: int)
    requires Ascending(candles) && candles != [] && candles[|candles| - 1].timestamp < start
    ensures forall i :: 0 <= i < |candles| ==> candles[i].timestamp < start
  {
  }

  /** In ascending order the candles from a time on are a suffix. */
  lemma {:induction false} FromIsSuffix(candles: seq<Candle>, start: int)
    requires Ascending(candles)
    ensures |From(candles, start)| <= |candles|
    ensures From(candles, start) == candles[|candles| - |From(candles, start)|..]
    ensures forall i :: 0 <= i < |candles| - |From(candles, start)| ==> candles[i].timestamp < start
    ensures forall c :: c in From(candles, start) ==> c.timestamp >= start
  {
    FromAll(candles, start);
    if candles != [] {
      var init, last := candles[..|candles| - 1], candles[|candles| - 1];
      assert candles == init + [last];
      assert Ascending(init);
      FromLast(init, last, start);
      if last.timestamp < start {
        BelowLast(candles, start);
        FromNone(candles, start);
      } else {
        hide From, Ascending;
        FromIsSuffix(init, start);
        SuffixGrows(init, From(init, start), last);
      }
    }
  }

  lemma {:induction false} RolledAscends(ticks: seq<Candle>, step: int)
    requires step > 0 && Ascending(ticks)
    ensures StrictlyAscending(Rollup(ticks, step)) && Ascending(Rollup(ticks, step))
  {
    RollupAccounts(ticks, step);
  }

  lemma {:induction false} RolledNotAfter(ticks: seq<Candle>, t: int, step: int)
    requires step > 0 && forall i :: 0 <= i < |ticks| ==> ticks[i].timestamp <= t
    ensures forall i :: 0 <= i < |Rollup(ticks, step)| ==> Rollup(ticks, step)[i].timestamp <= Bucket(t, step)
  {
    if ticks != [] {
      hide Bucket;
      RolledNotAfter(ticks[..|ticks| - 1], t, step);
      BucketMonotone(ticks[|ticks| - 1].timestamp, t, step);
    }
  }

  lemma {:induction false} LastOfSuffixIsLast(xs: seq<Candle>, suffix: seq<Candle>)
    requires |suffix| <= |xs| && suffix == xs[|xs| - |suffix|..]
    ensures suffix != [] ==> suffix[|suffix| - 1] == xs[|xs| - 1]
  {
  }

  /** Pushing touches what lies from a time on only as it would alone. */
  lemma {:induction false} PushFromOne(xs: seq<Candle>, c: Candle, start: int, step: int)
    requires step > 0 && Ascending(xs)
    requires forall i :: 0 <= i < |xs| ==> xs[i].timestamp <= Bucket(c.timestamp, step)
    ensures From(Push(xs, c, step), start)
         == if Bucket(c.timestamp, step) >= start then Push(From(xs, start), c, step) else []
  {
    hide Bucket, From;
    var b := Bucket(c.timestamp, step);
    if b < start {
      FromNone(Push(xs, c, step), start);
    } else if xs != [] && xs[|xs| - 1].timestamp == b {
      var init, last := xs[..|xs| - 1], xs[|xs| - 1];
      assert xs == init + [last];
      FromLast(init, last, start);
      MergeInStages(last, last, c);
      FromLast(init, Merge(last, c), start);
      PushOnBucket(init, last, c, step);
      PushOnBucket(From(init, start), last, c, step);
    } else {
      FromIsSuffix(xs, start);
      LastOfSuffixIsLast(xs, From(xs, start));
      FromLast(xs, c.(timestamp := b), start);
    }
  }

  lemma {:induction false} PushFrom(xs: seq<Candle>, ys: seq<Candle>, c: Candle, start: int, step: int)
    requires step > 0 && From(xs, start) == From(ys, start)
    requires Ascending(xs) && Ascending(ys)
    requires forall i :: 0 <= i < |xs| ==> xs[i].timestamp <= Bucket(c.timestamp, step)
    requires forall i :: 0 <= i < |ys| ==> ys[i].timestamp <= Bucket(c.timestamp, step)
    ensures From(Push(xs, c, step), start) == From(Push(ys, c, step), start)
  {
    hide Bucket, From;
    var b := Bucket(c.timestamp, step);
    PushFromOne(xs, c, start, step);
    PushFromOne(ys, c, start, step);
  }

  lemma {:induction false} NothingFromOlder(older: seq<Candle>, start: int, step: int)
    requires step > 0 && forall i :: 0 <= i < |older| ==> older[i].timestamp < start
    ensures From(Rollup(older, step), start) == []
  {
    hide Bucket;
    RolledNotAfter(older, start - 1, step);
    BucketBounds(start - 1, step);
    FromNone(Rollup(older, step), start);
  }

  lemma {:induction false} AscendingParts(all: seq<Candle>, c: Candle, older: seq<Candle>, init: seq<Candle>)
    requires Ascending(all + [c]) && all == older + init
    ensures Ascending(all) && Ascending(init)
    ensures forall i :: 0 <= i < |all| ==> all[i].timestamp <= c.timestamp
    ensures forall i :: 0 <= i < |init| ==> init[i].timestamp <= c.timestamp
  {
    forall i | 0 <= i < |all| ensures all[i].timestamp <= c.timestamp {
      assert (all + [c])[i].timestamp <= (all + [c])[|all|].timestamp;
    }
    forall i, j | 0 <= i < j < |all| ensures all[i].timestamp <= all[j].timestamp {
      assert (all + [c])[i].timestamp <= (all + [c])[j].timestamp;
    }
    forall i, j | 0 <= i < j < |init| ensures init[i].timestamp <= init[j].timestamp {
      assert all[|older| + i].timestamp <= all[|older| + j].timestamp;
    }
    forall i | 0 <= i < |init| ensures init[i].timestamp <= c.timestamp {
      assert all[|older| + i] == init[i];
    }
  }

  /** Candles that start inside a window do not depend on ticks from before it. */
  lemma {:induction false} WindowLocality(older: seq<Candle>, ticks: seq<Candle>, start: int, step: int)
    requires step > 0 && Ascending(older + ticks)
    requires forall i :: 0 <= i < |older| ==> older[i].timestamp < start
    ensures From(Rollup(older + ticks, step), start) == From(Rollup(ticks, step), start)
  {
    hide Bucket, From, Push, Rollup;
    if ticks == [] {
      assert older + ticks == older;
      NothingFromOlder(older, start, step);
      NothingFromOlder([], start, step);
    } else {
      var init, c := ticks[..|ticks| - 1], ticks[|ticks| - 1];
      var all := older + init;
      assert all + [c] == older + ticks && init + [c] == ticks;
      AscendingParts(all, c, older, init);
      WindowLocality(older, init, start, step);
      RolledAscends(all, step);
      RolledAscends(init, step);
      RolledNotAfter(all, c.timestamp, step);
      RolledNotAfter(init, c.timestamp, step);
      RollupLast(all, c, step);
      RollupLast(init, c, step);
      PushFrom(Rollup(all, step), Rollup(init, step), c, start, step);
    }
  }

  // ---- From fills to ticks ----

  lemma {:induction false} InsertNothing(row: FillRow)
    ensures Insert([], row, FillTime) == [row]
  {
  }

  lemma {:induction false} InsertAtEnd(rows: seq<FillRow>, row: FillRow)
    requires forall i :: 0 <= i < |rows| ==> rows[i].time <= row.time
    ensures Insert(rows, row, FillTime) == rows + [row]
  {
    assert rows != [] ==> FillTime(rows[|rows| - 1]) <= row.time;
  }

  lemma {:induction false} InsertLast(rows: seq<FillRow>, last: FillRow, row: FillRow)
    ensures Insert(rows + [last], row, FillTime)
         == if last.time > row.time then Insert(rows, row, FillTime) + [last] else rows + [last] + [row]
  {
    assert (rows + [last])[..|rows|] == rows;
    assert FillTime(last) == last.time && FillTime(row) == row.time;
  }

  /** Sorting splits where the query does: older fills first, each part sorted alone. */
  lemma {:induction false} InsertSplits(older: seq<FillRow>, newer: seq<FillRow>, row: FillRow, cut: real)
    requires forall i :: 0 <= i < |older| ==> older[i].time < cut
    requires forall i :: 0 <= i < |newer| ==> newer[i].time >= cut
    ensures row.time >= cut ==> Insert(older + newer, row, FillTime) == older + Insert(newer, row, FillTime)
    ensures row.time < cut ==> Insert(older + newer, row, FillTime) == Insert(older, row, FillTime) + newer
  {
    hide Insert;
    if newer == [] {
      assert older + newer == older;
      InsertNothing(row);
      if row.time >= cut {
        InsertAtEnd(older, row);
      } else {
        assert Insert(older, row, FillTime) + newer == Insert(older, row, FillTime);
      }
    } else {
      var init, last := newer[..|newer| - 1], newer[|newer| - 1];
      assert newer == init + [last] && older + newer == (older + init) + [last];
      InsertSplits(older, init, row, cut);
      InsertLast(older + init, last, row);
      InsertLast(init, last, row);
      if row.time >= cut {
        assert older + (Insert(init, row, FillTime) + [last]) == older + Insert(init, row, FillTime) + [last];
        assert older + (newer + [row]) == older + newer + [row];
      } else {
        assert Insert(older, row, FillTime) + init + [last] == Insert(older, row, FillTime) + newer;
      }
    }
  }

  lemma {:induction false} QueryBounds(fills: seq<FillRow>, start: Option<int>, before: Option<int>)
    ensures forall f :: f in Query(fills, start, before) <==> f in fills && Queried(f, start, before)
  {
    if fills != [] {
      var init, last := fills[..|fills| - 1], fills[|fills| - 1];
      QueryBounds(init, start, before);
      assert fills == init + [last];
    }
  }

  lemma {:induction false} SortedQueryBounds(fills: seq<FillRow>, start: Option<int>, before: Option<int>)
    ensures forall i :: 0 <= i < |Sort(Query(fills, start, before), FillTime)| ==>
      Queried(Sort(Query(fills, start, before), FillTime)[i], start, before)
  {
    var q := Query(fills, start, before);
    QueryBounds(fills, start, before);
    SortIsStable(q, FillTime, 0.0);
    forall i | 0 <= i < |Sort(q, FillTime)| ensures Queried(Sort(q, FillTime)[i], start, before) {
      assert Sort(q, FillTime)[i] in multiset(q);
    }
  }

  lemma {:induction false} SortedQueryLast(fills: seq<FillRow>, f: FillRow, start: Option<int>, before: Option<int>)
    ensures Sort(Query(fills + [f], start, before), FillTime)
         == if Queried(f, start, before) then Insert(Sort(Query(fills, start, before), FillTime), f, FillTime)
            else Sort(Query(fills, start, before), FillTime)
  {
    hide Queried;
    var q := Query(fills, start, before);
    assert (fills + [f])[..|fills|] == fills;
    assert (q + [f])[..|q|] == q && q + [] == q;
  }

  lemma {:induction false} SortSplits(fills: seq<FillRow>, lo: Option<int>, cut: int, before: Option<int>)
    requires (lo.Some? ==> lo.value <= cut) && (before.Some? ==> cut <= before.value)
    ensures Sort(Query(fills, lo, before), FillTime)
         == Sort(Query(fills, lo, Some(cut)), FillTime) + Sort(Query(fills, Some(cut), before), FillTime)
  {
    if fills != [] {
      hide Insert, Sort, Query;
      var init, last := fills[..|fills| - 1], fills[|fills| - 1];
      assert fills == init + [last];
      SortSplits(init, lo, cut, before);
      SortedQueryBounds(init, lo, Some(cut));
      SortedQueryBounds(init, Some(cut), before);
      InsertSplits(Sort(Query(init, lo, Some(cut)), FillTime), Sort(Query(init, Some(cut), before), FillTime), last,
                   cut as real);
      SortedQueryLast(init, last, lo, before);
      SortedQueryLast(init, last, lo, Some(cut));
      SortedQueryLast(init, last, Some(cut), before);
    }
  }

  lemma {:induction false} TruncatedBelow(time: real, cut: int)
    requires cut > 0
    ensures time < cut as real <==> Truncated(time) < cut
  {
  }

  /** The candles of a query that start at a cut or later come from its newer part, and
      the ticks of the two parts follow one another. */
  lemma {:induction false} QuerySplits(fills: seq<FillRow>, lo: Option<int>, cut: int, before: Option<int>, step: int)
    requires step > 0 && cut > 0 && (lo.Some? ==> lo.value <= cut) && (before.Some? ==> cut <= before.value)
    ensures var older := Ticks(Sort(Query(fills, lo, Some(cut)), FillTime));
            var newer := Ticks(Sort(Query(fills, Some(cut), before), FillTime));
            && Aggregate(Query(fills, lo, before), step) == Rollup(older + newer, step)
            && Ascending(older + newer)
            && (forall i :: 0 <= i < |older| ==> older[i].timestamp < cut)
            && (forall i :: 0 <= i < |newer| ==> newer[i].timestamp >= cut)
  {
    hide Rollup, Sort, Truncated;
    var older, newer := Sort(Query(fills, lo, Some(cut)), FillTime), Sort(Query(fills, Some(cut), before), FillTime);
    SortSplits(fills, lo, cut, before);
    assert Ticks(older + newer) == Ticks(older) + Ticks(newer);
    SortedTicksAscend(Query(fills, lo, before));
    SortedQueryBounds(fills, lo, Some(cut));
    SortedQueryBounds(fills, Some(cut), before);
    forall i | 0 <= i < |older| ensures Ticks(older)[i].timestamp < cut {
      TruncatedBelow(older[i].time, cut);
    }
    forall i | 0 <= i < |newer| ensures Ticks(newer)[i].timestamp >= cut {
      TruncatedBelow(newer[i].time, cut);
    }
  }

  lemma {:induction false} AggregateAscends(fills: seq<FillRow>, step: int)
    requires step > 0
    ensures StrictlyAscending(Aggregate(fills, step)) && Ascending(Aggregate(fills, step))
  {
    SortedTicksAscend(fills);
    RolledAscends(Ticks(Sort(fills, FillTime)), step);
  }

  lemma {:induction false} LastOfSuffix(candles: seq<Candle>, start: int, n: nat)
    requires Ascending(candles) && n <= |From(candles, start)|
    ensures LastN(candles, n) == LastN(From(candles, start), n)
  {
    FromIsSuffix(candles, start);
  }

  /** Window locality: when at least n candles start inside the window, the last n
      candles of the window are the last n of the whole history before the cursor. */
  lemma {:induction false} WindowSeesTheHistory(fills: seq<FillRow>, lo: Option<int>, start: int, before: Option<int>, step: int, n: nat)
    requires step > 0 && start > 0 && (lo.Some? ==> lo.value <= start) && (before.Some? ==> start <= before.value)
    requires n <= |From(Aggregate(Query(fills, Some(start), before), step), start)|
    ensures LastN(Aggregate(Query(fills, Some(start), before), step), n)
         == LastN(Aggregate(Query(fills, lo, before), step), n)
  {
    hide From, Rollup, Sort, Query;
    QuerySplits(fills, lo, start, before, step);
    var older := Ticks(Sort(Query(fills, lo, Some(start)), FillTime));
    var newer := Ticks(Sort(Query(fills, Some(start), before), FillTime));
    WindowLocality(older, newer, start, step);
    AggregateAscends(Query(fills, lo, before), step);
    AggregateAscends(Query(fills, Some(start), before), step);
    LastOfSuffix(Aggregate(Query(fills, lo, before), step), start, n);
    LastOfSuffix(Aggregate(Query(fills, Some(start), before), step), start, n);
  }

  // ---- One page ----

  lemma {:induction false} OlderThanAll(candles: seq<Candle>, before: int)
    requires forall i :: 0 <= i < |candles| ==> candles[i].timestamp < before
    ensures OlderThan(candles, before) == candles
  {
    if candles != [] {
      OlderThanAll(candles[..|candles| - 1], before);
    }
  }

  lemma {:induction false} AggregateBefore(fills: seq<FillRow>, start: Option<int>, before: int, step: int)
    requires step > 0 && before > 0
    ensures forall i :: 0 <= i < |Aggregate(Query(fills, start, Some(before)), step)| ==>
      Aggregate(Query(fills, start, Some(before)), step)[i].timestamp < before
  {
    hide Rollup, Sort, Truncated, Bucket, Query;
    var sorted := Sort(Query(fills, start, Some(before)), FillTime);
    SortedQueryBounds(fills, start, Some(before));
    forall i | 0 <= i < |sorted| ensures Ticks(sorted)[i].timestamp <= before - 1 {
      TruncatedBelow(sorted[i].time, before);
    }
    RolledNotAfter(Ticks(sorted), before - 1, step);
    BucketBounds(before - 1, step);
  }

  /** Trimming an aggregate of the fills path takes nothing away. */
  lemma {:induction false} PageCandles(fills: seq<FillRow>, step: int, limit: int, before: Option<int>, clock: int)
    requires step > 0 && (before.Some? ==> before.value > 0)
    ensures var n := ClampLimit(limit);
            GetPage(fills, step, limit, before, clock).candles
            == LastN(Aggregate(Query(fills, Some(IndexerWindow(step, n, before, clock).0), before), step), n)
  {
    hide Aggregate, IndexerWindow, Query, Sort;
    var n := ClampLimit(limit);
    var start := IndexerWindow(step, n, before, clock).0;
    var raw := LastN(Aggregate(Query(fills, Some(start), before), step), n);
    AggregateAscends(Query(fills, Some(start), before), step);
    SortOfSorted(raw, CandleTime);
    if before.Some? {
      AggregateBefore(fills, Some(start), before.value, step);
      OlderThanAll(raw, before.value);
    }
  }

  // ---- The walk ----

  lemma {:induction false} PageEdges(fills: seq<FillRow>, step: int, limit: int, before: Option<int>, clock: int)
    requires step > 0
    ensures var page := GetPage(fills, step, limit, before, clock);
            && (page.hasMore ==> page.oldest.Some? && page.oldest.value > HistoryFloor(clock))
            && (page.candles != [] ==> page.oldest == Some(page.candles[0].timestamp))
            && (page.oldest.Some? ==> page.candles != [])
  {
    hide Aggregate, IndexerWindow, Query, TrimCandles;
  }

  lemma {:induction false} PageDescends(fills: seq<FillRow>, step: int, limit: int, before: Option<int>, clock: int)
    requires step > 0 && HistoryFloor(clock) > 0 && (before.Some? ==> before.value > 0)
    ensures var page := GetPage(fills, step, limit, before, clock);
            && StrictlyAscending(page.candles)
            && (page.hasMore ==> page.oldest.Some? && page.oldest.value > HistoryFloor(clock))
            && (before.Some? ==> forall c :: c in page.candles ==> c.timestamp < before.value)
            && (page.candles != [] ==> page.oldest == Some(page.candles[0].timestamp))
            && (page.oldest.Some? ==> page.candles != [])
  {
    hide Aggregate, IndexerWindow, Query, GetPage;
    PageCandles(fills, step, limit, before, clock);
    PageEdges(fills, step, limit, before, clock);
    var start := IndexerWindow(step, ClampLimit(limit), before, clock).0;
    AggregateAscends(Query(fills, Some(start), before), step);
    if before.Some? {
      AggregateBefore(fills, Some(start), before.value, step);
    }
  }

  /** The pages a client sees that follows the oldest candle while there is more. */
  function Walk(fills: seq<FillRow>, step: int, limit: int, before: Option<int>, clock: int): seq<Page>
    requires step > 0 && HistoryFloor(clock) > 0 && (before.Some? ==> before.value > 0)
    decreases before.None?, if before.Some? then before.value else 0
  {
    var page := GetPage(fills, step, limit, before, clock);
    PageDescends(fills, step, limit, before, clock);
    if page.hasMore then [page] + Walk(fills, step, limit, page.oldest, clock) else [page]
  }

  /** The candles of all pages in the order of time: later pages are older. */
  function Joined(pages: seq<Page>): seq<Candle> {
    if pages == [] then [] else Joined(pages[1..]) + pages[0].candles
  }

  lemma {:induction false} AscendingJoin(older: seq<Candle>, newer: seq<Candle>, cut: int)
    requires StrictlyAscending(older) && StrictlyAscending(newer)
    requires forall c :: c in older ==> c.timestamp < cut
    requires newer != [] ==> newer[0].timestamp == cut
    ensures StrictlyAscending(older + newer)
  {
    forall i, j | 0 <= i < j < |older + newer| ensures (older + newer)[i].timestamp < (older + newer)[j].timestamp {
      if i < |older| <= j {
        assert older[i] in older;
        assert newer[j - |older|].timestamp >= cut;
      }
    }
  }

  /** The walk ends (it is a function), and its pages joined are strictly ascending: no
      candle comes twice, and each page is older than the one before. */
  lemma {:induction false} WalkDescends(fills: seq<FillRow>, step: int, limit: int, before: Option<int>, clock: int)
    requires step > 0 && HistoryFloor(clock) > 0 && (before.Some? ==> before.value > 0)
    ensures StrictlyAscending(Joined(Walk(fills, step, limit, before, clock)))
    ensures before.Some? ==>
      forall c :: c in Joined(Walk(fills, step, limit, before, clock)) ==> c.timestamp < before.value
    decreases before.None?, if before.Some? then before.value else 0
  {
    hide GetPage, StrictlyAscending;
    var page := GetPage(fills, step, limit, before, clock);
    var walk := Walk(fills, step, limit, before, clock);
    PageDescends(fills, step, limit, before, clock);
    if page.hasMore {
      var rest := Walk(fills, step, limit, page.oldest, clock);
      WalkDescends(fills, step, limit, page.oldest, clock);
      assert walk == [page] + rest && walk[1..] == rest;
      AscendingJoin(Joined(rest), page.candles, page.oldest.value);
    } else {
      assert walk == [page] && walk[1..] == [];
      assert Joined(walk) == page.candles;
    }
  }

  // ---- Dense histories ----

  ghost predicate HasFill(fills: seq<FillRow>, b: int, step: int)
    requires step > 0
  {
    exists i :: 0 <= i < |fills| && Bucket(Truncated(fills[i].time), step) == b
  }

  /** Every bucket that starts between the floor and the clock holds a fill, and no fill
      is later than the clock. */
  ghost predicate Dense(fills: seq<FillRow>, step: int, clock: int)
    requires step > 0
  {
    && (forall b :: HistoryFloor(clock) <= b <= clock && b % step == 0 ==> HasFill(fills, b, step))
    && (forall i :: 0 <= i < |fills| ==> Truncated(fills[i].time) <= clock)
  }

  lemma {:induction false} AccountedBucket(rolled: seq<Candle>, candles: seq<Candle>, i: nat, step: int)
    requires step > 0 && Accounts(rolled, candles, step) && i < |candles|
    ensures HasBucket(rolled, Bucket(candles[i].timestamp, step))
  {
  }

  /** A fill of a query gives its bucket a candle. */
  lemma {:induction false} QueriedFillHasCandle(fills: seq<FillRow>, f: FillRow, start: Option<int>, before: Option<int>, step: int)
    requires step > 0 && f in fills && Queried(f, start, before)
    ensures HasBucket(Aggregate(Query(fills, start, before), step), Bucket(Truncated(f.time), step))
  {
    hide Rollup, Truncated, Bucket, Accounts, Query, Sort, Queried;
    var q := Query(fills, start, before);
    var sorted := Sort(q, FillTime);
    QueryBounds(fills, start, before);
    SortIsStable(q, FillTime, 0.0);
    assert f in multiset(q);
    assert f in sorted;
    var i :| 0 <= i < |sorted| && sorted[i] == f;
    SortedTicksAscend(q);
    RollupAccounts(Ticks(sorted), step);
    AccountedBucket(Rollup(Ticks(sorted), step), Ticks(sorted), i, step);
  }

  /** Two multiples of the step in order are a step apart. */
  lemma {:induction false} StepApart(a: int, b: int, step: int)
    requires step > 0 && a % step == 0 && b % step == 0 && a < b
    ensures a + step <= b
  {
    var i, j := a / step, b / step;
    assert a == i * step && b == j * step;
    assert (j - i) * step == b - a;
    ScaleBounds(j - i - 1, step);
    ScaleBounds(i - j, step);
    assert (j - i - 1) * step == b - a - step;
    assert (i - j) * step == a - b;
  }

  lemma {:induction false} ScaledAfter(q: int, j: nat, n: nat, step: int)
    requires step > 0 && j < n
    ensures (q + j) * step == q * step + j * step
    ensures 0 <= j * step <= n * step - step
  {
    assert (n - 1 - j) * step >= 0;
    assert (n - 1 - j) * step == n * step - step - j * step;
  }

  lemma {:induction false} MultiplesUp(first: int, j: nat, n: nat, step: int)
    requires step > 0 && first % step == 0 && j < n
    ensures (first + j * step) % step == 0 && first <= first + j * step <= first + n * step - step
  {
    ScaledAfter(first / step, j, n, step);
    MultipleOf(first / step + j, step);
  }

  function Nth(first: int, j: nat, step: int): int { first + j * step }

  lemma {:induction false} NthIncreases(first: int, i: nat, j: nat, step: int)
    requires step > 0 && i < j
    ensures Nth(first, i, step) < Nth(first, j, step)
  {
    ScaleBounds(j - i, step);
    assert (j - i) * step == j * step - i * step;
  }

  lemma {:induction false} AscendingIndex(candles: seq<Candle>, i: nat, k: nat)
    requires StrictlyAscending(candles) && i < |candles| && k < |candles|
    ensures candles[i].timestamp < candles[k].timestamp ==> i < k
  {
  }

  /** In ascending order, n candles a step apart need a list of n. */
  lemma {:induction false} CountAtLeast(candles: seq<Candle>, first: int, n: nat, step: int)
    requires step > 0 && StrictlyAscending(candles)
    requires forall j: nat :: j < n ==> HasBucket(candles, Nth(first, j, step))
    ensures |candles| >= n
  {
    hide Nth;
    if n > 0 {
      var last := Nth(first, n - 1, step);
      assert HasBucket(candles, last);
      var k :| 0 <= k < |candles| && candles[k].timestamp == last;
      forall j: nat | j < n - 1 ensures HasBucket(candles[..k], Nth(first, j, step)) {
        assert HasBucket(candles, Nth(first, j, step));
        var i :| 0 <= i < |candles| && candles[i].timestamp == Nth(first, j, step);
        NthIncreases(first, j, n - 1, step);
        AscendingIndex(candles, i, k);
        assert candles[..k][i] == candles[i];
      }
      CountAtLeast(candles[..k], first, n - 1, step);
    }
  }

  lemma {:induction false} FromKeepsBucket(candles: seq<Candle>, b: int, start: int)
    requires Ascending(candles) && HasBucket(candles, b) && b >= start
    ensures HasBucket(From(candles, start), b)
  {
    hide From;
    FromIsSuffix(candles, start);
    var k :| 0 <= k < |candles| && candles[k].timestamp == b;
    var cut := |candles| - |From(candles, start)|;
    assert From(candles, start)[k - cut] == candles[k];
  }

  lemma {:induction false} TruncatedWithin(time: real, b: int, step: int)
    requires step > 0 && b > 0 && Bucket(Truncated(time), step) == b
    ensures b as real <= time < (b + step) as real
  {
    hide Bucket;
    BucketBounds(Truncated(time), step);
    TruncatedBelow(time, b);
    TruncatedBelow(time, b + step);
  }

  /** A cursor of the walk is the start of a bucket above the floor. */
  predicate WalkCursor(step: int, before: Option<int>, clock: int)
    requires step > 0
  {
    before.Some? ==> before.value % step == 0 && HistoryFloor(clock) < before.value <= clock
  }

  lemma {:induction false} DenseBucketCandle(fills: seq<FillRow>, step: int, b: int, start: int, before: Option<int>, clock: int)
    requires step > 0 && Dense(fills, step, clock) && HistoryFloor(clock) > 0 && WalkCursor(step, before, clock)
    requires b % step == 0 && HistoryFloor(clock) <= start <= b <= clock && (before.Some? ==> b < before.value)
    ensures HasBucket(From(Aggregate(Query(fills, Some(start), before), step), start), b)
  {
    hide Bucket, Truncated, Aggregate, Query, From;
    assert HasFill(fills, b, step);
    var i :| 0 <= i < |fills| && Bucket(Truncated(fills[i].time), step) == b;
    TruncatedWithin(fills[i].time, b, step);
    if before.Some? {
      StepApart(b, before.value, step);
    }
    QueriedFillHasCandle(fills, fills[i], Some(start), before, step);
    AggregateAscends(Query(fills, Some(start), before), step);
    FromKeepsBucket(Aggregate(Query(fills, Some(start), before), step), b, start);
  }

  /** In a dense history a window above the floor holds a full page. */
  lemma {:induction false} DenseWindowIsFull(fills: seq<FillRow>, step: int, n: nat, start: int, before: Option<int>, clock: int)
    requires step > 0 && n > 0 && Dense(fills, step, clock) && HistoryFloor(clock) > 0 && WalkCursor(step, before, clock)
    requires HistoryFloor(clock) < start && start == (if before.Some? then before.value - 1 else clock) - step * n * 2
    ensures n <= |From(Aggregate(Query(fills, Some(start), before), step), start)|
  {
    hide Bucket, Aggregate, Query, From, Dense;
    var first := Bucket(start + step - 1, step);
    var candles := From(Aggregate(Query(fills, Some(start), before), step), start);
    BucketBounds(start + step - 1, step);
    forall j: nat | j < n ensures HasBucket(candles, Nth(first, j, step)) {
      MultiplesUp(first, j, n, step);
      assert n * step > 0 && step * n * 2 == 2 * (n * step);
      DenseBucketCandle(fills, step, first + j * step, start, before, clock);
    }
    AggregateAscends(Query(fills, Some(start), before), step);
    FromIsSuffix(Aggregate(Query(fills, Some(start), before), step), start);
    CountAtLeast(candles, first, n, step);
  }

  /** All candles since the floor and before a cursor. */
  function Full(fills: seq<FillRow>, step: int, before: Option<int>, clock: int): seq<Candle>
    requires step > 0
  {
    Aggregate(Query(fills, Some(HistoryFloor(clock)), before), step)
  }

  /** In a dense history a page is the end of the full aggregation. */
  lemma {:induction false} PageIsTheEnd(fills: seq<FillRow>, step: int, limit: int, before: Option<int>, clock: int)
    requires step > 0 && Dense(fills, step, clock) && HistoryFloor(clock) > 0 && WalkCursor(step, before, clock)
    ensures GetPage(fills, step, limit, before, clock).candles == LastN(Full(fills, step, before, clock), ClampLimit(limit))
  {
    hide Aggregate, Query, From, Dense, LastN, GetPage;
    var n, floor := ClampLimit(limit), HistoryFloor(clock);
    var start := IndexerWindow(step, n, before, clock).0;
    PageCandles(fills, step, limit, before, clock);
    assert step * n * 2 > 0;
    if start > floor {
      DenseWindowIsFull(fills, step, n, start, before, clock);
      WindowSeesTheHistory(fills, Some(floor), start, before, step, n);
    }
  }

  lemma {:induction false} PushAfter(older: seq<Candle>, newer: seq<Candle>, c: Candle, step: int)
    requires step > 0
    requires forall i :: 0 <= i < |older| ==> older[i].timestamp < Bucket(c.timestamp, step)
    ensures Push(older + newer, c, step) == older + Push(newer, c, step)
  {
    hide Bucket;
    if newer == [] {
      assert older + newer == older;
    } else {
      assert (older + newer)[..|older + newer| - 1] == older + newer[..|newer| - 1];
    }
  }

  /** Cutting at the start of a bucket cuts between candles. */
  lemma {:induction false} RollupCut(older: seq<Candle>, newer: seq<Candle>, cut: int, step: int)
    requires step > 0 && cut % step == 0
    requires forall i :: 0 <= i < |older| ==> older[i].timestamp < cut
    requires forall i :: 0 <= i < |newer| ==> newer[i].timestamp >= cut
    ensures Rollup(older + newer, step) == Rollup(older, step) + Rollup(newer, step)
  {
    hide Bucket;
    if newer == [] {
      assert older + newer == older;
    } else {
      hide Push, Rollup;
      var init, c := newer[..|newer| - 1], newer[|newer| - 1];
      assert older + init + [c] == older + newer && init + [c] == newer;
      RollupCut(older, init, cut, step);
      RollupLast(older + init, c, step);
      RollupLast(init, c, step);
      RolledNotAfter(older, cut - 1, step);
      BucketBounds(cut - 1, step);
      BucketMonotone(cut, c.timestamp, step);
      BucketBounds(cut, step);
      PushAfter(Rollup(older, step), Rollup(init, step), c, step);
    }
  }

  lemma {:induction false} RolledNotBefore(ticks: seq<Candle>, cut: int, step: int)
    requires step > 0 && forall i :: 0 <= i < |ticks| ==> ticks[i].timestamp >= cut
    ensures forall i :: 0 <= i < |Rollup(ticks, step)| ==>
      Rollup(ticks, step)[i].timestamp >= Bucket(cut, step) && Rollup(ticks, step)[i].timestamp % step == 0
  {
    if ticks != [] {
      hide Bucket;
      RolledNotBefore(ticks[..|ticks| - 1], cut, step);
      BucketMonotone(cut, ticks[|ticks| - 1].timestamp, step);
      BucketBounds(ticks[|ticks| - 1].timestamp, step);
    }
  }

  /** An aggregation splits at the start of any bucket. */
  lemma {:induction false} AggregateSplits(fills: seq<FillRow>, lo: int, cut: int, before: Option<int>, step: int)
    requires step > 0 && cut > 0 && cut % step == 0 && lo <= cut && (before.Some? ==> cut <= before.value)
    ensures var newer := Aggregate(Query(fills, Some(cut), before), step);
            && Aggregate(Query(fills, Some(lo), before), step) == Aggregate(Query(fills, Some(lo), Some(cut)), step) + newer
            && forall i :: 0 <= i < |newer| ==> newer[i].timestamp >= cut
  {
    hide Rollup, Bucket, Query, Sort;
    QuerySplits(fills, Some(lo), cut, before, step);
    var older := Ticks(Sort(Query(fills, Some(lo), Some(cut)), FillTime));
    var newer := Ticks(Sort(Query(fills, Some(cut), before), FillTime));
    RollupCut(older, newer, cut, step);
    RolledNotBefore(newer, cut, step);
    BucketBounds(cut, step);
  }

  /** The aggregation since the floor splits at any bucket above the floor. */
  lemma {:induction false} FullSplits(fills: seq<FillRow>, step: int, cut: int, before: Option<int>, clock: int)
    requires step > 0 && HistoryFloor(clock) > 0 && cut % step == 0 && HistoryFloor(clock) <= cut
    requires before.Some? ==> cut <= before.value
    ensures var newer := Aggregate(Query(fills, Some(cut), before), step);
            && Full(fills, step, before, clock) == Full(fills, step, Some(cut), clock) + newer
            && forall i :: 0 <= i < |newer| ==> newer[i].timestamp >= cut
  {
    hide Aggregate, Query;
    AggregateSplits(fills, HistoryFloor(clock), cut, before, step);
  }

  /** The candles of a query start no earlier than the bucket of its start. */
  lemma {:induction false} AggregateBounds(fills: seq<FillRow>, lo: int, before: Option<int>, step: int)
    requires step > 0 && lo > 0
    ensures var candles := Aggregate(Query(fills, Some(lo), before), step);
            && StrictlyAscending(candles)
            && forall i :: 0 <= i < |candles| ==>
                 candles[i].timestamp >= Bucket(lo, step) && candles[i].timestamp % step == 0
  {
    hide Rollup, Bucket, Query, Sort, Truncated;
    var sorted := Sort(Query(fills, Some(lo), before), FillTime);
    AggregateAscends(Query(fills, Some(lo), before), step);
    SortedQueryBounds(fills, Some(lo), before);
    forall i | 0 <= i < |sorted| ensures Ticks(sorted)[i].timestamp >= lo {
      TruncatedBelow(sorted[i].time, lo);
    }
    RolledNotBefore(Ticks(sorted), lo, step);
  }

  lemma {:induction false} FullBounds(fills: seq<FillRow>, step: int, before: Option<int>, clock: int)
    requires step > 0 && HistoryFloor(clock) > 0
    ensures var full := Full(fills, step, before, clock);
            && StrictlyAscending(full)
            && forall i :: 0 <= i < |full| ==>
                 full[i].timestamp >= Bucket(HistoryFloor(clock), step) && full[i].timestamp % step == 0
  {
    hide Aggregate, Query, Bucket;
    AggregateBounds(fills, HistoryFloor(clock), before, step);
  }

  lemma {:induction false} FullNotAfterClock(fills: seq<FillRow>, step: int, before: Option<int>, clock: int)
    requires step > 0 && Dense(fills, step, clock)
    ensures var full := Full(fills, step, before, clock);
            forall i :: 0 <= i < |full| ==> full[i].timestamp <= clock
  {
    hide Rollup, Bucket, Query, Sort, Truncated;
    var q := Query(fills, Some(HistoryFloor(clock)), before);
    var sorted := Sort(q, FillTime);
    QueryBounds(fills, Some(HistoryFloor(clock)), before);
    SortIsStable(q, FillTime, 0.0);
    forall i | 0 <= i < |sorted| ensures Ticks(sorted)[i].timestamp <= clock {
      assert sorted[i] in multiset(q);
      assert sorted[i] in fills;
    }
    RolledNotAfter(Ticks(sorted), clock, step);
    BucketBounds(clock, step);
  }

  lemma {:induction false} SplitHere(older: seq<Candle>, newer: seq<Candle>, n: nat, cut: int)
    requires StrictlyAscending(older + newer) && n <= |older + newer| && n > 0
    requires (older + newer)[|older + newer| - n].timestamp == cut
    requires forall i :: 0 <= i < |older| ==> older[i].timestamp < cut
    requires forall i :: 0 <= i < |newer| ==> newer[i].timestamp >= cut
    ensures LastN(older + newer, n) == newer
  {
    var full := older + newer;
    var k := |full| - n;
    assert forall i :: 0 <= i < |older| ==> full[i] == older[i];
    assert newer != [] ==> full[|older|] == newer[0];
  }

  lemma {:induction false} LastPageIsAll(full: seq<Candle>, n: nat, floor: int, step: int)
    requires step > 0 && n > 0 && StrictlyAscending(full)
    requires forall i :: 0 <= i < |full| ==> full[i].timestamp >= Bucket(floor, step) && full[i].timestamp % step == 0
    requires n < |full| ==> LastN(full, n)[0].timestamp <= floor
    ensures LastN(full, n) == full
  {
    hide Bucket;
    if n < |full| {
      BucketBounds(floor, step);
      StepApart(full[0].timestamp, full[|full| - n].timestamp, step);
    }
  }

  lemma {:induction false} FullBefore(fills: seq<FillRow>, step: int, cut: int, clock: int)
    requires step > 0 && cut > 0
    ensures var full := Full(fills, step, Some(cut), clock);
            forall i :: 0 <= i < |full| ==> full[i].timestamp < cut
  {
    AggregateBefore(fills, Some(HistoryFloor(clock)), cut, step);
  }

  lemma {:induction false} PageMore(fills: seq<FillRow>, step: int, limit: int, before: Option<int>, clock: int)
    requires step > 0
    ensures var page := GetPage(fills, step, limit, before, clock);
            page.hasMore <==> page.candles != [] && page.candles[0].timestamp > HistoryFloor(clock)
                              && |page.candles| >= ClampLimit(limit)
  {
    hide Aggregate, Query, Sort;
  }

  lemma {:induction false} NextPageContinues(fills: seq<FillRow>, step: int, limit: int, before: Option<int>, clock: int)
    requires step > 0 && Dense(fills, step, clock) && HistoryFloor(clock) > 0 && WalkCursor(step, before, clock)
    requires GetPage(fills, step, limit, before, clock).hasMore
    ensures var page := GetPage(fills, step, limit, before, clock);
            && page.oldest.Some? && WalkCursor(step, page.oldest, clock) && page.oldest.value > 0
            && (before.Some? ==> page.oldest.value < before.value)
            && Full(fills, step, before, clock) == Full(fills, step, page.oldest, clock) + page.candles
  {
    hide Aggregate, Query, Bucket, Dense, Sort, GetPage, Full;
    var page, n := GetPage(fills, step, limit, before, clock), ClampLimit(limit);
    PageIsTheEnd(fills, step, limit, before, clock);
    PageDescends(fills, step, limit, before, clock);
    PageMore(fills, step, limit, before, clock);
    FullBounds(fills, step, before, clock);
    FullNotAfterClock(fills, step, before, clock);
    var cut := page.oldest.value;
    assert page.candles[0] in page.candles;
    FullSplits(fills, step, cut, before, clock);
    FullBefore(fills, step, cut, clock);
    SplitHere(Full(fills, step, Some(cut), clock), Aggregate(Query(fills, Some(cut), before), step), n, cut);
  }

  lemma {:induction false} LastPageStops(fills: seq<FillRow>, step: int, limit: int, before: Option<int>, clock: int)
    requires step > 0 && Dense(fills, step, clock) && HistoryFloor(clock) > 0 && WalkCursor(step, before, clock)
    requires !GetPage(fills, step, limit, before, clock).hasMore
    ensures GetPage(fills, step, limit, before, clock).candles == Full(fills, step, before, clock)
  {
    hide Aggregate, Query, Bucket, Dense, Sort, GetPage, Full;
    PageIsTheEnd(fills, step, limit, before, clock);
    PageMore(fills, step, limit, before, clock);
    FullBounds(fills, step, before, clock);
    LastPageIsAll(Full(fills, step, before, clock), ClampLimit(limit), HistoryFloor(clock), step);
  }

  /** In a dense history the pages of a whole walk, joined, are the full aggregation
      since the floor. */
  lemma {:induction false} WalkIsComplete(fills: seq<FillRow>, step: int, limit: int, before: Option<int>, clock: int)
    requires step > 0 && Dense(fills, step, clock) && HistoryFloor(clock) > 0 && WalkCursor(step, before, clock)
    ensures Joined(Walk(fills, step, limit, before, clock)) == Full(fills, step, before, clock)
    decreases before.None?, if before.Some? then before.value else 0
  {
    hide Dense, GetPage, Full;
    var page, walk := GetPage(fills, step, limit, before, clock), Walk(fills, step, limit, before, clock);
    if page.hasMore {
      NextPageContinues(fills, step, limit, before, clock);
      var rest := Walk(fills, step, limit, page.oldest, clock);
      WalkIsComplete(fills, step, limit, page.oldest, clock);
      assert walk == [page] + rest && walk[1..] == rest;
    } else {
      LastPageStops(fills, step, limit, before, clock);
      assert walk == [page] && walk[1..] == [];
      assert Joined(walk) == page.candles;
    }
  }

  lemma {:induction false} NothingAggregates(step: int)
    requires step > 0
    ensures Aggregate([], step) == []
  {
  }

  lemma {:induction false} EmptyPageEndsTheWalk(fills: seq<FillRow>, step: int, limit: int, before: Option<int>, clock: int)
    requires step > 0 && HistoryFloor(clock) > 0 && (before.Some? ==> before.value > 0)
    requires GetPage(fills, step, limit, before, clock).candles == []
    ensures Joined(Walk(fills, step, limit, before, clock)) == []
  {
    PageMore(fills, step, limit, before, clock);
    hide GetPage;
    var walk := Walk(fills, step, limit, before, clock);
    assert walk == [GetPage(fills, step, limit, before, clock)] && walk[1..] == [];
  }

  lemma {:induction false} NotQueried(fills: seq<FillRow>, f: FillRow, start: Option<int>, before: Option<int>)
    requires f in fills
    ensures Query(fills, start, before) == [] ==> !Queried(f, start, before)
  {
    hide Queried;
    if fills[|fills| - 1] != f {
      NotQueried(fills[..|fills| - 1], f, start, before);
    }
  }

  lemma {:induction false} FullIsEmptyExactlyWhen(fills: seq<FillRow>, step: int, before: Option<int>, clock: int)
    requires step > 0
    ensures Full(fills, step, before, clock) == []
       <==> forall f :: f in fills ==> !Queried(f, Some(HistoryFloor(clock)), before)
  {
    hide Queried, Aggregate, Query;
    var start := Some(HistoryFloor(clock));
    var q := Query(fills, start, before);
    NothingAggregates(step);
    QueryBounds(fills, start, before);
    if q == [] {
      forall f | f in fills ensures !Queried(f, start, before) {
        NotQueried(fills, f, start, before);
      }
    } else {
      var f := q[0];
      assert f in q;
      QueriedFillHasCandle(fills, f, start, before, step);
    }
  }

  lemma {:induction false} ClampTwice(step: int, limit: int, before: Option<int>, clock: int)
    ensures IndexerWindow(step, ClampLimit(limit), before, clock) == IndexerWindow(step, limit, before, clock)
  {
  }

  /** Density is needed: a window without fills ends the walk, and then the pages are
      complete exactly when there was nothing older since the floor either. */
  lemma {:induction false} GapEndsTheWalk(fills: seq<FillRow>, step: int, limit: int, before: Option<int>, clock: int)
    requires step > 0 && HistoryFloor(clock) > 0 && (before.Some? ==> before.value > 0)
    requires Query(fills, Some(IndexerWindow(step, limit, before, clock).0), before) == []
    ensures Joined(Walk(fills, step, limit, before, clock)) == []
    ensures Joined(Walk(fills, step, limit, before, clock)) == Full(fills, step, before, clock)
       <==> forall f :: f in fills ==> !Queried(f, Some(HistoryFloor(clock)), before)
  {
    hide IndexerWindow, Queried, Aggregate, Query, GetPage;
    PageCandles(fills, step, limit, before, clock);
    ClampTwice(step, limit, before, clock);
    NothingAggregates(step);
    EmptyPageEndsTheWalk(fills, step, limit, before, clock);
    FullIsEmptyExactlyWhen(fills, step, before, clock);
  }
}
