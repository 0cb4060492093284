/** The sliding-window limiters: the hub's, on client messages, and the strategy
    parser's, on language-model calls.  Both prune a list of accepted times per key. */
module RateLimit {

  datatype Request = Request(key: string, time: real)

  /** limit messages in any window of this length. */
  datatype Quota = Quota(limit: nat, window: real)

  /** The hub's default, in milliseconds, and the strategy parser's, in seconds. */
  const HUB_QUOTA := Quota(10, 1000.0)
  const LLM_QUOTA := Quota(5, 60.0)

  function Recent(times: seq<real>, now: real, window: real): seq<real> {
    if times == [] then []
    else
      Recent(times[..|times| - 1], now, window)
      + if now - times[|times| - 1] < window then [times[|times| - 1]] else []
  }

  function BucketOf(buckets: map<string, seq<real>>, key: string): seq<real> {
    if key in buckets then buckets[key] else []
  }

  /** The buckets after one request: only an accepted one changes its bucket. */
  function Step(q: Quota, buckets: map<string, seq<real>>, r: Request): map<string, seq<real>> {
    var recent := Recent(BucketOf(buckets, r.key), r.time, q.window);
    if |recent| >= q.limit then buckets else buckets[r.key := recent + [r.time]]
  }

  function Buckets(q: Quota, requests: seq<Request>): map<string, seq<real>> {
    if requests == [] then map[] else Step(q, Buckets(q, requests[..|requests| - 1]), requests[|requests| - 1])
  }

  class Limiter {
    const quota: Quota
    var buckets: map<string, seq<real>>

    constructor (quota: Quota)
      ensures this.quota == quota && buckets == map[]
    {
      this.quota := quota;
      buckets := map[];
    }

    /** allowClientMessage and check_llm_rate_limit (whose error is a false here). */
    method Allow(r: Request) returns (allowed: bool)
      modifies this
      ensures buckets == Step(quota, old(buckets), r)
      ensures allowed <==> |Recent(BucketOf(old(buckets), r.key), r.time, quota.window)| < quota.limit
    {
      var bucket := if r.key in buckets then buckets[r.key] else [];
      var recent: seq<real> := [];
      var i := 0;
      while i < |bucket|
        invariant 0 <= i <= |bucket|
        invariant recent == Recent(bucket[..i], r.time, quota.window)
      {
        assert bucket[..i + 1][..i] == bucket[..i];
        if r.time - bucket[i] < quota.window {
          recent := recent + [bucket[i]];
        }
        i := i + 1;
      }
      assert bucket[..i] == bucket;
      if |recent| >= quota.limit {
        return false;
      }
      recent := recent + [r.time];
      buckets := buckets[r.key := recent];
      allowed := true;
    }
  }

  // ---- The full history as reference ----

  /** The accepted times of a key, when every request is judged against all of them. */
  function Accepted(q: Quota, requests: seq<Request>, key: string): seq<real> {
    if requests == [] then []
    else
      var before := Accepted(q, requests[..|requests| - 1], key);
      var r := requests[|requests| - 1];
      if r.key == key && |Recent(before, r.time, q.window)| < q.limit then before + [r.time] else before
  }

  ghost predicate Forward(requests: seq<Request>) {
    forall i, j :: 0 <= i < j < |requests| ==> requests[i].time <= requests[j].time
  }

  ghost predicate NotAfter(requests: seq<Request>, now: real) {
    forall i :: 0 <= i < |requests| ==> requests[i].time <= now
  }

  lemma {:induction false} RecentLast(times: seq<real>, t: real, now: real, window: real)
    ensures Recent(times + [t], now, window) == Recent(times, now, window) + if now - t < window then [t] else []
  {
    assert (times + [t])[..|times|] == times;
  }

  /** Pruning now does not change what is recent later. */
  lemma {:induction false} RecentAgain(times: seq<real>, now: real, later: real, window: real)
    requires now <= later
    ensures Recent(Recent(times, now, window), later, window) == Recent(times, later, window)
  {
    if times != [] {
      var init, t := times[..|times| - 1], times[|times| - 1];
      RecentAgain(init, now, later, window);
      RecentLast(Recent(init, now, window), t, later, window);
      assert Recent(init, now, window) + [] == Recent(init, now, window);
    }
  }

  /** On a clock that does not go back, the pruned bucket of a key and its full history
      have the same recent times at every later moment, whatever other keys do. */
  lemma {:induction false} PruningForgetsNothing(q: Quota, requests: seq<Request>, key: string, now: real)
    requires Forward(requests) && NotAfter(requests, now)
    ensures Recent(BucketOf(Buckets(q, requests), key), now, q.window) == Recent(Accepted(q, requests, key), now, q.window)
  {
    if requests != [] {
      hide Recent;
      var init, r := requests[..|requests| - 1], requests[|requests| - 1];
      var bucket, history := BucketOf(Buckets(q, init), key), Accepted(q, init, key);
      PruningForgetsNothing(q, init, key, now);
      PruningForgetsNothing(q, init, key, r.time);
      if r.key == key && |Recent(history, r.time, q.window)| < q.limit {
        RecentAgain(bucket, r.time, now, q.window);
        RecentLast(Recent(bucket, r.time, q.window), r.time, now, q.window);
        RecentLast(history, r.time, now, q.window);
      }
    } else {
      assert Recent([], now, q.window) == [];
    }
  }

  function CountWithin(times: seq<real>, from: real): nat {
    if times == [] then 0 else CountWithin(times[..|times| - 1], from) + if times[|times| - 1] > from then 1 else 0
  }

  lemma {:induction false} RecentCounts(times: seq<real>, now: real, window: real)
    ensures |Recent(times, now, window)| == CountWithin(times, now - window)
  {
    if times != [] {
      RecentCounts(times[..|times| - 1], now, window);
    }
  }

  /** A request is let through exactly when fewer than limit were accepted for its key
      within the last window. */
  lemma {:induction false} AllowedExactlyWhen(q: Quota, requests: seq<Request>, r: Request)
    requires Forward(requests) && NotAfter(requests, r.time)
    ensures |Recent(BucketOf(Buckets(q, requests), r.key), r.time, q.window)| < q.limit
       <==> CountWithin(Accepted(q, requests, r.key), r.time - q.window) < q.limit
  {
    hide Recent, CountWithin, Buckets, BucketOf, Accepted, Forward, NotAfter;
    PruningForgetsNothing(q, requests, r.key, r.time);
    RecentCounts(Accepted(q, requests, r.key), r.time, q.window);
  }

  ghost predicate InOrder(times: seq<real>) {
    forall i, j :: 0 <= i < j < |times| ==> times[i] <= times[j]
  }

  lemma {:induction false} AcceptedInOrder(q: Quota, requests: seq<Request>, key: string)
    requires Forward(requests)
    ensures InOrder(Accepted(q, requests, key))
    ensures forall i :: 0 <= i < |Accepted(q, requests, key)| ==>
      exists k :: 0 <= k < |requests| && Accepted(q, requests, key)[i] == requests[k].time
  {
    if requests != [] {
      hide Recent;
      var init := requests[..|requests| - 1];
      AcceptedInOrder(q, init, key);
      var before, all := Accepted(q, init, key), Accepted(q, requests, key);
      forall i | 0 <= i < |all| ensures exists k :: 0 <= k < |requests| && all[i] == requests[k].time {
        if i < |before| {
          var k :| 0 <= k < |init| && before[i] == init[k].time;
          assert requests[k].time == all[i];
        } else {
          assert all[i] == requests[|requests| - 1].time;
        }
      }
      forall i, j | 0 <= i < j < |all| ensures all[i] <= all[j] {
        if j == |before| {
          var k :| 0 <= k < |init| && before[i] == init[k].time;
          assert requests[k].time <= requests[|requests| - 1].time;
        }
      }
    }
  }

  /** In order, at least as many times lie after a moment as there are after any index
      that does. */
  lemma {:induction false} TailCounts(times: seq<real>, i: nat, from: real)
    requires InOrder(times) && i < |times| && times[i] > from
    ensures CountWithin(times, from) >= |times| - i
  {
    if i < |times| - 1 {
      TailCounts(times[..|times| - 1], i, from);
    }
  }

  /** No burst: of the accepted times of a key, one and the limit-th after it are a whole
      window apart, so no span shorter than the window holds more than limit. */
  lemma {:induction false} NoBurst(q: Quota, requests: seq<Request>, key: string, i: nat)
    requires Forward(requests) && i + q.limit < |Accepted(q, requests, key)|
    ensures Accepted(q, requests, key)[i + q.limit] - Accepted(q, requests, key)[i] >= q.window
  {
    hide Recent;
    var init, r := requests[..|requests| - 1], requests[|requests| - 1];
    var before := Accepted(q, init, key);
    if i + q.limit < |before| {
      NoBurst(q, init, key, i);
    } else {
      AcceptedInOrder(q, init, key);
      RecentCounts(before, r.time, q.window);
      if i < |before| && before[i] > r.time - q.window {
        TailCounts(before, i, r.time - q.window);
      }
    }
  }

  /** At the two quotas in use: a message is let through exactly when fewer than ten were in
      the last second, a parse exactly when fewer than five were in the last minute. */
  lemma {:induction false} QuotasAllowExactlyWhen(requests: seq<Request>, r: Request)
    requires Forward(requests) && NotAfter(requests, r.time)
    ensures |Recent(BucketOf(Buckets(HUB_QUOTA, requests), r.key), r.time, HUB_QUOTA.window)| < HUB_QUOTA.limit
       <==> CountWithin(Accepted(HUB_QUOTA, requests, r.key), r.time - 1000.0) < 10
    ensures |Recent(BucketOf(Buckets(LLM_QUOTA, requests), r.key), r.time, LLM_QUOTA.window)| < LLM_QUOTA.limit
       <==> CountWithin(Accepted(LLM_QUOTA, requests, r.key), r.time - 60.0) < 5
  {
    AllowedExactlyWhen(HUB_QUOTA, requests, r);
    AllowedExactlyWhen(LLM_QUOTA, requests, r);
    hide Recent, CountWithin, Buckets, BucketOf, Accepted;
  }

  /** At the two quotas in use: of eleven messages that a connection got through some span a
      second or more, and of six parses that a user got through some span a minute or more. */
  lemma {:induction false} QuotasInUse(requests: seq<Request>, key: string, i: nat)
    requires Forward(requests)
    ensures i + 10 < |Accepted(HUB_QUOTA, requests, key)| ==>
              Accepted(HUB_QUOTA, requests, key)[i + 10] - Accepted(HUB_QUOTA, requests, key)[i] >= 1000.0
    ensures i + 5 < |Accepted(LLM_QUOTA, requests, key)| ==>
              Accepted(LLM_QUOTA, requests, key)[i + 5] - Accepted(LLM_QUOTA, requests, key)[i] >= 60.0
  {
    hide Accepted, Forward;
    if i + 10 < |Accepted(HUB_QUOTA, requests, key)| {
      NoBurst(HUB_QUOTA, requests, key, i);
    }
    if i + 5 < |Accepted(LLM_QUOTA, requests, key)| {
      NoBurst(LLM_QUOTA, requests, key, i);
    }
  }
}
