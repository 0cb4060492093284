/** The panda actor's tick: one deferred decision at most, and a queue that drops its
    oldest event when it is full. */
module Actor {
  import opened Events
  import opened Text
  import opened Candles

  /** What the decision pipeline returns; payload stands for the rest of the result. */
  datatype Decision = Decision(zone: Zone, entryDelay: nat, payload: int)

  const UNHEALTHY: set<string> := {"stale", "source_down", "no_fills", "insufficient_candles"}

  function IsTradeable(e: MarketEvent): bool {
    !e.stale && e.health !in UNHEALTHY && !(e.freshness.Some? && e.freshness.value > 120.0)
  }

  datatype Pending = Pending(remaining: int, event: MarketEvent, decision: Decision)

  /** A tick, with what the pipeline would decide if it ran on it. */
  datatype Tick = Tick(event: MarketEvent, decision: Decision)

  datatype Outcome =
    | StaleHold
    | Waiting
    | Deferred
    | Released(event: MarketEvent, decision: Decision)
    | Applied(event: MarketEvent, decision: Decision)

  function Step(pending: Option<Pending>, t: Tick): (Option<Pending>, Outcome) {
    if !IsTradeable(t.event) then (pending, StaleHold)
    else if pending.Some? then
      var p := pending.value.(remaining := pending.value.remaining - 1);
      if p.remaining > 0 then (Some(p), Waiting) else (None, Released(p.event, p.decision))
    else if t.decision.entryDelay > 0 && t.decision.zone == EXECUTE then
      (Some(Pending(t.decision.entryDelay, t.event, t.decision)), Deferred)
    else (None, Applied(t.event, t.decision))
  }

  function Run(pending: Option<Pending>, ticks: seq<Tick>): (Option<Pending>, seq<Outcome>) {
    if ticks == [] then (pending, [])
    else
      var (p, outcomes) := Run(pending, ticks[..|ticks| - 1]);
      var (p', o) := Step(p, ticks[|ticks| - 1]);
      (p', outcomes + [o])
  }

  const MAXSIZE := 64

  /** put_nowait, and on a full queue the oldest event makes room. */
  function Put<T>(queue: seq<T>, e: T): seq<T> {
    if |queue| < MAXSIZE then queue + [e] else queue[1..] + [e]
  }

  predicate AcceptsAsset(subscribed: seq<string>, asset: string) {
    if subscribed == [] then true
    else
      var normalized := NormalizePair(asset);
      var names := set s | s in subscribed :: NormalizePair(s);
      if normalized in names then true
      else if '-' !in normalized then normalized in (set n | n in names && '-' !in n)
      else false
  }

  function Take<T>(s: seq<T>, n: nat): seq<T> {
    if n < |s| then s[..n] else s
  }

  function MaxAssets(focus: nat): nat { 1 + focus / 25 }

  function Contains(names: seq<string>, name: string): bool {
    names != [] && (names[|names| - 1] == name || Contains(names[..|names| - 1], name))
  }

  function Added(names: seq<string>, name: string): seq<string> {
    if Contains(names, name) then names else names + [name]
  }

  /** subscribe_asset: a new asset is appended, and the list is cut to what focus allows. */
  function Subscribe(subscribed: seq<string>, asset: string, focus: nat): seq<string> {
    Take(Added(subscribed, asset), MaxAssets(focus))
  }

  class PandaActor {
    const focus: nat
    var subscribed: seq<string>
    var tickQueue: seq<MarketEvent>
    var pending: Option<Pending>
    var tickCount: nat

    constructor (focus: nat)
      ensures this.focus == focus && subscribed == [] && tickQueue == [] && pending == None && tickCount == 0
    {
      this.focus := focus;
      subscribed, tickQueue, pending, tickCount := [], [], None, 0;
    }

    method EnqueueTick(e: MarketEvent) returns (accepted: bool)
      requires |tickQueue| <= MAXSIZE
      modifies this`tickQueue
      ensures |tickQueue| <= MAXSIZE
      ensures accepted <==> AcceptsAsset(subscribed, e.asset) || AcceptsAsset(subscribed, e.pair)
      ensures tickQueue == if accepted then Put(old(tickQueue), e) else old(tickQueue)
    {
      if !AcceptsAsset(subscribed, e.asset) && !AcceptsAsset(subscribed, e.pair) {
        return false;
      }
      if |tickQueue| == MAXSIZE {
        tickQueue := tickQueue[1..];
      }
      tickQueue := tickQueue + [e];
      accepted := true;
    }

    /** _tick up to the decision it applies; decide is the pipeline on this event. */
    method OnTick(e: MarketEvent, decide: Decision) returns (o: Outcome)
      modifies this`pending, this`tickCount, this`subscribed
      ensures (pending, o) == Step(old(pending), Tick(e, decide))
      ensures tickCount == old(tickCount) + if o.Applied? || o.Deferred? then 1 else 0
      ensures subscribed == if o.Applied? || o.Deferred? then Subscribe(old(subscribed), e.asset, focus) else old(subscribed)
    {
      hide Subscribe;
      if !IsTradeable(e) {
        return StaleHold;
      }
      if pending.Some? {
        pending := Some(pending.value.(remaining := pending.value.remaining - 1));
        if pending.value.remaining > 0 {
          return Waiting;
        }
        o := Released(pending.value.event, pending.value.decision);
        pending := None;
        return;
      }
      tickCount := tickCount + 1;
      subscribed := Subscribe(subscribed, e.asset, focus);
      if decide.entryDelay > 0 && decide.zone == EXECUTE {
        pending := Some(Pending(decide.entryDelay, e, decide));
        return Deferred;
      }
      o := Applied(e, decide);
    }
  }

  /** A tick is held as stale exactly when the market says so, its health is one of four, or
      its data is older than two minutes; and then nothing else changes. */
  lemma {:induction false} HeldAsStaleExactlyWhen(pending: Option<Pending>, t: Tick)
    ensures Step(pending, t).1 == StaleHold
       <==> t.event.stale || t.event.health == "stale" || t.event.health == "source_down" || t.event.health == "no_fills"
            || t.event.health == "insufficient_candles" || (t.event.freshness.Some? && t.event.freshness.value > 120.0)
    ensures Step(pending, t).1 == StaleHold ==> Step(pending, t).0 == pending
  {
  }

  /** With nothing pending, a tradeable tick defers its decision exactly when that is to
      execute after a delay, and is applied at once otherwise. */
  lemma {:induction false} DefersExactlyWhen(t: Tick)
    requires IsTradeable(t.event)
    ensures var (pending, outcome) := Step(None, t);
            && (outcome == Deferred <==> t.decision.zone == EXECUTE && t.decision.entryDelay >= 1)
            && (outcome == Deferred ==> pending == Some(Pending(t.decision.entryDelay, t.event, t.decision)))
            && (outcome != Deferred ==> outcome == Applied(t.event, t.decision) && pending.None?)
  {
    hide IsTradeable;
  }

  // ---- Deferred decisions ----

  function Tradeables(ticks: seq<Tick>): nat {
    if ticks == [] then 0
    else Tradeables(ticks[..|ticks| - 1]) + if IsTradeable(ticks[|ticks| - 1].event) then 1 else 0
  }

  /** While fewer tradeable ticks have come than remain, nothing is decided or applied. */
  lemma {:induction false} WaitsItsTurn(p: Pending, ticks: seq<Tick>)
    requires Tradeables(ticks) < p.remaining
    ensures var (pending, outcomes) := Run(Some(p), ticks);
            && pending == Some(p.(remaining := p.remaining - Tradeables(ticks)))
            && |outcomes| == |ticks|
            && forall i :: 0 <= i < |ticks| ==>
                 outcomes[i] == if IsTradeable(ticks[i].event) then Waiting else StaleHold
  {
    if ticks != [] {
      hide IsTradeable;
      WaitsItsTurn(p, ticks[..|ticks| - 1]);
    }
  }

  lemma {:induction false} RunOne(pending: Option<Pending>, t: Tick)
    ensures Run(pending, [t]) == (Step(pending, t).0, [Step(pending, t).1])
  {
    hide Step;
    var one: seq<Tick> := [t];
    assert one[..0] == [];
    var o: seq<Outcome> := [Step(pending, t).1];
    assert [] + o == o;
  }

  lemma {:induction false} RunInTwo(pending: Option<Pending>, first: seq<Tick>, second: seq<Tick>)
    ensures var (mid, before) := Run(pending, first);
            var (end, after) := Run(mid, second);
            Run(pending, first + second) == (end, before + after)
  {
    hide Step;
    if second == [] {
      assert first + second == first;
      var before := Run(pending, first).1;
      assert before + [] == before;
    } else {
      assert (first + second)[..|first + second| - 1] == first + second[..|second| - 1];
      RunInTwo(pending, first, second[..|second| - 1]);
      var (mid, before) := Run(pending, first);
      var (p, outcomes) := Run(mid, second[..|second| - 1]);
      var (p', o) := Step(p, second[|second| - 1]);
      assert before + (outcomes + [o]) == before + outcomes + [o];
    }
  }

  /** A decision with delay d > 0 is applied exactly on the d-th later tradeable tick, with
      the event it was made on; the ticks between decide nothing, and afterwards nothing
      is pending. */
  lemma {:induction false} DeferredDecisionsComeDue(t: Tick, between: seq<Tick>, last: Tick)
    requires IsTradeable(t.event) && t.decision.zone == EXECUTE && t.decision.entryDelay > 0
    requires IsTradeable(last.event) && Tradeables(between) == t.decision.entryDelay - 1
    ensures var (pending, outcomes) := Run(None, [t] + between + [last]);
            && pending == None && |outcomes| == |between| + 2
            && outcomes[0] == Deferred
            && (forall i :: 0 <= i < |between| ==>
                  outcomes[i + 1] == if IsTradeable(between[i].event) then Waiting else StaleHold)
            && outcomes[|between| + 1] == Released(t.event, t.decision)
  {
    hide IsTradeable;
    var p := Pending(t.decision.entryDelay, t.event, t.decision);
    WaitsItsTurn(p, between);
    RunOne(None, t);
    assert Step(None, t) == (Some(p), Deferred);
    RunInTwo(None, [t], between);
    assert ([t] + between + [last])[..|between| + 1] == [t] + between;
  }

  function CountDeferred(outcomes: seq<Outcome>): nat {
    if outcomes == [] then 0
    else CountDeferred(outcomes[..|outcomes| - 1]) + if outcomes[|outcomes| - 1].Deferred? then 1 else 0
  }

  function CountReleased(outcomes: seq<Outcome>): nat {
    if outcomes == [] then 0
    else CountReleased(outcomes[..|outcomes| - 1]) + if outcomes[|outcomes| - 1].Released? then 1 else 0
  }

  /** Over every run, each deferred decision is released once or is the one still pending. */
  lemma {:induction false} DeferredOnceReleasedOnce(ticks: seq<Tick>)
    ensures var (pending, outcomes) := Run(None, ticks);
            CountDeferred(outcomes) == CountReleased(outcomes) + if pending.Some? then 1 else 0
  {
    if ticks != [] {
      hide IsTradeable;
      DeferredOnceReleasedOnce(ticks[..|ticks| - 1]);
      var (p, outcomes) := Run(None, ticks[..|ticks| - 1]);
      var (p', o) := Step(p, ticks[|ticks| - 1]);
      assert (outcomes + [o])[..|outcomes|] == outcomes;
    }
  }

  // ---- The queue ----

  datatype Op = Enqueue(event: MarketEvent) | Get

  /** The queue, every accepted event so far, and the positions delivered from it. */
  datatype QueueRun = QueueRun(queue: seq<MarketEvent>, accepted: seq<MarketEvent>, delivered: seq<nat>)

  function QueueStep(q: QueueRun, op: Op): QueueRun {
    match op
    case Enqueue(e) => QueueRun(Put(q.queue, e), q.accepted + [e], q.delivered)
    case Get =>
      if q.queue == [] then q
      else
        QueueRun(q.queue[1..], q.accepted,
                 q.delivered + [if |q.queue| <= |q.accepted| then |q.accepted| - |q.queue| else 0])
  }

  function QueueAfter(ops: seq<Op>): QueueRun {
    if ops == [] then QueueRun([], [], []) else QueueStep(QueueAfter(ops[..|ops| - 1]), ops[|ops| - 1])
  }

  /** The queue holds the newest accepted events, at most 64 and in order of arrival; what
      has been delivered came before them, in order, and nothing twice. */
  ghost predicate Newest(q: QueueRun) {
    && |q.queue| <= MAXSIZE && |q.queue| <= |q.accepted|
    && q.queue == q.accepted[|q.accepted| - |q.queue|..]
    && (forall i :: 0 <= i < |q.delivered| ==> q.delivered[i] < |q.accepted| - |q.queue|)
    && (forall i, j :: 0 <= i < j < |q.delivered| ==> q.delivered[i] < q.delivered[j])
  }

  lemma {:induction false} QueueStepKeepsNewest(q: QueueRun, op: Op)
    requires Newest(q)
    ensures Newest(QueueStep(q, op))
  {
    match op {
      case Enqueue(e) =>
        var accepted := q.accepted + [e];
        assert accepted[|q.accepted| - |q.queue|..] == q.queue + [e];
        if |q.queue| == MAXSIZE {
          assert accepted[|q.accepted| - |q.queue| + 1..] == q.queue[1..] + [e];
        }
      case Get =>
        if q.queue != [] {
          assert q.accepted[|q.accepted| - |q.queue| + 1..] == q.queue[1..];
        }
    }
  }

  lemma {:induction false} QueueHoldsTheNewest(ops: seq<Op>)
    ensures Newest(QueueAfter(ops))
  {
    if ops != [] {
      QueueHoldsTheNewest(ops[..|ops| - 1]);
      QueueStepKeepsNewest(QueueAfter(ops[..|ops| - 1]), ops[|ops| - 1]);
    }
    hide QueueStep;
  }

  function PutAll(queue: seq<MarketEvent>, events: seq<MarketEvent>): seq<MarketEvent> {
    if events == [] then queue else Put(PutAll(queue, events[..|events| - 1]), events[|events| - 1])
  }

  /** Without deliveries, an event is lost only to 64 newer ones. */
  lemma {:induction false} OnlyTheOldestAreLost(queue: seq<MarketEvent>, events: seq<MarketEvent>)
    requires |queue| <= 64
    ensures PutAll(queue, events) == LastN(queue + events, 64)
  {
    if events == [] {
      assert queue + events == queue;
    } else {
      OnlyTheOldestAreLost(queue, events[..|events| - 1]);
      assert queue + events == queue + events[..|events| - 1] + [events[|events| - 1]];
    }
  }

  /** The second look at names without a dash never finds anything the first did not. */
  lemma {:induction false} AcceptsExactlyWhen(subscribed: seq<string>, asset: string)
    ensures AcceptsAsset(subscribed, asset)
       <==> subscribed == [] || exists s :: s in subscribed && NormalizePair(s) == NormalizePair(asset)
  {
    hide NormalizePair;
  }

  // ---- Subscriptions ----

  /** The list after the given assets were decided on, one tick each. */
  function Subscriptions(start: seq<string>, assets: seq<string>, focus: nat): seq<string> {
    if assets == [] then start
    else Subscribe(Subscriptions(start, assets[..|assets| - 1], focus), assets[|assets| - 1], focus)
  }

  /** The starting list and then every other asset once, in order of first appearance. */
  function FirstSeen(start: seq<string>, assets: seq<string>): seq<string> {
    if assets == [] then start else Added(FirstSeen(start, assets[..|assets| - 1]), assets[|assets| - 1])
  }

  lemma {:induction false} CutThenAdd(names: seq<string>, name: string, n: nat)
    ensures Take(Added(Take(names, n), name), n) == Take(Added(names, name), n)
  {
    if n < |names| {
      hide Contains;
      assert Take(names, n) + [name] == names[..n] + [name];
      assert (names + [name])[..n] == names[..n] == (names[..n] + [name])[..n];
    }
  }

  lemma {:induction false} ContainsExactlyWhen(names: seq<string>, name: string)
    ensures Contains(names, name) <==> name in names
  {
    if names != [] {
      var front, last := names[..|names| - 1], names[|names| - 1];
      ContainsExactlyWhen(front, name);
      assert names == front + [last];
    }
  }

  /** Each asset is listed once, and one more is allowed for every 25 points of focus. */
  lemma {:induction false} AssetsOnce(subscribed: seq<string>, asset: string, focus: nat, n: nat)
    requires forall i, j :: 0 <= i < j < |subscribed| ==> subscribed[i] != subscribed[j]
    ensures var names := Subscribe(subscribed, asset, focus);
            && (forall i, j :: 0 <= i < j < |names| ==> names[i] != names[j])
            && (|subscribed| < MaxAssets(focus) ==> asset in names)
    ensures n <= MaxAssets(focus) <==> n <= 1 || focus >= 25 * (n - 1)
  {
    ContainsExactlyWhen(subscribed, asset);
    var names := Added(subscribed, asset);
    if asset !in subscribed {
      assert names[|subscribed|] == asset;
    }
    hide Contains;
  }

  /** However long the run, the actor keeps the assets it saw first: as many as its focus
      allows, and once that many are there the list never changes again. */
  lemma {:induction false} FirstAssetsStay(start: seq<string>, assets: seq<string>, focus: nat)
    requires assets != []
    ensures Subscriptions(start, assets, focus) == Take(FirstSeen(start, assets), MaxAssets(focus))
    ensures |Subscriptions(start, assets, focus)| <= MaxAssets(focus)
  {
    hide Added;
    var front, last := assets[..|assets| - 1], assets[|assets| - 1];
    if front != [] {
      FirstAssetsStay(start, front, focus);
      hide MaxAssets;
      CutThenAdd(FirstSeen(start, front), last, MaxAssets(focus));
    }
  }

  /** The first decision narrows an actor that listened to everything to that asset. */
  lemma {:induction false} FirstDecisionNarrows(asset: string, focus: nat, other: string)
    ensures AcceptsAsset(Subscribe([], asset, focus), other) <==> NormalizePair(other) == NormalizePair(asset)
  {
    hide NormalizePair;
    assert Subscribe([], asset, focus) == [asset];
    AcceptsExactlyWhen([asset], other);
    assert asset in [asset];
  }
}
