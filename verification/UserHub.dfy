/** One user's hub: the subscription record, the sorted channel list kept beside it, and
    the live Redis subscriber.  Each client command is one atomic step. */
module UserHub {
  import opened Text
  import opened Channels

  // ---- The list as a function of the subscriptions ----

  function PandaNames(pandas: seq<string>): seq<string> {
    if pandas == [] then [] else PandaNames(pandas[..|pandas| - 1]) + PandaChannels(pandas[|pandas| - 1])
  }

  function PairNames(pairs: seq<string>, interval: string): seq<string> {
    if pairs == [] then [] else PairNames(pairs[..|pairs| - 1], interval) + PairChannels(pairs[|pairs| - 1], interval)
  }

  function AllNames(subs: Subscriptions): seq<string> {
    PandaNames(subs.pandas)
    + if subs.market.None? then []
      else PairNames(TickPairs(subs.market.value.assets, subs.market.value.pairs), subs.market.value.interval)
  }

  function Dedup(names: seq<string>): seq<string> {
    if names == [] then []
    else
      var d := Dedup(names[..|names| - 1]);
      if names[|names| - 1] in Elems(d) then d else d + [names[|names| - 1]]
  }

  function Collect(subs: Subscriptions): seq<string> {
    SortNames(Dedup(AllNames(subs)))
  }

  lemma {:induction false} DedupOnce(names: seq<string>)
    ensures Once(Dedup(names)) && Elems(Dedup(names)) == Elems(names)
  {
    if names != [] {
      var d, last := Dedup(names[..|names| - 1]), names[|names| - 1];
      DedupOnce(names[..|names| - 1]);
      ElemsIndexed(d, last);
      assert (d + [last])[..|d|] == d;
    }
  }

  lemma {:induction false} PandaNamesElems(pandas: seq<string>)
    ensures Elems(PandaNames(pandas)) == PandaSet(pandas)
  {
    hide PandaChannels;
    if pandas != [] {
      PandaNamesElems(pandas[..|pandas| - 1]);
      ElemsConcat(PandaNames(pandas[..|pandas| - 1]), PandaChannels(pandas[|pandas| - 1]));
    }
  }

  lemma {:induction false} PairNamesElems(pairs: seq<string>, interval: string)
    ensures Elems(PairNames(pairs, interval)) == PairSet(pairs, interval)
  {
    hide PairChannels;
    if pairs != [] {
      PairNamesElems(pairs[..|pairs| - 1], interval);
      ElemsConcat(PairNames(pairs[..|pairs| - 1], interval), PairChannels(pairs[|pairs| - 1], interval));
    }
  }

  /** Collect is the list that collectRedisChannels computes. */
  lemma {:induction false} CollectLists(subs: Subscriptions)
    ensures Lists(Collect(subs), ChannelSet(subs))
  {
    hide PandaNames, PairNames, TickPairs, Dedup, SortNames, Ascends;
    var names := AllNames(subs);
    PandaNamesElems(subs.pandas);
    if subs.market.Some? {
      var pairs := TickPairs(subs.market.value.assets, subs.market.value.pairs);
      PairNamesElems(pairs, subs.market.value.interval);
      ElemsConcat(PandaNames(subs.pandas), PairNames(pairs, subs.market.value.interval));
    } else {
      ElemsConcat(PandaNames(subs.pandas), []);
    }
    DedupOnce(names);
    SortLists(Dedup(names));
  }

  /** The list holds a channel exactly when the subscriptions are about it. */
  lemma {:induction false} ListedExactlyWhen(subs: Subscriptions, c: string)
    ensures c in Collect(subs) <==> Wanted(subs, c)
  {
    hide Collect, ChannelSet, Wanted, Ascends, Elems;
    CollectLists(subs);
    InElems(Collect(subs), c);
    ImageIsWanted(subs, c);
  }

  lemma {:induction false} AfterPrefix(prefix: string, p: string, q: string)
    requires prefix + p == prefix + q
    ensures p == q
  {
    assert (prefix + p)[|prefix|..] == p && (prefix + q)[|prefix|..] == q;
  }

  lemma {:induction false} PandasStartWithP(id: string, c: string)
    ensures OfPanda(id, c) ==> c[0] == 'p'
  {
  }

  lemma {:induction false} PairOfChannel(p: string, q: string, interval: string)
    ensures OfPair(q, interval, "market:tick:" + p) <==> q == p
    ensures OfPair(q, interval, "market:candles:1m:" + p) <==> q == p && interval == "1m"
  {
    var (tick, candles) := ("market:tick:" + p, "market:candles:1m:" + p);
    assert tick[7] == 't' && candles[7] == 'c';
    assert ("market:candles:1m:" + q)[7] == 'c' && ("market:tick:" + q)[7] == 't';
    if "market:tick:" + q == tick {
      AfterPrefix("market:tick:", q, p);
    }
    if "market:candles:1m:" + q == candles {
      AfterPrefix("market:candles:1m:", q, p);
    }
  }

  /** Ticks are listed for any interval, candles for one minute only. */
  lemma {:induction false} MarketListedExactlyWhen(subs: Subscriptions, p: string)
    ensures "market:tick:" + p in Collect(subs) <==> subs.market.Some? && NamesPair(subs.market.value, p)
    ensures "market:candles:1m:" + p in Collect(subs)
       <==> subs.market.Some? && subs.market.value.interval == "1m" && NamesPair(subs.market.value, p)
  {
    var (tick, candles) := ("market:tick:" + p, "market:candles:1m:" + p);
    assert tick[0] == candles[0] == 'm';
    forall id ensures !OfPanda(id, tick) && !OfPanda(id, candles) {
      PandasStartWithP(id, tick);
      PandasStartWithP(id, candles);
    }
    forall q: string, interval: string
      ensures OfPair(q, interval, tick) <==> q == p
      ensures OfPair(q, interval, candles) <==> q == p && interval == "1m"
    {
      PairOfChannel(p, q, interval);
    }
    hide Collect, NamesPair, OfPanda, OfPair;
    ListedExactlyWhen(subs, tick);
    ListedExactlyWhen(subs, candles);
  }

  // ---- The hub ----

  datatype Hub = Hub(subs: Subscriptions, channels: seq<string>, live: Option<seq<string>>)

  const NEW_HUB := Hub(Subscriptions([], None, false), [], None)

  datatype Event =
    | SubscribeSimulation(pandaId: string)
    | UnsubscribeSimulation(pandaId: string)
    | SubscribeMarket(market: Market)
    | UnsubscribeMarket
    | Pong
    | UnknownCommand
    | Connected
    | LastSocketClosed

  /** channels.join() */
  function Join(names: seq<string>): string {
    if names == [] then ""
    else if |names| == 1 then names[0]
    else names[0] + "," + Join(names[1..])
  }

  function WithKey(keys: seq<string>, id: string): seq<string> {
    if id in Elems(keys) then keys else keys + [id]
  }

  /** Assigning an entry to the key __proto__ of a plain object sets its prototype. */
  function WithPanda(subs: Subscriptions, id: string): Subscriptions {
    if id == "__proto__" then subs.(reprototyped := true) else subs.(pandas := WithKey(subs.pandas, id))
  }

  function WithoutKey(keys: seq<string>, id: string): seq<string> {
    if keys == [] then []
    else WithoutKey(keys[..|keys| - 1], id) + if keys[|keys| - 1] == id then [] else [keys[|keys| - 1]]
  }

  /** refreshRedisSubscriber: an empty list stops the subscriber, an equal join keeps it,
      anything else replaces it. */
  function Refresh(h: Hub): Hub {
    if h.channels == [] then h.(live := None)
    else if h.live.Some? && Join(h.channels) == Join(h.live.value) then h
    else h.(live := Some(h.channels))
  }

  function Sync(h: Hub, subs: Subscriptions): Hub {
    Refresh(Hub(subs, Collect(subs), h.live))
  }

  /** A command that the hub refuses changes nothing. */
  predicate Refused(e: Event) {
    match e
    case SubscribeSimulation(id) => id == ""
    case SubscribeMarket(market) => market.assets == [] && market.pairs == []
    case Pong => true
    case UnknownCommand => true
    case _ => false
  }

  /** The subscriptions that a command leaves. */
  function SubsAfter(subs: Subscriptions, e: Event): Subscriptions {
    match e
    case SubscribeSimulation(id) => WithPanda(subs, id)
    case UnsubscribeSimulation(id) => subs.(pandas := WithoutKey(subs.pandas, id))
    case SubscribeMarket(market) => subs.(market := Some(market))
    case UnsubscribeMarket => subs.(market := None)
    case _ => subs
  }

  function Next(h: Hub, e: Event): Hub {
    if Refused(e) then h
    else
      match e
      case Connected => Refresh(h)
      case LastSocketClosed => h.(live := None)
      case _ => Sync(h, SubsAfter(h.subs, e))
  }

  function Run(events: seq<Event>): Hub {
    if events == [] then NEW_HUB else Next(Run(events[..|events| - 1]), events[|events| - 1])
  }

  /** Refused are a subscription without a name, one of a market without any asset or pair,
      and what is no subscription command at all. */
  lemma {:induction false} RefusedExactlyWhen(e: Event)
    ensures Refused(e)
       <==> e == SubscribeSimulation("") || e == Pong || e == UnknownCommand
            || (e.SubscribeMarket? && |e.market.assets| + |e.market.pairs| == 0)
  {
  }

  // ---- The subscriptions as the commands left them ----

  /** The last command about a panda subscribed it. */
  ghost predicate LastSubscribed(events: seq<Event>, id: string) {
    exists k :: 0 <= k < |events| && events[k] == SubscribeSimulation(id)
      && forall j :: k < j < |events| ==> events[j] != UnsubscribeSimulation(id)
  }

  /** The market of the last accepted market command, if that subscribed. */
  function LastMarket(events: seq<Event>): Option<Market> {
    if events == [] then None
    else
      match events[|events| - 1]
      case SubscribeMarket(market) => if Refused(SubscribeMarket(market)) then LastMarket(events[..|events| - 1]) else Some(market)
      case UnsubscribeMarket => None
      case _ => LastMarket(events[..|events| - 1])
  }

  lemma {:induction false} WithoutKeyElems(keys: seq<string>, id: string)
    ensures Elems(WithoutKey(keys, id)) == Elems(keys) - {id}
  {
    if keys != [] {
      var front, last := keys[..|keys| - 1], keys[|keys| - 1];
      WithoutKeyElems(front, id);
      assert keys == front + [last];
      ElemsSnoc(front, last);
      ElemsSnoc(WithoutKey(front, id), last);
      assert WithoutKey(front, id) + [] == WithoutKey(front, id);
      hide Elems;
    }
  }

  lemma {:induction false} WithKeyElems(keys: seq<string>, id: string)
    ensures Elems(WithKey(keys, id)) == Elems(keys) + {id}
  {
    ElemsSnoc(keys, id);
    hide Elems;
  }

  lemma {:induction false} NextLastSubscribed(events: seq<Event>, e: Event, id: string)
    ensures LastSubscribed(events + [e], id)
       <==> e == SubscribeSimulation(id) || (LastSubscribed(events, id) && e != UnsubscribeSimulation(id))
  {
    var longer := events + [e];
    assert longer[|events|] == e;
    assert forall k :: 0 <= k < |events| ==> longer[k] == events[k];
    if k :| 0 <= k < |events| && events[k] == SubscribeSimulation(id)
            && forall j :: k < j < |events| ==> events[j] != UnsubscribeSimulation(id) {
      assert longer[k] == SubscribeSimulation(id);
    }
  }

  lemma {:induction false} NextPandas(h: Hub, e: Event, id: string)
    requires id != "" && id != "__proto__"
    ensures id in Elems(Next(h, e).subs.pandas)
       <==> e == SubscribeSimulation(id) || (id in Elems(h.subs.pandas) && e != UnsubscribeSimulation(id))
  {
    hide Elems, Collect, Join, WithKey, WithoutKey;
    match e {
      case SubscribeSimulation(other) => WithKeyElems(h.subs.pandas, other);
      case UnsubscribeSimulation(other) => WithoutKeyElems(h.subs.pandas, other);
      case _ =>
    }
  }

  lemma {:induction false} NextMarket(h: Hub, e: Event)
    ensures Next(h, e).subs.market
         == if e.SubscribeMarket? && !Refused(e) then Some(e.market) else if e.UnsubscribeMarket? then None else h.subs.market
  {
    hide Collect, Join;
  }

  /** After every sequence of commands, a panda is subscribed exactly when the last command
      about it subscribed it, and the market is that of the last accepted market command. */
  lemma {:induction false} SubscriptionsFollowCommands(events: seq<Event>, id: string)
    requires id != "" && id != "__proto__"
    ensures id in Elems(Run(events).subs.pandas) <==> LastSubscribed(events, id)
    ensures Run(events).subs.market == LastMarket(events)
  {
    if events != [] {
      var front, e := events[..|events| - 1], events[|events| - 1];
      SubscriptionsFollowCommands(front, id);
      assert front + [e] == events;
      NextLastSubscribed(front, e, id);
      NextPandas(Run(front), e, id);
      NextMarket(Run(front), e);
      hide LastSubscribed, Elems, Next;
    }
  }

  lemma {:induction false} NextReprototyped(h: Hub, e: Event)
    ensures Next(h, e).subs.reprototyped <==> h.subs.reprototyped || e == SubscribeSimulation("__proto__")
  {
    hide Collect, Join, WithKey, WithoutKey;
  }

  /** The record's prototype stays replaced from the first `__proto__` command on: no
      command about that name, or any other, puts it back. */
  lemma {:induction false} ReprototypedExactlyWhen(events: seq<Event>)
    ensures Run(events).subs.reprototyped <==> SubscribeSimulation("__proto__") in events
  {
    if events != [] {
      var front, e := events[..|events| - 1], events[|events| - 1];
      ReprototypedExactlyWhen(front);
      NextReprototyped(Run(front), e);
      assert events == front + [e];
      hide Next;
    }
  }

  /** Which panda messages reach the user, over every sequence of commands. */
  lemma {:induction false} ForwardedOverRuns(events: seq<Event>, id: string, suffix: string)
    requires suffix in SUFFIXES
    ensures ShouldForward(PandaChannel(id, suffix), Run(events).subs)
       <==> id != "" && NoColon(id)
            && (LastSubscribed(events, id) || id in OBJECT_PROTOTYPE
                || (id == "simulationId" && SubscribeSimulation("__proto__") in events))
  {
    hide Run, LastSubscribed, Elems, PandaChannel, ParsePandaId, NoColon, MarketSet;
    var channel := PandaChannel(id, suffix);
    PandaChannelParsesExactlyWhen(id, suffix);
    PandaChannelStarts(channel);
    if id != "" && id != "__proto__" {
      SubscriptionsFollowCommands(events, id);
      ReprototypedExactlyWhen(events);
    }
  }

  // ---- As it runs ----

  class UserHub {
    var subs: Subscriptions
    var redisChannels: seq<string>
    var redisSubscriber: Option<seq<string>>
    var redisSubscriberChannels: seq<string>

    /** The copy that joins are compared with is the list the live subscriber was given. */
    ghost predicate Valid()
      reads this
    {
      redisSubscriber.Some? ==> redisSubscriberChannels == redisSubscriber.value
    }

    function View(): Hub
      reads this
    {
      Hub(subs, redisChannels, redisSubscriber)
    }

    constructor ()
      ensures Valid() && View() == NEW_HUB
    {
      subs, redisChannels := Subscriptions([], None, false), [];
      redisSubscriber, redisSubscriberChannels := None, [];
    }

    method StopRedisSubscriber()
      requires Valid()
      modifies this`redisSubscriber, this`redisSubscriberChannels
      ensures Valid() && redisSubscriber.None?
    {
      if redisSubscriber.Some? {
        redisSubscriber, redisSubscriberChannels := None, [];
      }
    }

    method RefreshRedisSubscriber()
      requires Valid()
      modifies this`redisSubscriber, this`redisSubscriberChannels
      ensures Valid() && View() == Refresh(old(View()))
    {
      var channels := redisChannels;
      if channels == [] || (redisSubscriber.Some? && Join(channels) == Join(redisSubscriberChannels)) {
        if channels == [] {
          StopRedisSubscriber();
        }
        return;
      }
      StopRedisSubscriber();
      redisSubscriber, redisSubscriberChannels := Some(channels), channels;
    }

    method SyncChannels()
      requires Valid()
      modifies this`redisChannels, this`redisSubscriber, this`redisSubscriberChannels
      ensures Valid() && View() == Sync(old(View()), subs)
    {
      redisChannels := CollectRedisChannels(subs);
      CollectLists(subs);
      ListsUnique(redisChannels, Collect(subs));
      RefreshRedisSubscriber();
    }

    method Handle(e: Event) returns (accepted: bool)
      requires Valid()
      modifies this
      ensures Valid() && View() == Next(old(View()), e) && accepted == !Refused(e)
    {
      hide Collect, Elems;
      accepted := true;
      match e {
        case SubscribeSimulation(id) =>
          if id == "" {
            return false;
          }
          subs := WithPanda(subs, id);
          SyncChannels();
        case UnsubscribeSimulation(id) =>
          subs := subs.(pandas := WithoutKey(subs.pandas, id));
          SyncChannels();
        case SubscribeMarket(market) =>
          if market.assets == [] && market.pairs == [] {
            return false;
          }
          subs := subs.(market := Some(market));
          SyncChannels();
        case UnsubscribeMarket =>
          subs := subs.(market := None);
          SyncChannels();
        case Connected =>
          RefreshRedisSubscriber();
        case LastSocketClosed =>
          StopRedisSubscriber();
        case Pong => accepted := false;
        case UnknownCommand => accepted := false;
      }
    }
  }

  // ---- Stale subscribers ----

  /** The live subscriber listens to another list than the hub's. */
  predicate Stale(h: Hub) {
    h.live.Some? && h.live.value != h.channels
  }

  /** The list of new subscriptions differs from the one that is live, and joins alike. */
  predicate Collides(h: Hub, subs: Subscriptions) {
    && Collect(subs) != [] && h.live.Some?
    && h.live.value != Collect(subs) && Join(Collect(subs)) == Join(h.live.value)
  }

  lemma {:induction false} SyncStaleExactlyWhen(h: Hub, subs: Subscriptions)
    ensures Stale(Sync(h, subs)) <==> Collides(h, subs)
    ensures Sync(h, subs).live.None? <==> Collect(subs) == []
  {
    hide Collect, Join;
  }

  lemma {:induction false} NextCollected(h: Hub, e: Event)
    requires h.channels == Collect(h.subs)
    ensures Next(h, e).channels == Collect(Next(h, e).subs)
  {
    hide Collect, Join, SubsAfter;
  }

  lemma {:induction false} NothingCollected()
    ensures Collect(NEW_HUB.subs) == []
  {
    CollectLists(NEW_HUB.subs);
    assert ChannelSet(NEW_HUB.subs) == {};
    ElemsEmpty(Collect(NEW_HUB.subs));
  }

  /** The list is always that of the subscriptions. */
  lemma {:induction false} ChannelsAreCollected(events: seq<Event>)
    ensures Run(events).channels == Collect(Run(events).subs)
  {
    hide Collect, Next;
    if events == [] {
      NothingCollected();
    } else {
      ChannelsAreCollected(events[..|events| - 1]);
      NextCollected(Run(events[..|events| - 1]), events[|events| - 1]);
    }
  }

  /** After any history the hub asks for exactly the channels its subscriptions are about. */
  lemma {:induction false} HubAsksExactlyFor(events: seq<Event>, c: string)
    ensures c in Run(events).channels <==> Wanted(Run(events).subs, c)
  {
    hide Run, Wanted, Collect;
    ChannelsAreCollected(events);
    ListedExactlyWhen(Run(events).subs, c);
  }

  lemma {:induction false} NextStale(h: Hub, e: Event)
    requires h.channels == Collect(h.subs) && !Refused(e) && !e.LastSocketClosed?
    ensures Stale(Next(h, e)) <==> Collides(h, SubsAfter(h.subs, e))
  {
    hide Collect, Join, WithPanda, WithoutKey, Collides, Stale;
    if e.Connected? {
      assert Refresh(h) == Sync(h, h.subs);
    }
    SyncStaleExactlyWhen(h, SubsAfter(h.subs, e));
  }

  /** After any history, an accepted command or a connection leaves the subscriber on
      another list than the hub's exactly when the new list is not empty, is not the live
      one, and has the same comma join: a question about the names, to be asked before. */
  lemma {:induction false} StaleExactlyWhen(events: seq<Event>, e: Event)
    requires !Refused(e) && !e.LastSocketClosed?
    ensures var h := Run(events);
            Stale(Next(h, e)) <==> Collides(h, SubsAfter(h.subs, e))
  {
    hide Run, Next, Stale, Collides, SubsAfter;
    ChannelsAreCollected(events);
    NextStale(Run(events), e);
  }

  /** The first k of the commands, and the collision of the next one. */
  predicate CollidesAt(events: seq<Event>, k: nat)
    requires k < |events|
  {
    var h := Run(events[..k]);
    !Refused(events[k]) && !events[k].LastSocketClosed? && Collides(h, SubsAfter(h.subs, events[k]))
  }

  lemma {:induction false} StaleStepExactlyWhen(events: seq<Event>)
    requires events != []
    ensures var n := |events| - 1;
            Stale(Run(events)) <==> CollidesAt(events, n) || (Refused(events[n]) && Stale(Run(events[..n])))
  {
    var n := |events| - 1;
    if !Refused(events[n]) && !events[n].LastSocketClosed? {
      StaleExactlyWhen(events[..n], events[n]);
    }
    hide Collides, Refresh, Sync, SubsAfter;
  }

  lemma {:induction false} NewHubIsNotStale()
    ensures !Stale(Run([]))
  {
  }

  lemma {:induction false} SameCollision(front: seq<Event>, events: seq<Event>, k: nat)
    requires k < |front| && front <= events
    ensures CollidesAt(front, k) == CollidesAt(events, k)
  {
    assert front[..k] == events[..k] && front[k] == events[k];
  }

  /** Over a whole history: the subscriber was on a wrong list at some moment exactly when
      some command collided. */
  lemma {:induction false} EverStaleExactlyWhen(events: seq<Event>)
    ensures (exists k :: 0 <= k <= |events| && Stale(Run(events[..k])))
       <==> exists k :: 0 <= k < |events| && CollidesAt(events, k)
  {
    hide Run, Stale, CollidesAt, Refused;
    NewHubIsNotStale();
    if events == [] {
      assert forall k :: 0 <= k <= |events| ==> events[..k] == [];
    } else {
      var n := |events| - 1;
      var front := events[..n];
      EverStaleExactlyWhen(front);
      StaleStepExactlyWhen(events);
      assert events[..n + 1] == events && front[..n] == front;
      forall k | 0 <= k <= n ensures front[..k] == events[..k] {
      }
      forall k | 0 <= k < n ensures CollidesAt(front, k) == CollidesAt(events, k) {
        SameCollision(front, events, k);
      }
    }
  }

  // ---- Agreement ----

  predicate NoComma(s: string) { forall i :: 0 <= i < |s| ==> s[i] != ',' }

  ghost predicate AllNoComma(names: seq<string>) {
    forall i :: 0 <= i < |names| ==> NoComma(names[i])
  }

  lemma {:induction false} CommaIndex(a: string, s: string)
    requires NoComma(a) && (s == "" || s[0] == ',')
    ensures IndexOf(a + s, ',') == |a|
  {
    if s == "" {
      assert a + s == a;
    } else {
      FirstIndex(a, ',', s);
    }
  }

  lemma {:induction false} FirstComma(a: string, s: string, b: string, t: string)
    requires NoComma(a) && NoComma(b)
    requires s == "" || s[0] == ','
    requires t == "" || t[0] == ','
    requires a + s == b + t
    ensures a == b && s == t
  {
    CommaIndex(a, s);
    CommaIndex(b, t);
    assert (a + s)[..|a|] == a && (b + t)[..|b|] == b;
    assert (a + s)[|a|..] == s && (b + t)[|b|..] == t;
  }

  lemma {:induction false} JoinInjective(xs: seq<string>, ys: seq<string>)
    requires xs != [] && ys != [] && AllNoComma(xs) && AllNoComma(ys) && Join(xs) == Join(ys)
    ensures xs == ys
  {
    var s, t := if |xs| == 1 then "" else "," + Join(xs[1..]), if |ys| == 1 then "" else "," + Join(ys[1..]);
    assert Join(xs) == xs[0] + s && Join(ys) == ys[0] + t;
    FirstComma(xs[0], s, ys[0], t);
    if |xs| > 1 {
      assert |ys| > 1;
      assert s[1..] == Join(xs[1..]) && t[1..] == Join(ys[1..]);
      JoinInjective(xs[1..], ys[1..]);
    }
    assert xs == [xs[0]] + xs[1..] && ys == [ys[0]] + ys[1..];
  }

  ghost predicate CommaFree(subs: Subscriptions) {
    && AllNoComma(subs.pandas)
    && (subs.market.Some? ==> AllNoComma(subs.market.value.assets) && AllNoComma(subs.market.value.pairs))
  }

  ghost predicate CommaFreeEvent(e: Event) {
    && (e.SubscribeSimulation? ==> NoComma(e.pandaId))
    && (e.SubscribeMarket? ==> AllNoComma(e.market.assets) && AllNoComma(e.market.pairs))
  }

  lemma {:induction false} StripLeftNoComma(s: string)
    requires NoComma(s)
    ensures NoComma(StripLeft(s))
  {
    if s != "" && IsSpace(s[0]) {
      StripLeftNoComma(s[1..]);
    }
  }

  lemma {:induction false} StripRightNoComma(s: string)
    requires NoComma(s)
    ensures NoComma(StripRight(s))
  {
    if s != "" && IsSpace(s[|s| - 1]) {
      StripRightNoComma(s[..|s| - 1]);
    }
  }

  lemma {:induction false} StripNoComma(s: string)
    requires NoComma(s)
    ensures NoComma(Strip(s))
  {
    hide StripLeft, StripRight, NoComma;
    StripLeftNoComma(s);
    StripRightNoComma(StripLeft(s));
  }

  lemma {:induction false} TickPairsNoComma(assets: seq<string>, pairs: seq<string>)
    requires AllNoComma(assets) && AllNoComma(pairs)
    ensures AllNoComma(TickPairs(assets, pairs))
  {
    hide Strip;
    if pairs != [] {
      TickPairsNoComma(assets, pairs[..|pairs| - 1]);
      StripNoComma(pairs[|pairs| - 1]);
    } else if assets != [] {
      TickPairsNoComma(assets[..|assets| - 1], []);
      assert NoComma(AssetToPair(assets[|assets| - 1]));
    }
  }

  lemma {:induction false} PairSetNoComma(pairs: seq<string>, interval: string, channel: string)
    requires AllNoComma(pairs) && channel in PairSet(pairs, interval)
    ensures NoComma(channel)
  {
    var last := pairs[|pairs| - 1];
    if channel in PairSet(pairs[..|pairs| - 1], interval) {
      PairSetNoComma(pairs[..|pairs| - 1], interval, channel);
    } else {
      ElemsIndexed(PairChannels(last, interval), channel);
      assert NoComma(last);
    }
  }

  lemma {:induction false} PandaChannelNoComma(id: string, suffix: string)
    requires NoComma(id) && suffix in SUFFIXES
    ensures NoComma(PandaChannel(id, suffix))
  {
    assert NoComma("panda:") && NoComma(":");
    assert forall s :: s in SUFFIXES ==> NoComma(s);
  }

  lemma {:induction false} ChannelsNoComma(subs: Subscriptions, channel: string)
    requires CommaFree(subs) && channel in ChannelSet(subs)
    ensures NoComma(channel)
  {
    hide PandaSet, PairSet, TickPairs, PandaChannel, NoComma;
    if channel in PandaSet(subs.pandas) {
      PandaSetMeans(subs.pandas, channel);
      var id, suffix :| id in Elems(subs.pandas) && suffix in SUFFIXES && channel == PandaChannel(id, suffix);
      ElemsIndexed(subs.pandas, id);
      PandaChannelNoComma(id, suffix);
    } else {
      TickPairsNoComma(subs.market.value.assets, subs.market.value.pairs);
      PairSetNoComma(TickPairs(subs.market.value.assets, subs.market.value.pairs), subs.market.value.interval, channel);
    }
  }

  lemma {:induction false} CollectNoComma(subs: Subscriptions)
    requires CommaFree(subs)
    ensures AllNoComma(Collect(subs))
  {
    hide Collect, NoComma, ChannelSet;
    CollectLists(subs);
    forall i | 0 <= i < |Collect(subs)| ensures NoComma(Collect(subs)[i]) {
      ElemsIndexed(Collect(subs), Collect(subs)[i]);
      ChannelsNoComma(subs, Collect(subs)[i]);
    }
  }

  /** The list is the sorted, duplicate-free image of the subscriptions, and a live
      subscriber listens to exactly that list. */
  ghost predicate Agrees(h: Hub) {
    && Lists(h.channels, ChannelSet(h.subs))
    && h.channels == Collect(h.subs)
    && (h.live.Some? ==> h.live.value == h.channels != [])
  }

  /** Nothing is missing either: there is a live subscriber unless the list is empty. */
  ghost predicate InSync(h: Hub) {
    Agrees(h) && (h.live.None? ==> h.channels == [])
  }

  lemma {:induction false} WithoutKeyNoComma(keys: seq<string>, id: string)
    requires AllNoComma(keys)
    ensures AllNoComma(WithoutKey(keys, id))
  {
    hide NoComma;
    if keys != [] {
      WithoutKeyNoComma(keys[..|keys| - 1], id);
    }
  }

  lemma {:induction false} CommaFreeListsDoNotCollide(h: Hub, subs: Subscriptions)
    requires Agrees(h) && CommaFree(h.subs) && CommaFree(subs)
    ensures !Collides(h, subs)
  {
    hide Collect, ChannelSet, NoComma, CommaFree;
    CollectNoComma(subs);
    CollectNoComma(h.subs);
    if Collides(h, subs) {
      JoinInjective(Collect(subs), h.live.value);
    }
  }

  lemma {:induction false} SyncAgrees(h: Hub, subs: Subscriptions)
    requires Agrees(h) && CommaFree(h.subs) && CommaFree(subs)
    ensures InSync(Sync(h, subs))
  {
    CommaFreeListsDoNotCollide(h, subs);
    SyncStaleExactlyWhen(h, subs);
    CollectLists(subs);
    hide Collect, ChannelSet, CommaFree, Lists, Join, Collides;
  }

  lemma {:induction false} SubsStayCommaFree(subs: Subscriptions, e: Event)
    requires CommaFree(subs) && CommaFreeEvent(e)
    ensures CommaFree(SubsAfter(subs, e))
  {
    hide NoComma, Elems;
    if e.UnsubscribeSimulation? {
      WithoutKeyNoComma(subs.pandas, e.pandaId);
    }
  }

  lemma {:induction false} NextAgrees(h: Hub, e: Event)
    requires Agrees(h) && CommaFree(h.subs) && CommaFreeEvent(e)
    ensures Agrees(Next(h, e)) && CommaFree(Next(h, e).subs)
    ensures !Refused(e) && !e.LastSocketClosed? ==> InSync(Next(h, e))
  {
    SubsStayCommaFree(h.subs, e);
    hide Collect, ChannelSet, CommaFree, Join, Lists, WithPanda, WithoutKey;
    if e.Connected? {
      assert Refresh(h) == Sync(h, h.subs);
    }
    SyncAgrees(h, SubsAfter(h.subs, e));
  }

  lemma {:induction false} NewHubAgrees()
    ensures Agrees(NEW_HUB) && CommaFree(NEW_HUB.subs)
  {
    CollectLists(NEW_HUB.subs);
    NothingCollected();
  }

  /** Index agreement: after every sequence of commands, connections and disconnections
      with comma-free names, list and subscriber agree with the subscriptions; after an
      accepted command or a connection the subscriber is live as well. */
  lemma {:induction false} HubAgrees(events: seq<Event>)
    requires forall i :: 0 <= i < |events| ==> CommaFreeEvent(events[i])
    ensures Agrees(Run(events)) && CommaFree(Run(events).subs)
    ensures events != [] && !Refused(events[|events| - 1]) && !events[|events| - 1].LastSocketClosed?
            ==> InSync(Run(events))
  {
    if events == [] {
      NewHubAgrees();
    } else {
      hide Next, Agrees, InSync, Refused, CommaFreeEvent;
      HubAgrees(events[..|events| - 1]);
      NextAgrees(Run(events[..|events| - 1]), events[|events| - 1]);
    }
  }

  function PairsOnly(pairs: seq<string>): Subscriptions {
    Subscriptions([], Some(Market([], pairs, "5m")), false)
  }

  lemma {:induction false} ElemsOne(c: string)
    ensures Elems([c]) == {c}
  {
    var one: seq<string> := [c];
    assert one[..0] == [];
  }

  lemma {:induction false} OneTickPair(p: string)
    requires Strip(p) == p != ""
    ensures TickPairs([], [p]) == [p]
  {
    hide Strip;
    var one: seq<string> := [p];
    assert one[..0] == [];
  }

  lemma {:induction false} PairSetOne(p: string)
    ensures PairSet([p], "5m") == {TickChannel(p)}
  {
    hide TickChannel, CandleChannel;
    var one: seq<string> := [p];
    assert one[..0] == [];
    ElemsOne(TickChannel(p));
  }

  lemma {:induction false} OneChannel(p: string)
    requires Trimmed(p) && p != ""
    ensures Collect(PairsOnly([p])) == [TickChannel(p)]
  {
    hide Collect, Strip, TickChannel, CandleChannel, Precedes;
    var c := TickChannel(p);
    StripTrimmed(p);
    CollectLists(PairsOnly([p]));
    OneTickPair(p);
    ElemsOne(c);
    assert PairSet([p], "5m") == {c} by { PairSetOne(p); }
    ListsUnique(Collect(PairsOnly([p])), [c]);
  }

  lemma {:induction false} SharedPrefix(p: string, s: string, t: string)
    ensures Precedes(p + s, p + t) == Precedes(s, t)
  {
    if p == "" {
      assert p + s == s && p + t == t;
    } else {
      assert (p + s)[1..] == p[1..] + s && (p + t)[1..] == p[1..] + t;
      SharedPrefix(p[1..], s, t);
    }
  }

  lemma {:induction false} TwoChannels(p: string, q: string)
    requires Trimmed(p) && Trimmed(q) && p != "" && q != "" && Precedes(p, q)
    ensures Collect(PairsOnly([p, q])) == [TickChannel(p), TickChannel(q)]
  {
    hide Collect, Strip, Precedes;
    var list := [TickChannel(p), TickChannel(q)];
    StripTrimmed(p);
    StripTrimmed(q);
    CollectLists(PairsOnly([p, q]));
    assert TickPairs([], [p, q]) == [p, q] by {
      assert [p, q][..1] == [p];
      OneTickPair(p);
    }
    assert ChannelSet(PairsOnly([p, q])) == {TickChannel(p), TickChannel(q)} by {
      assert [p, q][..1] == [p];
      PairSetOne(p);
      ElemsOne(TickChannel(q));
    }
    assert Elems(list) == {TickChannel(p), TickChannel(q)} by {
      assert list[..1] == [TickChannel(p)];
      ElemsOne(TickChannel(p));
    }
    SharedPrefix("market:tick:", p, q);
    ListsUnique(Collect(PairsOnly([p, q])), list);
  }

  /** Comma-free names are needed: for any two pairs in order there is a third name whose
      single channel has the same join as theirs, and after it the subscriber keeps
      listening to that channel instead of the two. */
  lemma {:induction false} CommasKeepAStaleSubscriber(p: string, q: string)
    requires Trimmed(p) && Trimmed(q) && p != "" && q != "" && Precedes(p, q)
    ensures var odd := p + ",market:tick:" + q;
            var h := Run([SubscribeMarket(Market([], [odd], "5m")), SubscribeMarket(Market([], [p, q], "5m"))]);
            && h.channels == [TickChannel(p), TickChannel(q)]
            && h.live == Some([TickChannel(odd)]) && Stale(h)
  {
    hide Collect, Precedes;
    var odd := p + ",market:tick:" + q;
    var first, second := SubscribeMarket(Market([], [odd], "5m")), SubscribeMarket(Market([], [p, q], "5m"));
    var events := [first, second];
    assert events[..1] == [first] && events[..1][..0] == [];
    assert odd[0] == p[0] && odd[|odd| - 1] == q[|q| - 1];
    OneChannel(odd);
    TwoChannels(p, q);
    var list := [TickChannel(p), TickChannel(q)];
    assert list[1..] == [TickChannel(q)];
    assert Join(list) == TickChannel(p) + "," + TickChannel(q);
    assert TickChannel(p) + "," + TickChannel(q) == TickChannel(odd);
    assert Join([TickChannel(odd)]) == TickChannel(odd);
    var h1 := Hub(PairsOnly([odd]), [TickChannel(odd)], Some([TickChannel(odd)]));
    assert Run(events[..1]) == h1 by {
      assert Run(events[..1]) == Next(Run(events[..1][..0]), first);
      assert Next(NEW_HUB, first) == Sync(NEW_HUB, PairsOnly([odd]));
    }
    assert Run(events) == Next(h1, second) == Sync(h1, PairsOnly([p, q]));
    assert |list| != |[TickChannel(odd)]|;
  }
}
