/** Redis channel names: which ones a hub listens to, and which messages it forwards. */
module Channels {
  import opened Text

  datatype Market = Market(assets: seq<string>, pairs: seq<string>, interval: string)

  /** pandas holds the keys of the subscription record, each once.  The record is a plain
      JavaScript object: storing an entry under `__proto__` adds no key but makes that entry
      the record's prototype, which reprototyped remembers. */
  datatype Subscriptions = Subscriptions(pandas: seq<string>, market: Option<Market>, reprototyped: bool)

  const SUFFIXES: seq<string> := ["decision", "emotion", "experience", "diary", "trade"]

  /** The table of assets agrees with its own fallback, so the fallback says it all. */
  function AssetToPair(asset: string): string { Upper(asset) + "-USDC" }

  function PandaChannel(id: string, suffix: string): string { "panda:" + id + ":" + suffix }

  function TickChannel(pair: string): string { "market:tick:" + pair }

  function CandleChannel(pair: string): string { "market:candles:1m:" + pair }

  function PandaChannels(id: string): seq<string> {
    [PandaChannel(id, "decision"), PandaChannel(id, "emotion"), PandaChannel(id, "experience"),
     PandaChannel(id, "diary"), PandaChannel(id, "trade")]
  }

  function PairChannels(pair: string, interval: string): seq<string> {
    if interval == "1m" then [TickChannel(pair), CandleChannel(pair)] else [TickChannel(pair)]
  }

  /** Assets become pairs; blank pair names are dropped. */
  function TickPairs(assets: seq<string>, pairs: seq<string>): seq<string> {
    if pairs != [] then
      var pair := Strip(pairs[|pairs| - 1]);
      TickPairs(assets, pairs[..|pairs| - 1]) + if pair == "" then [] else [pair]
    else if assets != [] then TickPairs(assets[..|assets| - 1], []) + [AssetToPair(assets[|assets| - 1])]
    else []
  }

  function Elems(s: seq<string>): set<string> {
    if s == [] then {} else Elems(s[..|s| - 1]) + {s[|s| - 1]}
  }

  lemma {:induction false} ElemsIndexed(s: seq<string>, x: string)
    ensures x in Elems(s) <==> exists i :: 0 <= i < |s| && s[i] == x
  {
    if s != [] {
      var init := s[..|s| - 1];
      ElemsIndexed(init, x);
      if i :| 0 <= i < |s| && s[i] == x {
        assert i < |init| ==> init[i] == x;
      }
    }
  }

  lemma {:induction false} ElemsConcat(s: seq<string>, t: seq<string>)
    ensures Elems(s + t) == Elems(s) + Elems(t)
  {
    if t == [] {
      assert s + t == s;
    } else {
      assert (s + t)[..|s + t| - 1] == s + t[..|t| - 1];
      ElemsConcat(s, t[..|t| - 1]);
    }
  }

  /** The channels that the pandas stand for. */
  function PandaSet(pandas: seq<string>): set<string> {
    if pandas == [] then {} else PandaSet(pandas[..|pandas| - 1]) + Elems(PandaChannels(pandas[|pandas| - 1]))
  }

  function PairSet(pairs: seq<string>, interval: string): set<string> {
    if pairs == [] then {} else PairSet(pairs[..|pairs| - 1], interval) + Elems(PairChannels(pairs[|pairs| - 1], interval))
  }

  function MarketSet(market: Option<Market>): set<string> {
    if market.None? then {}
    else PairSet(TickPairs(market.value.assets, market.value.pairs), market.value.interval)
  }

  /** The image of the subscriptions. */
  function ChannelSet(subs: Subscriptions): set<string> {
    PandaSet(subs.pandas) + MarketSet(subs.market)
  }

  // ---- The order of names ----

  /** JavaScript's default sort compares code units from the left. */
  predicate Precedes(a: string, b: string) {
    if b == "" then false
    else if a == "" then true
    else if a[0] == b[0] then Precedes(a[1..], b[1..])
    else a[0] < b[0]
  }

  lemma {:induction false} PrecedesTotal(a: string, b: string)
    ensures a == b || Precedes(a, b) || Precedes(b, a)
    ensures !(Precedes(a, b) && Precedes(b, a)) && !Precedes(a, a)
  {
    if a != "" && b != "" {
      PrecedesTotal(a[1..], b[1..]);
      PrecedesTotal(a[1..], a[1..]);
      assert a == [a[0]] + a[1..] && b == [b[0]] + b[1..];
    } else if a != "" {
      PrecedesTotal(a[1..], a[1..]);
    }
  }

  lemma {:induction false} PrecedesTransitive(a: string, b: string, c: string)
    requires Precedes(a, b) && Precedes(b, c)
    ensures Precedes(a, c)
  {
    if a != "" && a[0] == b[0] == c[0] {
      PrecedesTransitive(a[1..], b[1..], c[1..]);
    }
  }

  /** The common beginning of two names ends at k. */
  predicate PartAt(a: string, b: string, k: nat) {
    && k <= |a| && k <= |b| && a[..k] == b[..k]
    && (k < |a| && k < |b| ==> a[k] != b[k])
  }

  /** One name precedes another if it is a proper beginning of it, or has the smaller code unit
      where they part. */
  lemma {:induction false} PrecedesExactlyWhen(a: string, b: string, k: nat)
    requires PartAt(a, b, k)
    ensures Precedes(a, b) <==> k < |b| && (k == |a| || a[k] < b[k])
  {
    if k > 0 {
      assert a[0] == a[..k][0] && b[0] == b[..k][0];
      assert a[1..][..k - 1] == a[..k][1..] && b[1..][..k - 1] == b[..k][1..];
      PrecedesExactlyWhen(a[1..], b[1..], k - 1);
    }
  }

  ghost predicate Ascends(names: seq<string>) {
    forall i, j :: 0 <= i < j < |names| ==> Precedes(names[i], names[j])
  }

  /** A sorted list without duplicates of exactly the names in a set. */
  ghost predicate Lists(names: seq<string>, image: set<string>) {
    Ascends(names) && Elems(names) == image
  }

  lemma {:induction false} ElemsEmpty(s: seq<string>)
    ensures Elems(s) == {} <==> s == []
  {
    if s != [] {
      assert s[|s| - 1] in Elems(s);
    }
  }

  lemma {:induction false} LastIsGreatest(xs: seq<string>, x: string)
    requires Ascends(xs) && xs != [] && x in Elems(xs)
    ensures x == xs[|xs| - 1] || Precedes(x, xs[|xs| - 1])
  {
    ElemsIndexed(xs, x);
    var i :| 0 <= i < |xs| && xs[i] == x;
  }

  lemma {:induction false} LastIsNew(xs: seq<string>)
    requires Ascends(xs) && xs != []
    ensures xs[|xs| - 1] !in Elems(xs[..|xs| - 1])
  {
    var last, init := xs[|xs| - 1], xs[..|xs| - 1];
    ElemsIndexed(init, last);
    PrecedesTotal(last, last);
  }

  /** There is only one such list. */
  lemma {:induction false} ListsUnique(xs: seq<string>, ys: seq<string>)
    requires Ascends(xs) && Ascends(ys) && Elems(xs) == Elems(ys)
    ensures xs == ys
  {
    ElemsEmpty(xs);
    ElemsEmpty(ys);
    if xs != [] {
      var n, m := |xs| - 1, |ys| - 1;
      LastIsGreatest(xs, ys[m]);
      LastIsGreatest(ys, xs[n]);
      PrecedesTotal(xs[n], ys[m]);
      LastIsNew(xs);
      LastIsNew(ys);
      assert Elems(xs[..n]) == Elems(xs) - {xs[n]};
      ListsUnique(xs[..n], ys[..m]);
      assert xs == xs[..n] + [xs[n]] && ys == ys[..m] + [ys[m]];
    }
  }

  function InsertName(names: seq<string>, name: string): seq<string> {
    if names != [] && Precedes(name, names[|names| - 1]) then
      InsertName(names[..|names| - 1], name) + [names[|names| - 1]]
    else names + [name]
  }

  function SortNames(names: seq<string>): seq<string> {
    if names == [] then [] else InsertName(SortNames(names[..|names| - 1]), names[|names| - 1])
  }

  lemma {:induction false} ElemsSnoc(names: seq<string>, name: string)
    ensures Elems(names + [name]) == Elems(names) + {name}
  {
    assert (names + [name])[..|names|] == names;
  }

  lemma {:induction false} AscendsSnoc(names: seq<string>, name: string)
    requires Ascends(names) && forall x :: x in Elems(names) ==> Precedes(x, name)
    ensures Ascends(names + [name])
  {
    hide Precedes, Elems;
    forall i | 0 <= i < |names| ensures Precedes(names[i], name) {
      ElemsIndexed(names, names[i]);
    }
  }

  lemma {:induction false} AllPrecedeLast(init: seq<string>, last: string)
    requires Ascends(init + [last])
    ensures forall x :: x in Elems(init) ==> Precedes(x, last)
  {
    hide Precedes, Elems;
    var names := init + [last];
    forall x | x in Elems(init) ensures Precedes(x, last) {
      ElemsIndexed(init, x);
      var i :| 0 <= i < |init| && init[i] == x;
      assert names[i] == x && names[|init|] == last;
    }
  }

  lemma {:induction false} InsertLists(names: seq<string>, name: string)
    requires Ascends(names) && name !in Elems(names)
    ensures Lists(InsertName(names, name), Elems(names) + {name})
  {
    if names == [] {
      assert names + [name] == [name];
      ElemsSnoc(names, name);
    } else {
      var init, last := names[..|names| - 1], names[|names| - 1];
      assert Ascends(init);
      hide Precedes, Elems, Ascends;
      assert names == init + [last];
      ElemsSnoc(init, last);
      AllPrecedeLast(init, last);
      if Precedes(name, last) {
        InsertLists(init, name);
        AscendsSnoc(InsertName(init, name), last);
        ElemsSnoc(InsertName(init, name), last);
      } else {
        PrecedesTotal(name, last);
        forall x | x in Elems(names) ensures Precedes(x, name) {
          if x != last {
            PrecedesTransitive(x, last, name);
          }
        }
        AscendsSnoc(names, name);
        ElemsSnoc(names, name);
      }
    }
  }

  /** Every name once. */
  ghost predicate Once(names: seq<string>) {
    forall i, j :: 0 <= i < j < |names| ==> names[i] != names[j]
  }

  lemma {:induction false} SortLists(names: seq<string>)
    requires Once(names)
    ensures Lists(SortNames(names), Elems(names))
  {
    if names != [] {
      var init, last := names[..|names| - 1], names[|names| - 1];
      SortLists(init);
      ElemsIndexed(init, last);
      InsertLists(SortNames(init), last);
    }
  }

  // ---- The loops ----

  /** Adding to a JavaScript Set, which keeps the order of insertion. */
  method AddAll(names: seq<string>, more: seq<string>) returns (r: seq<string>)
    requires Once(names)
    ensures Once(r) && Elems(r) == Elems(names) + Elems(more)
  {
    r := names;
    var i := 0;
    while i < |more|
      invariant 0 <= i <= |more|
      invariant Once(r) && Elems(r) == Elems(names) + Elems(more[..i])
    {
      assert more[..i + 1][..i] == more[..i];
      ElemsIndexed(r, more[i]);
      if more[i] !in r {
        assert (r + [more[i]])[..|r|] == r;
        r := r + [more[i]];
      }
      i := i + 1;
    }
    assert more[..i] == more;
  }

  method ChannelsForMarketSubscribe(market: Market) returns (names: seq<string>)
    ensures Once(names) && Elems(names) == MarketSet(Some(market))
  {
    hide TickPairs, PairChannels;
    var pairs := TickPairs(market.assets, market.pairs);
    names := [];
    var i := 0;
    while i < |pairs|
      invariant 0 <= i <= |pairs|
      invariant Once(names) && Elems(names) == PairSet(pairs[..i], market.interval)
    {
      assert pairs[..i + 1][..i] == pairs[..i];
      names := AddAll(names, PairChannels(pairs[i], market.interval));
      i := i + 1;
    }
    assert pairs[..i] == pairs;
  }

  /** collectRedisChannels: the sorted list of the image of the subscriptions. */
  method CollectRedisChannels(subs: Subscriptions) returns (list: seq<string>)
    ensures Lists(list, ChannelSet(subs))
  {
    var names: seq<string> := [];
    var i := 0;
    while i < |subs.pandas|
      invariant 0 <= i <= |subs.pandas|
      invariant Once(names) && Elems(names) == PandaSet(subs.pandas[..i])
    {
      assert subs.pandas[..i + 1][..i] == subs.pandas[..i];
      names := AddAll(names, PandaChannels(subs.pandas[i]));
      i := i + 1;
    }
    assert subs.pandas[..i] == subs.pandas;
    if subs.market.Some? {
      var market := ChannelsForMarketSubscribe(subs.market.value);
      names := AddAll(names, market);
    }
    SortLists(names);
    list := SortNames(names);
  }

  // ---- The names in the list, spelled out ----

  /** A market subscription names a pair directly, blanks around it apart, or by its asset. */
  predicate NamesPair(market: Market, p: string) {
    || (p != "" && exists k :: 0 <= k < |market.pairs| && Strip(market.pairs[k]) == p)
    || exists k :: 0 <= k < |market.assets| && Upper(market.assets[k]) + "-USDC" == p
  }

  /** The five channels of a panda. */
  predicate OfPanda(id: string, c: string) {
    || c == "panda:" + id + ":decision" || c == "panda:" + id + ":emotion" || c == "panda:" + id + ":experience"
    || c == "panda:" + id + ":diary" || c == "panda:" + id + ":trade"
  }

  /** The ticks of a pair, and its one-minute candles if the interval is one minute. */
  predicate OfPair(p: string, interval: string, c: string) {
    c == "market:tick:" + p || (interval == "1m" && c == "market:candles:1m:" + p)
  }

  /** The channels that subscriptions are about. */
  ghost predicate Wanted(subs: Subscriptions, c: string) {
    || (exists id :: id in subs.pandas && OfPanda(id, c))
    || (subs.market.Some? && exists p :: NamesPair(subs.market.value, p) && OfPair(p, subs.market.value.interval, c))
  }

  lemma {:induction false} InElems(s: seq<string>, x: string)
    ensures x in Elems(s) <==> x in s
  {
    ElemsIndexed(s, x);
  }

  lemma {:induction false} SameText(id: string, suffix: string, text: string)
    requires text == ":" + suffix
    ensures PandaChannel(id, suffix) == "panda:" + id + text
  {
  }

  lemma {:induction false} FiveChannels(id: string, c: string)
    ensures c in Elems(PandaChannels(id)) <==> OfPanda(id, c)
  {
    InElems(PandaChannels(id), c);
    SameText(id, "decision", ":decision");
    SameText(id, "emotion", ":emotion");
    SameText(id, "experience", ":experience");
    SameText(id, "diary", ":diary");
    SameText(id, "trade", ":trade");
    hide PandaChannel, Elems;
  }

  lemma {:induction false} PandasWanted(pandas: seq<string>, c: string)
    ensures c in PandaSet(pandas) <==> exists id :: id in pandas && OfPanda(id, c)
  {
    hide PandaChannels, OfPanda;
    if pandas != [] {
      var front, last := pandas[..|pandas| - 1], pandas[|pandas| - 1];
      PandasWanted(front, c);
      FiveChannels(last, c);
      assert forall id :: id in pandas <==> id in front || id == last;
      hide Elems;
    }
  }

  lemma {:induction false} TwoChannelsOfPair(p: string, interval: string, c: string)
    ensures c in Elems(PairChannels(p, interval)) <==> OfPair(p, interval, c)
  {
    InElems(PairChannels(p, interval), c);
    hide Elems;
  }

  lemma {:induction false} PairsWanted(pairs: seq<string>, interval: string, c: string)
    ensures c in PairSet(pairs, interval) <==> exists p :: p in pairs && OfPair(p, interval, c)
  {
    hide PairChannels, OfPair;
    if pairs != [] {
      var front, last := pairs[..|pairs| - 1], pairs[|pairs| - 1];
      PairsWanted(front, interval, c);
      TwoChannelsOfPair(last, interval, c);
      assert forall p :: p in pairs <==> p in front || p == last;
      hide Elems;
    }
  }

  lemma {:induction false} AssetsNamed(assets: seq<string>, p: string)
    ensures p in TickPairs(assets, []) <==> exists k :: 0 <= k < |assets| && Upper(assets[k]) + "-USDC" == p
  {
    hide Upper;
    if assets != [] {
      var front, last := assets[..|assets| - 1], assets[|assets| - 1];
      AssetsNamed(front, p);
      assert forall k :: 0 <= k < |front| ==> front[k] == assets[k];
      assert TickPairs(assets, []) == TickPairs(front, []) + [AssetToPair(last)];
      hide TickPairs;
      assert p in TickPairs(assets, []) <==> p in TickPairs(front, []) || p == Upper(last) + "-USDC";
    }
  }

  lemma {:induction false} TickPairsNamed(market: Market, p: string)
    ensures p in TickPairs(market.assets, market.pairs) <==> NamesPair(market, p)
    decreases |market.pairs|
  {
    hide Strip, Upper;
    if market.pairs == [] {
      AssetsNamed(market.assets, p);
    } else {
      var front := market.(pairs := market.pairs[..|market.pairs| - 1]);
      TickPairsNamed(front, p);
      assert forall k :: 0 <= k < |front.pairs| ==> front.pairs[k] == market.pairs[k];
    }
  }

  /** The image of the subscriptions holds exactly the channels wanted. */
  lemma {:induction false} ImageIsWanted(subs: Subscriptions, c: string)
    ensures c in ChannelSet(subs) <==> Wanted(subs, c)
  {
    hide PandaSet, PairSet, TickPairs, NamesPair, OfPanda, OfPair;
    PandasWanted(subs.pandas, c);
    if subs.market.Some? {
      var market := subs.market.value;
      PairsWanted(TickPairs(market.assets, market.pairs), market.interval, c);
      forall p ensures p in TickPairs(market.assets, market.pairs) <==> NamesPair(market, p) {
        TickPairsNamed(market, p);
      }
    }
  }

  // ---- Forwarding ----

  function IndexOf(s: string, c: char): (i: nat)
    ensures i <= |s|
    ensures i < |s| ==> s[i] == c
    ensures forall j :: 0 <= j < i ==> s[j] != c
  {
    if s == "" || s[0] == c then 0 else 1 + IndexOf(s[1..], c)
  }

  /** parsePandaIdFromChannel: `panda:`, an id without colons, and one of the suffixes. */
  function ParsePandaId(channel: string): Option<string> {
    if !("panda:" <= channel) then None
    else
      var rest := channel[6..];
      var i := IndexOf(rest, ':');
      if i == 0 || i == |rest| || rest[i + 1..] !in SUFFIXES then None else Some(rest[..i])
  }

  /** The names that JavaScript's `in` finds on any plain object. */
  const OBJECT_PROTOTYPE: set<string> := {
    "constructor", "hasOwnProperty", "isPrototypeOf", "propertyIsEnumerable", "toLocaleString", "toString", "valueOf",
    "__defineGetter__", "__defineSetter__", "__lookupGetter__", "__lookupSetter__", "__proto__"}

  /** An entry has one key of its own. */
  const ENTRY_KEY := "simulationId"

  /** The names found on the record's prototype chain although nobody subscribed them. */
  predicate Inherited(id: string, subs: Subscriptions) {
    id in OBJECT_PROTOTYPE || (subs.reprototyped && id == ENTRY_KEY)
  }

  predicate ShouldForward(channel: string, subs: Subscriptions) {
    var id := ParsePandaId(channel);
    if id.Some? then id.value in Elems(subs.pandas) || Inherited(id.value, subs)
    else if "market:tick:" <= channel || "market:candles:" <= channel then channel in MarketSet(subs.market)
    else false
  }

  predicate NoColon(id: string) { forall i :: 0 <= i < |id| ==> id[i] != ':' }

  lemma {:induction false} FirstIndex(s: string, c: char, t: string)
    requires (forall i :: 0 <= i < |s| ==> s[i] != c) && t != "" && t[0] == c
    ensures IndexOf(s + t, c) == |s|
  {
    var i := IndexOf(s + t, c);
    assert (s + t)[|s|] == c;
    assert forall j :: 0 <= j < |s| ==> (s + t)[j] == s[j];
  }

  lemma {:induction false} AfterPanda(id: string, suffix: string)
    ensures "panda:" <= PandaChannel(id, suffix) && PandaChannel(id, suffix)[6..] == id + (":" + suffix)
  {
    assert PandaChannel(id, suffix) == "panda:" + (id + (":" + suffix));
  }

  lemma {:induction false} ChannelParses(id: string, suffix: string)
    requires id != "" && NoColon(id) && suffix in SUFFIXES
    ensures ParsePandaId(PandaChannel(id, suffix)) == Some(id)
  {
    hide IndexOf, SUFFIXES, PandaChannel;
    var rest := id + (":" + suffix);
    AfterPanda(id, suffix);
    FirstIndex(id, ':', ":" + suffix);
    assert rest[..|id|] == id && rest[|id| + 1..] == suffix;
  }

  lemma {:induction false} ParsedChannel(channel: string)
    requires ParsePandaId(channel).Some?
    ensures var id := ParsePandaId(channel).value;
            && id != "" && NoColon(id)
            && exists suffix :: suffix in SUFFIXES && channel == PandaChannel(id, suffix)
  {
    var rest := channel[6..];
    var i := IndexOf(rest, ':');
    var suffix := rest[i + 1..];
    assert channel == channel[..6] + rest && channel[..6] == "panda:";
    assert rest == rest[..i] + [':'] + suffix;
    assert channel == PandaChannel(rest[..i], suffix);
  }

  /** What the pattern matches, and what it captures. */
  lemma {:induction false} ParsesExactlyWhen(channel: string, id: string)
    ensures ParsePandaId(channel) == Some(id)
       <==> id != "" && NoColon(id) && exists suffix :: suffix in SUFFIXES && channel == PandaChannel(id, suffix)
  {
    hide PandaChannel, ParsePandaId, NoColon;
    if ParsePandaId(channel) == Some(id) {
      ParsedChannel(channel);
    }
    if id != "" && NoColon(id) {
      if suffix :| suffix in SUFFIXES && channel == PandaChannel(id, suffix) {
        ChannelParses(id, suffix);
      }
    }
  }

  lemma {:induction false} PandaChannelsElems(id: string, channel: string)
    ensures channel in Elems(PandaChannels(id)) <==> exists suffix :: suffix in SUFFIXES && channel == PandaChannel(id, suffix)
  {
    hide PandaChannel;
    var cs := PandaChannels(id);
    ElemsIndexed(cs, channel);
    if i :| 0 <= i < |cs| && cs[i] == channel {
      assert SUFFIXES[i] in SUFFIXES && channel == PandaChannel(id, SUFFIXES[i]);
    }
    if suffix :| suffix in SUFFIXES && channel == PandaChannel(id, suffix) {
      var k :| 0 <= k < |SUFFIXES| && SUFFIXES[k] == suffix;
      assert cs[k] == channel;
    }
  }

  lemma {:induction false} PandaSetMeans(pandas: seq<string>, channel: string)
    ensures channel in PandaSet(pandas)
       <==> exists id, suffix :: id in Elems(pandas) && suffix in SUFFIXES && channel == PandaChannel(id, suffix)
  {
    hide PandaChannel, PandaChannels;
    if pandas != [] {
      PandaSetMeans(pandas[..|pandas| - 1], channel);
      PandaChannelsElems(pandas[|pandas| - 1], channel);
    }
  }

  lemma {:induction false} PairSetStarts(pairs: seq<string>, interval: string, channel: string)
    requires channel in PairSet(pairs, interval)
    ensures "market:tick:" <= channel || "market:candles:" <= channel
  {
    var last := pairs[|pairs| - 1];
    if channel in PairSet(pairs[..|pairs| - 1], interval) {
      PairSetStarts(pairs[..|pairs| - 1], interval, channel);
    } else {
      ElemsIndexed(PairChannels(last, interval), channel);
      assert TickChannel(last)[..12] == "market:tick:";
      assert CandleChannel(last)[..15] == "market:candles:";
    }
  }

  /** The channel names that the forwarding test knows how to read. */
  predicate Recognized(channel: string) {
    ParsePandaId(channel).Some? || "market:tick:" <= channel || "market:candles:" <= channel
  }

  lemma {:induction false} PandaChannelStarts(channel: string)
    requires exists id, suffix :: channel == PandaChannel(id, suffix)
    ensures channel[0] == 'p'
    ensures !("market:tick:" <= channel) && !("market:candles:" <= channel)
  {
    var id, suffix :| channel == PandaChannel(id, suffix);
    assert channel[0] == 'p';
  }

  lemma {:induction false} SuffixesHaveNoColon(suffix: string)
    ensures suffix in SUFFIXES ==> NoColon(suffix)
  {
  }

  lemma {:induction false} ColonInTail(id: string, suffix: string, i: nat)
    requires i < |id|
    ensures !NoColon((id + (":" + suffix))[i + 1..])
  {
    var rest := id + (":" + suffix);
    assert rest[|id|] == ':';
    assert rest[i + 1..][|id| - i - 1] == rest[|id|];
  }

  lemma {:induction false} FirstColon(s: string, k: nat)
    requires k < |s| && s[k] == ':'
    ensures IndexOf(s, ':') <= k
  {
    hide IndexOf;
  }

  lemma {:induction false} ColonDoesNotParse(id: string, suffix: string)
    requires !NoColon(id) && suffix in SUFFIXES
    ensures ParsePandaId(PandaChannel(id, suffix)).None?
  {
    hide IndexOf, SUFFIXES, PandaChannel;
    var rest := id + (":" + suffix);
    AfterPanda(id, suffix);
    var k :| 0 <= k < |id| && id[k] == ':';
    assert rest[k] == ':';
    FirstColon(rest, k);
    ColonInTail(id, suffix, IndexOf(rest, ':'));
    SuffixesHaveNoColon(rest[IndexOf(rest, ':') + 1..]);
  }

  /** The channel of an id can be read back exactly when the id has a character and no colon. */
  lemma {:induction false} PandaChannelParsesExactlyWhen(id: string, suffix: string)
    requires suffix in SUFFIXES
    ensures ParsePandaId(PandaChannel(id, suffix)) == if id != "" && NoColon(id) then Some(id) else None
  {
    hide NoColon;
    var channel := PandaChannel(id, suffix);
    if id == "" {
      assert channel[6..] == ":" + suffix;
    } else if NoColon(id) {
      ChannelParses(id, suffix);
    } else {
      ColonDoesNotParse(id, suffix);
    }
  }

  lemma {:induction false} ParsedIsListed(channel: string, subs: Subscriptions)
    requires ParsePandaId(channel).Some?
    ensures channel in ChannelSet(subs) <==> ParsePandaId(channel).value in Elems(subs.pandas)
  {
    hide TickPairs, PairSet, PandaSet, PandaChannel, ParsePandaId, NoColon;
    var id := ParsePandaId(channel).value;
    ParsesExactlyWhen(channel, id);
    PandaSetMeans(subs.pandas, channel);
    if channel in PandaSet(subs.pandas) {
      var other, suffix :| other in Elems(subs.pandas) && suffix in SUFFIXES && channel == PandaChannel(other, suffix);
      PandaChannelParsesExactlyWhen(other, suffix);
    }
    if channel in MarketSet(subs.market) {
      PairSetStarts(TickPairs(subs.market.value.assets, subs.market.value.pairs), subs.market.value.interval, channel);
      PandaChannelStarts(channel);
    }
  }

  /** Which messages are forwarded, for all subscriptions and all channel names: those of the
      listed channels that the test can read, and those of inherited names. */
  lemma {:induction false} ForwardedExactlyWhen(channel: string, subs: Subscriptions)
    ensures ShouldForward(channel, subs)
       <==> (Recognized(channel) && channel in ChannelSet(subs))
            || (ParsePandaId(channel).Some? && Inherited(ParsePandaId(channel).value, subs))
  {
    hide TickPairs, PairSet, PandaSet, PandaChannel, ParsePandaId;
    if ParsePandaId(channel).Some? {
      ParsedIsListed(channel, subs);
    } else if channel in PandaSet(subs.pandas) {
      PandaSetMeans(subs.pandas, channel);
      PandaChannelStarts(channel);
    }
  }

  /** The names nobody can subscribe by an ordinary id apart, a message is forwarded exactly
      when its channel is in the list, if no subscribed id is empty or has a colon. */
  lemma {:induction false} ForwardedExactlyWhenListed(channel: string, subs: Subscriptions)
    requires forall id :: id in Elems(subs.pandas) ==> id != "" && NoColon(id)
    ensures ShouldForward(channel, subs)
       <==> channel in ChannelSet(subs)
            || (ParsePandaId(channel).Some? && Inherited(ParsePandaId(channel).value, subs))
  {
    hide TickPairs, PairSet, PandaSet, PandaChannel, ParsePandaId, NoColon, ShouldForward;
    ForwardedExactlyWhen(channel, subs);
    if channel in PandaSet(subs.pandas) {
      PandaSetMeans(subs.pandas, channel);
      var id, suffix :| id in Elems(subs.pandas) && suffix in SUFFIXES && channel == PandaChannel(id, suffix);
      ChannelParses(id, suffix);
    } else if channel in MarketSet(subs.market) {
      PairSetStarts(TickPairs(subs.market.value.assets, subs.market.value.pairs), subs.market.value.interval, channel);
    }
  }

  /** Every message of a subscribed panda is listed; it comes through exactly when the id has
      a character and no colon. */
  lemma {:induction false} OwnMessagesExactlyWhen(id: string, suffix: string, subs: Subscriptions)
    requires id in Elems(subs.pandas) && suffix in SUFFIXES
    ensures PandaChannel(id, suffix) in ChannelSet(subs)
    ensures ShouldForward(PandaChannel(id, suffix), subs) <==> id != "" && NoColon(id)
  {
    hide TickPairs, PairSet, PandaSet, PandaChannel, ParsePandaId, NoColon;
    PandaSetMeans(subs.pandas, PandaChannel(id, suffix));
    PandaChannelParsesExactlyWhen(id, suffix);
    PandaChannelStarts(PandaChannel(id, suffix));
  }
}
