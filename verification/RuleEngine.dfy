/** The rule engine: signal rules compiled to tests on the market, and the signed
    strength of the tests that fire. */
module RuleEngine {
  import opened Reals
  import opened Text

  /** The fields of a market dictionary that compiled rules read; macd is the text of
      its macd_signal in lower case. */
  datatype Market = Market(rsi: real, price: real, prevPrice: real, ma20: real, prevMa20: real, macd: string)

  /** threshold is the rule's own or the number found in its condition. */
  datatype Rule = Rule(indicator: string, condition: string, action: Option<string>, threshold: real)

  datatype Test =
    | RsiBelow(t: real)
    | RsiAbove(t: real)
    | CrossAbove
    | CrossBelow
    | MacdGolden
    | MacdDeath
    | PriceAbove(t: real)
    | PriceBelow(t: real)

  datatype Compiled = Compiled(action: string, test: Test)

  predicate Fires(test: Test, m: Market) {
    match test
    case RsiBelow(t) => m.rsi < t
    case RsiAbove(t) => m.rsi > t
    case CrossAbove => m.price > m.ma20 && m.prevPrice <= m.prevMa20
    case CrossBelow => m.price < m.ma20 && m.prevPrice >= m.prevMa20
    case MacdGolden => m.macd in {"golden_cross", "bullish", "true", "1"}
    case MacdDeath => m.macd in {"death_cross", "bearish", "false", "0"}
    case PriceAbove(t) => m.price > t
    case PriceBelow(t) => m.price < t
  }

  predicate Contains(s: string, keyword: string) {
    |keyword| <= |s| && (s[..|keyword|] == keyword || (s != "" && Contains(s[1..], keyword)))
  }

  predicate HasKeyword(condition: string, keywords: seq<string>) {
    exists i :: 0 <= i < |keywords| && Contains(condition, keywords[i])
  }

  function CompileIndicator(indicator: string, condition: string, t: real): Option<Test> {
    if indicator == "RSI" then
      if HasKeyword(condition, ["below", "less", "低于", "<"]) then Some(RsiBelow(t))
      else if HasKeyword(condition, ["above", "greater", "高于", ">"]) then Some(RsiAbove(t))
      else None
    else if indicator == "MA" || indicator == "MA20" then
      if condition in {"cross_above", "上穿", "golden_cross"} then Some(CrossAbove)
      else if condition in {"cross_below", "下穿", "death_cross"} then Some(CrossBelow)
      else None
    else if indicator == "MACD" then
      if condition in {"golden_cross", "金叉", "bullish"} then Some(MacdGolden)
      else if condition in {"death_cross", "死叉", "bearish"} then Some(MacdDeath)
      else None
    else if indicator == "PRICE" then
      if HasKeyword(condition, ["above", ">"]) then Some(PriceAbove(t))
      else if HasKeyword(condition, ["below", "<"]) then Some(PriceBelow(t))
      else None
    else None
  }

  function CompileTest(rule: Rule): Option<Test> {
    CompileIndicator(Upper(rule.indicator), Lower(rule.condition), rule.threshold)
  }

  /** What one rule adds to the compiled list: nothing when its test is unknown. */
  function CompileRule(rule: Rule): seq<Compiled> {
    match CompileTest(rule)
    case None => []
    case Some(test) => [Compiled(Upper(if rule.action.Some? then rule.action.value else "BUY"), test)]
  }

  function Compile(rules: seq<Rule>): seq<Compiled> {
    if rules == [] then [] else Compile(rules[..|rules| - 1]) + CompileRule(rules[|rules| - 1])
  }

  method CompileRules(rules: seq<Rule>) returns (compiled: seq<Compiled>)
    ensures compiled == Compile(rules)
  {
    compiled := [];
    for k := 0 to |rules|
      invariant compiled == Compile(rules[..k])
    {
      assert rules[..k + 1][..k] == rules[..k];
      var test := CompileTest(rules[k]);
      if test.Some? {
        compiled := compiled + [Compiled(Upper(if rules[k].action.Some? then rules[k].action.value else "BUY"), test.value)];
      }
    }
    assert rules[..|rules|] == rules;
  }

  /** How many compiled tests fire, on the SELL side or on the other. */
  function Hits(compiled: seq<Compiled>, m: Market, sell: bool): (n: nat)
    ensures n <= |compiled|
  {
    if compiled == [] then 0
    else
      var last := compiled[|compiled| - 1];
      Hits(compiled[..|compiled| - 1], m, sell)
      + if Fires(last.test, m) && (last.action == "SELL") == sell then 1 else 0
  }

  function Ratio(n: int, d: nat): real
    requires d > 0
  {
    n as real / d as real
  }

  /** The signed strength: buying hits less selling hits over the number of tests. */
  function Signed(compiled: seq<Compiled>, m: Market): real {
    Ratio(Hits(compiled, m, false) - Hits(compiled, m, true), if |compiled| == 0 then 1 else |compiled|)
  }

  /** The indices of firing tests among the first n, in ascending order. */
  ghost predicate FiringIndices(matched: seq<nat>, compiled: seq<Compiled>, m: Market, n: nat)
    requires n <= |compiled|
  {
    && (forall j :: 0 <= j < |matched| ==> matched[j] < n && Fires(compiled[matched[j]].test, m))
    && (forall i, j :: 0 <= i < j < |matched| ==> matched[i] < matched[j])
  }

  lemma {:induction false} NextFiring(matched: seq<nat>, compiled: seq<Compiled>, m: Market, k: nat)
    requires k < |compiled| && FiringIndices(matched, compiled, m, k)
    ensures FiringIndices(matched, compiled, m, k + 1)
    ensures Fires(compiled[k].test, m) ==> FiringIndices(matched + [k], compiled, m, k + 1)
  {
    hide Fires;
  }

  lemma {:induction false} NextHits(compiled: seq<Compiled>, m: Market, k: nat, sell: bool)
    requires k < |compiled|
    ensures Hits(compiled[..k + 1], m, sell)
         == Hits(compiled[..k], m, sell) + if Fires(compiled[k].test, m) && (compiled[k].action == "SELL") == sell then 1 else 0
  {
    hide Fires;
    assert compiled[..k + 1][..k] == compiled[..k];
  }

  lemma {:induction false} ZeroRatio(d: nat)
    requires d > 0
    ensures Ratio(0, d) == 0.0
  {
  }

  method MatchSignalDetail(compiled: seq<Compiled>, m: Market)
    returns (signed: real, buyHits: nat, sellHits: nat, matched: seq<nat>)
    ensures signed == Signed(compiled, m)
    ensures buyHits == Hits(compiled, m, false) && sellHits == Hits(compiled, m, true)
    ensures |matched| == buyHits + sellHits && FiringIndices(matched, compiled, m, |compiled|)
  {
    buyHits, sellHits, matched := 0, 0, [];
    var total := if |compiled| == 0 then 1 else |compiled|;
    assert FiringIndices([], compiled, m, 0) && Hits([], m, false) == 0 && Hits([], m, true) == 0;
    hide Fires, Ratio, Hits, FiringIndices;
    for k := 0 to |compiled|
      invariant buyHits == Hits(compiled[..k], m, false) && sellHits == Hits(compiled[..k], m, true)
      invariant |matched| == buyHits + sellHits && FiringIndices(matched, compiled, m, k)
    {
      NextFiring(matched, compiled, m, k);
      NextHits(compiled, m, k, false);
      NextHits(compiled, m, k, true);
      if Fires(compiled[k].test, m) {
        matched := matched + [k];
        if compiled[k].action == "SELL" {
          sellHits := sellHits + 1;
        } else {
          buyHits := buyHits + 1;
        }
      }
    }
    assert compiled[..|compiled|] == compiled;
    if buyHits == 0 && sellHits == 0 {
      ZeroRatio(total);
      return 0.0, 0, 0, matched;
    }
    signed := Ratio(buyHits - sellHits, total);
  }

  lemma {:induction false} HitsTogether(compiled: seq<Compiled>, m: Market)
    ensures Hits(compiled, m, false) + Hits(compiled, m, true) <= |compiled|
  {
    hide Fires;
    if compiled != [] {
      HitsTogether(compiled[..|compiled| - 1], m);
    }
  }

  lemma {:induction false} ScaledOrder(x: real, y: real, d: real)
    requires d > 0.0 && x < y
    ensures Times(x, d) < Times(y, d)
  {
    assert (y - x) * d > 0.0;
  }

  lemma {:induction false} TimesUnit(d: real)
    ensures Times(1.0, d) == d && Times(-1.0, d) == -d && Times(0.0, d) == 0.0
  {
  }

  lemma {:induction false} RatioTimes(n: int, d: int)
    requires d > 0
    ensures Times(Ratio(n, d), d as real) == n as real
  {
  }

  /** The order of a ratio and a bound is that of their multiples. */
  lemma {:induction false} RatioAgainst(n: int, d: int, bound: real)
    requires d > 0
    ensures Ratio(n, d) < bound <==> n as real < Times(bound, d as real)
    ensures Ratio(n, d) > bound <==> n as real > Times(bound, d as real)
  {
    RatioTimes(n, d);
    hide Ratio, Times;
    var r := Ratio(n, d);
    if r < bound {
      ScaledOrder(r, bound, d as real);
    } else if r > bound {
      ScaledOrder(bound, r, d as real);
    }
  }

  lemma {:induction false} RatioBounds(n: int, d: int)
    requires d > 0 && -d <= n <= d
    ensures -1.0 <= Ratio(n, d) <= 1.0
    ensures (Ratio(n, d) > 0.0 <==> n > 0) && (Ratio(n, d) < 0.0 <==> n < 0)
    ensures (Ratio(n, d) == 1.0 <==> n == d) && (Ratio(n, d) == -1.0 <==> n == -d)
  {
    hide Ratio, Times;
    RatioAgainst(n, d, 1.0);
    RatioAgainst(n, d, 0.0);
    RatioAgainst(n, d, -1.0);
    TimesUnit(d as real);
  }

  lemma {:induction false} AllHit(compiled: seq<Compiled>, m: Market)
    ensures Hits(compiled, m, false) == |compiled| <==>
              forall i :: 0 <= i < |compiled| ==> Fires(compiled[i].test, m) && compiled[i].action != "SELL"
  {
    hide Fires;
    if compiled != [] {
      var front := compiled[..|compiled| - 1];
      AllHit(front, m);
      assert forall i :: 0 <= i < |front| ==> front[i] == compiled[i];
    }
  }

  /** The signed strength stays in [-1, 1], points where more tests fire, and is 1 only
      when every test of a non-empty list fires and none of them sells. */
  lemma {:induction false} SignedStrength(compiled: seq<Compiled>, m: Market)
    ensures -1.0 <= Signed(compiled, m) <= 1.0
    ensures Signed(compiled, m) > 0.0 <==> Hits(compiled, m, false) > Hits(compiled, m, true)
    ensures Signed(compiled, m) < 0.0 <==> Hits(compiled, m, false) < Hits(compiled, m, true)
    ensures Signed(compiled, m) == 1.0 <==>
              compiled != [] &&
              forall i :: 0 <= i < |compiled| ==> Fires(compiled[i].test, m) && compiled[i].action != "SELL"
  {
    hide Fires, Ratio;
    HitsTogether(compiled, m);
    var d := if |compiled| == 0 then 1 else |compiled|;
    RatioBounds(Hits(compiled, m, false) - Hits(compiled, m, true), d);
    AllHit(compiled, m);
  }

  function Swapped(compiled: seq<Compiled>): (r: seq<Compiled>)
    ensures |r| == |compiled|
  {
    seq(|compiled|, i requires 0 <= i < |compiled| =>
      Compiled(if compiled[i].action == "SELL" then "BUY" else "SELL", compiled[i].test))
  }

  lemma {:induction false} RatioNegates(n: int, d: nat)
    requires d > 0
    ensures Ratio(-n, d) == -Ratio(n, d)
  {
  }

  lemma {:induction false} SwappedHits(compiled: seq<Compiled>, m: Market, sell: bool)
    ensures Hits(Swapped(compiled), m, sell) == Hits(compiled, m, !sell)
  {
    hide Fires;
    if compiled != [] {
      SwappedHits(compiled[..|compiled| - 1], m, sell);
      assert Swapped(compiled)[..|compiled| - 1] == Swapped(compiled[..|compiled| - 1]);
    }
  }

  /** Exchanging buying and selling turns the strength around. */
  lemma {:induction false} SwappedRulesNegate(compiled: seq<Compiled>, m: Market)
    ensures Signed(Swapped(compiled), m) == -Signed(compiled, m)
  {
    hide Fires, Hits, Ratio, Swapped;
    SwappedHits(compiled, m, true);
    SwappedHits(compiled, m, false);
    RatioNegates(Hits(compiled, m, false) - Hits(compiled, m, true), if |compiled| == 0 then 1 else |compiled|);
  }

  // ---- Validation against compilation ----

  predicate IsCompilable(rule: Rule) {
    && rule.indicator != ""
    && rule.condition != ""
    && rule.action.Some? && Upper(rule.action.value) in {"BUY", "SELL"}
    && CompileTest(rule).Some?
  }

  lemma {:induction false} ValidRulesAllCompile(rules: seq<Rule>)
    requires forall i :: 0 <= i < |rules| ==> IsCompilable(rules[i])
    ensures |Compile(rules)| == |rules|
  {
    hide CompileTest, HasKeyword;
    if rules != [] {
      ValidRulesAllCompile(rules[..|rules| - 1]);
    }
  }

  method ValidateSignalRules(rules: seq<Rule>) returns (compiledCount: nat, invalid: seq<nat>)
    ensures compiledCount + |invalid| == |rules|
    ensures forall i :: 0 <= i < |rules| && !IsCompilable(rules[i]) ==> i in invalid
    ensures forall i :: i in invalid ==> i < |rules| && !IsCompilable(rules[i])
    ensures invalid == [] ==> |Compile(rules)| == |rules|
  {
    hide IsCompilable;
    compiledCount, invalid := 0, [];
    for k := 0 to |rules|
      invariant compiledCount + |invalid| == k
      invariant forall i :: 0 <= i < k && !IsCompilable(rules[i]) ==> i in invalid
      invariant forall i :: i in invalid ==> i < k && !IsCompilable(rules[i])
    {
      if IsCompilable(rules[k]) {
        compiledCount := compiledCount + 1;
      } else {
        invalid := invalid + [k];
      }
    }
    if invalid == [] {
      ValidRulesAllCompile(rules);
    }
  }

  lemma {:induction false} EmptyContainsNothing()
    ensures forall k: string :: k != "" ==> !Contains("", k)
  {
  }

  /** Validation and the engine part only over the action: an unknown one, or none, is
      refused by validation and buys in the engine. */
  lemma {:induction false} ValidExactlyWhen(rule: Rule)
    ensures IsCompilable(rule)
       <==> |CompileRule(rule)| == 1 && rule.action.Some? && CompileRule(rule)[0].action in {"BUY", "SELL"}
  {
    if rule.condition == "" {
      EmptyContainsNothing();
    }
  }
}
