/** From the text of a rule to what it makes of a market: when each kind of rule fires, and that
    the strength of a strategy is the average of its rules. */
module RuleMeanings {
  import opened Reals
  import opened Text
  import opened RuleEngine

  predicate StandsAt(text: string, word: string, i: nat) {
    i + |word| <= |text| && text[i..i + |word|] == word
  }

  /** The word stands somewhere in the text. */
  ghost predicate Mentions(text: string, word: string) {
    exists i :: StandsAt(text, word, i)
  }

  lemma {:induction false} StandsInTail(text: string, word: string, i: nat)
    requires text != ""
    ensures StandsAt(text[1..], word, i) == StandsAt(text, word, i + 1)
  {
    if i + 1 + |word| <= |text| {
      assert text[1..][i..i + |word|] == text[i + 1..i + 1 + |word|];
    }
  }

  lemma {:induction false} ContainsExactlyWhen(text: string, word: string)
    ensures RuleEngine.Contains(text, word) <==> Mentions(text, word)
  {
    if text != "" {
      ContainsExactlyWhen(text[1..], word);
    }
    assert |word| <= |text| ==> text[..|word|] == text[0..0 + |word|];
    if i: nat :| StandsAt(text, word, i) {
      if i > 0 {
        StandsInTail(text, word, i - 1);
      }
    }
    if RuleEngine.Contains(text, word) {
      if text[..|word|] == word {
        assert StandsAt(text, word, 0);
      } else {
        var j: nat :| StandsAt(text[1..], word, j);
        StandsInTail(text, word, j);
      }
    }
  }

  lemma {:induction false} KeywordExactlyWhen(text: string, words: seq<string>)
    ensures HasKeyword(text, words) <==> exists w :: w in words && Mentions(text, w)
  {
    hide Mentions, RuleEngine.Contains;
    forall w ensures RuleEngine.Contains(text, w) <==> Mentions(text, w) {
      ContainsExactlyWhen(text, w);
    }
    if i :| 0 <= i < |words| && RuleEngine.Contains(text, words[i]) {
      assert words[i] in words;
    }
    if w :| w in words && Mentions(text, w) {
      var i :| 0 <= i < |words| && words[i] == w;
      assert RuleEngine.Contains(text, words[i]);
    }
  }

  // ---- One rule ----

  /** The strength of a strategy of this rule alone. */
  function Strength(rule: Rule, m: Market): real {
    Signed(Compile([rule]), m)
  }

  /** What a hit of the rule counts: -1 if its action is to sell, 1 for any other and for none. */
  function SideOf(rule: Rule): real {
    if rule.action.Some? && Upper(rule.action.value) == "SELL" then -1.0 else 1.0
  }

  lemma {:induction false} CompileAlone(rule: Rule)
    ensures Compile([rule]) == CompileRule(rule)
  {
    hide CompileRule;
    var rules := [rule];
    assert rules[..0] == [];
  }

  lemma {:induction false} HitsAlone(test: Compiled, m: Market, sell: bool)
    ensures Hits([test], m, sell) == if Fires(test.test, m) && (test.action == "SELL") == sell then 1 else 0
  {
    hide Fires;
    var compiled := [test];
    assert compiled[..0] == [];
  }

  lemma {:induction false} UnitRatios()
    ensures Ratio(0, 1) == 0.0 && Ratio(1, 1) == 1.0 && Ratio(-1, 1) == -1.0
  {
  }

  lemma {:induction false} BuyIsNotSell()
    ensures Upper("BUY") != "SELL"
  {
    assert Upper("BUY")[0] == 'B';
  }

  lemma {:induction false} StrengthAlone(rule: Rule, m: Market)
    ensures Strength(rule, m)
         == if CompileTest(rule).Some? && Fires(CompileTest(rule).value, m) then SideOf(rule) else 0.0
  {
    CompileAlone(rule);
    UnitRatios();
    BuyIsNotSell();
    hide Fires, CompileTest, Ratio, Upper, Compile;
    if CompileTest(rule).Some? {
      HitsAlone(CompileRule(rule)[0], m, true);
      HitsAlone(CompileRule(rule)[0], m, false);
    }
    hide Hits;
  }

  ghost predicate MentionsAny(text: string, words: seq<string>) {
    exists w :: w in words && Mentions(text, w)
  }

  /** An RSI rule whose condition speaks of below, less or < counts exactly while RSI is below
      its threshold; one that only speaks of above, greater or >, while RSI is above it. */
  lemma {:induction false} RsiRules(rule: Rule, m: Market)
    requires Upper(rule.indicator) == "RSI"
    ensures var condition := Lower(rule.condition);
            Strength(rule, m) ==
              if MentionsAny(condition, ["below", "less", "低于", "<"]) then (if m.rsi < rule.threshold then SideOf(rule) else 0.0)
              else if MentionsAny(condition, ["above", "greater", "高于", ">"]) && rule.threshold < m.rsi then SideOf(rule)
              else 0.0
  {
    StrengthAlone(rule, m);
    KeywordExactlyWhen(Lower(rule.condition), ["below", "less", "低于", "<"]);
    KeywordExactlyWhen(Lower(rule.condition), ["above", "greater", "高于", ">"]);
    hide Strength, HasKeyword, Mentions, Upper, Lower, SideOf;
  }

  /** A PRICE rule looks for above first. */
  lemma {:induction false} PriceRules(rule: Rule, m: Market)
    requires Upper(rule.indicator) == "PRICE"
    ensures var condition := Lower(rule.condition);
            Strength(rule, m) ==
              if MentionsAny(condition, ["above", ">"]) then (if rule.threshold < m.price then SideOf(rule) else 0.0)
              else if MentionsAny(condition, ["below", "<"]) then (if m.price < rule.threshold then SideOf(rule) else 0.0)
              else 0.0
  {
    StrengthAlone(rule, m);
    KeywordExactlyWhen(Lower(rule.condition), ["above", ">"]);
    KeywordExactlyWhen(Lower(rule.condition), ["below", "<"]);
    hide Strength, HasKeyword, Mentions, Upper, Lower, SideOf;
  }

  /** A moving-average rule counts on the tick in which the price passes the average: it was on
      the other side or on it before, by the averages of the two ticks.  The threshold plays
      no part. */
  lemma {:induction false} CrossRules(rule: Rule, m: Market)
    requires Upper(rule.indicator) == "MA" || Upper(rule.indicator) == "MA20"
    ensures var condition := Lower(rule.condition);
            Strength(rule, m) ==
              if condition == "cross_above" || condition == "上穿" || condition == "golden_cross" then
                (if m.prevPrice - m.prevMa20 <= 0.0 < m.price - m.ma20 then SideOf(rule) else 0.0)
              else if condition == "cross_below" || condition == "下穿" || condition == "death_cross" then
                (if m.price - m.ma20 < 0.0 <= m.prevPrice - m.prevMa20 then SideOf(rule) else 0.0)
              else 0.0
  {
    StrengthAlone(rule, m);
    hide Strength, HasKeyword, Upper, Lower, SideOf;
  }

  /** A MACD rule reads the signal's text; each condition has four texts of its own. */
  lemma {:induction false} MacdRules(rule: Rule, m: Market)
    requires Upper(rule.indicator) == "MACD"
    ensures var condition := Lower(rule.condition);
            Strength(rule, m) ==
              if condition == "golden_cross" || condition == "金叉" || condition == "bullish" then
                (if m.macd == "golden_cross" || m.macd == "bullish" || m.macd == "true" || m.macd == "1" then SideOf(rule) else 0.0)
              else if condition == "death_cross" || condition == "死叉" || condition == "bearish" then
                (if m.macd == "death_cross" || m.macd == "bearish" || m.macd == "false" || m.macd == "0" then SideOf(rule) else 0.0)
              else 0.0
  {
    StrengthAlone(rule, m);
    hide Strength, HasKeyword, Upper, Lower, SideOf;
  }

  /** A rule on any other indicator counts nothing, ever. */
  lemma {:induction false} OtherRules(rule: Rule, m: Market)
    requires Upper(rule.indicator) !in {"RSI", "PRICE", "MA", "MA20", "MACD"}
    ensures Strength(rule, m) == 0.0 && Compile([rule]) == []
  {
    StrengthAlone(rule, m);
    CompileAlone(rule);
    hide Strength, Upper, Lower, Compile;
  }

  // ---- Many rules ----

  function SumOfStrengths(rules: seq<Rule>, m: Market): real {
    if rules == [] then 0.0 else SumOfStrengths(rules[..|rules| - 1], m) + Strength(rules[|rules| - 1], m)
  }

  lemma {:induction false} MoreHits(compiled: seq<Compiled>, test: Compiled, m: Market, sell: bool)
    ensures Hits(compiled + [test], m, sell) == Hits(compiled, m, sell) + Hits([test], m, sell)
  {
    HitsAlone(test, m, sell);
    assert (compiled + [test])[..|compiled|] == compiled;
  }

  lemma {:induction false} NoHits(m: Market, sell: bool)
    ensures Hits([], m, sell) == 0
  {
  }

  lemma {:induction false} RatioOfOne(n: int)
    ensures Ratio(n, 1) == n as real
  {
  }

  lemma {:induction false} StrengthIsDifference(rule: Rule, m: Market)
    ensures Strength(rule, m) == (Hits(CompileRule(rule), m, false) - Hits(CompileRule(rule), m, true)) as real
  {
    CompileAlone(rule);
    RatioOfOne(Hits(CompileRule(rule), m, false) - Hits(CompileRule(rule), m, true));
    hide Hits, Compile, Ratio;
  }

  lemma {:induction false} DifferenceIsSum(rules: seq<Rule>, m: Market)
    ensures (Hits(Compile(rules), m, false) - Hits(Compile(rules), m, true)) as real == SumOfStrengths(rules, m)
  {
    if rules == [] {
      NoHits(m, false);
      NoHits(m, true);
    } else {
      var front, last := rules[..|rules| - 1], rules[|rules| - 1];
      DifferenceIsSum(front, m);
      StrengthIsDifference(last, m);
      hide Hits, Strength;
      if CompileRule(last) == [] {
        assert Compile(front) + [] == Compile(front);
        NoHits(m, false);
        NoHits(m, true);
      } else {
        MoreHits(Compile(front), CompileRule(last)[0], m, false);
        MoreHits(Compile(front), CompileRule(last)[0], m, true);
      }
    }
  }

  /** The strength of a strategy is the average of its rules' strengths over those that
      compile: together with the laws above, what any strategy makes of any market. */
  lemma {:induction false} StrengthIsAverage(rules: seq<Rule>, m: Market)
    ensures var signed, n := Signed(Compile(rules), m), |Compile(rules)|;
            if n == 0 then signed == 0.0 else Times(signed, n as real) == SumOfStrengths(rules, m)
  {
    DifferenceIsSum(rules, m);
    NoHits(m, false);
    NoHits(m, true);
    hide Hits, Compile, SumOfStrengths;
    var n := |Compile(rules)|;
    ZeroRatio(1);
    if n > 0 {
      RatioTimes(Hits(Compile(rules), m, false) - Hits(Compile(rules), m, true), n);
    }
    hide Ratio, Times;
  }
}
