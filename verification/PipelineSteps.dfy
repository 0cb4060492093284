/** What each step of the pipeline means in the numbers of its inputs: when intuition
    strikes, how far the noise reaches, what experience, environment, crowd and mood add. */
module PipelineSteps {
  import opened Text
  import opened Reals
  import opened Pipeline
  import Emotion
  import RuleEngine

  function SignalOf(rules: Rules, m: RuleEngine.Market): real { RuleEngine.Signed(RuleEngine.Compile(rules), m) }

  // ---- Steps 1 and 2 ----

  /** A signal needs no intuition. The trend follower gains a fifth on a purchase, up to 1,
      and loses one on a sale; the rest, the contrarian apart, take the signal as it is. */
  lemma {:induction false} TrendFollowersLean(m: RuleEngine.Market, t: Traits, s: Strategy, d: Draws)
    requires SignalOf(s.rules, m) != 0.0 && s.philosophy != Contrarian
    ensures var (x, (raw, direction)) := (SignalOf(s.rules, m), Step1(m, t, s, d));
            && (direction == 1 <==> x > 0.0) && (direction == -1 <==> x < 0.0)
            && (s.philosophy != TrendFollowing ==> raw == Abs(x))
            && (s.philosophy == TrendFollowing && x < 0.0 ==> 5.0 * raw == -4.0 * x)
            && (s.philosophy == TrendFollowing && x > 0.0 ==> (raw == 1.0 <==> x >= 5.0 / 6.0) && (raw < 1.0 ==> 5.0 * raw == 6.0 * x))
  {
    RuleEngine.SignedStrength(RuleEngine.Compile(s.rules), m);
    hide IntuitionWeight, RuleEngine.Signed, RuleEngine.Compile, RuleEngine.Hits;
  }

  /** The contrarian is the trend follower seen in a mirror: on the opposite signal they
      agree on the strength and trade opposite sides. */
  lemma {:induction false} ContrarianMirrorsTrend(m: RuleEngine.Market, t: Traits, s: Strategy, opposite: Rules, d: Draws)
    requires s.philosophy == TrendFollowing
    requires SignalOf(opposite, m) == -SignalOf(s.rules, m) != 0.0
    ensures var (raw, direction) := Step1(m, t, s, d);
            Step1(m, t, s.(rules := opposite, philosophy := Contrarian), d) == (raw, -direction)
  {
    hide IntuitionWeight, RuleEngine.Signed, RuleEngine.Compile;
  }

  /** How likely intuition strikes. */
  function Chance(t: Traits, s: Strategy): real {
    ((t.intuition + t.experienceLevel) * s.proficiency * (if s.philosophy == Intuitive then 3 else 2)) as real / 40000.0
  }

  lemma {:induction false} WeightIsChance(t: Traits, s: Strategy)
    ensures IntuitionWeight(t, s) == Chance(t, s)
  {
    var sum := t.intuition + t.experienceLevel;
    assert (t.intuition as real / 200.0 + t.experienceLevel as real / 200.0) == sum as real / 200.0;
    assert (sum * s.proficiency) as real == sum as real * s.proficiency as real;
  }

  lemma {:induction false} ChanceNonNegative(t: Traits, s: Strategy)
    requires ValidTraits(t) && s.proficiency >= 0
    ensures Chance(t, s) >= 0.0
  {
    assert (t.intuition + t.experienceLevel) * s.proficiency >= 0;
  }

  /** Without a signal it is intuition, the experience and the proficiency that may strike,
      half as often again for the intuitive; a coin says which way. */
  lemma {:induction false} IntuitionStrikesExactlyWhen(m: RuleEngine.Market, t: Traits, s: Strategy, d: Draws)
    requires SignalOf(s.rules, m) == 0.0 && ValidTraits(t) && s.proficiency >= 0
    ensures var (strikes, (raw, direction)) := (t.intuition > 0 && d.chance < Chance(t, s), Step1(m, t, s, d));
            && raw == (if strikes then Min(1.0, Chance(t, s)) else 0.0)
            && (direction == 1 <==> strikes && d.coin > 0.5) && (direction == -1 <==> strikes && d.coin <= 0.5)
            && (direction == 0 <==> !strikes)
  {
    WeightIsChance(t, s);
    ChanceNonNegative(t, s);
    assert Leaned(0.0, 0, s.philosophy) == 0.0;
    hide IntuitionWeight, Chance, Leaned, ValidTraits, RuleEngine.Signed, RuleEngine.Compile;
  }

  /** The share of the signal that a draw of noise adds. */
  function Share(width: real, boldness: int, noise: real): real {
    Times(-width + 2.0 * Times(width, noise), boldness as real / 100.0)
  }

  /** The most that noise of a width adds to a signal or takes from it. */
  function Reach(width: real, boldness: int, raw: real): real {
    Times(raw, Times(width, boldness as real / 100.0))
  }

  lemma {:induction false} ShareWithin(width: real, boldness: int, noise: real)
    requires 0.0 <= width <= 1.0 && Percent(boldness) && 0.0 <= noise <= 1.0
    ensures var most := Times(width, boldness as real / 100.0);
            && 0.0 <= most <= 1.0 && -most <= Share(width, boldness, noise) <= most
            && (noise == 0.0 ==> Share(width, boldness, noise) == -most) && (noise == 1.0 ==> Share(width, boldness, noise) == most)
            && (width == 0.0 || boldness == 0 || noise == 0.5 ==> Share(width, boldness, noise) == 0.0)
  {
    var k := boldness as real / 100.0;
    assert Times(width, 1.0) == width && Times(width, 0.5) == 0.5 * width;
    hide Times;
    Larger(width, noise, 1.0);
    TimesNonNegative(width, noise);
    Larger(width, k, 1.0);
    TimesNonNegative(width, k);
    var n := -width + 2.0 * Times(width, noise);
    Ordered(n, width, k);
    Ordered(-width, n, k);
    TimesSplits(width, 0.0, k);
    ZeroTimes(k);
    ZeroTimes(width);
    ZeroTimes(noise);
    ZeroTimes(n);
  }

  lemma {:induction false} ChangeWithin(width: real, boldness: int, noise: real, raw: real)
    requires 0.0 <= width <= 1.0 && Percent(boldness) && 0.0 <= noise <= 1.0 && 0.0 <= raw <= 1.0
    ensures var (change, reach) := (Times(raw, Share(width, boldness, noise)), Reach(width, boldness, raw));
            && 0.0 <= reach <= raw && -reach <= change <= reach
            && (noise == 0.0 ==> change == -reach) && (noise == 1.0 ==> change == reach)
            && (width == 0.0 || boldness == 0 || noise == 0.5 ==> change == 0.0)
  {
    ShareWithin(width, boldness, noise);
    var g, most := Share(width, boldness, noise), Times(width, boldness as real / 100.0);
    assert Times(raw, 1.0) == raw;
    hide Times, Share;
    Larger(raw, g, most);
    Larger(raw, -most, g);
    Negates(raw, most);
    Larger(raw, most, 1.0);
    TimesNonNegative(raw, most);
    ZeroTimes(raw);
  }

  lemma {:induction false} OneMore(raw: real, share: real)
    ensures raw * (1.0 + share) == raw + Times(raw, share)
  {
  }

  lemma {:induction false} Doubled(x: real, y: real)
    ensures 2.0 * x * y == 2.0 * Times(x, y)
  {
  }

  lemma {:induction false} ChangeIs(raw: real, width: real, boldness: int, noise: real)
    ensures raw * (1.0 + (-width + 2.0 * width * noise) * (boldness as real / 100.0)) == raw + Times(raw, Share(width, boldness, noise))
  {
    Doubled(width, noise);
    var n, k := -width + 2.0 * width * noise, boldness as real / 100.0;
    assert Share(width, boldness, noise) == Times(n, k) by { hide Times; }
    assert Times(n, k) == n * k;
    OneMore(raw, Share(width, boldness, noise));
    hide Share, Times;
  }

  lemma {:induction false} HeardIs(raw: real, t: Traits, s: Strategy, d: Draws)
    ensures Step2(raw, t, s, d) == Clamp01(raw + Times(raw, Share(NoiseWidth(s.proficiency), t.boldness, d.noise)))
  {
    ChangeIs(raw, NoiseWidth(s.proficiency), t.boldness, d.noise);
    hide Clamp01, NoiseWidth, Share, Times;
  }

  /** Noise moves the signal by a share of itself, the more the bolder the panda: up to
      30%, 15% or 5% by proficiency. The ends are reached, the middle changes nothing,
      and from a proficiency of 80 on the signal is heard as it is. */
  lemma {:induction false} NoiseReaches(raw: real, t: Traits, s: Strategy, d: Draws)
    requires 0.0 <= raw <= 1.0 && Percent(t.boldness) && 0.0 <= d.noise <= 1.0
    ensures var width := if s.proficiency < 20 then 0.30 else if s.proficiency < 50 then 0.15 else if s.proficiency < 80 then 0.05 else 0.0;
            var (heard, reach) := (Step2(raw, t, s, d), Reach(width, t.boldness, raw));
            && (s.proficiency >= 80 || t.boldness == 0 || d.noise == 0.5 ==> heard == raw)
            && raw - reach <= heard <= Min(1.0, raw + reach)
            && (d.noise == 0.0 ==> heard == raw - reach)
            && (d.noise == 1.0 ==> heard == Min(1.0, raw + reach))
  {
    ChangeWithin(NoiseWidth(s.proficiency), t.boldness, d.noise, raw);
    HeardIs(raw, t, s, d);
    hide Times, Share, Step2, Reach;
  }

  // ---- Step 3 ----

  /** Every part of the experience counts for itself; a stranger's counts nothing. A pattern
      counts from its fifth occurrence, a phase from its 11th day and double from its 31st. */
  lemma {:induction false} ExperienceAdds(e: Experience, memories: seq<SkillMemory>, pair: string, regime: string)
    ensures Correction(Experience(None, 50.0, 0.0, 0), [], pair, regime) == 0.0
    ensures var all := Correction(e, memories, pair, regime);
            && all - Correction(e.(mastery := 50.0), memories, pair, regime) == (e.mastery - 50.0) / 200.0
            && all - Correction(e.(vigilance := 0.0), memories, pair, regime) == -e.vigilance / 10.0
            && all - Correction(e.(pattern := None), memories, pair, regime)
               == (if e.pattern.Some? && e.pattern.value.occurrences >= 5 then (2.0 * e.pattern.value.winRate - 1.0) / 10.0 else 0.0)
            && all - Correction(e.(cycleDays := 0), memories, pair, regime)
               == (if e.cycleDays <= 10 then 0.0 else if e.cycleDays <= 30 then 0.10 else 0.20)
            && all - Correction(e, [], pair, regime) == SkillCorrection(memories, pair, regime)
  {
    assert Boost([], pair, regime) == 0.0;
    hide Boost;
  }

  /** When a memory is recalled: it is trusted and neither its pair nor its regime, where
      both sides name one, is another; a recalled one adds at most 0.05. */
  lemma {:induction false} RecalledExactlyWhen(mem: SkillMemory, pair: string, regime: string)
    ensures SkillCorrection([mem], pair, regime) > 0.0
       <==> && mem.confidence > 0.0
            && (mem.pair == "" || pair == "" || Upper(mem.pair) == Upper(pair))
            && (mem.regime == "" || mem.regime == regime)
    ensures SkillCorrection([mem], pair, regime) > 0.0 && mem.confidence <= 0.625
         ==> SkillCorrection([mem], pair, regime) == 0.08 * mem.confidence
    ensures SkillCorrection([mem], pair, regime) > 0.0 && mem.confidence >= 0.625 ==> SkillCorrection([mem], pair, regime) == 0.05
  {
    assert [mem][..0] == [];
    assert Boost([], pair, regime) == 0.0;
  }

  lemma {:induction false} BoostsAdd(a: seq<SkillMemory>, b: seq<SkillMemory>, pair: string, regime: string)
    ensures Boost(a + b, pair, regime) == Boost(a, pair, regime) + Boost(b, pair, regime)
  {
    hide Recalled, Min;
    if b == [] {
      assert a + b == a;
    } else {
      assert (a + b)[..|a + b| - 1] == a + b[..|b| - 1];
      BoostsAdd(a, b[..|b| - 1], pair, regime);
    }
  }

  /** Memories add up to 0.12, whatever their order. */
  lemma {:induction false} MemoriesAdd(a: seq<SkillMemory>, b: seq<SkillMemory>, pair: string, regime: string)
    ensures SkillCorrection(a + b, pair, regime)
         == Min(0.12, SkillCorrection(a, pair, regime) + SkillCorrection(b, pair, regime))
    ensures SkillCorrection(a + b, pair, regime) == SkillCorrection(b + a, pair, regime)
  {
    BoostsAdd(a, b, pair, regime);
    BoostsAdd(b, a, pair, regime);
    hide Boost;
  }

  // ---- Step 4 ----

  /** The longer a panda has traded the less the signal and the more the experience count. */
  lemma {:induction false} ExperienceWeighs(i: Inputs)
    requires i.ghostStrategy == None
    ensures var (s, level) := (Decide(i).scores, i.traits.experienceLevel);
            && (level < 25 ==> 20.0 * s.fuse == 11.0 * s.prof + 2.0 * s.exp)
            && (25 <= level < 65 ==> 10.0 * s.fuse == 5.0 * s.prof + 2.0 * s.exp)
            && (level >= 65 ==> 10.0 * s.fuse == 3.0 * s.prof + 5.0 * s.exp)
  {
    hide Step1, Step2, StepExp, Step5, Step6, Step7, Times, Dampen, ProfileOf, BaseThreshold, Determine;
  }

  lemma {:induction false} FuseIs(i: Inputs)
    ensures var (s, s') := (Decide(i).scores, Decide(i.(ghostStrategy := None)).scores);
            && s.fuse == Step4(s.prof, s.exp, i.traits.experienceLevel, i.ghostWeight, i.ghostStrategy, i.market.signals)
            && s'.prof == s.prof && s'.exp == s.exp
  {
    hide Step1, Step2, Step4, Correction, Step5, Step6, Step7, Times, Dampen, ProfileOf, BaseThreshold, Determine;
  }

  lemma {:induction false} BlendPulls(x: real, y: real, w: real)
    ensures Blend(x, y, w) - x == Times(w, y - x)
  {
  }

  /** A ghost pulls the score towards its own signal, whichever way that points, by its
      weight, at most half of the way; one without weight or strategy does nothing. */
  lemma {:induction false} GhostsPull(i: Inputs)
    ensures var (own, fuse) := (Decide(i.(ghostStrategy := None)).scores.fuse, Decide(i).scores.fuse);
            if i.ghostStrategy.Some? && i.ghostStrategy.value.Json? && i.ghostWeight > 0.0 then
              fuse - own == Times(Min(i.ghostWeight, 0.50), Abs(SignalOf(i.ghostStrategy.value.rules, i.market.signals)) - own)
            else fuse == own
  {
    FuseIs(i);
    FuseIs(i.(ghostStrategy := None));
    hide Decide, Times, Blend, Fused, RuleEngine.Signed, RuleEngine.Compile, Abs;
    if Blends(i.ghostWeight, i.ghostStrategy) {
      BlendPulls(Decide(i.(ghostStrategy := None)).scores.fuse,
                 Abs(SignalOf(i.ghostStrategy.value.rules, i.market.signals)), Min(i.ghostWeight, 0.50));
    }
  }

  // ---- Step 6 ----

  /** The share of the score that the environment leaves. */
  function Left(t: Traits, p: Philosophy, m: Market, positions: seq<Position>): real {
    Step6(1.0, t, p, m, positions)
  }

  ghost predicate HoldsAnother(positions: seq<Position>, asset: string) {
    exists p :: p in positions && p.asset != asset && p.quantity > 0.0
  }

  lemma {:induction false} LeftIsProduct(t: Traits, p: Philosophy, m: Market, positions: seq<Position>)
    ensures Left(t, p, m, positions)
         == EnvFactor(t.experienceLevel, p, m) * MarketMatch(p, m.regime)
            * (if t.experienceLevel >= 50 && HoldsAnother(positions, m.asset) then 0.5 else 1.0)
  {
    if i :| 0 <= i < |positions| && Other(positions[i], m.asset) {
      assert positions[i] in positions;
    }
    hide EnvFactor, MarketMatch;
  }

  /** A novice keeps the match of market and philosophy, less 30% unless it is full and 30%
      more in a regime without a rise. */
  lemma {:induction false} NovicesLose(t: Traits, p: Philosophy, m: Market, positions: seq<Position>)
    requires t.experienceLevel < 25
    ensures Left(t, p, m, positions)
         == (if m.regime == "bear" || m.regime == "sideways" || m.regime == "ranging" then 7.0 else 10.0)
            * (if MarketMatch(p, m.regime) == 1.0 then 10.0 else 7.0) * MarketMatch(p, m.regime) / 100.0
  {
    LeftIsProduct(t, p, m, positions);
    EachHasItsRegime(p, m.regime);
    hide MarketMatch, Left;
  }

  /** The next level loses for the match alike, and 15% where no trend is. */
  lemma {:induction false} ApprenticesLose(t: Traits, p: Philosophy, m: Market, positions: seq<Position>)
    requires 25 <= t.experienceLevel < 50
    ensures Left(t, p, m, positions)
         == (if m.trendStrength < 0.3 then 8.5 else 10.0)
            * (if MarketMatch(p, m.regime) == 1.0 then 10.0 else 7.0) * MarketMatch(p, m.regime) / 100.0
  {
    LeftIsProduct(t, p, m, positions);
    EachHasItsRegime(p, m.regime);
    hide MarketMatch, Left;
  }

  /** From level 50 on only the match counts, and half of it when another asset is held. */
  lemma {:induction false} VeteransSee(t: Traits, p: Philosophy, m: Market, positions: seq<Position>)
    requires t.experienceLevel >= 50
    ensures Left(t, p, m, positions) == MarketMatch(p, m.regime) * (if HoldsAnother(positions, m.asset) then 0.5 else 1.0)
  {
    LeftIsProduct(t, p, m, positions);
    hide MarketMatch, Left;
  }

  lemma {:induction false} EnvironmentFactors(pers: real, t: Traits, p: Philosophy, m: Market, positions: seq<Position>)
    ensures Step6(pers, t, p, m, positions) == Times(pers, Left(t, p, m, positions))
  {
    hide EnvFactor, MarketMatch, CorrelationPenalty;
    var e, w, c := EnvFactor(t.experienceLevel, p, m), MarketMatch(p, m.regime),
                   CorrelationPenalty(t.experienceLevel, m.asset, positions);
    assert Times(1.0, e) == e;
    hide Times;
    TimesGroups(pers, e, w);
    TimesGroups(pers, Times(e, w), c);
  }

  /** What the environment leaves of any score, and when that is all of it. */
  lemma {:induction false} EnvironmentLeaves(i: Inputs)
    ensures var left := Left(i.traits, i.strategy.philosophy, i.market, i.positions);
            && Decide(i).scores.env == Times(Decide(i).scores.pers, left)
            && 0.0 < left <= 1.0
            && (left == 1.0
                <==> && (match i.strategy.philosophy
                         case TrendFollowing => i.market.regime == "bull"
                         case Contrarian => i.market.regime == "bear" && i.traits.experienceLevel >= 25
                         case Grid => i.market.regime == "ranging" && i.traits.experienceLevel >= 25
                         case _ => false)
                     && (25 <= i.traits.experienceLevel < 50 ==> i.market.trendStrength >= 0.3)
                     && (i.traits.experienceLevel >= 50 ==> !HoldsAnother(i.positions, i.market.asset)))
  {
    var t, p, m := i.traits, i.strategy.philosophy, i.market;
    EnvironmentFactors(Decide(i).scores.pers, t, p, m, i.positions);
    EachHasItsRegime(p, m.regime);
    hide Step1, Step2, Step4, StepExp, Step5, Step6, Step7, Times, Dampen, ProfileOf, BaseThreshold, Determine, MarketMatch, Left,
         HoldsAnother;
    if t.experienceLevel < 25 {
      NovicesLose(t, p, m, i.positions);
    } else if t.experienceLevel < 50 {
      ApprenticesLose(t, p, m, i.positions);
    } else {
      VeteransSee(t, p, m, i.positions);
    }
  }

  // ---- Step 7 ----

  /** Followers and contrarians mirror one another. */
  lemma {:induction false} CrowdMirror(contrarian: int, signal: real)
    ensures Bias(100 - contrarian, signal) == -Bias(contrarian, signal)
  {
    TimesSplits((contrarian - 50) as real / 100.0, 0.0, signal);
    assert (100 - contrarian - 50) as real / 100.0 == -((contrarian - 50) as real / 100.0);
    hide Times;
  }

  /** On a falling crowd every point of contrariness beyond 50 adds a hundredth of what
      the crowd sells. On a rising one it takes as much, but followers below 30 gain 0.15
      and contrarians above 70 lose it. */
  lemma {:induction false} CrowdPulls(contrarian: int, signal: real)
    requires Percent(contrarian)
    ensures signal <= 0.0 ==> Times(100.0, Bias(contrarian, signal)) == Times((50 - contrarian) as real, -signal)
    ensures signal > 0.0 ==>
              (Times(100.0, Bias(contrarian, signal)) ==
               Times((contrarian - 50) as real, signal) + (if contrarian < 30 then 15.0 else if contrarian <= 70 then 0.0 else -15.0))
    ensures signal > 0.0 && contrarian < 50 ==>
              (Bias(contrarian, signal) > 0.0 <==> contrarian < 30 && Times((50 - contrarian) as real, signal) < 15.0)
  {
    var x := (contrarian - 50) as real;
    assert Times(100.0, Times(x / 100.0, signal)) == Times(x, signal);
    assert Times(-x, -signal) == Times(x, signal) && Times(-x, signal) == -Times(x, signal);
    if signal > 0.0 && contrarian < 50 {
      assert Times(x, signal) < 0.0 by { SignOfTimes(signal, x); }
    }
    assert Times(100.0, Bias(contrarian, signal)) == 100.0 * Bias(contrarian, signal);
    assert Times(100.0, Times(x / 100.0, signal)) == 100.0 * Times(x / 100.0, signal);
    hide Times;
  }

  // ---- Step 8 ----

  lemma {:induction false} SameIntuition(t: Traits, t': Traits, s: Strategy)
    requires t.intuition == t'.intuition && t.experienceLevel == t'.experienceLevel
    ensures IntuitionWeight(t, s) == IntuitionWeight(t', s)
  {
  }

  lemma {:induction false} SameNoise(raw: real, t: Traits, t': Traits, s: Strategy, d: Draws)
    requires t.boldness == t'.boldness
    ensures Step2(raw, t, s, d) == Step2(raw, t', s, d)
  {
    hide Clamp01, NoiseWidth;
  }

  /** A trait that only steadies or delays plays no part in the score. */
  lemma {:induction false} SameSteps(i: Inputs, t: Traits, s: Scores)
    requires t.(patience := i.traits.patience, emotionStability := i.traits.emotionStability) == i.traits
    ensures var (m, s, d) := (i.market.signals, i.strategy, i.draws); Step1(m, t, s, d) == Step1(m, i.traits, s, d)
    ensures Step2(s.raw, t, i.strategy, i.draws) == Step2(s.raw, i.traits, i.strategy, i.draws)
    ensures Step5(s.fuse, t) == Step5(s.fuse, i.traits)
    ensures Step6(s.pers, t, i.strategy.philosophy, i.market, i.positions)
         == Step6(s.pers, i.traits, i.strategy.philosophy, i.market, i.positions)
  {
    SameIntuition(t, i.traits, i.strategy);
    SameNoise(s.raw, t, i.traits, i.strategy, i.draws);
    hide RuleEngine.Signed, RuleEngine.Compile, Leaned, Times, Clamp01, BoldnessFactor, FocusBonus, EnvFactor,
         MarketMatch, CorrelationPenalty, IntuitionWeight, Abs, Sign, Step2;
  }

  /** Without a stability of its own a panda is as stable as it is patient; with one, its
      patience only delays. */
  lemma {:induction false} PatienceSteadies(i: Inputs, patience: int)
    ensures i.traits.emotionStability.None? ==>
              Decide(i.(traits := i.traits.(emotionStability := Some(i.traits.patience)))) == Decide(i)
    ensures i.traits.emotionStability.Some? ==>
              var r := Decide(i);
              Decide(i.(traits := i.traits.(patience := patience))) == r.(context := r.context.(entryDelay := EntryDelay(patience)))
  {
    SameSteps(i, i.traits.(emotionStability := Some(i.traits.patience)), Decide(i).scores);
    SameSteps(i, i.traits.(patience := patience), Decide(i).scores);
    hide Step1, Step2, Step4, Correction, Step5, Step6, Bias, Times, Dampen, ProfileOf, BaseThreshold, Determine, EntryDelay,
         PositionFactor;
  }

  lemma {:induction false} FullyFelt(raw: real)
    ensures Dampen(raw, 0) == raw
  {
  }

  lemma {:induction false} Felt(x: real, mood: Emotion.Mood)
    ensures var p := ProfileOf(mood);
            (Times(x, p.signal), p.position, p.stoploss, Times(x, p.threshold)) ==
            match mood
            case Focused => (x, 1.0, 1.0, x)
            case Excited => (1.1 * x, 1.2, 1.1, 0.9 * x)
            case Greedy => (1.3 * x, 1.6, 1.4, 0.7 * x)
            case Cautious => (0.85 * x, 0.7, 0.85, 1.2 * x)
            case Panicking => (0.5 * x, 0.3, 0.6, 1.6 * x)
            case Numb => (0.6 * x, 0.5, 1.0, 1.4 * x)
  {
  }

  /** What an unstable panda feels, mood by mood: the factors of score, size, stop loss and
      threshold. */
  lemma {:induction false} UnstablePandaFeels(i: Inputs)
    requires Stability(i.traits) == 0
    ensures var (s, c) := (Decide(i).scores, Decide(i).context);
            (s.final, c.positionMod, c.stoplossMod, c.entryThreshold) ==
            var (x, t) := (s.social, BaseThreshold(i.traits.boldness));
            match i.mood
            case Focused => (x, 1.0, 1.0, t)
            case Excited => (1.1 * x, 1.2, 1.1, 0.9 * t)
            case Greedy => (1.3 * x, 1.6, 1.4, 0.7 * t)
            case Cautious => (0.85 * x, 0.7, 0.85, 1.2 * t)
            case Panicking => (0.5 * x, 0.3, 0.6, 1.6 * t)
            case Numb => (0.6 * x, 0.5, 1.0, 1.4 * t)
  {
    ContextOf(i);
    SameUntilEmotion(i, i.mood);
    var p := ProfileOf(i.mood);
    FullyFelt(p.signal);
    FullyFelt(p.position);
    FullyFelt(p.stoploss);
    FullyFelt(p.threshold);
    Felt(Decide(i).scores.social, i.mood);
    Felt(BaseThreshold(i.traits.boldness), i.mood);
    hide Decide, BaseThreshold, EntryDelay, PositionFactor, Times, Dampen, Stability, ProfileOf;
  }

  lemma {:induction false} TimesLiterals(x: real)
    ensures Times(x, 0.3) == 0.3 * x && Times(x, 0.5) == 0.5 * x && Times(x, 0.6) == 0.6 * x && Times(x, 0.7) == 0.7 * x
    ensures Times(x, 0.85) == 0.85 * x && Times(x, 1.0) == x && Times(x, 1.1) == 1.1 * x && Times(x, 1.2) == 1.2 * x
    ensures Times(x, 1.4) == 1.4 * x && Times(x, 1.6) == 1.6 * x
  {
  }

  /** What it orders: the base size and the stop loss times these factors, within a quarter
      and 3%. A numb panda halves its size and keeps its stop. */
  lemma {:induction false} UnstablePandaOrders(i: Inputs, basePct: real, stopLoss: real)
    requires Stability(i.traits) == 0
    ensures var base := Times(basePct, Decide(i).context.positionFactor);
            PositionSizing(basePct, stopLoss, Decide(i).context) ==
            match i.mood
            case Focused => (Min(0.25, base), Max(0.03, stopLoss))
            case Excited => (Min(0.25, 1.2 * base), Max(0.03, 1.1 * stopLoss))
            case Greedy => (Min(0.25, 1.6 * base), Max(0.03, 1.4 * stopLoss))
            case Cautious => (Min(0.25, 0.7 * base), Max(0.03, 0.85 * stopLoss))
            case Panicking => (Min(0.25, 0.3 * base), Max(0.03, 0.6 * stopLoss))
            case Numb => (Min(0.25, 0.5 * base), Max(0.03, stopLoss))
  {
    UnstablePandaFeels(i);
    var c := Decide(i).context;
    var base := Times(basePct, c.positionFactor);
    TimesLiterals(base);
    TimesLiterals(stopLoss);
    hide Decide, Times, Min, Max, Stability;
  }

  /** Stability takes away its share of whatever a mood adds. */
  lemma {:induction false} StabilityDampens(i: Inputs, stability: int)
    requires Percent(stability)
    ensures var (wild, calm) := (Decide(i.(traits := i.traits.(emotionStability := Some(0)))).context,
                                 Decide(i.(traits := i.traits.(emotionStability := Some(stability)))).context);
            && 100.0 * (calm.positionMod - 1.0) == (100 - stability) as real * (wild.positionMod - 1.0)
            && 100.0 * (calm.stoplossMod - 1.0) == (100 - stability) as real * (wild.stoplossMod - 1.0)
            && 100.0 * (calm.entryThreshold - BaseThreshold(i.traits.boldness))
               == (100 - stability) as real * (wild.entryThreshold - BaseThreshold(i.traits.boldness))
  {
    ContextOf(i.(traits := i.traits.(emotionStability := Some(0))));
    ContextOf(i.(traits := i.traits.(emotionStability := Some(stability))));
    hide Decide, BaseThreshold, EntryDelay, PositionFactor, ProfileOf;
  }

  /** An easier mood never sizes smaller. */
  lemma {:induction false} EasierMoodsSizeNoSmaller(i: Inputs, easier: Emotion.Mood, basePct: real, stopLoss: real)
    requires ValidInputs(i) && Ease(easier) >= Ease(i.mood) && basePct >= 0.0
    ensures PositionSizing(basePct, stopLoss, Decide(i).context).0
         <= PositionSizing(basePct, stopLoss, Decide(i.(mood := easier)).context).0
  {
    var i' := i.(mood := easier);
    ContextOf(i);
    ContextOf(i');
    PipelineBounds(i);
    TraitRanges(i.traits);
    assert ProfileOf(i.mood).position <= ProfileOf(easier).position;
    hide Decide, Times, Dampen, ProfileOf, BaseThreshold, EntryDelay, ScoresBounded, ValidTraits, ValidExperience, ValidDraws, Ease;
    DampenOrdered(ProfileOf(i.mood).position, ProfileOf(easier).position, Stability(i.traits));
    var f := Decide(i).context.positionFactor;
    TimesNonNegative(basePct, f);
    Larger(Times(basePct, f), Decide(i).context.positionMod, Decide(i').context.positionMod);
  }

  lemma {:induction false} FocusedFactors(stability: int)
    ensures var p := ProfileOf(Emotion.Focused);
            && Dampen(p.signal, stability) == 1.0 && Dampen(p.position, stability) == 1.0
            && Dampen(p.stoploss, stability) == 1.0 && Dampen(p.threshold, stability) == 1.0
  {
  }

  /** A focused panda in numbers: the threshold falls with boldness by 0.00325 a point from
      0.8125, and the size rises by a 250th of the base to all of it, within a quarter; the
      stop is the strategy's, but for 3% at least. */
  lemma {:induction false} FocusedPandaTakes(i: Inputs, basePct: real, stopLoss: real)
    requires i.mood == Emotion.Focused
    ensures var (r, b) := (Decide(i), i.traits.boldness as real);
            && r.scores.final == r.scores.social
            && r.context.entryThreshold == 0.8125 - 0.00325 * b
            && PositionSizing(basePct, stopLoss, r.context)
               == (Min(0.25, Times(basePct, 1.0 - (100.0 - b) / 250.0)), Max(0.03, stopLoss))
  {
    ContextOf(i);
    SameUntilEmotion(i, i.mood);
    FocusedFactors(Stability(i.traits));
    assert PositionFactor(i.traits.boldness) == 1.0 - (100.0 - i.traits.boldness as real) / 250.0;
    hide Decide, EntryDelay, PositionFactor, ProfileOf, Dampen;
  }
}
