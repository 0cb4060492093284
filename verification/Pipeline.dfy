/** The eight-step decision pipeline over exact reals, for every outcome of its random
    draws. */
module Pipeline {
  import opened Text
  import opened Events
  import opened Reals
  import Emotion
  import RuleEngine
  import StrategyGhost

  type Rules = seq<RuleEngine.Rule>

  /** Philosophies after normalization. */
  datatype Philosophy = TrendFollowing | Contrarian | Grid | Intuitive | OtherPhilosophy

  datatype Traits = Traits(
    intuition: int, experienceLevel: int, boldness: int, patience: int, focus: int, contrarian: int,
    emotionStability: Option<int>)

  datatype Strategy = Strategy(rules: Rules, philosophy: Philosophy, proficiency: int)

  datatype Pattern = Pattern(occurrences: int, winRate: real)

  /** What the panda remembers about this market: the pattern with its hash, the mastery of
      its asset, the vigilance about its signal type and the days lived in its phase. */
  datatype Experience = Experience(pattern: Option<Pattern>, mastery: real, vigilance: real, cycleDays: int)

  /** "" stands for an absent pair or regime. */
  datatype SkillMemory = SkillMemory(confidence: real, pair: string, regime: string)

  datatype Market = Market(
    signals: RuleEngine.Market, asset: string, pair: string, regime: string, trendStrength: real)

  datatype Position = Position(asset: string, quantity: real)

  /** The values of random() in the order of their use: the intuition's chance, its coin
      and the proficiency noise. */
  datatype Draws = Draws(chance: real, coin: real, noise: real)

  datatype Inputs = Inputs(
    market: Market, traits: Traits, strategy: Strategy, experience: Experience, memories: seq<SkillMemory>,
    mood: Emotion.Mood, ghostWeight: real, ghostStrategy: Option<StrategyGhost.Parsed>, positions: seq<Position>,
    socialSignal: real, draws: Draws)

  /** The score after each step. */
  datatype Scores = Scores(
    raw: real, prof: real, exp: real, fuse: real, pers: real, env: real, social: real, final: real)

  datatype Context = Context(
    entryThreshold: real, entryDelay: int, positionFactor: real, positionMod: real, stoplossMod: real)

  datatype Result = Result(
    finalScore: real, action: Side, zone: Zone, scores: Scores, direction: int, context: Context)

  predicate Percent(x: int) { 0 <= x <= 100 }

  function Stability(t: Traits): int {
    if t.emotionStability.Some? then t.emotionStability.value else t.patience
  }

  predicate ValidTraits(t: Traits) {
    && Percent(t.intuition) && Percent(t.experienceLevel) && Percent(t.boldness) && Percent(t.patience)
    && Percent(t.focus) && Percent(t.contrarian) && Percent(Stability(t))
  }

  predicate ValidExperience(e: Experience) {
    && (e.pattern.Some? ==> 0.0 <= e.pattern.value.winRate <= 1.0)
    && 0.0 <= e.mastery <= 100.0
    && 0.0 <= e.vigilance <= 1.0
  }

  predicate ValidDraws(d: Draws) {
    0.0 <= d.chance < 1.0 && 0.0 <= d.coin < 1.0 && 0.0 <= d.noise <= 1.0
  }

  /** Traits and levels in 0..100, rates in 0..1, a social signal in -1..1; the rules, the
      memories, the ghosts and the positions are arbitrary. */
  predicate ValidInputs(i: Inputs) {
    && ValidTraits(i.traits) && Percent(i.strategy.proficiency)
    && ValidExperience(i.experience) && ValidDraws(i.draws)
    && -1.0 <= i.socialSignal <= 1.0
  }

  function Clamp01(x: real): real { Min(1.0, Max(0.0, x)) }
  function Abs(x: real): real { if x < 0.0 then -x else x }
  function Sign(x: real): int { if x == 0.0 then 0 else if x > 0.0 then 1 else -1 }

  // ---- Steps 1 and 2: signal, intuition and noise ----

  /** The philosophy leans with or against the direction of the signal. */
  function Leaned(strength: real, direction: int, p: Philosophy): real {
    match p
    case TrendFollowing =>
      if direction > 0 then Min(1.0, strength * 1.2) else if direction < 0 then strength * 0.8 else strength
    case Contrarian =>
      if direction > 0 then strength * 0.8 else if direction < 0 then Min(1.0, strength * 1.2) else strength
    case _ => strength
  }

  function IntuitionWeight(t: Traits, s: Strategy): real {
    var strength := t.intuition as real / 200.0 + t.experienceLevel as real / 200.0;
    var weight := strength * s.proficiency as real / 100.0;
    if s.philosophy == Intuitive then weight * 1.5 else weight
  }

  function Step1(m: RuleEngine.Market, t: Traits, s: Strategy, d: Draws): (real, int) {
    var signed := RuleEngine.Signed(RuleEngine.Compile(s.rules), m);
    var leaned := Leaned(Abs(signed), Sign(signed), s.philosophy);
    if leaned == 0.0 && t.intuition > 0 && d.chance < IntuitionWeight(t, s) then
      (Clamp01(IntuitionWeight(t, s)), if d.coin > 0.5 then 1 else -1)
    else (Clamp01(leaned), Sign(signed))
  }

  function NoiseWidth(proficiency: int): real {
    if proficiency < 20 then 0.30 else if proficiency < 50 then 0.15 else if proficiency < 80 then 0.05 else 0.0
  }

  function Step2(raw: real, t: Traits, s: Strategy, d: Draws): real {
    var width := NoiseWidth(s.proficiency);
    var noise := -width + 2.0 * width * d.noise;
    Clamp01(raw * (1.0 + noise * (t.boldness as real / 100.0)))
  }

  // ---- Step 3: experience ----

  function PatternCorrection(p: Option<Pattern>): real {
    if p.None? || p.value.occurrences < 5 then 0.0 else (p.value.winRate - 0.50) * 0.20
  }

  function MasteryCorrection(mastery: real): real { (mastery - 50.0) / 200.0 }

  function MistakePenalty(vigilance: real): real { vigilance * -0.10 }

  function CycleBonus(days: int): real { if days > 30 then 0.20 else if days > 10 then 0.10 else 0.0 }

  predicate Recalled(mem: SkillMemory, pair: string, regime: string) {
    && mem.confidence > 0.0
    && !(mem.pair != "" && pair != "" && Upper(mem.pair) != Upper(pair))
    && !(mem.regime != "" && mem.regime != regime)
  }

  function Boost(memories: seq<SkillMemory>, pair: string, regime: string): (boost: real)
    ensures boost >= 0.0
  {
    if memories == [] then 0.0
    else
      var last := memories[|memories| - 1];
      Boost(memories[..|memories| - 1], pair, regime)
      + if Recalled(last, pair, regime) then Min(0.05, last.confidence * 0.08) else 0.0
  }

  function SkillCorrection(memories: seq<SkillMemory>, pair: string, regime: string): real {
    Min(0.12, Boost(memories, pair, regime))
  }

  method SkillMemoryCorrection(memories: seq<SkillMemory>, pair: string, regime: string) returns (c: real)
    ensures c == SkillCorrection(memories, pair, regime)
    ensures 0.0 <= c <= 0.12
  {
    var boost := 0.0;
    for k := 0 to |memories|
      invariant boost == Boost(memories[..k], pair, regime)
    {
      assert memories[..k + 1][..k] == memories[..k];
      var mem := memories[k];
      if mem.confidence <= 0.0 {
        continue;
      }
      if mem.pair != "" && pair != "" && Upper(mem.pair) != Upper(pair) {
        continue;
      }
      if mem.regime != "" && mem.regime != regime {
        continue;
      }
      boost := boost + Min(0.05, mem.confidence * 0.08);
    }
    assert memories[..|memories|] == memories;
    c := Min(0.12, boost);
  }

  function Correction(e: Experience, memories: seq<SkillMemory>, pair: string, regime: string): real {
    PatternCorrection(e.pattern) + MasteryCorrection(e.mastery) + MistakePenalty(e.vigilance)
    + CycleBonus(e.cycleDays) + SkillCorrection(memories, pair, regime)
  }

  // ---- Step 4: fusion with experience and ghosts ----

  function Fused(prof: real, exp: real, level: int): real {
    if level < 25 then prof * 0.55 + exp * 0.10
    else if level < 65 then prof * 0.50 + exp * 0.20
    else prof * 0.30 + exp * 0.50
  }

  function Blend(x: real, y: real, w: real): real { Times(x, 1.0 - w) + Times(y, w) }

  /** A ghost takes part if it has weight and its strategy is not empty. */
  predicate Blends(weight: real, given: Option<StrategyGhost.Parsed>) {
    weight > 0.0 && given.Some? && given.value.Json?
  }

  function Step4(prof: real, exp: real, level: int, weight: real, given: Option<StrategyGhost.Parsed>, m: RuleEngine.Market): real {
    var fuse := Fused(prof, exp, level);
    if Blends(weight, given) then
      Blend(fuse, Abs(RuleEngine.Signed(RuleEngine.Compile(given.value.rules), m)), Min(weight, 0.50))
    else fuse
  }

  // ---- Step 5: personality ----

  function BoldnessFactor(boldness: int): real { 0.7 + (boldness as real / 100.0) * 0.6 }
  function FocusBonus(focus: int): real { 1.0 + (focus - 50) as real / 200.0 }
  function BaseThreshold(boldness: int): real { 0.65 * (1.0 - (boldness - 50) as real / 200.0) }
  function EntryDelay(patience: int): int { if patience / 20 - 1 > 0 then patience / 20 - 1 else 0 }
  function PositionFactor(boldness: int): real { 0.6 + boldness as real / 250.0 }

  function Step5(fuse: real, t: Traits): real {
    Times(Times(fuse, BoldnessFactor(t.boldness)), FocusBonus(t.focus))
  }

  // ---- Step 6: environment ----

  function Perception(level: int): int {
    if level < 25 then 1 else if level < 50 then 2 else if level < 80 then 3 else 4
  }

  function MarketMatch(p: Philosophy, regime: string): real {
    match p
    case TrendFollowing =>
      if regime == "bull" then 1.0 else if regime == "bear" then 0.85 else if regime == "ranging" then 0.7 else 0.85
    case Contrarian =>
      if regime == "bull" then 0.7 else if regime == "bear" then 1.0 else if regime == "ranging" then 0.85 else 0.85
    case Grid =>
      if regime == "bull" || regime == "bear" then 0.7 else if regime == "ranging" then 1.0 else 0.85
    case _ => 0.85
  }

  function EnvFactor(level: int, p: Philosophy, m: Market): real {
    var perception := Perception(level);
    var seen :=
      if perception == 1 then (if m.regime in {"ranging", "bear", "sideways"} then 0.7 else 1.0)
      else if perception == 2 && m.trendStrength < 0.3 then 0.85
      else 1.0;
    if perception < 3 && MarketMatch(p, m.regime) < 1.0 then seen * 0.7 else seen
  }

  predicate Other(p: Position, asset: string) { p.asset != asset && p.quantity > 0.0 }

  function CorrelationPenalty(level: int, asset: string, positions: seq<Position>): real {
    if Perception(level) >= 3 && exists i :: 0 <= i < |positions| && Other(positions[i], asset) then 0.5 else 1.0
  }

  function Step6(pers: real, t: Traits, p: Philosophy, m: Market, positions: seq<Position>): real {
    Times(Times(Times(pers, EnvFactor(t.experienceLevel, p, m)), MarketMatch(p, m.regime)),
          CorrelationPenalty(t.experienceLevel, m.asset, positions))
  }

  // ---- Step 7: social pressure ----

  function Bias(contrarian: int, signal: real): real {
    var bias := Times((contrarian - 50) as real / 100.0, signal);
    if contrarian < 30 && signal > 0.0 then bias + 0.15
    else if contrarian > 70 && signal > 0.0 then bias - 0.15
    else bias
  }

  function Step7(env: real, contrarian: int, signal: real): real {
    if signal == 0.0 then env else env + Bias(contrarian, signal)
  }

  // ---- Step 8: emotion ----

  datatype Profile = Profile(signal: real, position: real, stoploss: real, threshold: real)

  /** An unknown emotion has the profile of Focused. */
  function ProfileOf(m: Emotion.Mood): Profile {
    match m
    case Focused => Profile(1.0, 1.0, 1.0, 1.0)
    case Excited => Profile(1.1, 1.2, 1.1, 0.9)
    case Greedy => Profile(1.3, 1.6, 1.4, 0.7)
    case Cautious => Profile(0.85, 0.7, 0.85, 1.2)
    case Panicking => Profile(0.5, 0.3, 0.6, 1.6)
    case Numb => Profile(0.6, 0.5, 1.0, 1.4)
  }

  function Dampen(raw: real, stability: int): real {
    1.0 + Times(raw - 1.0, 1.0 - stability as real / 100.0)
  }

  // ---- The decision ----

  function Determine(score: real, threshold: real, direction: int): (Side, Zone) {
    if Abs(score) > threshold then (if direction >= 0 then BUY else SELL, EXECUTE)
    else if Abs(score) >= 0.40 then (HOLD, OBSERVE)
    else (HOLD, IGNORE)
  }

  function StepExp(prof: real, i: Inputs): real {
    prof + Correction(i.experience, i.memories, i.market.pair, i.market.regime)
  }

  function Decide(i: Inputs): Result {
    var (raw, direction) := Step1(i.market.signals, i.traits, i.strategy, i.draws);
    var prof := Step2(raw, i.traits, i.strategy, i.draws);
    var exp := StepExp(prof, i);
    var fuse := Step4(prof, exp, i.traits.experienceLevel, i.ghostWeight, i.ghostStrategy, i.market.signals);
    var pers := Step5(fuse, i.traits);
    var env := Step6(pers, i.traits, i.strategy.philosophy, i.market, i.positions);
    var social := Step7(env, i.traits.contrarian, i.socialSignal);
    var profile, stability := ProfileOf(i.mood), Stability(i.traits);
    var final := Times(social, Dampen(profile.signal, stability));
    var threshold := Times(BaseThreshold(i.traits.boldness), Dampen(profile.threshold, stability));
    var score := if direction < 0 then -final else final;
    var (action, zone) := Determine(score, threshold, direction);
    Result(score, action, zone, Scores(raw, prof, exp, fuse, pers, env, social, final), direction,
           Context(threshold, EntryDelay(i.traits.patience), PositionFactor(i.traits.boldness),
                   Dampen(profile.position, stability), Dampen(profile.stoploss, stability)))
  }

  /** The metadata that the steps write while a tick passes through them. */
  class PipelineContext {
    var entryThreshold: real
    var entryDelay: int
    var positionFactor: real
    var positionMod: real
    var stoplossMod: real

    function View(): Context
      reads this
    {
      Context(entryThreshold, entryDelay, positionFactor, positionMod, stoplossMod)
    }

    constructor ()
      ensures View() == Context(0.65, 0, 1.0, 1.0, 1.0)
    {
      entryThreshold, entryDelay, positionFactor, positionMod, stoplossMod := 0.65, 0, 1.0, 1.0, 1.0;
    }

    method Personality(fuse: real, t: Traits) returns (pers: real)
      modifies this
      ensures pers == Step5(fuse, t)
      ensures View() == old(View()).(entryThreshold := BaseThreshold(t.boldness),
                                     entryDelay := EntryDelay(t.patience),
                                     positionFactor := PositionFactor(t.boldness))
    {
      entryThreshold := 0.65 * (1.0 - (t.boldness - 50) as real / 200.0);
      entryDelay := if t.patience / 20 - 1 > 0 then t.patience / 20 - 1 else 0;
      positionFactor := 0.6 + t.boldness as real / 250.0;
      pers := Times(Times(fuse, BoldnessFactor(t.boldness)), FocusBonus(t.focus));
    }

    method EmotionStep(social: real, mood: Emotion.Mood, t: Traits) returns (final: real)
      modifies this
      ensures final == Times(social, Dampen(ProfileOf(mood).signal, Stability(t)))
      ensures View() == old(View()).(
                entryThreshold := Times(old(entryThreshold), Dampen(ProfileOf(mood).threshold, Stability(t))),
                positionMod := Dampen(ProfileOf(mood).position, Stability(t)),
                stoplossMod := Dampen(ProfileOf(mood).stoploss, Stability(t)))
    {
      hide Dampen, Times, ProfileOf;
      var profile, stability := ProfileOf(mood), Stability(t);
      positionMod := Dampen(profile.position, stability);
      stoplossMod := Dampen(profile.stoploss, stability);
      entryThreshold := Times(entryThreshold, Dampen(profile.threshold, stability));
      final := Times(social, Dampen(profile.signal, stability));
    }
  }

  method RunPipeline(i: Inputs) returns (result: Result)
    ensures result == Decide(i)
  {
    hide Step1, Step2, Correction, SkillCorrection, Step4, Step5, Step6, Step7, Dampen, Times, ProfileOf, Determine,
         BaseThreshold, EntryDelay, PositionFactor;
    var ctx := new PipelineContext();
    var (raw, direction) := Step1(i.market.signals, i.traits, i.strategy, i.draws);
    var prof := Step2(raw, i.traits, i.strategy, i.draws);
    var exp := prof + Correction(i.experience, i.memories, i.market.pair, i.market.regime);
    var fuse := Step4(prof, exp, i.traits.experienceLevel, i.ghostWeight, i.ghostStrategy, i.market.signals);
    var pers := ctx.Personality(fuse, i.traits);
    var env := Step6(pers, i.traits, i.strategy.philosophy, i.market, i.positions);
    var social := Step7(env, i.traits.contrarian, i.socialSignal);
    var final := ctx.EmotionStep(social, i.mood, i.traits);
    var score := if direction < 0 then -final else final;
    var (action, zone) := Determine(score, ctx.entryThreshold, direction);
    result := Result(score, action, zone, Scores(raw, prof, exp, fuse, pers, env, social, final), direction, ctx.View());
  }

  // ---- Bounds ----

  predicate Within(x: real, low: real, high: real) { low <= x <= high }

  lemma {:induction false} TimesBounds(x: real, f: real, low: real, high: real, most: real)
    requires Within(x, low, high) && low <= 0.0 <= high && Within(f, 0.0, most)
    ensures Within(Times(x, f), Times(low, most), Times(high, most))
  {
    hide Times;
    Ordered(low, x, f);
    Ordered(x, high, f);
    Larger(high, f, most);
    Larger(-low, f, most);
    TimesSplits(low, 0.0, f);
    TimesSplits(low, 0.0, most);
  }

  lemma {:induction false} BlendBounds(x: real, y: real, w: real, low: real, high: real)
    requires Within(x, low, high) && Within(y, low, high) && Within(w, 0.0, 1.0)
    ensures Within(Blend(x, y, w), low, high)
  {
    hide Times;
    Ordered(low, x, 1.0 - w);
    Ordered(low, y, w);
    Ordered(x, high, 1.0 - w);
    Ordered(y, high, w);
    Whole(low, w);
    Whole(high, w);
  }

  lemma {:induction false} CorrectionBounds(e: Experience, memories: seq<SkillMemory>, pair: string, regime: string)
    requires ValidExperience(e)
    ensures Within(Correction(e, memories, pair, regime), -0.45, 0.67)
  {
    hide Boost;
    assert Within(SkillCorrection(memories, pair, regime), 0.0, 0.12);
    assert Within(PatternCorrection(e.pattern), -0.10, 0.10);
    assert Within(MasteryCorrection(e.mastery), -0.25, 0.25);
    assert Within(MistakePenalty(e.vigilance), -0.10, 0.0);
  }

  lemma {:induction false} Step4Bounds(prof: real, exp: real, level: int, weight: real, given: Option<StrategyGhost.Parsed>,
                                       m: RuleEngine.Market)
    requires Within(prof, 0.0, 1.0) && Within(exp - prof, -0.45, 0.67)
    ensures Within(Step4(prof, exp, level, weight, given, m), -0.225, 1.135)
  {
    hide RuleEngine.Signed, RuleEngine.Compile, Blend;
    assert Within(Fused(prof, exp, level), -0.225, 1.135);
    if Blends(weight, given) {
      var compiled := RuleEngine.Compile(given.value.rules);
      RuleEngine.SignedStrength(compiled, m);
      BlendBounds(Fused(prof, exp, level), Abs(RuleEngine.Signed(compiled, m)), Min(weight, 0.50), -0.225, 1.135);
    }
  }

  lemma {:induction false} Step5Bounds(fuse: real, t: Traits)
    requires ValidTraits(t) && Within(fuse, -0.225, 1.135)
    ensures Within(Step5(fuse, t), -0.365625, 1.844375)
  {
    var b, f := BoldnessFactor(t.boldness), FocusBonus(t.focus);
    assert Within(b, 0.0, 1.3) && Within(f, 0.0, 1.25);
    TimesBounds(fuse, b, -0.225, 1.135, 1.3);
    TimesBounds(Times(fuse, b), f, -0.2925, 1.4755, 1.25);
  }

  lemma {:induction false} Shrinks(x: real, f: real)
    requires Within(x, -0.365625, 1.844375) && Within(f, 0.0, 1.0)
    ensures Within(Times(x, f), -0.365625, 1.844375)
  {
    TimesBounds(x, f, -0.365625, 1.844375, 1.0);
  }

  lemma {:induction false} Step6Bounds(pers: real, t: Traits, p: Philosophy, m: Market, positions: seq<Position>)
    requires Within(pers, -0.365625, 1.844375)
    ensures Within(Step6(pers, t, p, m, positions), -0.365625, 1.844375)
  {
    hide Times;
    var level := t.experienceLevel;
    var e, w, c := EnvFactor(level, p, m), MarketMatch(p, m.regime), CorrelationPenalty(level, m.asset, positions);
    assert Within(e, 0.0, 1.0) && Within(w, 0.0, 1.0) && Within(c, 0.0, 1.0);
    Shrinks(pers, e);
    Shrinks(Times(pers, e), w);
    Shrinks(Times(Times(pers, e), w), c);
  }

  lemma {:induction false} BiasBounds(contrarian: int, signal: real)
    requires Percent(contrarian) && -1.0 <= signal <= 1.0
    ensures Within(Bias(contrarian, signal), -0.5, 0.5)
  {
    var c := (contrarian - 50) as real / 100.0;
    if signal >= 0.0 {
      if c >= 0.0 {
        TimesBounds(c, signal, 0.0, 0.5, 1.0);
      } else {
        TimesBounds(c, signal, -0.5, 0.0, 1.0);
      }
    } else {
      TimesBounds(c, -signal, -0.5, 0.5, 1.0);
      assert Times(c, signal) == -Times(c, -signal);
    }
  }

  lemma {:induction false} DampenBounds(raw: real, stability: int)
    requires Percent(stability)
    ensures Within(Dampen(raw, stability), Min(raw, 1.0), Max(raw, 1.0))
  {
    var d := 1.0 - stability as real / 100.0;
    if raw >= 1.0 {
      TimesBounds(raw - 1.0, d, 0.0, raw - 1.0, 1.0);
    } else {
      TimesBounds(raw - 1.0, d, raw - 1.0, 0.0, 1.0);
    }
  }

  predicate ScoresBounded(s: Scores) {
    && Within(s.raw, 0.0, 1.0) && Within(s.prof, 0.0, 1.0) && Within(s.exp, -0.45, 1.67)
    && Within(s.fuse, -0.225, 1.135) && Within(s.pers, -0.365625, 1.844375) && Within(s.env, -0.365625, 1.844375)
    && Within(s.social, -0.865625, 2.344375) && Within(s.final, -1.1253125, 3.0476875)
  }

  lemma {:induction false} ClampsToUnit()
    ensures forall x :: Within(Clamp01(x), 0.0, 1.0)
  {
  }

  lemma {:induction false} UnitSteps(i: Inputs, raw: real)
    ensures Within(Step1(i.market.signals, i.traits, i.strategy, i.draws).0, 0.0, 1.0)
    ensures Within(Step2(raw, i.traits, i.strategy, i.draws), 0.0, 1.0)
  {
    hide RuleEngine.Signed, RuleEngine.Compile, Leaned, IntuitionWeight, NoiseWidth, Clamp01;
    ClampsToUnit();
  }

  lemma {:induction false} TraitRanges(t: Traits)
    requires ValidTraits(t)
    ensures Percent(t.contrarian) && Percent(t.boldness) && Percent(t.patience) && Percent(Stability(t))
  {
  }

  lemma {:induction false} ProfileBounds(mood: Emotion.Mood, stability: int)
    requires Percent(stability)
    ensures Within(Dampen(ProfileOf(mood).signal, stability), 0.5, 1.3)
    ensures Within(Dampen(ProfileOf(mood).position, stability), 0.3, 1.6)
    ensures Within(Dampen(ProfileOf(mood).stoploss, stability), 0.6, 1.4)
    ensures Within(Dampen(ProfileOf(mood).threshold, stability), 0.7, 1.6)
  {
    hide Dampen;
    var p := ProfileOf(mood);
    DampenBounds(p.signal, stability);
    DampenBounds(p.position, stability);
    DampenBounds(p.stoploss, stability);
    DampenBounds(p.threshold, stability);
  }

  lemma {:induction false} FinalBounds(social: real, factor: real)
    requires Within(social, -0.865625, 2.344375) && Within(factor, 0.5, 1.3)
    ensures Within(Times(social, factor), -1.1253125, 3.0476875)
  {
    TimesBounds(social, factor, -0.865625, 2.344375, 1.3);
  }

  lemma {:induction false} ScoreBounds(i: Inputs)
    requires ValidInputs(i)
    ensures ScoresBounded(Decide(i).scores)
    ensures Within(Decide(i).finalScore, -3.05, 3.05)
  {
    hide Step1, Step2, Correction, Step4, Step5, Step6, Bias, Times, Dampen, Determine, BaseThreshold, EntryDelay,
         PositionFactor, ProfileOf, ValidTraits, ValidExperience, ValidDraws;
    var s := Decide(i).scores;
    UnitSteps(i, s.raw);
    CorrectionBounds(i.experience, i.memories, i.market.pair, i.market.regime);
    Step4Bounds(s.prof, s.exp, i.traits.experienceLevel, i.ghostWeight, i.ghostStrategy, i.market.signals);
    Step5Bounds(s.fuse, i.traits);
    Step6Bounds(s.pers, i.traits, i.strategy.philosophy, i.market, i.positions);
    TraitRanges(i.traits);
    BiasBounds(i.traits.contrarian, i.socialSignal);
    ProfileBounds(i.mood, Stability(i.traits));
    FinalBounds(s.social, Dampen(ProfileOf(i.mood).signal, Stability(i.traits)));
  }

  lemma {:induction false} ThresholdBounds(boldness: int, factor: real)
    requires Percent(boldness) && Within(factor, 0.7, 1.6)
    ensures Within(Times(BaseThreshold(boldness), factor), 0.34, 1.3)
  {
    var t := BaseThreshold(boldness);
    assert Within(t, 0.4875, 0.8125);
    assert t * factor >= 0.4875 * factor by { assert (t - 0.4875) * factor >= 0.0; }
    assert t * factor <= 0.8125 * factor by { assert (0.8125 - t) * factor >= 0.0; }
  }

  /** Whatever the rules, the memories, the ghosts, the positions, the mood and the draws:
      the score keeps to these bounds at each step, |final_score| <= 3.05 fits its four
      decimals, and the threshold stays within 0.34..1.3. */
  lemma {:induction false} PipelineBounds(i: Inputs)
    requires ValidInputs(i)
    ensures ScoresBounded(Decide(i).scores)
    ensures -3.05 <= Decide(i).finalScore <= 3.05
    ensures 0.34 <= Decide(i).context.entryThreshold <= 1.3
    ensures 0 <= Decide(i).context.entryDelay <= 4
    ensures Within(Decide(i).context.positionFactor, 0.6, 1.0)
    ensures Within(Decide(i).context.positionMod, 0.3, 1.6)
    ensures Within(Decide(i).context.stoplossMod, 0.6, 1.4)
  {
    ScoreBounds(i);
    hide Step1, Step2, Step4, StepExp, Step5, Step6, Step7, Times, Dampen, Determine, ScoresBounded, ProfileOf, BaseThreshold,
         ValidTraits, ValidExperience, ValidDraws;
    TraitRanges(i.traits);
    ProfileBounds(i.mood, Stability(i.traits));
    ThresholdBounds(i.traits.boldness, Dampen(ProfileOf(i.mood).threshold, Stability(i.traits)));
  }

  // ---- What the decision means ----

  /** A decision executes exactly when the score's magnitude passes the threshold, and the
      direction of the signal, not the sign of the score, says which way. */
  lemma {:induction false} ExecutesExactlyWhen(i: Inputs)
    ensures var r := Decide(i);
            && (r.zone == EXECUTE <==> Abs(r.scores.final) > r.context.entryThreshold)
            && (r.action == HOLD <==> r.zone != EXECUTE)
            && (r.zone == EXECUTE ==> (r.action == BUY <==> r.direction >= 0))
  {
    hide Step1, Step2, Step4, StepExp, Step5, Step6, Step7, Times, Dampen, ProfileOf, BaseThreshold;
  }

  // ---- The sign of the score, from the inputs ----

  function StrategyShare(level: int): real { if level < 25 then 0.65 else if level < 65 then 0.70 else 0.80 }

  function ExperienceShare(level: int): real { if level < 25 then 0.10 else if level < 65 then 0.20 else 0.50 }

  function CorrectionOf(i: Inputs): real { Correction(i.experience, i.memories, i.market.pair, i.market.regime) }

  /** The strength of the signal after the noise; never negative. */
  function Conviction(i: Inputs): real {
    Step2(Step1(i.market.signals, i.traits, i.strategy, i.draws).0, i.traits, i.strategy, i.draws)
  }

  predicate HasGhost(i: Inputs) { Blends(i.ghostWeight, i.ghostStrategy) }

  /** What speaks for the trade: signal, experience and the old strategy. */
  function Evidence(i: Inputs): real {
    var level := i.traits.experienceLevel;
    var own := Times(StrategyShare(level), Conviction(i)) + Times(ExperienceShare(level), CorrectionOf(i));
    if HasGhost(i) then
      Blend(own, Abs(RuleEngine.Signed(RuleEngine.Compile(i.ghostStrategy.value.rules), i.market.signals)), Min(i.ghostWeight, 0.50))
    else own
  }

  /** The factors of personality and environment together. */
  function Scale(i: Inputs): real {
    var t, p, m := i.traits, i.strategy.philosophy, i.market;
    Times(Times(Times(Times(BoldnessFactor(t.boldness), FocusBonus(t.focus)), EnvFactor(t.experienceLevel, p, m)),
                MarketMatch(p, m.regime)),
          CorrelationPenalty(t.experienceLevel, m.asset, i.positions))
  }

  /** What the crowd adds. */
  function Pressure(i: Inputs): real { if i.socialSignal == 0.0 then 0.0 else Bias(i.traits.contrarian, i.socialSignal) }

  lemma {:induction false} FusedShares(prof: real, c: real, level: int)
    ensures Fused(prof, prof + c, level) == Times(StrategyShare(level), prof) + Times(ExperienceShare(level), c)
  {
  }

  lemma {:induction false} Factors(x: real, a: real, b: real, c: real, d: real, e: real)
    ensures Times(Times(Times(Times(Times(x, a), b), c), d), e) == Times(x, Times(Times(Times(Times(a, b), c), d), e))
  {
    hide Times;
    TimesGroups(x, a, b);
    TimesGroups(x, Times(a, b), c);
    TimesGroups(x, Times(Times(a, b), c), d);
    TimesGroups(x, Times(Times(Times(a, b), c), d), e);
  }

  /** The score before the emotion step is linear in the evidence. */
  lemma {:induction false} SocialScore(i: Inputs)
    ensures Decide(i).scores.social == Times(Evidence(i), Scale(i)) + Pressure(i)
    ensures Decide(i).scores.fuse == Evidence(i)
  {
    hide Step1, Step2, Correction, Times, Bias, Blend, Fused, Determine, ProfileOf, Dampen, BaseThreshold, EntryDelay,
         PositionFactor, BoldnessFactor, FocusBonus, EnvFactor, MarketMatch, CorrelationPenalty, StrategyShare, ExperienceShare,
         RuleEngine.Signed, RuleEngine.Compile;
    var t, p, m := i.traits, i.strategy.philosophy, i.market;
    FusedShares(Conviction(i), CorrectionOf(i), t.experienceLevel);
    Factors(Evidence(i), BoldnessFactor(t.boldness), FocusBonus(t.focus), EnvFactor(t.experienceLevel, p, m),
            MarketMatch(p, m.regime), CorrelationPenalty(t.experienceLevel, m.asset, i.positions));
  }

  lemma {:induction false} PositiveProduct(x: real, y: real)
    requires x > 0.0 && y > 0.0
    ensures Times(x, y) > 0.0
  {
  }

  lemma {:induction false} ScalePositive(i: Inputs)
    requires ValidTraits(i.traits)
    ensures Scale(i) > 0.0
  {
    var t, p, m := i.traits, i.strategy.philosophy, i.market;
    var b, f, e, w, c := BoldnessFactor(t.boldness), FocusBonus(t.focus), EnvFactor(t.experienceLevel, p, m),
                         MarketMatch(p, m.regime), CorrelationPenalty(t.experienceLevel, m.asset, i.positions);
    assert b > 0.0 && f > 0.0 && e > 0.0 && w > 0.0 && c > 0.0;
    hide BoldnessFactor, FocusBonus, EnvFactor, MarketMatch, CorrelationPenalty, ValidTraits, Times;
    PositiveProduct(b, f);
    PositiveProduct(Times(b, f), e);
    PositiveProduct(Times(Times(b, f), e), w);
    PositiveProduct(Times(Times(Times(b, f), e), w), c);
  }

  /** An executed action agrees with the sign of the score, a buy with a positive one,
      exactly when the evidence, scaled, outweighs what the crowd takes away. */
  lemma {:induction false} ScoreSignAgreesExactlyWhen(i: Inputs)
    requires ValidInputs(i) && Decide(i).zone == EXECUTE
    ensures var r := Decide(i);
            (r.action == BUY <==> r.finalScore > 0.0) <==> Times(Evidence(i), Scale(i)) + Pressure(i) > 0.0
    ensures Times(Evidence(i), Scale(i)) + Pressure(i) != 0.0
  {
    PipelineBounds(i);
    ExecutesExactlyWhen(i);
    SocialScore(i);
    hide Step1, Step2, Step4, StepExp, Step5, Step6, Step7, Times, Dampen, Determine, ScoresBounded, ProfileOf, BaseThreshold,
         ValidTraits, ValidExperience, ValidDraws, Evidence, Scale, Pressure;
    TraitRanges(i.traits);
    ProfileBounds(i.mood, Stability(i.traits));
    SignOfTimes(Dampen(ProfileOf(i.mood).signal, Stability(i.traits)), Decide(i).scores.social);
  }

  /** Without a social signal the crowd plays no part: the sign agrees exactly when the
      evidence is positive. */
  lemma {:induction false} AloneAgreesExactlyWhen(i: Inputs)
    requires ValidInputs(i) && Decide(i).zone == EXECUTE && i.socialSignal == 0.0
    ensures var r := Decide(i); (r.action == BUY <==> r.finalScore > 0.0) <==> Evidence(i) > 0.0
  {
    ScoreSignAgreesExactlyWhen(i);
    ScalePositive(i);
    hide Decide, ValidTraits, ValidExperience, ValidDraws, Evidence, Scale, Times;
    SignOfTimes(Scale(i), Evidence(i));
  }

  lemma {:induction false} EvidenceNonNegative(i: Inputs)
    requires CorrectionOf(i) >= 0.0
    ensures Evidence(i) >= 0.0
  {
    UnitSteps(i, Step1(i.market.signals, i.traits, i.strategy, i.draws).0);
    hide Step1, Step2, Correction, Times, RuleEngine.Signed, RuleEngine.Compile;
    var level := i.traits.experienceLevel;
    TimesNonNegative(StrategyShare(level), Conviction(i));
    TimesNonNegative(ExperienceShare(level), CorrectionOf(i));
    if HasGhost(i) {
      var own := Times(StrategyShare(level), Conviction(i)) + Times(ExperienceShare(level), CorrectionOf(i));
      var w := Min(i.ghostWeight, 0.50);
      TimesNonNegative(own, 1.0 - w);
      TimesNonNegative(Abs(RuleEngine.Signed(RuleEngine.Compile(i.ghostStrategy.value.rules), i.market.signals)), w);
    }
  }

  /** Experience that does not warn and a crowd that does not pull away always leave the
      sign of an executed action right. */
  lemma {:induction false} GoodExperienceAgrees(i: Inputs)
    requires ValidInputs(i) && Decide(i).zone == EXECUTE
    requires CorrectionOf(i) >= 0.0 && Pressure(i) >= 0.0
    ensures Decide(i).action == BUY <==> Decide(i).finalScore > 0.0
  {
    ScoreSignAgreesExactlyWhen(i);
    ScalePositive(i);
    EvidenceNonNegative(i);
    hide Decide, ValidTraits, ValidExperience, ValidDraws, Evidence, Scale, Times, Pressure, Correction;
    TimesNonNegative(Evidence(i), Scale(i));
  }

  /** No rule fires and no intuition strikes. */
  predicate Silent(i: Inputs) {
    && RuleEngine.Signed(RuleEngine.Compile(i.strategy.rules), i.market.signals) == 0.0
    && (i.traits.intuition <= 0 || i.draws.chance >= IntuitionWeight(i.traits, i.strategy))
  }

  lemma {:induction false} SilentExactlyWhen(i: Inputs)
    requires ValidInputs(i)
    ensures Silent(i) <==> Decide(i).scores.raw == 0.0
    ensures Silent(i) ==> Conviction(i) == 0.0 && Decide(i).direction == 0
  {
    hide RuleEngine.Signed, RuleEngine.Compile, Step4, Correction, Step5, Step6, Step7, Times, Dampen, Determine, ProfileOf,
         BaseThreshold, IntuitionWeight;
  }

  /** A silent strategy without a ghost: an executed action is a buy, and the score is
      positive exactly when the correction, scaled, outweighs the crowd; without a social
      signal, exactly when the correction is positive. */
  lemma {:induction false} SilentBuyAgreesExactlyWhen(i: Inputs)
    requires ValidInputs(i) && Decide(i).zone == EXECUTE && Silent(i) && !HasGhost(i)
    ensures var r := Decide(i);
            && r.action == BUY
            && (r.finalScore > 0.0
                <==> Times(Times(ExperienceShare(i.traits.experienceLevel), CorrectionOf(i)), Scale(i)) + Pressure(i) > 0.0)
            && (i.socialSignal == 0.0 ==> (r.finalScore > 0.0 <==> CorrectionOf(i) > 0.0))
  {
    SilentExactlyWhen(i);
    ScoreSignAgreesExactlyWhen(i);
    ExecutesExactlyWhen(i);
    ScalePositive(i);
    var share := ExperienceShare(i.traits.experienceLevel);
    hide Decide, ValidTraits, ValidExperience, ValidDraws, Scale, Times, Conviction, Correction;
    ZeroTimes(StrategyShare(i.traits.experienceLevel));
    SignOfTimes(share, CorrectionOf(i));
    SignOfTimes(Scale(i), Times(share, CorrectionOf(i)));
  }

  /** The module's reading of the zones. */
  ghost predicate DocumentedZones(threshold: real) {
    forall score: real ::
      && (Abs(score) > threshold ==> Determine(score, threshold, 0).1 == EXECUTE)
      && (0.40 <= Abs(score) < threshold ==> Determine(score, threshold, 0).1 == OBSERVE)
      && (Abs(score) < 0.40 ==> Determine(score, threshold, 0).1 == IGNORE)
  }

  /** Below a threshold of 0.40, which a bold and greedy panda reaches, scores execute that
      the module's own description would ignore; from 0.40 on the description holds. */
  lemma {:induction false} ZonesAreAsDocumentedExactlyWhen(threshold: real)
    requires threshold > 0.0
    ensures DocumentedZones(threshold) <==> threshold >= 0.40
  {
    if threshold < 0.40 {
      var score := (threshold + 0.40) / 2.0;
      assert Determine(score, threshold, 0).1 == EXECUTE;
    }
  }

  function Ease(m: Emotion.Mood): nat {
    match m
    case Greedy => 5
    case Excited => 4
    case Focused => 3
    case Cautious => 2
    case Numb => 1
    case Panicking => 0
  }

  lemma {:induction false} EaseIsProfile(a: Emotion.Mood, b: Emotion.Mood)
    requires Ease(a) >= Ease(b)
    ensures ProfileOf(a).signal >= ProfileOf(b).signal && ProfileOf(a).threshold <= ProfileOf(b).threshold
  {
  }

  lemma {:induction false} DampenOrdered(x: real, y: real, stability: int)
    requires x <= y && Percent(stability)
    ensures Dampen(x, stability) <= Dampen(y, stability)
  {
    Ordered(x - 1.0, y - 1.0, 1.0 - stability as real / 100.0);
  }

  lemma {:induction false} AbsTimes(x: real, f: real)
    requires f > 0.0
    ensures Abs(Times(x, f)) == Times(Abs(x), f)
  {
    SignOfTimes(f, x);
  }

  lemma {:induction false} AbsPositive(x: real)
    ensures Abs(x) >= 0.0
  {
  }

  lemma {:induction false} BasePositive(boldness: int)
    requires Percent(boldness)
    ensures BaseThreshold(boldness) >= 0.0
  {
  }

  lemma {:induction false} SameUntilEmotion(i: Inputs, mood: Emotion.Mood)
    ensures var r, r' := Decide(i), Decide(i.(mood := mood));
            && r'.direction == r.direction
            && r'.scores.social == r.scores.social
            && r.scores.final == Times(r.scores.social, Dampen(ProfileOf(i.mood).signal, Stability(i.traits)))
            && r'.scores.final == Times(r.scores.social, Dampen(ProfileOf(mood).signal, Stability(i.traits)))
            && r.context.entryThreshold ==
                 Times(BaseThreshold(i.traits.boldness), Dampen(ProfileOf(i.mood).threshold, Stability(i.traits)))
            && r'.context.entryThreshold ==
                 Times(BaseThreshold(i.traits.boldness), Dampen(ProfileOf(mood).threshold, Stability(i.traits)))
  {
    hide Step1, Step2, Step4, Correction, Step5, Step6, Step7, Times, Dampen, ProfileOf, BaseThreshold, Determine;
  }

  /** From panic to greed, every step of mood only makes execution easier: a decision that
      executes in one mood executes, the same way, in every easier one. */
  lemma {:induction false} EasierMoodsExecuteMore(i: Inputs, easier: Emotion.Mood)
    requires ValidInputs(i) && Ease(easier) >= Ease(i.mood)
    ensures var r, r' := Decide(i), Decide(i.(mood := easier));
            r.zone == EXECUTE ==> r'.zone == EXECUTE && r'.action == r.action
  {
    var i' := i.(mood := easier);
    ExecutesExactlyWhen(i);
    ExecutesExactlyWhen(i');
    SameUntilEmotion(i, easier);
    hide Decide, Step1, Step2, Step4, StepExp, Step5, Step6, Step7, Times, Dampen, Determine, ScoresBounded, ProfileOf,
         BaseThreshold, ValidExperience, ValidDraws, Ease, Abs;
    var x, stability, t := Decide(i).scores.social, Stability(i.traits), BaseThreshold(i.traits.boldness);
    var p, p' := ProfileOf(i.mood), ProfileOf(easier);
    EaseIsProfile(easier, i.mood);
    DampenOrdered(p.signal, p'.signal, stability);
    DampenOrdered(p'.threshold, p.threshold, stability);
    ProfileBounds(i.mood, stability);
    ProfileBounds(easier, stability);
    AbsTimes(x, Dampen(p.signal, stability));
    AbsTimes(x, Dampen(p'.signal, stability));
    AbsPositive(x);
    Larger(Abs(x), Dampen(p.signal, stability), Dampen(p'.signal, stability));
    BasePositive(i.traits.boldness);
    Larger(t, Dampen(p'.threshold, stability), Dampen(p.threshold, stability));
  }

  lemma {:induction false} StableDampen(p: Profile)
    ensures Dampen(p.signal, 100) == 1.0 && Dampen(p.threshold, 100) == 1.0
    ensures Dampen(p.position, 100) == 1.0 && Dampen(p.stoploss, 100) == 1.0
  {
  }

  /** A fully stable panda decides alike in every mood. */
  lemma {:induction false} StabilityIgnoresMood(i: Inputs, mood: Emotion.Mood)
    requires Stability(i.traits) == 100
    ensures Decide(i.(mood := mood)) == Decide(i)
  {
    StableDampen(ProfileOf(i.mood));
    StableDampen(ProfileOf(mood));
    hide Step1, Step2, Step4, Correction, Step5, Step6, Step7, Times, Dampen, ProfileOf, BaseThreshold, Determine;
  }

  // ---- Better experience ----

  /** No worse in any respect: a pattern that wins more often, a mastered asset, less
      vigilance, a longer life in the phase, and the same skill memories or more. */
  predicate NoWorse(e: Experience, memories: seq<SkillMemory>, e': Experience, memories': seq<SkillMemory>) {
    && PatternCorrection(e.pattern) <= PatternCorrection(e'.pattern)
    && e.mastery <= e'.mastery && e.vigilance >= e'.vigilance && e.cycleDays <= e'.cycleDays
    && memories <= memories'
  }

  lemma {:induction false} BoostGrows(memories: seq<SkillMemory>, pair: string, regime: string)
    requires memories != []
    ensures Boost(memories[..|memories| - 1], pair, regime) <= Boost(memories, pair, regime)
  {
  }

  lemma {:induction false} MoreMemories(memories: seq<SkillMemory>, more: seq<SkillMemory>, pair: string, regime: string)
    requires memories <= more
    ensures Boost(memories, pair, regime) <= Boost(more, pair, regime)
  {
    hide Recalled, Min;
    if memories == more {
    } else {
      MoreMemories(memories, more[..|more| - 1], pair, regime);
      BoostGrows(more, pair, regime);
    }
  }

  lemma {:induction false} CorrectionGrows(i: Inputs, e': Experience, memories': seq<SkillMemory>)
    requires NoWorse(i.experience, i.memories, e', memories')
    ensures Correction(i.experience, i.memories, i.market.pair, i.market.regime)
         <= Correction(e', memories', i.market.pair, i.market.regime)
  {
    hide PatternCorrection, Boost;
    MoreMemories(i.memories, memories', i.market.pair, i.market.regime);
  }

  lemma {:induction false} BlendGrows(x: real, x': real, y: real, w: real)
    requires x <= x' && w <= 1.0
    ensures Blend(x, y, w) <= Blend(x', y, w)
  {
    Ordered(x, x', 1.0 - w);
    hide Times;
  }

  lemma {:induction false} Step4Grows(prof: real, exp: real, exp': real, level: int, weight: real, given: Option<StrategyGhost.Parsed>,
                                      m: RuleEngine.Market)
    requires exp <= exp'
    ensures Step4(prof, exp, level, weight, given, m) <= Step4(prof, exp', level, weight, given, m)
  {
    hide RuleEngine.Signed, RuleEngine.Compile, Blend;
    if Blends(weight, given) {
      BlendGrows(Fused(prof, exp, level), Fused(prof, exp', level),
                 Abs(RuleEngine.Signed(RuleEngine.Compile(given.value.rules), m)), Min(weight, 0.50));
    }
  }

  lemma {:induction false} Steps5And6Grow(fuse: real, fuse': real, t: Traits, p: Philosophy, m: Market, positions: seq<Position>)
    requires fuse <= fuse' && ValidTraits(t)
    ensures Step6(Step5(fuse, t), t, p, m, positions) <= Step6(Step5(fuse', t), t, p, m, positions)
  {
    var b, f := BoldnessFactor(t.boldness), FocusBonus(t.focus);
    var level := t.experienceLevel;
    var e, w, c := EnvFactor(level, p, m), MarketMatch(p, m.regime), CorrelationPenalty(level, m.asset, positions);
    assert b >= 0.0 && f >= 0.0 && e >= 0.0 && w >= 0.0 && c >= 0.0;
    hide Times, BoldnessFactor, FocusBonus, EnvFactor, MarketMatch, CorrelationPenalty;
    Ordered(fuse, fuse', b);
    Ordered(Times(fuse, b), Times(fuse', b), f);
    Ordered(Step5(fuse, t), Step5(fuse', t), e);
    Ordered(Times(Step5(fuse, t), e), Times(Step5(fuse', t), e), w);
    Ordered(Times(Times(Step5(fuse, t), e), w), Times(Times(Step5(fuse', t), e), w), c);
  }

  /** Experience helps: with everything else as it was, no worse an experience never gives
      a lower score, through fusion, ghosts, personality, environment, crowd and emotion,
      and leaves direction and threshold alone. */
  lemma {:induction false} ExperienceHelps(i: Inputs, e': Experience, memories': seq<SkillMemory>)
    requires ValidInputs(i) && NoWorse(i.experience, i.memories, e', memories')
    ensures var (r, r') := (Decide(i), Decide(i.(experience := e', memories := memories')));
            && r.scores.final <= r'.scores.final && r.scores.prof == r'.scores.prof
            && r.direction == r'.direction && r.context == r'.context
  {
    CorrectionGrows(i, e', memories');
    TraitRanges(i.traits);
    ProfileBounds(i.mood, Stability(i.traits));
    assert ValidTraits(i.traits);
    hide Step1, Step2, Correction, Step4, Step5, Step6, Bias, Times, Dampen, Determine, BaseThreshold, EntryDelay,
         PositionFactor, ProfileOf, ValidTraits, ValidExperience, ValidDraws, NoWorse;
    var s, s' := Decide(i).scores, Decide(i.(experience := e', memories := memories')).scores;
    Step4Grows(s.prof, s.exp, s'.exp, i.traits.experienceLevel, i.ghostWeight, i.ghostStrategy, i.market.signals);
    Steps5And6Grow(s.fuse, s'.fuse, i.traits, i.strategy.philosophy, i.market, i.positions);
    Ordered(s.social, s'.social, Dampen(ProfileOf(i.mood).signal, Stability(i.traits)));
  }

  const QUIET := Market(RuleEngine.Market(50.0, 2.0, 1.0, 1.0, 1.0, "false"), "SUI", "SUI-USDC", "bull", 0.5)

  /** A bold, focused and greedy veteran in a bull market. */
  function Veteran(rules: Rules, contrarian: int, e: Experience, memories: seq<SkillMemory>, social: real): Inputs {
    Inputs(QUIET, Traits(0, 100, 100, 50, 100, contrarian, Some(0)), Strategy(rules, TrendFollowing, 100), e, memories,
           Emotion.Greedy, 0.0, None, [], social, Draws(0.0, 0.0, 0.0))
  }

  lemma {:induction false} VeteranScores(rules: Rules, contrarian: int, e: Experience, memories: seq<SkillMemory>, social: real)
    requires social != 0.0
    ensures var i := Veteran(rules, contrarian, e, memories, social);
            var r := Decide(i);
            && r.scores.final == 1.3 * (1.625 * r.scores.fuse + Bias(contrarian, social))
            && r.context.entryThreshold == 0.34125
            && r.scores.fuse == 0.8 * r.scores.prof + 0.5 * Correction(e, memories, "SUI-USDC", "bull")
            && r.scores.prof == Step1(QUIET.signals, i.traits, i.strategy, i.draws).0
            && r.direction == Step1(QUIET.signals, i.traits, i.strategy, i.draws).1
  {
    var i := Veteran(rules, contrarian, e, memories, social);
    UnitSteps(i, 0.0);
    hide Step1, Correction, Bias, RuleEngine.Signed, RuleEngine.Compile, Determine;
    assert i.positions == [];
  }

  lemma {:induction false} NoRulesNoSignal(m: RuleEngine.Market, t: Traits, s: Strategy, d: Draws)
    requires s.rules == [] && t.intuition == 0
    ensures Step1(m, t, s, d) == (0.0, 0)
  {
    hide IntuitionWeight;
    RuleEngine.ZeroRatio(1);
  }

  /** No rule fires, every memory warns and the crowd is fled: the score is negative, and
      the pipeline buys. */
  lemma {:induction false} BuysWithoutASignal()
    ensures var i := Veteran([], 100, Experience(Some(Pattern(5, 0.0)), 0.0, 1.0, 0), [], -1.0);
            var r := Decide(i);
            && ValidInputs(i) && r.scores.raw == 0.0
            && r.finalScore == -1.1253125 && (r.action, r.zone) == (BUY, EXECUTE)
  {
    var e := Experience(Some(Pattern(5, 0.0)), 0.0, 1.0, 0);
    VeteranScores([], 100, e, [], -1.0);
    var i := Veteran([], 100, e, [], -1.0);
    NoRulesNoSignal(QUIET.signals, i.traits, i.strategy, i.draws);
    assert Correction(e, [], "SUI-USDC", "bull") == -0.45;
    hide Step1, Correction, Step4, StepExp, Step5, Step6, Step7, Times, Dampen, ProfileOf, BaseThreshold;
  }

  const GOOD_EXPERIENCE := Experience(Some(Pattern(5, 1.0)), 100.0, 0.0, 31)
  const CROSS_RULE := RuleEngine.Rule("MA", "上穿", None, 0.0)
  const SURE := SkillMemory(1.0, "", "")

  lemma {:induction false} NextBoost(memories: seq<SkillMemory>, pair: string, regime: string)
    ensures Boost(memories + [SURE], pair, regime) == Boost(memories, pair, regime) + 0.05
  {
    assert (memories + [SURE])[..|memories|] == memories;
  }

  lemma {:induction false} BestCorrection(memories: seq<SkillMemory>, pair: string, regime: string)
    requires memories == [SURE, SURE, SURE]
    ensures Correction(GOOD_EXPERIENCE, memories, pair, regime) == 0.67
  {
    NextBoost([], pair, regime);
    NextBoost([SURE], pair, regime);
    NextBoost([SURE, SURE], pair, regime);
    assert [] + [SURE] == [SURE] && [SURE] + [SURE] == [SURE, SURE] && [SURE, SURE] + [SURE] == memories;
    assert Boost([], pair, regime) == 0.0;
    hide Boost;
  }

  lemma {:induction false} SureSignal(m: RuleEngine.Market, t: Traits, s: Strategy, d: Draws)
    requires RuleEngine.Signed(RuleEngine.Compile(s.rules), m) == 1.0 && s.philosophy == TrendFollowing
    ensures Step1(m, t, s, d) == (1.0, 1)
  {
    hide IntuitionWeight, RuleEngine.Signed, RuleEngine.Compile;
  }

  lemma {:induction false} CompileOne(rule: RuleEngine.Rule, rules: Rules)
    requires rules == [rule]
    ensures RuleEngine.Compile(rules) == RuleEngine.CompileRule(rule)
  {
    hide RuleEngine.CompileRule;
    assert rules[..0] == [];
  }

  lemma {:induction false} CrossRuleCompiles()
    ensures RuleEngine.CompileRule(CROSS_RULE) == [RuleEngine.Compiled("BUY", RuleEngine.CrossAbove)]
  {
    hide RuleEngine.HasKeyword;
    assert Upper("MA") == "MA";
    assert Upper("BUY") == "BUY";
    assert Lower("上穿") == "上穿";
  }

  lemma {:induction false} CrossRuleFires(rule: RuleEngine.Rule, rules: Rules)
    requires rule == CROSS_RULE && rules == [rule]
    ensures RuleEngine.Signed(RuleEngine.Compile(rules), QUIET.signals) == 1.0
  {
    hide RuleEngine.CompileRule, RuleEngine.Compile, RuleEngine.Signed, RuleEngine.Hits;
    CrossRuleCompiles();
    CompileOne(rule, rules);
    RuleEngine.SignedStrength(RuleEngine.Compile(rules), QUIET.signals);
  }

  /** The bound of 3.05 leaves no slack: a score of 3.0476875 is reached. */
  lemma {:induction false} BoundIsReached()
    ensures var i := Veteran([CROSS_RULE], 0, GOOD_EXPERIENCE, [SURE, SURE, SURE], -1.0);
            ValidInputs(i) && Decide(i).finalScore == 3.0476875
  {
    var rules: Rules := [CROSS_RULE];
    var memories: seq<SkillMemory> := [SURE, SURE, SURE];
    VeteranScores(rules, 0, GOOD_EXPERIENCE, memories, -1.0);
    BestCorrection(memories, "SUI-USDC", "bull");
    CrossRuleFires(CROSS_RULE, rules);
    var i := Veteran(rules, 0, GOOD_EXPERIENCE, memories, -1.0);
    SureSignal(QUIET.signals, i.traits, i.strategy, i.draws);
    hide Step1, Correction, Step2, Step4, StepExp, Step5, Step6, Step7, Times, Dampen, ProfileOf, BaseThreshold;
  }

  // ---- Position sizing ----

  function PositionSizing(basePct: real, stopLoss: real, c: Context): (real, real) {
    (Min(0.25, Times(Times(basePct, c.positionFactor), c.positionMod)), Max(0.03, Times(stopLoss, c.stoplossMod)))
  }

  lemma {:induction false} BoldnessFactors(a: int, b: int)
    requires a <= b
    ensures PositionFactor(a) <= PositionFactor(b) && BaseThreshold(b) <= BaseThreshold(a)
  {
  }

  lemma {:induction false} ContextOf(i: Inputs)
    ensures var (c, t) := (Decide(i).context, i.traits);
            && c.entryThreshold == Times(BaseThreshold(t.boldness), Dampen(ProfileOf(i.mood).threshold, Stability(t)))
            && c.entryDelay == EntryDelay(t.patience) && c.positionFactor == PositionFactor(t.boldness)
            && c.positionMod == Dampen(ProfileOf(i.mood).position, Stability(t))
            && c.stoplossMod == Dampen(ProfileOf(i.mood).stoploss, Stability(t))
  {
    hide Step1, Step2, Step4, Correction, Step5, Step6, Step7, Times, Dampen, ProfileOf, BaseThreshold, Determine, EntryDelay,
         PositionFactor;
  }

  /** Boldness pays in size: with everything else as it was, a bolder panda needs no higher a
      score to execute and never sizes smaller. */
  lemma {:induction false} BolderSizesNoSmaller(i: Inputs, boldness: int, basePct: real, stopLoss: real)
    requires ValidInputs(i) && i.traits.boldness <= boldness && Percent(boldness) && basePct >= 0.0
    ensures var (c, c') := (Decide(i).context, Decide(i.(traits := i.traits.(boldness := boldness))).context);
            && c'.entryThreshold <= c.entryThreshold && c'.positionFactor >= c.positionFactor
            && (c'.entryDelay, c'.positionMod, c'.stoplossMod) == (c.entryDelay, c.positionMod, c.stoplossMod)
            && PositionSizing(basePct, stopLoss, c').0 >= PositionSizing(basePct, stopLoss, c).0
            && PositionSizing(basePct, stopLoss, c').1 == PositionSizing(basePct, stopLoss, c).1
  {
    var i' := i.(traits := i.traits.(boldness := boldness));
    ContextOf(i);
    ContextOf(i');
    TraitRanges(i.traits);
    ProfileBounds(i.mood, Stability(i.traits));
    BoldnessFactors(i.traits.boldness, boldness);
    hide Decide, Times, Dampen, ProfileOf, BaseThreshold, EntryDelay, PositionFactor, ValidTraits, ValidExperience, ValidDraws;
    Ordered(BaseThreshold(boldness), BaseThreshold(i.traits.boldness), Dampen(ProfileOf(i.mood).threshold, Stability(i.traits)));
    var (f, f') := (PositionFactor(i.traits.boldness), PositionFactor(boldness));
    Larger(basePct, f, f');
    Ordered(Times(basePct, f), Times(basePct, f'), Dampen(ProfileOf(i.mood).position, Stability(i.traits)));
  }

  /** Patience waits: one tick more for every twenty points from forty on, whatever else. */
  lemma {:induction false} PatienceWaits(i: Inputs, ticks: int)
    requires ValidInputs(i) && ticks >= 1
    ensures Decide(i).context.entryDelay >= ticks <==> i.traits.patience >= 20 * (ticks + 1)
    ensures Decide(i).context.entryDelay >= 0
  {
    ContextOf(i);
    hide Decide, Times, Dampen, ProfileOf, BaseThreshold, PositionFactor, ValidExperience, ValidDraws;
  }

  /** Each of the three market philosophies has one regime in which it matches in full, and
      matches less in every other; the rest match nowhere in full. */
  lemma {:induction false} EachHasItsRegime(p: Philosophy, regime: string)
    ensures 0.7 <= MarketMatch(p, regime) <= 1.0
    ensures MarketMatch(p, regime) == 1.0
       <==> (p == TrendFollowing && regime == "bull") || (p == Contrarian && regime == "bear") || (p == Grid && regime == "ranging")
    ensures MarketMatch(p, regime) == 0.7
       <==> (p == TrendFollowing && regime == "ranging") || (p == Contrarian && regime == "bull")
            || (p == Grid && (regime == "bull" || regime == "bear"))
    ensures MarketMatch(p, regime) in {0.7, 0.85, 1.0}
  {
  }

  /** A position takes at most a quarter of the equity and keeps the sign of the strategy's
      base size, which nothing else checks; the stop loss is never tighter than 3%. */
  lemma {:induction false} SizingBounds(i: Inputs, basePct: real, stopLoss: real)
    requires ValidInputs(i)
    ensures var (pct, stop) := PositionSizing(basePct, stopLoss, Decide(i).context);
            pct <= 0.25 && (pct >= 0.0 <==> basePct >= 0.0) && stop >= 0.03
  {
    PipelineBounds(i);
    hide Decide, ScoresBounded, ValidInputs, Times;
    var c := Decide(i).context;
    SignOfTimes(c.positionFactor, basePct);
    SignOfTimes(c.positionMod, Times(basePct, c.positionFactor));
  }
}
