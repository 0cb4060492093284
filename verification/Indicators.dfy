/** Indicators over a series of closing prices, on exact reals. */
module Indicators {
  import opened Reals
  import opened Text
  import Candles
  import RuleEngine
  import RuleMeanings

  function Sum(values: seq<real>): real {
    if values == [] then 0.0 else Sum(values[..|values| - 1]) + values[|values| - 1]
  }

  function Quotient(x: real, y: real): (q: real)
    requires y != 0.0
    ensures q * y == x
    ensures x >= 0.0 && y > 0.0 ==> q >= 0.0
  {
    x / y
  }

  function Window(values: seq<real>, period: nat): seq<real> {
    if |values| >= period then values[|values| - period..] else values
  }

  function Sma(values: seq<real>, period: nat): real
    requires period > 0
  {
    var window := Window(values, period);
    if window == [] then 0.0 else Quotient(Sum(window), |window| as real)
  }

  // ---- RSI ----

  function Delta(closes: seq<real>, i: nat): real
    requires 0 < i < |closes|
  {
    closes[i] - closes[i - 1]
  }

  function Gains(closes: seq<real>, from: nat, to: nat): (g: real)
    requires 0 < from <= to <= |closes|
    ensures g >= 0.0
  {
    if from == to then 0.0
    else Gains(closes, from, to - 1) + if Delta(closes, to - 1) >= 0.0 then Delta(closes, to - 1) else 0.0
  }

  function Losses(closes: seq<real>, from: nat, to: nat): (l: real)
    requires 0 < from <= to <= |closes|
    ensures l >= 0.0
  {
    if from == to then 0.0
    else Losses(closes, from, to - 1) + if Delta(closes, to - 1) >= 0.0 then 0.0 else -Delta(closes, to - 1)
  }

  function RsiFromStrength(rs: real): real
    requires rs >= 0.0
  {
    100.0 - Quotient(100.0, 1.0 + rs)
  }

  function RsiOf(gains: real, losses: real): real
    requires gains >= 0.0 && losses >= 0.0
  {
    if losses == 0.0 then (if gains > 0.0 then 100.0 else 50.0)
    else RsiFromStrength(Quotient(gains, losses))
  }

  function Rsi(closes: seq<real>, period: nat): real {
    if |closes| < period + 1 then 50.0
    else RsiOf(Gains(closes, |closes| - period, |closes|), Losses(closes, |closes| - period, |closes|))
  }

  method RsiLoop(closes: seq<real>, period: nat) returns (rsi: real)
    ensures rsi == Rsi(closes, period)
  {
    if |closes| < period + 1 {
      return 50.0;
    }
    var gains, losses := 0.0, 0.0;
    for i := |closes| - period to |closes|
      invariant gains == Gains(closes, |closes| - period, i) && losses == Losses(closes, |closes| - period, i)
    {
      var delta := closes[i] - closes[i - 1];
      if delta >= 0.0 {
        gains := gains + delta;
      } else {
        losses := losses - delta;
      }
    }
    if losses == 0.0 {
      return if gains > 0.0 then 100.0 else 50.0;
    }
    var rs := gains / losses;
    rsi := 100.0 - 100.0 / (1.0 + rs);
  }

  // ---- EMA and the MACD cross ----

  function Smoothing(period: nat): (k: real)
    ensures period >= 1 ==> 0.0 < k <= 1.0
  {
    2.0 / (period + 1) as real
  }

  /** The average after value i. */
  function EmaAt(values: seq<real>, k: real, i: nat): real
    requires i < |values|
  {
    if i == 0 then values[0] else Times(values[i], k) + Times(EmaAt(values, k, i - 1), 1.0 - k)
  }

  function EmaSeries(values: seq<real>, period: nat): (r: seq<real>)
    ensures |r| == |values|
  {
    seq(|values|, i requires 0 <= i < |values| => EmaAt(values, Smoothing(period), i))
  }

  method Ema(values: seq<real>, period: nat) returns (out: seq<real>)
    ensures out == EmaSeries(values, period)
  {
    if values == [] {
      return [];
    }
    var k := 2.0 / (period + 1) as real;
    out := [values[0]];
    for i := 1 to |values|
      invariant |out| == i
      invariant forall j :: 0 <= j < i ==> out[j] == EmaAt(values, k, j)
    {
      out := out + [Times(values[i], k) + Times(out[|out| - 1], 1.0 - k)];
    }
  }

  function Differences(a: seq<real>, b: seq<real>): (r: seq<real>)
    requires |a| == |b|
    ensures |r| == |a|
  {
    seq(|a|, i requires 0 <= i < |a| => a[i] - b[i])
  }

  function MacdLine(closes: seq<real>): (r: seq<real>)
    ensures |r| == |closes|
  {
    Differences(EmaSeries(closes, 12), EmaSeries(closes, 26))
  }

  /** The distance of the MACD line from its signal line. */
  function Histogram(closes: seq<real>): (r: seq<real>)
    ensures |r| == |closes|
  {
    Differences(MacdLine(closes), EmaSeries(MacdLine(closes), 9))
  }

  predicate Crosses(prev: real, curr: real) {
    prev <= 0.0 < curr || prev >= 0.0 > curr
  }

  predicate MacdCross(closes: seq<real>) {
    |closes| >= 35 && Crosses(Histogram(closes)[|closes| - 2], Histogram(closes)[|closes| - 1])
  }

  method MacdCrossOf(closes: seq<real>) returns (crossed: bool)
    ensures crossed == MacdCross(closes)
  {
    if |closes| < 35 {
      return false;
    }
    var ema12 := Ema(closes, 12);
    var ema26 := Ema(closes, 26);
    var macdLine := Differences(ema12, ema26);
    var signal := Ema(macdLine, 9);
    var prevDiff := macdLine[|macdLine| - 2] - signal[|signal| - 2];
    var currDiff := macdLine[|macdLine| - 1] - signal[|signal| - 1];
    crossed := prevDiff <= 0.0 < currDiff || prevDiff >= 0.0 > currDiff;
  }

  function TrendStrength(price: real, ma: real): real {
    if ma > 0.0 then
      var t := Quotient(if price >= ma then price - ma else ma - price, ma);
      if t < 1.0 then t else 1.0
    else 0.0
  }

  /** An average over a period starts at the first value and then goes two parts in period + 1
      of the way to each new one. */
  lemma {:induction false} EmaMoves(values: seq<real>, period: nat, i: nat)
    requires i < |values|
    ensures var ema := EmaSeries(values, period);
            && ema[0] == values[0]
            && (i > 0 ==> Times(ema[i] - ema[i - 1], (period + 1) as real) == 2.0 * (values[i] - ema[i - 1]))
  {
    if i > 0 {
      var ema := EmaSeries(values, period);
      var k, v, e, n := Smoothing(period), values[i], ema[i - 1], (period + 1) as real;
      assert Times(k, n) == 2.0;
      assert ema[i] - e == Times(v, k) + Times(e, 1.0 - k) - e;
      Whole(e, k);
      TimesSplits(e, v, k);
      assert ema[i] - e == Times(v - e, k);
      TimesGroups(v - e, k, n);
      assert Times(v - e, 2.0) == 2.0 * (v - e);
      hide Times, EmaAt, Smoothing;
    }
  }

  lemma {:induction false} EmaOfPrefix(values: seq<real>, longer: seq<real>, k: real, i: nat)
    requires values <= longer && i < |values|
    ensures EmaAt(longer, k, i) == EmaAt(values, k, i)
  {
    if i > 0 {
      EmaOfPrefix(values, longer, k, i - 1);
    }
  }

  lemma {:induction false} SeriesOfPrefix(values: seq<real>, longer: seq<real>, period: nat)
    requires values <= longer
    ensures EmaSeries(values, period) <= EmaSeries(longer, period)
  {
    hide EmaAt, Smoothing;
    forall i | 0 <= i < |values| ensures EmaSeries(longer, period)[i] == EmaSeries(values, period)[i] {
      EmaOfPrefix(values, longer, Smoothing(period), i);
    }
  }

  /** How far the 12-26 line is from its own average over 9, at the last close. */
  function Divergence(closes: seq<real>): real
    requires closes != []
  {
    var fast, slow := EmaSeries(closes, 12), EmaSeries(closes, 26);
    var line := seq(|closes|, i requires 0 <= i < |closes| => fast[i] - slow[i]);
    line[|closes| - 1] - EmaSeries(line, 9)[|closes| - 1]
  }

  lemma {:induction false} LastOfHistogram(closes: seq<real>)
    requires closes != []
    ensures Histogram(closes)[|closes| - 1] == Divergence(closes)
  {
    hide EmaAt, Smoothing;
    var fast, slow := EmaSeries(closes, 12), EmaSeries(closes, 26);
    assert MacdLine(closes) == seq(|closes|, i requires 0 <= i < |closes| => fast[i] - slow[i]);
    hide EmaSeries;
  }

  lemma {:induction false} HistogramOfPrefix(closes: seq<real>, n: nat)
    requires 0 < n <= |closes|
    ensures Histogram(closes)[n - 1] == Divergence(closes[..n])
  {
    hide EmaSeries;
    var front := closes[..n];
    SeriesOfPrefix(front, closes, 12);
    SeriesOfPrefix(front, closes, 26);
    assert MacdLine(front) <= MacdLine(closes) by {
      forall i | 0 <= i < n ensures MacdLine(front)[i] == MacdLine(closes)[i] {
        assert EmaSeries(closes, 12)[i] == EmaSeries(front, 12)[i] && EmaSeries(closes, 26)[i] == EmaSeries(front, 26)[i];
      }
    }
    SeriesOfPrefix(MacdLine(front), MacdLine(closes), 9);
    assert EmaSeries(MacdLine(closes), 9)[n - 1] == EmaSeries(MacdLine(front), 9)[n - 1];
    hide MacdLine;
    LastOfHistogram(front);
  }

  /** The cross compares now with one close ago: there are 35 closes, and the divergence has
      come from one side of zero, or from zero, to the other. */
  lemma {:induction false} MacdCrossExactlyWhen(closes: seq<real>)
    ensures MacdCross(closes)
       <==> |closes| >= 35
            && var (before, now) := (Divergence(closes[..|closes| - 1]), Divergence(closes));
               (before <= 0.0 && now > 0.0) || (before >= 0.0 && now < 0.0)
  {
    if |closes| >= 35 {
      HistogramOfPrefix(closes, |closes| - 1);
      HistogramOfPrefix(closes, |closes|);
      assert closes[..|closes|] == closes;
    }
    hide Histogram, Divergence;
  }

  // ---- Every average lies among its values ----

  function Least(values: seq<real>, i: nat): (m: real)
    requires i < |values|
    ensures exists j :: 0 <= j <= i && values[j] == m
    ensures forall j :: 0 <= j <= i ==> m <= values[j]
  {
    if i == 0 then values[0] else if values[i] < Least(values, i - 1) then values[i] else Least(values, i - 1)
  }

  function Greatest(values: seq<real>, i: nat): (m: real)
    requires i < |values|
    ensures exists j :: 0 <= j <= i && values[j] == m
    ensures forall j :: 0 <= j <= i ==> m >= values[j]
  {
    if i == 0 then values[0] else if values[i] > Greatest(values, i - 1) then values[i] else Greatest(values, i - 1)
  }

  lemma {:induction false} EmaBetween(values: seq<real>, k: real, i: nat, low: real, high: real)
    requires i < |values| && 0.0 <= k <= 1.0
    requires forall j :: 0 <= j <= i ==> low <= values[j] <= high
    ensures low <= EmaAt(values, k, i) <= high
  {
    hide Times;
    if i > 0 {
      EmaBetween(values, k, i - 1, low, high);
      var e := EmaAt(values, k, i - 1);
      Ordered(low, values[i], k);
      Ordered(values[i], high, k);
      Ordered(low, e, 1.0 - k);
      Ordered(e, high, 1.0 - k);
      Whole(low, k);
      Whole(high, k);
    }
  }

  /** Every value of an exponential average lies between the least and the greatest of
      the values it has seen. */
  lemma {:induction false} EmaWithinPrefix(values: seq<real>, period: nat, i: nat)
    requires period >= 1 && i < |values|
    ensures Least(values, i) <= EmaSeries(values, period)[i] <= Greatest(values, i)
  {
    EmaBetween(values, Smoothing(period), i, Least(values, i), Greatest(values, i));
  }

  lemma {:induction false} OneMore(x: real, n: nat)
    ensures Times(x, (n + 1) as real) == Times(x, n as real) + x
  {
  }

  lemma {:induction false} SumBetween(values: seq<real>, low: real, high: real)
    requires forall j :: 0 <= j < |values| ==> low <= values[j] <= high
    ensures Times(low, |values| as real) <= Sum(values) <= Times(high, |values| as real)
  {
    if values != [] {
      SumBetween(values[..|values| - 1], low, high);
      OneMore(low, |values| - 1);
      OneMore(high, |values| - 1);
    }
    hide Times;
  }

  lemma {:induction false} QuotientBetween(x: real, y: real, low: real, high: real)
    requires y > 0.0 && Times(low, y) <= x <= Times(high, y)
    ensures low <= Quotient(x, y) <= high
  {
    var q := Quotient(x, y);
    SignOfTimes(y, q - low);
    SignOfTimes(y, high - q);
    TimesDistributes(y, q, low);
    TimesDistributes(y, high, q);
    assert Times(low, y) == Times(y, low) && Times(high, y) == Times(y, high) && Times(y, q) == x;
  }

  /** The moving average lies between the least and the greatest close of its window. */
  lemma {:induction false} SmaWithinWindow(values: seq<real>, period: nat)
    requires period > 0 && values != []
    ensures var window := Window(values, period);
            window != [] && Least(window, |window| - 1) <= Sma(values, period) <= Greatest(window, |window| - 1)
  {
    var window := Window(values, period);
    var n, low, high := |window| as real, Least(window, |window| - 1), Greatest(window, |window| - 1);
    SumBetween(window, low, high);
    hide Sum, Least, Greatest;
    QuotientBetween(Sum(window), n, low, high);
  }

  // ---- Mapping the closes by a * x + b ----

  function Mapped(values: seq<real>, a: real, b: real): (r: seq<real>)
    ensures |r| == |values|
  {
    seq(|values|, i requires 0 <= i < |values| => Times(a, values[i]) + b)
  }

  lemma {:induction false} AffineMix(a: real, b: real, x: real, y: real, k: real)
    ensures Times(Times(a, x) + b, k) + Times(Times(a, y) + b, 1.0 - k)
         == Times(a, Times(x, k) + Times(y, 1.0 - k)) + b
  {
    assert (a * x + b) * k == a * (x * k) + b * k;
    assert (a * y + b) * (1.0 - k) == a * (y * (1.0 - k)) + b - b * k;
  }

  lemma {:induction false} EmaIsAffine(values: seq<real>, k: real, i: nat, a: real, b: real)
    requires i < |values|
    ensures EmaAt(Mapped(values, a, b), k, i) == Times(a, EmaAt(values, k, i)) + b
  {
    hide Times;
    if i > 0 {
      EmaIsAffine(values, k, i - 1, a, b);
      AffineMix(a, b, values[i], EmaAt(values, k, i - 1), k);
    }
  }

  lemma {:induction false} MacdLineScales(closes: seq<real>, a: real, b: real)
    ensures MacdLine(Mapped(closes, a, b)) == Mapped(MacdLine(closes), a, 0.0)
  {
    hide Times;
    forall i | 0 <= i < |closes|
      ensures MacdLine(Mapped(closes, a, b))[i] == Mapped(MacdLine(closes), a, 0.0)[i]
    {
      EmaIsAffine(closes, Smoothing(12), i, a, b);
      EmaIsAffine(closes, Smoothing(26), i, a, b);
      TimesDistributes(a, EmaAt(closes, Smoothing(12), i), EmaAt(closes, Smoothing(26), i));
    }
  }

  lemma {:induction false} HistogramScales(closes: seq<real>, a: real, b: real)
    ensures Histogram(Mapped(closes, a, b)) == Mapped(Histogram(closes), a, 0.0)
  {
    hide Times;
    MacdLineScales(closes, a, b);
    var line := MacdLine(closes);
    hide MacdLine;
    forall i | 0 <= i < |closes|
      ensures Histogram(Mapped(closes, a, b))[i] == Mapped(Histogram(closes), a, 0.0)[i]
    {
      EmaIsAffine(line, Smoothing(9), i, a, 0.0);
      TimesDistributes(a, line[i], EmaAt(line, Smoothing(9), i));
    }
  }

  lemma {:induction false} CrossesScale(a: real, prev: real, curr: real)
    requires a != 0.0
    ensures Crosses(Times(a, prev), Times(a, curr)) == Crosses(prev, curr)
  {
    SignOfTimes(a, prev);
    SignOfTimes(a, curr);
    hide Times;
  }

  /** The MACD cross does not change when the closes are mapped to a * x + b, for any a
      but zero: neither with the scale of the prices, nor when they are mirrored. */
  lemma {:induction false} MacdCrossUnchanged(closes: seq<real>, a: real, b: real)
    requires a != 0.0
    ensures MacdCross(Mapped(closes, a, b)) == MacdCross(closes)
  {
    HistogramScales(closes, a, b);
    if |closes| >= 35 {
      var h := Histogram(closes);
      hide Histogram, Crosses, Times;
      CrossesScale(a, h[|closes| - 2], h[|closes| - 1]);
      assert Times(a, h[|closes| - 2]) + 0.0 == Times(a, h[|closes| - 2]);
    }
  }

  /** The text of the boolean that rules test. */
  function MacdText(cross: bool): string { if cross then "true" else "false" }

  /** So a golden-cross rule fires on every cross, downward ones too, and a death-cross
      rule fires exactly when there is none: mirroring the market changes neither. */
  lemma {:induction false} MacdRulesSeeNoDirection(closes: seq<real>, b: real, m: RuleEngine.Market)
    requires m.macd == MacdText(MacdCross(closes))
    ensures RuleEngine.Fires(RuleEngine.MacdGolden, m) <==> MacdCross(closes)
    ensures RuleEngine.Fires(RuleEngine.MacdDeath, m) <==> !RuleEngine.Fires(RuleEngine.MacdGolden, m)
    ensures MacdText(MacdCross(Mapped(closes, -1.0, b))) == m.macd
  {
    MacdCrossUnchanged(closes, -1.0, b);
    hide MacdCross;
  }

  // ---- What RSI means ----

  lemma {:induction false} QuotientIs(x: real, y: real, q: real)
    requires y != 0.0 && q * y == x
    ensures Quotient(x, y) == q
  {
    var p := Quotient(x, y);
    assert (p - q) * y == p * y - q * y == 0.0;
  }

  lemma {:induction false} StrengthIsShare(gains: real, losses: real)
    requires gains >= 0.0 && losses > 0.0
    ensures 100.0 - Quotient(100.0, 1.0 + Quotient(gains, losses)) == Times(100.0, Quotient(gains, gains + losses))
  {
    var rs := Quotient(gains, losses);
    var share := Quotient(losses, gains + losses);
    assert (1.0 + rs) * losses == gains + losses;
    assert share * (gains + losses) == losses;
    assert (share * (1.0 + rs) - 1.0) * losses == 0.0;
    assert share * (1.0 + rs) == 1.0;
    QuotientIs(100.0, 1.0 + rs, 100.0 * share);
    QuotientIs(gains, gains + losses, 1.0 - share);
  }

  /** RSI is the share of the gains in all movement, in percent, and 50 without movement. */
  lemma {:induction false} RsiIsShare(gains: real, losses: real)
    requires gains >= 0.0 && losses >= 0.0
    ensures RsiOf(gains, losses) ==
              if gains + losses == 0.0 then 50.0 else Times(100.0, Quotient(gains, gains + losses))
  {
    if losses == 0.0 {
      if gains > 0.0 {
        QuotientIs(gains, gains + losses, 1.0);
      }
    } else {
      StrengthIsShare(gains, losses);
    }
  }

  lemma {:induction false} ShareBounds(x: real, y: real)
    requires x >= 0.0 && y >= 0.0 && x + y > 0.0
    ensures 0.0 <= Quotient(x, x + y) <= 1.0
    ensures Quotient(x, x + y) + Quotient(y, x + y) == 1.0
  {
    QuotientIs(y, x + y, 1.0 - Quotient(x, x + y));
  }

  lemma {:induction false} RsiBounds(closes: seq<real>, period: nat)
    ensures 0.0 <= Rsi(closes, period) <= 100.0
  {
    hide Gains, Losses, RsiOf;
    if |closes| >= period + 1 {
      var g := Gains(closes, |closes| - period, |closes|);
      var l := Losses(closes, |closes| - period, |closes|);
      RsiIsShare(g, l);
      if g + l > 0.0 {
        ShareBounds(g, l);
      }
    }
  }

  /** A scale turns gains and losses by its size, and exchanges them when it is negative. */
  lemma {:induction false} MovementScales(closes: seq<real>, a: real, b: real, from: nat, to: nat)
    requires 0 < from <= to <= |closes| && a != 0.0
    ensures var size := if a > 0.0 then a else -a;
            var (g, l) := (Gains(closes, from, to), Losses(closes, from, to));
            Gains(Mapped(closes, a, b), from, to) == Times(size, if a > 0.0 then g else l)
            && Losses(Mapped(closes, a, b), from, to) == Times(size, if a > 0.0 then l else g)
  {
    if to > from {
      MovementScales(closes, a, b, from, to - 1);
      var d := Delta(closes, to - 1);
      TimesDistributes(a, closes[to - 1], closes[to - 2]);
      SignOfTimes(a, d);
      SignOfTimes(a, -d);
      var size := if a > 0.0 then a else -a;
      Adds(size, Gains(closes, from, to - 1), d);
      Adds(size, Gains(closes, from, to - 1), -d);
      Adds(size, Losses(closes, from, to - 1), d);
      Adds(size, Losses(closes, from, to - 1), -d);
      Negates(a, d);
      hide Times;
    } else {
      ZeroTimes(a);
      ZeroTimes(-a);
    }
  }

  lemma {:induction false} RsiScaleFree(gains: real, losses: real, size: real)
    requires gains >= 0.0 && losses >= 0.0 && size > 0.0
    ensures Times(size, gains) >= 0.0 && Times(size, losses) >= 0.0
    ensures RsiOf(Times(size, gains), Times(size, losses)) == RsiOf(gains, losses)
  {
    SignOfTimes(size, gains);
    SignOfTimes(size, losses);
    RsiIsShare(gains, losses);
    RsiIsShare(Times(size, gains), Times(size, losses));
    Adds(size, gains, losses);
    SignOfTimes(size, gains + losses);
    hide RsiOf;
    if gains + losses > 0.0 {
      var q := Quotient(gains, gains + losses);
      assert q * (size * (gains + losses)) == size * (q * (gains + losses));
      QuotientIs(Times(size, gains), Times(size, gains + losses), q);
    }
  }

  lemma {:induction false} RsiSwaps(gains: real, losses: real)
    requires gains >= 0.0 && losses >= 0.0
    ensures RsiOf(losses, gains) == 100.0 - RsiOf(gains, losses)
  {
    hide RsiOf;
    RsiIsShare(gains, losses);
    RsiIsShare(losses, gains);
    if gains + losses > 0.0 {
      ShareBounds(gains, losses);
      Adds(100.0, Quotient(gains, gains + losses), Quotient(losses, gains + losses));
    }
  }

  /** RSI does not change with the scale of the prices, and mirrored prices turn it to
      100 - RSI. */
  lemma {:induction false} RsiUnderMapping(closes: seq<real>, period: nat, a: real, b: real)
    requires a != 0.0
    ensures Rsi(Mapped(closes, a, b), period) ==
              if a > 0.0 then Rsi(closes, period) else 100.0 - Rsi(closes, period)
  {
    if |closes| >= period + 1 {
      var from := |closes| - period;
      var g, l := Gains(closes, from, |closes|), Losses(closes, from, |closes|);
      MovementScales(closes, a, b, from, |closes|);
      hide Gains, Losses, RsiOf, Times, Mapped;
      if a > 0.0 {
        RsiScaleFree(g, l, a);
      } else {
        RsiScaleFree(l, g, -a);
        RsiSwaps(g, l);
      }
    }
  }

  // ---- Volatility ----

  /** The relative moves between neighbours of a prefix; nothing moves from a price of zero. */
  function Returns(window: seq<real>, n: nat): seq<real>
    requires n <= |window|
  {
    if n < 2 then []
    else
      Returns(window, n - 1)
      + if window[n - 2] != 0.0 then [Quotient(window[n - 1] - window[n - 2], window[n - 2])] else []
  }

  function SquaredDeviations(values: seq<real>, mean: real): (sum: real)
    ensures sum >= 0.0
  {
    if values == [] then 0.0
    else
      var d := values[|values| - 1] - mean;
      assert Times(d, d) >= 0.0;
      SquaredDeviations(values[..|values| - 1], mean) + Times(d, d)
  }

  function Mean(values: seq<real>): real
    requires values != []
  {
    Quotient(Sum(values), |values| as real)
  }

  /** The square of the volatility. */
  function Variance(closes: seq<real>, period: nat): (v: real)
    requires period > 0
    ensures v >= 0.0
  {
    var window := Window(closes, period);
    var moves := Returns(window, |window|);
    if |closes| < 2 || moves == [] then 0.0
    else Quotient(SquaredDeviations(moves, Mean(moves)), |moves| as real)
  }

  method VarianceLoop(closes: seq<real>, period: nat) returns (variance: real)
    requires period > 0
    ensures variance == Variance(closes, period)
  {
    if |closes| < 2 {
      return 0.0;
    }
    hide Quotient, Times;
    var window := Window(closes, period);
    var moves := [];
    for i := 1 to |window|
      invariant moves == Returns(window, i)
    {
      if window[i - 1] != 0.0 {
        moves := moves + [Quotient(window[i] - window[i - 1], window[i - 1])];
      }
    }
    if moves == [] {
      return 0.0;
    }
    var total := 0.0;
    for i := 0 to |moves|
      invariant total == Sum(moves[..i])
    {
      assert moves[..i + 1][..i] == moves[..i];
      total := total + moves[i];
    }
    assert moves[..|moves|] == moves;
    var mean, squares := Quotient(total, |moves| as real), 0.0;
    for i := 0 to |moves|
      invariant squares == SquaredDeviations(moves[..i], mean)
    {
      assert moves[..i + 1][..i] == moves[..i];
      squares := squares + Times(moves[i] - mean, moves[i] - mean);
    }
    variance := Quotient(squares, |moves| as real);
  }

  lemma {:induction false} DeviationsVanishExactlyWhen(values: seq<real>, mean: real)
    ensures SquaredDeviations(values, mean) == 0.0 <==> forall i :: 0 <= i < |values| ==> values[i] == mean
  {
    if values != [] {
      var front, d := values[..|values| - 1], values[|values| - 1] - mean;
      DeviationsVanishExactlyWhen(front, mean);
      if d != 0.0 {
        SignOfTimes(d, d);
      }
      hide SquaredDeviations;
    }
  }

  lemma {:induction false} SumOfEqual(values: seq<real>, x: real)
    requires forall i :: 0 <= i < |values| ==> values[i] == x
    ensures Sum(values) == Times(x, |values| as real)
  {
    if values == [] {
      ZeroTimes(x);
    } else {
      var n := |values| - 1;
      SumOfEqual(values[..n], x);
      Adds(x, n as real, 1.0);
      assert Times(x, 1.0) == x;
      hide Times;
    }
  }

  /** The returns of the window that the volatility looks at. */
  function WindowReturns(closes: seq<real>, period: nat): seq<real> {
    Returns(Window(closes, period), |Window(closes, period)|)
  }

  lemma {:induction false} QuotientVanishes(x: real, y: real)
    requires y != 0.0
    ensures Quotient(x, y) == 0.0 <==> x == 0.0
  {
  }

  /** Among prices that are not zero there is one return for each neighbouring pair: the move
      as a share of the earlier price. */
  lemma {:induction false} ReturnsAreMoves(window: seq<real>, n: nat)
    requires n <= |window| && forall i :: 0 <= i < |window| ==> window[i] != 0.0
    ensures |Returns(window, n)| == if n < 2 then 0 else n - 1
    ensures forall k :: 0 <= k < |Returns(window, n)| ==> Times(Returns(window, n)[k], window[k]) == window[k + 1] - window[k]
  {
    if n >= 2 {
      ReturnsAreMoves(window, n - 1);
      assert Times(Quotient(window[n - 1] - window[n - 2], window[n - 2]), window[n - 2]) == window[n - 1] - window[n - 2];
      hide Times, Quotient;
    }
  }

  /** There is no volatility exactly when every move was the same share of its price: a
      steady climb counts as calm. */
  lemma {:induction false} CalmExactlyWhen(closes: seq<real>, period: nat)
    requires period > 0
    ensures Variance(closes, period) == 0.0
       <==> |closes| < 2
            || forall i, j :: 0 <= i < j < |WindowReturns(closes, period)|
                 ==> WindowReturns(closes, period)[i] == WindowReturns(closes, period)[j]
  {
    hide Returns, Sum, Window, SquaredDeviations, Quotient;
    var moves := WindowReturns(closes, period);
    if |closes| >= 2 && moves != [] {
      DeviationsVanishExactlyWhen(moves, Mean(moves));
      QuotientVanishes(SquaredDeviations(moves, Mean(moves)), |moves| as real);
      if forall i, j :: 0 <= i < j < |moves| ==> moves[i] == moves[j] {
        SumOfEqual(moves, moves[0]);
        QuotientIs(Sum(moves), |moves| as real, moves[0]);
      }
    }
  }

  lemma {:induction false} ReturnScaleFree(d: real, y: real, a: real)
    requires a != 0.0 && y != 0.0
    ensures Times(a, y) != 0.0 && Quotient(Times(a, d), Times(a, y)) == Quotient(d, y)
  {
    SignOfTimes(a, y);
    var q := Quotient(d, y);
    assert q * (a * y) == a * (q * y);
    QuotientIs(Times(a, d), Times(a, y), q);
  }

  /** The same prices in another unit. */
  function Scaled(values: seq<real>, a: real): (r: seq<real>)
    ensures |r| == |values|
  {
    Mapped(values, a, 0.0)
  }

  lemma {:induction false} ReturnsScaleFree(window: seq<real>, a: real, n: nat)
    requires a != 0.0 && n <= |window|
    ensures Returns(Scaled(window, a), n) == Returns(window, n)
  {
    if n >= 2 {
      ReturnsScaleFree(window, a, n - 1);
      var x, y := window[n - 1], window[n - 2];
      SignOfTimes(a, y);
      if y != 0.0 {
        TimesDistributes(a, x, y);
        TimesGroups(Quotient(x - y, y), a, y);
        ReturnScaleFree(x - y, y, a);
      }
      hide Returns, Quotient, Times;
    }
  }

  lemma {:induction false} VarianceScaleFree(closes: seq<real>, period: nat, a: real)
    requires a != 0.0 && period > 0
    ensures Variance(Scaled(closes, a), period) == Variance(closes, period)
  {
    assert Window(Scaled(closes, a), period) == Scaled(Window(closes, period), a);
    hide Returns, Quotient, Scaled;
    ReturnsScaleFree(Window(closes, period), a, |Window(closes, period)|);
  }

  // ---- The snapshot and the rules that read it ----

  /** The volatility is given by its square. */
  datatype Snapshot = Snapshot(
    price: real, prevPrice: real, volume: real, rsi: real, ma20: real, prevMa20: real, macdSignal: bool,
    variance: real, trendStrength: real)

  function Closes(candles: seq<Candles.Candle>): (closes: seq<real>)
    ensures |closes| == |candles|
  {
    seq(|candles|, i requires 0 <= i < |candles| => candles[i].close)
  }

  function ComputeIndicators(candles: seq<Candles.Candle>): Option<Snapshot> {
    var n, closes := |candles|, Closes(candles);
    if n < 2 then None
    else
      Some(Snapshot(closes[n - 1], closes[n - 2], candles[n - 1].volume, Rsi(closes, 14), Sma(closes, 20),
                    Sma(closes[..n - 1], 20), MacdCross(closes), Variance(closes, 14),
                    TrendStrength(closes[n - 1], Sma(closes, 20))))
  }

  function MarketOf(s: Snapshot): RuleEngine.Market {
    RuleEngine.Market(s.rsi, s.price, s.prevPrice, s.ma20, s.prevMa20, MacdText(s.macdSignal))
  }

  lemma {:induction false} SumScales(values: seq<real>, a: real)
    ensures Sum(Scaled(values, a)) == Times(a, Sum(values))
  {
    if values == [] {
      ZeroTimes(a);
    } else {
      hide Times;
      var front := values[..|values| - 1];
      SumScales(front, a);
      assert Scaled(values, a)[..|values| - 1] == Scaled(front, a);
      Adds(a, Sum(front), values[|values| - 1]);
    }
  }

  lemma {:induction false} QuotientScales(a: real, x: real, y: real)
    requires y != 0.0
    ensures Quotient(Times(a, x), y) == Times(a, Quotient(x, y))
  {
    var q := Quotient(x, y);
    assert a * q * y == a * (q * y);
    QuotientIs(Times(a, x), y, Times(a, q));
  }

  lemma {:induction false} SmaScales(values: seq<real>, period: nat, a: real)
    requires period > 0
    ensures Sma(Scaled(values, a), period) == Times(a, Sma(values, period))
  {
    var window := Window(values, period);
    assert Window(Scaled(values, a), period) == Scaled(window, a);
    ZeroTimes(a);
    if window != [] {
      hide Sum, Times, Mapped;
      SumScales(window, a);
      var n := |window| as real;
      QuotientScales(a, Sum(window), n);
    }
  }

  /** The trend's strength is a share of the average, from 0 on it to 1 at as far away as
      the average itself; without a positive average it is 0. */
  lemma {:induction false} TrendStrengthBounds(price: real, ma: real)
    ensures 0.0 <= TrendStrength(price, ma) <= 1.0
    ensures TrendStrength(price, ma) == 0.0 <==> ma <= 0.0 || price == ma
    ensures TrendStrength(price, ma) == 1.0 <==> ma > 0.0 && (price >= 2.0 * ma || price <= 0.0)
  {
    if ma > 0.0 {
      var d := if price >= ma then price - ma else ma - price;
      var q := Quotient(d, ma);
      assert q * ma == d && (q - 1.0) * ma == d - ma;
      SignOfTimes(ma, q);
      SignOfTimes(ma, q - 1.0);
      hide Quotient;
    }
  }

  lemma {:induction false} TrendStrengthScales(price: real, ma: real, a: real)
    requires a > 0.0
    ensures TrendStrength(Times(a, price), Times(a, ma)) == TrendStrength(price, ma)
  {
    SignOfTimes(a, ma);
    if ma > 0.0 {
      var d := if price >= ma then price - ma else ma - price;
      TimesDistributes(a, price, ma);
      SignOfTimes(a, price - ma);
      Negates(a, price - ma);
      var q := Quotient(d, ma);
      assert q * (a * ma) == a * (q * ma);
      QuotientIs(Times(a, d), Times(a, ma), q);
    }
  }

  /** The mean of the closes from one index to another. */
  predicate IsMeanOf(mean: real, closes: seq<real>, from: nat, to: nat)
    requires from < to <= |closes|
  {
    Times(mean, (to - from) as real) == Sum(closes[from..to])
  }

  lemma {:induction false} SmaIsMean(values: seq<real>, period: nat)
    requires period > 0 && values != []
    ensures IsMeanOf(Sma(values, period), values, if |values| > period then |values| - period else 0, |values|)
  {
    hide Sum;
    var from := if |values| > period then |values| - period else 0;
    assert Window(values, period) == values[from..|values|];
  }

  /** What the fields stand for: the last close and the one before it, the last volume, and the
      means of the last twenty closes with and without the last. */
  lemma {:induction false} SnapshotFields(candles: seq<Candles.Candle>)
    requires |candles| >= 2
    ensures var (n, s) := (|candles|, ComputeIndicators(candles));
            && s.Some?
            && s.value.price == candles[n - 1].close && s.value.prevPrice == candles[n - 2].close
            && s.value.volume == candles[n - 1].volume
            && IsMeanOf(s.value.ma20, Closes(candles), if n > 20 then n - 20 else 0, n)
            && IsMeanOf(s.value.prevMa20, Closes(candles), if n > 21 then n - 21 else 0, n - 1)
            && s.value.trendStrength == TrendStrength(s.value.price, s.value.ma20)
  {
    var n, closes := |candles|, Closes(candles);
    SmaIsMean(closes, 20);
    SmaIsMean(closes[..n - 1], 20);
    var from := if n > 21 then n - 21 else 0;
    assert closes[..n - 1][from..n - 1] == closes[from..n - 1];
    hide Sum, Sma, Rsi, Variance, MacdCross, TrendStrength;
  }

  /** One candle later, price and average are the previous price and the previous average. */
  lemma {:induction false} SnapshotsChain(candles: seq<Candles.Candle>, next: Candles.Candle)
    requires |candles| >= 2
    ensures var (now, later) := (ComputeIndicators(candles), ComputeIndicators(candles + [next]));
            && now.Some? && later.Some?
            && later.value.prevPrice == now.value.price && later.value.prevMa20 == now.value.ma20
            && later.value.price == next.close && later.value.volume == next.volume
  {
    assert Closes(candles + [next])[..|candles|] == Closes(candles);
    hide Sma, Rsi, Variance, MacdCross, TrendStrength;
  }

  lemma {:induction false} GainsShift(closes: seq<real>, skip: nat, from: nat, to: nat)
    requires skip < from <= to <= |closes|
    ensures Gains(closes[skip..], from - skip, to - skip) == Gains(closes, from, to)
    ensures Losses(closes[skip..], from - skip, to - skip) == Losses(closes, from, to)
  {
    if from < to {
      GainsShift(closes, skip, from, to - 1);
    }
  }

  /** RSI depends on the last fifteen closes alone, the volatility on the last fourteen. */
  lemma {:induction false} RecentClosesDecide(closes: seq<real>, others: seq<real>)
    requires |closes| >= 15 && |others| >= 15 && closes[|closes| - 15..] == others[|others| - 15..]
    ensures Rsi(closes, 14) == Rsi(others, 14) && Variance(closes, 14) == Variance(others, 14)
  {
    GainsShift(closes, |closes| - 15, |closes| - 14, |closes|);
    GainsShift(others, |others| - 15, |others| - 14, |others|);
    var (a, b) := (closes[|closes| - 15..], others[|others| - 15..]);
    assert closes[|closes| - 14..] == a[1..] && others[|others| - 14..] == b[1..];
    hide Gains, Losses, RsiOf, Returns, SquaredDeviations;
  }

  /** The same candles with their prices in another unit; volumes are amounts of the base
      asset. */
  function Repriced(candles: seq<Candles.Candle>, a: real): (r: seq<Candles.Candle>)
    ensures |r| == |candles|
  {
    seq(|candles|, i requires 0 <= i < |candles| =>
      var c := candles[i];
      Candles.Candle(Times(a, c.open), Times(a, c.high), Times(a, c.low), Times(a, c.close), c.volume, c.timestamp))
  }

  function RepricedSnapshot(s: Snapshot, a: real): Snapshot {
    s.(price := Times(a, s.price), prevPrice := Times(a, s.prevPrice),
       ma20 := Times(a, s.ma20), prevMa20 := Times(a, s.prevMa20))
  }

  /** In another unit prices and averages scale, and volume, RSI, the MACD cross, the
      volatility and the trend's strength stay. */
  lemma {:induction false} SnapshotScales(candles: seq<Candles.Candle>, a: real)
    requires a > 0.0 && |candles| >= 2
    ensures ComputeIndicators(Repriced(candles, a)) == Some(RepricedSnapshot(ComputeIndicators(candles).value, a))
  {
    var n, closes := |candles|, Closes(candles);
    assert Closes(Repriced(candles, a)) == Scaled(closes, a);
    assert Scaled(closes, a)[..n - 1] == Scaled(closes[..n - 1], a);
    hide Sma, Times, TrendStrength, MacdCross, Rsi, Variance;
    RsiUnderMapping(closes, 14, a, 0.0);
    MacdCrossUnchanged(closes, a, 0.0);
    SmaScales(closes, 20, a);
    SmaScales(closes[..n - 1], 20, a);
    VarianceScaleFree(closes, 14, a);
    TrendStrengthScales(closes[n - 1], Sma(closes, 20), a);
  }

  predicate ReadsNoPrice(test: RuleEngine.Test) {
    !test.PriceAbove? && !test.PriceBelow?
  }

  lemma {:induction false} FiresInAnyUnit(test: RuleEngine.Test, s: Snapshot, s': Snapshot, a: real)
    requires a > 0.0 && ReadsNoPrice(test)
    requires s' == RepricedSnapshot(s, a)
    ensures RuleEngine.Fires(test, MarketOf(s')) == RuleEngine.Fires(test, MarketOf(s))
  {
    TimesDistributes(a, s.price, s.ma20);
    TimesDistributes(a, s.prevPrice, s.prevMa20);
    SignOfTimes(a, s.price - s.ma20);
    SignOfTimes(a, s.prevPrice - s.prevMa20);
    hide Times;
  }

  lemma {:induction false} SameHits(compiled: seq<RuleEngine.Compiled>, s: Snapshot, s': Snapshot, a: real, sell: bool)
    requires a > 0.0 && forall i :: 0 <= i < |compiled| ==> ReadsNoPrice(compiled[i].test)
    requires s' == RepricedSnapshot(s, a)
    ensures RuleEngine.Hits(compiled, MarketOf(s'), sell) == RuleEngine.Hits(compiled, MarketOf(s), sell)
  {
    hide RuleEngine.Fires, Times;
    if compiled != [] {
      SameHits(compiled[..|compiled| - 1], s, s', a, sell);
      FiresInAnyUnit(compiled[|compiled| - 1].test, s, s', a);
    }
  }

  lemma {:induction false} SameSigned(compiled: seq<RuleEngine.Compiled>, s: Snapshot, a: real)
    requires a > 0.0 && forall i :: 0 <= i < |compiled| ==> ReadsNoPrice(compiled[i].test)
    ensures RuleEngine.Signed(compiled, MarketOf(RepricedSnapshot(s, a))) == RuleEngine.Signed(compiled, MarketOf(s))
  {
    hide MarketOf, RepricedSnapshot, ReadsNoPrice, RuleEngine.Hits, RuleEngine.Ratio;
    SameHits(compiled, s, RepricedSnapshot(s, a), a, false);
    SameHits(compiled, s, RepricedSnapshot(s, a), a, true);
  }

  /** From closes to signal: a strategy without PRICE rules gets the same signed strength
      whatever unit the prices are quoted in. */
  lemma {:induction false} UnitDoesNotMatter(compiled: seq<RuleEngine.Compiled>, candles: seq<Candles.Candle>, a: real)
    requires a > 0.0 && |candles| >= 2
    requires forall i :: 0 <= i < |compiled| ==> ReadsNoPrice(compiled[i].test)
    ensures var (s, s') := (ComputeIndicators(candles).value, ComputeIndicators(Repriced(candles, a)).value);
            RuleEngine.Signed(compiled, MarketOf(s')) == RuleEngine.Signed(compiled, MarketOf(s))
  {
    SnapshotScales(candles, a);
    hide *;
    SameSigned(compiled, ComputeIndicators(candles).value, a);
  }

  // ---- Rules on candles ----

  function OnCandles(rule: RuleEngine.Rule, candles: seq<Candles.Candle>): real
    requires |candles| >= 2
  {
    RuleMeanings.Strength(rule, MarketOf(ComputeIndicators(candles).value))
  }

  lemma {:induction false} MarketOnCandles(candles: seq<Candles.Candle>)
    requires |candles| >= 2
    ensures var (n, closes, m) := (|candles|, Closes(candles), MarketOf(ComputeIndicators(candles).value));
            && m.rsi == Rsi(closes, 14) && m.price == closes[n - 1] && m.prevPrice == closes[n - 2]
            && m.ma20 == Sma(closes, 20) && m.prevMa20 == Sma(closes[..n - 1], 20)
            && m.macd == MacdText(MacdCross(closes))
  {
    hide Rsi, Sma, Variance, MacdCross, TrendStrength;
  }

  /** From candles to rules: what an RSI or a price rule counts, in terms of the closes. */
  lemma {:induction false} ThresholdRulesOnCandles(rule: RuleEngine.Rule, candles: seq<Candles.Candle>)
    requires |candles| >= 2
    ensures var (n, closes, side) := (|candles|, Closes(candles), RuleMeanings.SideOf(rule));
            && (Upper(rule.indicator) == "RSI" && RuleMeanings.Mentions(Lower(rule.condition), "<") ==>
                  OnCandles(rule, candles) == if Rsi(closes, 14) < rule.threshold then side else 0.0)
            && (Upper(rule.indicator) == "PRICE" && RuleMeanings.Mentions(Lower(rule.condition), ">") ==>
                  OnCandles(rule, candles) == if closes[n - 1] > rule.threshold then side else 0.0)
  {
    MarketOnCandles(candles);
    var m := MarketOf(ComputeIndicators(candles).value);
    hide ComputeIndicators, MarketOf, Closes, Rsi, Sma, RuleMeanings.Strength, RuleMeanings.Mentions, RuleMeanings.SideOf, Upper, Lower;
    if Upper(rule.indicator) == "RSI" {
      RuleMeanings.RsiRules(rule, m);
      assert "<" in ["below", "less", "低于", "<"];
    } else if Upper(rule.indicator) == "PRICE" {
      RuleMeanings.PriceRules(rule, m);
      assert ">" in ["above", ">"];
    }
  }

  /** And what a moving-average rule counts: the last close and the one before it, each against
      the mean of the twenty closes up to it. */
  lemma {:induction false} CrossRulesOnCandles(rule: RuleEngine.Rule, candles: seq<Candles.Candle>)
    requires |candles| >= 2 && Upper(rule.indicator) == "MA"
    ensures var (n, closes, side) := (|candles|, Closes(candles), RuleMeanings.SideOf(rule));
            && (Lower(rule.condition) == "cross_above" ==>
                  OnCandles(rule, candles)
                  == if closes[n - 1] > Sma(closes, 20) && closes[n - 2] <= Sma(closes[..n - 1], 20) then side else 0.0)
            && (Lower(rule.condition) == "cross_below" ==>
                  OnCandles(rule, candles)
                  == if closes[n - 1] < Sma(closes, 20) && closes[n - 2] >= Sma(closes[..n - 1], 20) then side else 0.0)
  {
    MarketOnCandles(candles);
    var m := MarketOf(ComputeIndicators(candles).value);
    RuleMeanings.CrossRules(rule, m);
    hide ComputeIndicators, MarketOf, Closes, Sma, RuleMeanings.Strength, RuleMeanings.SideOf, Upper, Lower;
  }
}
