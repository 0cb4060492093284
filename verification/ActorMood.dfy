/** What a panda feels about its trades: the hot path and the emotion machine together. */
module ActorMood {
  import opened Events
  import opened Reals
  import opened Text
  import opened Ledger
  import opened TradingState
  import opened TradingRuns
  import opened TradeFacts
  import Emotion

  /** What the actor reports to the emotion machine after a tick. */
  datatype Report = NoReport | Held | Traded(pnl: real, drawdown: real)

  /** A trade is a win if it realized a profit, and a loss otherwise; a large drawdown is
      reported as well. */
  function Felt(ctx: Emotion.Context, r: Report): Emotion.Context {
    match r
    case NoReport => ctx
    case Held => Emotion.ActorIdle(ctx)
    case Traded(pnl, drawdown) =>
      var judged := Emotion.Next(ctx, if pnl > 0.0 then Emotion.Win else Emotion.Loss(-pnl));
      if drawdown > 0.10 then Emotion.Next(judged, Emotion.Drawdown(drawdown)) else judged
  }

  method Feel(ctx: Emotion.EmotionContext, r: Report)
    modifies ctx
    ensures ctx.View() == Felt(old(ctx.View()), r)
  {
    match r {
      case NoReport =>
      case Held =>
        var idle := ctx.ReportIdle();
      case Traded(pnl, drawdown) =>
        if pnl > 0.0 {
          var won := ctx.Transition(Emotion.Win);
        } else {
          var lost := ctx.Transition(Emotion.Loss(-pnl));
        }
        if drawdown > 0.10 {
          var fell := ctx.Transition(Emotion.Drawdown(drawdown));
        }
    }
  }

  /** A realized profit as a share of the initial capital. */
  function Return(realized: real, capital: real): real { realized / Max(capital, 1.0) }

  /** How far the equity is below its peak, as a share. */
  function Drawdown(equity: real, peak: real): real {
    if peak == 0.0 then 0.0 else 1.0 - equity / peak
  }

  /** The report about a tick, from the fact that the transaction wrote. */
  function ReportOf(s: State, t: TickInput, peak: real): Report {
    var (s', outcome) := CommitTick(s, t);
    if outcome.Aborted? then NoReport
    else if t.zone != EXECUTE then Held
    else if outcome.status == EXECUTED && s'.facts != [] then
      var fact := s'.facts[|s'.facts| - 1];
      Traded(Return(fact.realizedPnl, t.initialCapital), Drawdown(fact.after.equity, Max(peak, fact.after.equity)))
    else NoReport
  }

  /** A panda between two hydrations: its rows, its mood and the peak of its equity. */
  datatype Life = Life(state: State, mood: Emotion.Context, peak: real)

  function Lived(life: Life, step: Step): Life {
    match step
    case Tick(t) =>
      var state, report := Next(life.state, step), ReportOf(life.state, t, life.peak);
      Life(state, Felt(life.mood, report),
           if report.Traded? then Max(life.peak, state.facts[|state.facts| - 1].after.equity) else life.peak)
    case _ => life.(state := Next(life.state, step))
  }

  function Lives(life: Life, steps: seq<Step>): Life {
    if steps == [] then life else Lived(Lives(life, steps[..|steps| - 1]), steps[|steps| - 1])
  }

  // ---- One tick ----

  lemma {:induction false} ReportMeans(s: State, t: TickInput, peak: real)
    ensures !Executes(s, t) ==> !ReportOf(s, t, peak).Traded?
    ensures Executes(s, t) ==>
              && SideOf(t) != HOLD && TickExecution(s, t).Filled?
              && var x := TickExecution(s, t);
                 ReportOf(s, t, peak)
                 == Traded(Return(x.realizedDelta, t.initialCapital), Drawdown(x.account.equity, Max(peak, x.account.equity)))
  {
    hide Drawdown, Return;
    if Executes(s, t) {
      var x, mirror, intent := ExecutedTick(s, t);
    }
    hide TickNotional, TickGate, TickExecution, FreshMirror, IntentClashes, FactClashes, IntentOf, GetOrCreateAccount, EntryOf;
  }

  /** A profit is returned as one, and a realized amount is its return on the capital, or on
      1 if that is more. */
  lemma {:induction false} ProfitIsPositive(realized: real, capital: real)
    ensures Return(realized, capital) > 0.0 <==> realized > 0.0
    ensures Times(Return(realized, capital), if capital < 1.0 then 1.0 else capital) == realized
    ensures realized == 0.0 ==> Return(realized, capital) == 0.0
  {
    var m := Max(capital, 1.0);
    assert Times(Return(realized, capital), m) == realized;
    SignOfTimes(m, Return(realized, capital));
  }

  lemma {:induction false} PurchaseRealizesNothing(s: State, t: TickInput)
    requires SideOf(t) == BUY && TickExecution(s, t).Filled?
    ensures TickExecution(s, t).realizedDelta == 0.0
  {
    hide BuyRows, MarkedRows, Refreshed, TickNotional, PairOf, GetOrCreateAccount, Units, ClampedPrice, ReferencePrice;
  }

  /** What an executed tick leaves: one more fact, and a mood that has judged it. */
  lemma {:induction false} ExecutedLife(life: Life, t: TickInput) returns (fact: TradeFact, drawdown: real)
    requires Executes(life.state, t)
    ensures var life' := Lived(life, Tick(t));
            && life'.state.facts == life.state.facts + [fact] && fact.side == SideOf(t) != HOLD
            && (fact.side == BUY ==> fact.realizedPnl == 0.0)
            && life'.mood == Felt(life.mood, Traded(Return(fact.realizedPnl, t.initialCapital), drawdown))
            && drawdown == Drawdown(fact.after.equity, Max(life.peak, fact.after.equity))
            && life'.peak == Max(life.peak, fact.after.equity)
  {
    var x, mirror, intent := ExecutedTick(life.state, t);
    ReportMeans(life.state, t, life.peak);
    fact := FactOf(life.state, t, mirror, x);
    drawdown := Drawdown(x.account.equity, Max(life.peak, x.account.equity));
    if SideOf(t) == BUY {
      PurchaseRealizesNothing(life.state, t);
    }
    hide CommitTick, TickExecution, TickNotional, GetOrCreateAccount, ReportOf, Felt, Drawdown, EntryOf;
  }

  function Ardour(mood: Emotion.Mood): nat {
    match mood
    case Excited => 1
    case Greedy => 2
    case _ => 0
  }

  /** Any other step writes no fact and ends no streak. */
  lemma {:induction false} OtherLife(life: Life, step: Step)
    requires !step.Tick? || !Executes(life.state, step.input)
    ensures var life' := Lived(life, step);
            && life'.state.facts == life.state.facts && life'.mood.winStreak == life.mood.winStreak && life'.peak == life.peak
            && Ardour(life'.mood.current) <= Ardour(life.mood.current)
  {
    hide CommitTick, OwnerStep, UpdateBudget, SetupStep, ReportOf;
    match step {
      case Tick(t) =>
        OtherTicksTouchNothing(life.state, t);
        ReportMeans(life.state, t, life.peak);
      case _ => WalletStepKeepsLog(life.state, step);
    }
  }

  lemma {:induction false} ExecutedIsNotRejected(s: State, t: TickInput)
    requires CommitTick(s, t).1.Recorded? && CommitTick(s, t).1.status == EXECUTED
    ensures Executes(s, t)
  {
    hide TickExecution, TickGate, FactClashes, IntentClashes, FactOf, EntryOf, IntentOf, TickNotional, FreshMirror, GetOrCreateAccount;
  }

  lemma {:induction false} NoTradeIsReported(s: State, t: TickInput, peak: real)
    requires !Executes(s, t)
    ensures ReportOf(s, t, peak) == if CommitTick(s, t).1.Recorded? && t.zone != EXECUTE then Held else NoReport
  {
    if CommitTick(s, t).1.Recorded? && CommitTick(s, t).1.status == EXECUTED {
      ExecutedIsNotRejected(s, t);
    }
    hide CommitTick;
  }

  /** A drawdown is the part of the peak that the equity lacks. */
  lemma {:induction false} BelowPeak(equity: real, peak: real)
    requires peak > 0.0
    ensures Times(1.0 - Drawdown(equity, peak), peak) == equity
    ensures Drawdown(equity, peak) > 0.10 <==> equity < 0.9 * peak
  {
    assert Times(equity / peak, peak) == equity;
    SignOfTimes(peak, equity / peak - 0.9);
    TimesSplits(0.9, equity / peak, peak);
    assert Times(0.9, peak) == 0.9 * peak;
    hide Times;
  }

  /** How a trade is judged. */
  function Judged(ctx: Emotion.Context, realized: real, capital: real, equity: real, peak: real): Emotion.Context {
    var judged := Emotion.Next(ctx, if realized > 0.0 then Emotion.Win else Emotion.Loss(-Return(realized, capital)));
    if equity < 0.9 * peak then Emotion.Next(judged, Emotion.Drawdown(Drawdown(equity, peak))) else judged
  }

  lemma {:induction false} TradeJudged(ctx: Emotion.Context, realized: real, capital: real, equity: real, peak: real)
    requires peak > 0.0
    ensures Felt(ctx, Traded(Return(realized, capital), Drawdown(equity, Max(peak, equity))))
         == Judged(ctx, realized, capital, equity, peak)
  {
    BelowPeak(equity, Max(peak, equity));
    ProfitIsPositive(realized, capital);
    hide Emotion.Next, Return, Drawdown, Times;
  }

  /** What a panda feels about a trade: a win exactly if it realized a profit, and a fright as
      well exactly if it leaves less than nine tenths of the peak. */
  lemma {:induction false} MoodOfTrade(life: Life, t: TickInput)
    requires life.peak > 0.0 && Executes(life.state, t)
    ensures var life' := Lived(life, Tick(t));
            && life'.state.facts != []
            && var fact := life'.state.facts[|life'.state.facts| - 1];
               life'.mood == Judged(life.mood, fact.realizedPnl, t.initialCapital, fact.after.equity, life.peak)
  {
    var fact, drawdown := ExecutedLife(life, t);
    TradeJudged(life.mood, fact.realizedPnl, t.initialCapital, fact.after.equity, life.peak);
    hide Lived, Executes, Return, Drawdown, Felt, Judged;
  }

  /** And about any other tick: nothing if it failed or its order did, boredom if it only
      watched. */
  lemma {:induction false} MoodOfTick(life: Life, t: TickInput)
    requires !Executes(life.state, t)
    ensures var (outcome, mood) := (CommitTick(life.state, t).1, Lived(life, Tick(t)).mood);
            mood == if outcome.Recorded? && t.zone != EXECUTE then Emotion.ActorIdle(life.mood) else life.mood
  {
    NoTradeIsReported(life.state, t, life.peak);
    hide CommitTick, ReportOf, Emotion.ActorIdle, Executes;
  }

  // ---- Streaks are sales ----

  /** The facts at the end that realized a profit. */
  function WinsInARow(facts: seq<TradeFact>): nat {
    if facts == [] || facts[|facts| - 1].realizedPnl <= 0.0 then 0 else 1 + WinsInARow(facts[..|facts| - 1])
  }

  lemma {:induction false} WinsNext(facts: seq<TradeFact>, fact: TradeFact)
    ensures WinsInARow(facts + [fact]) == if fact.realizedPnl > 0.0 then WinsInARow(facts) + 1 else 0
  {
    assert (facts + [fact])[..|facts|] == facts;
  }

  /** The facts written since a life began. */
  function Since(start: Life, steps: seq<Step>): seq<TradeFact> {
    var facts := Lives(start, steps).state.facts;
    if |start.state.facts| <= |facts| then facts[|start.state.facts|..] else []
  }

  lemma {:induction false} FactsGrow(start: Life, steps: seq<Step>)
    ensures start.state.facts <= Lives(start, steps).state.facts
  {
    if steps != [] {
      var life, step := Lives(start, steps[..|steps| - 1]), steps[|steps| - 1];
      FactsGrow(start, steps[..|steps| - 1]);
      hide Lived, Executes;
      if step.Tick? && Executes(life.state, step.input) {
        var fact, drawdown := ExecutedLife(life, step.input);
      } else {
        OtherLife(life, step);
      }
    }
  }

  lemma {:induction false} SinceNext(start: Life, steps: seq<Step>, fact: TradeFact)
    requires steps != []
    ensures var facts, facts' := Lives(start, steps[..|steps| - 1]).state.facts, Lives(start, steps).state.facts;
            && (facts' == facts ==> Since(start, steps) == Since(start, steps[..|steps| - 1]))
            && (facts' == facts + [fact] ==> Since(start, steps) == Since(start, steps[..|steps| - 1]) + [fact])
  {
    FactsGrow(start, steps[..|steps| - 1]);
    FactsGrow(start, steps);
    hide Lives;
  }

  lemma {:induction false} JudgedStreak(ctx: Emotion.Context, pnl: real, drawdown: real)
    ensures Felt(ctx, Traded(pnl, drawdown)).winStreak == if pnl > 0.0 then ctx.winStreak + 1 else 0
    ensures Ardour(Felt(ctx, Traded(pnl, drawdown)).current) > Ardour(ctx.current) ==> pnl > 0.0 && ctx.winStreak >= 2
  {
  }

  lemma {:induction false} SinceNextSame(start: Life, steps: seq<Step>)
    requires steps != [] && Lives(start, steps[..|steps| - 1]).state.facts == Lives(start, steps).state.facts
    ensures Since(start, steps) == Since(start, steps[..|steps| - 1])
  {
    hide Lives;
  }

  lemma {:induction false} NothingSince(start: Life)
    ensures Since(start, []) == [] && WinsInARow(Since(start, [])) == 0
  {
  }

  lemma {:induction false} LivesLast(start: Life, steps: seq<Step>)
    requires steps != []
    ensures Lives(start, steps) == Lived(Lives(start, steps[..|steps| - 1]), steps[|steps| - 1])
  {
    hide Lived;
  }

  /** A life is a run, felt. */
  lemma {:induction false} LivesAreRuns(start: Life, steps: seq<Step>)
    ensures Lives(start, steps).state == Run(start.state, steps)
  {
    if steps != [] {
      LivesAreRuns(start, steps[..|steps| - 1]);
      LivesLast(start, steps);
      hide Next, ReportOf, Felt, Lives;
    }
  }

  /** The highest of the first peak and the equities after these facts. */
  ghost predicate Highest(peak: real, first: real, facts: seq<TradeFact>) {
    && first <= peak && (forall i :: 0 <= i < |facts| ==> facts[i].after.equity <= peak)
    && (peak == first || exists i :: 0 <= i < |facts| && facts[i].after.equity == peak)
  }

  lemma {:induction false} HighestNext(peak: real, first: real, facts: seq<TradeFact>, fact: TradeFact)
    requires Highest(peak, first, facts)
    ensures Highest(Max(peak, fact.after.equity), first, facts + [fact])
  {
    var all := facts + [fact];
    assert forall i :: 0 <= i < |facts| ==> all[i] == facts[i];
    assert all[|facts|] == fact;
    if peak != first {
      var i :| 0 <= i < |facts| && facts[i].after.equity == peak;
      assert all[i].after.equity == peak;
    }
  }

  /** The peak that drawdowns are measured from is the highest equity after any trade since
      the hydration, or the one it began with. */
  lemma {:induction false} PeakIsHighest(start: Life, steps: seq<Step>)
    ensures Highest(Lives(start, steps).peak, start.peak, Since(start, steps))
  {
    if steps == [] {
      NothingSince(start);
    } else {
      PeakIsHighest(start, steps[..|steps| - 1]);
      var life, step := Lives(start, steps[..|steps| - 1]), steps[|steps| - 1];
      LivesLast(start, steps);
      hide Lives, Lived, Executes, Since, Highest;
      if step.Tick? && Executes(life.state, step.input) {
        var fact, drawdown := ExecutedLife(life, step.input);
        SinceNext(start, steps, fact);
        HighestNext(life.peak, start.peak, Since(start, steps[..|steps| - 1]), fact);
      } else {
        OtherLife(life, step);
        SinceNextSame(start, steps);
      }
    }
  }

  /** Orders of either side; purchases realize nothing. */
  predicate Booked(facts: seq<TradeFact>) {
    forall i :: 0 <= i < |facts| ==> facts[i].side != HOLD && (facts[i].side == BUY ==> facts[i].realizedPnl == 0.0)
  }

  lemma {:induction false} SinceIsBooked(start: Life, steps: seq<Step>)
    ensures Booked(Since(start, steps))
  {
    if steps == [] {
      NothingSince(start);
    } else {
      SinceIsBooked(start, steps[..|steps| - 1]);
      var life, step := Lives(start, steps[..|steps| - 1]), steps[|steps| - 1];
      LivesLast(start, steps);
      hide Lives, Lived, Executes, Since;
      if step.Tick? && Executes(life.state, step.input) {
        var fact, drawdown := ExecutedLife(life, step.input);
        SinceNext(start, steps, fact);
      } else {
        OtherLife(life, step);
        SinceNextSame(start, steps);
      }
    }
  }

  lemma {:induction false} StreakAfterTrade(life: Life, t: TickInput, fact: TradeFact, facts: seq<TradeFact>)
    requires Executes(life.state, t) && Lived(life, Tick(t)).state.facts == life.state.facts + [fact]
    requires life.mood.winStreak == WinsInARow(facts)
    ensures Lived(life, Tick(t)).mood.winStreak == WinsInARow(facts + [fact])
  {
    hide Lived, Executes, WinsInARow, Felt;
    var written, drawdown := ExecutedLife(life, t);
    assert (life.state.facts + [fact])[|life.state.facts|] == (life.state.facts + [written])[|life.state.facts|];
    WinsNext(facts, fact);
    ProfitIsPositive(fact.realizedPnl, t.initialCapital);
    JudgedStreak(life.mood, Return(fact.realizedPnl, t.initialCapital), drawdown);
  }

  /** Over a whole life from a hydration on, whatever else happens to the panda: its streak
      of wins is the number of profitable facts at the end of those written since, and only
      sales are profitable, so a purchase among them ends it. */
  lemma {:induction false} StreakCountsSales(start: Life, steps: seq<Step>)
    requires start.mood.winStreak == 0
    ensures Lives(start, steps).mood.winStreak == WinsInARow(Since(start, steps))
    ensures Booked(Since(start, steps))
  {
    SinceIsBooked(start, steps);
    if steps == [] {
      NothingSince(start);
    } else {
      StreakCountsSales(start, steps[..|steps| - 1]);
      var life, step := Lives(start, steps[..|steps| - 1]), steps[|steps| - 1];
      LivesLast(start, steps);
      hide Lives, Lived, Executes, Since, WinsInARow, Booked;
      if step.Tick? && Executes(life.state, step.input) {
        var fact, drawdown := ExecutedLife(life, step.input);
        SinceNext(start, steps, fact);
        StreakAfterTrade(life, step.input, fact, Since(start, steps[..|steps| - 1]));
      } else {
        OtherLife(life, step);
        SinceNextSame(start, steps);
      }
    }
  }

  predicate WinningSale(fact: TradeFact) { fact.side == SELL && fact.realizedPnl > 0.0 }

  ghost predicate ThreeSalesInARow(facts: seq<TradeFact>) {
    exists i :: 0 <= i < |facts| - 2 && WinningSale(facts[i]) && WinningSale(facts[i + 1]) && WinningSale(facts[i + 2])
  }

  lemma {:induction false} ThreeWins(facts: seq<TradeFact>)
    requires Booked(facts)
    requires WinsInARow(facts) >= 3
    ensures ThreeSalesInARow(facts)
  {
    var n := |facts|;
    var one := facts[..n - 1];
    assert WinsInARow(one) >= 2 && one[n - 2] == facts[n - 2];
    var two := one[..n - 2];
    assert WinsInARow(two) >= 1 && two[n - 3] == facts[n - 3];
    assert WinningSale(facts[n - 3]) && WinningSale(facts[n - 3 + 1]) && WinningSale(facts[n - 3 + 2]);
  }

  lemma {:induction false} ThreeStay(facts: seq<TradeFact>, fact: TradeFact)
    requires ThreeSalesInARow(facts)
    ensures ThreeSalesInARow(facts + [fact])
  {
    var longer := facts + [fact];
    var i :| 0 <= i < |facts| - 2 && WinningSale(facts[i]) && WinningSale(facts[i + 1]) && WinningSale(facts[i + 2]);
    assert WinningSale(longer[i]) && WinningSale(longer[i + 1]) && WinningSale(longer[i + 2]);
  }

  /** A panda grows more excited than it woke up, or greedy, only after three profitable
      sales in a row with no purchase between them. */
  lemma {:induction false} ExcitementNeedsThreeSales(start: Life, steps: seq<Step>)
    requires start.mood.winStreak == 0
    ensures Ardour(Lives(start, steps).mood.current) > Ardour(start.mood.current) ==> ThreeSalesInARow(Since(start, steps))
  {
    if steps != [] {
      var front := steps[..|steps| - 1];
      var life, step := Lives(start, front), steps[|steps| - 1];
      ExcitementNeedsThreeSales(start, front);
      StreakCountsSales(start, front);
      StreakCountsSales(start, steps);
      LivesLast(start, steps);
      hide Lives, Lived, Executes, Since, WinsInARow, Felt, ThreeSalesInARow, Ardour, Booked;
      if step.Tick? && Executes(life.state, step.input) {
        var fact, drawdown := ExecutedLife(life, step.input);
        var pnl := fact.realizedPnl / Max(step.input.initialCapital, 1.0);
        SinceNext(start, steps, fact);
        JudgedStreak(life.mood, pnl, drawdown);
        if Ardour(Felt(life.mood, Traded(pnl, drawdown)).current) > Ardour(life.mood.current) {
          ThreeWins(Since(start, steps));
        } else if ThreeSalesInARow(Since(start, front)) {
          ThreeStay(Since(start, front), fact);
        }
      } else {
        OtherLife(life, step);
        SinceNextSame(start, steps);
      }
    }
  }

  /** Every sale directly follows a purchase. */
  predicate BuysBeforeEachSale(facts: seq<TradeFact>) {
    forall i :: 0 < i < |facts| && facts[i].side == SELL ==> facts[i - 1].side == BUY
  }

  lemma {:induction false} BuyersWinOnce(facts: seq<TradeFact>)
    requires Booked(facts)
    requires BuysBeforeEachSale(facts)
    ensures WinsInARow(facts) <= 1 && !ThreeSalesInARow(facts)
  {
    var n := |facts|;
    if n >= 2 {
      assert facts[..n - 1][n - 2] == facts[n - 2];
    }
    forall i | 0 <= i < n - 2 ensures !WinningSale(facts[i]) || !WinningSale(facts[i + 1]) {
    }
  }

  /** So a panda that buys before each sale, however well it trades, never has a streak of
      two and never grows more excited than it woke up. */
  lemma {:induction false} BuyersStayCalm(start: Life, steps: seq<Step>)
    requires start.mood.winStreak == 0 && BuysBeforeEachSale(Since(start, steps))
    ensures Lives(start, steps).mood.winStreak <= 1
    ensures Ardour(Lives(start, steps).mood.current) <= Ardour(start.mood.current)
  {
    hide Lives, Since;
    StreakCountsSales(start, steps);
    ExcitementNeedsThreeSales(start, steps);
    BuyersWinOnce(Since(start, steps));
  }

  /** A purchase is reported as a loss of nothing: it ends every streak and, without the
      bamboo heart, every excitement.  Fear it can only deepen. */
  lemma {:induction false} BuyingCalms(life: Life, t: TickInput)
    requires Executes(life.state, t) && SideOf(t) == BUY
    ensures var mood, mood' := life.mood, Lived(life, Tick(t)).mood;
            && mood'.winStreak == 0 && mood'.lossStreak == mood.lossStreak + 1
            && (mood.talent != Emotion.BAMBOO_HEART ==>
                  Ardour(mood'.current) == 0 && Emotion.Fear(mood'.current) >= Emotion.Fear(mood.current))
  {
    hide Lived, Executes;
    var fact, drawdown := ExecutedLife(life, t);
    ProfitIsPositive(fact.realizedPnl, t.initialCapital);
  }

  lemma {:induction false} FirstPurchaseEquity(account: Account, pair: string, asset: string, notional: real, reference: real)
    requires account.debt == 0.0 && Execute(account, [], pair, asset, BUY, notional, reference).Filled?
    ensures Execute(account, [], pair, asset, BUY, notional, reference).account.equity == account.cash - Min(notional, account.cash)
  {
    hide Units, Worth, Unrealized, OpenProfit, ClampedPrice;
    var spend, price := Min(notional, account.cash), ClampedPrice(reference);
    var rows := BuyRows([], pair, asset, spend, Units(spend, price), price);
    OneRow(rows);
    FreshRowHasNoProfit(rows[0]);
  }

  lemma {:induction false} ExecutionOf(s: State, t: TickInput)
    requires SideOf(t) != HOLD && s.account.Some?
    ensures TickExecution(s, t) == Execute(s.account.value, s.rows, PairOf(t.event), t.event.asset, SideOf(t), TickNotional(s, t),
                                           ReferencePrice(t.event))
  {
    hide Execute, TickNotional, PairOf, ReferencePrice;
  }

  lemma {:induction false} FirstFactEquity(s: State, t: TickInput, fact: TradeFact)
    requires Executes(s, t) && SideOf(t) == BUY && s.rows == [] && s.account.Some? && s.account.value.debt == 0.0
    requires Next(s, Tick(t)).facts == s.facts + [fact]
    ensures fact.after.equity == s.account.value.cash - Min(TickNotional(s, t), s.account.value.cash)
  {
    var x, mirror, intent := ExecutedTick(s, t);
    assert (s.facts + [fact])[|s.facts|] == (s.facts + [FactOf(s, t, mirror, x)])[|s.facts|];
    ExecutionOf(s, t);
    hide Execute, TickExecution, Executes, TickNotional, CommitTick, PairOf, ReferencePrice;
    FirstPurchaseEquity(s.account.value, PairOf(t.event), t.event.asset, TickNotional(s, t), ReferencePrice(t.event));
  }

  lemma {:induction false} CautiousJudged(ctx: Emotion.Context, drawdown: real)
    requires ctx.current == Emotion.Cautious && ctx.talent != Emotion.BAMBOO_HEART
    ensures Felt(ctx, Traded(0.0, drawdown)).current == if drawdown > 0.10 then Emotion.Panicking else Emotion.Cautious
  {
  }

  /** Equity leaves out cost, so a purchase looks like a drawdown.  A cautious panda without
      the bamboo heart panics at its first purchase exactly when that leaves less cash than
      nine tenths of its peak, even if the price has not moved at all. */
  lemma {:induction false} FirstPurchasePanicsExactlyWhen(life: Life, t: TickInput)
    requires Executes(life.state, t) && SideOf(t) == BUY && life.state.rows == [] && life.peak > 0.0
    requires life.mood.talent != Emotion.BAMBOO_HEART && life.mood.current == Emotion.Cautious
    requires life.state.account.Some? && life.state.account.value.debt == 0.0
    ensures var cash := life.state.account.value.cash;
            Lived(life, Tick(t)).mood.current
            == if cash - Min(TickNotional(life.state, t), cash) < 0.9 * life.peak then Emotion.Panicking else Emotion.Cautious
  {
    var fact, drawdown := ExecutedLife(life, t);
    FirstFactEquity(life.state, t, fact);
    hide Lived, Executes, TickNotional, Drawdown, Felt;
    ProfitIsPositive(fact.realizedPnl, t.initialCapital);
    CautiousJudged(life.mood, drawdown);
    BelowPeak(fact.after.equity, Max(life.peak, fact.after.equity));
  }
}
