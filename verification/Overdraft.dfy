/** Equity leaves out cost, so it can be negative while a position is open; an order to sell
    is then sized below zero, adds to the position and takes cash away.  A run of the hot
    path from an empty state in which this ends with negative cash. */
module Overdraft {
  import opened Events
  import opened Reals
  import opened Text
  import opened Ledger
  import opened PolicyGate
  import opened TradingState
  import opened TradingRuns
  import opened TradingLaws

  // ---- Sales that buy ----

  lemma {:induction false} UnitsNegate(money: real, price: real)
    requires price > 0.0
    ensures Units(-money, price) == -Units(money, price)
  {
  }

  lemma {:induction false} SignOfUnits(money: real, price: real)
    requires price > 0.0
    ensures Units(money, price) < 0.0 <==> money < 0.0
  {
    hide Units;
    UnitsNegate(money, price);
    UnitsAreWorthTheMoney(-money, price);
  }

  lemma {:induction false} SignOfWorth(amount: real, price: real)
    requires price > 0.0
    ensures Worth(amount, price) < 0.0 <==> amount < 0.0
  {
    assert Worth(amount, price) == Times(price, amount);
    SignOfTimes(price, amount);
  }

  lemma {:induction false} SaleBuysOnLedger(account: Account, rows: seq<Position>, pair: string, asset: string, notional: real,
                                            reference: real)
    requires Execute(account, rows, pair, asset, SELL, notional, reference).Filled?
    ensures var x, k := Execute(account, rows, pair, asset, SELL, notional, reference), FindPair(rows, pair);
            && k < |rows| == |x.rows| && rows[k].quantity > 0.0
            && (x.rows[k].quantity > rows[k].quantity <==> notional < 0.0)
            && (x.account.cash < account.cash <==> notional < 0.0)
  {
    hide Units, Worth, Unrealized, OpenProfit;
    var price := ClampedPrice(reference);
    SignOfUnits(notional, price);
    SignOfWorth(Min(Units(notional, price), rows[FindPair(rows, pair)].quantity), price);
  }

  lemma {:induction false} SignOfSize(base: real, pct: real)
    ensures Worth(base, pct) < 0.0 <==> (base < 0.0 && pct > 0.0) || (base > 0.0 && pct < 0.0)
  {
    if base != 0.0 {
      SignOfTimes(base, pct);
    }
  }

  /** In every state that a run reaches, an executed order to sell adds to its position and
      takes cash away exactly when the size asked for and what it is a share of (the
      equity, or the initial capital if that is zero) have opposite signs. */
  lemma {:induction false} SaleBuysExactlyWhen(s: State, t: TickInput)
    requires Inv(s) && Executes(s, t) && SideOf(t) == SELL
    ensures s.account.Some?
    ensures var s', k := Next(s, Tick(t)), FindPair(s.rows, PairOf(t.event));
            var equity := s.account.value.equity;
            var base := if equity == 0.0 then t.initialCapital else equity;
            var buys := (base < 0.0 && t.positionPct > 0.0) || (base > 0.0 && t.positionPct < 0.0);
            && s'.account.Some? && k < |s.rows| == |s'.rows|
            && (s'.rows[k].quantity > s.rows[k].quantity <==> buys)
            && (s'.account.value.cash < s.account.value.cash <==> buys)
  {
    var x, mirror, intent := ExecutedTick(s, t);
    hide Executes, CommitTick, Execute, ReferencePrice, PairOf, LogInv, HistoryInv, BookInv, StopInv, TickGate, FactOf, EntryOf;
    SaleBuysOnLedger(GetOrCreateAccount(s, t.vaultId, t.initialCapital), s.rows, PairOf(t.event), t.event.asset,
                     TickNotional(s, t), ReferencePrice(t.event));
    var equity := s.account.value.equity;
    var base := if equity == 0.0 then t.initialCapital else equity;
    SignOfSize(base, t.positionPct);
  }

  // ---- A demo wallet that trades ----

  /** A quarter of the equity, the most that the position sizing allows. */
  function Trade(action: Side, price: real, n: nat): TickInput
    requires action != HOLD
  {
    DemoTick(Some("p"), action, 0.25, price, n)
  }

  /** The wallet of the demo setup, with keys below n taken and no realized loss so far. */
  ghost predicate Ready(s: State, n: nat) {
    && Inv(s) && s.account.Some?
    && s.vault.Some? && s.vault.value.id == "v" && s.vault.value.suiObject != ""
    && s.policy == Some(PolicyRow("p", "0xp", Some("agent"), ["DEEP-SUI"], 50.0, 8.0, false, 1))
    && (forall id :: id in s.intents ==> id < n && s.intents[id].decisionHash.timestamp < n as real)
    && (forall i :: 0 <= i < |s.facts| ==> s.facts[i].id < n && s.facts[i].realizedPnl >= 0.0)
    && (forall i :: 0 <= i < |s.entries| ==> s.entries[i].id < n)
  }

  /** One position, with the account that the equity refresh leaves beside it. */
  ghost predicate Holds(s: State, cash: real, quantity: real, avg: real, price: real) {
    && s.account.Some? && s.account.value.cash == cash && s.account.value.debt == 0.0
    && s.account.value.equity == cash + Worth(quantity, price - avg)
    && |s.rows| == 1 && s.rows[0].pair == "DEEP-SUI" && s.rows[0].quantity == quantity && s.rows[0].avgEntryPrice == avg
  }

  lemma {:induction false} NoLoss(facts: seq<TradeFact>, day: int)
    requires forall i :: 0 <= i < |facts| ==> facts[i].realizedPnl >= 0.0
    ensures DailyLoss(facts, day) == 0.0
  {
    if facts != [] {
      NoLoss(facts[..|facts| - 1], day);
    }
  }

  lemma {:induction false} FreshKeys(s: State, action: Side, price: real, n: nat)
    requires Ready(s, n) && action != HOLD
    ensures !IntentClashes(s, Trade(action, price, n)) && !FactClashes(s, Trade(action, price, n))
  {
    hide Inv, Millionths;
  }

  lemma {:induction false} TradeExecutes(s: State, action: Side, price: real, n: nat)
    requires Ready(s, n) && action != HOLD
    requires var t := Trade(action, price, n);
             && TickNotional(s, t) <= 50.0
             && if action == BUY then TickNotional(s, t) > 0.0 && s.account.value.cash > 0.0
                else |s.rows| == 1 && s.rows[0].pair == "DEEP-SUI" && s.rows[0].quantity > 0.0
    ensures Executes(s, Trade(action, price, n))
  {
    hide Inv, DailyLoss, IntentClashes, FactClashes, TickNotional, NormalizePair, Executes, CommitTick;
    FreshKeys(s, action, price, n);
    NoLoss(s.facts, 0);
    StoredPolicyDecides(s, Trade(action, price, n));
    assert "DEEP-SUI" in s.policy.value.allowedPairs;
  }

  lemma {:induction false} KeysOfTrade(s: State, action: Side, price: real, n: nat, mirror: PolicyMirror, x: Execution)
    requires action != HOLD && x.Filled?
    ensures var t := Trade(action, price, n);
            && t.intentId == n && DecisionHash(t).timestamp == n as real
            && FactOf(s, t, mirror, x).id == n && EntryOf(t, x).id == n
            && FactOf(s, t, mirror, x).realizedPnl == x.realizedDelta
  {
    hide Millionths, TickNotional, GetOrCreateAccount, Snapshot;
  }

  lemma {:induction false} ReadyExtends(s: State, n: nat, s': State, account: Account, rows: seq<Position>, intent: OrderIntent,
                                        fact: TradeFact, entry: LedgerEntry)
    requires Ready(s, n) && Inv(s')
    requires s' == State(Some(account), rows, s.vault, s.policy, s.intents[n := intent], s.facts + [fact], s.entries + [entry])
    requires intent.decisionHash.timestamp == n as real && fact.id == n && fact.realizedPnl >= 0.0 && entry.id == n
    ensures Ready(s', n + 1)
  {
    hide Inv;
  }

  lemma {:induction false} TradeEffect(s: State, action: Side, price: real, n: nat)
    requires Ready(s, n) && action != HOLD && Executes(s, Trade(action, price, n))
    requires TickExecution(s, Trade(action, price, n)).Filled?
    requires TickExecution(s, Trade(action, price, n)).realizedDelta >= 0.0
    ensures var s' := Next(s, Tick(Trade(action, price, n)));
            var x := TickExecution(s, Trade(action, price, n));
            Ready(s', n + 1) && s'.account == Some(x.account) && s'.rows == x.rows
  {
    var t := Trade(action, price, n);
    var x, mirror, intent := ExecutedTick(s, t);
    hide *;
    StepKeepsInv(s, Tick(t));
    KeysOfTrade(s, action, price, n, mirror, x);
    ReadyExtends(s, n, Next(s, Tick(t)), x.account, x.rows, intent, FactOf(s, t, mirror, x), EntryOf(t, x));
  }

  // ---- One position, filled again ----

  lemma {:induction false} FirstFill(account: Account, notional: real, price: real)
    requires account.debt == 0.0 && 0.0 < notional <= account.cash && price >= MIN_PRICE
    ensures var x := Execute(account, [], "DEEP-SUI", "DEEP", BUY, notional, price);
            && x.Filled? && x.realizedDelta == 0.0 && x.account.cash == account.cash - notional && x.account.debt == 0.0
            && |x.rows| == 1 && x.rows[0].pair == "DEEP-SUI" && x.rows[0].quantity == Units(notional, price) > 0.0
            && x.rows[0].avgEntryPrice == price && x.account.equity == x.account.cash
  {
    hide Worth, Units, Unrealized, OpenProfit;
    var rows := BuyRows([], "DEEP-SUI", "DEEP", notional, Units(notional, price), price);
    UnitsAreWorthTheMoney(notional, price);
    OneRow(rows);
    FreshRowHasNoProfit(rows[0]);
  }

  lemma {:induction false} BuyFill(account: Account, rows: seq<Position>, notional: real, price: real)
    requires account.debt == 0.0 && 0.0 < notional <= account.cash && price >= MIN_PRICE
    requires |rows| == 1 && rows[0].pair == "DEEP-SUI" && rows[0].quantity > 0.0
    ensures Units(notional, price) > 0.0
    ensures var x := Execute(account, rows, "DEEP-SUI", "DEEP", BUY, notional, price);
            var amount, avg := Units(notional, price), Average(rows[0].quantity, rows[0].avgEntryPrice, Units(notional, price), price);
            && x.Filled? && x.realizedDelta == 0.0 && x.account.cash == account.cash - notional && x.account.debt == 0.0
            && |x.rows| == 1 && x.rows[0].pair == "DEEP-SUI" && x.rows[0].quantity == rows[0].quantity + amount
            && x.rows[0].avgEntryPrice == avg
            && x.account.equity == x.account.cash + Worth(rows[0].quantity + amount, price - avg)
  {
    hide Worth, Units, Average, Unrealized;
    UnitsAreWorthTheMoney(notional, price);
    OneRow(rows);
    OneRow(BuyRows(rows, "DEEP-SUI", "DEEP", notional, Units(notional, price), price));
  }

  lemma {:induction false} WorthOfShort(amount: real, price: real, avg: real)
    requires amount < 0.0 && price < avg
    ensures Worth(amount, price) > Worth(amount, avg)
  {
    assert amount * (price - avg) > 0.0;
  }

  /** A sale of less than nothing. */
  lemma {:induction false} NegativeSaleFill(account: Account, rows: seq<Position>, notional: real, price: real)
    requires account.debt == 0.0 && notional < 0.0 && price >= MIN_PRICE
    requires |rows| == 1 && rows[0].pair == "DEEP-SUI" && rows[0].quantity > 0.0 && rows[0].avgEntryPrice > price
    ensures Units(notional, price) < 0.0
    ensures var x := Execute(account, rows, "DEEP-SUI", "DEEP", SELL, notional, price);
            var amount, avg := Units(notional, price), rows[0].avgEntryPrice;
            && x.Filled? && x.realizedDelta > 0.0 && x.account.cash == account.cash + notional && x.account.debt == 0.0
            && |x.rows| == 1 && x.rows[0].pair == "DEEP-SUI" && x.rows[0].quantity == rows[0].quantity - amount
            && x.rows[0].avgEntryPrice == avg
            && x.account.equity == x.account.cash + Worth(rows[0].quantity - amount, price - avg)
  {
    UnitsAreWorthTheMoney(notional, price);
    UnitsAreWorthTheMoney(-notional, price);
    UnitsNegate(notional, price);
    var amount := Units(notional, price);
    WorthOfShort(amount, price, rows[0].avgEntryPrice);
    hide Worth, Units, Average, Unrealized;
    OneRow(rows);
    OneRow(SellRows(rows, 0, amount, price));
  }

  // ---- The run ----

  lemma {:induction false} QuarterOf(s: State, action: Side, price: real, n: nat)
    requires s.account.Some? && s.account.value.equity != 0.0 && action != HOLD
    ensures var notional := TickNotional(s, Trade(action, price, n));
            var quarter := s.account.value.equity / 4.0;
            notional == if action == BUY then Min(quarter, s.account.value.cash) else quarter
  {
    WorthOf(s.account.value.equity, 0.25);
  }

  lemma {:induction false} ExecutionOfTrade(s: State, action: Side, price: real, n: nat)
    requires s.account.Some? && action != HOLD
    ensures TickExecution(s, Trade(action, price, n))
         == Execute(s.account.value, s.rows, "DEEP-SUI", "DEEP", action, TickNotional(s, Trade(action, price, n)), price)
  {
    hide Execute, TickNotional;
  }

  lemma {:induction false} ReadyHasAccount(s: State, n: nat)
    requires Ready(s, n)
    ensures s.account.Some?
  {
  }

  lemma {:induction false} FirstBuy(s: State, n: nat, cash: real, price: real)
    requires Ready(s, n) && s.account.value.cash == s.account.value.equity == cash && s.account.value.debt == 0.0 && s.rows == []
    requires 0.0 < cash <= 200.0 && price >= MIN_PRICE
    ensures var s' := Next(s, Tick(Trade(BUY, price, n)));
            Ready(s', n + 1) && Holds(s', 0.75 * cash, Units(0.25 * cash, price), price, price)
  {
    hide Inv, Ready, Executes, CommitTick, TickNotional, TickExecution, Execute, Trade;
    ReadyHasAccount(s, n);
    QuarterOf(s, BUY, price, n);
    ExecutionOfTrade(s, BUY, price, n);
    FirstFill(s.account.value, 0.25 * cash, price);
    TradeExecutes(s, BUY, price, n);
    TradeEffect(s, BUY, price, n);
  }

  lemma {:induction false} BuyAgain(s: State, n: nat, cash: real, quantity: real, avg: real, last: real, price: real,
                                    spend: real, amount: real)
    requires Ready(s, n) && Holds(s, cash, quantity, avg, last) && quantity > 0.0
    requires spend == (cash + Worth(quantity, last - avg)) / 4.0 && 0.0 < spend <= 50.0 && spend <= cash
    requires price >= MIN_PRICE && amount == Units(spend, price) && amount > 0.0
    ensures var s' := Next(s, Tick(Trade(BUY, price, n)));
            Ready(s', n + 1) && Holds(s', cash - spend, quantity + amount, Average(quantity, avg, amount, price), price)
  {
    hide Inv, Ready, Executes, CommitTick, TickNotional, TickExecution, Execute, Units, Worth, Average, Trade;
    QuarterOf(s, BUY, price, n);
    ExecutionOfTrade(s, BUY, price, n);
    BuyFill(s.account.value, s.rows, spend, price);
    ReadyHasAccount(s, n);
    TradeExecutes(s, BUY, price, n);
    TradeEffect(s, BUY, price, n);
  }

  /** On negative equity an order to sell buys. */
  lemma {:induction false} SaleBuys(s: State, n: nat, cash: real, quantity: real, avg: real, last: real, price: real,
                                    money: real, amount: real)
    requires Ready(s, n) && Holds(s, cash, quantity, avg, last) && quantity > 0.0
    requires money == -(cash + Worth(quantity, last - avg)) / 4.0 && money > 0.0
    requires MIN_PRICE <= price < avg && amount == Units(money, price)
    ensures var s' := Next(s, Tick(Trade(SELL, price, n)));
            amount > 0.0 && Ready(s', n + 1) && Holds(s', cash - money, quantity + amount, avg, price)
  {
    hide Inv, Ready, Executes, CommitTick, TickNotional, TickExecution, Execute, Units, Worth, Average, Trade;
    UnitsNegate(money, price);
    QuarterOf(s, SELL, price, n);
    ExecutionOfTrade(s, SELL, price, n);
    NegativeSaleFill(s.account.value, s.rows, -money, price);
    TradeExecutes(s, SELL, price, n);
    TradeEffect(s, SELL, price, n);
  }

  lemma {:induction false} Lowered(s: State)
    requires s.vault.Some? && s.vault.value.id == "v" && s.vault.value.trainingBudget == 10000.0
    requires s.policy.Some? && s.policy.value.maxNotional == 50.0 && s.account == Some(NewAccount(Some("v"), 10000.0))
    ensures Next(s, Budget(100.0))
         == s.(vault := Some(s.vault.value.(trainingBudget := 100.0)), account := Some(NewAccount(Some("v"), 100.0)))
  {
  }

  lemma {:induction false} DemoPolicy()
    ensures var s := Next(EMPTY, Setup(DEMO_SETUP));
            && s.policy == Some(PolicyRow("p", "0xp", Some("agent"), ["DEEP-SUI"], 50.0, 8.0, false, 1))
            && s.vault == Some(Vault("v", "0xv", "active", Some("agent"), 1, 10000.0, "0xd"))
  {
    assert ["DEEP-SUI"][..1] == ["DEEP-SUI"];
  }

  lemma {:induction false} DemoFunded()
    ensures var s := Next(Next(EMPTY, Setup(DEMO_SETUP)), Budget(100.0));
            Ready(s, 1) && s.account == Some(NewAccount(Some("v"), 100.0)) && s.rows == []
  {
    EmptyInv();
    StepKeepsInv(EMPTY, Setup(DEMO_SETUP));
    DemoWallet();
    DemoPolicy();
    hide Inv, Next;
    var wallet := Next(EMPTY, Setup(DEMO_SETUP));
    StepKeepsInv(wallet, Budget(100.0));
    Lowered(wallet);
  }

  const OVERDRAWING: seq<Step> := [
    Setup(DEMO_SETUP), Budget(100.0),
    Tick(Trade(BUY, 1.0, 1)), Tick(Trade(BUY, 1.0, 2)), Tick(Trade(BUY, 0.001, 3)),
    Tick(Trade(SELL, 0.00001, 4)), Tick(Trade(SELL, 0.00001, 5))]

  /** The state after the first k steps of that run. */
  function Reached(k: nat): State
    requires k <= |OVERDRAWING|
  {
    Run(EMPTY, OVERDRAWING[..k])
  }

  lemma {:induction false} ReachedNext(k: nat)
    requires k < |OVERDRAWING|
    ensures Reached(k + 1) == Next(Reached(k), OVERDRAWING[k])
  {
    hide Next;
    assert OVERDRAWING[..k + 1][..k] == OVERDRAWING[..k];
  }

  lemma {:induction false} NothingReached()
    ensures Reached(0) == EMPTY
  {
  }

  lemma {:induction false} FundedReached()
    ensures Ready(Reached(2), 1) && Reached(2).account == Some(NewAccount(Some("v"), 100.0)) && Reached(2).rows == []
  {
    hide Next, Reached, Ready;
    ReachedNext(0);
    ReachedNext(1);
    NothingReached();
    DemoFunded();
  }

  /** The average price of three purchases, the last of them after a fall of the price. */
  const MEAN := 57.8125 / 14106.25

  lemma {:induction false} FirstSums()
    ensures Units(25.0, 1.0) == 25.0 && Units(18.75, 1.0) == 18.75 && Units(14.0625, 0.001) == 14062.5
    ensures Worth(25.0, 0.0) == 0.0 && Worth(43.75, 0.0) == 0.0
    ensures Average(25.0, 1.0, 18.75, 1.0) == 1.0 && Average(43.75, 1.0, 14062.5, 0.001) == MEAN
  {
  }

  lemma {:induction false} BoughtReached()
    ensures Ready(Reached(5), 4) && Holds(Reached(5), 42.1875, 14106.25, MEAN, 0.001)
  {
    hide Next, Reached, Ready, Holds, Worth, Units, Average, Trade;
    FundedReached();
    ReachedNext(2);
    FirstBuy(Reached(2), 1, 100.0, 1.0);
    FirstSums();
    ReachedNext(3);
    BuyAgain(Reached(3), 2, 75.0, 25.0, 1.0, 1.0, 1.0, 18.75, 18.75);
    ReachedNext(4);
    BuyAgain(Reached(4), 3, 56.25, 43.75, 1.0, 1.0, 0.001, 14.0625, 14062.5);
  }

  lemma {:induction false} LastSums()
    ensures Worth(14106.25, 0.001 - MEAN) == -43.70625
    ensures Units(0.3796875, 0.00001) == 37968.75
    ensures Worth(52075.0, 0.00001 - MEAN) < -210.0
  {
  }

  lemma {:induction false} MeanIsHigh()
    ensures MEAN > 0.00001
  {
  }

  lemma {:induction false} AllReached()
    ensures Reached(7) == Run(EMPTY, OVERDRAWING)
  {
    hide Next, Run;
    assert OVERDRAWING[..7] == OVERDRAWING;
  }

  /** After the price fell on, an order to sell a quarter of the equity buys 37968.75 units
      more, and a second one takes cash below zero: no cash guard stands in front of a sale. */
  lemma {:induction false} SellingOnNegativeEquityBuys()
    ensures var before, between, after := Reached(5), Reached(6), Run(EMPTY, OVERDRAWING);
            && Holds(before, 42.1875, 14106.25, MEAN, 0.001)
            && Holds(between, 41.8078125, 52075.0, MEAN, 0.00001)
            && after.account.Some? && after.account.value.cash < 0.0
            && |after.rows| == 1 && after.rows[0].quantity > 52075.0
  {
    hide Next, Reached, Ready, Worth, Units, Average, Trade, MEAN;
    BoughtReached();
    LastSums();
    ReachedNext(5);
    MeanIsHigh();
    SaleBuys(Reached(5), 4, 42.1875, 14106.25, MEAN, 0.001, 0.00001, 0.3796875, 37968.75);
    ReachedNext(6);
    var money := -(41.8078125 + Worth(52075.0, 0.00001 - MEAN)) / 4.0;
    SaleBuys(Reached(6), 5, 41.8078125, 52075.0, MEAN, 0.00001, 0.00001, money, Units(money, 0.00001));
    AllReached();
  }
}
