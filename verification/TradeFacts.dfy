/** Every trade fact explains itself: its two snapshots differ by exactly the trade that
    it and its ledger entry record. */
module TradeFacts {
  import opened Events
  import opened Reals
  import opened Text
  import opened Ledger
  import opened PolicyGate
  import opened TradingState
  import opened TradingRuns

  /** How much of a pair the rows hold. */
  function Held(rows: seq<Position>, pair: string): real {
    var i := FindPair(rows, pair);
    if i < |rows| then rows[i].quantity else 0.0
  }

  function AverageHeld(rows: seq<Position>, pair: string): real {
    var i := FindPair(rows, pair);
    if i < |rows| then rows[i].avgEntryPrice else 0.0
  }

  /** From before to after, only the holding of one pair moved. */
  ghost predicate Moved(before: seq<Position>, after: seq<Position>, pair: string, change: real) {
    forall q :: Held(after, q) == Held(before, q) + if q == pair then change else 0.0
  }

  /** A purchase spends exactly its notional, out of the cash.  A sale brings its notional,
      or everything held if that is worth less, and realizes the difference to its cost. */
  ghost predicate AddsUp(fact: TradeFact, entry: LedgerEntry) {
    var worth := Worth(fact.quantity, entry.price);
    var held := Held(fact.before.positions, fact.pair);
    && entry.price > 0.0
    && entry.cashAfter == fact.after.cash && entry.equityAfter == fact.after.equity
    && fact.after.debt == fact.before.debt
    && fact.after.realizedPnl == fact.before.realizedPnl + fact.realizedPnl
    && if fact.side == BUY then
         && 0.0 < fact.notional <= fact.before.cash && worth == fact.notional
         && fact.after.cash == fact.before.cash - worth && fact.realizedPnl == 0.0
         && Moved(fact.before.positions, fact.after.positions, fact.pair, fact.quantity)
       else
         && held > 0.0 && fact.quantity <= held
         && (worth == fact.notional || (fact.quantity == held && worth < fact.notional))
         && fact.after.cash == fact.before.cash + worth
         && fact.realizedPnl == worth - Worth(fact.quantity, AverageHeld(fact.before.positions, fact.pair))
         && Moved(fact.before.positions, fact.after.positions, fact.pair, -fact.quantity)
  }

  // ---- Holdings under the updates of an execution ----

  lemma {:induction false} SamePairs(rows: seq<Position>, others: seq<Position>, pair: string)
    requires |rows| == |others| && forall k :: 0 <= k < |rows| ==> rows[k].pair == others[k].pair
    ensures FindPair(rows, pair) == FindPair(others, pair)
  {
    hide FindPair;
    var i, j := FindPair(rows, pair), FindPair(others, pair);
    assert forall k :: 0 <= k < i ==> others[k].pair != pair;
    assert forall k :: 0 <= k < j ==> rows[k].pair != pair;
  }

  lemma {:induction false} MarkingMovesNothing(rows: seq<Position>, change: real, before: seq<Position>, pair: string)
    requires Moved(before, rows, pair, change)
    ensures Moved(before, MarkedRows(rows), pair, change)
  {
    hide MarkedRows, FindPair;
    forall q ensures Held(MarkedRows(rows), q) == Held(rows, q) {
      SamePairs(rows, MarkedRows(rows), q);
    }
  }

  lemma {:induction false} UpdateMoves(rows: seq<Position>, i: nat, row: Position)
    requires i < |rows| && row.pair == rows[i].pair && i == FindPair(rows, row.pair)
    ensures Moved(rows, rows[i := row], row.pair, row.quantity - rows[i].quantity)
  {
    hide FindPair;
    forall q ensures Held(rows[i := row], q) == Held(rows, q) + if q == row.pair then row.quantity - rows[i].quantity else 0.0 {
      SamePairs(rows, rows[i := row], q);
    }
  }

  lemma {:induction false} AppendFinds(rows: seq<Position>, row: Position, q: string)
    requires FindPair(rows, row.pair) == |rows|
    ensures var i := FindPair(rows, q);
            FindPair(rows + [row], q) == if i < |rows| then i else if q == row.pair then |rows| else |rows| + 1
  {
    hide FindPair;
    var longer := rows + [row];
    var i, j := FindPair(rows, q), FindPair(longer, q);
    assert longer[|rows|] == row;
    assert forall k :: 0 <= k < |rows| ==> longer[k] == rows[k];
    assert i < |rows| ==> longer[i].pair == q;
  }

  lemma {:induction false} AppendMoves(rows: seq<Position>, row: Position)
    requires FindPair(rows, row.pair) == |rows|
    ensures Moved(rows, rows + [row], row.pair, row.quantity)
  {
    hide FindPair;
    var longer := rows + [row];
    forall q ensures Held(longer, q) == Held(rows, q) + if q == row.pair then row.quantity else 0.0 {
      AppendFinds(rows, row, q);
    }
  }

  lemma {:induction false} BuyMoves(rows: seq<Position>, pair: string, asset: string, spend: real, amount: real, price: real)
    ensures Moved(rows, MarkedRows(BuyRows(rows, pair, asset, spend, amount, price)), pair, amount)
  {
    hide MarkedRows, FindPair, Average, Worth, Moved;
    var i := FindPair(rows, pair);
    if i == |rows| {
      AppendMoves(rows, Position(pair, asset, amount, price, price, spend, 0.0));
    } else {
      UpdateMoves(rows, i, BoughtRow(rows[i], amount, price));
    }
    MarkingMovesNothing(BuyRows(rows, pair, asset, spend, amount, price), amount, rows, pair);
  }

  lemma {:induction false} SellMoves(rows: seq<Position>, i: nat, pair: string, amount: real, price: real)
    requires i == FindPair(rows, pair) < |rows|
    ensures Moved(rows, MarkedRows(SellRows(rows, i, amount, price)), pair, -amount)
  {
    hide MarkedRows, FindPair, Worth, Moved;
    UpdateMoves(rows, i, SoldRow(rows[i], amount, price));
    MarkingMovesNothing(SellRows(rows, i, amount, price), -amount, rows, pair);
  }

  // ---- Every fact ----

  lemma {:induction false} PurchaseWithinCash(s: State, t: TickInput)
    requires SideOf(t) == BUY
    ensures TickNotional(s, t) <= GetOrCreateAccount(s, t.vaultId, t.initialCapital).cash
  {
    hide Worth;
  }

  lemma {:induction false} LesserAmount(notional: real, price: real, held: real)
    requires price > 0.0
    ensures var amount := Min(Units(notional, price), held);
            && amount <= held
            && (Worth(amount, price) == notional || (amount == held && Worth(amount, price) < notional))
  {
    var all := Units(notional, price);
    UnitsAreWorthTheMoney(notional, price);
    if held < all {
      assert (all - held) * price > 0.0;
      WorthAdds(all, held, price);
    }
    hide Worth, Units;
  }

  lemma {:induction false} FactAddsUp(s: State, t: TickInput, mirror: PolicyMirror, x: Execution)
    requires SideOf(t) != HOLD && x == TickExecution(s, t) && x.Filled?
    ensures AddsUp(FactOf(s, t, mirror, x), EntryOf(t, x))
  {
    var account := GetOrCreateAccount(s, t.vaultId, t.initialCapital);
    var notional, pair, price := TickNotional(s, t), PairOf(t.event), ClampedPrice(ReferencePrice(t.event));
    if SideOf(t) == BUY {
      PurchaseWithinCash(s, t);
      UnitsAreWorthTheMoney(notional, price);
      BuyMoves(s.rows, pair, t.event.asset, notional, Units(notional, price), price);
    } else {
      var i := FindPair(s.rows, pair);
      LesserAmount(notional, price, s.rows[i].quantity);
      SellMoves(s.rows, i, pair, Min(Units(notional, price), s.rows[i].quantity), price);
    }
    hide Moved, MarkedRows, BuyRows, SellRows, Unrealized, FindPair, Worth, Units, TickNotional, PairOf, ReferencePrice,
         GetOrCreateAccount;
  }

  ghost predicate AllAddUp(s: State) {
    && |s.facts| == |s.entries|
    && forall i :: 0 <= i < |s.facts| ==> AddsUp(s.facts[i], s.entries[i])
  }

  lemma {:induction false} WalletStepKeepsLog(s: State, step: Step)
    requires !step.Tick?
    ensures Next(s, step).facts == s.facts && Next(s, step).entries == s.entries
  {
    hide DraftValid;
    match step {
      case Owner(action) => OwnerOnlyFunds(s, action);
      case Budget(newBudget) => BudgetOnlyFunds(s, newBudget);
      case Setup(tx) =>
    }
    hide OwnerStep, UpdateBudget;
  }

  lemma {:induction false} RunLast(steps: seq<Step>)
    requires steps != []
    ensures Run(EMPTY, steps) == Next(Run(EMPTY, steps[..|steps| - 1]), steps[|steps| - 1])
  {
    hide Next;
  }

  /** After every run, each trade fact and its ledger entry add up: what was spent or
      earned, what moved, and what was realized is what separates the two snapshots. */
  lemma {:induction false} EveryFactAddsUp(steps: seq<Step>)
    ensures AllAddUp(Run(EMPTY, steps))
  {
    if steps != [] {
      var s, step := Run(EMPTY, steps[..|steps| - 1]), steps[|steps| - 1];
      EveryFactAddsUp(steps[..|steps| - 1]);
      hide AddsUp, Next, Run;
      RunLast(steps);
      if !step.Tick? {
        WalletStepKeepsLog(s, step);
      } else if Executes(s, step.input) {
        var x, mirror, intent := ExecutedTick(s, step.input);
        FactAddsUp(s, step.input, mirror, x);
      } else {
        OtherTicksTouchNothing(s, step.input);
      }
    }
  }

  lemma {:induction false} FilledPrice(s: State, t: TickInput)
    requires SideOf(t) != HOLD
    ensures TickExecution(s, t).Filled? ==> TickExecution(s, t).price == ClampedPrice(ReferencePrice(t.event))
  {
    hide BuyRows, SellRows, MarkedRows, Refreshed, TickNotional, PairOf, FindPair, GetOrCreateAccount, Worth, Units, ClampedPrice,
         ReferencePrice;
  }

  /** A trade is priced by the oracle's reference if that is not zero, by the market
      otherwise, and never at or below zero. */
  lemma {:induction false} PriceOfTrade(s: State, t: TickInput)
    requires Executes(s, t)
    ensures var s' := Next(s, Tick(t));
            && |s'.entries| == |s.entries| + 1
            && var (price, reference) := (s'.entries[|s.entries|].price, t.event.referencePrice);
               && price >= MIN_PRICE > 0.0
               && (reference == None || reference == Some(0.0) ==> price == Max(t.event.price, MIN_PRICE))
               && (reference.Some? && reference.value != 0.0 ==> price == Max(reference.value, MIN_PRICE))
  {
    var x, mirror, intent := ExecutedTick(s, t);
    FilledPrice(s, t);
    hide Executes, CommitTick, Next, TickExecution, TickNotional, PairOf, GetOrCreateAccount, FactOf, TickGate, FreshMirror;
  }

  // ---- No decision twice ----

  ghost predicate IntentKeys(intents: map<nat, OrderIntent>) {
    forall a, b :: a in intents && b in intents && a != b ==> intents[a].decisionHash != intents[b].decisionHash
  }

  ghost predicate FactKeys(facts: seq<TradeFact>) {
    forall i, j :: 0 <= i < j < |facts| ==> facts[i].id != facts[j].id
  }

  ghost predicate EntryKeys(entries: seq<LedgerEntry>) {
    forall i, j :: 0 <= i < j < |entries| ==> entries[i].id != entries[j].id
  }

  ghost predicate KeysInv(s: State) {
    IntentKeys(s.intents) && FactKeys(s.facts) && EntryKeys(s.entries)
  }

  /** A tick records at most one intent, under a new id and a decision not recorded before. */
  lemma {:induction false} TickIntents(s: State, t: TickInput)
    ensures var intents' := Next(s, Tick(t)).intents;
            intents' == s.intents ||
            (&& t.intentId !in s.intents && t.intentId in intents'
             && intents' == s.intents[t.intentId := intents'[t.intentId]]
             && intents'[t.intentId].decisionHash == DecisionHash(t)
             && forall a :: a in s.intents ==> s.intents[a].decisionHash != DecisionHash(t))
  {
    hide TickGate, TickExecution, TickNotional, FreshMirror, FactClashes, FactOf, EntryOf, DecisionHash, GetOrCreateAccount;
    if !IntentClashes(s, t) {
      forall a | a in s.intents ensures s.intents[a].decisionHash != DecisionHash(t) {
        assert s.intents[a].decisionHash in UsedHashes(s.intents);
      }
    }
    hide UsedHashes;
  }

  lemma {:induction false} NewIntentKey(intents: map<nat, OrderIntent>, id: nat, intent: OrderIntent)
    requires IntentKeys(intents)
    requires forall a :: a in intents ==> intents[a].decisionHash != intent.decisionHash
    ensures IntentKeys(intents[id := intent])
  {
  }

  lemma {:induction false} NewFactKeys(s: State, t: TickInput, fact: TradeFact, entry: LedgerEntry)
    requires FactKeys(s.facts) && EntryKeys(s.entries) && !FactClashes(s, t) && fact.id == t.factId && entry.id == t.entryId
    ensures FactKeys(s.facts + [fact]) && EntryKeys(s.entries + [entry])
  {
    forall i | 0 <= i < |s.facts| ensures s.facts[i].id != t.factId {
      assert s.facts[i].id in FactIds(s.facts);
    }
    forall i | 0 <= i < |s.entries| ensures s.entries[i].id != t.entryId {
      assert s.entries[i].id in EntryIds(s.entries);
    }
  }

  lemma {:induction false} TickKeepsKeys(s: State, t: TickInput)
    requires KeysInv(s)
    ensures KeysInv(Next(s, Tick(t)))
  {
    var s' := Next(s, Tick(t));
    TickIntents(s, t);
    ExecutesExactlyWhen(s, t);
    hide IntentKeys, FactKeys, EntryKeys, DecisionHash, TickExecution, TickGate, IntentClashes, FactClashes, Executes, Next;
    if s'.intents != s.intents {
      NewIntentKey(s.intents, t.intentId, s'.intents[t.intentId]);
    }
    if Executes(s, t) {
      var x, mirror, intent := ExecutedTick(s, t);
      NewFactKeys(s, t, FactOf(s, t, mirror, x), EntryOf(t, x));
    } else {
      OtherTicksTouchNothing(s, t);
    }
  }

  lemma {:induction false} WalletStepKeepsIntents(s: State, step: Step)
    requires !step.Tick?
    ensures Next(s, step).intents == s.intents
  {
    hide DraftValid;
    match step {
      case Owner(action) => OwnerOnlyFunds(s, action);
      case Budget(newBudget) => BudgetOnlyFunds(s, newBudget);
      case Setup(tx) =>
    }
    hide OwnerStep, UpdateBudget;
  }

  /** No run records a decision twice: intents of different ids stem from different
      decisions, and no two facts or entries share an id. */
  lemma {:induction false} DecisionsAreUnique(steps: seq<Step>)
    ensures KeysInv(Run(EMPTY, steps))
  {
    if steps != [] {
      var s, step := Run(EMPTY, steps[..|steps| - 1]), steps[|steps| - 1];
      DecisionsAreUnique(steps[..|steps| - 1]);
      hide Next, Run, IntentKeys, FactKeys, EntryKeys;
      RunLast(steps);
      if step.Tick? {
        TickKeepsKeys(s, step.input);
      } else {
        WalletStepKeepsLog(s, step);
        WalletStepKeepsIntents(s, step);
      }
    }
  }

  /** The score in a decision is rounded to the nearest millionth, and a tie to the even one. */
  lemma {:induction false} MillionthsAreNearest(score: real)
    ensures var m := Millionths(score) as real - score * 1000000.0;
            -0.5 <= m <= 0.5 && (m == 0.5 || m == -0.5 ==> Millionths(score) % 2 == 0)
  {
  }
}
