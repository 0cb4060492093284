/** What the rows are marked at: the price of the last trade in their pair, and nothing else. */
module Marks {
  import opened Events
  import opened Reals
  import opened Text
  import opened Ledger
  import opened TradingState
  import opened TradingRuns
  import opened TradeFacts
  import PolicyGate

  /** A row is worth its quantity at its mark, and has gained that less its cost; nothing, when
      it is closed. */
  predicate Valued(row: Position) {
    && row.notionalValue == Worth(row.quantity, row.currentPrice)
    && row.unrealizedPnl == Worth(row.quantity, row.currentPrice - row.avgEntryPrice)
  }

  /** From before to after a fill at a price: the traded row carries it, the others keep their
      marks, and what is open, was valued, or has just been sold, is valued. */
  predicate Marked(rows: seq<Position>, rows': seq<Position>, pair: string, asset: string, side: Side, price: real) {
    var k := FindPair(rows, pair);
    && |rows'| == (if k == |rows| then k + 1 else |rows|)
    && (rows'[k].pair, rows'[k].currentPrice) == (pair, price)
    && (k == |rows| ==> rows'[k].asset == asset)
    && (forall j :: 0 <= j < |rows| ==> (rows'[j].pair, rows'[j].asset) == (rows[j].pair, rows[j].asset))
    && (forall j :: 0 <= j < |rows| && j != k ==>
          (rows'[j].currentPrice, rows'[j].quantity, rows'[j].avgEntryPrice)
          == (rows[j].currentPrice, rows[j].quantity, rows[j].avgEntryPrice))
    && (forall j :: 0 <= j < |rows'| ==>
          (rows'[j].quantity > 0.0 || (if j == k then side == SELL else Valued(rows[j])) ==> Valued(rows'[j])))
  }

  lemma {:induction false} MarkingValues(row: Position)
    ensures var marked := MarkedRow(row);
            && (row.quantity > 0.0 || Valued(row) ==> Valued(marked))
            && (marked.pair, marked.asset, marked.quantity, marked.avgEntryPrice, marked.currentPrice)
               == (row.pair, row.asset, row.quantity, row.avgEntryPrice, row.currentPrice)
  {
    hide Worth;
  }

  lemma {:induction false} MarkingValuesAll(rows: seq<Position>)
    ensures forall j :: 0 <= j < |rows| ==>
              var (row, marked) := (rows[j], MarkedRows(rows)[j]);
              && (row.quantity > 0.0 || Valued(row) ==> Valued(marked))
              && (marked.pair, marked.asset, marked.quantity, marked.avgEntryPrice, marked.currentPrice)
                 == (row.pair, row.asset, row.quantity, row.avgEntryPrice, row.currentPrice)
  {
    hide Valued, MarkedRow;
    forall j | 0 <= j < |rows| {
      MarkingValues(rows[j]);
    }
  }

  lemma {:induction false} BoughtMark(row: Position, amount: real, price: real)
    ensures var bought := BoughtRow(row, amount, price);
            && (bought.pair, bought.asset, bought.currentPrice) == (row.pair, row.asset, price)
            && bought.quantity == row.quantity + amount
  {
    hide Average, Worth;
  }

  lemma {:induction false} SoldMark(row: Position, amount: real, price: real)
    ensures var sold := SoldRow(row, amount, price);
            (sold.pair, sold.asset, sold.currentPrice) == (row.pair, row.asset, price) && Valued(sold)
  {
    hide Worth;
  }

  lemma {:induction false} BuyMarks(rows: seq<Position>, pair: string, asset: string, spend: real, amount: real, price: real)
    requires amount > 0.0
    ensures var rows' := MarkedRows(BuyRows(rows, pair, asset, spend, amount, price));
            && Marked(rows, rows', pair, asset, BUY, price)
            && (LongOnly(rows) ==> rows'[FindPair(rows, pair)].quantity > 0.0)
  {
    var k := FindPair(rows, pair);
    if k < |rows| {
      BoughtMark(rows[k], amount, price);
    }
    hide MarkedRows, FindPair, BoughtRow, Valued;
    MarkingValuesAll(BuyRows(rows, pair, asset, spend, amount, price));
  }

  lemma {:induction false} SellMarks(rows: seq<Position>, pair: string, asset: string, amount: real, price: real)
    requires FindPair(rows, pair) < |rows|
    ensures Marked(rows, MarkedRows(SellRows(rows, FindPair(rows, pair), amount, price)), pair, asset, SELL, price)
  {
    SoldMark(rows[FindPair(rows, pair)], amount, price);
    hide MarkedRows, FindPair, SoldRow, Valued;
    MarkingValuesAll(SellRows(rows, FindPair(rows, pair), amount, price));
  }

  /** A filled order of either side and any size marks the row of its pair at its own price,
      opens a row only if there was none, and leaves the mark, the quantity and the average of
      every other row.  Equity is cash plus what the open rows have gained at their marks. */
  lemma {:induction false} ExecutionMarks(account: Account, rows: seq<Position>, pair: string, asset: string,
                                          side: Side, notional: real, reference: real)
    requires side != HOLD && Execute(account, rows, pair, asset, side, notional, reference).Filled?
    ensures var x := Execute(account, rows, pair, asset, side, notional, reference);
            && x.price == Max(reference, 0.000000001) && Marked(rows, x.rows, pair, asset, side, x.price)
            && (side == BUY && LongOnly(rows) ==> x.rows[FindPair(rows, pair)].quantity > 0.0)
  {
    hide BuyRows, SellRows, MarkedRows, Marked, FindPair, Units, Worth, Refreshed, LongOnly;
    var price := ClampedPrice(reference);
    if side == BUY {
      UnitsAreWorthTheMoney(Min(notional, account.cash), price);
      BuyMarks(rows, pair, asset, Min(notional, account.cash), Units(Min(notional, account.cash), price), price);
    } else {
      SellMarks(rows, pair, asset, Min(Units(notional, price), rows[FindPair(rows, pair)].quantity), price);
    }
  }

  // ---- Over every run ----

  /** The price of the last trade in a pair, by the first n facts and their entries. */
  function LastPrice(facts: seq<TradeFact>, entries: seq<LedgerEntry>, n: nat, pair: string): Option<real>
    requires n <= |facts| && n <= |entries|
  {
    if n == 0 then None
    else if facts[n - 1].pair == pair then Some(entries[n - 1].price)
    else LastPrice(facts, entries, n - 1, pair)
  }

  lemma {:induction false} LastPriceKept(facts: seq<TradeFact>, entries: seq<LedgerEntry>, fact: TradeFact, entry: LedgerEntry,
                                         n: nat, pair: string)
    requires n <= |facts| && n <= |entries|
    ensures LastPrice(facts + [fact], entries + [entry], n, pair) == LastPrice(facts, entries, n, pair)
  {
    if n > 0 {
      LastPriceKept(facts, entries, fact, entry, n - 1, pair);
    }
  }

  /** Every row is marked at the last trade of its pair among the first n. */
  ghost predicate AtLastPrices(rows: seq<Position>, facts: seq<TradeFact>, entries: seq<LedgerEntry>, n: nat)
    requires n <= |facts| && n <= |entries|
  {
    forall k :: 0 <= k < |rows| ==>
      Valued(rows[k]) && LastPrice(facts, entries, n, rows[k].pair) == Some(rows[k].currentPrice)
  }

  /** What the open rows have gained since they were bought, at the last prices. */
  function GainAt(rows: seq<Position>, facts: seq<TradeFact>, entries: seq<LedgerEntry>, n: nat): real
    requires n <= |facts| && n <= |entries|
  {
    if rows == [] then 0.0
    else
      var last := rows[|rows| - 1];
      var price := LastPrice(facts, entries, n, last.pair);
      GainAt(rows[..|rows| - 1], facts, entries, n)
      + if last.quantity > 0.0 && price.Some? then Worth(last.quantity, price.value - last.avgEntryPrice) else 0.0
  }

  lemma {:induction false} GainIsUnrealized(rows: seq<Position>, facts: seq<TradeFact>, entries: seq<LedgerEntry>, n: nat)
    requires n <= |facts| && n <= |entries| && AtLastPrices(rows, facts, entries, n)
    ensures GainAt(rows, facts, entries, n) == Unrealized(rows)
  {
    hide LastPrice, Valued;
    if rows != [] {
      var init := rows[..|rows| - 1];
      assert forall k :: 0 <= k < |init| ==> init[k] == rows[k];
      GainIsUnrealized(init, facts, entries, n);
    }
  }

  /** The snapshot after fact i: rows at the last prices, and equity the cash and the gain. */
  ghost predicate MarkedAfter(facts: seq<TradeFact>, entries: seq<LedgerEntry>, i: nat)
    requires i < |facts| && i < |entries|
  {
    var after := facts[i].after;
    && AtLastPrices(after.positions, facts, entries, i + 1)
    && after.unrealizedPnl == GainAt(after.positions, facts, entries, i + 1)
    && after.equity == after.cash + after.unrealizedPnl
  }

  ghost predicate MarksInv(s: State) {
    && |s.facts| == |s.entries|
    && AtLastPrices(s.rows, s.facts, s.entries, |s.facts|)
    && forall i :: 0 <= i < |s.facts| ==> MarkedAfter(s.facts, s.entries, i)
  }

  lemma {:induction false} AtLastPricesKept(rows: seq<Position>, facts: seq<TradeFact>, entries: seq<LedgerEntry>,
                                            fact: TradeFact, entry: LedgerEntry, n: nat)
    requires n <= |facts| && n <= |entries|
    ensures AtLastPrices(rows, facts + [fact], entries + [entry], n) == AtLastPrices(rows, facts, entries, n)
    ensures GainAt(rows, facts + [fact], entries + [entry], n) == GainAt(rows, facts, entries, n)
  {
    hide LastPrice, Valued;
    forall k | 0 <= k < |rows| {
      LastPriceKept(facts, entries, fact, entry, n, rows[k].pair);
    }
    if rows != [] {
      AtLastPricesKept(rows[..|rows| - 1], facts, entries, fact, entry, n);
    }
  }

  lemma {:induction false} MarkedAfterKept(facts: seq<TradeFact>, entries: seq<LedgerEntry>, fact: TradeFact, entry: LedgerEntry,
                                           i: nat)
    requires i < |facts| == |entries| && MarkedAfter(facts, entries, i)
    ensures MarkedAfter(facts + [fact], entries + [entry], i)
  {
    hide AtLastPrices, GainAt;
    AtLastPricesKept(facts[i].after.positions, facts, entries, fact, entry, i + 1);
  }

  lemma {:induction false} FillMarksRows(rows: seq<Position>, rows': seq<Position>, asset: string, facts: seq<TradeFact>,
                                         entries: seq<LedgerEntry>, fact: TradeFact, entry: LedgerEntry)
    requires |facts| == |entries| && Distinct(rows) && AtLastPrices(rows, facts, entries, |facts|)
    requires Marked(rows, rows', fact.pair, asset, fact.side, entry.price)
    requires fact.side == SELL || rows'[FindPair(rows, fact.pair)].quantity > 0.0
    ensures AtLastPrices(rows', facts + [fact], entries + [entry], |facts| + 1)
  {
    hide Valued, FindPair;
    var n := |facts|;
    forall k | 0 <= k < |rows'|
      ensures LastPrice(facts + [fact], entries + [entry], n + 1, rows'[k].pair) == Some(rows'[k].currentPrice)
    {
      LastPriceKept(facts, entries, fact, entry, n, rows'[k].pair);
    }
  }

  lemma {:induction false} FactMarks(s: State, t: TickInput, mirror: PolicyGate.PolicyMirror, x: Execution)
    requires RowsInv(s) && SideOf(t) != HOLD && x == TickExecution(s, t) && x.Filled?
    ensures var fact, entry := FactOf(s, t, mirror, x), EntryOf(t, x);
            && Distinct(s.rows) && Marked(s.rows, x.rows, fact.pair, t.event.asset, fact.side, entry.price)
            && (fact.side == SELL || x.rows[FindPair(s.rows, fact.pair)].quantity > 0.0)
            && fact.after.positions == x.rows && fact.after.cash == x.account.cash
            && fact.after.unrealizedPnl == x.account.unrealizedPnl && fact.after.equity == x.account.equity
  {
    hide Execute, TickNotional, PairOf, ReferencePrice, GetOrCreateAccount, FindPair, Valued;
    ExecutionMarks(GetOrCreateAccount(s, t.vaultId, t.initialCapital), s.rows, PairOf(t.event), t.event.asset, SideOf(t),
                   TickNotional(s, t), ReferencePrice(t.event));
  }

  lemma {:induction false} NewFactMarked(s: State, s': State, fact: TradeFact, entry: LedgerEntry, x: Execution)
    requires MarksInv(s) && s'.facts == s.facts + [fact] && s'.entries == s.entries + [entry] && x.Filled? && s'.rows == x.rows
    requires fact.after.positions == x.rows && fact.after.cash == x.account.cash
    requires fact.after.unrealizedPnl == x.account.unrealizedPnl && fact.after.equity == x.account.equity
    requires x.account.unrealizedPnl == Unrealized(x.rows) && x.account.equity == x.account.cash + Unrealized(x.rows)
    requires AtLastPrices(x.rows, s'.facts, s'.entries, |s.facts| + 1)
    ensures MarksInv(s')
  {
    hide AtLastPrices, GainAt, Unrealized;
    GainIsUnrealized(x.rows, s'.facts, s'.entries, |s.facts| + 1);
    forall i | 0 <= i < |s'.facts| ensures MarkedAfter(s'.facts, s'.entries, i) {
      if i < |s.facts| {
        MarkedAfterKept(s.facts, s.entries, fact, entry, i);
      }
    }
  }

  lemma {:induction false} ExecutedTickMarks(s: State, t: TickInput)
    requires Inv(s) && MarksInv(s) && Executes(s, t)
    ensures MarksInv(Next(s, Tick(t)))
  {
    var x, mirror, intent := ExecutedTick(s, t);
    var s', fact, entry := Next(s, Tick(t)), FactOf(s, t, mirror, x), EntryOf(t, x);
    InvParts(s);
    FillKeepsRows(s, t, x);
    FactMarks(s, t, mirror, x);
    hide *;
    FillMarksRows(s.rows, x.rows, t.event.asset, s.facts, s.entries, fact, entry);
    NewFactMarked(s, s', fact, entry, x);
  }

  lemma {:induction false} RowsUntouched(s: State, step: Step)
    requires !step.Tick?
    ensures Next(s, step).rows == s.rows
  {
    hide DraftValid;
    match step {
      case Owner(action) => OwnerOnlyFunds(s, action);
      case Budget(newBudget) => BudgetOnlyFunds(s, newBudget);
      case Setup(tx) =>
    }
    hide OwnerStep, UpdateBudget;
  }

  lemma {:induction false} SameMarks(s: State, s': State)
    requires MarksInv(s) && s'.rows == s.rows && s'.facts == s.facts && s'.entries == s.entries
    ensures MarksInv(s')
  {
  }

  lemma {:induction false} NoMarks()
    ensures MarksInv(Run(EMPTY, []))
  {
  }

  /** After every run each row is marked at the last trade in its pair and valued there; and
      each fact's equity is its cash and what its rows had gained at the last prices then. */
  lemma {:induction false} RowsAreMarkedAtLastPrices(steps: seq<Step>)
    ensures MarksInv(Run(EMPTY, steps))
  {
    if steps != [] {
      var s, step := Run(EMPTY, steps[..|steps| - 1]), steps[|steps| - 1];
      RowsAreMarkedAtLastPrices(steps[..|steps| - 1]);
      InvOverRuns(steps[..|steps| - 1]);
      RunLast(steps);
      hide Next, Run, Executes, Inv, MarksInv;
      if !step.Tick? {
        WalletStepKeepsLog(s, step);
        RowsUntouched(s, step);
        SameMarks(s, Next(s, step));
      } else if Executes(s, step.input) {
        ExecutedTickMarks(s, step.input);
      } else {
        OtherTicksTouchNothing(s, step.input);
        SameMarks(s, Next(s, step));
      }
    } else {
      NoMarks();
    }
  }
}
