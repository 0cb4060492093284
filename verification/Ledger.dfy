/** The arithmetic of the Training Ledger on values: one account, its position
    rows, and one paper execution.  The class in TrainingLedger.dfy updates the
    same data in place and is proved against these functions. */
module Ledger {
  import opened Events
  import opened Reals
  import opened Text

  const MIN_PRICE: real := 0.000000001

  datatype Account = Account(
    vaultId: Option<string>,
    cash: real,
    debt: real,
    equity: real,
    realizedPnl: real,
    unrealizedPnl: real)

  datatype Position = Position(
    pair: string,
    asset: string,
    quantity: real,
    avgEntryPrice: real,
    currentPrice: real,
    notionalValue: real,
    unrealizedPnl: real)

  datatype Execution =
    | Refused(reason: string)
    | Filled(account: Account, rows: seq<Position>, amount: real, price: real, realizedDelta: real)

  // ---- Products and quotients, named so that proofs can keep them folded ----

  /** What an amount is worth at a price. */
  function Worth(amount: real, price: real): real { amount * price }

  /** How much a sum of money buys at a price. */
  function Units(money: real, price: real): real
    requires price > 0.0
  {
    money / price
  }

  /** The average price of two holdings put together. */
  function Average(q: real, avg: real, amount: real, price: real): real
    requires q + amount > 0.0
  {
    (q * avg + amount * price) / (q + amount)
  }

  lemma {:induction false} WorthAdds(a: real, b: real, price: real)
    ensures Worth(a + b, price) == Worth(a, price) + Worth(b, price)
    ensures Worth(a - b, price) == Worth(a, price) - Worth(b, price)
  {
  }

  lemma {:induction false} UnitsAreWorthTheMoney(money: real, price: real)
    requires price > 0.0
    ensures Worth(Units(money, price), price) == money
    ensures money > 0.0 <==> Units(money, price) > 0.0
  {
  }

  lemma {:induction false} WorthOfAverage(q: real, avg: real, amount: real, price: real)
    requires q + amount > 0.0
    ensures Worth(q + amount, Average(q, avg, amount, price)) == Worth(q, avg) + Worth(amount, price)
  {
  }

  lemma {:induction false} WorthMonotone(amount: real, lower: real, higher: real)
    requires amount >= 0.0 && lower <= higher
    ensures Worth(amount, lower) <= Worth(amount, higher)
    ensures amount > 0.0 && lower < higher ==> Worth(amount, lower) < Worth(amount, higher)
  {
  }

  lemma {:induction false} WorthOfNothing(price: real)
    ensures Worth(0.0, price) == 0.0
  {
  }

  lemma {:induction false} AverageBetween(q: real, avg: real, amount: real, price: real, lo: real, hi: real)
    requires q >= 0.0 && amount > 0.0 && lo <= price <= hi
    requires q > 0.0 ==> lo <= avg <= hi
    ensures lo <= Average(q, avg, amount, price) <= hi
  {
    hide Worth, Average;
    var mean := Average(q, avg, amount, price);
    assert Worth(q, lo) <= Worth(q, avg) <= Worth(q, hi) by {
      if q > 0.0 {
        WorthMonotone(q, lo, avg);
        WorthMonotone(q, avg, hi);
      } else {
        WorthOfNothing(lo);
        WorthOfNothing(avg);
        WorthOfNothing(hi);
      }
    }
    WorthMonotone(amount, lo, price);
    WorthMonotone(amount, price, hi);
    WorthAdds(q, amount, lo);
    WorthAdds(q, amount, hi);
    WorthOfAverage(q, avg, amount, price);
    if mean < lo {
      WorthMonotone(q + amount, mean, lo);
    } else if mean > hi {
      WorthMonotone(q + amount, hi, mean);
    }
  }

  // ---- Rows ----

  /** The index of the row of a pair, or the number of rows when there is none. */
  function FindPair(rows: seq<Position>, pair: string): (i: nat)
    ensures i <= |rows|
    ensures i < |rows| ==> rows[i].pair == pair
    ensures forall j :: 0 <= j < i ==> rows[j].pair != pair
  {
    if rows == [] || rows[0].pair == pair then 0 else 1 + FindPair(rows[1..], pair)
  }

  function NewAccount(vaultId: Option<string>, capital: real): Account {
    Account(vaultId, capital, 0.0, capital, 0.0, 0.0)
  }

  function BoughtRow(row: Position, amount: real, price: real): Position {
    var quantity := row.quantity + amount;
    var avg := if quantity > 0.0 then Average(row.quantity, row.avgEntryPrice, amount, price) else price;
    row.(quantity := quantity, avgEntryPrice := avg, currentPrice := price, notionalValue := Worth(quantity, price))
  }

  function SoldRow(row: Position, amount: real, price: real): Position {
    var quantity := row.quantity - amount;
    row.(quantity := quantity, currentPrice := price, notionalValue := Worth(quantity, price),
         unrealizedPnl := Worth(quantity, price - row.avgEntryPrice))
  }

  function BuyRows(rows: seq<Position>, pair: string, asset: string, spend: real, amount: real, price: real)
    : seq<Position>
  {
    var i := FindPair(rows, pair);
    if i == |rows| then
      rows + [Position(pair, asset, amount, price, price, spend, 0.0)]
    else
      rows[i := BoughtRow(rows[i], amount, price)]
  }

  function SellRows(rows: seq<Position>, i: nat, amount: real, price: real): seq<Position>
    requires i < |rows|
  {
    rows[i := SoldRow(rows[i], amount, price)]
  }

  function OpenProfit(row: Position): real {
    if row.quantity <= 0.0 then 0.0 else Worth(row.quantity, row.currentPrice - row.avgEntryPrice)
  }

  function MarkedRow(row: Position): Position {
    if row.quantity <= 0.0 then row
    else row.(unrealizedPnl := OpenProfit(row), notionalValue := Worth(row.quantity, row.currentPrice))
  }

  function MarkedRows(rows: seq<Position>): (marked: seq<Position>)
    ensures |marked| == |rows|
    ensures forall i :: 0 <= i < |rows| ==> marked[i] == MarkedRow(rows[i])
  {
    seq(|rows|, i requires 0 <= i < |rows| => MarkedRow(rows[i]))
  }

  /** The open profit of the account: rows that hold nothing are skipped. */
  function Unrealized(rows: seq<Position>): real {
    if rows == [] then 0.0 else Unrealized(rows[..|rows| - 1]) + OpenProfit(rows[|rows| - 1])
  }

  lemma {:induction false} OneRow(rows: seq<Position>)
    requires |rows| == 1
    ensures FindPair(rows, rows[0].pair) == 0
    ensures Unrealized(rows) == OpenProfit(rows[0])
  {
    assert rows[..0] == [];
    assert Unrealized(rows[..0]) == 0.0;
  }

  lemma {:induction false} FreshRowHasNoProfit(row: Position)
    requires row.currentPrice == row.avgEntryPrice
    ensures OpenProfit(row) == 0.0
  {
  }

  function Refreshed(account: Account, rows: seq<Position>): Account {
    var unrealized := Unrealized(rows);
    account.(unrealizedPnl := unrealized, equity := account.cash + unrealized - account.debt)
  }

  function ClampedPrice(referencePrice: real): (price: real)
    ensures price > 0.0
  {
    Max(referencePrice, MIN_PRICE)
  }

  /** LedgerService.apply_execution for the two sides that trade. */
  function Execute(account: Account, rows: seq<Position>, pair: string, asset: string,
                   side: Side, notional: real, referencePrice: real): Execution
    requires side != HOLD
  {
    var price := ClampedPrice(referencePrice);
    var i := FindPair(rows, pair);
    if side == BUY then
      var spend := Min(notional, account.cash);
      if spend <= 0.0 then Refused("LEDGER_INSUFFICIENT_BALANCE")
      else
        var amount := Units(spend, price);
        var rows' := BuyRows(rows, pair, asset, spend, amount, price);
        var account' := account.(cash := account.cash - spend);
        Filled(Refreshed(account', rows'), MarkedRows(rows'), amount, price, 0.0)
    else if i == |rows| || rows[i].quantity <= 0.0 then Refused("LEDGER_POSITION_NOT_FOUND")
    else
      var amount := Min(Units(notional, price), rows[i].quantity);
      var proceeds := Worth(amount, price);
      var delta := proceeds - Worth(amount, rows[i].avgEntryPrice);
      var rows' := SellRows(rows, i, amount, price);
      var account' := account.(cash := account.cash + proceeds, realizedPnl := account.realizedPnl + delta);
      Filled(Refreshed(account', rows'), MarkedRows(rows'), amount, price, delta)
  }

  // ---- What every execution keeps ----

  ghost predicate Distinct(rows: seq<Position>) {
    forall i, j :: 0 <= i < j < |rows| ==> rows[i].pair != rows[j].pair
  }

  ghost predicate LongOnly(rows: seq<Position>) {
    forall i :: 0 <= i < |rows| ==> rows[i].quantity >= 0.0
  }

  function Cost(row: Position): real { Worth(row.quantity, row.avgEntryPrice) }

  lemma {:induction false} CostIsWorth(row: Position)
    ensures Cost(row) == Worth(row.quantity, row.avgEntryPrice)
  {
  }

  /** The money that the open positions cost. */
  function CostBasis(rows: seq<Position>): real {
    if rows == [] then 0.0 else CostBasis(rows[..|rows| - 1]) + Cost(rows[|rows| - 1])
  }

  lemma {:induction false} CostBasisUpdate(rows: seq<Position>, i: nat, row: Position)
    requires i < |rows|
    ensures CostBasis(rows[i := row]) == CostBasis(rows) - Cost(rows[i]) + Cost(row)
  {
    hide Cost;
    var n := |rows| - 1;
    if i == n {
      assert rows[i := row][..n] == rows[..n];
    } else {
      assert rows[i := row][..n] == rows[..n][i := row];
      CostBasisUpdate(rows[..n], i, row);
    }
  }

  lemma {:induction false} MarkingKeepsSums(rows: seq<Position>)
    ensures CostBasis(MarkedRows(rows)) == CostBasis(rows)
    ensures Unrealized(MarkedRows(rows)) == Unrealized(rows)
  {
    hide Worth;
    if rows != [] {
      var n := |rows| - 1;
      assert MarkedRows(rows)[..n] == MarkedRows(rows[..n]);
      MarkingKeepsSums(rows[..n]);
    }
  }

  lemma {:induction false} BoughtRowCost(row: Position, amount: real, price: real)
    requires row.quantity >= 0.0 && amount > 0.0
    ensures Cost(BoughtRow(row, amount, price)) == Cost(row) + Worth(amount, price)
  {
    hide Worth, Average;
    WorthOfAverage(row.quantity, row.avgEntryPrice, amount, price);
  }

  lemma {:induction false} SoldRowCost(row: Position, amount: real, price: real)
    ensures Cost(SoldRow(row, amount, price)) == Cost(row) - Worth(amount, row.avgEntryPrice)
  {
    hide Worth;
    WorthAdds(row.quantity, amount, row.avgEntryPrice);
  }

  lemma {:induction false} BuyRowsCost(rows: seq<Position>, pair: string, asset: string, spend: real, amount: real, price: real)
    requires LongOnly(rows) && amount > 0.0
    ensures CostBasis(BuyRows(rows, pair, asset, spend, amount, price)) == CostBasis(rows) + Worth(amount, price)
  {
    hide Worth, Average;
    var i := FindPair(rows, pair);
    if i == |rows| {
      assert BuyRows(rows, pair, asset, spend, amount, price)[..|rows|] == rows;
    } else {
      BoughtRowCost(rows[i], amount, price);
      CostBasisUpdate(rows, i, BoughtRow(rows[i], amount, price));
    }
  }

  lemma {:induction false} SellRowsCost(rows: seq<Position>, i: nat, amount: real, price: real)
    requires i < |rows|
    ensures CostBasis(SellRows(rows, i, amount, price)) == CostBasis(rows) - Worth(amount, rows[i].avgEntryPrice)
  {
    hide Worth;
    SoldRowCost(rows[i], amount, price);
    CostBasisUpdate(rows, i, SoldRow(rows[i], amount, price));
  }

  /** An execution creates no money: cash plus cost basis grows by the realized
      profit alone, whatever the sign of the notional. */
  lemma {:induction false} ExecutionConserves(account: Account, rows: seq<Position>, pair: string, asset: string,
                           side: Side, notional: real, referencePrice: real)
    requires side != HOLD && LongOnly(rows)
    ensures var x := Execute(account, rows, pair, asset, side, notional, referencePrice);
            x.Filled? ==>
              && x.account.cash + CostBasis(x.rows) - x.account.realizedPnl
                 == account.cash + CostBasis(rows) - account.realizedPnl
              && x.account.realizedPnl == account.realizedPnl + x.realizedDelta
  {
    hide Worth, Units, BuyRows, SellRows;
    var x := Execute(account, rows, pair, asset, side, notional, referencePrice);
    if x.Filled? && side == BUY {
      var spend := Min(notional, account.cash);
      UnitsAreWorthTheMoney(spend, x.price);
      BuyRowsCost(rows, pair, asset, spend, x.amount, x.price);
      MarkingKeepsSums(BuyRows(rows, pair, asset, spend, x.amount, x.price));
    } else if x.Filled? {
      var i := FindPair(rows, pair);
      SellRowsCost(rows, i, x.amount, x.price);
      MarkingKeepsSums(SellRows(rows, i, x.amount, x.price));
    }
  }

  lemma {:induction false} BuyRowsShape(rows: seq<Position>, pair: string, asset: string, spend: real, amount: real, price: real)
    requires Distinct(rows) && LongOnly(rows) && amount > 0.0
    ensures var rows' := BuyRows(rows, pair, asset, spend, amount, price); Distinct(rows') && LongOnly(rows')
  {
    hide Worth, Average;
  }

  lemma {:induction false} SellRowsShape(rows: seq<Position>, i: nat, amount: real, price: real)
    requires Distinct(rows) && LongOnly(rows) && i < |rows| && amount <= rows[i].quantity
    ensures var rows' := SellRows(rows, i, amount, price); Distinct(rows') && LongOnly(rows')
  {
    hide Worth;
  }

  lemma {:induction false} MarkingKeepsShape(rows: seq<Position>)
    ensures Distinct(rows) ==> Distinct(MarkedRows(rows))
    ensures LongOnly(rows) ==> LongOnly(MarkedRows(rows))
  {
    hide Worth;
  }

  /** Executions keep one row per pair and never open a short position, and they
      leave the stored equity equal to cash plus open profit less debt. */
  lemma {:induction false} ExecutionKeepsShape(account: Account, rows: seq<Position>, pair: string, asset: string,
                            side: Side, notional: real, referencePrice: real)
    requires side != HOLD && Distinct(rows) && LongOnly(rows)
    ensures var x := Execute(account, rows, pair, asset, side, notional, referencePrice);
            x.Filled? ==>
              && Distinct(x.rows) && LongOnly(x.rows)
              && x.account.unrealizedPnl == Unrealized(x.rows)
              && x.account.equity == x.account.cash + Unrealized(x.rows) - x.account.debt
              && x.account.vaultId == account.vaultId && x.account.debt == account.debt
  {
    hide Worth, Units, BuyRows, SellRows;
    var x := Execute(account, rows, pair, asset, side, notional, referencePrice);
    if x.Filled? {
      var rows';
      if side == BUY {
        var spend := Min(notional, account.cash);
        UnitsAreWorthTheMoney(spend, x.price);
        BuyRowsShape(rows, pair, asset, spend, x.amount, x.price);
        rows' := BuyRows(rows, pair, asset, spend, x.amount, x.price);
      } else {
        var i := FindPair(rows, pair);
        SellRowsShape(rows, i, x.amount, x.price);
        rows' := SellRows(rows, i, x.amount, x.price);
      }
      MarkingKeepsSums(rows');
      MarkingKeepsShape(rows');
    }
  }

  /** What each side needs to be filled. */
  lemma {:induction false} FilledExactlyWhen(account: Account, rows: seq<Position>, pair: string, asset: string,
                          side: Side, notional: real, referencePrice: real)
    requires side != HOLD && Distinct(rows)
    ensures Execute(account, rows, pair, asset, side, notional, referencePrice).Filled?
       <==> if side == BUY then notional > 0.0 && account.cash > 0.0
            else exists k :: 0 <= k < |rows| && rows[k].pair == pair && rows[k].quantity > 0.0
  {
    hide Worth, Units, Average;
    var i := FindPair(rows, pair);
    if side == SELL && exists k :: 0 <= k < |rows| && rows[k].pair == pair && rows[k].quantity > 0.0 {
      var k :| 0 <= k < |rows| && rows[k].pair == pair && rows[k].quantity > 0.0;
      assert i == k;
    }
  }

  /** A refusal names what was missing, and leaves nothing behind. */
  lemma {:induction false} RefusedFor(account: Account, rows: seq<Position>, pair: string, asset: string,
                                      side: Side, notional: real, referencePrice: real)
    requires side != HOLD && Execute(account, rows, pair, asset, side, notional, referencePrice).Refused?
    ensures Execute(account, rows, pair, asset, side, notional, referencePrice)
         == Refused(if side == BUY then "LEDGER_INSUFFICIENT_BALANCE" else "LEDGER_POSITION_NOT_FOUND")
  {
    hide Worth, Units, BuyRows, SellRows, MarkedRows, Refreshed;
  }

  lemma {:induction false} WorthSigned(amount: real, price: real)
    requires price > 0.0
    ensures amount >= 0.0 <==> Worth(amount, price) >= 0.0
  {
  }

  lemma {:induction false} SaleProceeds(notional: real, price: real, held: real)
    requires price > 0.0 && held > 0.0
    ensures var proceeds := Worth(Min(Units(notional, price), held), price);
            && (notional >= 0.0 ==> 0.0 <= proceeds <= notional)
            && (notional < 0.0 ==> proceeds == notional)
  {
    hide Worth, Units;
    UnitsAreWorthTheMoney(notional, price);
    UnitsAreWorthTheMoney(-notional, price);
    WorthSigned(Units(notional, price), price);
    WorthSigned(held, price);
    WorthSigned(Units(notional, price) - held, price);
    WorthAdds(Units(notional, price), held, price);
  }

  /** Selling has no guard against a negative size: from non-negative cash, a
      filled order leaves cash non-negative exactly when it is a purchase or its
      notional is at least minus the cash. */
  lemma {:induction false} CashStaysNonNegativeExactlyWhen(account: Account, rows: seq<Position>, pair: string, asset: string,
                                        side: Side, notional: real, referencePrice: real)
    requires side != HOLD && account.cash >= 0.0
    requires Execute(account, rows, pair, asset, side, notional, referencePrice).Filled?
    ensures Execute(account, rows, pair, asset, side, notional, referencePrice).account.cash >= 0.0
       <==> side == BUY || notional >= -account.cash
  {
    hide Worth, Units, BuyRows, SellRows;
    if side == SELL {
      SaleProceeds(notional, ClampedPrice(referencePrice), rows[FindPair(rows, pair)].quantity);
    }
  }

  // ---- Rebuilding positions from a log of fills ----

  datatype Fill = Fill(pair: string, buy: bool, amount: real, price: real)

  /** What a log says about one pair: the quantity held, the money it cost, and
      the least and greatest price paid since the pair was last empty. */
  datatype Lot = Lot(pair: string, quantity: real, cost: real, least: real, greatest: real)

  datatype Book = Book(cash: real, realized: real, lots: seq<Lot>)

  function FindLot(lots: seq<Lot>, pair: string): (i: nat)
    ensures i <= |lots|
    ensures i < |lots| ==> lots[i].pair == pair
    ensures forall j :: 0 <= j < i ==> lots[j].pair != pair
  {
    if lots == [] || lots[0].pair == pair then 0 else 1 + FindLot(lots[1..], pair)
  }

  function BoughtLot(lot: Lot, amount: real, price: real): Lot {
    Lot(lot.pair, lot.quantity + amount, lot.cost + Worth(amount, price),
        if lot.quantity > 0.0 then Min(lot.least, price) else price,
        if lot.quantity > 0.0 then Max(lot.greatest, price) else price)
  }

  /** The share of a cost pool that goes with a part of the quantity. */
  function Share(lot: Lot, amount: real): real
    requires lot.quantity > 0.0
  {
    lot.cost * (amount / lot.quantity)
  }

  /** Cost pools: a purchase adds what was paid, a sale takes out the share of
      the pool that is sold.  No average price is kept. */
  function Post(book: Book, fill: Fill): Book {
    var i := FindLot(book.lots, fill.pair);
    var paid := Worth(fill.amount, fill.price);
    if fill.buy then
      var lots :=
        if i == |book.lots| then book.lots + [BoughtLot(Lot(fill.pair, 0.0, 0.0, 0.0, 0.0), fill.amount, fill.price)]
        else book.lots[i := BoughtLot(book.lots[i], fill.amount, fill.price)];
      book.(cash := book.cash - paid, lots := lots)
    else if i == |book.lots| || book.lots[i].quantity <= 0.0 then book
    else
      var lot := book.lots[i];
      var taken := Share(lot, fill.amount);
      Book(book.cash + paid, book.realized + paid - taken,
           book.lots[i := lot.(quantity := lot.quantity - fill.amount, cost := lot.cost - taken)])
  }

  ghost predicate RowMatches(row: Position, lot: Lot) {
    && row.pair == lot.pair
    && row.quantity == lot.quantity
    && Cost(row) == lot.cost
    && (row.quantity > 0.0 ==> lot.least <= row.avgEntryPrice <= lot.greatest)
  }

  ghost predicate Matches(rows: seq<Position>, lots: seq<Lot>) {
    |rows| == |lots| && forall i :: 0 <= i < |rows| ==> RowMatches(rows[i], lots[i])
  }

  lemma {:induction false} FindLotAgrees(rows: seq<Position>, lots: seq<Lot>, pair: string)
    requires Matches(rows, lots)
    ensures FindLot(lots, pair) == FindPair(rows, pair)
  {
    hide Cost;
    if rows != [] {
      assert RowMatches(rows[0], lots[0]);
      assert Matches(rows[1..], lots[1..]) by {
        forall i | 0 <= i < |rows[1..]| ensures RowMatches(rows[1..][i], lots[1..][i]) {
          assert RowMatches(rows[i + 1], lots[i + 1]);
        }
      }
      FindLotAgrees(rows[1..], lots[1..], pair);
    }
  }

  lemma {:induction false} BoughtRowMatches(row: Position, lot: Lot, amount: real, price: real)
    requires RowMatches(row, lot) && row.quantity >= 0.0 && amount > 0.0
    ensures RowMatches(BoughtRow(row, amount, price), BoughtLot(lot, amount, price))
  {
    hide Worth, Average, Cost;
    BoughtRowCost(row, amount, price);
    var lot' := BoughtLot(lot, amount, price);
    AverageBetween(row.quantity, row.avgEntryPrice, amount, price, lot'.least, lot'.greatest);
  }

  lemma {:induction false} ShareOfPool(lot: Lot, avg: real, amount: real)
    requires lot.quantity > 0.0 && lot.cost == Worth(lot.quantity, avg)
    ensures Share(lot, amount) == Worth(amount, avg)
  {
    var q, share := lot.quantity, amount / lot.quantity;
    assert share * q == amount;
    assert q * avg * share == share * q * avg;
  }

  lemma {:induction false} SoldRowMatches(row: Position, lot: Lot, amount: real, price: real)
    requires RowMatches(row, lot) && row.quantity > 0.0 && amount <= row.quantity
    ensures Share(lot, amount) == Worth(amount, row.avgEntryPrice)
    ensures RowMatches(SoldRow(row, amount, price),
                       lot.(quantity := lot.quantity - amount, cost := lot.cost - Share(lot, amount)))
  {
    hide Worth, Share;
    ShareOfPool(lot, row.avgEntryPrice, amount);
    SoldRowCost(row, amount, price);
  }

  lemma {:induction false} MarkedMatches(rows: seq<Position>, lots: seq<Lot>)
    requires Matches(rows, lots)
    ensures Matches(MarkedRows(rows), lots)
  {
    hide Worth;
    forall i | 0 <= i < |rows| ensures RowMatches(MarkedRows(rows)[i], lots[i]) {
      assert RowMatches(rows[i], lots[i]);
    }
  }

  lemma {:induction false} BuyPosts(rows: seq<Position>, pair: string, asset: string, spend: real, amount: real, price: real, book: Book)
    requires LongOnly(rows) && Matches(rows, book.lots) && amount > 0.0
    ensures var book' := Post(book, Fill(pair, true, amount, price));
            && Matches(MarkedRows(BuyRows(rows, pair, asset, spend, amount, price)), book'.lots)
            && book'.cash == book.cash - Worth(amount, price) && book'.realized == book.realized
  {
    hide Worth, Average, Share, Cost;
    var i := FindPair(rows, pair);
    var rows', lots' := BuyRows(rows, pair, asset, spend, amount, price), Post(book, Fill(pair, true, amount, price)).lots;
    FindLotAgrees(rows, book.lots, pair);
    assert RowMatches(rows'[i], lots'[i]) by {
      if i < |rows| {
        assert RowMatches(rows[i], book.lots[i]);
        BoughtRowMatches(rows[i], book.lots[i], amount, price);
      } else {
        CostIsWorth(rows'[i]);
      }
    }
    MarkedMatches(rows', lots');
  }

  lemma {:induction false} SellPosts(rows: seq<Position>, i: nat, amount: real, price: real, book: Book, pair: string)
    requires Matches(rows, book.lots)
    requires i == FindPair(rows, pair) < |rows| && rows[i].quantity > 0.0 && amount <= rows[i].quantity
    ensures var book' := Post(book, Fill(pair, false, amount, price));
            && Matches(MarkedRows(SellRows(rows, i, amount, price)), book'.lots)
            && book'.cash == book.cash + Worth(amount, price)
            && book'.realized == book.realized + Worth(amount, price) - Worth(amount, rows[i].avgEntryPrice)
  {
    hide Worth, Share, Cost;
    var row, lot := rows[i], book.lots[i];
    assert RowMatches(row, lot);
    FindLotAgrees(rows, book.lots, pair);
    SoldRowMatches(row, lot, amount, price);
    var lots' := Post(book, Fill(pair, false, amount, price)).lots;
    assert RowMatches(SellRows(rows, i, amount, price)[i], lots'[i]);
    MarkedMatches(SellRows(rows, i, amount, price), lots');
  }

  /** One execution and the posting of its fill stay in step: cash and realized
      profit move by the same amounts, and the rows keep matching the lots. */
  lemma {:induction false} ExecutionPosts(account: Account, rows: seq<Position>, pair: string, asset: string,
                       side: Side, notional: real, referencePrice: real, book: Book)
    requires side != HOLD && LongOnly(rows) && Matches(rows, book.lots)
    ensures var x := Execute(account, rows, pair, asset, side, notional, referencePrice);
            x.Filled? ==>
              var book' := Post(book, Fill(pair, side == BUY, x.amount, x.price));
              && Matches(x.rows, book'.lots)
              && x.account.cash - account.cash == book'.cash - book.cash
              && x.account.realizedPnl - account.realizedPnl == book'.realized - book.realized
  {
    hide Worth, Units, BuyRows, SellRows, Post, RowMatches;
    var x := Execute(account, rows, pair, asset, side, notional, referencePrice);
    if x.Filled? && side == BUY {
      var spend := Min(notional, account.cash);
      UnitsAreWorthTheMoney(spend, x.price);
      BuyPosts(rows, pair, asset, spend, x.amount, x.price, book);
    } else if x.Filled? {
      SellPosts(rows, FindPair(rows, pair), x.amount, x.price, book, pair);
    }
  }
}
