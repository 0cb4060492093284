/** What holds over every run of ticks, owner actions, budget changes and setups. */
module TradingRuns {
  import opened Events
  import opened Text
  import opened Ledger
  import opened PolicyGate
  import opened TradingState

  // ---- The ledger log ----

  /** The position book that the ledger entries alone describe.  An entry names its
      pair through its order intent. */
  function Replay(entries: seq<LedgerEntry>, intents: map<nat, OrderIntent>): Book {
    if entries == [] then Book(0.0, 0.0, [])
    else
      var e := entries[|entries| - 1];
      var book := Replay(entries[..|entries| - 1], intents);
      if e.orderIntentId in intents then Post(book, Fill(intents[e.orderIntentId].pair, e.buy, e.amount, e.price))
      else book
  }

  function CountFacts(facts: seq<TradeFact>, id: nat): nat {
    if facts == [] then 0
    else CountFacts(facts[..|facts| - 1], id) + if facts[|facts| - 1].orderIntentId == id then 1 else 0
  }

  function CountEntries(entries: seq<LedgerEntry>, id: nat): nat {
    if entries == [] then 0
    else CountEntries(entries[..|entries| - 1], id) + if entries[|entries| - 1].orderIntentId == id then 1 else 0
  }

  // ---- The invariant ----

  ghost predicate RowsInv(s: State) {
    && Distinct(s.rows) && LongOnly(s.rows)
    && (s.account.None? ==> s.rows == [] && s.entries == [])
    && (s.account.Some? ==>
          var a := s.account.value;
          a.debt == 0.0 && a.unrealizedPnl == Unrealized(s.rows) && a.equity == a.cash + Unrealized(s.rows))
  }

  ghost predicate Logged(s: State, i: nat)
    requires i < |s.facts| && i < |s.entries|
  {
    var fact, entry := s.facts[i], s.entries[i];
    && entry.orderIntentId == fact.orderIntentId && entry.tradeFactId == fact.id
    && fact.orderIntentId in s.intents
    && var intent := s.intents[fact.orderIntentId];
       intent.status == EXECUTED && intent.pair == fact.pair && intent.side == fact.side
       && entry.buy == (fact.side == BUY) && entry.amount == fact.quantity
  }

  ghost predicate HasFact(facts: seq<TradeFact>, id: nat) {
    exists i :: 0 <= i < |facts| && facts[i].orderIntentId == id
  }

  ghost predicate LogInv(s: State) {
    && |s.facts| == |s.entries|
    && (forall i :: 0 <= i < |s.facts| ==> Logged(s, i))
    && (forall i, j :: 0 <= i < j < |s.facts| ==> s.facts[i].orderIntentId != s.facts[j].orderIntentId)
    && (forall id :: id in s.intents && s.intents[id].status == EXECUTED ==> HasFact(s.facts, id))
  }

  /** The positions and the realized profit after one fact are those before the next. */
  ghost predicate HistoryInv(s: State) {
    && (forall i, j :: 0 <= i && j == i + 1 < |s.facts| ==>
          && s.facts[i].after.positions == s.facts[j].before.positions
          && s.facts[i].after.realizedPnl == s.facts[j].before.realizedPnl)
    && (s.facts != [] ==>
          && s.account.Some?
          && s.facts[|s.facts| - 1].after.positions == s.rows
          && s.facts[|s.facts| - 1].after.realizedPnl == s.account.value.realizedPnl)
  }

  /** A wallet on chain: from then on the vault, the policy and the account belong together. */
  ghost predicate HasWallet(s: State) {
    s.vault.Some? && s.vault.value.suiObject != "" && s.policy.Some?
  }

  ghost predicate BookInv(s: State) {
    var book := Replay(s.entries, s.intents);
    && Matches(s.rows, book.lots)
    && (s.account.Some? ==> s.account.value.realizedPnl == book.realized)
    && (s.vault.Some? || s.policy.Some? ==>
          && HasWallet(s) && s.account.Some?
          && s.account.value.vaultId == Some(s.vault.value.id)
          && s.account.value.cash == s.vault.value.trainingBudget + book.cash)
  }

  /** The gate, asked again with what the fact itself records. */
  predicate PassedItsPolicy(facts: seq<TradeFact>, i: nat)
    requires i < |facts|
  {
    var fact := facts[i];
    && fact.side != HOLD
    && Evaluate(Some(fact.policy), fact.pair, fact.side, fact.notional, DailyLoss(facts[..i], fact.day)).Passed?
  }

  ghost predicate StopInv(s: State) {
    forall i :: 0 <= i < |s.facts| ==> PassedItsPolicy(s.facts, i)
  }

  ghost predicate Inv(s: State) {
    RowsInv(s) && LogInv(s) && HistoryInv(s) && BookInv(s) && StopInv(s)
  }

  // ---- Ticks ----

  ghost predicate Executes(s: State, t: TickInput) {
    CommitTick(s, t).1 == Recorded(EXECUTED, None)
  }

  /** A tick executes exactly when it trades, its keys are fresh, the gate passes
      it and the ledger fills it. */
  lemma {:induction false} ExecutesExactlyWhen(s: State, t: TickInput)
    ensures Executes(s, t)
       <==> SideOf(t) != HOLD && !IntentClashes(s, t) && TickGate(s, t).Passed?
            && TickExecution(s, t).Filled? && !FactClashes(s, t)
  {
    hide Execute, MirrorFromRow, NormalizePair, Notional, DecisionHash, UsedHashes, IntentOf, DailyLoss;
  }

  /** Any other tick adds at most an intent that is not EXECUTED and the account's first row. */
  lemma {:induction false} OtherTicksTouchNothing(s: State, t: TickInput)
    requires !Executes(s, t)
    ensures var s' := Next(s, Tick(t));
            && s'.rows == s.rows && s'.facts == s.facts && s'.entries == s.entries
            && s'.vault == s.vault && s'.policy == s.policy
            && (s.account.Some? ==> s'.account == s.account)
            && (s'.account == s.account || s'.account == Some(NewAccount(t.vaultId, t.initialCapital)))
            && (s'.intents == s.intents ||
                (t.intentId !in s.intents
                 && exists intent: OrderIntent :: intent.status != EXECUTED && s'.intents == s.intents[t.intentId := intent]))
  {
    hide Execute, MirrorFromRow, NormalizePair, Notional, DecisionHash, UsedHashes, FactOf, EntryOf, DailyLoss, Evaluate;
    var s' := Next(s, Tick(t));
    if s'.intents != s.intents {
      assert s'.intents == s.intents[t.intentId := s'.intents[t.intentId]];
    }
  }

  /** The whole effect of a tick that executes. */
  lemma {:induction false} ExecutedTick(s: State, t: TickInput) returns (x: Execution, mirror: PolicyMirror, intent: OrderIntent)
    requires Executes(s, t)
    ensures SideOf(t) != HOLD && t.intentId !in s.intents
    ensures x == TickExecution(s, t) && x.Filled?
    ensures intent.status == EXECUTED && intent.pair == PairOf(t.event) && intent.side == SideOf(t)
    ensures intent.decisionHash == DecisionHash(t)
    ensures FreshMirror(s, t) == Some(mirror) && TickGate(s, t).Passed?
    ensures Next(s, Tick(t))
         == State(Some(x.account), x.rows, s.vault, s.policy, s.intents[t.intentId := intent],
                  s.facts + [FactOf(s, t, mirror, x)], s.entries + [EntryOf(t, x)])
  {
    hide Execute, MirrorFromRow, NormalizePair, Notional, DecisionHash, UsedHashes, DailyLoss;
    x := TickExecution(s, t);
    mirror := FreshMirror(s, t).value;
    intent := IntentOf(t, TickNotional(s, t), FreshMirror(s, t), EXECUTED, None);
  }

  lemma {:induction false} ReplayFrame(entries: seq<LedgerEntry>, intents: map<nat, OrderIntent>, id: nat, intent: OrderIntent)
    requires id !in intents
    requires forall i :: 0 <= i < |entries| ==> entries[i].orderIntentId in intents
    ensures Replay(entries, intents[id := intent]) == Replay(entries, intents)
  {
    hide Post;
    if entries != [] {
      ReplayFrame(entries[..|entries| - 1], intents, id, intent);
    }
  }

  lemma {:induction false} EntriesNameIntents(s: State)
    requires LogInv(s)
    ensures forall i :: 0 <= i < |s.entries| ==> s.entries[i].orderIntentId in s.intents
  {
    forall i | 0 <= i < |s.entries| ensures s.entries[i].orderIntentId in s.intents {
      assert Logged(s, i);
    }
  }

  lemma {:induction false} HasFactKept(facts: seq<TradeFact>, fact: TradeFact, id: nat)
    ensures HasFact(facts, id) || fact.orderIntentId == id ==> HasFact(facts + [fact], id)
  {
    if i :| 0 <= i < |facts| && facts[i].orderIntentId == id {
      assert (facts + [fact])[i].orderIntentId == id;
    } else if fact.orderIntentId == id {
      assert (facts + [fact])[|facts|].orderIntentId == id;
    }
  }

  lemma {:induction false} ReplayNothing(entries: seq<LedgerEntry>, intents: map<nat, OrderIntent>)
    requires entries == []
    ensures Replay(entries, intents) == Book(0.0, 0.0, [])
  {
  }

  lemma {:induction false} OtherTickKeepsInv(s: State, t: TickInput)
    requires Inv(s) && !Executes(s, t)
    ensures Inv(Next(s, Tick(t)))
  {
    hide CommitTick, Replay, Matches, DailyLoss;
    var s' := Next(s, Tick(t));
    OtherTicksTouchNothing(s, t);
    EntriesNameIntents(s);
    if s'.intents != s.intents {
      ReplayFrame(s.entries, s.intents, t.intentId, s'.intents[t.intentId]);
    }
    assert LogInv(s') by {
      forall i | 0 <= i < |s'.facts| ensures Logged(s', i) { assert Logged(s, i); }
    }
    if s.account.None? {
      assert Replay(s.entries, s.intents).realized == 0.0 by { ReplayNothing(s.entries, s.intents); }
    }
  }

  lemma {:induction false} ReplayLast(entries: seq<LedgerEntry>, e: LedgerEntry, intents: map<nat, OrderIntent>)
    requires e.orderIntentId in intents
    ensures Replay(entries + [e], intents)
         == Post(Replay(entries, intents), Fill(intents[e.orderIntentId].pair, e.buy, e.amount, e.price))
  {
    hide Post;
    assert (entries + [e])[..|entries|] == entries;
  }

  /** What a filled order does to rows, account and book. */
  lemma {:induction false} FillKeepsRows(s: State, t: TickInput, x: Execution)
    requires RowsInv(s) && SideOf(t) != HOLD && x == TickExecution(s, t) && x.Filled?
    ensures var account := GetOrCreateAccount(s, t.vaultId, t.initialCapital);
            && Distinct(x.rows) && LongOnly(x.rows) && x.account.debt == 0.0
            && x.account.unrealizedPnl == Unrealized(x.rows) && x.account.equity == x.account.cash + Unrealized(x.rows)
            && x.account.vaultId == account.vaultId
  {
    hide Execute, Unrealized, TickNotional, PairOf, ReferencePrice;
    ExecutionKeepsShape(GetOrCreateAccount(s, t.vaultId, t.initialCapital), s.rows, PairOf(t.event), t.event.asset,
                        SideOf(t), TickNotional(s, t), ReferencePrice(t.event));
  }

  lemma {:induction false} FillPosts(s: State, t: TickInput, x: Execution, book: Book)
    requires SideOf(t) != HOLD && x == TickExecution(s, t) && x.Filled? && LongOnly(s.rows) && Matches(s.rows, book.lots)
    ensures var account := GetOrCreateAccount(s, t.vaultId, t.initialCapital);
            var book' := Post(book, Fill(PairOf(t.event), SideOf(t) == BUY, x.amount, x.price));
            && Matches(x.rows, book'.lots)
            && x.account.cash - account.cash == book'.cash - book.cash
            && x.account.realizedPnl - account.realizedPnl == book'.realized - book.realized
  {
    hide Execute, Post, Matches, TickNotional, PairOf, ReferencePrice, GetOrCreateAccount, LongOnly;
    ExecutionPosts(GetOrCreateAccount(s, t.vaultId, t.initialCapital), s.rows, PairOf(t.event), t.event.asset, SideOf(t),
                   TickNotional(s, t), ReferencePrice(t.event), book);
  }

  lemma {:induction false} InvParts(s: State)
    requires Inv(s)
    ensures RowsInv(s) && LogInv(s) && HistoryInv(s) && BookInv(s) && StopInv(s)
    ensures LongOnly(s.rows) && Matches(s.rows, Replay(s.entries, s.intents).lots)
    ensures s.account.None? ==> s.entries == []
  {
  }

  lemma {:induction false} RowsAfterFill(s: State, x: Execution)
    requires x.Filled? && s.account == Some(x.account) && s.rows == x.rows
    requires Distinct(x.rows) && LongOnly(x.rows) && x.account.debt == 0.0
    requires x.account.unrealizedPnl == Unrealized(x.rows) && x.account.equity == x.account.cash + Unrealized(x.rows)
    ensures RowsInv(s)
  {
    hide Distinct, LongOnly, Unrealized;
  }

  lemma {:induction false} BookAfterFill(s: State, s': State, t: TickInput, x: Execution)
    requires BookInv(s) && x.Filled? && s'.account == Some(x.account) && s'.rows == x.rows
    requires s'.vault == s.vault && s'.policy == s.policy
    requires s.account.None? ==> Replay(s.entries, s.intents) == Book(0.0, 0.0, [])
    requires var account := GetOrCreateAccount(s, t.vaultId, t.initialCapital);
             var (book, book') := (Replay(s.entries, s.intents), Replay(s'.entries, s'.intents));
             && Matches(x.rows, book'.lots) && x.account.vaultId == account.vaultId
             && x.account.cash - account.cash == book'.cash - book.cash
             && x.account.realizedPnl - account.realizedPnl == book'.realized - book.realized
    ensures BookInv(s')
  {
    hide Replay, Matches;
  }

  lemma {:induction false} EntryReplayed(s: State, t: TickInput, x: Execution, intent: OrderIntent)
    requires LogInv(s) && (s.account.None? ==> s.entries == []) && x.Filled?
    requires t.intentId !in s.intents && intent.pair == PairOf(t.event)
    ensures Replay(s.entries + [EntryOf(t, x)], s.intents[t.intentId := intent])
         == Post(Replay(s.entries, s.intents), Fill(PairOf(t.event), SideOf(t) == BUY, x.amount, x.price))
    ensures s.account.None? ==> Replay(s.entries, s.intents) == Book(0.0, 0.0, [])
  {
    hide Replay, Post, PairOf;
    EntriesNameIntents(s);
    hide LogInv;
    ReplayFrame(s.entries, s.intents, t.intentId, intent);
    ReplayLast(s.entries, EntryOf(t, x), s.intents[t.intentId := intent]);
    if s.account.None? {
      ReplayNothing(s.entries, s.intents);
    }
  }

  /** An executed tick posts its entry to the book. */
  lemma {:induction false} ExecutedTickPosts(s: State, t: TickInput)
    requires Inv(s) && Executes(s, t)
    ensures RowsInv(Next(s, Tick(t))) && BookInv(Next(s, Tick(t)))
  {
    var x, mirror, intent := ExecutedTick(s, t);
    InvParts(s);
    hide *;
    FillKeepsRows(s, t, x);
    FillPosts(s, t, x, Replay(s.entries, s.intents));
    EntryReplayed(s, t, x, intent);
    RowsAfterFill(Next(s, Tick(t)), x);
    BookAfterFill(s, Next(s, Tick(t)), t, x);
  }

  lemma {:induction false} LogExtends(s: State, s': State, intent: OrderIntent, fact: TradeFact, entry: LedgerEntry)
    requires LogInv(s) && fact.orderIntentId !in s.intents
    requires s'.facts == s.facts + [fact] && s'.entries == s.entries + [entry]
    requires s'.intents == s.intents[fact.orderIntentId := intent]
    requires Logged(s', |s.facts|)
    ensures LogInv(s')
  {
    forall i | 0 <= i < |s.facts| ensures Logged(s', i) && fact.orderIntentId != s.facts[i].orderIntentId {
      assert Logged(s, i);
    }
    forall id | id in s'.intents && s'.intents[id].status == EXECUTED ensures HasFact(s'.facts, id) {
      HasFactKept(s.facts, fact, id);
    }
  }

  lemma {:induction false} HistoryExtends(s: State, s': State, fact: TradeFact)
    requires HistoryInv(s) && s'.facts == s.facts + [fact] && s'.account.Some?
    requires fact.before.positions == s.rows && fact.after.positions == s'.rows
    requires s.account.Some? ==> fact.before.realizedPnl == s.account.value.realizedPnl
    requires fact.after.realizedPnl == s'.account.value.realizedPnl
    ensures HistoryInv(s')
  {
  }

  lemma {:induction false} LogShape(s: State)
    requires LogInv(s)
    ensures |s.facts| == |s.entries|
  {
  }

  lemma {:induction false} ExecutedTickLogs(s: State, t: TickInput)
    requires Inv(s) && Executes(s, t)
    ensures LogInv(Next(s, Tick(t))) && HistoryInv(Next(s, Tick(t)))
  {
    var x, mirror, intent := ExecutedTick(s, t);
    LogShape(s);
    var fact, entry := FactOf(s, t, mirror, x), EntryOf(t, x);
    hide CommitTick, TickExecution, RowsInv, BookInv, StopInv, LogInv, HistoryInv, TickNotional, TickGate, FreshMirror,
         PairOf, ReferencePrice, Executes;
    var s' := Next(s, Tick(t));
    assert Logged(s', |s.facts|);
    LogExtends(s, s', intent, fact, entry);
    assert fact.before.positions == s.rows && fact.after.positions == s'.rows;
    HistoryExtends(s, s', fact);
  }

  lemma {:induction false} ExecutedTickStops(s: State, t: TickInput)
    requires Inv(s) && Executes(s, t)
    ensures StopInv(Next(s, Tick(t)))
  {
    var x, mirror, intent := ExecutedTick(s, t);
    hide CommitTick, TickExecution, RowsInv, BookInv, LogInv, HistoryInv, DailyLoss, Evaluate, TickNotional, FreshMirror,
         PairOf, Executes, GetOrCreateAccount, Snapshot;
    var facts, facts' := s.facts, Next(s, Tick(t)).facts;
    forall i | 0 <= i < |facts'| ensures PassedItsPolicy(facts', i) {
      if i < |facts| {
        assert PassedItsPolicy(facts, i);
        assert facts'[..i] == facts[..i];
      } else {
        assert facts'[..i] == facts;
      }
    }
  }

  /** A wallet transaction other than the first setup moves money only as a budget
      change: the vault, its cash and its equity by the same amount. */
  ghost predicate OnlyFunds(s: State, s': State) {
    && s'.rows == s.rows && s'.intents == s.intents && s'.facts == s.facts && s'.entries == s.entries
    && (HasWallet(s) ==> HasWallet(s'))
    && (s.vault.Some? && s.account.Some? && s.account.value.vaultId == Some(s.vault.value.id) ==>
          && s'.vault.Some? && s'.vault.value.id == s.vault.value.id
          && var delta := s'.vault.value.trainingBudget - s.vault.value.trainingBudget;
             var a := s.account.value;
             s'.account == Some(a.(cash := a.cash + delta, equity := a.equity + delta)))
  }

  lemma {:induction false} BudgetOnlyFunds(s: State, newBudget: real)
    ensures OnlyFunds(s, Next(s, Budget(newBudget)))
  {
  }

  lemma {:induction false} RefundOnlyFunds(s: State, maxNotional: real, newBudget: Option<real>)
    ensures var r := Refunded(s, maxNotional, newBudget);
            r.Ok? ==> OnlyFunds(s, r.value) && r.value.policy == s.policy
                      && (s.vault.Some? ==> r.value.vault.Some? && r.value.vault.value.status == s.vault.value.status)
  {
  }

  lemma {:induction false} TightenOnlyFunds(s: State, draft: Draft, chainVersion: int)
    ensures OnlyFunds(s, Next(s, Owner(Tighten(draft, chainVersion))))
  {
    if s.policy.Some? {
      var limited := Limited(s.policy.value, draft);
      RefundOnlyFunds(s.(policy := Some(limited)), limited.maxNotional, draft.trainingBudget);
      hide Limited, Refunded;
    }
  }

  lemma {:induction false} OwnerOnlyFunds(s: State, action: OwnerAction)
    ensures OnlyFunds(s, Next(s, Owner(action)))
  {
    if action.Tighten? {
      TightenOnlyFunds(s, action.draft, action.chainVersion);
    }
    hide TightenPolicy;
  }

  lemma {:induction false} FundingKeepsInv(s: State, s': State)
    requires Inv(s) && HasWallet(s) && OnlyFunds(s, s')
    ensures Inv(s')
  {
    hide Replay, Matches, Unrealized, DailyLoss;
    forall i | 0 <= i < |s'.facts| ensures Logged(s', i) { assert Logged(s, i); }
  }

  lemma {:induction false} SecondSetupDoesNothing(s: State, tx: SetupTx)
    requires HasWallet(s)
    ensures Next(s, Setup(tx)) == s
  {
  }

  lemma {:induction false} NoAccountNoLog(s: State)
    requires Inv(s)
    ensures s.account.None? ==> s.rows == [] && s.entries == [] && s.facts == []
  {
  }

  lemma {:induction false} SetupKeepsInv(s: State, tx: SetupTx)
    requires Inv(s) && s.account.None? && s.facts == []
    ensures Inv(Next(s, Setup(tx)))
  {
  }

  lemma {:induction false} WalletStepKeepsInv(s: State, step: Step)
    requires Inv(s) && !step.Tick?
    ensures Inv(Next(s, step))
  {
    hide Replay, Matches, Unrealized, DailyLoss, LogInv, StopInv, HistoryInv, RowsInv;
    hide OnlyFunds, TightenPolicy, ApplyBudget, DraftValid;
    NoAccountNoLog(s);
    if HasWallet(s) {
      hide SetupStep, OwnerStep, UpdateBudget;
      match step {
        case Owner(action) => OwnerOnlyFunds(s, action);
        case Budget(newBudget) => BudgetOnlyFunds(s, newBudget);
        case Setup(tx) => SecondSetupDoesNothing(s, tx);
      }
      if !step.Setup? {
        FundingKeepsInv(s, Next(s, step));
      }
    } else if step.Setup? && s.account.None? {
      SetupKeepsInv(s, step.tx);
    }
  }

  lemma {:induction false} EmptyInv()
    ensures Inv(EMPTY)
  {
  }

  lemma {:induction false} StepKeepsInv(s: State, step: Step)
    requires Inv(s)
    ensures Inv(Next(s, step))
  {
    hide CommitTick, OwnerStep, UpdateBudget, SetupStep;
    if !step.Tick? {
      WalletStepKeepsInv(s, step);
    } else if Executes(s, step.input) {
      ExecutedTickPosts(s, step.input);
      ExecutedTickLogs(s, step.input);
      ExecutedTickStops(s, step.input);
    } else {
      OtherTickKeepsInv(s, step.input);
    }
  }

  lemma {:induction false} InvOverRuns(steps: seq<Step>)
    ensures Inv(Run(EMPTY, steps))
  {
    hide CommitTick, OwnerStep, UpdateBudget, SetupStep;
    if steps == [] {
      EmptyInv();
    } else {
      hide Inv;
      var s, step := Run(EMPTY, steps[..|steps| - 1]), steps[|steps| - 1];
      InvOverRuns(steps[..|steps| - 1]);
      StepKeepsInv(s, step);
    }
  }
}
