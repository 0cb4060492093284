/** The laws of the hot path, over every run. */
module TradingLaws {
  import opened Events
  import opened Text
  import opened Ledger
  import opened PolicyGate
  import opened TradingState
  import opened TradingRuns

  // ---- Conservation ----

  /** Money in: cash, plus what the positions cost, less the profit already taken. */
  function Capital(s: State): real
    requires s.account.Some?
  {
    s.account.value.cash + CostBasis(s.rows) - s.account.value.realizedPnl
  }

  function BudgetOf(s: State): real {
    if s.vault.Some? then s.vault.value.trainingBudget else 0.0
  }

  lemma {:induction false} NothingCostsNothing()
    ensures CostBasis([]) == 0.0
  {
  }

  lemma {:induction false} TickConserves(s: State, t: TickInput)
    requires Inv(s)
    ensures var s' := Next(s, Tick(t));
            && s'.vault == s.vault
            && (s.account.Some? ==> s'.account.Some? && Capital(s') == Capital(s))
            && (s.account.None? && s'.account.Some? ==> Capital(s') == t.initialCapital)
  {
    hide CommitTick, Execute, CostBasis, LogInv, HistoryInv, BookInv, StopInv, FactOf, EntryOf, DailyLoss;
    if Executes(s, t) {
      var x, mirror, intent := ExecutedTick(s, t);
      ExecutionConserves(GetOrCreateAccount(s, t.vaultId, t.initialCapital), s.rows, PairOf(t.event), t.event.asset,
                         SideOf(t), TickNotional(s, t), ReferencePrice(t.event));
    } else {
      OtherTicksTouchNothing(s, t);
    }
    NothingCostsNothing();
  }

  lemma {:induction false} NoWalletNoOwner(s: State, action: OwnerAction)
    ensures s.policy.None? ==> Next(s, Owner(action)) == s
  {
  }

  lemma {:induction false} NoWalletNoBudget(s: State, newBudget: real)
    ensures s.vault.None? ==> Next(s, Budget(newBudget)) == s
  {
  }

  lemma {:induction false} SetupNeedsNoAccount(s: State, tx: SetupTx)
    ensures s.account.Some? ==> Next(s, Setup(tx)) == s
  {
  }

  /** One step changes the capital of an account by the budget difference alone. */
  lemma {:induction false} StepConserves(s: State, step: Step)
    requires Inv(s) && s.account.Some?
    ensures var s' := Next(s, step);
            s'.account.Some? && Capital(s') - BudgetOf(s') == Capital(s) - BudgetOf(s)
  {
    hide CommitTick, CostBasis, Replay, Matches, RowsInv, LogInv, HistoryInv, StopInv;
    hide OwnerStep, UpdateBudget, SetupStep;
    match step {
      case Tick(t) => TickConserves(s, t);
      case Owner(action) => OwnerOnlyFunds(s, action); NoWalletNoOwner(s, action);
      case Budget(newBudget) => BudgetOnlyFunds(s, newBudget); NoWalletNoBudget(s, newBudget);
      case Setup(tx) => SetupNeedsNoAccount(s, tx);
    }
  }

  lemma {:induction false} SetupOpens(s: State, tx: SetupTx)
    requires Inv(s) && s.account.None?
    ensures var s' := Next(s, Setup(tx));
            s' == s || (s'.account.Some? && s'.vault.Some? && Capital(s') == s'.vault.value.trainingBudget)
  {
  }

  lemma {:induction false} NoWalletStays(s: State, step: Step)
    requires Inv(s) && s.vault.None? && s.account.Some?
    ensures Next(s, step).vault.None?
  {
    hide CommitTick, OwnerStep, UpdateBudget, SetupStep, Replay, Matches, RowsInv, LogInv, HistoryInv, StopInv;
    match step {
      case Tick(t) => TickConserves(s, t);
      case Owner(action) => NoWalletNoOwner(s, action);
      case Budget(newBudget) => NoWalletNoBudget(s, newBudget);
      case Setup(tx) => SetupNeedsNoAccount(s, tx);
    }
  }

  /** Average-cost conservation: after every run that set up a wallet, cash plus the
      cost of the open positions is the training budget plus the realized profit. */
  lemma {:induction false} MoneyIsConserved(steps: seq<Step>)
    ensures var s := Run(EMPTY, steps);
            s.vault.Some? ==>
              && s.account.Some?
              && s.account.value.cash + CostBasis(s.rows)
                 == s.vault.value.trainingBudget + s.account.value.realizedPnl
  {
    hide Next, CostBasis, Replay, Matches, RowsInv, LogInv, HistoryInv, StopInv;
    if steps != [] {
      var before, step := Run(EMPTY, steps[..|steps| - 1]), steps[|steps| - 1];
      MoneyIsConserved(steps[..|steps| - 1]);
      InvOverRuns(steps[..|steps| - 1]);
      InvOverRuns(steps);
      if before.account.Some? {
        StepConserves(before, step);
        if before.vault.None? {
          NoWalletStays(before, step);
        }
      } else {
        match step {
          case Tick(t) => TickConserves(before, t);
          case Owner(action) => NoWalletNoOwner(before, action);
          case Budget(newBudget) => NoWalletNoBudget(before, newBudget);
          case Setup(tx) => SetupOpens(before, tx);
        }
      }
    }
  }

  lemma {:induction false} WorthOfDifference(amount: real, price: real, other: real)
    ensures Worth(amount, price - other) == Worth(amount, price) - Worth(amount, other)
  {
  }

  lemma {:induction false} ProfitIsValueLessCost(row: Position)
    requires row.quantity >= 0.0
    ensures OpenProfit(row) == Worth(row.quantity, row.currentPrice) - Cost(row)
  {
    WorthOfDifference(row.quantity, row.currentPrice, row.avgEntryPrice);
    WorthOfNothing(row.currentPrice);
    WorthOfNothing(row.avgEntryPrice);
  }

  function MarketValue(rows: seq<Position>): real {
    if rows == [] then 0.0
    else MarketValue(rows[..|rows| - 1]) + Worth(rows[|rows| - 1].quantity, rows[|rows| - 1].currentPrice)
  }

  lemma {:induction false} UnrealizedIsValueLessCost(rows: seq<Position>)
    requires LongOnly(rows)
    ensures Unrealized(rows) == MarketValue(rows) - CostBasis(rows)
  {
    hide Worth, Cost, OpenProfit;
    if rows != [] {
      UnrealizedIsValueLessCost(rows[..|rows| - 1]);
      ProfitIsValueLessCost(rows[|rows| - 1]);
    }
  }

  /** The stored equity of a wallet is cash plus open profit.  It falls short of the
      value of the account (cash plus the positions at their marks) by exactly what
      the positions cost. */
  lemma {:induction false} EquityLeavesOutCost(steps: seq<Step>)
    ensures var s := Run(EMPTY, steps);
            s.vault.Some? ==>
              && s.account.Some?
              && s.account.value.equity == s.account.value.cash + MarketValue(s.rows) - CostBasis(s.rows)
              && s.account.value.equity + CostBasis(s.rows)
                 == s.vault.value.trainingBudget + s.account.value.realizedPnl + s.account.value.unrealizedPnl
  {
    hide Run, Replay, Matches, LogInv, HistoryInv, StopInv, Unrealized, CostBasis, MarketValue;
    InvOverRuns(steps);
    MoneyIsConserved(steps);
    UnrealizedIsValueLessCost(Run(EMPTY, steps).rows);
  }

  // ---- The log ----

  lemma {:induction false} CountDistinctFacts(facts: seq<TradeFact>, id: nat)
    requires forall i, j :: 0 <= i < j < |facts| ==> facts[i].orderIntentId != facts[j].orderIntentId
    ensures CountFacts(facts, id) == if HasFact(facts, id) then 1 else 0
  {
    if facts != [] {
      var init, last := facts[..|facts| - 1], facts[|facts| - 1];
      CountDistinctFacts(init, id);
      HasFactKept(init, last, id);
      assert init + [last] == facts;
      if i :| 0 <= i < |facts| && facts[i].orderIntentId == id {
        assert i < |init| ==> init[i].orderIntentId == id;
      }
    }
  }

  lemma {:induction false} CountMatchingEntries(facts: seq<TradeFact>, entries: seq<LedgerEntry>, id: nat)
    requires |facts| == |entries|
    requires forall i :: 0 <= i < |facts| ==> facts[i].orderIntentId == entries[i].orderIntentId
    ensures CountEntries(entries, id) == CountFacts(facts, id)
  {
    if facts != [] {
      CountMatchingEntries(facts[..|facts| - 1], entries[..|entries| - 1], id);
    }
  }

  /** After every run, an order intent is EXECUTED exactly when one trade fact and one
      ledger entry name it; any other intent is named by none. */
  lemma {:induction false} ExecutedExactlyWhenLogged(steps: seq<Step>, id: nat)
    ensures var s := Run(EMPTY, steps);
            var executed := id in s.intents && s.intents[id].status == EXECUTED;
            && CountFacts(s.facts, id) == (if executed then 1 else 0)
            && CountEntries(s.entries, id) == (if executed then 1 else 0)
  {
    hide Run, RowsInv, HistoryInv, BookInv, StopInv, CountFacts, CountEntries;
    var s := Run(EMPTY, steps);
    InvOverRuns(steps);
    forall i | 0 <= i < |s.facts|
      ensures s.facts[i].orderIntentId == s.entries[i].orderIntentId
      ensures s.facts[i].orderIntentId in s.intents && s.intents[s.facts[i].orderIntentId].status == EXECUTED
    {
      assert Logged(s, i);
    }
    CountDistinctFacts(s.facts, id);
    CountMatchingEntries(s.facts, s.entries, id);
  }

  lemma {:induction false} AverageFromCost(row: Position)
    requires row.quantity > 0.0
    ensures row.avgEntryPrice == Cost(row) / row.quantity
  {
  }

  /** The entries and the present training budget rebuild the account: cash, realized
      profit, and for each pair its quantity and average cost.  The average of an open
      position lies between the least and greatest price paid since it was last empty. */
  lemma {:induction false} EntriesRebuildTheAccount(steps: seq<Step>)
    ensures var s := Run(EMPTY, steps);
            var book := Replay(s.entries, s.intents);
            && |s.rows| == |book.lots|
            && (forall i :: 0 <= i < |s.rows| ==>
                  && s.rows[i].pair == book.lots[i].pair
                  && s.rows[i].quantity == book.lots[i].quantity >= 0.0
                  && (s.rows[i].quantity > 0.0 ==>
                        && s.rows[i].avgEntryPrice == book.lots[i].cost / book.lots[i].quantity
                        && book.lots[i].least <= s.rows[i].avgEntryPrice <= book.lots[i].greatest))
            && (s.account.Some? ==> s.account.value.realizedPnl == book.realized)
            && (s.vault.Some? ==> s.account.Some? && s.account.value.cash == s.vault.value.trainingBudget + book.cash)
  {
    hide Run, Replay, LogInv, HistoryInv, StopInv, Cost;
    var s := Run(EMPTY, steps);
    var book := Replay(s.entries, s.intents);
    InvOverRuns(steps);
    forall i | 0 <= i < |s.rows| && s.rows[i].quantity > 0.0
      ensures s.rows[i].avgEntryPrice == book.lots[i].cost / book.lots[i].quantity
    {
      assert RowMatches(s.rows[i], book.lots[i]);
      AverageFromCost(s.rows[i]);
    }
    forall i | 0 <= i < |s.rows| ensures RowMatches(s.rows[i], book.lots[i]) {
    }
  }

  // ---- Snapshots ----

  /** Each fact starts from the snapshot on which the one before ended. */
  ghost predicate Chained(start: LedgerSnapshot, facts: seq<TradeFact>, end: LedgerSnapshot) {
    if facts == [] then start == end
    else
      var last := facts[|facts| - 1];
      last.after == end && Chained(start, facts[..|facts| - 1], last.before)
  }

  predicate MovesBudget(step: Step) {
    step.Budget? || (step.Owner? && step.action.Tighten? && step.action.draft.trainingBudget.Some?)
  }

  function SnapshotOf(s: State): LedgerSnapshot
    requires s.account.Some?
  {
    Snapshot(s.account.value, s.rows)
  }

  lemma {:induction false} WalletStepKeepsSnapshot(s: State, step: Step)
    requires s.account.Some? && !step.Tick? && !MovesBudget(step)
    ensures var s' := Next(s, step); s'.account == s.account && s'.rows == s.rows && s'.facts == s.facts
  {
    if step.Setup? {
      SetupNeedsNoAccount(s, step.tx);
    }
  }

  lemma {:induction false} TickExtendsChain(s: State, t: TickInput)
    requires s.account.Some?
    ensures var s' := Next(s, Tick(t));
            s'.account.Some?
            && if s'.facts == s.facts then SnapshotOf(s') == SnapshotOf(s)
               else exists fact: TradeFact ::
                 s'.facts == s.facts + [fact] && fact.before == SnapshotOf(s) && fact.after == SnapshotOf(s')
  {
    hide CommitTick, Execute;
    if Executes(s, t) {
      var x, mirror, intent := ExecutedTick(s, t);
    } else {
      OtherTicksTouchNothing(s, t);
    }
  }

  lemma {:induction false} ChainLast(start: LedgerSnapshot, facts: seq<TradeFact>, fact: TradeFact)
    requires Chained(start, facts, fact.before)
    ensures Chained(start, facts + [fact], fact.after)
  {
    assert (facts + [fact])[..|facts|] == facts;
  }

  /** Between budget changes the trade facts form one unbroken chain of snapshots,
      from the account as it was to the account as it is. */
  lemma {:induction false} FactsChain(s: State, steps: seq<Step>)
    requires s.account.Some?
    requires forall i :: 0 <= i < |steps| ==> !MovesBudget(steps[i])
    ensures var s' := Run(s, steps);
            s'.account.Some? && s.facts <= s'.facts
            && Chained(SnapshotOf(s), s'.facts[|s.facts|..], SnapshotOf(s'))
  {
    hide Next, MovesBudget, Snapshot;
    if steps == [] {
      assert s.facts[|s.facts|..] == [];
    } else {
      var mid, step := Run(s, steps[..|steps| - 1]), steps[|steps| - 1];
      var s' := Run(s, steps);
      FactsChain(s, steps[..|steps| - 1]);
      if step.Tick? {
        TickExtendsChain(mid, step.input);
        if s'.facts != mid.facts {
          var fact: TradeFact :| s'.facts == mid.facts + [fact]
            && fact.before == SnapshotOf(mid) && fact.after == SnapshotOf(s');
          ChainLast(SnapshotOf(s), mid.facts[|s.facts|..], fact);
          assert s'.facts[|s.facts|..] == mid.facts[|s.facts|..] + [fact];
        }
      } else {
        WalletStepKeepsSnapshot(mid, step);
      }
    }
  }

  /** Whatever happens between two facts, budget changes included, positions and
      realized profit pass from one to the next untouched. */
  lemma {:induction false} PositionsPassBetweenFacts(steps: seq<Step>, i: nat)
    requires i + 1 < |Run(EMPTY, steps).facts|
    ensures var facts := Run(EMPTY, steps).facts;
            && facts[i + 1].before.positions == facts[i].after.positions
            && facts[i + 1].before.realizedPnl == facts[i].after.realizedPnl
  {
    hide Run, RowsInv, LogInv, BookInv, StopInv;
    InvOverRuns(steps);
  }

  // ---- The daily-loss stop ----

  lemma {:induction false} DailyLossGrows(facts: seq<TradeFact>, n: nat, day: int)
    requires n <= |facts|
    ensures DailyLoss(facts[..n], day) <= DailyLoss(facts, day)
    ensures (forall k :: n <= k < |facts| ==> facts[k].day != day || facts[k].realizedPnl >= 0.0)
            ==> DailyLoss(facts[..n], day) == DailyLoss(facts, day)
  {
    if n == |facts| {
      assert facts[..n] == facts;
    } else {
      var init := facts[..|facts| - 1];
      assert init[..n] == facts[..n];
      DailyLossGrows(init, n, day);
    }
  }

  /** After every run, each trade fact was allowed by the policy snapshot it carries: the
      mirror in step with the chain, the agent present, no pause, the pair allowed, the
      notional within its limit, and the realized losses of its day so far strictly below
      theirs. */
  lemma {:induction false} EveryFactPassedItsPolicy(steps: seq<Step>, i: nat)
    requires i < |Run(EMPTY, steps).facts|
    ensures var facts := Run(EMPTY, steps).facts;
            var (fact, policy) := (facts[i], facts[i].policy);
            && fact.side != HOLD
            && policy.mirrorSynced && !policy.agentRevoked && !policy.paused
            && (exists pair :: pair in policy.allowedPairs && NormalizePair(pair) == NormalizePair(fact.pair))
            && fact.notional <= policy.maxNotional
            && DailyLoss(facts[..i], fact.day) < policy.maxDailyLoss
  {
    hide Run, RowsInv, LogInv, BookInv, HistoryInv, DailyLoss, NormalizePair;
    InvOverRuns(steps);
    assert PassedItsPolicy(Run(EMPTY, steps).facts, i);
  }

  /** With the limit of the day unchanged, the losses of the day less the last of them
      stay below it: a day overshoots by at most one trade. */
  lemma {:induction false} DayOvershootsByOneTrade(steps: seq<Step>, day: int, limit: real, last: nat)
    requires var facts := Run(EMPTY, steps).facts;
             && last < |facts| && facts[last].day == day && facts[last].realizedPnl < 0.0
             && facts[last].policy.maxDailyLoss == limit
             && forall k :: last < k < |facts| ==> facts[k].day != day || facts[k].realizedPnl >= 0.0
    ensures var facts := Run(EMPTY, steps).facts;
            DailyLoss(facts, day) - (-facts[last].realizedPnl) < limit
  {
    hide Run;
    var facts := Run(EMPTY, steps).facts;
    EveryFactPassedItsPolicy(steps, last);
    DailyLossGrows(facts, last + 1, day);
    assert facts[..last + 1][..last] == facts[..last];
  }

  // ---- Locks: revocation, pause, and the reached limit ----

  datatype Lock = Revoked | Paused | LossReached(day: int)

  ghost predicate Locked(lock: Lock, s: State) {
    && HasWallet(s)
    && var policy := s.policy.value;
       match lock
       case Revoked => policy.authorizedAgent.None?
       case Paused => policy.paused
       case LossReached(day) => DailyLoss(s.facts, day) >= policy.maxDailyLoss
  }

  /** A tick that names a policy, or brings no mirror in place of one.  Every tick of an
      actor does (ActorWallet.ActorTicksReadPolicy). */
  predicate ReadsPolicy(t: TickInput) {
    t.policyId.Some? || t.fallback.None?
  }

  /** The steps under which a lock must hold: revocation survives all of them; a pause
      ends with unpause or tighten; a reached limit lasts for its day unless the
      limits change. */
  predicate Respects(lock: Lock, step: Step) {
    match step
    case Tick(t) => ReadsPolicy(t) && (lock.LossReached? ==> t.day == lock.day)
    case Owner(action) =>
      && (lock.Paused? ==> !action.Unpause? && !action.Tighten?)
      && (lock.LossReached? ==> !action.Tighten?)
    case _ => true
  }

  /** Nothing was executed: same positions, same log, and cash, equity and realized
      profit moved at most as a budget change moves them. */
  ghost predicate NothingExecuted(s: State, s': State) {
    && s'.rows == s.rows && s'.facts == s.facts && s'.entries == s.entries
    && (s.account.Some? ==>
          && s'.account.Some?
          && var a, a' := s.account.value, s'.account.value;
             a'.realizedPnl == a.realizedPnl && a'.unrealizedPnl == a.unrealizedPnl
             && a'.cash - a.cash == a'.equity - a.equity == BudgetOf(s') - BudgetOf(s))
  }

  lemma {:induction false} LockBlocksTick(lock: Lock, s: State, t: TickInput)
    requires Locked(lock, s) && Respects(lock, Tick(t))
    ensures !Executes(s, t)
  {
    hide CommitTick, Execute, DailyLoss, NormalizePair, Notional;
    ExecutesExactlyWhen(s, t);
  }

  lemma {:induction false} TightenKeepsAgent(s: State, draft: Draft, chainVersion: int)
    requires HasWallet(s)
    ensures var s' := Next(s, Owner(Tighten(draft, chainVersion)));
            s'.policy.Some? && s'.policy.value.authorizedAgent == s.policy.value.authorizedAgent
  {
    hide ApplyBudget;
  }

  lemma {:induction false} TightenKeepsWallet(s: State, draft: Draft, chainVersion: int)
    requires HasWallet(s)
    ensures HasWallet(Next(s, Owner(Tighten(draft, chainVersion))))
  {
    TightenOnlyFunds(s, draft, chainVersion);
  }

  lemma {:induction false} LockSurvivesOwner(lock: Lock, s: State, action: OwnerAction)
    requires Locked(lock, s) && Respects(lock, Owner(action))
    ensures Locked(lock, Next(s, Owner(action)))
  {
    hide DailyLoss, TightenPolicy, OnlyFunds;
    if action.Tighten? {
      hide OwnerStep;
      TightenKeepsAgent(s, action.draft, action.chainVersion);
      TightenKeepsWallet(s, action.draft, action.chainVersion);
    }
  }

  lemma {:induction false} LockedStep(lock: Lock, s: State, step: Step)
    requires Inv(s) && Locked(lock, s) && Respects(lock, step)
    ensures Locked(lock, Next(s, step)) && NothingExecuted(s, Next(s, step))
  {
    hide CommitTick, DailyLoss, SetupStep, Replay, Matches, RowsInv, LogInv, HistoryInv, StopInv;
    match step {
      case Tick(t) =>
        LockBlocksTick(lock, s, t);
        OtherTicksTouchNothing(s, t);
      case Owner(action) =>
        OwnerOnlyFunds(s, action);
        LockSurvivesOwner(lock, s, action);
      case Budget(newBudget) =>
        BudgetOnlyFunds(s, newBudget);
      case Setup(tx) =>
        SecondSetupDoesNothing(s, tx);
    }
  }

  /** From a locked state, no run that respects the lock executes anything.  With the
      lock Revoked: nothing after revoke trades again, whatever the owner does. */
  lemma {:induction false} LockedRunsExecuteNothing(lock: Lock, s: State, steps: seq<Step>)
    requires Inv(s) && Locked(lock, s)
    requires forall i :: 0 <= i < |steps| ==> Respects(lock, steps[i])
    ensures Inv(Run(s, steps)) && Locked(lock, Run(s, steps)) && NothingExecuted(s, Run(s, steps))
  {
    hide Next, Inv, Locked, Respects;
    if steps != [] {
      var mid, step := Run(s, steps[..|steps| - 1]), steps[|steps| - 1];
      LockedRunsExecuteNothing(lock, s, steps[..|steps| - 1]);
      LockedStep(lock, mid, step);
      StepKeepsInv(mid, step);
    }
  }

  /** The owner's revoke and pause take hold at once. */
  lemma {:induction false} OwnerLocks(s: State)
    requires HasWallet(s)
    ensures Locked(Revoked, Next(s, Owner(Revoke))) && Locked(Paused, Next(s, Owner(Pause)))
  {
  }

  /** After a revocation commit_tick executes exactly when the call does not read the policy
      at all: it brings a mirror, that mirror passes the gate, and the ledger fills it. */
  lemma {:induction false} RevokedTickExecutesExactlyWhen(s: State, t: TickInput)
    requires Locked(Revoked, s)
    ensures Executes(s, t)
       <==> && !ReadsPolicy(t)
            && SideOf(t) != HOLD
            && Evaluate(t.fallback, PairOf(t.event), SideOf(t), TickNotional(s, t), DailyLoss(s.facts, t.day)).Passed?
            && TickExecution(s, t).Filled? && !IntentClashes(s, t) && !FactClashes(s, t)
  {
    hide CommitTick, Execute, DailyLoss, NormalizePair, Notional;
    ExecutesExactlyWhen(s, t);
    if ReadsPolicy(t) {
      LockBlocksTick(Revoked, s, t);
    }
  }

  lemma {:induction false} DistinctRows(s: State)
    requires Inv(s)
    ensures Distinct(s.rows)
  {
    hide LogInv, HistoryInv, BookInv, StopInv;
  }

  lemma {:induction false} NoPolicyBlocks(pair: string, side: Side, notional: real, loss: real)
    requires side != HOLD
    ensures Evaluate(None, pair, side, notional, loss).Blocked?
  {
  }

  /** The whole path of a tick that names its policy: it executes exactly when the stored
      rows allow it and there is something to fill it with.  The vault it names must be the
      stored one, both objects on chain, the policy unpaused with an agent, the pair allowed
      up to spelling, the size within the limit and the losses of the day below theirs. */
  lemma {:induction false} StoredPolicyDecides(s: State, t: TickInput)
    requires Inv(s) && t.policyId.Some?
    ensures var account, notional := GetOrCreateAccount(s, t.vaultId, t.initialCapital), TickNotional(s, t);
            (Executes(s, t)
        <==>
            && SideOf(t) != HOLD && !IntentClashes(s, t) && !FactClashes(s, t)
            && s.policy.Some? && s.policy.value.id == t.policyId.value
            && s.vault.Some? && Some(s.vault.value.id) == t.vaultId
            && s.vault.value.suiObject != "" && s.policy.value.suiObject != ""
            && !s.policy.value.paused
            && s.policy.value.authorizedAgent.Some? && s.policy.value.authorizedAgent.value != ""
            && (exists q :: q in s.policy.value.allowedPairs && NormalizePair(q) == NormalizePair(PairOf(t.event)))
            && notional <= s.policy.value.maxNotional
            && DailyLoss(s.facts, t.day) < s.policy.value.maxDailyLoss
            && if SideOf(t) == BUY then notional > 0.0 && account.cash > 0.0
               else exists k :: 0 <= k < |s.rows| && s.rows[k].pair == PairOf(t.event) && s.rows[k].quantity > 0.0)
  {
    ExecutesExactlyWhen(s, t);
    hide Executes, IntentClashes, FactClashes, CommitTick, DailyLoss, TickNotional, PairOf, NormalizePair, ReferencePrice,
         Execute, GetOrCreateAccount, MirrorFromRow, Evaluate;
    DistinctRows(s);
    hide Inv;
    if SideOf(t) != HOLD {
      FilledExactlyWhen(GetOrCreateAccount(s, t.vaultId, t.initialCapital), s.rows, PairOf(t.event), t.event.asset,
                        SideOf(t), TickNotional(s, t), ReferencePrice(t.event));
      if s.policy.Some? && s.policy.value.id == t.policyId.value {
        GatePassesExactlyWhen(s.policy.value, IsMirrorSynced(FindVault(s, t.vaultId), s.policy), PairOf(t.event), SideOf(t),
                              TickNotional(s, t), DailyLoss(s.facts, t.day));
      } else {
        NoPolicyBlocks(PairOf(t.event), SideOf(t), TickNotional(s, t), DailyLoss(s.facts, t.day));
      }
    }
  }

  // ---- Non-negative cash ----

  /** Every tick of the run sizes its order at zero or more. */
  ghost predicate SizedUpward(s: State, steps: seq<Step>)
  {
    steps == [] ||
    (var step := steps[|steps| - 1];
     && SizedUpward(s, steps[..|steps| - 1])
     && (step.Tick? ==>
           step.input.initialCapital >= 0.0 && TickNotional(Run(s, steps[..|steps| - 1]), step.input) >= 0.0))
  }

  lemma {:induction false} TickKeepsCash(s: State, t: TickInput)
    requires s.account.Some? ==> s.account.value.cash >= 0.0
    requires t.initialCapital >= 0.0 && TickNotional(s, t) >= 0.0
    ensures var s' := Next(s, Tick(t)); s'.account.Some? ==> s'.account.value.cash >= 0.0
  {
    hide CommitTick, Execute;
    if Executes(s, t) {
      var x, mirror, intent := ExecutedTick(s, t);
      CashStaysNonNegativeExactlyWhen(GetOrCreateAccount(s, t.vaultId, t.initialCapital), s.rows, PairOf(t.event),
                                      t.event.asset, SideOf(t), TickNotional(s, t), ReferencePrice(t.event));
    } else {
      OtherTicksTouchNothing(s, t);
    }
  }

  lemma {:induction false} WalletStepKeepsCash(s: State, step: Step)
    requires !step.Tick? && (s.account.Some? ==> s.account.value.cash >= 0.0)
    ensures var s' := Next(s, step); s'.account.Some? ==> s'.account.value.cash >= 0.0
  {
  }

  /** While no order is sized below zero, cash never goes negative; quantities never do
      in any run. */
  lemma {:induction false} CashAndQuantitiesStayNonNegative(steps: seq<Step>)
    ensures var s := Run(EMPTY, steps);
            && (forall i :: 0 <= i < |s.rows| ==> s.rows[i].quantity >= 0.0)
            && (SizedUpward(EMPTY, steps) && s.account.Some? ==> s.account.value.cash >= 0.0)
  {
    hide Next, Replay, Matches, LogInv, HistoryInv, BookInv, StopInv, Unrealized, TickNotional;
    InvOverRuns(steps);
    if steps != [] && SizedUpward(EMPTY, steps) {
      var mid, step := Run(EMPTY, steps[..|steps| - 1]), steps[|steps| - 1];
      CashAndQuantitiesStayNonNegative(steps[..|steps| - 1]);
      if step.Tick? {
        TickKeepsCash(mid, step.input);
      } else {
        WalletStepKeepsCash(mid, step);
      }
    }
  }

  // ---- Where the guards end: concrete runs ----

  const DEMO_SETUP := SetupTx("0xd", "0xv", "0xp", Some("agent"), 1, true, true, true, None, ["DEEP-SUI"], "v", "p")
  const DEMO_MIRROR := PolicyMirror(1, ["DEEP-SUI"], 50.0, 8.0, false, false, true)

  function DemoTick(policyId: Option<string>, action: Side, pct: real, price: real, n: nat): TickInput {
    TickInput(Some("v"), policyId, if policyId.None? then Some(DEMO_MIRROR) else None,
              MarketEvent("DEEP", "DEEP-SUI", n as real, price, None, false, "fresh", None), EXECUTE, action, 0.7, 10000.0, pct, 0, n, n, n)
  }

  lemma {:induction false} DemoWallet()
    ensures var s := Next(EMPTY, Setup(DEMO_SETUP));
            && HasWallet(s) && s.account == Some(NewAccount(Some("v"), 10000.0))
            && s.rows == [] && s.facts == [] && s.entries == [] && s.intents == map[]
  {
  }

  lemma {:induction false} DemoPairAllowed()
    ensures NormalizePair("DEEP-SUI") in (set q | q in ["DEEP-SUI"] :: NormalizePair(q))
  {
    hide NormalizePair;
    assert "DEEP-SUI" in ["DEEP-SUI"];
  }

  lemma {:induction false} WorthOf(x: real, y: real)
    ensures Worth(x, y) == x * y
  {
  }

  /** A remark on commit_tick by itself: a call that brought a mirror and no policy id would
      trade after a revocation.  No actor makes such a call. */
  lemma {:induction false} StaleMirrorTradesAfterRevoke()
    ensures var revoked := Next(Next(EMPTY, Setup(DEMO_SETUP)), Owner(Revoke));
            && Locked(Revoked, revoked)
            && Executes(revoked, DemoTick(None, BUY, 0.001, 1.0, 1))
  {
    hide NormalizePair, Millionths, CommitTick, Execute, Worth;
    DemoWallet();
    var s := Next(EMPTY, Setup(DEMO_SETUP));
    var revoked := Next(s, Owner(Revoke));
    OwnerLocks(s);
    var t := DemoTick(None, BUY, 0.001, 1.0, 1);
    DemoPairAllowed();
    assert Worth(10000.0, 0.001) == 10.0 by { WorthOf(10000.0, 0.001); }
    assert TickNotional(revoked, t) == 10.0;
    FilledExactlyWhen(NewAccount(Some("v"), 10000.0), [], "DEEP-SUI", "DEEP", BUY, 10.0, 1.0);
    RevokedTickExecutesExactlyWhen(revoked, t);
  }
}
