/** The services as they run: rows updated in place inside one database session,
    committed or rolled back as a whole.  Every method is proved to take the session
    from one State to the State that the functions of TradingState give. */
module TrainingLedger {
  import opened Events
  import opened Reals
  import opened Text
  import opened Ledger
  import opened PolicyGate
  import opened TradingState

  class PandaAccount {
    var vaultId: Option<string>
    var cash: real
    var debt: real
    var equity: real
    var realizedPnl: real
    var unrealizedPnl: real

    function View(): Account
      reads this
    {
      Account(vaultId, cash, debt, equity, realizedPnl, unrealizedPnl)
    }

    constructor (vaultId: Option<string>, capital: real)
      ensures View() == NewAccount(vaultId, capital)
    {
      this.vaultId := vaultId;
      cash, debt, equity, realizedPnl, unrealizedPnl := capital, 0.0, capital, 0.0, 0.0;
    }

    method Load(a: Account)
      modifies this
      ensures View() == a
    {
      vaultId, cash, debt := a.vaultId, a.cash, a.debt;
      equity, realizedPnl, unrealizedPnl := a.equity, a.realizedPnl, a.unrealizedPnl;
    }
  }

  // ---- The transaction, exit by exit ----

  lemma {:induction false} GateAsks(s: State, t: TickInput)
    ensures SideOf(t) != HOLD && TickGate(s, t).Passed? ==> FreshMirror(s, t).Some?
  {
    hide NormalizePair, MirrorFromRow, TickNotional, DailyLoss;
  }

  lemma {:induction false} TickClashes(s: State, t: TickInput)
    requires IntentClashes(s, t)
    ensures CommitTick(s, t) == (s, Aborted)
  {
    hide IntentClashes, TickExecution, TickGate, TickNotional, FreshMirror;
  }

  /** A HOLD, or a trade that the gate blocks. */
  lemma {:induction false} TickStops(s: State, t: TickInput)
    requires !IntentClashes(s, t) && (SideOf(t) == HOLD || TickGate(s, t).Blocked?)
    ensures var (notional, mirror) := (TickNotional(s, t), FreshMirror(s, t));
            CommitTick(s, t) ==
              if SideOf(t) == HOLD then
                (s.(intents := s.intents[t.intentId := IntentOf(t, notional, mirror, DECIDED, None)]), Recorded(DECIDED, None))
              else
                var why := Some(ByGate(TickGate(s, t).code));
                (s.(account := Some(GetOrCreateAccount(s, t.vaultId, t.initialCapital)),
                    intents := s.intents[t.intentId := IntentOf(t, notional, mirror, REJECTED, why)]),
                 Recorded(REJECTED, why))
  {
    hide IntentClashes, TickExecution, TickGate, TickNotional, FreshMirror, IntentOf, GetOrCreateAccount;
  }

  /** A trade that the gate passes. */
  lemma {:induction false} TickFills(s: State, t: TickInput)
    requires !IntentClashes(s, t) && SideOf(t) != HOLD && TickGate(s, t).Passed? && FreshMirror(s, t).Some?
    ensures var (notional, mirror, x) := (TickNotional(s, t), FreshMirror(s, t), TickExecution(s, t));
            CommitTick(s, t) ==
              if x.Refused? then
                var why := Some(ByLedger(x.reason));
                (s.(account := Some(GetOrCreateAccount(s, t.vaultId, t.initialCapital)),
                    intents := s.intents[t.intentId := IntentOf(t, notional, mirror, REJECTED, why)]),
                 Recorded(REJECTED, why))
              else if FactClashes(s, t) then (s, Aborted)
              else
                (State(Some(x.account), x.rows, s.vault, s.policy,
                       s.intents[t.intentId := IntentOf(t, notional, mirror, EXECUTED, None)],
                       s.facts + [FactOf(s, t, mirror.value, x)], s.entries + [EntryOf(t, x)]),
                 Recorded(EXECUTED, None))
  {
    hide IntentClashes, FactClashes, TickExecution, TickGate, TickNotional, FreshMirror, IntentOf, GetOrCreateAccount,
         FactOf, EntryOf;
  }

  // ---- As it runs ----

  class Session {
    var account: PandaAccount?
    var rows: seq<Position>
    var vault: Option<Vault>
    var policy: Option<PolicyRow>
    var intents: map<nat, OrderIntent>
    var facts: seq<TradeFact>
    var entries: seq<LedgerEntry>

    function View(): State
      reads this, account
    {
      State(if account == null then None else Some(account.View()), rows, vault, policy, intents, facts, entries)
    }

    constructor ()
      ensures View() == EMPTY
    {
      account, rows, vault, policy, intents, facts, entries := null, [], None, None, map[], [], [];
    }

    /** What an exception before the commit leaves behind: the state as it was. */
    method Rollback(saved: State)
      requires saved.account.Some? ==> account != null
      modifies this, account
      ensures View() == saved
      ensures account == old(account) || account == null
    {
      if saved.account.Some? {
        account.Load(saved.account.value);
      } else {
        account := null;
      }
      rows, vault, policy := saved.rows, saved.vault, saved.policy;
      intents, facts, entries := saved.intents, saved.facts, saved.entries;
    }

    // ---- LedgerService ----

    method FindOrCreateAccount(vaultId: Option<string>, initialCapital: real) returns (a: PandaAccount)
      modifies this`account
      ensures account == a && (old(account) == null ==> fresh(a)) && (old(account) != null ==> a == old(account))
      ensures View() == old(View()).(account := Some(GetOrCreateAccount(old(View()), vaultId, initialCapital)))
    {
      if account == null {
        account := new PandaAccount(vaultId, initialCapital);
      }
      a := account;
    }

    method RefreshEquity(a: PandaAccount)
      requires a == account
      modifies this`rows, a
      ensures rows == MarkedRows(old(rows))
      ensures a.View() == Refreshed(old(a.View()), old(rows))
    {
      var unrealized, i := 0.0, 0;
      ghost var before := rows;
      while i < |rows|
        invariant 0 <= i <= |rows|
        invariant a == account && a.View() == old(a.View())
        invariant |rows| == |before|
        invariant forall k :: 0 <= k < i ==> rows[k] == MarkedRow(before[k])
        invariant forall k :: i <= k < |rows| ==> rows[k] == before[k]
        invariant unrealized == Unrealized(before[..i])
      {
        hide Worth;
        var row := rows[i];
        assert row == before[i];
        assert before[..i + 1][..i] == before[..i];
        if row.quantity > 0.0 {
          rows := rows[i := row.(unrealizedPnl := Worth(row.quantity, row.currentPrice - row.avgEntryPrice),
                                 notionalValue := Worth(row.quantity, row.currentPrice))];
          unrealized := unrealized + rows[i].unrealizedPnl;
        }
        i := i + 1;
      }
      assert before[..i] == before && rows == MarkedRows(before);
      a.unrealizedPnl := unrealized;
      a.equity := a.cash + unrealized - a.debt;
    }

    /** apply_execution: on success one entry is appended, still without its trade fact. */
    method ApplyExecution(a: PandaAccount, intentId: nat, entryId: nat, pair: string, asset: string,
                          side: Side, notional: real, referencePrice: real) returns (x: Execution)
      requires a == account && side != HOLD
      modifies this`rows, this`entries, a
      ensures x == Execute(old(a.View()), old(rows), pair, asset, side, notional, referencePrice)
      ensures x.Refused? ==> View() == old(View())
      ensures x.Filled? ==> a.View() == x.account && rows == x.rows
      ensures x.Filled? ==>
        (entries == old(entries)
         + [LedgerEntry(entryId, intentId, 0, side == BUY, x.amount, x.price, x.account.cash, x.account.equity)])
    {
      hide Worth, Units, Average;
      var price := Max(referencePrice, MIN_PRICE);
      var i := FindPair(rows, pair);
      var amount, realizedDelta := 0.0, 0.0;
      if side == BUY {
        var spend := Min(notional, a.cash);
        if spend <= 0.0 {
          return Refused("LEDGER_INSUFFICIENT_BALANCE");
        }
        amount := Units(spend, price);
        a.cash := a.cash - spend;
        if i == |rows| {
          rows := rows + [Position(pair, asset, amount, price, price, spend, 0.0)];
        } else {
          var quantity := rows[i].quantity + amount;
          var avg := if quantity > 0.0 then Average(rows[i].quantity, rows[i].avgEntryPrice, amount, price) else price;
          rows := rows[i := rows[i].(quantity := quantity, avgEntryPrice := avg, currentPrice := price,
                                     notionalValue := Worth(quantity, price))];
        }
        assert rows == BuyRows(old(rows), pair, asset, spend, amount, price);
      } else {
        if i == |rows| || rows[i].quantity <= 0.0 {
          return Refused("LEDGER_POSITION_NOT_FOUND");
        }
        amount := Min(Units(notional, price), rows[i].quantity);
        var proceeds := Worth(amount, price);
        realizedDelta := proceeds - Worth(amount, rows[i].avgEntryPrice);
        a.cash := a.cash + proceeds;
        a.realizedPnl := a.realizedPnl + realizedDelta;
        var quantity := rows[i].quantity - amount;
        rows := rows[i := rows[i].(quantity := quantity, currentPrice := price, notionalValue := Worth(quantity, price),
                                   unrealizedPnl := Worth(quantity, price - rows[i].avgEntryPrice))];
        assert rows == SellRows(old(rows), i, amount, price);
      }
      hide BuyRows, SellRows, FindPair, Refreshed, MarkedRows;
      var n := |entries|;
      entries := entries + [LedgerEntry(entryId, intentId, 0, side == BUY, amount, price, 0.0, 0.0)];
      RefreshEquity(a);
      entries := entries[n := entries[n].(cashAfter := a.cash, equityAfter := a.equity)];
      x := Filled(a.View(), rows, amount, price, realizedDelta);
    }

    // ---- TradeFactWriter ----

    method Commit(t: TickInput) returns (outcome: TickOutcome)
      modifies this, account
      ensures (View(), outcome) == CommitTick(old(View()), t)
      ensures account == old(account) || account == null || fresh(account)
    {
      hide Execute, NormalizePair, MirrorFromRow, Worth, DailyLoss, Millionths, CommitTick, IntentOf, DecisionHash, UsedHashes;
      var saved := View();
      var side, pair := SideOf(t), PairOf(t.event);
      var mirror := FreshMirror(View(), t);
      var notional := 0.0;
      var a := account;
      if side != HOLD {
        a := FindOrCreateAccount(t.vaultId, t.initialCapital);
        notional := Notional(a.View(), side, t.initialCapital, t.positionPct);
      }
      var status, rejection := DECIDED, None;
      if side != HOLD {
        var gate := Evaluate(mirror, pair, side, notional, DailyLoss(facts, t.day));
        assert gate == TickGate(saved, t);
        if gate.Blocked? {
          status, rejection := REJECTED, Some(ByGate(gate.code));
        }
      }
      assert notional == TickNotional(saved, t);
      GateAsks(saved, t);
      hide TickNotional, Notional, Evaluate, FreshMirror, TickGate, PairOf, ReferencePrice;
      if t.intentId in intents || DecisionHash(t) in UsedHashes(intents) {
        Rollback(saved);
        TickClashes(saved, t);
        return Aborted;
      }
      intents := intents[t.intentId := IntentOf(t, notional, mirror, status, rejection)];
      if side != HOLD && status == DECIDED {
        outcome := CommitPassed(t, a, notional, mirror, saved);
        return;
      }
      outcome := Recorded(status, rejection);
      TickStops(saved, t);
    }

    /** The rest of commit_tick, for an intent that the gate has passed. */
    method CommitPassed(t: TickInput, a: PandaAccount, notional: real, mirror: Option<PolicyMirror>, saved: State)
      returns (outcome: TickOutcome)
      requires a == account && SideOf(t) != HOLD && !IntentClashes(saved, t) && TickGate(saved, t).Passed?
      requires mirror == FreshMirror(saved, t) && mirror.Some? && notional == TickNotional(saved, t)
      requires View() == saved.(account := Some(GetOrCreateAccount(saved, t.vaultId, t.initialCapital)),
                                intents := saved.intents[t.intentId := IntentOf(t, notional, mirror, DECIDED, None)])
      modifies this, account
      ensures (View(), outcome) == CommitTick(saved, t)
      ensures account == old(account) || account == null
    {
      hide Execute, Worth, DailyLoss, CommitTick, IntentOf, DecisionHash, UsedHashes, TickNotional, FreshMirror, TickGate,
           PairOf, ReferencePrice, GetOrCreateAccount, Snapshot;
      var side, pair := SideOf(t), PairOf(t.event);
      var before := Snapshot(a.View(), rows);
      var x := ApplyExecution(a, t.intentId, t.entryId, pair, t.event.asset, side, notional, ReferencePrice(t.event));
      assert x == TickExecution(saved, t);
      hide TickExecution;
      TickFills(saved, t);
      if x.Refused? {
        intents := intents[t.intentId := IntentOf(t, notional, mirror, REJECTED, Some(ByLedger(x.reason)))];
        assert intents == saved.intents[t.intentId := IntentOf(t, notional, mirror, REJECTED, Some(ByLedger(x.reason)))];
        return Recorded(REJECTED, Some(ByLedger(x.reason)));
      }
      if t.entryId in EntryIds(saved.entries) || t.factId in FactIds(facts) {
        Rollback(saved);
        return Aborted;
      }
      intents := intents[t.intentId := IntentOf(t, notional, mirror, EXECUTED, None)];
      assert intents == saved.intents[t.intentId := IntentOf(t, notional, mirror, EXECUTED, None)];
      facts := facts + [TradeFact(t.factId, t.intentId, pair, side, before, Snapshot(a.View(), rows), mirror.value,
                                  notional, x.amount, x.realizedDelta, t.day)];
      var n := |entries| - 1;
      entries := entries[n := entries[n].(tradeFactId := t.factId)];
      assert entries == saved.entries + [EntryOf(t, x)];
      assert facts == saved.facts + [FactOf(saved, t, mirror.value, x)];
      outcome := Recorded(EXECUTED, None);
    }

    // ---- Agent wallet ----

    /** _load_training_account, whose result is the session's own account object. */
    method LoadTrainingAccount(v: Vault) returns (a: PandaAccount?)
      ensures a == null || a == account
      ensures (if a == null then None else Some(a.View())) == LoadAccount(View(), v)
    {
      a := if account != null && account.vaultId == Some(v.id) then account else null;
    }

    /** _apply_training_budget_change on the session's vault. */
    method ApplyTrainingBudgetChange(a: PandaAccount?, newBudget: real, maxNotional: real) returns (ok: bool)
      requires vault.Some? && (a == null || a == account)
      modifies this`vault, a
      ensures var r := ApplyBudget(old(vault).value, if a == null then None else Some(old(a.View())), newBudget, maxNotional);
              && ok == r.Ok?
              && View() == if r.Ok? then WithFunds(old(View()), r.value) else old(View())
    {
      if !BudgetAllowed(newBudget, maxNotional) {
        return false;
      }
      var delta := newBudget - vault.value.trainingBudget;
      if a != null && delta < 0.0 {
        if a.cash + delta < 0.0 || a.equity + delta < 0.0 {
          return false;
        }
        a.cash := a.cash + delta;
        a.equity := a.equity + delta;
      } else if a != null && delta > 0.0 {
        a.cash := a.cash + delta;
        a.equity := a.equity + delta;
      }
      vault := Some(vault.value.(trainingBudget := newBudget));
      ok := true;
    }

    method UpdateTrainingBudget(newBudget: real) returns (ok: bool)
      modifies this, account
      ensures View() == Next(old(View()), Budget(newBudget)) && account == old(account)
      ensures ok == UpdateBudget(old(View()), newBudget).Ok?
    {
      if vault.None? {
        return false;
      }
      var maxNotional := if policy.Some? then policy.value.maxNotional else newBudget;
      var a := LoadTrainingAccount(vault.value);
      ok := ApplyTrainingBudgetChange(a, newBudget, maxNotional);
    }

    method SetVaultStatus(status: string)
      modifies this`vault
      ensures vault == WithStatus(old(vault), status)
    {
      if vault.Some? {
        vault := Some(vault.value.(status := status));
      }
    }

    method SyncOwnerAction(action: OwnerAction) returns (ok: bool)
      modifies this, account
      ensures View() == Next(old(View()), Owner(action)) && account == old(account)
      ensures ok == OwnerStep(old(View()), action).Ok?
    {
      var saved := View();
      if policy.None? {
        return false;
      }
      match action {
        case Pause =>
          policy := Some(policy.value.(paused := true));
          SetVaultStatus("paused");
        case Unpause(chainRevoked) =>
          if chainRevoked {
            return false;
          }
          policy := Some(policy.value.(paused := false));
          SetVaultStatus("active");
        case Revoke =>
          policy := Some(policy.value.(paused := true));
          policy := Some(policy.value.(authorizedAgent := None));
          SetVaultStatus("revoked");
          if vault.Some? {
            vault := Some(vault.value.(authorizedAgent := None));
          }
        case Tighten(draft, chainVersion) =>
          var done := TightenLimits(draft, chainVersion);
          if !done {
            Rollback(saved);
            return false;
          }
        case Unknown =>
          return false;
      }
      if vault.Some? {
        vault := Some(vault.value.(policyVersion := policy.value.version));
      }
      ok := true;
    }

    /** The tighten branch, up to but without the stamp of the policy version; when it
        fails the limits are already written, and the caller rolls back. */
    method TightenLimits(draft: Draft, chainVersion: int) returns (ok: bool)
      requires policy.Some?
      modifies this, account
      ensures account == old(account)
      ensures var r := TightenPolicy(old(View()), old(policy).value, draft, chainVersion);
              ok == r.Ok? && (ok ==> View() == r.value)
    {
      hide ApplyBudget, Limited, Reopened;
      var limited := Limited(policy.value, draft);
      policy := Some(limited);
      if vault.Some? && draft.trainingBudget.Some? {
        var a := LoadTrainingAccount(vault.value);
        var funded := ApplyTrainingBudgetChange(a, draft.trainingBudget.value, limited.maxNotional);
        if !funded {
          return false;
        }
      }
      Reopen(chainVersion);
      ok := true;
    }

    method Reopen(chainVersion: int)
      requires policy.Some?
      modifies this`policy, this`vault
      ensures View() == Reopened(old(View()), old(policy).value, chainVersion)
    {
      if chainVersion != 0 && chainVersion > policy.value.version {
        policy := Some(policy.value.(version := chainVersion));
      }
      policy := Some(policy.value.(paused := false));
      if vault.Some? && vault.value.status != "revoked" {
        SetVaultStatus("active");
      }
    }

    method SyncSetup(tx: SetupTx) returns (ok: bool)
      modifies this
      ensures View() == Next(old(View()), Setup(tx))
      ensures ok == SetupStep(old(View()), tx).Ok?
    {
      hide CanonicalPair;
      if vault.Some? && vault.value.suiObject != "" {
        return vault.value.createdDigest != "" && vault.value.createdDigest == tx.digest;
      }
      if tx.draft.Some? && !DraftValid(tx.draft.value, tx.launchPairs, tx.agentConfigured) {
        return false;
      }
      if !tx.ownerMatches || !tx.signerMatches || account != null {
        return false;
      }
      var budget, maxNotional, maxDailyLoss := DEFAULT_TRAINING_BUDGET, 50.0, 8.0;
      var pairs := tx.launchPairs[..if |tx.launchPairs| < 2 then |tx.launchPairs| else 2];
      if tx.draft.Some? {
        var d := tx.draft.value;
        budget, maxNotional, maxDailyLoss := d.trainingBudget, d.maxNotional, d.maxDailyLoss;
        pairs := CanonicalPairs(d.allowedPairs);
      }
      vault := Some(Vault(tx.vaultId, tx.vaultObject, "active", tx.authorizedAgent, tx.policyVersion, budget, tx.digest));
      policy := Some(PolicyRow(tx.policyId, tx.policyObject, tx.authorizedAgent, pairs, maxNotional, maxDailyLoss, false,
                               tx.policyVersion));
      account := new PandaAccount(Some(tx.vaultId), budget);
      ok := true;
    }
  }
}
