/** What the owner's past says about the wallet's present, and what the wallet's status
    tells the owner. */
module WalletHistory {
  import opened Events
  import opened Text
  import opened Ledger
  import opened PolicyGate
  import opened TradingState
  import opened TradingRuns

  predicate Stops(action: OwnerAction) { action.Pause? || action.Revoke? }

  /** The owner's actions that were not refused, in order. */
  function AcceptedActions(steps: seq<Step>): seq<OwnerAction> {
    if steps == [] then []
    else
      var front, last := steps[..|steps| - 1], steps[|steps| - 1];
      AcceptedActions(front)
      + if last.Owner? && OwnerStep(Run(EMPTY, front), last.action).Ok? then [last.action] else []
  }

  /** The setup that opened the wallet. */
  function Opening(steps: seq<Step>): Option<SetupTx> {
    if steps == [] then None
    else
      var front, last := steps[..|steps| - 1], steps[|steps| - 1];
      if last.Setup? && Run(EMPTY, front).policy.None? && Next(Run(EMPTY, front), last).policy.Some? then Some(last.tx)
      else Opening(front)
  }

  predicate StoppedLast(actions: seq<OwnerAction>) {
    actions != [] && Stops(actions[|actions| - 1])
  }

  predicate EverRevoked(actions: seq<OwnerAction>) {
    exists k :: 0 <= k < |actions| && actions[k].Revoke?
  }

  lemma {:induction false} LastAction(actions: seq<OwnerAction>, action: OwnerAction)
    ensures StoppedLast(actions + [action]) == Stops(action)
    ensures EverRevoked(actions + [action]) == (EverRevoked(actions) || action.Revoke?)
  {
    var longer := actions + [action];
    assert longer[|actions|] == action;
    assert forall k :: 0 <= k < |actions| ==> longer[k] == actions[k];
    if k :| 0 <= k < |actions| && actions[k].Revoke? {
      assert longer[k].Revoke?;
    }
  }

  lemma {:induction false} TightenEffect(s: State, policy: PolicyRow, draft: Draft, chainVersion: int)
    ensures var r := TightenPolicy(s, policy, draft, chainVersion);
            r.Ok? ==> r.value.policy.Some? && !r.value.policy.value.paused
                      && r.value.policy.value.authorizedAgent == policy.authorizedAgent
  {
    hide Refunded;
  }

  /** An accepted action pauses or unpauses the policy, and only revocation takes the agent. */
  lemma {:induction false} AcceptedEffect(s: State, action: OwnerAction)
    requires OwnerStep(s, action).Ok?
    ensures var s' := OwnerStep(s, action).value;
            && s.policy.Some? && s'.policy.Some? && s'.policy.value.paused == Stops(action)
            && s'.policy.value.authorizedAgent
               == if action.Revoke? then None else s.policy.value.authorizedAgent
  {
    if action.Tighten? {
      TightenEffect(s, s.policy.value, action.draft, action.chainVersion);
      hide TightenPolicy;
    }
  }

  lemma {:induction false} TickKeepsPolicy(s: State, t: TickInput)
    ensures Next(s, Tick(t)).policy == s.policy && Next(s, Tick(t)).vault == s.vault
  {
    hide TickGate, TickExecution, TickNotional, FreshMirror, IntentClashes, FactClashes;
  }

  lemma {:induction false} OtherStepsKeepPolicy(s: State, step: Step)
    requires !step.Owner? || OwnerStep(s, step.action).Err?
    ensures var s' := Next(s, step);
            if step.Setup? && s.policy.None? && s'.policy.Some? then
              !s'.policy.value.paused && s'.policy.value.authorizedAgent == step.tx.authorizedAgent
            else s'.policy == s.policy || (step.Setup? && s.policy.Some? && s.vault.None?)
                 || (step.Setup? && s.vault.Some? && s.vault.value.suiObject == "")
  {
    hide OwnerStep, Refunded, DraftValid;
    match step {
      case Tick(t) =>
        TickKeepsPolicy(s, t);
      case _ =>
    }
  }

  lemma {:induction false} PolicyAndVaultTogether(s: State)
    requires Inv(s)
    ensures s.policy.Some? <==> s.vault.Some?
    ensures s.vault.Some? ==> s.vault.value.suiObject != ""
  {
    hide RowsInv, LogInv, HistoryInv, StopInv, Replay, Matches;
  }

  lemma {:induction false} AcceptedNext(s: State, action: OwnerAction)
    ensures OwnerStep(s, action).Ok? ==> Next(s, Owner(action)) == OwnerStep(s, action).value
  {
    hide OwnerStep;
  }

  /** After every run there is a policy exactly when a setup opened the wallet; it is
      paused exactly when the last accepted owner action was a pause or a revocation, and
      its agent is the one the setup named until the first accepted revocation. */
  lemma {:induction false} PolicyTellsHistory(steps: seq<Step>)
    ensures var (policy, opening, actions) := (Run(EMPTY, steps).policy, Opening(steps), AcceptedActions(steps));
            && (policy.Some? <==> opening.Some?)
            && (policy.None? ==> actions == [])
            && (policy.Some? ==>
                  && policy.value.paused == StoppedLast(actions)
                  && policy.value.authorizedAgent
                     == if EverRevoked(actions) then None else opening.value.authorizedAgent)
  {
    if steps != [] {
      var front, step := steps[..|steps| - 1], steps[|steps| - 1];
      var s := Run(EMPTY, front);
      PolicyTellsHistory(front);
      InvOverRuns(front);
      PolicyAndVaultTogether(s);
      hide StoppedLast, EverRevoked, Stops, Inv, Next, OwnerStep;
      if step.Owner? && OwnerStep(s, step.action).Ok? {
        AcceptedEffect(s, step.action);
        AcceptedNext(s, step.action);
        LastAction(AcceptedActions(front), step.action);
      } else {
        OtherStepsKeepPolicy(s, step);
        assert AcceptedActions(front) + [] == AcceptedActions(front);
      }
    }
  }

  // ---- Budgets and limits ----

  predicate InRange(vault: Option<Vault>) {
    vault.Some? ==> TRAINING_BUDGET_MIN <= vault.value.trainingBudget <= TRAINING_BUDGET_MAX
  }

  /** The policy's order size fits the training budget. */
  predicate FitsBudget(s: State) {
    s.vault.Some? && s.policy.Some? ==> s.policy.value.maxNotional <= s.vault.value.trainingBudget
  }

  /** A tightening that names an order size above the budget, and no new budget. */
  predicate Outgrows(s: State, step: Step) {
    && s.vault.Some? && s.policy.Some?
    && step.Owner? && step.action.Tighten?
    && step.action.draft.trainingBudget.None? && step.action.draft.maxNotional.Some?
    && step.action.draft.maxNotional.value > s.vault.value.trainingBudget
  }

  ghost predicate NeverOutgrows(steps: seq<Step>) {
    forall k :: 0 <= k < |steps| ==> !Outgrows(Run(EMPTY, steps[..k]), steps[k])
  }

  lemma {:induction false} ApplyKeepsBudget(s: State, newBudget: real)
    requires InRange(s.vault)
    ensures InRange(Next(s, Budget(newBudget)).vault)
    ensures FitsBudget(s) ==> FitsBudget(Next(s, Budget(newBudget)))
  {
  }

  lemma {:induction false} RefundKeepsBudget(s: State, maxNotional: real, newBudget: Option<real>)
    requires InRange(s.vault)
    ensures var r := Refunded(s, maxNotional, newBudget);
            && (r.Ok? ==> InRange(r.value.vault) && r.value.policy == s.policy && (s.vault.Some? <==> r.value.vault.Some?))
            && (r.Ok? && s.vault.Some? ==>
                  if newBudget.Some? then
                    r.value.vault.value.trainingBudget == newBudget.value && maxNotional <= newBudget.value
                  else r.value.vault.value.trainingBudget == s.vault.value.trainingBudget)
            && (newBudget.None? ==> r.Ok?)
  {
  }

  lemma {:induction false} OwnerKeepsBudget(s: State, action: OwnerAction)
    requires InRange(s.vault) && (s.policy.Some? ==> s.vault.Some?)
    ensures InRange(Next(s, Owner(action)).vault)
    ensures FitsBudget(s) ==> (FitsBudget(Next(s, Owner(action))) <==> !Outgrows(s, Owner(action)))
  {
    if action.Tighten? && s.policy.Some? {
      var limited := Limited(s.policy.value, action.draft);
      RefundKeepsBudget(s.(policy := Some(limited)), limited.maxNotional, action.draft.trainingBudget);
      hide Refunded;
    }
  }

  lemma {:induction false} SetupKeepsBudget(s: State, tx: SetupTx)
    requires InRange(s.vault) && FitsBudget(s)
    ensures InRange(Next(s, Setup(tx)).vault) && FitsBudget(Next(s, Setup(tx)))
  {
    hide CanonicalPairs;
  }

  lemma {:induction false} SetupInRange(s: State, tx: SetupTx)
    requires InRange(s.vault)
    ensures InRange(Next(s, Setup(tx)).vault)
  {
    hide CanonicalPairs;
  }

  lemma {:induction false} StepAndBudget(s: State, step: Step)
    requires InRange(s.vault) && (s.policy.Some? ==> s.vault.Some?)
    ensures InRange(Next(s, step).vault)
    ensures FitsBudget(s) ==> (FitsBudget(Next(s, step)) <==> !Outgrows(s, step))
  {
    hide CommitTick, OwnerStep, UpdateBudget, SetupStep;
    match step {
      case Tick(t) => TickKeepsPolicy(s, t);
      case Owner(action) => OwnerKeepsBudget(s, action);
      case Budget(newBudget) => ApplyKeepsBudget(s, newBudget);
      case Setup(tx) => SetupInRange(s, tx); if FitsBudget(s) { SetupKeepsBudget(s, tx); }
    }
  }

  lemma {:induction false} BudgetStaysInRange(steps: seq<Step>)
    ensures InRange(Run(EMPTY, steps).vault)
  {
    if steps != [] {
      var front := steps[..|steps| - 1];
      BudgetStaysInRange(front);
      InvOverRuns(front);
      PolicyAndVaultTogether(Run(EMPTY, front));
      hide Inv, Next, InRange;
      StepAndBudget(Run(EMPTY, front), steps[|steps| - 1]);
    }
  }

  /** One step of any kind takes an order size out of the budget exactly when it is a
      tightening that names such a size and no budget. */
  lemma {:induction false} LeavesBudgetExactlyWhen(steps: seq<Step>, step: Step)
    requires FitsBudget(Run(EMPTY, steps))
    ensures FitsBudget(Next(Run(EMPTY, steps), step)) <==> !Outgrows(Run(EMPTY, steps), step)
  {
    BudgetStaysInRange(steps);
    InvOverRuns(steps);
    PolicyAndVaultTogether(Run(EMPTY, steps));
    hide Run, Inv, Next, InRange, FitsBudget;
    StepAndBudget(Run(EMPTY, steps), step);
  }

  lemma {:induction false} EmptyFits()
    ensures FitsBudget(EMPTY)
  {
  }

  lemma {:induction false} SizeFitsBudget(steps: seq<Step>)
    requires NeverOutgrows(steps)
    ensures FitsBudget(Run(EMPTY, steps))
  {
    if steps != [] {
      var front, n := steps[..|steps| - 1], |steps| - 1;
      assert steps[..n] == front && !Outgrows(Run(EMPTY, steps[..n]), steps[n]);
      forall k | 0 <= k < |front| ensures !Outgrows(Run(EMPTY, front[..k]), front[k]) {
        assert front[..k] == steps[..k] && !Outgrows(Run(EMPTY, steps[..k]), steps[k]);
      }
      hide Outgrows, Next;
      SizeFitsBudget(front);
      LeavesBudgetExactlyWhen(front, steps[n]);
    } else {
      EmptyFits();
    }
  }

  /** After every run the training budget is one that validation allows, and as long as no
      tightening outgrew it, so is the order size. */
  lemma {:induction false} BudgetStaysAllowed(steps: seq<Step>)
    ensures var s := Run(EMPTY, steps);
            && (s.vault.Some? ==> TRAINING_BUDGET_MIN <= s.vault.value.trainingBudget <= TRAINING_BUDGET_MAX)
            && (NeverOutgrows(steps) && s.vault.Some? && s.policy.Some? ==>
                  BudgetAllowed(s.vault.value.trainingBudget, s.policy.value.maxNotional))
  {
    BudgetStaysInRange(steps);
    if NeverOutgrows(steps) {
      SizeFitsBudget(steps);
    }
    hide Run, NeverOutgrows;
  }

  function BudgetIn(vault: Option<Vault>): Option<real> {
    if vault.None? then None else Some(vault.value.trainingBudget)
  }

  /** Tightening is never compared with what it replaces: any limits at all, higher ones
      included, become the policy's, even above the training budget, and unpause it. */
  lemma {:induction false} TighteningCanLoosen(s: State, notional: real, loss: real)
    requires s.policy.Some?
    ensures var s' := Next(s, Owner(Tighten(Draft([], Some(notional), Some(loss), None), 0)));
            && s'.policy.Some?
            && s'.policy.value.maxNotional == notional && s'.policy.value.maxDailyLoss == loss
            && s'.policy.value.allowedPairs == s.policy.value.allowedPairs && !s'.policy.value.paused
            && BudgetIn(s'.vault) == BudgetIn(s.vault)
  {
  }

  /** The policy allows a pair, up to its spelling. */
  predicate Allows(policy: PolicyRow, pair: string) {
    exists q :: q in policy.allowedPairs && NormalizePair(q) == NormalizePair(pair)
  }

  /** Nothing but a budget it names can have a tightening refused: one out of bounds, below
      the order size it leaves, or below what the account has spent. */
  lemma {:induction false} TighteningAcceptedExactlyWhen(s: State, draft: Draft, chainVersion: int)
    requires s.policy.Some?
    ensures OwnerStep(s, Tighten(draft, chainVersion)).Ok?
       <==> s.vault.None? || draft.trainingBudget.None?
            || (var budget := draft.trainingBudget.value;
                var delta := budget - s.vault.value.trainingBudget;
                var account := LoadAccount(s, s.vault.value);
                && BudgetAllowed(budget, GetOr(draft.maxNotional, s.policy.value.maxNotional))
                && (account.Some? && delta < 0.0 ==> account.value.cash + delta >= 0.0 && account.value.equity + delta >= 0.0))
  {
  }

  lemma {:induction false} TightenLimits(s: State, draft: Draft, chainVersion: int)
    requires OwnerStep(s, Tighten(draft, chainVersion)).Ok?
    ensures s.policy.Some?
    ensures var s' := Next(s, Owner(Tighten(draft, chainVersion)));
            && s'.policy.Some? && !s'.policy.value.paused
            && s'.policy.value.maxNotional == GetOr(draft.maxNotional, s.policy.value.maxNotional)
            && s'.policy.value.maxDailyLoss == GetOr(draft.maxDailyLoss, s.policy.value.maxDailyLoss)
            && s'.policy.value.allowedPairs == if draft.allowedPairs == [] then s.policy.value.allowedPairs else draft.allowedPairs
  {
    hide Refunded;
  }

  lemma {:induction false} NewPairs(p: PolicyRow, p': PolicyRow, listed: seq<string>)
    requires p'.allowedPairs == if listed == [] then p.allowedPairs else listed
    ensures (exists pair :: Allows(p', pair) && !Allows(p, pair)) <==> exists pair :: pair in listed && !Allows(p, pair)
  {
    hide NormalizePair;
    if pair :| Allows(p', pair) && !Allows(p, pair) {
      var q :| q in p'.allowedPairs && NormalizePair(q) == NormalizePair(pair);
      assert q in listed && !Allows(p, q);
    }
    if pair :| pair in listed && !Allows(p, pair) {
      assert Allows(p', pair);
    }
  }

  /** For any draft: an accepted tightening raises a limit exactly when the draft names a
      higher one, and newly allows a pair exactly when the draft lists one that was not
      allowed.  It unpauses in any case. */
  lemma {:induction false} TighteningLoosensExactlyWhen(s: State, draft: Draft, chainVersion: int)
    requires OwnerStep(s, Tighten(draft, chainVersion)).Ok?
    ensures s.policy.Some?
    ensures var s' := Next(s, Owner(Tighten(draft, chainVersion)));
            && s'.policy.Some? && !s'.policy.value.paused
            && (s'.policy.value.maxNotional > s.policy.value.maxNotional
                <==> draft.maxNotional.Some? && draft.maxNotional.value > s.policy.value.maxNotional)
            && (s'.policy.value.maxDailyLoss > s.policy.value.maxDailyLoss
                <==> draft.maxDailyLoss.Some? && draft.maxDailyLoss.value > s.policy.value.maxDailyLoss)
            && ((exists pair :: Allows(s'.policy.value, pair) && !Allows(s.policy.value, pair))
                <==> exists pair :: pair in draft.allowedPairs && !Allows(s.policy.value, pair))
  {
    TightenLimits(s, draft, chainVersion);
    hide OwnerStep, Next, NormalizePair;
    var (p, p') := (s.policy.value, Next(s, Owner(Tighten(draft, chainVersion))).policy.value);
    NewPairs(p, p', draft.allowedPairs);
  }

  // ---- What the wallet's status says ----

  /** can_start_training of the status page. */
  predicate CanStartTraining(s: State) {
    && s.vault.Some? && s.policy.Some?
    && s.vault.value.status == "active" && !s.policy.value.paused && IsMirrorSynced(s.vault, s.policy)
  }

  datatype WalletCheck = Ready | VaultNotFound | SyncPending | PolicyPaused | AgentRevoked

  /** require_active_wallet, which guards the start of a simulation. */
  function RequireActiveWallet(s: State): WalletCheck {
    if s.vault.None? || s.policy.None? then VaultNotFound
    else if !IsMirrorSynced(s.vault, s.policy) then SyncPending
    else if s.vault.value.status != "active" || s.policy.value.paused then PolicyPaused
    else if s.policy.value.authorizedAgent.None? || s.policy.value.authorizedAgent.value == "" then AgentRevoked
    else Ready
  }

  /** After every run, a wallet whose agent was revoked is never ready, and the status page
      calls it ready exactly when the guard finds nothing but the missing agent. */
  lemma {:induction false} StatusLooksReadyExactlyWhen(steps: seq<Step>)
    ensures var s := Run(EMPTY, steps);
            && (EverRevoked(AcceptedActions(steps)) ==> RequireActiveWallet(s) != Ready)
            && (CanStartTraining(s) <==> RequireActiveWallet(s) in {Ready, AgentRevoked})
            && (RequireActiveWallet(s) == Ready
                <==> CanStartTraining(s)
                     && s.policy.value.authorizedAgent.Some? && s.policy.value.authorizedAgent.value != "")
  {
    hide Run, StoppedLast, EverRevoked, Opening, AcceptedActions;
    PolicyTellsHistory(steps);
  }

  /** What an accepted action makes of the vault's status. */
  function StatusAfter(status: string, action: OwnerAction): string {
    match action
    case Pause => "paused"
    case Revoke => "revoked"
    case Tighten(_, _) => if status == "revoked" then "revoked" else "active"
    case _ => "active"
  }

  function StatusOf(actions: seq<OwnerAction>): string {
    if actions == [] then "active" else StatusAfter(StatusOf(actions[..|actions| - 1]), actions[|actions| - 1])
  }

  /** Since the last revocation there were only tightenings. */
  predicate RevocationStands(actions: seq<OwnerAction>) {
    exists k :: 0 <= k < |actions| && actions[k].Revoke? && forall j :: k < j < |actions| ==> actions[j].Tighten?
  }

  lemma {:induction false} StandsNext(actions: seq<OwnerAction>, action: OwnerAction)
    ensures RevocationStands(actions + [action]) <==> action.Revoke? || (RevocationStands(actions) && action.Tighten?)
  {
    var longer := actions + [action];
    assert longer[|actions|] == action && forall k :: 0 <= k < |actions| ==> longer[k] == actions[k];
    if k :| 0 <= k < |actions| && actions[k].Revoke? && forall j :: k < j < |actions| ==> actions[j].Tighten? {
      assert longer[k].Revoke?;
    }
  }

  lemma {:induction false} StatusMeans(actions: seq<OwnerAction>)
    ensures StatusOf(actions) == "revoked" <==> RevocationStands(actions)
    ensures StatusOf(actions) == "active" <==> !StoppedLast(actions) && !RevocationStands(actions)
  {
    if actions != [] {
      var front, last := actions[..|actions| - 1], actions[|actions| - 1];
      StatusMeans(front);
      assert front + [last] == actions;
      StandsNext(front, last);
      hide RevocationStands;
    }
  }

  lemma {:induction false} AcceptedStatus(s: State, action: OwnerAction)
    requires OwnerStep(s, action).Ok? && s.vault.Some?
    ensures var s' := OwnerStep(s, action).value;
            && s.policy.Some? && s'.policy.Some? && s'.vault.Some?
            && s'.vault.value.status == StatusAfter(s.vault.value.status, action)
            && s'.policy.value.suiObject == s.policy.value.suiObject
  {
    if action.Tighten? {
      var limited := Limited(s.policy.value, action.draft);
      RefundOnlyFunds(s.(policy := Some(limited)), limited.maxNotional, action.draft.trainingBudget);
      hide Refunded, OnlyFunds;
    }
  }

  /** The parts of a wallet that only its owner changes. */
  predicate StatusIs(s: State, status: string) {
    s.vault.Some? && s.policy.Some? && s.vault.value.status == status && s.policy.value.suiObject != ""
  }

  lemma {:induction false} OtherStepsKeepStatus(s: State, step: Step, status: string)
    requires !step.Owner? || OwnerStep(s, step.action).Err?
    requires s.vault.Some? ==> s.vault.value.suiObject != "" && StatusIs(s, status)
    requires s.vault.None? ==> s.policy.None? && status == "active"
    ensures Next(s, step).vault.Some? ==> StatusIs(Next(s, step), status)
  {
    hide OwnerStep, Refunded, DraftValid, CanonicalPairs;
    match step {
      case Tick(t) =>
        TickKeepsPolicy(s, t);
      case _ =>
    }
  }

  lemma {:induction false} VaultAfter(steps: seq<Step>)
    ensures var s := Run(EMPTY, steps);
            && (s.vault.Some? <==> s.policy.Some?)
            && (s.policy.None? ==> AcceptedActions(steps) == [])
  {
    PolicyTellsHistory(steps);
    InvOverRuns(steps);
    hide Run, AcceptedActions, Inv;
    PolicyAndVaultTogether(Run(EMPTY, steps));
  }

  /** After every run the vault's status is what the accepted owner actions made of it. */
  lemma {:induction false} StatusTellsHistory(steps: seq<Step>)
    ensures var s := Run(EMPTY, steps);
            if s.vault.Some? then StatusIs(s, StatusOf(AcceptedActions(steps))) else AcceptedActions(steps) == []
  {
    if steps != [] {
      var front, step := steps[..|steps| - 1], steps[|steps| - 1];
      var s, actions := Run(EMPTY, front), AcceptedActions(front);
      StatusTellsHistory(front);
      PolicyTellsHistory(front);
      InvOverRuns(front);
      PolicyAndVaultTogether(s);
      VaultAfter(steps);
      hide Inv, Next, OwnerStep, StatusAfter, StoppedLast, EverRevoked, Opening;
      if step.Owner? && OwnerStep(s, step.action).Ok? {
        AcceptedEffect(s, step.action);
        AcceptedStatus(s, step.action);
        AcceptedNext(s, step.action);
        assert (actions + [step.action])[..|actions|] == actions;
      } else {
        assert actions + [] == actions;
        OtherStepsKeepStatus(s, step, StatusOf(actions));
      }
    }
  }

  lemma {:induction false} WalletSynced(steps: seq<Step>)
    ensures var s := Run(EMPTY, steps); s.vault.Some? ==> IsMirrorSynced(s.vault, s.policy)
  {
    StatusTellsHistory(steps);
    InvOverRuns(steps);
    hide Run, AcceptedActions, Inv;
    PolicyAndVaultTogether(Run(EMPTY, steps));
  }

  /** After every run the status page calls the wallet ready exactly when a setup opened it,
      the last accepted owner action did not stop it, and there was more than tightenings
      since the last revocation.  If there was a revocation, the guard still refuses. */
  lemma {:induction false} LooksReadyExactlyWhen(steps: seq<Step>)
    ensures var (s, actions) := (Run(EMPTY, steps), AcceptedActions(steps));
            && (CanStartTraining(s) <==> Opening(steps).Some? && !StoppedLast(actions) && !RevocationStands(actions))
            && (EverRevoked(actions) ==>
                  (RequireActiveWallet(s) == AgentRevoked <==> !StoppedLast(actions) && !RevocationStands(actions)))
  {
    PolicyTellsHistory(steps);
    StatusTellsHistory(steps);
    StatusMeans(AcceptedActions(steps));
    StatusLooksReadyExactlyWhen(steps);
    VaultAfter(steps);
    hide Run, StoppedLast, Opening, AcceptedActions, StatusOf, RevocationStands;
    WalletSynced(steps);
  }

  /** Pausing and then tightening a revoked wallet makes it look ready: pausing forgets
      that the vault was revoked, and tightening then activates it. */
  lemma {:induction false} RevokedWalletLooksReady(s: State, draft: Draft)
    requires HasWallet(s) && draft == Draft([], None, None, None)
    ensures var s' := Next(Next(Next(s, Owner(Revoke)), Owner(Pause)), Owner(Tighten(draft, 0)));
            CanStartTraining(s') == (s.policy.value.suiObject != "") && RequireActiveWallet(s') != Ready
  {
  }

  /** Unpausing alone does it in one step: a revoked vault becomes active again, and only the
      missing agent tells. */
  lemma {:induction false} UnpausedRevokedWalletLooksReady(s: State)
    requires HasWallet(s)
    ensures var s' := Next(Next(s, Owner(Revoke)), Owner(Unpause(false)));
            CanStartTraining(s') == (s.policy.value.suiObject != "") && RequireActiveWallet(s') != Ready
  {
  }

  // ---- When the guard of unpausing fires ----

  datatype EventKind = PausedOnChain | AgentRevokedOnChain | PolicyUpdated | OtherEvent

  /** An event of the owner's transaction; blank stands for an empty payload, which the
      parser does not tell from a missing event. */
  datatype ChainEvent = ChainEvent(kind: EventKind, blank: bool)

  /** The last event of a kind wins. */
  function LastOf(events: seq<ChainEvent>, kind: EventKind): (k: Option<nat>)
    ensures k.Some? ==> k.value < |events| && events[k.value].kind == kind
    ensures forall j :: (if k.Some? then k.value + 1 else 0) <= j < |events| ==> events[j].kind != kind
  {
    if events == [] then None
    else if events[|events| - 1].kind == kind then Some(|events| - 1)
    else LastOf(events[..|events| - 1], kind)
  }

  predicate Seen(events: seq<ChainEvent>, kind: EventKind) {
    LastOf(events, kind).Some? && !events[LastOf(events, kind).value].blank
  }

  /** parse_owner_action_from_tx, as far as the flag: None when there is no owner event. */
  function ParseRevoked(events: seq<ChainEvent>): Option<bool> {
    if Seen(events, AgentRevokedOnChain) then Some(true)
    else if Seen(events, PausedOnChain) || Seen(events, PolicyUpdated) then Some(false)
    else None
  }

  lemma {:induction false} SeenMeans(events: seq<ChainEvent>, kind: EventKind)
    ensures Seen(events, kind)
       <==> exists k :: 0 <= k < |events| && events[k] == ChainEvent(kind, false)
                        && forall j :: k < j < |events| ==> events[j].kind != kind
  {
    hide LastOf;
    var last := LastOf(events, kind);
    if Seen(events, kind) {
      assert events[last.value] == ChainEvent(kind, false);
    }
  }

  /** What the flag says about a transaction: there is one if the last event of some kind of
      the owner's has a payload, and it is set if that is so for revocations. */
  lemma {:induction false} FlagExactlyWhen(events: seq<ChainEvent>)
    ensures ParseRevoked(events) == Some(true)
       <==> exists k :: 0 <= k < |events| && events[k] == ChainEvent(AgentRevokedOnChain, false)
                        && forall j :: k < j < |events| ==> events[j].kind != AgentRevokedOnChain
    ensures ParseRevoked(events).Some?
       <==> exists k :: 0 <= k < |events| && !events[k].blank && events[k].kind != OtherEvent
                        && forall j :: k < j < |events| ==> events[j].kind != events[k].kind
  {
    SeenMeans(events, AgentRevokedOnChain);
    SeenMeans(events, PausedOnChain);
    SeenMeans(events, PolicyUpdated);
    hide Seen;
    if k :| 0 <= k < |events| && !events[k].blank && events[k].kind != OtherEvent
            && forall j :: k < j < |events| ==> events[j].kind != events[k].kind {
      assert events[k] == ChainEvent(events[k].kind, false);
    }
  }

  /** Unpausing is refused for revocation exactly when the very transaction sent with it
      revokes; whether the stored policy was revoked before plays no part. */
  lemma {:induction false} UnpauseRefusedExactlyWhen(s: State, events: seq<ChainEvent>)
    requires s.policy.Some? && ParseRevoked(events).Some?
    ensures OwnerStep(s, Unpause(ParseRevoked(events).value)) == Err(AGENT_REVOKED)
       <==> exists k :: 0 <= k < |events| && events[k] == ChainEvent(AgentRevokedOnChain, false)
                        && forall j :: k < j < |events| ==> events[j].kind != AgentRevokedOnChain
    ensures OwnerStep(s, Unpause(ParseRevoked(events).value)).Err? ==>
              OwnerStep(s, Unpause(ParseRevoked(events).value)) == Err(AGENT_REVOKED)
  {
    SeenMeans(events, AgentRevokedOnChain);
    hide Seen;
  }
}
