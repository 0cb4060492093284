/** What a setup stores, and how long: the limits, pairs and versions of a wallet as a story of
    its opening and the tightenings since. */
module WalletSetup {
  import opened Events
  import opened Reals
  import opened Text
  import opened Ledger
  import opened PolicyGate
  import opened TradingState
  import opened TradingRuns
  import opened WalletHistory

  // ---- One setup ----

  predicate HasWalletOnChain(s: State) { s.vault.Some? && s.vault.value.suiObject != "" }

  lemma {:induction false} SpellingsMatch(pairs: seq<string>, launchPairs: seq<string>)
    ensures (forall p :: p in pairs ==> CanonicalPair(p) in (set q | q in launchPairs :: CanonicalPair(q)))
       <==> forall p :: p in pairs ==> exists q :: q in launchPairs && CanonicalPair(q) == CanonicalPair(p)
  {
    hide CanonicalPair;
  }

  /** A setup is accepted again under its own digest once there is a wallet, and otherwise
      exactly when its draft, if it brings one, keeps to the rules, the sender and the signer
      are the right ones, and the panda has no account yet. */
  lemma {:induction false} SetupAcceptedExactlyWhen(s: State, tx: SetupTx)
    ensures SetupStep(s, tx).Ok?
       <==> if HasWalletOnChain(s) then s.vault.value.createdDigest == tx.digest != ""
            else
              && tx.ownerMatches && tx.signerMatches && s.account.None?
              && (tx.draft.Some? ==>
                    var d := tx.draft.value;
                    && 100.0 <= d.trainingBudget <= 1000000.0 && 0.0 < d.maxNotional <= d.trainingBudget
                    && 0.0 < d.maxDailyLoss <= 100.0 && d.maxOpenPositions >= 1 && tx.agentConfigured
                    && d.allowedPairs != []
                    && forall p :: p in d.allowedPairs ==> exists q :: q in tx.launchPairs && CanonicalPair(q) == CanonicalPair(p))
  {
    hide CanonicalPair, CanonicalPairs;
    if tx.draft.Some? {
      SpellingsMatch(tx.draft.value.allowedPairs, tx.launchPairs);
    }
  }

  /** The gate compares pairs up to spelling, and the canonical form is one of the spellings. */
  lemma {:induction false} CanonicalIsASpelling(pair: string)
    ensures NormalizePair(CanonicalPair(pair)) == NormalizePair(pair)
  {
    StripTrimmed(pair);
    var c := Strip(pair);
    hide Strip;
    forall i | 0 <= i < |c| ensures DashChar(DashChar(c[i])) == DashChar(c[i]) && (IsSpace(DashChar(c[i])) ==> IsSpace(c[i])) {
    }
    assert Trimmed(Dashed(c));
    StripTrimmed(Dashed(c));
    assert Dashed(Dashed(c)) == Dashed(c);
  }

  /** The same pairs in the same order, up to spelling. */
  predicate SamePairs(pairs: seq<string>, listed: seq<string>) {
    |pairs| == |listed| && forall i :: 0 <= i < |pairs| ==> NormalizePair(pairs[i]) == NormalizePair(listed[i])
  }

  /** What the first accepted setup stores: the draft's order size, daily loss, pairs and
      budget, or 50, 8, the first two launch pairs and 10000 without a draft; the budget as
      cash and equity of a fresh account; the transaction's agent and version; active and
      unpaused.  It writes nothing else. */
  lemma {:induction false} SetupStores(s: State, tx: SetupTx)
    requires SetupStep(s, tx).Ok? && !HasWalletOnChain(s)
    ensures var s' := Next(s, Setup(tx));
            && (s'.rows, s'.intents, s'.facts, s'.entries) == (s.rows, s.intents, s.facts, s.entries)
            && s'.vault.Some? && s'.policy.Some? && s'.account.Some?
            && var (vault, policy, account) := (s'.vault.value, s'.policy.value, s'.account.value);
               && (match tx.draft
                   case Some(d) =>
                     && policy.maxNotional == d.maxNotional && policy.maxDailyLoss == d.maxDailyLoss
                     && vault.trainingBudget == d.trainingBudget && SamePairs(policy.allowedPairs, d.allowedPairs)
                   case None =>
                     && policy.maxNotional == 50.0 && policy.maxDailyLoss == 8.0 && vault.trainingBudget == 10000.0
                     && policy.allowedPairs <= tx.launchPairs && (|policy.allowedPairs| == 2 || (|tx.launchPairs| < 2
                                                                  && policy.allowedPairs == tx.launchPairs)))
               && account.cash == account.equity == vault.trainingBudget
               && account.debt == account.realizedPnl == account.unrealizedPnl == 0.0
               && account.vaultId == Some(vault.id) && vault.id == tx.vaultId && policy.id == tx.policyId
               && vault.suiObject == tx.vaultObject && policy.suiObject == tx.policyObject
               && vault.authorizedAgent == policy.authorizedAgent == tx.authorizedAgent
               && vault.policyVersion == policy.version == tx.policyVersion
               && vault.status == "active" && !policy.paused && vault.createdDigest == tx.digest
  {
    hide CanonicalPair, NormalizePair, DraftValid;
    if tx.draft.Some? {
      forall i | 0 <= i < |tx.draft.value.allowedPairs|
        ensures NormalizePair(CanonicalPair(tx.draft.value.allowedPairs[i])) == NormalizePair(tx.draft.value.allowedPairs[i])
      {
        CanonicalIsASpelling(tx.draft.value.allowedPairs[i]);
      }
    }
  }

  // ---- Over every run ----

  /** The order size named by the last tightening that names one. */
  function LastSize(actions: seq<OwnerAction>): Option<real> {
    if actions == [] then None
    else
      var last := actions[|actions| - 1];
      if last.Tighten? && last.draft.maxNotional.Some? then last.draft.maxNotional else LastSize(actions[..|actions| - 1])
  }

  function LastLoss(actions: seq<OwnerAction>): Option<real> {
    if actions == [] then None
    else
      var last := actions[|actions| - 1];
      if last.Tighten? && last.draft.maxDailyLoss.Some? then last.draft.maxDailyLoss else LastLoss(actions[..|actions| - 1])
  }

  /** The pairs of the last tightening that lists any. */
  function LastPairs(actions: seq<OwnerAction>): seq<string> {
    if actions == [] then []
    else
      var last := actions[|actions| - 1];
      if last.Tighten? && last.draft.allowedPairs != [] then last.draft.allowedPairs else LastPairs(actions[..|actions| - 1])
  }

  /** The highest version among the opening's and those of the tightenings. */
  function HighestVersion(opening: int, actions: seq<OwnerAction>): int {
    if actions == [] then opening
    else
      var (before, last) := (HighestVersion(opening, actions[..|actions| - 1]), actions[|actions| - 1]);
      if last.Tighten? && last.chainVersion != 0 && last.chainVersion > before then last.chainVersion else before
  }

  /** The limits as the opening and the accepted actions name them. */
  predicate LimitsFollow(policy: PolicyRow, opening: SetupTx, actions: seq<OwnerAction>) {
    && policy.maxNotional == GetOr(LastSize(actions), if opening.draft.Some? then opening.draft.value.maxNotional else 50.0)
    && policy.maxDailyLoss == GetOr(LastLoss(actions), if opening.draft.Some? then opening.draft.value.maxDailyLoss else 8.0)
    && (if LastPairs(actions) != [] then policy.allowedPairs == LastPairs(actions)
        else if opening.draft.Some? then SamePairs(policy.allowedPairs, opening.draft.value.allowedPairs)
        else policy.allowedPairs <= opening.launchPairs)
    && policy.version == HighestVersion(opening.policyVersion, actions)
  }

  lemma {:induction false} LastOfMore(actions: seq<OwnerAction>, action: OwnerAction, opening: int)
    ensures LastSize(actions + [action])
         == if action.Tighten? && action.draft.maxNotional.Some? then action.draft.maxNotional else LastSize(actions)
    ensures LastLoss(actions + [action])
         == if action.Tighten? && action.draft.maxDailyLoss.Some? then action.draft.maxDailyLoss else LastLoss(actions)
    ensures LastPairs(actions + [action])
         == if action.Tighten? && action.draft.allowedPairs != [] then action.draft.allowedPairs else LastPairs(actions)
    ensures var before := HighestVersion(opening, actions);
            HighestVersion(opening, actions + [action])
            == if action.Tighten? && action.chainVersion != 0 && action.chainVersion > before then action.chainVersion else before
  {
    assert (actions + [action])[..|actions|] == actions;
  }

  lemma {:induction false} TightenedVault(s: State, draft: Draft, chainVersion: int)
    requires OwnerStep(s, Tighten(draft, chainVersion)).Ok? && s.vault.Some?
    ensures s.policy.Some?
    ensures var limited := Limited(s.policy.value, draft);
            var r := Refunded(s.(policy := Some(limited)), limited.maxNotional, draft.trainingBudget);
            && r.Ok? && r.value.vault.Some? && r.value.policy == Some(limited)
            && r.value.vault.value.authorizedAgent == s.vault.value.authorizedAgent
  {
  }

  lemma {:induction false} AcceptedLimits(s: State, action: OwnerAction)
    requires OwnerStep(s, action).Ok? && s.vault.Some?
    ensures var s' := OwnerStep(s, action).value;
            && s.policy.Some? && s'.policy.Some? && s'.vault.Some?
            && var (p, p', d) := (s.policy.value, s'.policy.value, if action.Tighten? then action.draft else Draft([], None, None, None));
               && p'.maxNotional == GetOr(d.maxNotional, p.maxNotional) && p'.maxDailyLoss == GetOr(d.maxDailyLoss, p.maxDailyLoss)
               && p'.allowedPairs == (if d.allowedPairs == [] then p.allowedPairs else d.allowedPairs)
               && p'.version == (if action.Tighten? && action.chainVersion != 0 && action.chainVersion > p.version
                                 then action.chainVersion else p.version)
               && s'.vault.value.policyVersion == p'.version
               && s'.vault.value.authorizedAgent == (if action.Revoke? then None else s.vault.value.authorizedAgent)
  {
    if action.Tighten? {
      TightenedVault(s, action.draft, action.chainVersion);
      hide Refunded;
    }
  }

  /** What no step but the owner's changes: the policy with its vault's version and agent. */
  predicate Paired(s: State) {
    s.vault.Some? && s.policy.Some? ==>
      && s.vault.value.policyVersion == s.policy.value.version
      && s.vault.value.authorizedAgent == s.policy.value.authorizedAgent
  }

  lemma {:induction false} OtherStepsKeepLimits(s: State, step: Step)
    requires !step.Owner? || OwnerStep(s, step.action).Err?
    requires s.vault.Some? <==> s.policy.Some?
    requires s.vault.Some? ==> s.vault.value.suiObject != ""
    requires Paired(s)
    ensures s.policy.Some? ==> Next(s, step).policy == s.policy
    ensures Paired(Next(s, step))
  {
    hide OwnerStep, DraftValid, CanonicalPairs;
    match step {
      case Tick(t) => TickKeepsPolicy(s, t);
      case _ =>
    }
  }

  lemma {:induction false} OpeningStores(s: State, tx: SetupTx)
    requires s.policy.None? && s.vault.None? && Next(s, Setup(tx)).policy.Some?
    ensures var s' := Next(s, Setup(tx)); LimitsFollow(s'.policy.value, tx, []) && Paired(s')
  {
    SetupStores(s, tx);
    hide SamePairs, SetupStep;
  }

  lemma {:induction false} LimitsFollowAction(p: PolicyRow, p': PolicyRow, opening: SetupTx, actions: seq<OwnerAction>, action: OwnerAction)
    requires LimitsFollow(p, opening, actions)
    requires var d := if action.Tighten? then action.draft else Draft([], None, None, None);
             && p'.maxNotional == GetOr(d.maxNotional, p.maxNotional) && p'.maxDailyLoss == GetOr(d.maxDailyLoss, p.maxDailyLoss)
             && p'.allowedPairs == (if d.allowedPairs == [] then p.allowedPairs else d.allowedPairs)
             && p'.version == (if action.Tighten? && action.chainVersion != 0 && action.chainVersion > p.version
                               then action.chainVersion else p.version)
    ensures LimitsFollow(p', opening, actions + [action])
  {
    LastOfMore(actions, action, opening.policyVersion);
    hide SamePairs, LastSize, LastLoss, LastPairs, HighestVersion;
  }

  lemma {:induction false} StillPaired(s: State, s': State, action: OwnerAction)
    requires Paired(s) && s.vault.Some? && s.policy.Some? && s'.vault.Some? && s'.policy.Some?
    requires s'.vault.value.policyVersion == s'.policy.value.version
    requires s'.vault.value.authorizedAgent == if action.Revoke? then None else s.vault.value.authorizedAgent
    requires s'.policy.value.authorizedAgent == if action.Revoke? then None else s.policy.value.authorizedAgent
    ensures Paired(s')
  {
  }

  lemma {:induction false} OnlySetupsOpen(s: State, step: Step)
    requires s.policy.None? && Next(s, step).policy.Some?
    ensures step.Setup?
  {
    hide SetupStep;
    if step.Tick? {
      TickKeepsPolicy(s, step.input);
    }
  }

  /** After every run, order size, daily loss and pairs are those of the opening setup until an
      accepted tightening names others, and then those of the last that did; the version is the
      highest of all; and the vault carries the policy's version and agent. */
  lemma {:induction false} LimitsTellHistory(steps: seq<Step>)
    ensures var (s, opening, actions) := (Run(EMPTY, steps), Opening(steps), AcceptedActions(steps));
            && (s.policy.Some? <==> opening.Some?)
            && (s.policy.Some? ==> s.vault.Some? && LimitsFollow(s.policy.value, opening.value, actions))
            && Paired(s)
  {
    VaultAfter(steps);
    PolicyTellsHistory(steps);
    if steps != [] {
      var front, step := steps[..|steps| - 1], steps[|steps| - 1];
      var s, actions := Run(EMPTY, front), AcceptedActions(front);
      LimitsTellHistory(front);
      InvOverRuns(front);
      PolicyAndVaultTogether(s);
      VaultAfter(front);
      hide Inv, Next, OwnerStep, LimitsFollow, Paired, StoppedLast, EverRevoked;
      if step.Owner? && OwnerStep(s, step.action).Ok? {
        AcceptedLimits(s, step.action);
        AcceptedNext(s, step.action);
        AcceptedEffect(s, step.action);
        LimitsFollowAction(s.policy.value, Next(s, step).policy.value, Opening(front).value, actions, step.action);
        StillPaired(s, Next(s, step), step.action);
      } else {
        assert actions + [] == actions;
        OtherStepsKeepLimits(s, step);
        if s.policy.None? && Next(s, step).policy.Some? {
          OnlySetupsOpen(s, step);
          OpeningStores(s, step.tx);
        }
      }
    }
  }

  // ---- The budget ----

  /** The account whose vault is the panda's. */
  predicate OwnAccount(s: State) {
    s.vault.Some? && s.account.Some? && s.account.value.vaultId == Some(s.vault.value.id)
  }

  /** A budget change is accepted exactly within the bounds, at or above the order size, and
      with enough cash and equity left to take back what it takes away; and then it is stored,
      and its difference reaches cash and equity alike and nothing else. */
  lemma {:induction false} BudgetChangeStores(s: State, newBudget: real)
    ensures var (r, s') := (UpdateBudget(s, newBudget), Next(s, Budget(newBudget)));
            && (r.Ok? <==> && s.vault.Some? && 100.0 <= newBudget <= 1000000.0
                           && (s.policy.Some? ==> s.policy.value.maxNotional <= newBudget)
                           && (OwnAccount(s) && newBudget < s.vault.value.trainingBudget ==>
                                 var less := s.vault.value.trainingBudget - newBudget;
                                 s.account.value.cash >= less && s.account.value.equity >= less))
            && (r.Err? ==> s' == s)
            && (r.Ok? ==>
                  var change := newBudget - s.vault.value.trainingBudget;
                  && s'.vault == Some(s.vault.value.(trainingBudget := newBudget))
                  && s'.account == (if OwnAccount(s)
                                    then Some(s.account.value.(cash := s.account.value.cash + change,
                                                               equity := s.account.value.equity + change))
                                    else s.account)
                  && s' == s.(vault := s'.vault, account := s'.account))
  {
  }
}
