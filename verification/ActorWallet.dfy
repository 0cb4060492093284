/** The wallet as the actor knows it, and the ticks the actor commits: for them revocation
    and pause hold without any condition on the tick. */
module ActorWallet {
  import opened Events
  import opened Text
  import opened Ledger
  import opened PolicyGate
  import opened TradingState
  import opened TradingRuns
  import opened TradingLaws

  /** What the actor passes to commit_tick on every tick. */
  datatype Known = Known(vaultId: Option<string>, policyId: Option<string>, mirror: Option<PolicyMirror>)

  const NOTHING_KNOWN := Known(None, None, None)

  /** hydrate: the ids and the mirror are set together, and only if there is a policy. */
  function Hydrated(known: Known, s: State): Known {
    if s.policy.None? then known
    else
      Known(if s.vault.Some? then Some(s.vault.value.id) else None, Some(s.policy.value.id),
            Some(MirrorFromRow(s.policy.value, IsMirrorSynced(s.vault, s.policy))))
  }

  /** The tick that the actor commits: the event and the decision are arbitrary, the wallet
      is what it knows. */
  function TickOf(known: Known, t: TickInput): TickInput {
    t.(vaultId := known.vaultId, policyId := known.policyId, fallback := known.mirror)
  }

  /** An actor may start anew, be hydrated, and commit ticks, while the owner acts, changes
      the budget and sets up the wallet, in any order. */
  datatype Act =
    | Restart
    | Hydrate
    | Commit(input: TickInput)
    | OwnerActs(action: OwnerAction)
    | ChangeBudget(newBudget: real)
    | SetUp(tx: SetupTx)

  class ActorState {
    var vaultId: Option<string>
    var policyId: Option<string>
    var policyMirror: Option<PolicyMirror>

    function View(): Known
      reads this
    {
      Known(vaultId, policyId, policyMirror)
    }

    constructor ()
      ensures View() == NOTHING_KNOWN
    {
      vaultId, policyId, policyMirror := None, None, None;
    }

    method Hydrate(s: State)
      modifies this
      ensures View() == Hydrated(old(View()), s)
    {
      if s.policy.Some? {
        policyId := Some(s.policy.value.id);
        vaultId := if s.vault.Some? then Some(s.vault.value.id) else None;
        policyMirror := Some(MirrorFromRow(s.policy.value, IsMirrorSynced(s.vault, s.policy)));
      }
    }
  }

  // ---- Runs of the actor beside its owner ----

  datatype System = System(state: State, known: Known)

  const START := System(EMPTY, NOTHING_KNOWN)

  function Performed(sys: System, act: Act): System {
    match act
    case Restart => sys.(known := NOTHING_KNOWN)
    case Hydrate => sys.(known := Hydrated(sys.known, sys.state))
    case Commit(t) => sys.(state := Next(sys.state, Tick(TickOf(sys.known, t))))
    case OwnerActs(action) => sys.(state := Next(sys.state, Owner(action)))
    case ChangeBudget(newBudget) => sys.(state := Next(sys.state, Budget(newBudget)))
    case SetUp(tx) => sys.(state := Next(sys.state, Setup(tx)))
  }

  function Played(sys: System, acts: seq<Act>): System {
    if acts == [] then sys else Performed(Played(sys, acts[..|acts| - 1]), acts[|acts| - 1])
  }

  /** The transactions of a run. */
  function Steps(sys: System, acts: seq<Act>): seq<Step> {
    if acts == [] then []
    else
      var before := Played(sys, acts[..|acts| - 1]);
      Steps(sys, acts[..|acts| - 1])
      + match acts[|acts| - 1]
        case Restart => []
        case Hydrate => []
        case Commit(t) => [Tick(TickOf(before.known, t))]
        case OwnerActs(action) => [Owner(action)]
        case ChangeBudget(newBudget) => [Budget(newBudget)]
        case SetUp(tx) => [Setup(tx)]
  }

  lemma {:induction false} RunLast(s: State, steps: seq<Step>, step: Step)
    ensures Run(s, steps + [step]) == Next(Run(s, steps), step)
  {
    hide Next;
    assert (steps + [step])[..|steps|] == steps;
  }

  /** The state after a run is the state after its transactions. */
  lemma {:induction false} PlayedIsRun(sys: System, acts: seq<Act>)
    ensures Played(sys, acts).state == Run(sys.state, Steps(sys, acts))
  {
    if acts != [] {
      var front, act := acts[..|acts| - 1], acts[|acts| - 1];
      var before, steps := Played(sys, front), Steps(sys, front);
      PlayedIsRun(sys, front);
      hide Next, Run, Hydrated, TickOf;
      match act {
        case Restart => assert steps + [] == steps;
        case Hydrate => assert steps + [] == steps;
        case Commit(t) => RunLast(sys.state, steps, Tick(TickOf(before.known, t)));
        case OwnerActs(action) => RunLast(sys.state, steps, Owner(action));
        case ChangeBudget(newBudget) => RunLast(sys.state, steps, Budget(newBudget));
        case SetUp(tx) => RunLast(sys.state, steps, Setup(tx));
      }
    }
  }

  /** An actor without a policy id has no mirror of its own either. */
  predicate Coherent(known: Known) {
    known.policyId.None? ==> known.mirror.None?
  }

  lemma {:induction false} KnownStaysCoherent(sys: System, acts: seq<Act>)
    requires Coherent(sys.known)
    ensures Coherent(Played(sys, acts).known)
  {
    if acts != [] {
      KnownStaysCoherent(sys, acts[..|acts| - 1]);
      hide Next, MirrorFromRow;
    }
  }

  /** Every tick that an actor commits reads the stored policy, or is blocked for want of one. */
  lemma {:induction false} ActorTicksReadPolicy(acts: seq<Act>, t: TickInput)
    ensures ReadsPolicy(TickOf(Played(START, acts).known, t))
  {
    KnownStaysCoherent(START, acts);
    hide Played;
  }

  // ---- What an actor knows ----

  /** The wallet, once there, stays the panda's. */
  ghost predicate SameWallet(s: State, s': State) {
    s.policy.Some? ==>
      && s.vault.Some? && s'.vault.Some? && s'.policy.Some?
      && s'.vault.value.id == s.vault.value.id && s'.policy.value.id == s.policy.value.id
  }

  lemma {:induction false} TightenKeepsPolicyId(s: State, draft: Draft, chainVersion: int)
    requires s.policy.Some?
    ensures var s' := Next(s, Owner(Tighten(draft, chainVersion)));
            s'.policy.Some? && s'.policy.value.id == s.policy.value.id
  {
    hide ApplyBudget;
  }

  lemma {:induction false} WalletOfInv(s: State)
    requires Inv(s) && s.policy.Some?
    ensures HasWallet(s) && s.account.Some? && s.account.value.vaultId == Some(s.vault.value.id)
  {
    hide RowsInv, LogInv, HistoryInv, StopInv, Replay, Matches;
  }

  lemma {:induction false} TickKeepsWallet(s: State, t: TickInput)
    ensures Next(s, Tick(t)).vault == s.vault && Next(s, Tick(t)).policy == s.policy
  {
    hide TickExecution, TickGate, FactClashes, IntentClashes, FactOf, EntryOf, IntentOf, TickNotional, FreshMirror, GetOrCreateAccount;
  }

  lemma {:induction false} WalletStays(s: State, step: Step)
    requires Inv(s)
    ensures SameWallet(s, Next(s, step))
  {
    if s.policy.Some? {
      WalletOfInv(s);
      hide Inv;
      match step {
        case Tick(t) => TickKeepsWallet(s, t);
        case Owner(action) =>
          OwnerOnlyFunds(s, action);
          if action.Tighten? {
            TightenKeepsPolicyId(s, action.draft, action.chainVersion);
          }
          hide TightenPolicy;
        case Budget(newBudget) => hide Refunded;
        case Setup(tx) => SecondSetupDoesNothing(s, tx);
      }
    }
  }

  /** The act at which the actor was hydrated. */
  ghost predicate HydratedAt(acts: seq<Act>, k: nat) {
    && k < |acts| && acts[k].Hydrate? && Played(START, acts[..k]).state.policy.Some?
    && forall j :: k < j < |acts| ==> !acts[j].Restart?
  }

  /** Since the actor last started anew it has been hydrated from a stored policy. */
  ghost predicate HydratedSince(acts: seq<Act>) {
    exists k: nat :: k < |acts| && HydratedAt(acts, k)
  }

  lemma {:induction false} HydratedAtNext(front: seq<Act>, act: Act, k: nat)
    ensures k < |front| ==> (HydratedAt(front + [act], k) <==> HydratedAt(front, k) && !act.Restart?)
    ensures HydratedAt(front + [act], |front|) <==> act.Hydrate? && Played(START, front).state.policy.Some?
  {
    hide Played;
    var acts := front + [act];
    assert acts[..|front|] == front && acts[|front|] == act && forall j :: 0 <= j < |front| ==> acts[j] == front[j];
    if k < |front| {
      assert acts[..k] == front[..k];
    }
  }

  lemma {:induction false} HydratedNext(front: seq<Act>, act: Act)
    ensures HydratedSince(front + [act])
       <==> (act.Hydrate? && Played(START, front).state.policy.Some?) || (!act.Restart? && HydratedSince(front))
  {
    hide Played, HydratedAt;
    HydratedAtNext(front, act, 0);
    if k: nat :| k < |front + [act]| && HydratedAt(front + [act], k) {
      HydratedAtNext(front, act, k);
    }
    if k: nat :| k < |front| && HydratedAt(front, k) {
      HydratedAtNext(front, act, k);
    }
  }

  predicate KnowsRows(known: Known, s: State) {
    && s.vault.Some? && s.policy.Some?
    && known.vaultId == Some(s.vault.value.id) && known.policyId == Some(s.policy.value.id)
  }

  lemma {:induction false} KnowsNext(sys: System, act: Act)
    requires Inv(sys.state)
    ensures KnowsRows(sys.known, sys.state) && !act.Restart? ==> KnowsRows(Performed(sys, act).known, Performed(sys, act).state)
    ensures act.Hydrate? && sys.state.policy.Some? ==> KnowsRows(Performed(sys, act).known, Performed(sys, act).state)
    ensures act.Restart? ==> Performed(sys, act).known == NOTHING_KNOWN
    ensures !act.Hydrate? || sys.state.policy.None? ==> Performed(sys, act).known == sys.known || act.Restart?
  {
    if sys.state.policy.Some? {
      WalletOfInv(sys.state);
    }
    match act {
      case Restart =>
      case Hydrate =>
      case Commit(t) => WalletStays(sys.state, Tick(TickOf(sys.known, t)));
      case OwnerActs(action) => WalletStays(sys.state, Owner(action));
      case ChangeBudget(newBudget) => WalletStays(sys.state, Budget(newBudget));
      case SetUp(tx) => WalletStays(sys.state, Setup(tx));
    }
    hide Next, Inv, MirrorFromRow, TickOf;
  }

  lemma {:induction false} ReachableInv(acts: seq<Act>)
    ensures Inv(Played(START, acts).state)
  {
    hide Played, Inv;
    PlayedIsRun(START, acts);
    InvOverRuns(Steps(START, acts));
  }

  lemma {:induction false} PerformedLast(before: seq<Act>, act: Act)
    ensures Played(START, before + [act]) == Performed(Played(START, before), act)
  {
    hide Performed;
    assert (before + [act])[..|before|] == before;
  }

  /** After any run an actor that was hydrated since it started knows exactly the ids of the
      panda's vault and policy; any other knows nothing. */
  lemma {:induction false} ActorKnowsTheWallet(acts: seq<Act>)
    ensures var (known, s) := (Played(START, acts).known, Played(START, acts).state);
            if HydratedSince(acts) then KnowsRows(known, s) else known == NOTHING_KNOWN
  {
    if acts != [] {
      var front, act := acts[..|acts| - 1], acts[|acts| - 1];
      assert acts == front + [act];
      ActorKnowsTheWallet(front);
      HydratedNext(front, act);
      ReachableInv(front);
      PerformedLast(front, act);
      var sys := Played(START, front);
      KnowsNext(sys, act);
      hide Played, Next, Inv, HydratedSince, MirrorFromRow, Performed;
    }
  }

  lemma {:induction false} UnknownBlocks(s: State, t: TickInput)
    requires t.policyId.None? && t.fallback.None?
    ensures !Executes(s, t)
  {
    ExecutesExactlyWhen(s, t);
    hide Executes, IntentClashes, FactClashes, CommitTick, DailyLoss, TickNotional, PairOf, NormalizePair, ReferencePrice,
         Execute, GetOrCreateAccount, MirrorFromRow, Evaluate;
    if SideOf(t) != HOLD {
      NoPolicyBlocks(PairOf(t.event), SideOf(t), TickNotional(s, t), DailyLoss(s.facts, t.day));
    }
  }

  /** The whole way from an actor's decision to a trade: whatever happened before, it
      executes exactly when the actor has been hydrated since it started and the stored rows
      allow the order, with something to fill it. */
  lemma {:induction false} ActorExecutesExactlyWhen(acts: seq<Act>, decision: TickInput)
    ensures var (s, t) := (Played(START, acts).state, TickOf(Played(START, acts).known, decision));
            (Executes(s, t)
        <==>
            && HydratedSince(acts) && SideOf(decision) != HOLD && !IntentClashes(s, t) && !FactClashes(s, t)
            && s.vault.Some? && s.policy.Some? && s.vault.value.suiObject != "" && s.policy.value.suiObject != ""
            && !s.policy.value.paused
            && s.policy.value.authorizedAgent.Some? && s.policy.value.authorizedAgent.value != ""
            && (exists q :: q in s.policy.value.allowedPairs && NormalizePair(q) == NormalizePair(PairOf(decision.event)))
            && TickNotional(s, t) <= s.policy.value.maxNotional
            && DailyLoss(s.facts, decision.day) < s.policy.value.maxDailyLoss
            && if SideOf(decision) == BUY then TickNotional(s, t) > 0.0 && s.account.Some? && s.account.value.cash > 0.0
               else exists k :: 0 <= k < |s.rows| && s.rows[k].pair == PairOf(decision.event) && s.rows[k].quantity > 0.0)
  {
    var s, t := Played(START, acts).state, TickOf(Played(START, acts).known, decision);
    ReachableInv(acts);
    ActorKnowsTheWallet(acts);
    if s.policy.Some? {
      WalletOfInv(s);
    }
    hide Played, Inv, HydratedSince, Executes, IntentClashes, FactClashes, DailyLoss, TickNotional, PairOf, NormalizePair;
    if HydratedSince(acts) {
      StoredPolicyDecides(s, t);
    } else {
      UnknownBlocks(s, t);
    }
  }

  /** The acts under which a lock must hold, for an actor: its ticks need no condition but
      the day of a loss stop. */
  predicate ActRespects(lock: Lock, act: Act) {
    match act
    case Commit(t) => lock.LossReached? ==> t.day == lock.day
    case OwnerActs(action) => Respects(lock, Owner(action))
    case _ => true
  }

  lemma {:induction false} StepsRespect(lock: Lock, sys: System, acts: seq<Act>)
    requires Coherent(sys.known) && forall i :: 0 <= i < |acts| ==> ActRespects(lock, acts[i])
    ensures forall i :: 0 <= i < |Steps(sys, acts)| ==> Respects(lock, Steps(sys, acts)[i])
  {
    if acts != [] {
      var front := acts[..|acts| - 1];
      StepsRespect(lock, sys, front);
      KnownStaysCoherent(sys, front);
      assert ActRespects(lock, acts[|acts| - 1]);
      hide Played;
    }
  }

  lemma {:induction false} PlayedInTwo(sys: System, first: seq<Act>, second: seq<Act>)
    ensures Played(sys, first + second) == Played(Played(sys, first), second)
  {
    hide Performed;
    if second == [] {
      assert first + second == first;
    } else {
      PlayedInTwo(sys, first, second[..|second| - 1]);
      assert (first + second)[..|first + second| - 1] == first + second[..|second| - 1];
    }
  }

  lemma {:induction false} StartIsCoherent()
    ensures Coherent(START.known)
  {
  }

  /** From any reachable locked state, a run that respects the lock executes nothing. */
  lemma {:induction false} LocksHoldForActors(lock: Lock, before: seq<Act>, after: seq<Act>)
    requires Locked(lock, Played(START, before).state)
    requires forall i :: 0 <= i < |after| ==> ActRespects(lock, after[i])
    ensures var s, s' := Played(START, before).state, Played(START, before + after).state;
            Locked(lock, s') && NothingExecuted(s, s')
  {
    hide *;
    var sys := Played(START, before);
    PlayedInTwo(START, before, after);
    ReachableInv(before);
    StartIsCoherent();
    KnownStaysCoherent(START, before);
    StepsRespect(lock, sys, after);
    PlayedIsRun(sys, after);
    LockedRunsExecuteNothing(lock, sys.state, Steps(sys, after));
  }

  /** Revocation is permanent.  Once the owner's revocation is accepted, nothing that an
      actor, the owner or a setup can do, in any order and across restarts and hydrations,
      ever executes a trade again. */
  lemma {:induction false} RevocationIsPermanent(before: seq<Act>, after: seq<Act>)
    requires HasWallet(Played(START, before).state)
    ensures var s, s' := Played(START, before + [OwnerActs(Revoke)]).state, Played(START, before + [OwnerActs(Revoke)] + after).state;
            Locked(Revoked, s') && NothingExecuted(s, s')
  {
    PerformedLast(before, OwnerActs(Revoke));
    hide Played, Locked, NothingExecuted, Next;
    OwnerLocks(Played(START, before).state);
    LocksHoldForActors(Revoked, before + [OwnerActs(Revoke)], after);
  }

  /** After an accepted pause nothing executes until the next unpause or tighten. */
  lemma {:induction false} PauseHolds(before: seq<Act>, after: seq<Act>)
    requires HasWallet(Played(START, before).state)
    requires forall i :: 0 <= i < |after| && after[i].OwnerActs? ==> !after[i].action.Unpause? && !after[i].action.Tighten?
    ensures var s, s' := Played(START, before + [OwnerActs(Pause)]).state, Played(START, before + [OwnerActs(Pause)] + after).state;
            Locked(Paused, s') && NothingExecuted(s, s')
  {
    PerformedLast(before, OwnerActs(Pause));
    hide Played, Locked, NothingExecuted, Next;
    OwnerLocks(Played(START, before).state);
    LocksHoldForActors(Paused, before + [OwnerActs(Pause)], after);
  }
}
