/** What an order intent says, in terms of the account, the policy and the market event it was
    decided on, and that it says the same as the fact and the entry that follow from it. */
module OrderIntents {
  import opened Events
  import opened Reals
  import opened Text
  import opened Ledger
  import opened PolicyGate
  import opened TradingState
  import opened TradingRuns
  import opened TradeFacts

  /** The version of the policy that judged an order: the stored one if the tick names it, the
      tick's own if it names none, and 0 without any. */
  predicate JudgedBy(version: int, s: State, t: TickInput) {
    match t.policyId
    case None => version == if t.fallback.Some? then t.fallback.value.version else 0
    case Some(id) => version == if s.policy.Some? && s.policy.value.id == id then s.policy.value.version else 0
  }

  /** A share of the equity that the account holds or would start with; of the initial capital
      if that equity is zero. */
  function Share(s: State, t: TickInput): real {
    var equity := if s.account.Some? then s.account.value.equity else t.initialCapital;
    (if equity == 0.0 then t.initialCapital else equity) * t.positionPct
  }

  function CashAtHand(s: State, t: TickInput): real {
    if s.account.Some? then s.account.value.cash else t.initialCapital
  }

  lemma {:induction false} RecordedIs(s: State, t: TickInput)
    requires CommitTick(s, t).1.Recorded?
    ensures var (s', outcome) := CommitTick(s, t);
            && t.intentId !in s.intents
            && s'.intents
               == s.intents[t.intentId := IntentOf(t, TickNotional(s, t), FreshMirror(s, t), outcome.status, outcome.rejection)]
  {
    hide TickExecution, TickGate, FactClashes, FactOf, EntryOf, UsedHashes, IntentOf, TickNotional, FreshMirror, GetOrCreateAccount;
  }

  /** What happens to the account of a tick that executes nothing: a HOLD looks for none, a
      rejected order finds the stored one or opens one with the initial capital. */
  lemma {:induction false} AccountOfTick(s: State, t: TickInput)
    requires CommitTick(s, t).1.Recorded? && CommitTick(s, t).1.status != EXECUTED
    ensures var (s', outcome) := CommitTick(s, t);
            && (outcome.status == DECIDED <==> t.zone != EXECUTE || t.action == HOLD)
            && (outcome.status == DECIDED ==> s'.account == s.account)
            && (outcome.status == REJECTED ==>
                  s'.account == if s.account.Some? then s.account
                                else Some(Account(t.vaultId, t.initialCapital, 0.0, t.initialCapital, 0.0, 0.0)))
  {
    hide TickExecution, TickGate, FactClashes, IntentClashes, FactOf, EntryOf, IntentOf, TickNotional, FreshMirror;
  }

  lemma {:induction false} ExecutionKeepsVault(account: Account, rows: seq<Position>, pair: string, asset: string,
                                               side: Side, notional: real, reference: real)
    requires side != HOLD && Execute(account, rows, pair, asset, side, notional, reference).Filled?
    ensures Execute(account, rows, pair, asset, side, notional, reference).account.vaultId == account.vaultId
  {
    hide BuyRows, SellRows, MarkedRows, Unrealized, Units, Worth, FindPair;
  }

  /** An executed tick keeps the account in its vault, or opens it in the tick's. */
  lemma {:induction false} VaultOfAccount(s: State, t: TickInput)
    requires Executes(s, t)
    ensures var s' := Next(s, Tick(t));
            && s'.account.Some?
            && s'.account.value.vaultId == if s.account.Some? then s.account.value.vaultId else t.vaultId
  {
    var x, mirror, intent := ExecutedTick(s, t);
    ExecutionKeepsVault(GetOrCreateAccount(s, t.vaultId, t.initialCapital), s.rows, PairOf(t.event), t.event.asset, SideOf(t),
                        TickNotional(s, t), ReferencePrice(t.event));
    hide Execute, TickNotional, PairOf, ReferencePrice, CommitTick, Executes;
  }

  lemma {:induction false} SizeOfOrder(s: State, t: TickInput)
    ensures t.zone != EXECUTE || t.action == HOLD ==> TickNotional(s, t) == 0.0
    ensures t.zone == EXECUTE && t.action == SELL ==> TickNotional(s, t) == Share(s, t)
    ensures t.zone == EXECUTE && t.action == BUY ==> TickNotional(s, t) == Min(Share(s, t), CashAtHand(s, t))
  {
  }

  lemma {:induction false} VersionOfMirror(s: State, t: TickInput)
    ensures JudgedBy(if FreshMirror(s, t).Some? then FreshMirror(s, t).value.version else 0, s, t)
  {
  }

  /** Every recorded tick, held, rejected or executed, adds one intent and leaves the others:
      it names pair and side, nothing for a HOLD, a share of the equity for an order, at most
      the cash at hand for a purchase, and the oracle's reference price if there is one. */
  lemma {:induction false} RecordedIntent(s: State, t: TickInput)
    requires CommitTick(s, t).1.Recorded?
    ensures var (s', outcome) := CommitTick(s, t);
            && t.intentId !in s.intents && s'.intents.Keys == s.intents.Keys + {t.intentId}
            && (forall id :: id in s.intents ==> s'.intents[id] == s.intents[id])
            && var intent := s'.intents[t.intentId];
               && intent.pair == (if t.event.pair == "" then t.event.asset else t.event.pair)
               && intent.side == (if t.zone == EXECUTE then t.action else HOLD)
               && (intent.side == HOLD ==> intent.notional == 0.0)
               && (intent.side == SELL ==> intent.notional == Share(s, t))
               && (intent.side == BUY ==>
                     intent.notional <= Share(s, t) && intent.notional <= CashAtHand(s, t)
                     && (intent.notional == Share(s, t) || intent.notional == CashAtHand(s, t)))
               && intent.referencePrice
                  == (if t.event.referencePrice.None? || t.event.referencePrice.value == 0.0 then t.event.price
                      else t.event.referencePrice.value)
               && JudgedBy(intent.policyVersion, s, t)
               && (intent.status, intent.rejection) == (outcome.status, outcome.rejection)
               && (intent.decisionHash.pair, intent.decisionHash.side) == (intent.pair, intent.side)
               && (intent.decisionHash.timestamp, intent.decisionHash.score) == (t.event.timestamp, Millionths(t.finalScore))
  {
    RecordedIs(s, t);
    SizeOfOrder(s, t);
    VersionOfMirror(s, t);
    hide CommitTick, TickNotional, FreshMirror, JudgedBy, Share, CashAtHand, Millionths;
  }

  // ---- Over every run ----

  /** Size, policy and price agree in the intent, its fact and its entry. */
  ghost predicate Agree(intents: map<nat, OrderIntent>, fact: TradeFact, entry: LedgerEntry) {
    && fact.orderIntentId in intents
    && var intent := intents[fact.orderIntentId];
       && intent.notional == fact.notional && intent.policyVersion == fact.policy.version
       && entry.price == Max(intent.referencePrice, 0.000000001)
       && (intent.pair, intent.side, intent.status) == (fact.pair, fact.side, EXECUTED)
       && intent.rejection == None
  }

  ghost predicate AllAgree(s: State) {
    |s.facts| == |s.entries| && forall i :: 0 <= i < |s.facts| ==> Agree(s.intents, s.facts[i], s.entries[i])
  }

  lemma {:induction false} LastIs<T>(s: seq<T>, x: T, y: T)
    requires s + [x] == s + [y]
    ensures x == y
  {
    assert (s + [x])[|s|] == (s + [y])[|s|];
  }

  lemma {:induction false} RecordedNotional(s: State, t: TickInput)
    requires Executes(s, t)
    ensures var s' := Next(s, Tick(t));
            && t.intentId in s'.intents
            && var intent := s'.intents[t.intentId];
               && intent.notional == TickNotional(s, t) && intent.referencePrice == ReferencePrice(t.event)
               && intent.policyVersion == (if FreshMirror(s, t).Some? then FreshMirror(s, t).value.version else 0)
               && (intent.pair, intent.side, intent.status, intent.rejection) == (PairOf(t.event), SideOf(t), EXECUTED, None)
  {
    RecordedIs(s, t);
    hide CommitTick, TickNotional, FreshMirror, PairOf, ReferencePrice, DecisionHash;
  }

  lemma {:induction false} ExecutedAgree(s: State, t: TickInput, fact: TradeFact, entry: LedgerEntry)
    requires Executes(s, t)
    requires Next(s, Tick(t)).facts == s.facts + [fact] && Next(s, Tick(t)).entries == s.entries + [entry]
    ensures Agree(Next(s, Tick(t)).intents, fact, entry)
  {
    var x, mirror, intent := ExecutedTick(s, t);
    LastIs(s.facts, fact, FactOf(s, t, mirror, x));
    LastIs(s.entries, entry, EntryOf(t, x));
    FilledPrice(s, t);
    RecordedNotional(s, t);
    hide CommitTick, Executes, TickExecution, TickNotional, PairOf, GetOrCreateAccount, FreshMirror, TickGate;
  }

  lemma {:induction false} IntentsKept(s: State, step: Step)
    ensures forall id :: id in s.intents ==> id in Next(s, step).intents && Next(s, step).intents[id] == s.intents[id]
  {
    if step.Tick? {
      TickIntents(s, step.input);
    } else {
      WalletStepKeepsIntents(s, step);
    }
    hide Next;
  }

  /** After every run, what an intent asked for is what its fact records and its entry was
      priced at. */
  lemma {:induction false} IntentsAgreeWithFacts(steps: seq<Step>)
    ensures AllAgree(Run(EMPTY, steps))
  {
    if steps != [] {
      var s, step := Run(EMPTY, steps[..|steps| - 1]), steps[|steps| - 1];
      IntentsAgreeWithFacts(steps[..|steps| - 1]);
      RunLast(steps);
      IntentsKept(s, step);
      hide Next, Run, Executes;
      if !step.Tick? {
        WalletStepKeepsLog(s, step);
      } else if Executes(s, step.input) {
        var x, mirror, intent := ExecutedTick(s, step.input);
        ExecutedAgree(s, step.input, FactOf(s, step.input, mirror, x), EntryOf(step.input, x));
      } else {
        OtherTicksTouchNothing(s, step.input);
      }
    }
  }

  lemma {:induction false} RunStep(s: State, steps: seq<Step>)
    requires steps != []
    ensures Run(s, steps) == Next(Run(s, steps[..|steps| - 1]), steps[|steps| - 1])
  {
    hide Next;
  }

  /** No step ever takes an intent back or rewrites it. */
  lemma {:induction false} IntentsAreFinal(s: State, more: seq<Step>, id: nat)
    requires id in s.intents
    ensures id in Run(s, more).intents && Run(s, more).intents[id] == s.intents[id]
  {
    if more != [] {
      IntentsAreFinal(s, more[..|more| - 1], id);
      RunStep(s, more);
      IntentsKept(Run(s, more[..|more| - 1]), more[|more| - 1]);
      hide Run, Next;
    }
  }
}
