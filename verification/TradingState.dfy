/** The rows that one panda's training touches, and the transactions on them:
    one tick of the hot path, the owner's actions, a budget change, and the
    wallet setup.  Each is one atomic step; a step that raises leaves the state
    as it was, because nothing is committed. */
module TradingState {
  import opened Events
  import opened Reals
  import opened Text
  import opened Ledger
  import opened PolicyGate

  datatype Vault = Vault(
    id: string,
    suiObject: string,
    status: string,
    authorizedAgent: Option<string>,
    policyVersion: int,
    trainingBudget: real,
    createdDigest: string)

  /** The values hashed into decision_hash.  SHA-256 (section 6.2 of FIPS 180-4)
      is read as injective on them, so the values stand for the digest. */
  datatype DecisionKey = DecisionKey(pair: string, side: Side, timestamp: real, score: int)

  datatype IntentStatus = DECIDED | REJECTED | EXECUTED

  datatype Rejection = ByGate(code: GateCode) | ByLedger(reason: string)

  datatype OrderIntent = OrderIntent(
    pair: string,
    side: Side,
    notional: real,
    referencePrice: real,
    policyVersion: int,
    decisionHash: DecisionKey,
    status: IntentStatus,
    rejection: Option<Rejection>)

  datatype LedgerSnapshot = LedgerSnapshot(
    cash: real, debt: real, equity: real, realizedPnl: real, unrealizedPnl: real, positions: seq<Position>)

  datatype LedgerEntry = LedgerEntry(
    id: nat,
    orderIntentId: nat,
    tradeFactId: nat,
    buy: bool,
    amount: real,
    price: real,
    cashAfter: real,
    equityAfter: real)

  datatype TradeFact = TradeFact(
    id: nat,
    orderIntentId: nat,
    pair: string,
    side: Side,
    before: LedgerSnapshot,
    after: LedgerSnapshot,
    policy: PolicyMirror,
    notional: real,
    quantity: real,
    realizedPnl: real,
    day: int)

  datatype State = State(
    account: Option<Account>,
    rows: seq<Position>,
    vault: Option<Vault>,
    policy: Option<PolicyRow>,
    intents: map<nat, OrderIntent>,
    facts: seq<TradeFact>,
    entries: seq<LedgerEntry>)

  const EMPTY := State(None, [], None, None, map[], [], [])

  // ---- One tick ----

  /** What the actor hands to commit_tick.  The ids are the fresh UUIDs of the
      rows, and day is the UTC date on which the transaction runs. */
  datatype TickInput = TickInput(
    vaultId: Option<string>,
    policyId: Option<string>,
    fallback: Option<PolicyMirror>,
    event: MarketEvent,
    zone: Zone,
    action: Side,
    finalScore: real,
    initialCapital: real,
    positionPct: real,
    day: int,
    intentId: nat,
    factId: nat,
    entryId: nat)

  function PairOf(event: MarketEvent): string {
    if event.pair != "" then event.pair else event.asset
  }

  function SideOf(t: TickInput): Side {
    if t.zone != EXECUTE then HOLD else t.action
  }

  /** Python's `or`: a missing or zero reference price falls back to the price. */
  function ReferencePrice(event: MarketEvent): real {
    if event.referencePrice.Some? && event.referencePrice.value != 0.0 then event.referencePrice.value
    else event.price
  }

  function IsMirrorSynced(vault: Option<Vault>, policy: Option<PolicyRow>): bool {
    vault.Some? && policy.Some? && vault.value.suiObject != "" && policy.value.suiObject != ""
  }

  function FindVault(s: State, id: Option<string>): Option<Vault> {
    if id.Some? && s.vault.Some? && s.vault.value.id == id.value then s.vault else None
  }

  /** The policy is read afresh in the transaction; the actor's copy is used only
      when the actor knows no policy id. */
  function FreshMirror(s: State, t: TickInput): Option<PolicyMirror> {
    if t.policyId.None? then t.fallback
    else if s.policy.None? || s.policy.value.id != t.policyId.value then None
    else Some(MirrorFromRow(s.policy.value, IsMirrorSynced(FindVault(s, t.vaultId), s.policy)))
  }

  function GetOrCreateAccount(s: State, vaultId: Option<string>, initialCapital: real): Account {
    if s.account.Some? then s.account.value else NewAccount(vaultId, initialCapital)
  }

  /** The size of an order.  Nothing keeps it positive. */
  function Notional(account: Account, side: Side, initialCapital: real, positionPct: real): real {
    var equity := if account.equity == 0.0 then initialCapital else account.equity;
    var sized := Worth(equity, positionPct);
    if side == BUY then Min(sized, account.cash) else sized
  }

  /** round(x, 6) in units of one millionth, ties to even. */
  function Millionths(x: real): int {
    var scaled := x * 1000000.0;
    var below := scaled.Floor;
    var rest := scaled - below as real;
    if rest < 0.5 || (rest == 0.5 && below % 2 == 0) then below else below + 1
  }

  function DecisionHash(t: TickInput): DecisionKey {
    DecisionKey(PairOf(t.event), SideOf(t), t.event.timestamp, Millionths(t.finalScore))
  }

  /** The realized losses of one UTC day, as a positive number. */
  function DailyLoss(facts: seq<TradeFact>, day: int): (loss: real)
    ensures loss >= 0.0
  {
    if facts == [] then 0.0
    else
      var last := facts[|facts| - 1];
      DailyLoss(facts[..|facts| - 1], day)
      + if last.realizedPnl < 0.0 && last.day == day then -last.realizedPnl else 0.0
  }

  function Snapshot(account: Account, rows: seq<Position>): LedgerSnapshot {
    LedgerSnapshot(account.cash, account.debt, account.equity, account.realizedPnl, account.unrealizedPnl, rows)
  }

  datatype TickOutcome =
    | Aborted
    | Recorded(status: IntentStatus, rejection: Option<Rejection>)

  function UsedHashes(intents: map<nat, OrderIntent>): set<DecisionKey> {
    set id | id in intents :: intents[id].decisionHash
  }

  function FactIds(facts: seq<TradeFact>): set<nat> {
    set i | 0 <= i < |facts| :: facts[i].id
  }

  function EntryIds(entries: seq<LedgerEntry>): set<nat> {
    set i | 0 <= i < |entries| :: entries[i].id
  }

  function IntentOf(t: TickInput, notional: real, mirror: Option<PolicyMirror>, status: IntentStatus,
                    rejection: Option<Rejection>): OrderIntent
  {
    OrderIntent(PairOf(t.event), SideOf(t), notional, ReferencePrice(t.event),
                if mirror.Some? then mirror.value.version else 0, DecisionHash(t), status, rejection)
  }

  /** The notional of a tick that trades, from the account it finds or creates. */
  function TickNotional(s: State, t: TickInput): real {
    if SideOf(t) == HOLD then 0.0
    else Notional(GetOrCreateAccount(s, t.vaultId, t.initialCapital), SideOf(t), t.initialCapital, t.positionPct)
  }

  function TickGate(s: State, t: TickInput): GateResult {
    Evaluate(FreshMirror(s, t), PairOf(t.event), SideOf(t), TickNotional(s, t), DailyLoss(s.facts, t.day))
  }

  function TickExecution(s: State, t: TickInput): Execution
    requires SideOf(t) != HOLD
  {
    Execute(GetOrCreateAccount(s, t.vaultId, t.initialCapital), s.rows, PairOf(t.event), t.event.asset,
            SideOf(t), TickNotional(s, t), ReferencePrice(t.event))
  }

  /** The intent row violates a key: its id or its decision hash is taken. */
  predicate IntentClashes(s: State, t: TickInput) {
    t.intentId in s.intents || DecisionHash(t) in UsedHashes(s.intents)
  }

  predicate FactClashes(s: State, t: TickInput) {
    t.factId in FactIds(s.facts) || t.entryId in EntryIds(s.entries)
  }

  function EntryOf(t: TickInput, x: Execution): LedgerEntry
    requires x.Filled?
  {
    LedgerEntry(t.entryId, t.intentId, t.factId, SideOf(t) == BUY, x.amount, x.price, x.account.cash, x.account.equity)
  }

  function FactOf(s: State, t: TickInput, mirror: PolicyMirror, x: Execution): TradeFact
    requires x.Filled?
  {
    TradeFact(t.factId, t.intentId, PairOf(t.event), SideOf(t),
              Snapshot(GetOrCreateAccount(s, t.vaultId, t.initialCapital), s.rows), Snapshot(x.account, x.rows),
              mirror, TickNotional(s, t), x.amount, x.realizedDelta, t.day)
  }

  /** TradeFactWriter.commit_tick. */
  function CommitTick(s: State, t: TickInput): (State, TickOutcome) {
    var side := SideOf(t);
    var mirror := FreshMirror(s, t);
    var notional := TickNotional(s, t);
    var gate := TickGate(s, t);
    if IntentClashes(s, t) then (s, Aborted)
    else if side == HOLD then
      (s.(intents := s.intents[t.intentId := IntentOf(t, notional, mirror, DECIDED, None)]), Recorded(DECIDED, None))
    else
      var funded := s.(account := Some(GetOrCreateAccount(s, t.vaultId, t.initialCapital)));
      if gate.Blocked? then
        var why := Some(ByGate(gate.code));
        (funded.(intents := s.intents[t.intentId := IntentOf(t, notional, mirror, REJECTED, why)]),
         Recorded(REJECTED, why))
      else
        var x := TickExecution(s, t);
        if x.Refused? then
          var why := Some(ByLedger(x.reason));
          (funded.(intents := s.intents[t.intentId := IntentOf(t, notional, mirror, REJECTED, why)]),
           Recorded(REJECTED, why))
        else if FactClashes(s, t) then (s, Aborted)
        else
          (State(Some(x.account), x.rows, s.vault, s.policy,
                 s.intents[t.intentId := IntentOf(t, notional, mirror, EXECUTED, None)],
                 s.facts + [FactOf(s, t, mirror.value, x)],
                 s.entries + [EntryOf(t, x)]),
           Recorded(EXECUTED, None))
  }

  // ---- Wallet ----

  datatype ApiError =
    | VAULT_NOT_FOUND
    | POLICY_MISSING
    | AGENT_REVOKED
    | VALIDATION
    | OWNER_MISMATCH
    | SIGNER_UNAUTHORIZED
    | UNIQUE_VIOLATION

  datatype Result<+T> = Ok(value: T) | Err(error: ApiError)

  const TRAINING_BUDGET_MIN := 100.0
  const TRAINING_BUDGET_MAX := 1000000.0
  const DEFAULT_TRAINING_BUDGET := 10000.0

  predicate BudgetAllowed(budget: real, maxNotional: real) {
    TRAINING_BUDGET_MIN <= budget <= TRAINING_BUDGET_MAX && maxNotional <= budget
  }

  datatype Funds = Funds(vault: Vault, account: Option<Account>)

  /** _apply_training_budget_change: the same difference goes to the vault and to
      the cash and equity of its account, if that account was found. */
  function ApplyBudget(vault: Vault, account: Option<Account>, newBudget: real, maxNotional: real): Result<Funds> {
    var delta := newBudget - vault.trainingBudget;
    var vault' := vault.(trainingBudget := newBudget);
    if !BudgetAllowed(newBudget, maxNotional) then Err(VALIDATION)
    else if account.None? || delta == 0.0 then Ok(Funds(vault', account))
    else
      var a := account.value;
      if delta < 0.0 && (a.cash + delta < 0.0 || a.equity + delta < 0.0) then Err(VALIDATION)
      else Ok(Funds(vault', Some(a.(cash := a.cash + delta, equity := a.equity + delta))))
  }

  /** _load_training_account: only an account of this very vault is found. */
  function LoadAccount(s: State, vault: Vault): Option<Account> {
    if s.account.Some? && s.account.value.vaultId == Some(vault.id) then s.account else None
  }

  function WithFunds(s: State, funds: Funds): State {
    s.(vault := Some(funds.vault), account := if funds.account.Some? then funds.account else s.account)
  }

  function UpdateBudget(s: State, newBudget: real): Result<State> {
    if s.vault.None? then Err(VAULT_NOT_FOUND)
    else
      var maxNotional := if s.policy.Some? then s.policy.value.maxNotional else newBudget;
      var r := ApplyBudget(s.vault.value, LoadAccount(s, s.vault.value), newBudget, maxNotional);
      if r.Err? then Err(r.error) else Ok(WithFunds(s, r.value))
  }

  /** The fields of a tighten draft that the gate or the ledger reads. */
  datatype Draft = Draft(
    allowedPairs: seq<string>,
    maxNotional: Option<real>,
    maxDailyLoss: Option<real>,
    trainingBudget: Option<real>)

  /** The owner's actions, with what the chain transaction said about them. */
  datatype OwnerAction =
    | Pause
    | Unpause(chainRevoked: bool)
    | Revoke
    | Tighten(draft: Draft, chainVersion: int)
    | Unknown

  function GetOr<T>(o: Option<T>, default: T): T { if o.Some? then o.value else default }

  function WithStatus(vault: Option<Vault>, status: string): Option<Vault> {
    if vault.None? then None else Some(vault.value.(status := status))
  }

  function Stamped(s: State): State {
    if s.vault.Some? && s.policy.Some? then
      s.(vault := Some(s.vault.value.(policyVersion := s.policy.value.version)))
    else s
  }

  function Limited(policy: PolicyRow, draft: Draft): PolicyRow {
    policy.(allowedPairs := if draft.allowedPairs == [] then policy.allowedPairs else draft.allowedPairs,
            maxNotional := GetOr(draft.maxNotional, policy.maxNotional),
            maxDailyLoss := GetOr(draft.maxDailyLoss, policy.maxDailyLoss))
  }

  function Refunded(s: State, maxNotional: real, newBudget: Option<real>): Result<State> {
    if s.vault.None? || newBudget.None? then Ok(s)
    else
      var r := ApplyBudget(s.vault.value, LoadAccount(s, s.vault.value), newBudget.value, maxNotional);
      if r.Err? then Err(r.error) else Ok(WithFunds(s, r.value))
  }

  /** The new version is taken only if it is higher; a revoked vault stays revoked. */
  function Reopened(s: State, policy: PolicyRow, chainVersion: int): State {
    var version := if chainVersion != 0 && chainVersion > policy.version then chainVersion else policy.version;
    s.(policy := Some(policy.(paused := false, version := version)),
       vault := if s.vault.Some? && s.vault.value.status != "revoked" then WithStatus(s.vault, "active") else s.vault)
  }

  /** Tightening checks nothing about the new limits and always unpauses. */
  function TightenPolicy(s: State, policy: PolicyRow, draft: Draft, chainVersion: int): Result<State> {
    var limited := Limited(policy, draft);
    var funded := Refunded(s.(policy := Some(limited)), limited.maxNotional, draft.trainingBudget);
    if funded.Err? then funded else Ok(Reopened(funded.value, limited, chainVersion))
  }

  /** sync_owner_action_from_tx. */
  function OwnerStep(s: State, action: OwnerAction): Result<State> {
    if s.policy.None? then Err(POLICY_MISSING)
    else
      var policy := s.policy.value;
      match action
      case Pause =>
        Ok(Stamped(s.(policy := Some(policy.(paused := true)), vault := WithStatus(s.vault, "paused"))))
      case Unpause(chainRevoked) =>
        if chainRevoked then Err(AGENT_REVOKED)
        else Ok(Stamped(s.(policy := Some(policy.(paused := false)), vault := WithStatus(s.vault, "active"))))
      case Revoke =>
        var vault := WithStatus(s.vault, "revoked");
        var vault' := if vault.None? then None else Some(vault.value.(authorizedAgent := None));
        Ok(Stamped(s.(policy := Some(policy.(paused := true, authorizedAgent := None)), vault := vault')))
      case Tighten(draft, chainVersion) =>
        var r := TightenPolicy(s, policy, draft, chainVersion);
        if r.Err? then r else Ok(Stamped(r.value))
      case Unknown => Err(VALIDATION)
  }

  /** A setup draft with its missing fields read as the validation reads them. */
  datatype SetupDraft = SetupDraft(
    allowedPairs: seq<string>, maxNotional: real, maxDailyLoss: real, maxOpenPositions: int, trainingBudget: real)

  /** The parser normalizes object ids to a 0x form, so they are never empty. */
  type ObjectId = s: string | s != "" witness "0x"

  /** A setup transaction as parsed from the chain. */
  datatype SetupTx = SetupTx(
    digest: string,
    vaultObject: ObjectId,
    policyObject: ObjectId,
    authorizedAgent: Option<string>,
    policyVersion: int,
    ownerMatches: bool,
    signerMatches: bool,
    agentConfigured: bool,
    draft: Option<SetupDraft>,
    launchPairs: seq<string>,
    vaultId: string,
    policyId: string)

  predicate DraftValid(d: SetupDraft, launchPairs: seq<string>, agentConfigured: bool) {
    && BudgetAllowed(d.trainingBudget, d.maxNotional)
    && d.allowedPairs != []
    && (forall p :: p in d.allowedPairs ==> CanonicalPair(p) in (set q | q in launchPairs :: CanonicalPair(q)))
    && d.maxNotional > 0.0
    && 0.0 < d.maxDailyLoss <= 100.0
    && d.maxOpenPositions >= 1
    && agentConfigured
  }

  function CanonicalPairs(pairs: seq<string>): seq<string> {
    seq(|pairs|, i requires 0 <= i < |pairs| => CanonicalPair(pairs[i]))
  }

  /** sync_setup_from_tx: a panda that has a wallet on chain never gets a second. */
  function SetupStep(s: State, tx: SetupTx): Result<State> {
    if s.vault.Some? && s.vault.value.suiObject != "" then
      if s.vault.value.createdDigest != "" && s.vault.value.createdDigest == tx.digest then Ok(s)
      else Err(VALIDATION)
    else if tx.draft.Some? && !DraftValid(tx.draft.value, tx.launchPairs, tx.agentConfigured) then Err(VALIDATION)
    else if !tx.ownerMatches then Err(OWNER_MISMATCH)
    else if !tx.signerMatches then Err(SIGNER_UNAUTHORIZED)
    else if s.account.Some? then Err(UNIQUE_VIOLATION)
    else
      var budget := if tx.draft.Some? then tx.draft.value.trainingBudget else DEFAULT_TRAINING_BUDGET;
      var pairs := if tx.draft.Some? then CanonicalPairs(tx.draft.value.allowedPairs)
                   else tx.launchPairs[..if |tx.launchPairs| < 2 then |tx.launchPairs| else 2];
      Ok(s.(vault := Some(Vault(tx.vaultId, tx.vaultObject, "active", tx.authorizedAgent, tx.policyVersion, budget,
                                tx.digest)),
            policy := Some(PolicyRow(tx.policyId, tx.policyObject, tx.authorizedAgent, pairs,
                                     if tx.draft.Some? then tx.draft.value.maxNotional else 50.0,
                                     if tx.draft.Some? then tx.draft.value.maxDailyLoss else 8.0,
                                     false, tx.policyVersion)),
            account := Some(NewAccount(Some(tx.vaultId), budget))))
  }

  // ---- Runs ----

  datatype Step =
    | Tick(input: TickInput)
    | Owner(action: OwnerAction)
    | Budget(newBudget: real)
    | Setup(tx: SetupTx)

  function Settled(s: State, r: Result<State>): State {
    if r.Ok? then r.value else s
  }

  function Next(s: State, step: Step): State {
    match step
    case Tick(t) => CommitTick(s, t).0
    case Owner(action) => Settled(s, OwnerStep(s, action))
    case Budget(newBudget) => Settled(s, UpdateBudget(s, newBudget))
    case Setup(tx) => Settled(s, SetupStep(s, tx))
  }

  function Run(s: State, steps: seq<Step>): State {
    if steps == [] then s else Next(Run(s, steps[..|steps| - 1]), steps[|steps| - 1])
  }
}
