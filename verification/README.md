# Panda trading: a verified model

Pandas are trading agents that practise on a paper ledger. On every market tick a panda's
decision pipeline scores the market, its emotion bends the score, and an executable decision
becomes an order intent that a policy gate may stop before the Training Ledger fills it and
writes a trade fact. The owner holds the wallet: pausing, revoking, tightening the policy and
changing the training budget. Trade facts are committed to Merkle batches. Around this core,
a market monitor turns fills into candles, pages and indicators, and a WebSocket hub relays
Redis channels to each user.

This project models those parts in Dafny and proves what they keep. Code that updates state
step by step (ledger and wallet services, the hub, the limiter, the emotion machine, the
actor, the pipeline's context, the ghost manager) is a class or a method proved against a
function on values, and the laws are lemmas about that function: over one call, over two
representations of the same thing, or over every run.

| file | subject |
|---|---|
| Text.dfy, Reals.dfy, Events.dfy | Option and ASCII strings, products of reals that proofs keep folded, market events and trade sides |
| Ledger.dfy | one account, its positions and one paper execution |
| PolicyGate.dfy | the policy mirror and the gate |
| TradingState.dfy | a panda's rows and the four transactions on them |
| TradingRuns.dfy, TradingLaws.dfy, TradeFacts.dfy, OrderIntents.dfy, Marks.dfy | the invariant of every run, and the laws that follow: money, log, facts, intents and marks |
| ActorWallet.dfy | the wallet as an actor knows it, and the runs of an actor beside its owner |
| Overdraft.dfy | a run that ends with negative cash |
| WalletHistory.dfy, WalletSetup.dfy | what a setup stores, what the owner's past actions say about the policy, and what the status page says |
| TrainingLedger.dfy | the same transactions as they update a session's objects in place |
| Merkle.dfy | the Merkle root and what it binds |
| Candles.dfy, CandlesPage.dfy, WalkCompleteness.dfy | candle aggregation, query windows, the page walk, and when the walk loses nothing |
| Channels.dfy, UserHub.dfy | Redis channels and the hub's subscription index |
| RateLimit.dfy | the two sliding-window limiters |
| PoolType.dfy | the parser of pool event types |
| Emotion.dfy, Actor.dfy, ActorMood.dfy | the emotion machine, the actor's deferred decision and its queue, and what a panda feels about its trades |
| RuleEngine.dfy, RuleMeanings.dfy, StrategyGhost.dfy, Pipeline.dfy, PipelineSteps.dfy | signal rules and what their texts mean, strategy ghosts, the eight-step score and each step in numbers |
| Indicators.dfy | RSI, EMA, MACD cross, moving averages and volatility |

Amounts, prices and scores are exact reals. Each service call is one atomic step; a step that
raises leaves the state as it was. Clocks, random draws, fresh ids, hashes and parsed chain
transactions are parameters.

## Findings

Where the code does less than its comments or tests suggest, the model follows the code, a
lemma gives the input, and another says exactly when the property holds.

- A revoked vault looks ready again after a plain unpause, or after pausing and tightening: the
  status page calls it ready, although the guard of a new simulation refuses it. The guard that
  should refuse the unpause asks whether the very transaction sent with it revokes, not whether
  the policy was revoked (`UnpausedRevokedWalletLooksReady`, `RevokedWalletLooksReady`,
  `UnpauseRefusedExactlyWhen`). The page says ready exactly when the last accepted owner action
  stopped nothing and there was more than tightenings since the last revocation
  (`LooksReadyExactlyWhen`). Trading stays locked all the same (`RevocationIsPermanent`).
- Tightening is never compared with what it replaces: it raises a limit exactly when its draft
  names a higher one, and it always unpauses (`TighteningLoosensExactlyWhen`,
  `TighteningCanLoosen`). One that names an order size and no budget can leave the
  order size above the budget, and nothing else can (`LeavesBudgetExactlyWhen`).
- Stored equity leaves out what the open positions cost. It can be negative, and then an order
  to sell is sized below zero and adds to the position. Three purchases and two such sales
  overdraw a wallet of 100 (`EquityLeavesOutCost`, `SaleBuysExactlyWhen`,
  `SellingOnNegativeEquityBuys`, `CashStaysNonNegativeExactlyWhen`).
- Repeating the last leaf of an odd batch leaves the Merkle root unchanged, and so does replacing
  the leaves by their parents, so the count must be stored with it (`RepeatingTheLastLeaf`,
  `ParentsHaveTheSameRoot`, `RootAndCountBind`).
- The page walk loses fills in two ways. A window with fewer candles than a page holds ends it,
  whatever lies before (`ShortWindowEndsTheWalk`, `PartlyFilledWindow`); and a window that starts
  inside the bucket of its oldest candle shows half of that candle and skips the rest for good
  (`CutBucketIsLost`, `HalfACandle`). The joined pages are the full aggregation exactly when
  every window that leaves older fills out holds more buckets than a page has candles, or as many
  and none with an older fill (`WalkIsCompleteExactlyWhen`).
- Channel lists are compared by their comma join. A command leaves the subscriber on a stale list
  exactly when the new list is not empty, differs from the live one and joins alike
  (`StaleExactlyWhen`, over whole histories `EverStaleExactlyWhen`); names with commas can do that
  (`CommasKeepAStaleSubscriber`), names without cannot (`HubAgrees`).
- A panda id with a colon never receives its own messages (`OwnMessagesExactlyWhen`).
- Names of `Object.prototype` count as subscribed, and after a subscription of `__proto__` so does
  `simulationId`, for as long as the hub lives (`ForwardedOverRuns`).
- The symbol of a generic type is clean exactly when its last argument is plain and either has
  several segments or stands alone: `LP<A::B,u64>` is called `B,u64`, `O<M<A>>` is called `A>`
  (`SymbolOfType`, `GenericEndKeepsABracket`).
- Strategy history is loaded newest first, and the last active ghost is the one blended in: after
  a start it is the oldest active strategy, not the newest (`HydrationPrefersTheOldest`,
  `OlderGhostIsBlended`). Ages are not written back, so every start brings back ghosts that
  faded since (`HydrationRestoresAges`).
- An idle decision is counted twice, once by the actor and once by the machine (`IdleCountsTwice`),
  and the branch that would calm an excited panda after losses cannot be taken (`WinsNeverCalm`).
- A purchase is reported to the emotion machine as a loss of nothing: it ends the streak of wins
  and, without the bamboo heart, all excitement (`BuyingCalms`), so a panda that buys before each
  sale never grows excited by its wins (`BuyersStayCalm`, `ExcitementNeedsThreeSales`). And since
  equity leaves out cost, a purchase looks like a drawdown: a cautious panda panics at its first
  one exactly when that leaves less cash than nine tenths of the peak, at any price
  (`FirstPurchasePanicsExactlyWhen`).
- The first decision narrows an actor that listened to everything to the asset of that decision
  (`FirstDecisionNarrows`).
- The decision's side follows the direction of the signal, not the sign of the score. The two
  agree exactly when the evidence of signal, experience and ghost, scaled, outweighs the crowd;
  with no signal, no ghost and no crowd, exactly when the correction of experience is positive
  (`ScoreSignAgreesExactlyWhen`, `SilentBuyAgreesExactlyWhen`, `BuysWithoutASignal`). Below a
  threshold of 0.40 a score executes that the pipeline's own description would ignore
  (`ZonesAreAsDocumentedExactlyWhen`).
- The MACD signal does not say which way the lines crossed, so golden-cross rules fire on
  downward crosses and death-cross rules whenever there is none (`MacdRulesSeeNoDirection`).
- Rule validation and compilation disagree about the action: an unknown or missing one is
  refused by the first and buys in the second (`ValidExactlyWhen`).

A remark on one interface: commit_tick by itself would accept a policy mirror without a policy id
and trade on it after a revocation (`StaleMirrorTradesAfterRevoke`). No actor calls it so
(`ActorTicksReadPolicy`).

## Model

| member | source | states |
|---|---|---|
| Ledger.ExecutionConserves | backend/app/services/ledger_service.py:153-224 | one execution changes cash plus cost basis by its realized profit alone, for any notional, negative ones included |
| Ledger.ExecutionKeepsShape | backend/app/services/ledger_service.py:246-261 | one row a pair, no short position, and stored equity equal to cash plus open profit less debt |
| Ledger.FilledExactlyWhen | backend/app/services/ledger_service.py:153-199 | a purchase fills iff notional and cash are positive, a sale iff the pair is held |
| Ledger.RefusedFor | backend/app/services/ledger_service.py:153-199 | a refusal names the missing balance of a purchase or the missing position of a sale |
| Ledger.CashStaysNonNegativeExactlyWhen | backend/app/services/ledger_service.py:153-207 | a filled order leaves cash non-negative iff it buys or its notional is at least minus the cash |
| Ledger.AverageBetween | backend/app/services/ledger_service.py:173-180 | the new average price lies between any bounds on the old average and the price paid |
| Ledger.ExecutionPosts | backend/app/services/ledger_service.py:153-224 | posting the entry to a cost-pool book moves it exactly as the execution moves the account |
| Marks.ExecutionMarks | backend/app/services/ledger_service.py:153-261 | a filled order of either side and any size marks the row of its pair at its own price, leaves mark, quantity and average of every other row, and values every open row at its mark |
| PolicyGate.GatePassesExactlyWhen | backend/app/services/policy_gate.py:34-111 | over the stored policy row: synced, unpaused, agent present, pair allowed up to spelling, notional within and losses below the limit |
| PolicyGate.BlockedByExactlyWhen | backend/app/services/policy_gate.py:55-111 | each of the seven codes, as an iff over the stored row: the first condition that fails, in the order of the source |
| Text.NormalizeIdempotent | backend/app/services/policy_compatibility.py:42-43 | normalizing a stored pair again changes nothing |
| Text.CaseOfLetters | backend/app/services/policy_compatibility.py:42-43 | the k-th small letter has the k-th capital and back, and nothing else changes |
| Text.Blanks | backend/app/services/policy_compatibility.py:42-43 | blank are the space, the tab, the two line ends and the two feeds |
| Text.SameSpellingExactlyWhen | backend/app/services/policy_compatibility.py:42-43 | two spellings are of one pair iff, blanks around them apart, they agree character by character up to case and the three separators |
| TradingRuns.ExecutesExactlyWhen | backend/app/services/trade_fact_writer.py:96-361 | a tick executes iff it trades, its keys are fresh, the gate passes it and the ledger fills it |
| TradingRuns.OtherTicksTouchNothing | backend/app/services/trade_fact_writer.py:147-217 | a HOLD or rejected tick adds at most a non-executed intent and the account's first row |
| TradingRuns.ExecutedTick | backend/app/services/trade_fact_writer.py:188-273 | the whole effect of an executed tick: account, rows, one intent, one fact, one entry |
| TradingRuns.InvOverRuns | backend/app/services/trade_fact_writer.py:96-361 | rows, log, history, book and stop invariants hold after every run of ticks, owner actions, budget changes and setups |
| TradingLaws.StepConserves | backend/app/services/agent_wallet.py:597-631 | any step changes cash plus cost less realized profit by the budget difference alone |
| TradingLaws.MoneyIsConserved | backend/app/services/ledger_service.py:125-261 | after every run with a wallet: cash + cost of positions = training budget + realized profit |
| TradingLaws.EquityLeavesOutCost | backend/app/services/ledger_service.py:246-261 | after every run stored equity falls short of the account's value by exactly the cost of its positions |
| TradingLaws.ExecutedExactlyWhenLogged | backend/app/services/trade_fact_writer.py:188-273 | after every run an intent is EXECUTED iff exactly one fact and one entry name it, and otherwise none do |
| TradingLaws.EntriesRebuildTheAccount | backend/app/services/ledger_service.py:138-244 | replaying the entries with the budget gives cash, realized profit, quantities and average costs, each average within the prices paid since the position was empty |
| TradingLaws.FactsChain | backend/app/services/trade_fact_writer.py:218-252 | between budget changes each fact's before-snapshot is the previous after-snapshot, up to the present account |
| TradingLaws.PositionsPassBetweenFacts | backend/app/services/trade_fact_writer.py:218-252 | positions and realized profit pass from fact to fact even across budget changes |
| TradingLaws.EveryFactPassedItsPolicy | backend/app/services/policy_gate.py:55-111 | after every run each fact was allowed by the snapshot it carries: synced, agent present, unpaused, pair allowed, notional within its limit, the day's realized losses so far strictly below theirs |
| TradeFacts.EveryFactAddsUp | backend/app/services/ledger_service.py:138-244 | after every run each fact's snapshots differ by exactly its trade: a purchase spends its notional out of the cash, a sale brings its notional or all that is held, realizes the difference to its cost, and no other holding moves |
| TradeFacts.FactAddsUp | backend/app/services/trade_fact_writer.py:124-133 | the same for the fact and entry of one filled order, of any size and sign |
| OrderIntents.RecordedIntent | backend/app/services/trade_fact_writer.py:114-217 | every recorded tick, held, rejected or executed, adds one intent: nothing for a HOLD, the share of the equity for an order, at most the cash for a purchase; its price is the reference unless missing or zero; its version that of the policy read; the other intents stay |
| OrderIntents.AccountOfTick | backend/app/services/trade_fact_writer.py:125-133 | a HOLD looks for no account; a rejected order finds the stored one or opens one with the initial capital |
| OrderIntents.VaultOfAccount | backend/app/services/ledger_service.py:43-72 | an executed tick keeps the account in its vault, or opens it in the tick's |
| OrderIntents.IntentsAgreeWithFacts | backend/app/services/trade_fact_writer.py:188-273 | after every run size, policy version, pair and side of an intent are those of its fact, and its reference price, raised to 1e-9, is the price of its entry |
| OrderIntents.IntentsAreFinal | backend/app/services/trade_fact_writer.py:188-231 | no later step takes an intent back or rewrites it |
| Marks.RowsAreMarkedAtLastPrices | backend/app/services/ledger_service.py:246-261 | after every run each row is marked at the last trade of its pair, and the equity in each fact is its cash plus, over its open rows, the quantity times the last price less the average |
| TradeFacts.PriceOfTrade | backend/app/services/trade_fact_writer.py:118 | an executed trade is priced by the reference unless that is missing or zero, then by the market, and in both cases raised to 1e-9 |
| TradeFacts.DecisionsAreUnique | backend/app/db/models.py:417 | no run records a decision twice: intents stem from different decisions, facts and entries have ids of their own |
| TradeFacts.MillionthsAreNearest | backend/app/services/trade_fact_writer.py:45 | the score in a decision is rounded to the nearest millionth, ties to even |
| TradingLaws.DayOvershootsByOneTrade | backend/app/services/ledger_service.py:113-123 | the losses of a day less the last of them stay below that trade's limit |
| TradingLaws.LockedRunsExecuteNothing | backend/app/services/agent_wallet.py:491-536 | from a revoked, paused or loss-stopped state no run of ticks that read the policy, and that respects the lock, changes rows, facts, entries or realized profit; revocation survives every owner action, setup and budget change |
| TradingLaws.OwnerLocks | backend/app/services/agent_wallet.py:491-509 | revoke and pause lock at once |
| TradingLaws.RevokedTickExecutesExactlyWhen | backend/app/services/trade_fact_writer.py:73-94 | for commit_tick alone: after a revocation a call executes iff it brings a mirror and no policy id, the mirror passes the gate and the ledger fills it |
| TradingLaws.StoredPolicyDecides | backend/app/services/trade_fact_writer.py:73-217 | end to end, in every reachable state: a tick that names its policy executes iff the stored rows allow it (vault named and on chain, unpaused, agent, pair, limits), its keys are new and there is something to fill it with |
| TradingLaws.StaleMirrorTradesAfterRevoke | backend/app/services/trade_fact_writer.py:81-82 | commit_tick accepts such a call; ActorTicksReadPolicy says that no actor makes it |
| ActorWallet.ActorState.Hydrate | backend/app/engine/panda_actor.py:84-106 | sets both ids and the mirror together, and nothing when there is no policy |
| ActorWallet.ActorTicksReadPolicy | backend/app/engine/panda_actor.py:338-375 | after every run of hydrations, restarts, ticks and owner actions, a tick of the actor names its policy or brings no mirror |
| ActorWallet.ActorKnowsTheWallet | backend/app/engine/panda_actor.py:84-106 | after every run an actor that was hydrated from a stored policy since it started knows the ids of the panda's vault and policy; any other knows nothing |
| ActorWallet.ActorExecutesExactlyWhen | backend/app/engine/panda_actor.py:338-375 | from decision to trade over all runs: executed iff the actor has been hydrated so and the stored rows allow and fill the order |
| ActorWallet.LocksHoldForActors | backend/app/engine/panda_actor.py:360-375 | from every reachable locked state a run that respects the lock executes nothing, for any ticks of the actor |
| ActorWallet.RevocationIsPermanent | backend/app/services/agent_wallet.py:504-509 | after an accepted revocation nothing that actor, owner or setup can do, in any order and across restarts, executes a trade |
| ActorWallet.PauseHolds | backend/app/services/agent_wallet.py:491-494 | after an accepted pause nothing executes until an unpause or a tightening |
| TradingLaws.CashAndQuantitiesStayNonNegative | backend/app/services/ledger_service.py:153-207 | quantities never go negative in any run, nor does cash while no order is sized below zero |
| Overdraft.SellingOnNegativeEquityBuys | backend/app/services/trade_fact_writer.py:124-133 | a run from an empty state, every order sized at a quarter of the equity: after three purchases and a fall of the price an order to sell buys 37968.75 units, and a second one takes cash below zero |
| Overdraft.SaleBuysExactlyWhen | backend/app/services/trade_fact_writer.py:124-133 | in every reachable state an executed order to sell adds to its position and takes cash iff its share and the equity (the initial capital if that is zero) have opposite signs |
| WalletHistory.PolicyTellsHistory | backend/app/services/agent_wallet.py:491-536 | after every run the policy is paused iff the last accepted owner action was a pause or revocation, and its agent is the one set up until the first accepted revocation |
| WalletSetup.SetupAcceptedExactlyWhen | backend/app/services/agent_wallet.py:340-384 | a first setup is accepted iff its draft keeps to the rules, spelled out, and sender, signer and account allow it; a second one only under the first one's digest |
| WalletSetup.SetupStores | backend/app/services/agent_wallet.py:386-452 | field by field: the draft's order size, daily loss, budget, and pairs up to spelling, or the defaults; budget as cash and equity; agent, version, status, ids |
| WalletSetup.LimitsTellHistory | backend/app/services/agent_wallet.py:510-534 | after every run order size, daily loss and pairs are the opening draft's until an accepted tightening names others, and then those of the last that did; the version is the highest named; the vault carries the policy's version and agent |
| WalletSetup.BudgetChangeStores | backend/app/services/agent_wallet.py:597-686 | when a budget change is accepted, exactly, and that it stores the budget and moves cash and equity by the difference and nothing else |
| WalletHistory.BudgetStaysAllowed | backend/app/services/agent_wallet.py:72-94 | after every run the training budget is within its bounds, and covers the order size as long as no tightening outgrew it |
| WalletHistory.LeavesBudgetExactlyWhen | backend/app/services/agent_wallet.py:510-534 | one step takes the order size out of the budget iff it is an accepted tightening that names a larger size and no budget |
| WalletHistory.TighteningCanLoosen | backend/app/services/agent_wallet.py:510-534 | any limits at all, higher ones and ones above the budget included, replace the policy's and unpause it |
| WalletHistory.TighteningLoosensExactlyWhen | backend/app/services/agent_wallet.py:510-534 | for any draft: an accepted tightening raises a limit iff the draft names a higher one, and newly allows a pair iff the draft lists one not allowed before, up to spelling; it unpauses |
| WalletHistory.TighteningAcceptedExactlyWhen | backend/app/services/agent_wallet.py:510-534 | it is refused iff it names a budget out of bounds, below the order size it leaves, or below what the account can give back |
| WalletHistory.StatusLooksReadyExactlyWhen | backend/app/services/agent_wallet.py:313-319 | a wallet ever revoked is never ready, and the status page says ready iff the guard (lines 555-578) finds nothing but the missing agent |
| WalletHistory.StatusTellsHistory | backend/app/services/agent_wallet.py:491-534 | after every run the vault has the status that the accepted owner actions made of it |
| WalletHistory.LooksReadyExactlyWhen | backend/app/services/agent_wallet.py:313-319 | after every run the page says ready iff a setup opened the wallet, the last accepted action did not stop it, and more than tightenings came since the last revocation; after a revocation the guard then finds the agent missing |
| WalletHistory.RevokedWalletLooksReady | backend/app/services/agent_wallet.py:505-534 | revoking, pausing and tightening any wallet makes it look ready |
| WalletHistory.UnpausedRevokedWalletLooksReady | backend/app/services/agent_wallet.py:495-509 | unpausing a revoked wallet is enough to make it look ready, and it is not |
| WalletHistory.FlagExactlyWhen | backend/app/services/agent_wallet_event_parser.py:151-205 | the parser finds an owner action iff the last event of some kind of the owner's has a payload, and flags it iff that is so for revocations |
| WalletHistory.UnpauseRefusedExactlyWhen | backend/app/services/agent_wallet_event_parser.py:151-205 | unpausing is refused for revocation iff the last revocation event of that same transaction revokes the agent |
| TrainingLedger.Session.FindOrCreateAccount | backend/app/services/ledger_service.py:43-72 | the stored account if there is one, else a fresh one with the capital |
| TrainingLedger.Session.RefreshEquity | backend/app/services/ledger_service.py:246-261 | marks every open row and sets open profit and equity |
| TrainingLedger.Session.ApplyExecution | backend/app/services/ledger_service.py:125-244 | in place, the account, rows and entry of the execution function; a refusal changes nothing |
| TrainingLedger.Session.Commit | backend/app/services/trade_fact_writer.py:96-361 | in place, the transaction that the run laws are about |
| TrainingLedger.Session.ApplyTrainingBudgetChange | backend/app/services/agent_wallet.py:597-631 | the same difference to vault, cash and equity, or no change and a refusal |
| TrainingLedger.Session.UpdateTrainingBudget | backend/app/services/agent_wallet.py:657-686 | the budget step of the runs |
| TrainingLedger.Session.SyncOwnerAction | backend/app/services/agent_wallet.py:463-552 | the owner step of the runs, rolled back when it raises |
| TrainingLedger.Session.TightenLimits | backend/app/services/agent_wallet.py:510-534 | new limits, refunding and reopening; a revoked vault stays revoked |
| TrainingLedger.Session.SyncSetup | backend/app/services/agent_wallet.py:333-460 | the setup step: a panda that has a wallet never gets a second |
| Merkle.ComputeMerkleRoot | backend/app/engine/merkle_worker.py:20-35 | fails iff a leaf is not hexadecimal, else the digest of the top-down tree |
| Merkle.LevelsAreTheTree | backend/app/engine/merkle_worker.py:25-35 | the bottom-up loop computes the top-down tree with self-paired ends |
| Merkle.TreeOfLevel | backend/app/engine/merkle_worker.py:27-33 | building one level does not change the root |
| Merkle.RootAndCountBind | backend/app/engine/merkle_worker.py:20-35 | equal roots over equally many leaves of one size: equal leaves, or a collision among the hashed inputs |
| Merkle.RepeatingTheLastLeaf | backend/app/engine/merkle_worker.py:27-29 | for every odd count of three or more the last leaf can be repeated |
| Merkle.ParentsHaveTheSameRoot | backend/app/engine/merkle_worker.py:25-35 | every batch of two or more has the root of the smaller batch of its parents |
| Merkle.BoundariesCanMove | backend/app/engine/merkle_worker.py:30-33 | without one leaf size, different leaves have one root |
| Merkle.HexRoundTrip | backend/app/engine/merkle_worker.py:25-35 | decoding a digest's text gives the digest back |
| Merkle.DigitsExactly | backend/app/engine/merkle_worker.py:25-35 | the sixteen digits in either case, their values, and no others |
| Merkle.BatchBindsItsLeaves | backend/app/engine/merkle_worker.py:38-101 | a persisted root and count determine the batch's leaves, or the hash collides |
| Candles.SortIsStable | market-monitor/pipeline/kline_aggregate.py:49 | the sort is ordered, keeps every row and keeps equal times in order |
| Candles.SupportedIntervalsDivide | market-monitor/pipeline/kline_aggregate.py:9-16 | of two supported intervals the longer is a multiple of the shorter |
| Candles.IntervalsLastWhatTheySay | market-monitor/pipeline/kline_aggregate.py:9-31 | six texts are supported, and each lasts its number times its unit in seconds |
| Candles.BucketsNest | market-monitor/pipeline/kline_aggregate.py:34-37 | the coarse bucket of a second is that of its fine bucket |
| Candles.FillBuckets | market-monitor/pipeline/kline_aggregate.py:48-51 | each bucket holds exactly its fills, in order |
| Candles.CandleOf | market-monitor/pipeline/kline_aggregate.py:55-68 | one window's candle is the merge of its ticks |
| Candles.FillsToCandles | market-monitor/pipeline/kline_aggregate.py:40-69 | from the interval's text: the last limit candles of the aggregation at its length, nothing for nothing, and an error for an unsupported interval |
| Candles.MergeAllMeans | market-monitor/pipeline/kline_aggregate.py:56-67 | first open, greatest high, least low, last close, volume sum |
| Candles.CoarseIsFineRolledUp | market-monitor/pipeline/kline_aggregate.py:34-69 | rolling up the fine candles gives the coarse ones, for any fills and any dividing interval |
| Candles.CoarseCandlesMergeFineOnes | market-monitor/pipeline/kline_aggregate.py:34-69 | each coarse candle merges exactly the fine candles of its bucket |
| CandlesPage.PageCandles | market-monitor/candles_page.py:56-83 | a page is the last candles of its query window; trimming takes nothing away |
| CandlesPage.ClampsExactly | market-monitor/candles_page.py:24-25 | a page holds as many candles as asked for, within 1 and 500 |
| CandlesPage.OlderThanMeans | market-monitor/candles_page.py:58-59 | trimming at a cursor keeps exactly the candles before it |
| CandlesPage.WindowSeesTheHistory | market-monitor/candles_page.py:33-62 | when n candles start in the window, its last n are those of the whole history before the cursor |
| CandlesPage.WalkDescends | market-monitor/candles_page.py:65-83 | following the cursor ends, and the joined pages are strictly ascending and before it |
| CandlesPage.WalkIsComplete | market-monitor/candles_page.py:28-83 | with a fill in every bucket since the floor, the joined pages are the full aggregation |
| CandlesPage.GapEndsTheWalk | market-monitor/feed/fills_client.py:304-385 | a window without fills shows nothing at all, and that is complete iff nothing older was left |
| WalkCompleteness.WalkIsCompleteExactlyWhen | market-monitor/candles_page.py:56-83 | for fills of positive quantity: the joined pages are the full aggregation since the floor iff every page covers, that is: if fills are older than its window, the window holds fills of more buckets than the page has candles, or of as many and none with an older fill |
| WalkCompleteness.CoversExactlyWhen | market-monitor/candles_page.py:65-83 | a page covers iff whatever is older than its window is also older than the next cursor |
| WalkCompleteness.NextCursorExactlyWhen | market-monitor/candles_page.py:71-77 | there is a next page from b iff b is the limit-th newest bucket of the window and above the floor |
| WalkCompleteness.PageContinuesExactlyWhen | market-monitor/candles_page.py:65-83 | a page with a next one holds everything from its cursor on iff it covers |
| WalkCompleteness.LastPageExactlyWhen | market-monitor/candles_page.py:65-83 | the last page is all there is iff it covers |
| WalkCompleteness.ShortWindowEndsTheWalk | market-monitor/candles_page.py:75-77 | a window with fewer candles than a page ends the walk, and its page is complete iff nothing older is left |
| WalkCompleteness.CutBucketIsLost | market-monitor/feed/fills_client.py:334-384 | when the window starts inside the oldest bucket and leaves out a fill of it, the walk is incomplete |
| WalkCompleteness.PartlyFilledWindow | market-monitor/candles_page.py:75-77 | a window with one candle of 150 hides an older fill |
| WalkCompleteness.HalfACandle | market-monitor/candles_page.py:50-53 | a window that starts in the middle of a minute shows its second trade as the whole candle |
| WalkCompleteness.AggregateVolume | market-monitor/pipeline/kline_aggregate.py:40-69 | aggregation keeps the traded volume |
| Channels.CollectRedisChannels | websocket/src/channels.ts:56-75 | the sorted duplicate-free list of the subscriptions' channels |
| UserHub.ListedExactlyWhen | websocket/src/channels.ts:25-75 | in literal names: a channel is listed iff it is one of the five of a subscribed panda, the ticks of a named pair, or its one-minute candles when the interval is 1m; a pair is named by a non-blank stripped name or an upper-cased asset with -USDC |
| UserHub.MarketListedExactlyWhen | websocket/src/channels.ts:29-45 | market:tick: and a name is listed iff the market names it, market:candles:1m: iff the interval is 1m as well |
| UserHub.HubAsksExactlyFor | websocket/src/user-hub.ts:289-296 | after every history the hub's list holds exactly these |
| Channels.ListsUnique | websocket/src/channels.ts:74 | there is only one such list |
| Channels.PrecedesExactlyWhen | websocket/src/channels.ts:74 | the order of the list: a name comes first if it is a proper beginning, or has the smaller code unit where the two part |
| Channels.ParsesExactlyWhen | websocket/src/channels.ts:47-50 | the pattern matches exactly the channels of non-empty ids without colons |
| Channels.ForwardedExactlyWhen | websocket/src/channels.ts:92-105 | for all subscriptions and names: forwarded iff the listed channel can be read, as a panda or a market channel, or its id is inherited |
| Channels.ForwardedExactlyWhenListed | websocket/src/channels.ts:92-105 | a channel is forwarded iff it is in the list or its id is an inherited name, when no subscribed id is empty or has a colon |
| Channels.OwnMessagesExactlyWhen | websocket/src/channels.ts:47-105 | a subscribed panda's messages are listed, and come through iff its id has a character and no colon |
| UserHub.UserHub.RefreshRedisSubscriber | websocket/src/user-hub.ts:298-332 | stops on an empty list, keeps on an equal join, else replaces the subscriber |
| UserHub.UserHub.Handle | websocket/src/user-hub.ts:237-296 | each command is the step that the runs are about |
| UserHub.SubscriptionsFollowCommands | websocket/src/user-hub.ts:237-287 | after every sequence a panda is subscribed iff the last command about it subscribed it, and the market is that of the last accepted market command |
| UserHub.RefusedExactlyWhen | websocket/src/user-hub.ts:187-287 | a command is refused iff it subscribes no panda, a market without any asset or pair, or is no subscription command |
| UserHub.ForwardedOverRuns | websocket/src/channels.ts:92-99 | after every sequence a panda's messages come through iff its id is readable and was last subscribed, or is in Object.prototype, or is simulationId and __proto__ was ever subscribed |
| UserHub.ReprototypedExactlyWhen | websocket/src/user-hub.ts:237-260 | the prototype of the record is replaced from the first __proto__ subscription on |
| UserHub.JoinInjective | websocket/src/user-hub.ts:303-306 | on non-empty lists of comma-free names the join determines the list |
| UserHub.HubAgrees | websocket/src/user-hub.ts:237-340 | after every sequence of comma-free commands the list is the image of the subscriptions and a live subscriber listens to exactly it |
| UserHub.StaleExactlyWhen | websocket/src/user-hub.ts:298-332 | after any history, a command or connection leaves the subscriber on another list iff the new list is not empty, not the live one, and has the same join |
| UserHub.EverStaleExactlyWhen | websocket/src/user-hub.ts:298-340 | over a whole history the subscriber was on a wrong list at some moment iff some command collided in that way |
| UserHub.CommasKeepAStaleSubscriber | websocket/src/user-hub.ts:303-306 | with a comma in a name the old subscriber stays |
| RateLimit.Limiter.Allow | websocket/src/user-hub.ts:407-419 | refuses iff the recent times fill the quota, and then changes nothing |
| RateLimit.PruningForgetsNothing | backend/app/services/strategy_rate_limit.py:15-25 | the pruned bucket and the full history agree on what is recent, at every later time |
| RateLimit.AllowedExactlyWhen | websocket/src/user-hub.ts:411-415 | allowed iff fewer than limit were accepted for the key in the last window |
| RateLimit.NoBurst | backend/app/services/strategy_rate_limit.py:15-25 | no span shorter than the window holds more than limit accepted requests |
| RateLimit.QuotasInUse | websocket/src/user-hub.ts:407-419 | the two quotas: of eleven accepted messages some span a second, of six accepted parses (strategy_rate_limit.py) a minute |
| RateLimit.QuotasAllowExactlyWhen | websocket/src/user-hub.ts:407-419 | a message is let through iff fewer than ten were in the last second, a parse iff fewer than five in the last minute |
| PoolType.FindClose | market-monitor/feed/sui_pool_client.py:35-50 | the scan returns the first closing bracket at depth zero |
| PoolType.CloseMatches | market-monitor/feed/sui_pool_client.py:35-50 | over balanced text the scan stops at the matching bracket |
| PoolType.CloseExactlyWhen | market-monitor/feed/sui_pool_client.py:36-48 | on any text the scan stops at k iff a closing bracket stands there behind balanced text |
| PoolType.SplitTopLevelTypes | market-monitor/feed/sui_pool_client.py:78-92 | the loop computes the split at top-level commas |
| PoolType.SplitUndoesJoin | market-monitor/feed/sui_pool_client.py:78-92 | balanced types without top-level commas come back from their comma join |
| PoolType.JoinUndoesSplit | market-monitor/feed/sui_pool_client.py:78-92 | on any text the pieces at top-level commas, before stripping, join to the text |
| PoolType.SymbolOfType | market-monitor/feed/sui_pool_client.py:65-75 | for types nested to any depth with any number of arguments: the symbol is free of brackets and commas iff the last argument is plain and has several segments or stands alone, and then it is that argument's last segment |
| PoolType.NestedSymbolKeepsABracket | market-monitor/feed/sui_pool_client.py:65-75 | in a nest of single arguments the symbol is the innermost segment and a bracket |
| PoolType.GenericEndKeepsABracket | market-monitor/feed/sui_pool_client.py:65-75 | whenever the last argument is generic the symbol ends in a bracket |
| PoolType.SymbolOfText | market-monitor/feed/sui_pool_client.py:65-75 | on any text the symbol is the last segment of what stands between the last brackets, if anything does, and else of all |
| PoolType.PoolNameFromPoolCreatedType | market-monitor/feed/sui_pool_client.py:21-62 | the loop and its exits compute the name function that NamedExactlyWhen is about |
| PoolType.NamedExactlyWhen | market-monitor/feed/sui_pool_client.py:27-62 | for any text at all: it has a name iff the needle occurs, its bracket closes and exactly two arguments with symbols stand between, and the name is theirs |
| PoolType.PoolNameOfType | market-monitor/feed/sui_pool_client.py:21-62 | the event type of any two types is named by their two symbols, and the name is clean and BASE_QUOTE iff both are readable |
| Emotion.EmotionContext.Transition | backend/app/engine/emotion_state_machine.py:36-68 | in place, the step that the runs are about |
| Emotion.RunsAreSound | backend/app/engine/emotion_state_machine.py:36-106 | from focused: streaks exclude one another, excitement needs three wins and greed five, the bamboo heart never panics or numbs |
| Emotion.StoredRunsAreSound | backend/app/engine/panda_actor.py:121-124 | from any stored mood with fresh counts: streaks exclude one another; excitement or greed without its streak is the stored one, with no loss since; a bamboo heart is panicking or numb only if it woke so and nothing troubled it |
| Emotion.FearNeverLessens | backend/app/engine/emotion_state_machine.py:74-106 | cautious, panicking and numb only deepen without the calming item |
| Emotion.WinsNeverCalm | backend/app/engine/emotion_state_machine.py:74-81 | a win leaves a panda focused only if it was focused with fewer than two wins |
| Emotion.IdlesCountSinceWin | backend/app/engine/emotion_state_machine.py:50-66 | from a hydration on the idle count is that of the idle events since the last win |
| Emotion.BambooHearts | backend/app/engine/emotion_state_machine.py:83-106 | any drawdown and any loss over 5% make a bamboo heart cautious, a smaller loss changes nothing |
| Emotion.CalmBambooFocuses | backend/app/engine/emotion_state_machine.py:47-48 | the calming item ends focused from every mood and keeps the counts |
| Emotion.FearHasReasons | backend/app/engine/emotion_state_machine.py:83-106 | caution needs a loss over 5%, panic a drawdown over 10% after it, numbness ten idle events as well |
| Emotion.WayDown | backend/app/engine/emotion_state_machine.py:83-106 | where a loss, a drawdown and n idle events lead, for every size and n |
| Emotion.WinsAlone | backend/app/engine/emotion_state_machine.py:74-81 | wins alone excite at the third and make greedy at the fifth |
| Emotion.IdleCountsTwice | backend/app/engine/panda_actor.py:302-306 | idle decisions of the actor advance the count by two each |
| Emotion.EmotionContext.ReportIdle | backend/app/engine/panda_actor.py:304-305 | counts the idle decision and reports it, which counts it again |
| ActorMood.Feel | backend/app/engine/panda_actor.py:401-425 | in place, the judgement of a trade or an idle tick that the lives are about |
| ActorMood.MoodOfTrade | backend/app/engine/panda_actor.py:400-425 | a trade is a win iff it realized a profit, and frightens as well iff it leaves less than nine tenths of the peak |
| ActorMood.MoodOfTick | backend/app/engine/panda_actor.py:300-306 | any other tick changes nothing when it or its order fails, and counts as idle when it only watches |
| ActorMood.LivesAreRuns | backend/app/engine/panda_actor.py:377-425 | the rows of a life are those of the run of its steps |
| ActorMood.PeakIsHighest | backend/app/engine/panda_actor.py:409-415 | the peak that drawdowns are measured from is the highest equity after any trade since the hydration, or the first one |
| ActorMood.StreakCountsSales | backend/app/engine/panda_actor.py:401-425 | over every run from a hydration on, the streak of wins is the number of profitable facts at the end, and purchases realize nothing |
| ActorMood.ExcitementNeedsThreeSales | backend/app/engine/panda_actor.py:415-420 | a panda grows more excited than it woke up only after three profitable sales in a row without a purchase between |
| ActorMood.BuyersStayCalm | backend/app/engine/panda_actor.py:415-420 | a panda that buys before each sale never has a streak of two and never grows more excited |
| ActorMood.BuyingCalms | backend/app/engine/panda_actor.py:415-424 | an executed purchase ends the streak of wins and, without the bamboo heart, all excitement, and lessens no fear |
| ActorMood.FirstPurchasePanicsExactlyWhen | backend/app/engine/panda_actor.py:407-424 | a cautious panda panics at its first purchase iff that leaves less cash than nine tenths of its peak |
| Actor.PandaActor.EnqueueTick | backend/app/engine/panda_actor.py:144-154 | an accepted event is queued, the oldest making room; others change nothing |
| Actor.PandaActor.OnTick | backend/app/engine/panda_actor.py:175-222 | in place, the step that the runs are about |
| Actor.HeldAsStaleExactlyWhen | backend/app/engine/market_event.py:67-75 | a tick is held as stale iff the market says so, its health is one of four, or its data is over 120 seconds old, and then what is pending stays |
| Actor.DefersExactlyWhen | backend/app/engine/panda_actor.py:211-222 | with nothing pending a tradeable tick defers iff it is to execute after a delay, and is applied at once otherwise |
| Actor.DeferredDecisionsComeDue | backend/app/engine/panda_actor.py:175-222 | a decision with delay d is applied on the d-th later tradeable tick with its own event, and nothing is decided between |
| Actor.DeferredOnceReleasedOnce | backend/app/engine/panda_actor.py:180-190 | over every run, each deferred decision was released once or is the one pending |
| Actor.QueueHoldsTheNewest | backend/app/engine/panda_actor.py:144-154 | the queue holds the newest accepted events, at most 64, in order; nothing is delivered twice |
| Actor.OnlyTheOldestAreLost | backend/app/engine/panda_actor.py:144-154 | without deliveries the queue is the last 64 of everything accepted |
| Actor.AcceptsExactlyWhen | backend/app/engine/panda_actor.py:127-136 | an asset is accepted iff nothing is subscribed or some subscription normalizes to it |
| Actor.FirstAssetsStay | backend/app/engine/panda_actor.py:138-142 | after any run of decisions the list is the first assets seen, as many as focus allows |
| Actor.AssetsOnce | backend/app/engine/panda_actor.py:138-142 | each asset is listed once, and one more is allowed for every 25 points of focus |
| Actor.FirstDecisionNarrows | backend/app/engine/panda_actor.py:127-142 | after one decision an empty list accepts exactly the names of that asset |
| RuleEngine.CompileRules | backend/app/engine/rule_engine.py:35-46 | the loop computes the compiled tests of the rules in order |
| RuleEngine.MatchSignalDetail | backend/app/engine/rule_engine.py:53-73 | hits of both sides, the signed strength, and exactly the firing tests in ascending order |
| RuleEngine.SignedStrength | backend/app/engine/rule_engine.py:53-73 | the strength is in [-1, 1], points where more tests fire, and is 1 iff all of a non-empty list fire to buy |
| RuleEngine.SwappedRulesNegate | backend/app/engine/rule_engine.py:53-73 | exchanging buying and selling negates the strength |
| RuleMeanings.StrengthIsAverage | backend/app/engine/rule_engine.py:53-73 | the strength of any strategy is the average of its rules' strengths over those that compile |
| RuleMeanings.RsiRules | backend/app/engine/rule_engine.py:86-90 | an RSI rule whose condition mentions below, less or < counts iff RSI is below its threshold, else one that mentions above, greater or > iff RSI is above it |
| RuleMeanings.PriceRules | backend/app/engine/rule_engine.py:111-115 | the same for PRICE, looking for above first |
| RuleMeanings.CrossRules | backend/app/engine/rule_engine.py:92-102 | a moving-average rule counts iff the price passes the average on this tick, in the direction named |
| RuleMeanings.MacdRules | backend/app/engine/rule_engine.py:104-109 | a MACD rule counts iff the signal's text is one of its four |
| RuleMeanings.OtherRules | backend/app/engine/rule_engine.py:83-117 | a rule on any other indicator never counts |
| RuleEngine.ValidateSignalRules | backend/app/engine/rule_engine.py:145-166 | reports exactly the invalid rules; when there are none every rule compiles |
| RuleEngine.ValidExactlyWhen | backend/app/engine/rule_engine.py:124-142 | a rule is valid iff it compiles and names BUY or SELL itself |
| StrategyGhost.GhostManager.AddGhost | backend/app/engine/strategy_ghost.py:36-38 | drops the expired ghosts and appends a new one |
| StrategyGhost.GhostManager.OnTrade | backend/app/engine/strategy_ghost.py:54-56 | every ghost ages by one trade |
| StrategyGhost.GhostManager.Hydrate | backend/app/engine/panda_loader.py:104-131 | replaces the list by the stored rows with a weight and a strategy, in their order, newest first |
| StrategyGhost.PruningForgetsNoGhost | backend/app/engine/strategy_ghost.py:36-52 | from any list and after every run, hydrations included, the pipeline is given what the unpruned history would give |
| StrategyGhost.BlendedWeight | backend/app/engine/strategy_ghost.py:40-52 | the weight is at most a half and positive iff there is a strategy to blend |
| StrategyGhost.GhostsFade | backend/app/engine/strategy_ghost.py:8-56 | for any starting list: ghost k is the one blended in iff it has fewer than 300 trades and every later one has 300 or more |
| StrategyGhost.AddedGhostFades | backend/app/engine/strategy_ghost.py:36-56 | a strategy given up by add_ghost is blended in for exactly its next 300 trades |
| StrategyGhost.SingleGhostFades | backend/app/engine/strategy_ghost.py:8-15 | a single strategy given up weighs 40% for its first 50 trades, 20% up to 150, 8% up to 300, then nothing |
| StrategyGhost.LoadedExactlyWhen | backend/app/engine/panda_loader.py:111-131 | a stored row is loaded iff it has weight and its strategy still exists |
| StrategyGhost.HydrationPrefersTheOldest | backend/app/engine/panda_actor.py:118-120 | of a hydrated list the newest is blended in iff it is active and every older one has expired |
| StrategyGhost.HydrationRestoresAges | backend/app/engine/panda_loader.py:126-131 | after a hydration every ghost is as old as its stored row, whatever happened before |
| StrategyGhost.OlderGhostIsBlended | backend/app/engine/panda_loader.py:105-131 | of two active stored ghosts the older is blended in |
| Pipeline.SkillMemoryCorrection | backend/app/engine/decision_pipeline.py:202-222 | the loop adds up the recalled memories, capped at 0.12 |
| Pipeline.CorrectionBounds | backend/app/engine/experience_engine.py:137-162 | the experience correction lies in [-0.45, 0.67] |
| Pipeline.Step4Bounds | backend/app/engine/decision_pipeline.py:224-249 | fusion with any ghost keeps the score in [-0.225, 1.135] |
| Pipeline.BiasBounds | backend/app/engine/decision_pipeline.py:306-315 | the crowd moves a score by at most a half |
| Pipeline.PipelineContext.Personality | backend/app/engine/decision_pipeline.py:251-262 | writes threshold, delay and position factor and nothing else |
| Pipeline.PipelineContext.EmotionStep | backend/app/engine/decision_pipeline.py:317-336 | multiplies the threshold by the damped profile and writes the two modifiers |
| Pipeline.RunPipeline | backend/app/engine/decision_pipeline.py:72-132 | the whole tick computes the decision function, its context included |
| Pipeline.PipelineBounds | backend/app/engine/decision_pipeline.py:134-348 | for any rules, memories, ghosts, positions, mood and draws: bounds after each step, final score within 3.05, threshold in 0.34..1.3, delay at most 4 |
| Pipeline.BoundIsReached | backend/app/engine/decision_pipeline.py:134-348 | a score of 3.0476875 is reached |
| Pipeline.ExecutesExactlyWhen | backend/app/engine/decision_pipeline.py:338-348 | a decision executes iff the score's magnitude passes the threshold, and the signal's direction names the side |
| Pipeline.ScoreSignAgreesExactlyWhen | backend/app/engine/decision_pipeline.py:117-118 | over the inputs: an executed action agrees with the sign of the score iff the evidence of signal, experience and ghost, times the factors of personality and environment, plus the bias of the crowd is positive |
| Pipeline.SocialScore | backend/app/engine/decision_pipeline.py:85-109 | the score before the emotion step is linear in the evidence |
| Pipeline.AloneAgreesExactlyWhen | backend/app/engine/decision_pipeline.py:306-308 | without a social signal it agrees iff the evidence is positive |
| Pipeline.GoodExperienceAgrees | backend/app/engine/decision_pipeline.py:181-200 | it agrees whenever neither the correction nor the crowd's bias is negative |
| Pipeline.SilentExactlyWhen | backend/app/engine/decision_pipeline.py:134-170 | the raw score is zero iff the rules cancel out and no intuition strikes; then there is no direction |
| Pipeline.SilentBuyAgreesExactlyWhen | backend/app/engine/decision_pipeline.py:338-345 | without signal and ghost an executed action is a buy, with a positive score iff the scaled correction outweighs the bias, and iff the correction is positive when there is no social signal |
| Pipeline.BuysWithoutASignal | backend/app/engine/decision_pipeline.py:338-345 | with no firing rule and a score of -1.1253125 the pipeline buys |
| Pipeline.ZonesAreAsDocumentedExactlyWhen | backend/app/engine/decision_pipeline.py:1-7 | the described zones hold for every score iff the threshold is at least 0.40 |
| Pipeline.ExperienceHelps | backend/app/engine/decision_pipeline.py:181-336 | with all else equal, no worse an experience never lowers the score, through steps 3 to 8 |
| Pipeline.EasierMoodsExecuteMore | backend/app/engine/decision_pipeline.py:30-37 | from panic to greed, what executes in one mood executes the same way in every easier one |
| Pipeline.StabilityIgnoresMood | backend/app/engine/decision_pipeline.py:317-336 | with stability 100 every mood gives the same decision |
| Pipeline.SizingBounds | backend/app/engine/panda_actor.py:308-321 | a position takes at most a quarter and has the sign of the strategy's base size; the stop is at least 3% |
| Pipeline.BolderSizesNoSmaller | backend/app/engine/decision_pipeline.py:251-262 | a bolder panda needs no higher a score and never sizes smaller, its delay and stop unchanged |
| Pipeline.PatienceWaits | backend/app/engine/decision_pipeline.py:256-257 | a decision waits at least n ticks iff patience is at least 20 (n + 1) |
| Pipeline.EachHasItsRegime | backend/app/engine/decision_pipeline.py:18-28 | each market philosophy matches in full in its own regime and nowhere else, and worst where stated |
| PipelineSteps.TrendFollowersLean | backend/app/engine/decision_pipeline.py:137-151 | a signal needs no intuition: the trend follower gains a fifth on a purchase, up to 1 from 5/6 on, and keeps four fifths on a sale; others but the contrarian take the strength as it is |
| PipelineSteps.ContrarianMirrorsTrend | backend/app/engine/decision_pipeline.py:143-151 | on the opposite signal the contrarian has the trend follower's strength and the opposite side |
| PipelineSteps.IntuitionStrikesExactlyWhen | backend/app/engine/decision_pipeline.py:153-166 | without a signal there is a direction iff the draw is below (intuition + level) x proficiency / 20000, half as much again for the intuitive; the coin says which, and the strength is that share |
| PipelineSteps.NoiseReaches | backend/app/engine/decision_pipeline.py:168-179 | noise moves the signal by at most 30%, 15% or 5% of itself, times the boldness; both ends are reached, the middle draw changes nothing, and from a proficiency of 80 on there is none |
| PipelineSteps.ExperienceAdds | backend/app/engine/experience_engine.py:137-162 | each part of the experience counts for itself, in numbers: patterns from five occurrences, phases from day 11 and day 31, mastery from 50, vigilance from 0 |
| PipelineSteps.RecalledExactlyWhen | backend/app/engine/decision_pipeline.py:202-222 | a single memory counts iff it is trusted and neither its pair, up to case, nor its regime is another; it adds 8% of its confidence, at most 0.05 |
| PipelineSteps.MemoriesAdd | backend/app/engine/decision_pipeline.py:202-222 | lists of memories add up to 0.12 in any order |
| PipelineSteps.ExperienceWeighs | backend/app/engine/decision_pipeline.py:233-241 | the shares of signal and experience at each level |
| PipelineSteps.GhostsPull | backend/app/engine/decision_pipeline.py:243-249 | a ghost of positive weight pulls the fused score towards its own strength by its weight, at most half way; any other changes nothing |
| PipelineSteps.EnvironmentLeaves | backend/app/engine/decision_pipeline.py:264-304 | the environment multiplies the score by what it leaves of 1, which is all of it iff philosophy, level, trend and holdings are as stated |
| PipelineSteps.NovicesLose | backend/app/engine/decision_pipeline.py:276-293 | below level 25 the match counts, less 30% unless full and 30% more in a bear, sideways or ranging market |
| PipelineSteps.ApprenticesLose | backend/app/engine/decision_pipeline.py:276-293 | at levels 25 to 49 a trend below 0.3 takes 15%, a partial match 30% |
| PipelineSteps.VeteransSee | backend/app/engine/decision_pipeline.py:291-304 | from level 50 on the match alone counts, halved iff another asset is held |
| PipelineSteps.CrowdMirror | backend/app/engine/decision_pipeline.py:306-315 | followers and contrarians are biased oppositely |
| PipelineSteps.CrowdPulls | backend/app/engine/decision_pipeline.py:306-315 | the bias in numbers on a rising and a falling crowd; a panda below 50 is pulled up by a rising crowd iff it is below 30 and the pull is under 0.15 |
| PipelineSteps.PatienceSteadies | backend/app/engine/decision_pipeline.py:317-324 | without a stability of its own a panda is as stable as patient; with one, patience changes the delay alone |
| PipelineSteps.UnstablePandaFeels | backend/app/engine/decision_pipeline.py:30-37 | what each mood does to score, size, stop and threshold at stability 0 |
| PipelineSteps.UnstablePandaOrders | backend/app/engine/panda_actor.py:308-321 | size and stop loss of each mood at stability 0, within a quarter and from 3% |
| PipelineSteps.StabilityDampens | backend/app/engine/decision_pipeline.py:327-335 | every point of stability takes a hundredth off what a mood adds to size, stop and threshold |
| PipelineSteps.EasierMoodsSizeNoSmaller | backend/app/engine/panda_actor.py:308-321 | from panic to greed an easier mood never sizes smaller |
| PipelineSteps.FocusedPandaTakes | backend/app/engine/panda_actor.py:308-321 | for a focused panda, threshold, size and stop loss in numbers |
| Indicators.RsiLoop | market-monitor/pipeline/indicators.py:57-71 | the loop computes RSI from the last period's gains and losses |
| Indicators.RsiIsShare | market-monitor/pipeline/indicators.py:57-71 | RSI is the percentage of gains in all movement, and 50 without movement |
| Indicators.RsiBounds | market-monitor/pipeline/indicators.py:57-71 | RSI is within 0..100 for every series |
| Indicators.RsiUnderMapping | market-monitor/pipeline/indicators.py:57-71 | under a*x+b RSI is unchanged for a > 0 and becomes 100 - RSI for a < 0 |
| Indicators.Ema | market-monitor/pipeline/indicators.py:74-81 | the loop computes the recursive average |
| Indicators.EmaMoves | market-monitor/pipeline/indicators.py:74-81 | the average starts at the first value and goes two parts in period + 1 of the way to each new one |
| Indicators.EmaWithinPrefix | market-monitor/pipeline/indicators.py:74-81 | every value lies between the least and greatest of its prefix |
| Indicators.SmaWithinWindow | market-monitor/pipeline/indicators.py:50-54 | the moving average lies between the least and greatest close of its window |
| Indicators.MacdCrossOf | market-monitor/pipeline/indicators.py:84-95 | the composed loops compute the cross |
| Indicators.MacdCrossExactlyWhen | market-monitor/pipeline/indicators.py:84-95 | there is a cross iff there are 35 closes and the 12-26 line less its 9 average has gone from one side of zero, or zero, to the other since one close ago |
| Indicators.MacdCrossUnchanged | market-monitor/pipeline/indicators.py:84-95 | the cross is unchanged under a*x+b for every a but zero |
| Indicators.MacdRulesSeeNoDirection | backend/app/engine/rule_engine.py:106-111 | golden-cross rules fire on any cross, death-cross rules on none, and mirroring changes neither |
| Indicators.TrendStrengthBounds | market-monitor/pipeline/indicators.py:35 | within 0..1, with the exact conditions of both ends |
| Indicators.VarianceLoop | market-monitor/pipeline/indicators.py:98-110 | the loops compute the mean square deviation of the window's returns |
| Indicators.CalmExactlyWhen | market-monitor/pipeline/indicators.py:98-110 | the volatility is zero iff every return in the window is the same |
| Indicators.ReturnsAreMoves | market-monitor/pipeline/indicators.py:101-104 | among prices that are not zero there is one return for each neighbouring pair, the move as a share of the earlier price |
| Indicators.SnapshotFields | market-monitor/pipeline/indicators.py:19-47 | price and previous price are the last two closes, the averages the means of the last twenty with and without the last, the volume the last candle's |
| Indicators.SnapshotsChain | market-monitor/pipeline/indicators.py:19-47 | one candle later the previous price and average are this snapshot's price and average |
| Indicators.RecentClosesDecide | market-monitor/pipeline/indicators.py:57-110 | RSI and volatility depend on the last fifteen closes alone |
| Indicators.SnapshotScales | market-monitor/pipeline/indicators.py:19-47 | in another unit prices and averages scale, and volume, RSI, cross, volatility and trend strength stay |
| Indicators.UnitDoesNotMatter | backend/app/engine/rule_engine.py:53-117 | a strategy without PRICE rules gets the same signed strength whatever the unit of the prices |
| Indicators.ThresholdRulesOnCandles | backend/app/engine/rule_engine.py:86-115 | from candles to rules: an RSI rule is judged by the RSI of the closes, a price rule by the last close |
| Indicators.CrossRulesOnCandles | backend/app/engine/rule_engine.py:92-102 | from candles to rules: a cross compares the last two closes, each with the mean of the twenty closes up to it |

## Left out

- Rounding: floats and decimals are exact reals, so the rounding of notionals, prices and realized profit to eight digits is not modelled.
- Row contents that no law reads: outbox events, legacy trades, reviews, close fields, proof eligibility, policy hashes and max_open_positions.
- SQL, Redis, Sui and HTTP: query results and parsed transactions are parameters, rows are fields and maps in order of insertion, and position rows are values of the session, not objects of their own.
- SHA-256 (section 6.2 of FIPS 180-4): a parameter of the Merkle laws; the decision hash is modelled by the values it hashes.
- The 500000-row limit of the fills query, and candles from the indexer instead of fills.
- Fills of no quantity: WalkIsCompleteExactlyWhen is about fills that trade something, since a fill without volume can be lost without a trace.
- A history floor before 1970: pages are proved for clocks more than the history's length after the epoch.
- Non-ASCII whitespace and letter case in names and types, and the four ASCII separator controls that only one of the two languages strips.
- Reloading a hub from its storage, which keeps the subscribed keys and forgets a replaced prototype.
- A clock that goes back, and limits in the environment that are not integers.
- Texts of numbers: the threshold found in a rule's condition, the chain's version and the social signal's market fields are values.
- Philosophy names before normalization, and the hashes and regimes by which memories are looked up: the looked-up memory is the input.
- The square root in the volatility: the snapshot holds its square.
- The actor's skill reloads, the agent that may override an observed decision, persistence, and the workers.
- What a panda remembers between hydrations besides its stored mood: the peak of its equity is a parameter of a life.
- Experience records, achievements, leaderboards, strategy parsing, authentication and the frontend.
