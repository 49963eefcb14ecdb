# A verified model of the oxide-arb core

This project models the stateful core of oxide-arb, an endgame arbitrage engine for prediction markets,
and proves properties of it that hold over every run, every input or every reachable state.

`dafny verify dfyconfig.toml` checks the whole project.

## Layout

Each component has a value datatype with specification functions, theorems about runs of those functions,
and, where the program updates things in place, a class or a loop whose methods are proved against them.

| file | component |
|---|---|
| `MachineInts.dfy`, `RealOrder.dfy`, `Sums.dfy`, `StableSort.dfy` | fixed-width integers, order of reals, sums over maps, stable sorting |
| `CircuitBreaker.dfy`, `BreakerRuns.dfy`, `BreakerLaws.dfy` | the five-state circuit breaker, its backoff and recovery, its times in seconds |
| `Accounting.dfy`, `PotentialLoss.dfy` | accounting windows and the pending-loss ledger |
| `BloomFilter.dfy`, `Blacklist.dfy` | the blacklist and its lock-free projection |
| `RiskEngineModel.dfy` | the risk engine as a step function, with persistence outcomes as inputs |
| `RiskEngineTrace.dfy` | the breaker events that engine steps cause |
| `RiskEngineSafety.dfy`, `RiskEngineBooks.dfy`, `RiskRecovery.dfy` | halt and publication safety, exactly-once booking, crash recovery |
| `WindowTotals.dfy`, `RiskEngineCaps.dfy`, `LedgerRuns.dfy` | windows, caps and ledger after a run, in terms of the trades |
| `PublishedState.dfy`, `EngineCounters.dfy`, `BlacklistRuns.dfy` | snapshot, version, high-water mark, emergencies and blocks over a run |
| `FillGaps.dfy`, `MissCounters.dfy`, `RiskDurability.dfy` | calls between a fill and its commit, the miss counter, what the store holds over a run |
| `RiskEngine.dfy` | the engine object, statement by statement |
| `ShardRouter.dfy`, `Subscriptions.dfy` | the token router and the two-source subscription union |
| `BookLevels.dfy`, `BookReplay.dfy` | order-book replay and as-of lookup |
| `ReplayDecoding.dfy`, `ReplayReasons.dfy` | the columns and gaps a replay reads, the rows it selects and the reasons it reports |
| `Calibration.dfy`, `CalibrationCounts.dfy` | calibration buckets, their fallback indexes, and their counts over a run |
| `EmissionCooldown.dfy`, `EmissionBackoff.dfy` | emission cooldown inside the scan pipeline, its back-off counted on the scans |
| `Sizing.dfy`, `KellyLaw.dfy`, `SizerOptimum.dfy`, `Drawdown.dfy` | Kelly sizing, its gates and stake on the inputs, the bet as an optimum, the drawdown guard |
| `OrderbookWalker.dfy`, `WalkReports.dfy`, `Urgency.dfy` | order-book walks, what they report, urgency |
| `VotingOracle.dfy` | the settlement oracle |

## Conventions

- The clock, the store, the audit sink and every remote answer are parameters, so a theorem over all
  events covers every pattern of failures and duplicate deliveries. Instants are integers in nanoseconds.
- Release builds do not check overflow, so `u32` and `u64` additions wrap where the program uses plain
  operators and saturate where it saturates. Decimals are exact reals; rounding to cents is half-to-even.
- Each public engine or manager call is one atomic step, except in `FillGaps.dfy`, where other calls run between
  the two halves of a fill.
- Breaker durations or deadlines beyond what the calendar library holds make the program panic.
  `BreakerRuns.Panics` says which steps do; statements about the state after a step are about steps that return.

## Where the code departs from what it says

- `trip` computes the cooldown before it counts the trip, so the first two trips use the base duration
  (`crates/oxide-arb-risk/src/circuit_breaker.rs:171-177`), unlike the formula at lines 394-395.
- Only Closed and HalfOpen trade (`crates/oxide-arb-risk/src/types.rs:147-149`), unlike the comment at
  `crates/oxide-arb-risk/src/engine.rs:1024`.
- A budget change keeps the amount spent only if the new budget covers it: `Accounting.BudgetChangeKeepsSpend`.
- An expired, uncollected entry disables the automatic blacklist: `Blacklists.AutoBlacklistBlocks`.
- An automatic blacklist entry survives a commit failure without being stored, until its key leaves the live
  map: `RiskEngineBooks.SurvivingBlockIsNotStored`.
- A failed commit keeps the miss it counted, so one miss delivered twice can reach the threshold:
  `MissCounters.CounterMatchesCommittedIff`, `MissCounters.RedeliveredMissBlocks`.
- Restoring after a failed commit also discards what other calls booked in between: `FillGaps.FailedGapIff`,
  `FillGaps.SettlementInGapIsLost`.
- `halt` announces that it persists the state (`crates/oxide-arb-risk/src/engine.rs:1037`) and stores only an audit
  event, so a restart can trade again: `RiskDurability.HaltIsNotStored`, `RiskDurability.RestartTradesWhileStoppedIff`.
- Doubling the cooldown after a failed probe wraps from 2^63 seconds, which a reload can bring about:
  `BreakerRuns.FailedProbeCooldown`, `BreakerRuns.WrapShows`. Validation sets no upper bound on cooldowns, so long
  ones panic: `BreakerRuns.NeverPanicsIff`.
- A restart forgets the day's largest single loss and so lifts that cap: `RiskRecovery.SingleLossAgreementIff`,
  `RiskRecovery.RestartLiftsSingleLossHalt`.
- Level edits refine the price map only on the micro grid: `BookLevels.ChangeRefinesIff`, `BookReplay.OffGridDuplicates`.
- A lookup can rest on a snapshot from its future: `BookReplay.NoLookaheadIff`, `BookReplay.LookaheadHappens`.
- A crossed book inside a replay is not flagged, even in an exact one: `BookReplay.FlagIsTrueIff`,
  `BookReplay.ExactReplayHidesCrossedBook`.
- A prior update can leave stale group means: `Calibration.PriorUpdateAgreement`, `Calibration.PriorUpdateGoesStale`.
- The share total of a cost walk can wrap: `OrderbookWalking.CostTotalsExactIff`, `OrderbookWalking.ShareTotalCanWrap`.
- Rounding can pass a cap or the bankroll by up to half a cent: `Sizing.BetWithinCaps`, `Sizing.NeverOverBankrollIff`.
- A quorum of one over three sources, which validation admits, allows opposite verdicts: `VotingOracles.QuorumIntersection`.
- A sync can spawn a shard the union never needs: `Subscriptions.SyncOverlapCosts`.

## Model

| member | source | states |
|---|---|---|
| `RiskEngineSafety.HaltIsSticky` | crates/oxide-arb-risk/src/engine.rs:1344-1350 | Over every run without an operator acknowledgement or reset, a halted engine stays halted at a level that never drops, through fills, rollbacks, settlements, ticks, trips and reloads |
| `RiskEngineSafety.StepKeepsHalt` | crates/oxide-arb-risk/src/circuit_breaker.rs:169-232 | The same for one step of the engine, whatever the event |
| `RiskEngineSafety.OnlySessionFaultsRecover` | crates/oxide-arb-risk/src/circuit_breaker.rs:169-206 | Over every run, Open and HalfOpen, the states with an automatic way back, carry Session faults only, so Daily and System faults have no automatic recovery |
| `RiskEngineSafety.LossCapsEnforced` | crates/oxide-arb-risk/src/engine.rs:732-783 | Each breached loss cap leaves the breaker halted at its level or at least not trading, in whatever state it was |
| `RiskEngineSafety.CommonChecksEnforced` | crates/oxide-arb-risk/src/engine.rs:786-855 | Fee caps, misses and API errors stop trading whatever the probe result did; a breaker that denied trading still does |
| `RiskEngineSafety.BreachedCapsStopTrading` | crates/oxide-arb-risk/src/engine.rs:602-667 | After a trade result, every cap breached by the new books shows in the breaker, across the cap checks of both phases |
| `RiskEngineSafety.ReportedLevelIsHighest` | crates/oxide-arb-risk/src/engine.rs:602-667 | The reported level is the highest any breached cap calls for, and absent exactly when none is breached |
| `RiskEngineSafety.ErrorsFailClosed` | crates/oxide-arb-risk/src/engine.rs:427-549 | Every step that returns an error leaves the breaker halted and the published snapshot denying trades, except a tick whose stale-entry query fails |
| `RiskEngineSafety.FailedTickQuery` | crates/oxide-arb-risk/src/engine.rs:884-887 | That exception in full: nothing is published and the breaker ends halted exactly when it was halted before |
| `RiskEngineSafety.PublicationIsConservative` | crates/oxide-arb-risk/src/engine.rs:1428-1483 | At every step boundary of every run the published gate denies what the breaker denies; the gates are equal unless a stale-entry query failed |
| `RiskEngineSafety.StepKeepsGate` | crates/oxide-arb-risk/src/engine.rs:861-1178 | One step keeps both relations between published and live gate |
| `RiskEngineSafety.BlacklistStaysPublished` | crates/oxide-arb-risk/src/engine.rs:1428-1483 | Over every run each live blacklist entry is published unchanged |
| `RiskEngineSafety.OperatorReleases` | crates/oxide-arb-risk/src/engine.rs:1052-1097 | A stored and audited reset leaves any engine trading and published, an audited acknowledgement a halted one; a failed write leaves it halted |
| `RiskEngineTrace.EngineRefinesBreaker` | crates/oxide-arb-risk/src/engine.rs:602-855 | Over every engine run the breaker is exactly the breaker after the trace of breaker events the run causes; a rolled-back fill contributes only its halt |
| `RiskEngineTrace.StepTrace` | crates/oxide-arb-risk/src/engine.rs:1344-1401 | The same for one engine step, whatever the event and the persistence results |
| `RiskEngineTrace.FullTraceShape` | crates/oxide-arb-risk/src/engine.rs:732-855 | Every trip in the trace of a run is a Session trip, and it contains a release only if the operator acted |
| `RiskEngineTrace.EngineBounded` | crates/oxide-arb-risk/src/circuit_breaker.rs:169-346 | Over every engine run, reloads and rollbacks included, waits are within the largest configured maximum, waiting states carry Session faults, and the counter counts the Session trips of the trace |
| `RiskEngineTrace.EngineBackoff` | crates/oxide-arb-risk/src/circuit_breaker.rs:169-206 | At every trip inside every engine run the n-th Session trip since zero waits min(max, base*2^max(0,n-2)) under the configuration in force |
| `RiskEngineBooks.CommitFailureRollsBack` | crates/oxide-arb-risk/src/engine.rs:434-472 | A failed commit restores breaker, windows, ledger, drawdown guard and version, leaves no marker, then halts at System; the blacklist differs exactly when an automatic entry was made |
| `RiskEngineBooks.SurvivingBlockIsNotStored` | crates/oxide-arb-risk/src/engine.rs:492-549 | Over any run after a failed commit, a new delivery of the fill asks the blacklist store exactly when the trade is uncommitted, the market key has left the live map and the threshold is met; while nothing releases the key, no delivery does |
| `RiskEngineBooks.KeyLeavesIff` | crates/oxide-arb-risk/src/engine.rs:1136-1159 | A step takes a market key out of the live map exactly when it removes that market or is a tick at which its entry has expired |
| `RiskEngineBooks.RemovedBlockIsStored` | crates/oxide-arb-risk/src/engine.rs:1136-1159 | Removing the surviving block by hand makes the next delivery ask the store |
| `RiskEngineBooks.LossesStayNonNegative` | crates/oxide-arb-risk/src/engine.rs:670-726 | Over every run the three loss totals stay non-negative |
| `RiskEngineBooks.BooksFollowJournal` | crates/oxide-arb-risk/src/engine.rs:427-490 | After any run the books are the fold of the journal of effective postings and the durable markers are the committed trades; duplicates and failures leave no trace |
| `RiskEngineBooks.FillsExactlyOnce` | crates/oxide-arb-risk/src/traits.rs:220-228 | No trade is posted twice or again after it was durable; markers grow by exactly the posted trades; every delivery whose claim and commit succeed is among them |
| `RiskEngineBooks.CommittedTotals` | crates/oxide-arb-risk/src/engine.rs:670-701 | Within one day the daily fees, spend, result, loss and trade count move by exactly the totals over the distinct committed fills |
| `RiskEngineBooks.FillsBookDaily` | crates/oxide-arb-risk/src/engine.rs:670-701 | The daily window after fill deliveries is the fold of the committed fills alone |
| `RiskEngineBooks.LedgerStaysConsistent` | crates/oxide-arb-risk/src/engine.rs:670-726 | Over every run of trades with non-negative worst-case losses, the running potential-loss total equals the sum of active entries, and each entry belongs to a durable trade |
| `RiskEngineBooks.LedgerTotalOfFills` | crates/oxide-arb-risk/src/engine.rs:670-701 | Over fill deliveries the total grows by exactly the worst-case losses of the distinct committed fills |
| `RiskEngineBooks.BooksStaySound` | crates/oxide-arb-risk/src/engine.rs:670-726 | Over every run the largest single loss of each window stays between zero and its total loss, and result plus loss stays non-negative, so a breached single-loss cap shows in the daily total |
| `WindowTotals.WindowsHoldJournal` | crates/oxide-arb-risk/src/engine.rs:670-726 | Over every run each of the three windows holds exactly the losses, results, fees, trade, success and miss counts and extremes of the effective trades since it last rolled over, read off the trades, on top of what it held if it never did |
| `WindowTotals.TotalsWithinSlot` | crates/oxide-arb-risk/src/accounting/weekly.rs:35-54 | Within one day, week or hour the window moves by the sums over the whole journal |
| `WindowTotals.SpendAndLifetime` | crates/oxide-arb-risk/src/engine.rs:670-726 | Over every run the lifetime result moves by the profits of all settlements, and the day has spent the costs of its committed fills unless the budget changed |
| `RiskEngineCaps.StaysClosedIff` | crates/oxide-arb-risk/src/engine.rs:602-667 | A trade leaves a closed breaker closed exactly when the new books, the misses and the error rate are below every cap its phase checks |
| `RiskEngineCaps.SettlementEnforces` | crates/oxide-arb-risk/src/engine.rs:427-490 | After an applied settlement, whatever its persistence does, every breached cap shows in the breaker |
| `RiskEngineCaps.LossesOfRunStopTrading` | crates/oxide-arb-risk/src/engine.rs:732-783 | Over every run that ends in an applied settlement, losses since the week, day or hour began, or one loss of the day, that reach their cap halt the breaker at its level or stop trading |
| `RiskEngineCaps.WeeklyCapInOneSettlement` | crates/oxide-arb-risk/src/engine.rs:704-726 | One settlement that loses at least the weekly cap leaves the breaker halted at System, whatever the store does |
| `LedgerRuns.LedgerFollowsJournal` | crates/oxide-arb-risk/src/position.rs:55-90 | Over every run the ledger shows each trade as its own postings leave it: its cost and fee at stake from the committed fill on, released by its settlement or resolution, with both instants |
| `LedgerRuns.PendingUntilReleased` | crates/oxide-arb-risk/src/position.rs:77-90 | A trade at stake stays at stake with the same loss exactly until the run settles or resolves it |
| `PublishedState.SnapshotShowsState` | crates/oxide-arb-risk/src/engine.rs:1428-1483 | At every step boundary of every run without a failed stale-entry query the snapshot shows the live losses, fees, result, budget, potential loss, high-water mark, limits and halt reason |
| `PublishedState.SnapshotShowsLosses` | crates/oxide-arb-risk/src/engine.rs:1428-1483 | So the published losses are the sums over the trades since each window began |
| `EngineCounters.VersionCountsChanges` | crates/oxide-arb-risk/src/engine.rs:602-667 | Over every run the state version counts exactly the changing calls, modulo 2^64 |
| `EngineCounters.MarkIsHighestEquity` | crates/oxide-arb-risk/src/sizing.rs:319-323 | Over every run the high-water mark is the highest equity of the trades that took effect; a rolled-back fill leaves none |
| `EngineCounters.LastEmergencyIsLatest` | crates/oxide-arb-risk/src/engine.rs:492-549 | Over every run the recorded emergency is the latest one raised: by a trade that reaches a cap, by stale losses at a tick, or by a stored critical drift |
| `EngineCounters.FillEmergencyIff` | crates/oxide-arb-risk/src/engine.rs:492-549 | A committed fill records an emergency exactly when it reaches a cap it checks, with the reason the breaker then carries |
| `BlacklistRuns.AddedMarketStaysBlocked` | crates/oxide-arb-risk/src/engine.rs:1100-1133 | A market added by hand is blocked at every scope and instant through every run until it is removed by hand, whatever the store answers |
| `BlacklistRuns.RemovedMarketIsClear` | crates/oxide-arb-risk/src/engine.rs:1136-1159 | Removing it by hand clears it at once |
| `BlacklistRuns.ReloadBlocksConfigured` | crates/oxide-arb-risk/src/engine.rs:1210-1227 | A reload keeps every existing answer and fully blocks the configured markets and tokens that had no entry |
| `FillGaps.EmptyGap` | crates/oxide-arb-risk/src/engine.rs:434-472 | A fill whose gap between apply and commit holds no other call is the atomic fill |
| `FillGaps.CommittedGap` | crates/oxide-arb-risk/src/engine.rs:434-472 | After a committed fill the books hold the fill and everything that other calls posted while it awaited its commit |
| `FillGaps.FailedGapIff` | crates/oxide-arb-risk/src/engine.rs:1301-1322 | After a failed fill the books are those of the journal exactly when the calls in its gap left the captured windows and ledger as they were; lifetime result and markers keep what the gap did, and the engine is halted |
| `FillGaps.SettlementInGapIsLost` | crates/oxide-arb-risk/src/engine.rs:1301-1322 | Any settlement in the gap of a failed fill is wiped from the windows and the ledger while the lifetime result keeps its profit |
| `FillGaps.BooksFollowGappedJournal` | crates/oxide-arb-risk/src/engine.rs:427-490 | Over every run whose fills have gaps full of other calls, the books are the fold of the journal as long as nothing posts in the gap of a fill that fails |
| `MissCounters.CounterCountsAttempts` | crates/oxide-arb-core/src/service/risk_metrics.rs:305-323 | Over every run the counter of a market is the misses of all claimed attempts since its last other outcome, modulo 2^32, committed or not |
| `MissCounters.CounterMatchesCommittedIff` | crates/oxide-arb-risk/src/engine.rs:434-472 | It counts the committed trades exactly when as many misses failed since then as a failed other outcome had cleared |
| `MissCounters.SingleMissDoesNotBlock` | crates/oxide-arb-risk/src/engine.rs:620-632 | Two below the threshold a miss that commits at once does not block its market |
| `MissCounters.RedeliveredMissBlocks` | crates/oxide-arb-risk/src/engine.rs:434-472 | The same miss whose first commit fails counts twice and blocks the market when it is delivered again |
| `RiskRecovery.BreakerRoundTrip` | crates/oxide-arb-risk/src/circuit_breaker.rs:66-143 | Restoring what was persisted succeeds for every breaker and keeps state name, level, reason and deadline; the trip count survives exactly when it fits i32 |
| `RiskRecovery.CooldownSurvives` | crates/oxide-arb-risk/src/circuit_breaker.rs:396-408 | A trip count clamped by persistence is invisible: the next Session cooldown is unchanged |
| `RiskRecovery.ObservationNotShortened` | crates/oxide-arb-risk/src/circuit_breaker.rs:66-143 | Under an unchanged configuration the observation window never ends earlier after a restart |
| `RiskRecovery.RebuiltIsNotMorePermissive` | crates/oxide-arb-risk/src/builder.rs:256-299 | A rebuilt engine trades only if the persisted one did; it is halted exactly when the old breaker was, was still cooling down, or a stale active loss exists; its published gate matches |
| `RiskRecovery.RefusedIff` | crates/oxide-arb-risk/src/state_store.rs:40-151 | What a reachable engine persists is refused exactly when its date lies in the future or more losses are pending than positions are open |
| `RiskRecovery.RecoveredLossesNotLower` | crates/oxide-arb-risk/src/state_store.rs:40-151 | Recovered loss and fee totals are never below those of the engine that kept going, so each cap on a total that is breached there is breached after the restart |
| `RiskRecovery.RebuiltBlacklist` | crates/oxide-arb-risk/src/builder.rs:144-241 | A rebuilt engine answers from the stored entry where there is one, else with a full block for a configured key, else clear |
| `RiskRecovery.RebuiltParts` | crates/oxide-arb-risk/src/builder.rs:144-241 | A rebuilt engine takes over the stored high-water mark, or the equity without one, the last emergency, the lifetime result and the markers, and publishes its own books |
| `RiskRecovery.StaleIff` | crates/oxide-arb-risk/src/builder.rs:256-299 | A pending loss is stale exactly when it is active and the escalation time has passed since it was made |
| `RiskDurability.LagBeginsIff` | crates/oxide-arb-risk/src/engine.rs:1344-1350 | A step leaves the store behind a stopped breaker exactly when it fails or stops trading silently while the store shows a breaker that trades |
| `RiskDurability.LagIff` | crates/oxide-arb-risk/src/engine.rs:1403-1418 | Over every run the store shows a trading breaker while the live one is stopped exactly when some step stopped trading unstored and nothing caught up since |
| `RiskDurability.RebuiltTradesIff` | crates/oxide-arb-risk/src/builder.rs:256-299 | A rebuilt engine trades exactly when the stored breaker does and no pending loss is stale |
| `RiskDurability.RestartTradesWhileStoppedIff` | crates/oxide-arb-risk/src/builder.rs:256-299 | Over every run the engine rebuilt from the store trades while the crashed one was stopped exactly when a stop was left unstored and no pending loss is stale |
| `RiskDurability.HaltIsNotStored` | crates/oxide-arb-risk/src/engine.rs:1037-1046 | A manual halt of a trading engine leaves a store that still trades |
| `RiskRecovery.SingleLossAgreementIff` | crates/oxide-arb-risk/src/engine.rs:755-761 | For a positive cap the rebuilt and the surviving engine agree on the single-loss cap exactly when the surviving one is below it |
| `RiskRecovery.LosingSettlementForgotten` | crates/oxide-arb-risk/src/engine.rs:704-726 | After any settlement that loses the cap, the surviving engine is over the single-loss cap for the rest of the day and the rebuilt one is not |
| `RiskRecovery.RestartLiftsSingleLossHalt` | crates/oxide-arb-risk/src/engine.rs:732-783 | After an acknowledgement the next quiet settlement halts the surviving engine again while the rebuilt one stays Closed |
| `RiskRecovery.RecoveryCommutesWithRollover` | crates/oxide-arb-risk/src/state_store.rs:40-151 | With current windows, persisting, restarting and rolling over gives the totals, and the counts clamped to i32, of rolling over without the restart |
| `RiskRecovery.LedgerReboots` | crates/oxide-arb-risk/src/position.rs:38-52 | Rebuilding from the active entries in any order gives a consistent ledger with the same total |
| `RiskRecovery.CommittedFillSurvivesCrash` | crates/oxide-arb-risk/src/builder.rs:144-241 | The engine rebuilt after a committed fill shows its totals and loss and answers a new delivery with already applied |
| `BreakerRuns.CooldownIsExact` | crates/oxide-arb-risk/src/circuit_breaker.rs:396-408 | The saturating u64 cooldown equals the unbounded formula min(max, base times a power of two) |
| `BreakerRuns.TripCountTracksTrace` | crates/oxide-arb-risk/src/circuit_breaker.rs:169-206 | After any run the counter is the number of Session trips since it was zero, modulo 2^32 |
| `BreakerRuns.BackoffLaw` | crates/oxide-arb-risk/src/circuit_breaker.rs:169-206 | The n-th Session trip since zero cools down for min(max, base*2^max(0,n-2)) under the configuration in force |
| `BreakerRuns.FailedProbeCooldown` | crates/oxide-arb-risk/src/circuit_breaker.rs:297-346 | A failed probe that returns reopens for its penalty, within the maximum; the penalty is the capped double exactly when the cooldown is below 2^63 seconds |
| `BreakerRuns.WrapShows` | crates/oxide-arb-risk/src/circuit_breaker.rs:297-346 | A reload of a huge base while half open makes the wrapped doubling visible: the failed probe reopens for no time, and no step panics |
| `BreakerRuns.FixedConfigNeverWraps` | crates/oxide-arb-risk/src/circuit_breaker.rs:297-346 | Without a reload, every failed probe of every run whose steps return is penalised with the capped double |
| `BreakerRuns.NeverPanicsIff` | crates/oxide-arb-risk/src/circuit_breaker.rs:169-346 | Every run up to an instant returns exactly when the maximum cooldown and the observation window, counted from that instant, fit the calendar library |
| `BreakerRuns.HaltStays` | crates/oxide-arb-risk/src/circuit_breaker.rs:169-232 | Over every breaker run without a release a halt stays at a level that never drops |
| `BreakerRuns.SessionStays` | crates/oxide-arb-risk/src/circuit_breaker.rs:169-206 | Over every breaker run with Session trips only, Open and HalfOpen carry Session faults |
| `BreakerRuns.RunBounded` | crates/oxide-arb-risk/src/circuit_breaker.rs:169-346 | At every point of every run with Session trips, reloads included, waits are within the largest maximum seen and waiting states carry Session faults |
| `BreakerRuns.ProbesRecover` | crates/oxide-arb-risk/src/circuit_breaker.rs:297-346 | k successful probes leave HalfOpen exactly when k reaches max(1, required) |
| `BreakerRuns.RecoveryPath` | crates/oxide-arb-risk/src/circuit_breaker.rs:261-346 | From any Open breaker one tick past the deadline, max(1, required) probes and one tick past observation lead to Closed with a zero trip count |
| `CircuitBreakers.CircuitBreaker.TripTo` | crates/oxide-arb-risk/src/circuit_breaker.rs:169-206 | In-place trip: the new state is the trip specification of the old one |
| `CircuitBreakers.CircuitBreaker.HaltAt` | crates/oxide-arb-risk/src/circuit_breaker.rs:212-232 | In-place halt against its specification |
| `CircuitBreakers.CircuitBreaker.Acknowledge` | crates/oxide-arb-risk/src/circuit_breaker.rs:238-253 | In-place operator acknowledgement against its specification |
| `CircuitBreakers.CircuitBreaker.TickAt` | crates/oxide-arb-risk/src/circuit_breaker.rs:261-294 | In-place tick against its specification, and whether a transition happened |
| `CircuitBreakers.CircuitBreaker.ReportTrade` | crates/oxide-arb-risk/src/circuit_breaker.rs:297-346 | In-place probe result against its specification |
| `CircuitBreakers.CircuitBreaker.ResetTo` | crates/oxide-arb-risk/src/circuit_breaker.rs:349-358 | In-place reset against its specification |
| `CircuitBreakers.CircuitBreaker.OnHeartbeatFailure` | crates/oxide-arb-risk/src/circuit_breaker.rs:371-381 | In-place heartbeat failure count and System halt at the limit |
| `RiskEngines.RiskEngine.OnFill` | crates/oxide-arb-risk/src/engine.rs:427-490 | Step by step over the live objects, the new engine value and reply are those of the specification the run theorems are about: claim, apply, commit or roll back |
| `RiskEngines.RiskEngine.OnSettlement` | crates/oxide-arb-risk/src/engine.rs:427-490 | Step by step over the live objects, the new engine value and reply are those of the specification the run theorems are about: resolve, apply, persist and audit |
| `RiskEngines.RiskEngine.ApplyTradeResult` | crates/oxide-arb-risk/src/engine.rs:602-667 | Step by step over the live objects, the new engine value and reply are those of the specification the run theorems are about: the in-memory effect of a trade |
| `RiskEngines.RiskEngine.ApplyFill` | crates/oxide-arb-risk/src/engine.rs:670-701 | Step by step over the live objects, the new engine value and reply are those of the specification the run theorems are about: booking a fill |
| `RiskEngines.RiskEngine.ApplySettlement` | crates/oxide-arb-risk/src/engine.rs:704-726 | Step by step over the live objects, the new engine value and reply are those of the specification the run theorems are about: booking a settlement |
| `RiskEngines.RiskEngine.CheckLossCaps` | crates/oxide-arb-risk/src/engine.rs:732-783 | Step by step over the live objects, the new engine value and reply are those of the specification the run theorems are about: loss caps and the highest level reported |
| `RiskEngines.RiskEngine.ApplyCommonChecks` | crates/oxide-arb-risk/src/engine.rs:786-855 | Step by step over the live objects, the new engine value and reply are those of the specification the run theorems are about: probe result, high-water mark, misses, fees and API errors |
| `RiskEngines.RiskEngine.FollowUp` | crates/oxide-arb-risk/src/engine.rs:492-549 | Step by step over the live objects, the new engine value and reply are those of the specification the run theorems are about: emergency record and storing an automatic block |
| `RiskEngines.RiskEngine.Tick` | crates/oxide-arb-risk/src/engine.rs:861-954 | Step by step over the live objects, the new engine value and reply are those of the specification the run theorems are about: breaker tick, rollovers, collection, stale entries and republication |
| `RiskEngines.RiskEngine.OnReconciliation` | crates/oxide-arb-risk/src/engine.rs:960-1015 | Step by step over the live objects, the new engine value and reply are those of the specification the run theorems are about: reconciliation report |
| `RiskEngines.RiskEngine.AcknowledgeAndResume` | crates/oxide-arb-risk/src/engine.rs:1052-1071 | Step by step over the live objects, the new engine value and reply are those of the specification the run theorems are about: operator resume |
| `RiskEngines.RiskEngine.ResetCircuitBreaker` | crates/oxide-arb-risk/src/engine.rs:1074-1097 | Step by step over the live objects, the new engine value and reply are those of the specification the run theorems are about: operator reset |
| `RiskEngines.RiskEngine.AddBlacklist` | crates/oxide-arb-risk/src/engine.rs:1100-1133 | Step by step over the live objects, the new engine value and reply are those of the specification the run theorems are about: adding a permanent block |
| `RiskEngines.RiskEngine.RemoveBlacklist` | crates/oxide-arb-risk/src/engine.rs:1136-1159 | Step by step over the live objects, the new engine value and reply are those of the specification the run theorems are about: removing a block |
| `RiskEngines.RiskEngine.ResolvePotentialLoss` | crates/oxide-arb-risk/src/engine.rs:1162-1178 | Step by step over the live objects, the new engine value and reply are those of the specification the run theorems are about: resolving a pending loss |
| `RiskEngines.RiskEngine.Reload` | crates/oxide-arb-risk/src/engine.rs:1210-1227 | Step by step over the live objects, the new engine value and reply are those of the specification the run theorems are about: configuration reload |
| `RiskEngines.RiskEngine.HaltInternal` | crates/oxide-arb-risk/src/engine.rs:1344-1350 | Step by step over the live objects, the new engine value and reply are those of the specification the run theorems are about: halt and publish |
| `RiskEngines.RiskEngine.PublishSnapshot` | crates/oxide-arb-risk/src/engine.rs:1428-1483 | Step by step over the live objects, the new engine value and reply are those of the specification the run theorems are about: compiling and publishing the snapshot, with a Bloom projection that answers as the live blacklist |
| `RiskEngines.RiskEngine.OnHeartbeatFailure` | crates/oxide-arb-risk/src/engine.rs:1353-1401 | Step by step over the live objects, the new engine value and reply are those of the specification the run theorems are about: heartbeat failures |
| `RiskEngines.RiskEngine.OnFokFailure` | crates/oxide-arb-risk/src/engine.rs:1353-1401 | Step by step over the live objects, the new engine value and reply are those of the specification the run theorems are about: consecutive order failures |
| `RiskEngines.RiskEngine.PersistAndAudit` | crates/oxide-arb-risk/src/engine.rs:1403-1418 | Step by step over the live objects, the new engine value and reply are those of the specification the run theorems are about: store then audit, halting on either failure |
| `BreakerLaws.TripLasts` | crates/oxide-arb-risk/src/circuit_breaker.rs:169-294 | Over every run the n-th Session trip stops trading until min(max, base*2^max(0,n-2)) seconds have passed; the first tick from then on, and none before, starts the probes |
| `BreakerLaws.ObservationLasts` | crates/oxide-arb-risk/src/circuit_breaker.rs:261-346 | The observation after the last probe ends with the first tick once its seconds have passed, and only that clears the trip count |
| `BreakerLaws.LevelTrips` | crates/oxide-arb-risk/src/circuit_breaker.rs:169-206 | A trip at another level waits for its own duration and does not count; no trip lowers an open level or touches a halt |
| `BreakerLaws.HeartbeatsHaltIff` | crates/oxide-arb-risk/src/circuit_breaker.rs:371-381 | Consecutive heartbeat failures halt at System exactly when they reach the limit and change nothing but their count before |
| `BreakerLaws.ReleasesClose` | crates/oxide-arb-risk/src/circuit_breaker.rs:349-358 | A reset closes every breaker, an acknowledgement exactly a halted one; both start the trip count over |
| `PotentialLosses.RecordKeepsTotal` | crates/oxide-arb-risk/src/position.rs:55-74 | Recording keeps the running total equal to the sum of active losses, whether the entry is new, repeated or inactive |
| `PotentialLosses.ResolveKeepsTotal` | crates/oxide-arb-risk/src/position.rs:77-90 | Resolving keeps it equal, and the clamp at zero never takes effect |
| `PotentialLosses.BootTotal` | crates/oxide-arb-risk/src/position.rs:38-52 | The booted total exceeds the active sum by exactly the losses of overwritten duplicates, and so agrees exactly when those sum to zero |
| `PotentialLosses.BootConsistent` | crates/oxide-arb-risk/src/position.rs:38-52 | Distinct identifiers and non-negative losses boot into a consistent ledger |
| `PotentialLosses.PotentialLossLedger.Record` | crates/oxide-arb-risk/src/position.rs:55-74 | In-place recording against its specification, keeping consistency |
| `PotentialLosses.PotentialLossLedger.Settle` | crates/oxide-arb-risk/src/position.rs:77-90 | In-place resolution against its specification, keeping consistency |
| `PotentialLosses.PotentialLossLedger.FromList` | crates/oxide-arb-risk/src/position.rs:38-52 | The boot loop yields the ledger of the specification |
| `PotentialLosses.ResolveReleases` | crates/oxide-arb-risk/src/position.rs:77-90 | Resolving makes the entry inactive, takes exactly its loss off the total if it was active, and changes no other entry |
| `Accounting.DayTotals` | crates/oxide-arb-risk/src/accounting/daily.rs:57-82 | Within one day the window holds the plain totals of all bookings and the spend is the sum of costs |
| `Accounting.BudgetChangeKeepsSpend` | crates/oxide-arb-risk/src/accounting/daily.rs:51-55 | Changing the budget keeps the amount spent exactly when the new budget covers it |
| `Accounting.BudgetDipRefunds` | crates/oxide-arb-risk/src/accounting/daily.rs:51-55 | Lowering the budget under the spend and raising it again frees budget that was used |
| `Accounting.DailyAccounting.RecordTrade` | crates/oxide-arb-risk/src/accounting/daily.rs:57-82 | In-place booking with rollover against its specification |
| `Accounting.DailyAccounting.MaybeRollover` | crates/oxide-arb-risk/src/accounting/daily.rs:132-148 | In-place rollover and whether it happened |
| `Accounting.WeeklyAccounting.RecordTrade` | crates/oxide-arb-risk/src/accounting/weekly.rs:35-54 | In-place weekly booking against its specification |
| `Accounting.HourlyAccounting.RecordTrade` | crates/oxide-arb-risk/src/accounting/hourly.rs:43-66 | In-place hourly booking against its specification |
| `Accounting.WeekStartsOnMonday` | crates/oxide-arb-risk/src/accounting/weekly.rs:72-99 | A week starts on the Monday of the last seven days |
| `Blacklists.BlacklistManager.BuildSnapshot` | crates/oxide-arb-risk/src/blacklist.rs:373-409 | The loop over the live map, in any order, yields a snapshot whose market and token lookups answer exactly as the live checks, reason and scope included |
| `Blacklists.CoverageProjects` | crates/oxide-arb-risk/src/snapshot.rs:80-126 | A snapshot covering every live entry answers exactly as the live map, whatever collisions the filters have |
| `Blacklists.StaleProjectionIsSafe` | crates/oxide-arb-risk/src/snapshot.rs:110-126 | While entries only expire, whatever is blocked later was blocked in the snapshot for the same reason |
| `Blacklists.CollectionInvisible` | crates/oxide-arb-risk/src/blacklist.rs:275-291 | Garbage collection and lazy eviction change no later answer |
| `Blacklists.TemporaryNeverDowngrades` | crates/oxide-arb-risk/src/blacklist.rs:178-232 | A temporary addition never weakens an existing block, at any later instant |
| `Blacklists.TemporaryTakesEffect` | crates/oxide-arb-risk/src/blacklist.rs:178-232 | A temporary block takes effect exactly when the market has no permanent entry of narrower scope |
| `Blacklists.AutoBlacklistBlocks` | crates/oxide-arb-risk/src/blacklist.rs:298-333 | Reaching the miss threshold blocks trading exactly when the market has no entry or is already blocked |
| `Blacklists.AutoBlacklistSkipsExpired` | crates/oxide-arb-risk/src/blacklist.rs:298-333 | An expired entry not yet collected turns the automatic block into a no-op |
| `Blacklists.MergeKeepsEntries` | crates/oxide-arb-risk/src/blacklist.rs:87-118 | Reloading keeps runtime entries unchanged and covers exactly the configured keys besides |
| `Blacklists.BlacklistManager.CheckMarket` | crates/oxide-arb-risk/src/blacklist.rs:145-172 | In-place check with lazy eviction: the answer of the map before, and an invisible eviction |
| `Blacklists.BlacklistManager.IsTokenBlacklisted` | crates/oxide-arb-risk/src/blacklist.rs:337-349 | The same for tokens |
| `Blacklists.BlacklistManager.Temporary` | crates/oxide-arb-risk/src/blacklist.rs:178-232 | In-place temporary addition against its specification |
| `Blacklists.BlacklistManager.AutoBlacklist` | crates/oxide-arb-risk/src/blacklist.rs:298-333 | In-place automatic block against its specification |
| `Blacklists.BlacklistManager.Gc` | crates/oxide-arb-risk/src/blacklist.rs:275-291 | The collection loop, in any order, drops exactly the expired entries and reports how many |
| `Blacklists.TemporaryBlocksUntil` | crates/oxide-arb-risk/src/blacklist.rs:178-232 | At every instant a temporary block is in force exactly until the later of the old and the new expiry, at the wider scope; a permanent entry is left alone |
| `Blacklists.AutoBlocksFor` | crates/oxide-arb-risk/src/blacklist.rs:298-333 | An automatic block lasts for the configured time, on the trading path only, and keeps the miss count |
| `Blacklists.PermanentBlocksForever` | crates/oxide-arb-risk/src/blacklist.rs:235-262 | A permanent block holds at every scope and instant and touches no other market |
| `BloomFilters.InsertExact` | crates/oxide-arb-risk/src/snapshot.rs:27-32 | After an insertion the filter holds exactly the old bits and the three bits of the key |
| `BloomFilters.NoFalseNegatives` | crates/oxide-arb-risk/src/snapshot.rs:27-44 | An inserted key is found, and insertions never lose a key |
| `BloomFilters.SetBitExact` | crates/oxide-arb-risk/src/snapshot.rs:46-58 | Setting a bit sets that bit of the 512 and no other |
| `BloomFilters.BloomFilter512.Add` | crates/oxide-arb-risk/src/snapshot.rs:27-32 | In-place insertion on the word array against its specification |
| `BloomFilters.BloomFilter512.HashBytes` | crates/oxide-arb-risk/src/snapshot.rs:60-68 | The byte loop computes the hash of the specification |
| `BloomFilters.KnownHashes` | crates/oxide-arb-risk/src/snapshot.rs:60-68 | The unseeded hash gives the published FNV-1a test vectors |
| `Sizing.KellyMonotone` | crates/oxide-arb-risk/src/sizing.rs:33-122 | Through every early return the bet is never lower for inputs no worse in probability, fill, confidence, samples, staleness, slippage, failure cost and entry price |
| `Sizing.KellyBetBounds` | crates/oxide-arb-risk/src/sizing.rs:33-122 | The bet is non-negative, within half a cent of the bankroll at most, within it for whole cents, and positive only past every gate |
| `Sizing.NeverOverBankrollIff` | crates/oxide-arb-risk/src/sizing.rs:108-111 | No input makes the bet exceed the bankroll exactly when the bankroll times the smaller configured fraction, rounded, does not |
| `Sizing.BetCanExceedBankroll` | crates/oxide-arb-risk/src/sizing.rs:108-111 | Full Kelly on 1.006 stakes 1.01 |
| `Sizing.SizerLaw` | crates/oxide-arb-risk/src/sizing.rs:154-237 | The bet is the smallest base cap times the factor multiplier, rounded to cents, or zero below the minimum trade; the binding constraint is the first minimum of the whole list |
| `Sizing.SizerMonotone` | crates/oxide-arb-risk/src/sizing.rs:154-237 | Kelly monotonicity carries through caps, factors, threshold and rounding |
| `Sizing.NeutralFactorsChangeNothing` | crates/oxide-arb-risk/src/sizing.rs:243-284 | Multipliers of one or more leave bet, binding constraint and breakdown unchanged |
| `Sizing.BetWithinCaps` | crates/oxide-arb-risk/src/sizing.rs:220-229 | No cap is exceeded by more than half a cent, and none at all exactly when the smallest is under the minimum trade or its digits beyond cents are below half, or half over an even cent |
| `Sizing.RoundingCanPassACap` | crates/oxide-arb-risk/src/sizing.rs:229 | A cap of 10.006 yields a bet of 10.01 |
| `Sizing.NeverSpendsReserve` | crates/oxide-arb-risk/src/engine.rs:1544-1554 | Whatever the configured bankroll, the bet stays within the free equity up to half a cent and is zero when nothing is free |
| `Sizing.Round2Laws` | crates/oxide-arb-risk/src/sizing.rs:229 | Rounding keeps order, moves by at most half a cent and leaves whole cents alone |
| `Sizing.SizePosition` | crates/oxide-arb-risk/src/sizing.rs:154-237 | The growing constraint list and its scan compute the sizing of the specification |
| `Sizing.PushFactorConstraints` | crates/oxide-arb-risk/src/sizing.rs:243-284 | Factor caps are appended in order, computed against the smallest base cap |
| `Sizing.RoundsDownIff` | crates/oxide-arb-risk/src/sizing.rs:229 | Rounding to cents does not go up exactly when the digits beyond cents are below half, or half over an even cent |
| `KellyLaw.BindingIff` | crates/oxide-arb-risk/src/sizing.rs:33-122 | Each answer is given exactly on its gate condition, read off the inputs in the order of the gates, and only an accepted opportunity gets a bet |
| `KellyLaw.StakeIsKelly` | crates/oxide-arb-risk/src/sizing.rs:82-122 | An accepted opportunity stakes min(cap, part * r) of the bankroll to the nearest cent, where r * o is the expected gain w * o - (1 - w) or zero, at the discounted win probability w and the odds o after costs |
| `SizerOptimum.BetIsLargest` | crates/oxide-arb-risk/src/sizing.rs:154-237 | No stake that keeps every exposure, budget, loss, balance and drawdown limit and that the factors allow exceeds the bet by more than half a cent |
| `SizerOptimum.BetIsAdmissible` | crates/oxide-arb-risk/src/sizing.rs:154-237 | A positive bet is within half a cent of such a stake |
| `SizerOptimum.BankrollIsLargestFree` | crates/oxide-arb-risk/src/engine.rs:1544-1554 | The bankroll is the largest amount within the configured one that leaves reserve, reservations and pending losses untouched |
| `Drawdowns.FactorMonotone` | crates/oxide-arb-risk/src/sizing.rs:331-360 | Less equity never gives a larger factor; it is zero exactly at the halt threshold and otherwise between the reduction factor and one |
| `Drawdowns.DrawdownGuard.UpdateEquity` | crates/oxide-arb-risk/src/sizing.rs:319-323 | The high-water mark becomes the maximum of itself and the equity, parameters kept |
| `Drawdowns.FactorInterpolates` | crates/oxide-arb-risk/src/sizing.rs:331-360 | On the inputs: one at the mark, zero at the limit, and in between on the straight line down to the reduction factor |
| `ShardRouting.AssignCorrect` | crates/oxide-arb-api/src/ws/router.rs:50-66 | Assigning adds exactly the given tokens, keeps the partition, capacity and publication, and spawns only as many shards as the peak needs |
| `ShardRouting.RemoveCorrect` | crates/oxide-arb-api/src/ws/router.rs:69-85 | Removing takes out exactly the given tokens and keeps everything else, shard count included |
| `ShardRouting.TightIsCeiling` | crates/oxide-arb-api/src/ws/router.rs:93-116 | The maintained bounds pin the shard count to the ceiling of peak over capacity |
| `ShardRouting.ShardRouter.AssignTokens` | crates/oxide-arb-api/src/ws/router.rs:50-66 | In-place loop over tokens and publication of dirty shards against the specification |
| `ShardRouting.ShardRouter.RemoveTokens` | crates/oxide-arb-api/src/ws/router.rs:69-85 | In-place removal loop and publication against the specification |
| `ShardRouting.ShardRouter.PickShard` | crates/oxide-arb-api/src/ws/router.rs:93-116 | The first shard with room, or a spawned one |
| `ShardRouting.ShardRouter.PublishDirty` | crates/oxide-arb-api/src/ws/router.rs:130-135 | Exactly the dirty shards publish their ledger set |
| `Subscriptions.TransportRefinesUnion` | crates/oxide-arb-api/src/ws/mod.rs:219-259 | After any sequence of calls from either source, in any hash order, the router holds exactly the union, partitioned within capacity and published, and the shards ever spawned are the ceiling of the peak over capacity |
| `Subscriptions.ShardGrowth` | crates/oxide-arb-api/src/ws/mod.rs:245-259 | A call grows the shard count exactly to what its overlap of old and new union needs |
| `Subscriptions.SyncOverlapCosts` | crates/oxide-arb-api/src/ws/mod.rs:245-259 | Because a sync adds before it removes, replacing one token by another can spawn a shard the union alone would not need |
| `Subscriptions.EngineBaselineProtected` | crates/oxide-arb-api/src/ws/mod.rs:96-105 | No call of the web plane takes a token off the transport that the engine holds |
| `Subscriptions.AddReportsNew` | crates/oxide-arb-api/src/ws/mod.rs:81-91 | Adding reports exactly the tokens neither source held |
| `Subscriptions.DropReportsGone` | crates/oxide-arb-api/src/ws/mod.rs:96-105 | Removing reports exactly the tokens the source held and the other does not |
| `Subscriptions.SyncSets` | crates/oxide-arb-api/src/ws/mod.rs:109-127 | Both differences of a sync applied to the old union give the new union |
| `Subscriptions.ClobWsManager.SubscribeTokens` | crates/oxide-arb-api/src/ws/mod.rs:219-224 | In-place subscription keeps transport equal to union |
| `Subscriptions.ClobWsManager.UnsubscribeTokens` | crates/oxide-arb-api/src/ws/mod.rs:231-241 | In-place removal keeps transport equal to union and spawns nothing |
| `Subscriptions.ClobWsManager.SyncTokens` | crates/oxide-arb-api/src/ws/mod.rs:245-259 | In-place synchronisation makes the source set the desired one and keeps transport equal to union |
| `BookReplay.TimelineRefinesMaps` | crates/oxide-arb-control/src/evidence/book.rs:329-375 | With distinct snapshot prices and changes that are on the micro grid or hit no level, every book of the timeline is strictly sorted and denotes the price-to-size maps after exactly the rows before it |
| `BookReplay.BookAtIsAsOf` | crates/oxide-arb-control/src/evidence/book.rs:160-174 | The lookup returns the state after exactly the rows with event time at most t, and nothing when neither a row nor the bootstrap is that old |
| `BookReplay.AsOfLookupDenotes` | crates/oxide-arb-control/src/evidence/book.rs:160-174 | On clean data that book denotes the maps after those rows |
| `BookReplay.NoLookaheadIff` | crates/oxide-arb-control/src/evidence/book.rs:329-375 | A lookup never rests on a later bootstrap exactly when no row precedes the bootstrap |
| `BookReplay.FlagIsTrueIff` | crates/oxide-arb-control/src/evidence/book.rs:374-393 | The flag of the final book is true of it; the flag of a looked-up book is true exactly when that book is not crossed, because the clones are taken first |
| `BookReplay.ExactReplayHidesCrossedBook` | crates/oxide-arb-control/src/evidence/book.rs:329-410 | A crossing bid and its deletion give an ExactReplay report whose book in between is crossed and unflagged |
| `BookReplay.LookaheadHappens` | crates/oxide-arb-control/src/evidence/book.rs:329-375 | Any row before its bootstrap makes the lookup show the later snapshot |
| `BookReplay.OffGridDuplicates` | crates/oxide-arb-control/src/evidence/book.rs:582-597 | An eight-decimal price over an existing level leaves two levels at one stored price |
| `BookReplay.ExactReplayIff` | crates/oxide-arb-control/src/evidence/book.rs:245-287 | ExactReplay is reported exactly when every expected token has a snapshot, an uncrossed final book and no long gap; then every token has a book whose bids are all below its asks |
| `BookReplay.LongGapsZeroIff` | crates/oxide-arb-control/src/evidence/book.rs:329-410 | The gap counter is zero exactly when no gap between consecutively applied rows exceeds the limit |
| `BookReplay.SelectionCorrect` | crates/oxide-arb-control/src/evidence/book.rs:412-443 | The bootstrap is a newest snapshot of the token; its rows replay in time order and none is lost |
| `BookReplay.BooksComplete` | crates/oxide-arb-control/src/evidence/book.rs:304-327 | Without a reason to doubt, the report holds the final book of every token |
| `BookReplay.LevelsFromColumns` | crates/oxide-arb-control/src/evidence/book.rs:548-580 | The column loop yields levels and changes of the specification |
| `BookReplay.ApplyChangesTo` | crates/oxide-arb-control/src/evidence/book.rs:582-597 | The in-place edits and sort compute the specification |
| `BookReplay.TokenBook.ApplyL2Event` | crates/oxide-arb-control/src/evidence/book.rs:471-510 | In-place application of a row against the specification |
| `BookReplay.Reconstruction.Replay` | crates/oxide-arb-control/src/evidence/book.rs:329-375 | The replay loop yields timeline and gap count of the specification, and the final book with its flag |
| `BookReplay.Reconstruction.All` | crates/oxide-arb-control/src/evidence/book.rs:304-327 | The loop over tokens yields the report the theorems are about |
| `ReplayReasons.ReasonsAreExact` | crates/oxide-arb-control/src/evidence/book.rs:245-327 | A token is named missing exactly when it is expected without a snapshot, crossed exactly when its final book is, and a gap exactly when some expected token has one over the limit |
| `ReplayReasons.RowsAreSelected` | crates/oxide-arb-control/src/evidence/book.rs:412-443 | A token replays exactly its own rows, as often as given, by event time, ingestion time and sequence, ties in their order |
| `ReplayDecoding.ColumnsDecode` | crates/oxide-arb-control/src/evidence/book.rs:548-580 | The changes of a row are exactly its valid column entries up to the shorter column, in order |
| `ReplayDecoding.EntryInMicros` | crates/oxide-arb-control/src/evidence/book.rs:548-580 | A valid entry stores price and size in micro units, rounded down |
| `ReplayDecoding.GapIsDistance` | crates/oxide-arb-control/src/evidence/book.rs:471-510 | The gap at a row is its distance from the row before, none when time runs backwards |
| `ReplayDecoding.LargestGapRecorded` | crates/oxide-arb-control/src/evidence/book.rs:471-510 | A book records the largest gap of its rows |
| `BookLevels.ChangeRefinesIff` | crates/oxide-arb-control/src/evidence/book.rs:582-597 | Editing the list refines the map update exactly when the price has no digits finer than a micro or the book has no level at its truncated price |
| `BookLevels.SortSideCorrect` | crates/oxide-arb-control/src/evidence/book.rs:599-624 | Sorting keeps the meaning and is strict exactly when no price repeats |
| `BookLevels.CrossedIffOverlap` | crates/oxide-arb-control/src/evidence/book.rs:626-631 | On sorted sides the top-of-book test decides every pair of levels |
| `StableSorting.SortCorrect` | crates/oxide-arb-control/src/evidence/book.rs:599-624 | The sort is an ordered permutation |
| `StableSorting.SortStable` | crates/oxide-arb-control/src/evidence/book.rs:599-624 | Elements that compare equal keep their order |
| `Calibration.IndexesAgree` | crates/oxide-arb-algorithm/src/calibration/calibrator.rs:30-121 | Over every run of loads, records, replacements and reloads each aggregate is the saturated sum and exact mean of its buckets |
| `Calibration.CountsAlwaysAgree` | crates/oxide-arb-algorithm/src/calibration/updater.rs:181-186 | The counts agree through prior updates as well |
| `Calibration.PriorUpdateAgreement` | crates/oxide-arb-algorithm/src/calibration/updater.rs:181-186 | A prior update keeps a group mean in agreement exactly when the sparse buckets old priors already summed to the new ones |
| `Calibration.PriorUpdateGoesStale` | crates/oxide-arb-algorithm/src/calibration/updater.rs:181-186 | The first bucket of a fresh calibrator and any other prior leave the group mean stale |
| `Calibration.LookupAfterPriors` | crates/oxide-arb-algorithm/src/calibration/fallback.rs:132-182 | After a prior update a lookup is the scan of the buckets exactly when no group answers it, or the sparse priors of the answering group match the new ones |
| `Calibration.LookupIsScan` | crates/oxide-arb-algorithm/src/calibration/fallback.rs:132-182 | A lookup equals a scan of the buckets for the lowest credible tier, with its saturated counts and mean priors |
| `Calibration.RebuildCorrect` | crates/oxide-arb-algorithm/src/calibration/fallback.rs:38-44 | Rebuilding agrees with aggregation from scratch in any order |
| `Calibration.AddEntryAgrees` | crates/oxide-arb-algorithm/src/calibration/fallback.rs:52-85 | Merging a new bucket keeps agreement of both tiers |
| `Calibration.BumpAgrees` | crates/oxide-arb-algorithm/src/calibration/fallback.rs:93-109 | Counting an outcome keeps agreement of both tiers |
| `Calibration.RecordAgrees` | crates/oxide-arb-algorithm/src/calibration/calibrator.rs:83-109 | Recording an outcome keeps agreement, for new and known buckets |
| `Calibration.ResolutionCalibrator.RecordOutcome` | crates/oxide-arb-algorithm/src/calibration/calibrator.rs:83-109 | In-place recording against the specification |
| `Calibration.ResolutionCalibrator.ReplaceEntries` | crates/oxide-arb-algorithm/src/calibration/calibrator.rs:112-121 | In-place replacement loop against the specification |
| `Calibration.ResolutionCalibrator.MergeBucket` | crates/oxide-arb-algorithm/src/calibration/fallback.rs:61-85 | In-place merge into both aggregates against the specification |
| `Calibration.ResolutionCalibrator.BumpOutcome` | crates/oxide-arb-algorithm/src/calibration/fallback.rs:93-109 | In-place count of both aggregates against the specification |
| `CalibrationCounts.BucketsCountRecords` | crates/oxide-arb-algorithm/src/calibration/calibrator.rs:83-109 | Over every run of loads, records, reloads and prior updates a bucket exists exactly when loaded or recorded, its total and correct counts are the saturated numbers counted on the operations, and its priors are the loaded, bootstrap or updated ones |
| `CalibrationCounts.LookupCountsRecords` | crates/oxide-arb-algorithm/src/calibration/fallback.rs:132-182 | Over every run a lookup answers from the bucket exactly when its counted outcomes reach the minimum in force, and then with those counts and priors |
| `CalibrationCounts.LoadKeepsLast` | crates/oxide-arb-algorithm/src/calibration/calibrator.rs:112-121 | A load keeps the last entry of every bucket in the list |
| `EmissionCooldowns.EmissionSpacing` | crates/oxide-arb-algorithm/src/pipeline.rs:144-256 | Over every run with a monotone clock and a time to live that covers the longest cooldown, consecutive emissions of a market are at least the backed-off cooldown of the earlier one apart, through expiry and resets |
| `EmissionCooldowns.TtlCoversIff` | crates/oxide-arb-algorithm/src/cooldown.rs:39-49 | The time to live covers the longest cooldown exactly when that cooldown fits u64 seconds |
| `EmissionCooldowns.FullBackoffStartsOver` | crates/oxide-arb-algorithm/src/cooldown.rs:125-136 | When the time to live equals the longest cooldown, waiting out the full multiplier expires the entry, so backoff starts over |
| `EmissionCooldowns.WholeTtl` | crates/oxide-arb-algorithm/src/cooldown.rs:39-49 | That equality holds for every whole multiplier that fits |
| `EmissionCooldowns.GatePassed` | crates/oxide-arb-algorithm/src/cooldown.rs:107-122 | Passing the gate means the last cooldown is over, whether the entry was seen, expired or reset |
| `EmissionCooldowns.InMemoryEmissionCooldown.MayEmitNow` | crates/oxide-arb-algorithm/src/cooldown.rs:107-122 | In-place gate against the specification, counting suppressions |
| `EmissionCooldowns.InMemoryEmissionCooldown.RecordAt` | crates/oxide-arb-algorithm/src/cooldown.rs:125-136 | In-place record against the specification |
| `EmissionCooldowns.InMemoryEmissionCooldown.ReloadConfig` | crates/oxide-arb-algorithm/src/cooldown.rs:89-102 | A reload clears the cache exactly when capacity or time to live changes |
| `EmissionCooldowns.InMemoryEmissionCooldown.ProcessScan` | crates/oxide-arb-algorithm/src/pipeline.rs:144-256 | The gate sequence with its in-place reset and record against the specification |
| `EmissionCooldowns.ConfiguredTtl` | crates/oxide-arb-algorithm/src/cooldown.rs:39-49 | The time to live is the base times the multiplier rounded up, or times sixteen when that does not fit, saturated |
| `EmissionBackoff.EmitsIff` | crates/oxide-arb-algorithm/src/pipeline.rs:144-256 | At every scan of every run it is suppressed exactly when the market, by its emissions, resets and expiries counted on the scans, is still cooling down, and emits exactly when it is not and every other gate passes |
| `EmissionBackoff.EmitsOnceBackoffIsOver` | crates/oxide-arb-algorithm/src/cooldown.rs:107-122 | With a covering time to live a scan the other gates pass emits exactly when there is no streak or base * min(2^min(n,30), max) is over |
| `EmissionBackoff.EmissionsBackOff` | crates/oxide-arb-algorithm/src/cooldown.rs:125-136 | Consecutive emissions of a market are at least that back-off apart, for the n the scans count at the first one |
| `EmissionBackoff.CacheHoldsStreak` | crates/oxide-arb-algorithm/src/cooldown.rs:125-136 | Over every run the cache holds exactly the counted streak, its number of hits modulo 2^32 |
| `EmissionBackoff.OutcomeNamesFirstGate` | crates/oxide-arb-algorithm/src/pipeline.rs:144-256 | The outcome of every scan names the first gate that stops it |
| `OrderbookWalking.MostSharesForBudget` | crates/oxide-arb-algorithm/src/walker.rs:32-82 | On ascending asks none of which is below the floor, the cost walk buys at least as many shares as any order over the same levels whose exact cost is within the budget, spends at most the budget, and spent plus remaining is the budget |
| `OrderbookWalking.BudgetConserved` | crates/oxide-arb-algorithm/src/walker.rs:32-82 | Spent plus remaining is constant and the budget is never overdrawn, on any levels |
| `OrderbookWalking.CheapestForShares` | crates/oxide-arb-algorithm/src/walker.rs:87-136 | On ascending asks none of which is below the floor, the fills of the share walk have the least exact cost of all orders for the same number of shares, and the walk charges them rounded down level by level |
| `OrderbookWalking.ShareWalkTakes` | crates/oxide-arb-algorithm/src/walker.rs:98-118 | The totals of the share walk are those of its fills, which stay within the level sizes |
| `OrderbookWalking.CostWalkTakes` | crates/oxide-arb-algorithm/src/walker.rs:43-64 | The totals of the cost walk are those of its fills, which stay within the level sizes |
| `OrderbookWalking.CostTotalsExactIff` | crates/oxide-arb-algorithm/src/walker.rs:60-62 | The 64-bit totals of the cost walk are the true ones exactly when the shares bought fit 64 bits |
| `OrderbookWalking.ShareTotalCanWrap` | crates/oxide-arb-algorithm/src/walker.rs:60-62 | Bottomless levels make the share total wrap to one share at an average above every price |
| `OrderbookWalking.ShareTotalsExact` | crates/oxide-arb-algorithm/src/walker.rs:114-116 | The share total of the share walk always fits 64 bits; its totals are the true ones exactly when the cost fits, as on every book with prices of at most one |
| `OrderbookWalking.WalkFills` | crates/oxide-arb-algorithm/src/walker.rs:87-136 | With no live level below the floor, the share walk fills the target up to the depth and is complete exactly when the depth suffices |
| `OrderbookWalking.ServedIff` | crates/oxide-arb-algorithm/src/walker.rs:87-136 | A positive target is served exactly when some level is live and none is below the floor |
| `OrderbookWalking.FloorBlocksEverything` | crates/oxide-arb-algorithm/src/walker.rs:46-51 | On ascending asks a live level below the floor stops both walks before they buy anything |
| `OrderbookWalking.CostAverageNeverAboveConsumed` | crates/oxide-arb-algorithm/src/walker.rs:70-72 | The rounded average of the cost walk is never above the dearest level it took shares from, as long as the shares bought fit 64 bits |
| `OrderbookWalking.CostAverageOnFittingBook` | crates/oxide-arb-algorithm/src/walker.rs:70-72 | On a book whose whole depth fits 64 bits the rounded average of the cost walk is never above the dearest level it took shares from |
| `OrderbookWalking.ShareAverageNeverAboveConsumed` | crates/oxide-arb-algorithm/src/walker.rs:124-126 | The rounded average of the share walk is never above the dearest level it took shares from, as long as its cost fits 64 bits |
| `OrderbookWalking.NothingForNothing` | crates/oxide-arb-algorithm/src/walker.rs:52-54 | A budget of nothing buys nothing |
| `OrderbookWalking.WalkAsksByCost` | crates/oxide-arb-algorithm/src/walker.rs:32-82 | The loop over 64-bit totals computes the walk of the specification with its totals wrapped |
| `OrderbookWalking.WalkAsksByShares` | crates/oxide-arb-algorithm/src/walker.rs:87-136 | The loop over 64-bit totals computes the walk of the specification with its totals wrapped |
| `WalkReports.CostReport` | crates/oxide-arb-algorithm/src/walker.rs:32-82 | The cost walk reports the totals of its fills, the average to the nearest micro, the whole percentage of the depth, at least the levels consumed, and as filled when budget is left |
| `WalkReports.ShareReport` | crates/oxide-arb-algorithm/src/walker.rs:87-136 | The share walk reports the same, exactly the levels consumed, and as filled when the target is reached |
| `VotingOracles.QuorumIntersection` | crates/oxide-arb-api/src/oracle/mod.rs:200-229 | Resolved rounds over n consistent sources always agree exactly when twice the quorum exceeds n (or the quorum is zero, when every round says yes) |
| `VotingOracles.FaultTolerance` | crates/oxide-arb-api/src/oracle/mod.rs:200-229 | With at most f wrong answers a resolved round tells the truth exactly when the quorum exceeds min(f, n) |
| `VotingOracles.TruthResolves` | crates/oxide-arb-api/src/oracle/mod.rs:200-229 | A quorum of true answers against fewer wrong ones resolves to the truth |
| `VotingOracles.DecisionIgnoresOrder` | crates/oxide-arb-api/src/oracle/mod.rs:200-229 | The decision does not depend on the order of votes |
| `VotingOracles.FlipLaw` | crates/oxide-arb-api/src/oracle/mod.rs:200-229 | Flipping all votes mirrors the verdict exactly when yes and no do not both reach the quorum; when they do, yes wins |
| `VotingOracles.ReloadReplacesUma` | crates/oxide-arb-api/src/oracle/mod.rs:91-112 | A reload leaves exactly one UMA source, the new one, carries the others over in order, takes the configured quorum of at least one, delay and strategy, and forgets earlier reloads |
| `VotingOracles.VotingOracle.StageReload` | crates/oxide-arb-api/src/oracle/mod.rs:91-112 | The filter loop builds the staged state, or nothing when the source cannot be built |
| `VotingOracles.VotingOracle.Resolve` | crates/oxide-arb-api/src/oracle/mod.rs:137-175 | The collection loop and tally give the verdict of the specification, all-sources-down case included |
| `VotingOracles.VerdictIff` | crates/oxide-arb-api/src/oracle/mod.rs:137-229 | On every round, by its yes answers, no answers and faults: resolved exactly with a quorum on one side, disputed exactly with enough answers and neither side, unresolved exactly with fewer, and the reason in each case |
| `VotingOracles.VotesInOrder` | crates/oxide-arb-api/src/oracle/mod.rs:137-175 | A verdict carries the answers of the round in its order |
| `Urgency.UrgencyLaws` | crates/oxide-arb-algorithm/src/urgency.rs:21-38 | Between one and three, exact at both ends, never lower with less time left |
| `Urgency.UrgencyIsCubic` | crates/oxide-arb-algorithm/src/urgency.rs:21-38 | The multiplier is one plus twice the cubic 3t^2-2t^3 of the elapsed part t, both rounded down to millionths |
| `Urgency.FallbackNeverTaken` | crates/oxide-arb-algorithm/src/urgency.rs:21-38 | No clamp or conversion fallback ever takes effect |

## Left out

- The pre-trade check pipeline, exposure reservation, execution and governance: they only read the published state.
- Network clients, signing, the web layer, the shard actors and their timers: input and output over foreign libraries.
- Concurrency: apart from the gap of one fill, every call is atomic; two overlapping fill gaps, other interleavings inside one call, lock poisoning and lock-free reads in the middle of a call are not modelled.
- Capacity eviction of caches: maps are unbounded; emission spacing assumes no eviction.
- Metrics, events, logging and audit payloads: only whether an audit write succeeds is modelled.
- Decimal precision: decimals are exact reals, so 96-bit overflow and division rounding are not modelled; `f64` multipliers are reals as well.
- The panic itself: what a task or the process does after a breaker step panics, and panics outside the breaker, are not modelled.
- RiskEngineBooks.CommitFailureRollsBack: the miss counter is an input of the step here; `MissCounters` runs it along.
- RiskDurability.LagIff: a write that fails is taken to leave the stored state as it was, and an acknowledgement writes nothing.
- RiskRecovery.RebuiltIsNotMorePermissive: it compares with the stored engine (`RiskDurability` compares with the running one); boot is modelled on values; parsing of persisted text and out-of-range timestamps is not.
- BookReplay.ExactReplayIff: expected tokens are given sorted and without duplicates; JSON parsing, invalid-level counters, percentiles and decision views are not modelled.
- Calibration.PriorUpdateAgreement: the method-of-moments estimate of the new priors is an input.
- Calibration.ResolutionCalibrator.MergeBucket: the number of buckets behind an aggregate is unbounded.
- EmissionCooldowns.EmissionSpacing: the configuration is fixed during a run; a reload that rebuilds the cache clears cooldowns, as `ReloadConfig` states.
- Settlement deliveries: they are not deduplicated by the engine, so exactly-once is stated for fills.
- The cross-check delay of the oracle and the order in which sources answer.
