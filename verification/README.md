# Trading execution: lifecycle, recovery and admission

A Dafny model of the part of the trading system where money can be lost: how an order passes through its
durable state machine and an unreliable broker, how a restarted process sorts out what an interrupted one
left behind, how closed positions are found and charged to the risk counters, how a strategy's lifecycle stage
is committed, and how signals are admitted. One module per source component, one file per module;
`dafny verify dfyconfig.toml` checks everything.

## How it is modelled

**Execution lifecycle.** `ExecutionState` holds the state graph and the store, an object whose methods create,
move and advance records. `ExecutionPaths` tells the state graph backwards and in distances. `GraphSearch` is the breadth-first search
that recovery walks records along, for any finite graph. `TradeManagement` has the manager's code cut at its `await`s: from the duplicate gate to the first
submission (`OpenSegment`), and the handling of each answer (`ReplySegment`). Methods of the class
`TradeManager` are proved to compute these. `OrderProtocol` puts the pieces together as a transition
system: the store, the journal, the sessions that wait for the broker or sleep, every submission ever made, what
the broker has not decided and what it accepted, and a clock. Steps interleave freely: openings, answers, wake-ups, broker
decisions, marks by the runtime, journal writes, recovery passes with any snapshot and any gate (cut short by a crash after
any single write), and crashes, which drop every session. A run starts empty and is any sequence of steps. `OrderOrigins`
follows each record of a run back to its opening.

What the broker is assumed to do: an accepted order gets a non-empty id that no other order has; a success names an order it
accepted for that very request; only an error classified as ambiguous may hide an accepted order.
`OrderTiming` adds what is needed when recovery runs in mid-session: the broker decides and answers within a latency bound,
sleeping sessions wake on time, a gate-less pass runs only when nothing is in flight (at startup, after the outage), and the
runtime marks only records that have an order id.

**Recovery.** `StartupRecovery` takes a pass as a trace of states, one per record, over the records in any order; the method
`ReconcilePendingExecutions` is proved to produce such a trace, whether it completes or raises.
The theorems about passes are about all traces, in `RecoveryTheorems`, `RecoveryReport`, `RecoveryMatching` and
`RecoveryOwnership`; `RecoveryCrash` stops a pass after any of its writes and `RecoveryResume` takes it up again, `RecoveryOwnOrder`
asks whether a record gets its own order back, and `RecoveryScoring` follows a recovered order on to the
scoring of its close.

**Closes.** `CloseReconciliation` takes a tick of the runner as one step with everything from outside as its input: the
snapshot, the balance or its absence, the answer of each closing-deal lookup, and which alert fails. The class
`CloseReconciler` drives the journal, the risk guard, the portfolio and the circuit breaker. `CloseScores` tells what a tick scores by
what the broker reported. `DailyGuard` runs it through the days of a
service, with failing ticks, daily resets, saves of the state files, crashes and restarts: the rows are durable at once, the guard, the
snapshot and the portfolio only when they are saved, and the breaker never.

**Control plane.** `ControlPlane` models the PostgreSQL commit; stage normalization and the transition check are parameters,
since the lifecycle manager is not part of this model.

**Admission.** `SignalRouting`, `PortfolioManagement`, `PortfolioResults`, `OpenPositions`, `CorrelationManagement`, `CircuitBreaking`, `SignalRate`, `DemoRisk` and
`SessionFilter`.

Amounts, prices and fractions are reals, lots are whole steps, times are integers (seconds; microseconds in `SessionFilter`).
Iteration over a set, a dictionary of groups or a directory of records is in any order.

## Where the code gives less than one might expect

Each of these is a lemma below, with the exact condition.

- Failure cannot be reached from FILLED, RECONCILED, JOURNALED and PROJECTED, so a record there without an order id makes a pass
  raise and leave the records after it unresolved (`PassRaisesOnlyPastRescue`).
- A record without an id can adopt the order of another record that is known but not journaled (`OrdersKeepOneOwner`).
- A record that names no symbol can adopt a position, and one that knows an order can name another symbol than the position; either way
  the close is then never scored (`SymbolIsExact`, `ScoringIsExact`).
- A crash between the journal row of an adopted position and the attachment of its id leaves an order that is journaled and a record that
  the next pass fails (`CrashLosesTheOrder`).
- An opening with a governance decision but no permission raises and leaves its record at GOVERNANCE_VALIDATED (`OpeningOutcome`).
- Without correlation groups the caps cut a batch where it stands, so they can drop the best signal (`CapsAreExact`). The runner's batches
  come ranked from the router.
- The correlation filter compares first groups only, so when groups overlap two signals of one group and direction can stay,
  unlike its comment says (`FilterSeparatesGroups`).
- A crash between the close of a row and the save of the risk state loses the score of that close for good, and with it a halt that it
  caused (`GuardFollowsTheBooks`, `LostForGood`, `CrashLiftsTheHalt`); a position that no saved snapshot holds and that is gone at the
  restart is never scored (`RestartScoresSaved`, `UnsavedPositionIsForgotten`).
- Records that look alike can get each other's orders (`OwnOrderIsExact`).
- Orders that recovery finds are journaled but never counted, so each can push the positions really open one above the cap (`CapIsExact`).
- A symbol that comes twice in opposite directions, or is open in another one, hides a conflict from the correlation filter
  (`RepeatsAreExact`).
- The runner checks a whole batch before it records any signal, which exceeds the hourly limit by up to the size of the batch less one
  (`LimitIsExact`, `BoundIsExact`).
- A new date clears the cooldown of the circuit breaker (`CooldownIsExact`, `MidnightEndsCooldown`), and with the default limits, four losses and
  four trades, it can never start (`DefaultsNeverCool`).
- `seconds_to_next_session` rounds down, so between whole seconds the wait can end before the session opens
  (`RoundedDownBetweenSeconds`, `ZeroBeforeOpening`).

## Model

| member | source | states |
|---|---|---|
| `GraphSearch.ShortestPath` | execution/execution_state.py:91-110 | on any finite graph the search ends, a result is a legal path no longer than any other, and there is none exactly when the goal is unreachable |
| `GraphSearch.ClosedTrapsPaths` | execution/execution_state.py:91-110 | no path leaves a set that its own transitions do not leave; with it the empty result is justified |
| `GraphSearch.Deepen` | execution/execution_state.py:100-109 | when only longer paths wait in the queue, the nodes seen cover one more level, so first discovery is by a shortest path |
| `ExecutionState.FailureReachable` | execution/execution_state.py:71-88 | FAILED_TERMINAL can be reached exactly from the states before the order was filled, reconciled or journaled |
| `ExecutionState.CompletionReachable` | execution/execution_state.py:71-88 | COMPLETED can be reached from every state except the three other ends |
| `ExecutionState.TransitionsCanCycle` | execution/execution_state.py:71-88 | acknowledgement, partial fill and recovery form a legal cycle |
| `ExecutionPaths.FollowsExactly` | execution/execution_state.py:71-88 | one state can directly follow another in a walk from SIGNAL_RECEIVED if and only if it is listed among those that may come before it, for every pair of states |
| `ExecutionPaths.JustBeforeCompletion` | execution/execution_state.py:71-88 | every legal walk of more than one state to COMPLETED passes FILLED, RECONCILED, JOURNALED or PROJECTED just before |
| `ExecutionPaths.EndsAreStuck` | execution/execution_state.py:69-88 | the ended states are exactly those that nothing leaves |
| `ExecutionPaths.HistoryEnters` | execution/execution_state.py:192-216 | a stored history starts with SIGNAL_RECEIVED and enters each state from one that may come before it |
| `ExecutionPaths.StepsAreExact` | execution/execution_state.py:91-110 | for each state and each end: whether the end can be reached, and the number of transitions of every shortest walk |
| `ExecutionPaths.AdvanceIsExact` | execution/execution_state.py:255-277 | taking a record to an end appends exactly that many transitions, all of this moment, each from a state that may come before |
| `ExecutionState.MoveIsSafe` | execution/execution_state.py:192-216 | a transition only appends to the history, keeps it a legal walk from SIGNAL_RECEIVED to the present state, and never leaves an end |
| `ExecutionState.AdvancedIsSafe` | execution/execution_state.py:255-277 | walking a record to an end keeps its history a legal walk |
| `ExecutionState.ExecutionStateStore.CreateRecord` | execution/execution_state.py:160-186 | adds exactly one record, in SIGNAL_RECEIVED, and touches no other |
| `ExecutionState.ExecutionStateStore.Transition` | execution/execution_state.py:192-216 | changes this record alone, or nothing when it is missing or the move is illegal; every history in the store stays legal |
| `ExecutionState.ExecutionStateStore.RecoverIncomplete` | execution/execution_state.py:218-225 | lists every record that has not ended, once each |
| `ExecutionState.ExecutionStateStore.FindActiveByIdentity` | execution/execution_state.py:227-253 | nothing is found exactly when no unended record has the identity; otherwise the latest updated one of them |
| `ExecutionState.ExecutionStateStore.AdvanceToTerminal` | execution/execution_state.py:255-277 | succeeds exactly when the goal is reachable, then extends the history by one shortest legal path (with the number of steps that `ExecutionPaths.AdvanceIsExact` gives); on failure the store is unchanged |
| `TradeManagement.OpeningOutcome` | execution/trade_manager.py:92-161 | an opening is suppressed exactly when an unended record holds the identity, and otherwise raises exactly when governance came without permission; in all other cases a new record waits for submission. The new record has the metadata, strategy and identity of the call, and its history is exactly the states of the checks made, up to submission or to GOVERNANCE_VALIDATED |
| `TradeManagement.ReplyIsSafe` | execution/trade_manager.py:207-257 | no answer changes the state or history of an ended record, nor metadata, strategy or what the history of any record holds; a retry means a transient error, attempts left and a record still waiting; an order id comes from a success only |
| `TradeManagement.AnswerIsExact` | execution/trade_manager.py:207-257 | for a record in any state and every answer: the state and the order id it ends with, and whether the session is done, retries or raises |
| `TradeManagement.SessionOutcome` | execution/trade_manager.py:207-257 | the first answer that is not transient, or the third, decides the record's state and id, and that many orders were submitted |
| `TradeManagement.TradeManager.BeginOpen` | execution/trade_manager.py:92-161 | the code of the gate and of the way to submission computes the opening step of the protocol, which `OpeningOutcome` describes |
| `TradeManagement.TradeManager.OnReply` | execution/trade_manager.py:207-257 | the handling of success and exceptions computes the answer step of the protocol, failed transitions included |
| `TradeManagement.TradeManager.PlaceOrderWithRetry` | execution/trade_manager.py:207-257 | the undisturbed retry loop computes the session that `SessionOutcome` describes |
| `TradeManagement.TradeManager.MarkExecutionState` | execution/trade_manager.py:204-205 | a mark moves the record legally or changes nothing |
| `OrderProtocol.StepKeepsStore` | execution/trade_manager.py:92-161 | every step keeps one unended record per intent and legal histories, and loses no record |
| `OrderProtocol.OneActiveRecordInEveryRun` | execution/trade_manager.py:85-122 | over every interleaving of openings, answers, marks, passes, crashes (within the turn of a record too) and restarts at most one unended record exists per intent |
| `OrderOrigins.OriginIsKept` | execution/trade_manager.py:124-161 | over every run, crashes and passes included: at every moment after its opening a record has the metadata, strategy and identity of that opening, and its history goes on from the way the opening took |
| `OrderOrigins.EveryRecordHasItsOpening` | execution/execution_state.py:160-186 | every record of every run has such an opening |
| `OrderOrigins.HistoriesAreLegal` | execution/execution_state.py:192-216 | in no reachable store does a history enter a state from anywhere but the states that may come before it |
| `OrderSubmissions.StepKeepsSubmissions` | execution/trade_manager.py:207-257 | every step keeps: as many submissions as attempts, no two requests of one record that the broker may have taken, no two orders of one request |
| `OrderSubmissions.AtMostOneOrderPerRecord` | execution/trade_manager.py:207-257 | over every run, with no assumption on time, a record causes at most three submissions and at most one accepted order |
| `OrderTiming.PassSparesInFlight` | execution/startup_recovery.py:98-103 | with a gate above latency plus two seconds a mid-session pass leaves every record in flight exactly as it is |
| `OrderTiming.PromptReply` | execution/trade_manager.py:231-244 | every answer, a mere retry too, refreshes the record's clock, and no backoff exceeds two seconds |
| `OrderTiming.TimedInEveryRun` | execution/startup_recovery.py:117-127 | in every punctual run whatever is in flight belongs to an unended record without an id that is younger than the gate |
| `OrderTiming.AcceptedWhileActive` | execution/trade_manager.py:85-122 | the broker never accepts an order whose record has already been resolved |
| `OrderTiming.GateIsExact` | execution/startup_recovery.py:75-90 | no intent ever has two orders in flight, over all punctual runs, if and only if the gate exceeds the broker latency plus the largest backoff |
| `OrderTiming.SmallGateIsUnsafe` | execution/startup_recovery.py:75-90 | for every smaller gate a run of two retries, a pass and a second opening puts two orders of one intent in flight |
| `OrderRecovery.EarlyInEveryRun` | execution/trade_manager.py:207-257 | in every punctual run a record without an order id is in a state up to submission, in recovery, or failed |
| `OrderRecovery.RecoveryNeverRaises` | execution/startup_recovery.py:68-114 | at every moment of every such run no pass raises, whatever its gate, its order and the broker's positions |
| `OrderJournal.JournalStaysUnique` | core/trade_journal_db.py:97-159 | over every run the order ids of the journal stay unique exactly as long as the runtime never journals an order that is journaled already, by itself or by recovery |
| `Positions.Indexed` | execution/startup_recovery.py:93 | the lookup table has distinct non-empty ids, and exactly those of the snapshot |
| `Positions.IndexedIsIdentity` | execution/startup_recovery.py:93 | a snapshot with distinct non-empty ids is its own lookup table |
| `Positions.IndexedIsTable` | execution/startup_recovery.py:93 | an id that the snapshot repeats has one entry, at the place of its first and with the contents of its last occurrence |
| `StartupRecovery.FindMatch` | execution/startup_recovery.py:185-207 | a match is unlinked and agrees in every field both sides carry; there is none exactly when no such position exists |
| `StartupRecovery.CompatibleMeans` | execution/startup_recovery.py:190-206 | a position fits a record exactly when the fields that the record does not carry can be filled in so that they describe the position |
| `StartupRecovery.FirstFitWins` | execution/startup_recovery.py:193-207 | of several fitting positions the one listed first is taken |
| `StartupRecovery.Orphans` | execution/startup_recovery.py:109-114 | reported are exactly the positions neither linked nor held for a deferred record |
| `StartupRecovery.TraceInv` | execution/startup_recovery.py:91-107 | at every point of every pass: rows are only appended, linked ids are exactly the journaled ones, records already taken have ended as their order id says, all others are untouched |
| `StartupRecovery.ReconcileOne` | execution/startup_recovery.py:130-182 | resolving one record is one step of the trace, or raises with nothing changed when it must fail and cannot |
| `StartupRecovery.ReconcilePendingExecutions` | execution/startup_recovery.py:68-114 | the loop produces a trace of a pass, complete or up to the record that raises, and reports its resolutions and orphans; `RecoveryReport.ReportIsExact` and `RecoveryScoring.EveryRowHasItsRecord` say what the report and the rows of a trace contain |
| `RecoveryTheorems.PassRaisesOnlyPastRescue` | execution/startup_recovery.py:130-182 | no pass raises, for any order and any positions, exactly when no old enough record lacks an id past the point of failing |
| `RecoveryTheorems.PassResolvesEverything` | execution/startup_recovery.py:68-114 | after a complete pass every record that was not deferred has ended: COMPLETED with an order id, FAILED_TERMINAL without |
| `RecoveryTheorems.PassKeepsOrderIdsUnique` | execution/startup_recovery.py:139-154 | at every point of every pass no two rows share an order id and no row is lost |
| `RecoveryTheorems.PositionsPartitioned` | execution/startup_recovery.py:109-114 | after a pass an open position is in exactly one of: journaled, orphaned, held for a deferred record |
| `RecoveryTheorems.SecondPassChangesNothing` | execution/startup_recovery.py:91-114 | after a gate-less pass, any further pass over the same positions completes, resolves nothing, changes neither store nor journal, and reports the same orphans |
| `RecoveryReport.ReportIsExact` | execution/startup_recovery.py:97-107 | a complete pass reports exactly the unended records that were not too young, each once, with the state and the order id that the store then has: COMPLETED with an id, FAILED_TERMINAL without |
| `RecoveryReport.CountsAreExact` | execution/startup_recovery.py:59-65 | as many are counted recovered as those records own an order after the pass, as many lost as own none, and no line counts as neither |
| `RecoveryReport.HeldIsExact` | execution/startup_recovery.py:98-103 | at every point positions are held back only for records too young that they fit, and each such record has a fitting one held back unless all of them are journaled |
| `RecoveryMatching.TurnKeepsMatch` | execution/startup_recovery.py:185-207 | each record taken keeps: recovered records equal positions used up, and a record fails only when its key has no free position |
| `RecoveryMatching.RecoveredCount` | execution/startup_recovery.py:97-107 | with complete metadata and journaled known ids, each key recovers min(pending records, free positions), and exactly the rest fails |
| `RecoveryMatching.NoAssignmentBeatsThePass` | execution/startup_recovery.py:185-207 | no injective assignment of fitting free positions to pending records serves more records of a key than the greedy pass |
| `RecoveryOwnership.OrdersKeepOneOwner` | execution/startup_recovery.py:185-207 | no pass ever gives one order to two records, if and only if nothing seeks a position or every known id is journaled |
| `RecoveryOwnership.SeekerTakesKnownOrder` | execution/startup_recovery.py:185-207 | otherwise a seeking record that is taken first adopts the known order |
| `RecoveryScoring.EveryRowHasItsRecord` | execution/startup_recovery.py:210-244 | over every pass: a new row is that of a record that knew the order or sought it; it is long exactly if the record says buy (or names no direction), short exactly if it says sell, and has the strategy, symbol and size of the record and the entry price of the position |
| `RecoveryScoring.RecoveredRow` | execution/startup_recovery.py:210-244 | an order that a pass newly journals has exactly one row, and it is open |
| `RecoveryScoring.SymbolIsExact` | execution/startup_recovery.py:185-244 | over every pass on any table that shows a position, recovery only ever writes the symbol of that position for its order, if and only if every record that knows the order, or seeks and fits the position, names that symbol |
| `RecoveryScoring.RecoveredOrderIsScored` | execution/close_reconciliation.py:51-164 | an order that recovery journals is scored exactly once after its position vanishes, however many ticks fail before, if the records that may claim it name the symbol of the position |
| `RecoveryScoring.MismatchedOrderIsNeverScored` | execution/position_close_detector.py:30-39 | if the records that may claim it all name another symbol, or none, its row stays open in every run |
| `RecoveryScoring.ScoringIsExact` | execution/close_reconciliation.py:51-164 | every order that recovery journals is scored once its position vanishes, for every pass and every run of ticks, if and only if every record that may claim the order names its symbol |
| `RecoveryCrash.StopIsSafe` | execution/startup_recovery.py:130-182 | a crash may stop a pass after any single write, the row, the attached id or one transition; histories stay legal, deferred and ended records are untouched, order ids stay unique, and a record without an id has not left the early states except to fail |
| `RecoveryCrash.CrashAfterRow` | execution/startup_recovery.py:152-160 | a crash can leave the order of an adopted position journaled and its record without an id |
| `RecoveryCrash.CrashLosesTheOrder` | execution/startup_recovery.py:152-160 | after that no pass over the same positions, at any time and in any order, ever completes the record, if and only if no other free position fits it |
| `RecoveryResume.ResumeIsExact` | execution/startup_recovery.py:130-182 | after a crash anywhere in a gate-less pass, the pass over what is left, over the same positions in the same order, ends every record in the state and with the order of the uninterrupted pass, if and only if the crash did not come between the row of an adopted position and its id |
| `RecoveryOwnOrder.OwnOrderIsExact` | execution/startup_recovery.py:185-207 | a seeking record gets a given open order, and no other record does, at every point of every pass over these positions in whatever order positions and records are listed, if and only if no other record knows the order or seeks and fits its position, and no other free position fits the record |
| `RecoveryOwnOrder.AcceptedOrderReturns` | execution/startup_recovery.py:185-207 | at any moment of any run of the protocol, the open position of an order that the broker accepted for an opening goes to the record of that opening and to no other in every pass that may follow, if and only if no other opening asked for what the position shows and still seeks (or knows the order), and no other free position shows what this opening asked for |
| `CloseReconciliation.ClosedPositions` | execution/position_close_detector.py:24-27 | exactly the positions of the last snapshot whose id is no longer open |
| `CloseReconciliation.MatchTrade` | execution/position_close_detector.py:30-39 | an open row with the id and the symbol of the position, none exactly when there is none |
| `CloseScores.EarliestRowIsClosed` | execution/position_close_detector.py:30-39 | of several open rows that fit a position the one written first is closed |
| `CloseScores.VanishedInOrder` | execution/position_close_detector.py:24-27 | the vanished positions come in the order of the snapshot |
| `CloseScores.TickSettles` | execution/close_reconciliation.py:79-164 | a tick adds scores for exactly the vanished positions with an open row before the place where it stops, in the order of the snapshot. Profit and price are those of the closing deal, or else of the snapshot, or else the entry price; pnl times balance is that profit, the outcome is its sign, and the row is closed with the same |
| `CloseReconciliation.ThroughMeansScored` | execution/close_reconciliation.py:51-164 | the snapshot advances exactly when the tick got through, which means that every closed position with an open row was scored in it |
| `CloseReconciliation.TickKeepsConsistent` | execution/close_reconciliation.py:51-164 | a tick that stops anywhere keeps: a row is closed exactly when it was scored, and scored once; row and score agree in strategy, outcome, sign and multiple |
| `CloseReconciliation.ScoredExactlyOnce` | execution/close_reconciliation.py:51-164 | the same over every run of ticks, failing ones included, and journal writes, for snapshots with distinct ids |
| `CloseReconciliation.TickScoresOnceIff` | execution/close_reconciliation.py:79-164 | no tick scores a row twice, whatever it brings, if and only if no two positions of the snapshot fit one open row |
| `CloseReconciliation.DelayedPositionWaits` | execution/close_reconciliation.py:51-77 | through any number of failing ticks the position waits in the snapshot with its row |
| `CloseReconciliation.VanishedPositionIsScored` | execution/close_reconciliation.py:51-164 | while the process lives, a vanished position has been scored exactly once when a tick gets through, however often and however far ticks failed before |
| `DailyGuard.VanishedIsScoredExactly` | scripts/run_st_a2_demo.py:195-210 | with saves, crashes and restarts in the run too, a vanished position of the saved snapshot has its row scored once a tick gets through, if and only if no crash came while that row had been closed since the last save |
| `DailyGuard.RestartScoresSaved` | scripts/run_st_a2_demo.py:195-210 | a position that is gone at the restart has its row scored by the first tick that gets through, if and only if the saved snapshot holds it |
| `DailyGuard.UnsavedPositionIsForgotten` | scripts/run_st_a2_demo.py:195-210 | a position that no saved snapshot holds and that is gone at the restart leaves its row open in every continuation |
| `CloseReconciliation.TickIsLocal` | execution/close_reconciliation.py:79-164 | what a tick scores does not depend on what was scored before |
| `DailyGuard.GuardFollowsTheBooks` | scripts/run_st_a2_demo.py:363-369 | over every run of ticks, failing ones included, journal writes, openings, daily resets, saves and crashes: every closed row is scored, once, and the counters of the guard are those of the closes journaled since the reset, if and only if no crash comes while a row has been closed since the last save; then the halt means exactly that these closes reached a limit |
| `DailyGuard.LostForGood` | scripts/run_st_a2_demo.py:182-210 | a close that a crash loses is never scored later, whatever happens, further restarts included |
| `DailyGuard.CrashLiftsTheHalt` | scripts/run_st_a2_demo.py:182-210 | the failing run: one close of the whole balance halts the guard, and after a crash before the save the guard approves and the close is lost |
| `DailyGuard.Serve` | scripts/run_st_a2_demo.py:927-940 | the loop over the real objects and the state files, restarts included, computes that run, with the same exact condition and the same meaning of the halt |
| `CloseReconciliation.CloseReconciler.Charge` | execution/close_reconciliation.py:112-145 | one close updates row, guard, portfolio and breaker for the same score |
| `CloseScores.PortfolioHears` | execution/close_reconciliation.py:139 | the portfolio gets every result into its three totals and forgets exactly the scored symbols |
| `CloseScores.BreakerHears` | execution/close_reconciliation.py:140-145 | the breaker hears of the closes of each named strategy in their order, as won exactly for a win |
| `CloseReconciliation.CloseReconciler.Process` | execution/close_reconciliation.py:37-164 | the code computes the tick that `CloseScores.TickSettles` describes, and guard, portfolio and breaker have seen exactly its scores, in order, also when it stops early |
| `TradeJournal.TradeJournalDB.RecordSignal` | core/trade_journal_db.py:97-159 | appends one row with the next id and the fields of the signal, long exactly for BUY and short for SELL, BLOCKED exactly for signals not executed |
| `TradeJournal.TradeJournalDB.UpdateClose` | core/trade_journal_db.py:161-190 | closes the row with this id, keeping its other fields, and leaves every other row |
| `TradeJournal.TradeJournalDB.GetOpenTrades` | core/trade_journal_db.py:199-204 | exactly the open rows |
| `TradeJournal.TradeJournalDB.GetBrokerOrderIds` | core/trade_journal_db.py:213-222 | exactly the non-empty ids of all rows, whatever their status |
| `TradeJournal.InsertedOrderIds` | core/trade_journal_db.py:97-159 | an insertion keeps order ids unique exactly when they were and the id is not journaled |
| `TradeJournal.MaxDrawdown` | core/trade_journal_db.py:349-357 | the single pass finds the largest fall of the equity from any moment to any later one |
| `TradeJournal.FallStep` | core/trade_journal_db.py:349-357 | one more return changes the largest fall only by its distance from the peak so far |
| `ControlPlane.RunsKeepChainAndLog` | db/control_plane.py:97-157 | in every run each strategy's transitions chain without a gap up to its stage state, and decisions, transitions and outbox events correspond one to one |
| `ControlPlane.OneCommitPerRevision` | db/control_plane.py:97-105 | of all commands evaluated at one revision of a strategy at most one is ever committed |
| `ControlPlane.RevisionsIncrease` | db/models.py:384-396 | along the log of one strategy every revision is above all earlier ones |
| `ControlPlane.StaleCommandIsRefused` | db/control_plane.py:97-105 | after a commit, however much happens in between, a second command with the same expectation is refused |
| `ControlPlane.EveryEntryWasRight` | db/control_plane.py:160-188 | every entry ever logged is that of a command submitted just then which could be committed: the move is permitted between the normalized stages of the command, stage, revision, version and evidence were current, and actor, reason, policy version and evidence are the command's, in all three logs |
| `ControlPlane.CommitsExactly` | db/control_plane.py:76-105 | a command is committed if and only if its three fields are filled, both stages are known and the move between them permitted, stage, revision and version are current, and the evidence suffices |
| `ControlPlane.EveryCommittableIsLogged` | db/control_plane.py:76-158 | wherever a run submits such a command the log has its entry for good |
| `ControlPlane.RefusalTells` | db/control_plane.py:76-105 | the error of a refused command names something that is wrong with it |
| `ControlPlane.PostgresControlPlane.ValidateEvidence` | db/control_plane.py:160-188 | refuses exactly absent evidence and evidence that is not all current, qualifying and bound to strategy, version and stage |
| `ControlPlane.PostgresControlPlane.CommitTransition` | db/control_plane.py:76-158 | one transaction: the three log rows and the stage state exactly if `CommitsExactly` allows it, or, refused, an unchanged database |
| `SignalRate.WindowHolds` | core/circuit_breaker.py:82-86 | over every run of batches what the breaker remembers is the end of the full log, everything it forgot is an hour old, and signals further apart in the log than the bound are an hour apart in time |
| `SignalRate.HourlyLimit` | core/circuit_breaker.py:70-104 | when each signal is recorded before the next is checked and the clock never goes back, every hour of the whole run holds at most the allowed signals, although old times are forgotten |
| `SignalRate.HourlyBound` | scripts/run_st_a2_demo.py:533-545 | in every run that checks batches of at most b signals before recording them, every hour holds at most b - 1 signals above the limit |
| `SignalRate.BatchedChecksOvershoot` | scripts/run_st_a2_demo.py:533-545 | for all limits that admit anything and every b a run meets that bound |
| `SignalRate.BoundIsExact` | core/circuit_breaker.py:70-104 | n bounds every hour of every such run if and only if n is at least limit - 1 + b |
| `SignalRate.LimitIsExact` | core/circuit_breaker.py:70-104 | the hourly limit holds in all runs with batches of at most b if and only if b is at most one, or the limits admit nothing |
| `CircuitBreaking.CooldownIsExact` | core/circuit_breaker.py:53-99 | a cooldown refuses every check until it is over, on any calendar and whatever calls come in between, if and only if the date does not change in that span |
| `CircuitBreaking.MidnightEndsCooldown` | core/circuit_breaker.py:53-63 | a cooldown started an hour before midnight is over at midnight |
| `CircuitBreaking.CooldownReachable` | core/circuit_breaker.py:88-97 | some run starts a cooldown if and only if a day has room for a trade beyond the losses that start it |
| `CircuitBreaking.DefaultsNeverCool` | core/circuit_breaker.py:25-30 | with the default limits no run ever does, since the daily limit answers first |
| `CircuitBreaking.VerdictIsExact` | core/circuit_breaker.py:70-99 | each verdict of a check, told by the unfinished cooldown, the signals of the last 3600 seconds and what was traded and lost on the date, and what the check leaves of them |
| `CircuitBreaking.TradesAreOfTheDate` | core/circuit_breaker.py:106-110 | over every run of calls the trades counted are those since the date changed last |
| `CircuitBreaking.StreakIsHistory` | core/circuit_breaker.py:106-113 | over every run of calls the losing streak is the trades since the last win, started cooldown or change of date |
| `CircuitBreaking.DefaultsAdmit` | core/circuit_breaker.py:25-30 | by default the sixth signal within the hour and the fourth trade of the day are the last ones admitted |
| `CircuitBreaking.CircuitBreaker.Check` | core/circuit_breaker.py:70-99 | the code computes the check, state changes of each refusal included |
| `CorrelationManagement.CorrelationManager.Check` | core/correlation_manager.py:38-69 | blocked exactly when another symbol of a shared group is open in the same direction |
| `CorrelationManagement.CorrelationManager.FilterSignals` | core/correlation_manager.py:71-88 | the loop computes the greedy choice |
| `CorrelationManagement.GreedyIsMaximalIndependent` | core/correlation_manager.py:71-88 | for distinct symbols that are not open, the approved signals are free of conflicts among themselves and with open positions, and a signal is approved if and only if it conflicts neither with an open position nor with a signal approved before it |
| `CorrelationManagement.RejectionHasRival` | core/correlation_manager.py:71-88 | in any batch a rejected signal conflicts with an open position or with a signal approved earlier in the batch |
| `CorrelationManagement.EvaluationIsFresh` | core/portfolio_manager.py:67-98 | evaluating a routed batch establishes what the filter needs |
| `CorrelationManagement.RepeatedSymbolHidesConflict` | core/correlation_manager.py:71-88 | whenever a symbol comes twice before another of its groups, directions exist for which a conflict between signals is approved, whatever is open |
| `CorrelationManagement.OpenSymbolHidesConflict` | core/correlation_manager.py:71-88 | whenever an open symbol comes before another of its groups, directions exist for which a conflict with the position is approved |
| `CorrelationManagement.RepeatsAreExact` | core/correlation_manager.py:71-88 | for every set of open symbols and every list of symbols: whatever the directions, the approved signals are free of conflicts with each other and with the positions, if and only if no symbol that is open or came before is followed, once it comes (again), by another symbol of one of its groups |
| `PortfolioManagement.CapsDropTheWorst` | core/portfolio_manager.py:67-98 | with groups configured, or a ranked batch, no signal that a cap drops is more confident than one that stays |
| `PortfolioManagement.UnrankedBatchLosesItsBest` | core/portfolio_manager.py:67-98 | for every configuration without groups and every portfolio with room a batch of new and distinct symbols exists whose best signal is dropped |
| `PortfolioManagement.CapsAreExact` | core/portfolio_manager.py:67-98 | for every configuration and portfolio: no batch ever loses a signal to a cap that is better than one it keeps, if and only if groups are configured or the caps leave no room |
| `PortfolioManagement.EvaluatedSymbols` | core/portfolio_manager.py:67-98 | an evaluation keeps symbols distinct and names none that is open |
| `PortfolioResults.EligibleWithoutGroups` | core/portfolio_manager.py:72-86 | without groups a signal gets to the caps exactly if its strategy is enabled, trades the pair and is confident enough by its own and the common threshold, and the symbol is not open |
| `PortfolioResults.EligibleWithGroups` | core/portfolio_manager.py:167-209 | with groups such a signal is dropped exactly for an eligible one of the same first group and direction that is at least as confident |
| `PortfolioResults.EligibleAreNoRivals` | core/portfolio_manager.py:179-203 | no two eligible signals have the same first group and direction |
| `PortfolioResults.ResultSize` | core/portfolio_manager.py:88-98 | as many of the eligible signals, from the front, are returned, ranked, as the trades of the day and the open positions leave room for |
| `PortfolioManagement.CapsHold` | core/portfolio_manager.py:67-110 | over every run in which only results of the latest evaluation are placed, neither counter ever exceeds its cap |
| `PortfolioResults.DayGoesOn` | core/portfolio_manager.py:100-110 | over every run on one date the trades counted are the placements and the total of the day is the sum of the results |
| `PortfolioResults.TotalsAreResults` | core/portfolio_manager.py:105-110 | over every run the totals of week and month gain every result |
| `PortfolioResults.OpenIsPlaced` | core/portfolio_manager.py:100-107 | over every run a symbol counts as open exactly if it was placed, or open before, and not closed since |
| `OpenPositions.HeldBound` | scripts/run_st_a2_demo.py:855-881 | over every run of routed batches at most the cap plus the positions that recovery found are really open |
| `OpenPositions.OpenBoundIsExact` | scripts/run_st_a2_demo.py:855-881 | n bounds the positions really open in all runs with at most r recovered ones if and only if n is at least what the caps let the counters count, plus r |
| `OpenPositions.CapIsExact` | scripts/run_st_a2_demo.py:855-881 | the cap bounds the positions really open in all such runs if and only if nothing is recovered, or no trade is ever allowed and the cap has room for what is recovered |
| `PortfolioManagement.KeepFirstIsBest` | core/portfolio_manager.py:188-203 | of each group and direction one signal is kept, and every dropped one has a kept rival of its group and direction that is at least as confident |
| `PortfolioManagement.FilterSeparatesGroups` | core/portfolio_manager.py:179-209 | no two kept signals of one direction share a group, for any batch, if and only if symbols that share a group always have the same first group |
| `PortfolioManagement.PortfolioManager.ApplyCorrelationFilter` | core/portfolio_manager.py:179-203 | the loop computes the filter that `KeepFirstIsBest` describes |
| `PortfolioManagement.PortfolioManager.Evaluate` | core/portfolio_manager.py:67-98 | the code computes the evaluation after the daily reset, and changes nothing but that reset |
| `PortfolioManagement.PortfolioManager.RecordClose` | core/portfolio_manager.py:105-110 | the symbol is open no more and the result is in all three totals |
| `SignalRouting.Route` | core/signal_router.py:36-57 | the result is ranked, has distinct symbols, and holds the first most confident valid signal of exactly the symbols without a conflict |
| `SignalRouting.ValidMeansSound` | core/signal_router.py:61-94 | a signal passes the checks exactly if it names a symbol and a known action, has a price and has not outlived its time, and, unless it closes, its stop risks and its target gains something |
| `SignalRouting.ResolveConflicts` | core/signal_router.py:98-117 | every symbol without signals in both directions is kept once, by the first of its most confident signals; the others vanish |
| `Signals.RankIsStable` | core/signal_router.py:55-57 | signals of equal confidence keep the order they came in |
| `Signals.RankRanks` | core/signal_router.py:55-57 | ranking orders by descending confidence |
| `Signals.RankKeepsDistinct` | core/signal_router.py:55-57 | ranking keeps symbols distinct |
| `DemoRisk.CountersAreHistory` | execution/demo_risk_manager.py:103-139 | after a reset the counters are the total loss, the length of the losing streak at the end and the number of closes, and the guard is halted exactly when some prefix of the closes reached a limit |
| `DemoRisk.HaltLasts` | execution/demo_risk_manager.py:80-100 | once a limit was reached nothing is approved before the next reset, whatever closes follow |
| `DemoRisk.ApprovalMeans` | execution/demo_risk_manager.py:80-100 | approval means exactly: no limit ever reached since the reset, and room under both caps |
| `DemoRisk.HaltReasonIsExact` | execution/demo_risk_manager.py:118-127 | the halt is for the daily loss exactly once 1.5% are lost since the reset, and for consecutive losses exactly if less was lost and three losses in a row came at any time since |
| `DemoRisk.VerdictIsExact` | execution/demo_risk_manager.py:80-100 | every answer of the check by the closes since the reset; the two limit checks behind the halt never answer |
| `DemoRisk.RiskState.RecordResult` | execution/demo_risk_manager.py:103-128 | the code records one close, and the halt flag and its reason agree |
| `DemoRisk.RiskState.ResetDaily` | execution/demo_risk_manager.py:131-139 | everything but the open positions starts anew |
| `SessionFilter.SecondsToNextSession` | data/session_filter.py:40-65 | from every whole second the answer is the least number of seconds after which a session is active; from any instant it is the distance of the first active instant, rounded down; the seven-day search never comes back empty |
| `SessionFilter.LeastIsNext` | data/session_filter.py:50-65 | the nearest collected opening is the first instant from now at which a session is active |
| `SessionFilter.SessionHours` | data/session_filter.py:13-36 | London is active from seven to ten, New York from one to four in the afternoon, Monday to Friday, and nothing else |
| `SessionFilter.RoundedDownBetweenSeconds` | data/session_filter.py:65 | a session is active after the wait if and only if one was active at the start or the start was a whole second |
| `SessionFilter.ZeroBeforeOpening` | data/session_filter.py:65 | in the last second before any opening the wait is zero and no session is active |

## Left out

- RecoveryTheorems.SecondPassChangesNothing: is about complete first passes; `RecoveryResume.ResumeIsExact` has the interrupted ones.
- OrderTiming.GateIsExact: assumes that a gate-less pass runs only when nothing is in flight, as at startup after an outage longer than the latency, and that the runtime marks only records with an order id (scripts/run_st_a2_demo.py:722-726).
- OrderRecovery.RecoveryNeverRaises: rests on that same promise about marks; without it `PassRaisesOnlyPastRescue` has the exact condition.
- CloseReconciliation.VanishedPositionIsScored: is about one process; `DailyGuard.VanishedIsScoredExactly` has the runs with crashes.
- SignalRate.HourlyLimit: does not cover `reset_strategy`; `LimitIsExact` covers the runner's order of checking a whole batch first.
- RecoveryMatching.RecoveredCount: requires complete metadata and journaled known ids; without the latter one order can serve two records (`OrdersKeepOneOwner`).
- Reading the text of an error message to classify it: the class is the broker's answer; a message in both lists is ambiguous, and the message of a refused transition is permanent.
- The metadata of later history events, and `position_ref`, which always equals the broker order id.
- Hashing and time buckets in `build_intent_identity`: identities are compared, nothing else; the fresh key of a new record is a parameter.
- The guard's own count of open positions, which recovery does not raise either.
- Failing writes of the store, the journal and the state files, and the JSON, SQLite and SQLAlchemy layers: a write is one atomic change.
- The clock within one stretch of code without an `await` stands still.
- Lots that are not numbers, which the match of recovery treats like absent ones, and its tolerance of a millionth.
- Rounding of floats and of the stored multiple, and case folding and whitespace of stage names and directions before they are compared; Unicode space separators beyond the first 256 characters.
- The order of open trades by timestamp: it is the order of insertion.
- Weekly and monthly loss queries, lot calculation, Sharpe ratio and averages, exporting and loading state: single expressions or plain queries.
- Closing, modifying and emergency-closing positions, broker clients, market data, dashboards, Telegram texts, logging and the command line.
