# Verified model of the Tool-Trade backtest, ledger, scheduler and indicators

The system turns 1H candles into at most one trading signal per symbol, watches each signal on
1-minute candles, and books the outcome in a demo ledger. The same rules run twice: live, as
several daemons over one SQLite file, and offline, as a backtest. This project models four of
its parts in Dafny and proves what each promises over whole runs.

**Backtest replay** (`Replay`, `Backtest`, `NoLookahead`, `RunInvariants`, `RunTheorems`,
`DecisionLaws`, `TradeLaws`, `AmbiguityLaws`, `RunFailures`, `EquityBound`, `Metrics`, with
`DemoAccount`, `Validator` and `Monitor`). `Replay` says what a run means: a shared cursor
drains minutes up to each decision time, then a gated decision may create the one active signal.
`Backtest.BacktestEngine` is the loop itself, with the same mutable fields, and is proved to
compute exactly that. On it: no look-ahead as a theorem about two runs, first-touch refinement,
conservation of counts and money, non-overlap, and a bound on every equity step with slippage,
fees and funding. `DecisionLaws`, `TradeLaws` and `AmbiguityLaws` say of a completed run, from
its inputs and its result alone, which gate stopped each candle, what every listed entry means
and what every trade cost; `RunFailures` says exactly when a minute makes it raise. `Metrics`
proves the one-pass statistics against their quadratic definitions.

**Shared ledger** (`Ledger`, `LedgerInvariant`, `LedgerLaws`, `PositionLaws`, `Daemons`,
`LedgerSafety`, `LedgerTheorems`, `Recovery`, `CrashRecovery`, `ManualClose`, `ExecutorLaws`,
`Store`, `Executor`, `LiveMonitor`, `LiveAgreement`, `LiveRuns`, `Runtime`, `RuntimeLaws`).
Every write transaction is one atomic step on the rows; a daemon, or the dashboard's manual
close, is a program counter plus the rows it has read; a run is any sequence of steps of any of
them, with crashes. `Store`, `Executor`, `LiveMonitor`, `ManualClose` and `Runtime` hold the
classes that update the tables in place, each method proved equal to its ledger function.
`CrashRecovery` shows that a restart books exactly what a crash left unbooked, however many
signals that is.

**1H scheduler** (`Scheduler`, `TickOutcomes`, `SchedulerTheorems`). One tick with its gates,
the persisted marker and the circuit breaker, and exactly when it gives each answer; runs are
sequences of ticks and restarts.

**Indicators and indexes** (`Indicators`, `IndicatorLaws`, `IndicatorMeaning`, `IndicatorLoops`,
`Rolling`, `Causality`, `Positioning`, `Htf`, `Structure`, `StructureMeaning`, `Keys`). The
recurrences with missing rows, the freeze/thaw of the positioning history, the 4H rollup, swing
structure and regime.

Prices and money are `real`; a missing row (NaN) is `None`; an exception is a `Failure`. The
decision provider, the blackout calendar, the market feeds, the analyzer and the signal engine's
answers, the market price of a manual close and the library's square root are parameters: any
deterministic function, or any input.

## Where the code and its documentation differ

- `create_signal` is documented to refuse creation while *any* active signal exists
  (database/database.py:663-665); the query and the error text are per symbol. The
  model follows the query: `LedgerTheorems.TwoSymbolsMayBothBeActive`.
- The guardrail says an accepted trade at least pays for itself
  (signal_engine/validator.py:74-76, 359-365). It charges twice the entry notional, so a LONG at
  the boundary still loses the fee on its own gain: `Validator.AcceptedLongMayLoseAtTarget`,
  with the exact profit condition in `Validator.AcceptedLongAtTarget`. A SHORT always earns.
- `detect_structure` is documented to exclude the two newest candles
  (binance/htf.py:92); only the newest is excluded, and the confirmation filter drops
  nothing: `Structure.SecondNewestCanBeASwing`, `Structure.ConfirmationDropsNothing`.
- The scheduler says a candle is analyzed at most once and that a created signal whose
  marker write failed cannot be repeated (signal_engine/scheduler.py:29-33, 842-849). That
  holds exactly when the answer is a rate limit, a WAIT or a rejection whose marker can be
  written, or a created signal whose marker can be written or needs no older row
  (`SchedulerTheorems.WillBeRecorded`): a failed or raced analysis is retried, and a created
  signal that leaves its active state within the hour is analyzed again when an older marker
  row exists: `SchedulerTheorems.CandleIsFinalExactlyWhen`,
  `SchedulerTheorems.CreatedCandleCanBeAnalyzedAgain`.
- The same text says that with an active signal the scheduler returns BLOCKED_ACTIVE_SIGNAL
  before any market-data fetch (signal_engine/scheduler.py:34-36). Detection fetches first, and
  that answer comes exactly when the fetch found a new candle: `SchedulerTheorems.BlockedExactlyWhen`,
  with a tick that reports DATA_UNAVAILABLE instead in `SchedulerTheorems.ActiveSignalMayReportMissingData`.
- The manual close is documented to land on TP_HIT when the exit is profitable and on SL_HIT when
  it is a loss (web/server.py:331-333). It compares the market price with the signal's entry, before
  slippage and fees: SL_HIT always loses, TP_HIT wins exactly when the exit also beats the fees:
  `ManualClose.TpHitWinsExactlyWhen`, `ManualClose.TpHitMayLose`.
- The backtest waits for a signal's decision time. The live monitor has no such gate: its first
  polls read a minute that opened earlier, which the backtest consumed before the signal existed
  (`LiveRuns.CursorIsPastTheDecision`). `LiveRuns.LiveMayEnterEarly` is a run in which they differ;
  `LiveRuns.PendingAgreesExactlyWhen`, `LiveRuns.LiveAgreesExactlyWhen` and
  `LiveRuns.RunAgreesWithLiveExactlyWhen` say exactly when they agree.
- Startup recovery is documented to find the active signal (signal_engine/recovery.py:128-140);
  it reads one listing page of 100 rows per status, so beyond that it can miss one:
  `Recovery.RecoveryFindsTheActiveSignal` (exact), `Recovery.RecoveryMissesBeyondOnePage`. With
  the three symbols the shipped configuration knows (signal_engine/config.py:82), or any 100,
  it misses none: `Recovery.RecoveryIsCompleteForFewSymbols`.
- `reconcile` returns the number of positions it recovered (demo/executor.py:258-265) but also
  counts one that already existed (demo/executor.py:269-272): the counter is right exactly when
  the active signal's position was not there, `ExecutorLaws.RecoveredPositionsAreCountedExactlyWhen`,
  with the failing input in `ExecutorLaws.ExistingPositionCountsAsRecovered`.

## Model

| member | source | states |
|---|---|---|
| Backtest.BacktestEngine.Run | backtest/engine.py:277-539 | the whole loop over candles and minutes, on mutable fields, ends in exactly the result `Replay.Run` defines, or raises its error |
| Backtest.BacktestEngine.MonitorMinute | backtest/engine.py:310-354 | one minute makes at most one lifecycle move: enter, mark ambiguous, or settle the trade and the balance |
| Backtest.BacktestEngine.MonitorEntry | backtest/engine.py:316-332 | a pending signal opens only on a clean entry; an ambiguous candle is counted and leaves it pending |
| Backtest.BacktestEngine.MonitorExit | backtest/engine.py:333-354 | an open signal settles at a clean exit: balance, equity, trade, event and counter move together |
| Backtest.BacktestEngine.DrainUntil | backtest/engine.py:360-375 | the inner minute loop stops at the first minute not before the limit, having fed every earlier one once |
| Backtest.BacktestEngine.DecideCandle | backtest/engine.py:377-457 | gates, provider call, counters and creation for one decision candle, with both error cases; what its gates amount to is `DecisionLaws.EveryCandleIsAccountedFor` |
| Backtest.BacktestEngine.CreateFrom | backtest/engine.py:446-468 | a rejected analysis is only recorded; an accepted one becomes the active signal with the next index |
| Backtest.BacktestEngine.ReplayHours | backtest/engine.py:356-468 | the main loop over decision candles, from the initial values |
| Backtest.BacktestEngine.OpenPosition | backtest/engine.py:541-562 | sizes with slippage and fills the mutable signal, or raises leaving it unfilled |
| Backtest.BacktestEngine.ClosePosition | backtest/engine.py:564-597 | exit price, fees, funding, net and R multiple of the configured level; returns the net once |
| Backtest.BacktestEngine.ChargeFunding | backtest/engine.py:599-609 | the loop computes the funding of a trade, which `TradeLaws.FundingIsTheChargedSum` puts in one formula |
| Replay.CursorAt | backtest/engine.py:360-363 | where the shared cursor stops: the first minute at or after the limit |
| NoLookahead.DecisionsUseOnlyClosedData | backtest/engine.py:310-468 | two datasets that agree on candles up to i and on minutes before i's decision time give the same state after candle i: decisions, events, trades, equity, active signal, or the same error |
| NoLookahead.CandleUsesOnlyClosedData | backtest/engine.py:356-457 | one candle step depends only on its window and on minutes before its decision time |
| RunTheorems.RunConservesCounts | backtest/engine.py:377-539 | eligible = analyzed + blocked; analyzed = wait + long + short; long + short = rejected + created; created = completed + open + pending, with at most one left over |
| RunTheorems.RunConservesMoney | backtest/engine.py:348-354 | balance change = sum of net = gross - fees - funding, and the equity curve is the sequence of partial sums |
| RunTheorems.TradesAreNumberedInOrder | backtest/engine.py:459-486 | trade k has index k, and every created signal completed except possibly the last |
| RunTheorems.EverySignalGetsItsFirstTouch | backtest/engine.py:310-375 | each event reports the declarative answer over the whole minute series: first clean entry from its decision time, first clean exit strictly after |
| RunTheorems.FirstTouchIsUnique | signal_engine/monitor.py:232-279 | that declarative answer is unique, so it pins the event down |
| RunTheorems.TradesDoNotOverlap | backtest/engine.py:310-375 | decision time <= entry < exit < next decision time |
| RunTheorems.LaterTradesEnterLater | backtest/engine.py:310-375 | any earlier trade exits before any later one enters |
| RunTheorems.FundingIsChargedAtMostOnce | backtest/engine.py:599-609 | no funding instant is charged to two trades |
| RunTheorems.RunTalliesItsLists | backtest/engine.py:470-539 | the reported tallies are the sizes of the reported lists, per side, and trade k tells the same story as event k: times, levels, outcome |
| DecisionLaws.EveryCandleIsAccountedFor | backtest/engine.py:377-457 | every decision candle is blocked exactly if a reported signal was alive at its decision time, else blocked exactly if the blackout named a reason then, else recorded; a recorded one creates a signal exactly if its analysis is acceptable and is rejected exactly if it is tradable and not acceptable |
| DecisionLaws.EveryEntryIsGenuine | backtest/engine.py:377-468 | each record carries what the provider decided on its own window, each block its blackout reason or its live signal, each rejection its error, each event the levels its own analysis proposed; each decision counter counts the records of its kind |
| DecisionLaws.RunFailsGenuinely | backtest/engine.py:406-444 | a run that raises names a candle whose provider call really failed or answered an unknown decision, or a minute it could not process |
| RunFailures.RunRaisesExactlyWhen | backtest/engine.py:310-375 | a run raises over a minute if and only if a minute due before the next decision touches the active signal and the move cannot be priced: an entry with no money left, or a price that slippage of 100% or more takes; the error names that minute |
| RunFailures.MinuteFailsExactlyWhen | backtest/engine.py:310-354 | the same for one minute, from any state with sound books |
| TradeLaws.EveryTradeIsPricedRight | backtest/engine.py:541-609 | trade k of a run is filled at the adverse price and sized greatest within both caps by the k-th equity point, and its exit price, gross, fees, funding, net and R multiple are in closed form; the next equity point is this one plus the net |
| TradeLaws.FundingIsTheChargedSum | backtest/engine.py:599-609 | funding is the position size times the sum of the rates inside the lifetime, both ends included |
| TradeLaws.ChargedExactlyWhen | backtest/engine.py:602-606 | a rate is among the charged ones if and only if it is configured and its instant lies between entry and exit, both included |
| TradeLaws.OneMoreRateCosts | backtest/engine.py:599-609 | at any place of the list a rate inside the lifetime adds rate times size, and one outside adds nothing |
| AmbiguityLaws.EveryDoubtIsListed | backtest/engine.py:318-346 | a run lists a minute as ambiguous if and only if some reported signal was waiting and the candle reached its entry with another level, or was open and it reached both exits; with the right signal, phase and direction, and both counters count their kind |
| AmbiguityLaws.EveryFlagIsGenuine | backtest/engine.py:318-346 | a trade carries the ambiguity flag if and only if some listed minute is its own |
| EquityBound.EachEquityStepIsBoundedWithCosts | backtest/engine.py:541-609 | for every valid configuration, each step starts from a positive equity and loses at most: the risked share and the slippage of both fills, the fees on them and on both caps, and the funding rates of the trade's lifetime on a full-size position |
| EquityBound.EachEquityStepIsBounded | backtest/engine.py:541-597 | without slippage and funding that is the risked share plus the fees on both caps |
| Metrics.Compute | backtest/metrics.py:117-233 | the single pass yields counts, sums, rates and averages per side and in R, holding times, longest net-win and net-loss blocks, peak and maximum fall as defined over all trades and all pairs of points |
| Metrics.SumTrades | backtest/metrics.py:148-190 | accumulators equal sums over the trades, balance against each other, and the streaks are the longest contiguous blocks |
| Metrics.PeakAndDrawdown | backtest/metrics.py:219-233 | peak is the maximum; the drawdown is the largest fall from an earlier to a later point, with the peak it fell from |
| Metrics.StatisticsMatchTheRun | backtest/metrics.py:148-195 | reported net equals the balance change of the run and gross minus fees minus funding |
| Metrics.MaxDrawdownFromPath | demo/statistics.py:73-85 | largest fall of the balance path; raises exactly when some balance is negative |
| Metrics.QuotientsRead | backtest/metrics.py:34-43 | a reported ratio times its denominator is the numerator, a percentage times it is 100 numerators, and both are missing exactly at a zero denominator |
| Metrics.OneMoreTradeAdds | backtest/metrics.py:148-190 | what one more trade adds to each accumulator in its own numbers; with none before the first trade this fixes them all |
| Metrics.CompletedTradesHaveExits | backtest/metrics.py:26-31 | the pass runs over the trades that have an exit, in order, and a win is a positive net |
| DemoAccount.SizingSucceedsExactlyWhenSizable | demo/account.py:260-287 | sizing raises exactly for a non-positive input, a leverage below 1, or a stop at the entry |
| DemoAccount.QuantityIsGreatestWithinBothCaps | demo/account.py:260-287 | the quantity is the greatest one within both the margin cap and the risk cap, and the named rule is met exactly |
| DemoAccount.NetPnlIsNetOf | demo/account.py:336-357 | net profit in closed form, for a notional of quantity times entry |
| Validator.AcceptedSignalsAreWellFormed | signal_engine/validator.py:384-466 | what acceptance guarantees: ordering, positive prices, direction, confidence range, fee cover and risk-reward |
| Validator.AcceptedExactlyWhen | signal_engine/validator.py:384-466 | acceptance holds exactly for complete ordered levels, enough confidence, a free side and fitting distances; the levels pass through unchanged |
| Validator.RejectedForTheFirstFailure | signal_engine/validator.py:384-466 | the reason is that of the first failing check, in the order decision, levels, each price, ordering, confidence, funding crowd, regime, each both directions |
| Validator.RejectedLast | signal_engine/validator.py:384-466 | an analysis that gets past these is refused exactly for a non-positive last close or the first distance that does not fit |
| Validator.DistanceReasons | signal_engine/validator.py:334-381 | which distance reason is given, exactly and in order, with the factors 2, 0.5, 5, 8 and 1.5 written out |
| Validator.ConfidenceRoundsHalfUp | signal_engine/validator.py:251-272 | confidence is rounded to the nearest integer, ties upwards, and refused exactly outside 0..100 |
| Validator.AcceptedShortEarnsAtTarget | signal_engine/validator.py:350-365 | an accepted SHORT closed at its target nets more than zero |
| Validator.AcceptedLongAtTarget | signal_engine/validator.py:350-365 | an accepted LONG nets at least minus the fee on its gain, and is positive exactly beyond 2*entry*f/(1-f) |
| Validator.AcceptedLongMayLoseAtTarget | signal_engine/validator.py:359-365 | a concrete accepted LONG that loses at its target |
| Monitor.EvaluateCandle | signal_engine/monitor.py:232-253 | exit classification never yields an entry |
| Monitor.EvaluateEntry | signal_engine/monitor.py:256-279 | entry classification never yields an exit |
| Monitor.ClassificationReadsPrices | signal_engine/monitor.py:232-279 | each classification says exactly which levels some price inside the candle reached |
| Monitor.ClassificationIsMirrorSymmetric | signal_engine/monitor.py:232-279 | reflecting prices exchanges LONG and SHORT without changing any classification |
| Monitor.CleanEntryIsNoExit | signal_engine/monitor.py:232-279 | a candle that enters cleanly never also exits |
| Monitor.PollingIsStutterInvariant | signal_engine/monitor.py:338-476 | polling each closed candle any positive number of times ends in the same phase, exit and price |
| Monitor.CloseFollowsOpen | signal_engine/monitor.py:338-476 | a close is always preceded by an open, at the configured level |
| Ledger.ActiveSignal | database/database.py:789-802 | finds the first active signal of a symbol, or none exists |
| Ledger.ClosingFreesOneSlot | database/database.py:1514-1529 | with unique ids, closing a row takes one off the count of open positions that the cap reads exactly when that row was open |
| Ledger.ClosingKeepsLookups | database/database.py:1514-1529 | after closing a row every signal finds the position it found before, changed only if it is that row, and then only closed |
| Store.Database.CreateSignal | database/database.py:637-745 | commits the new PENDING_ENTRY row or raises without a change |
| Store.Database.TransitionSignal | database/database.py:984-1061 | commits exactly an allowed move of an existing row, with the close price rule |
| Store.Database.CancelSignal | database/database.py:1063-1067 | cancelling is the CANCELLED transition |
| Store.Database.EnsureAccount | database/database.py:1182-1252 | creates the account once and returns an existing one untouched |
| Store.Database.CreatePosition | database/database.py:1385-1445 | inserts one OPEN position per signal, idempotently; the row it stores is spelled out in `PositionLaws.CreatedRowIsRight` |
| Store.Database.MarkPositionClosed | database/database.py:1514-1529 | the in-place update closes matching rows only and tells whether one matched |
| Store.Database.RecordTrade | database/database.py:1475-1590 | closes the position, inserts the trade and credits the balance read in the same transaction; a later raise undoes all of it |
| Store.Database.ResetAccount | database/database.py:1344-1383 | full fresh start in one transaction, signals untouched |
| Store.Database.ActiveSignalFor | database/database.py:789-802 | the row scan answers the active-signal query |
| LedgerLaws.CreationAppendsTheSignal | database/database.py:637-745 | a created signal is appended with the symbol, levels and market time asked for, pending, and no other row changes |
| LedgerLaws.TransitionsExactlyWhen | database/database.py:984-1061 | a transition succeeds exactly for pending to open or cancelled and open to a hit or cancelled, a hit with a positive close price; the row keeps everything else |
| LedgerLaws.RefusalsOfSignals | database/database.py:637-1061 | which error each refused creation and each refused transition raises, and when |
| LedgerLaws.AccountIsEnsuredExactlyWhen | database/database.py:1182-1252 | the account is created exactly from a usable configuration with all four balances at the initial one and each rule in its own field; an existing row is returned as it is |
| LedgerLaws.ResetAndConfigureExactly | database/database.py:1254-1383 | a reset is a fresh start that keeps the rules; a new configuration changes the rules and no balance; when each succeeds |
| PositionLaws.CreatedRowIsRight | database/database.py:1385-1445 | a created position row is the last one, OPEN, with its signal's side and levels, the entry in the entry field and the quantity in the quantity field |
| LedgerLaws.RefusalsOfPositions | database/database.py:1385-1445 | inserting a position succeeds exactly for an existing row, answered as it is, or positive numbers |
| LedgerLaws.SizingSucceedsExactlyWhen | demo/executor.py:109-180 | sizing succeeds exactly without negative slippage, on an account and levels that can be sized |
| PositionLaws.OpensExactlyWhen | demo/executor.py:109-180 | opening adds a row exactly for an OPEN signal without a position, a balance that covers the margin and fewer than three open positions; the row is right for the account read, and otherwise no row changes |
| PositionLaws.EveryPositionIsFilledRight | demo/executor.py:109-180 | in every state any interleaving and any crash reaches, each position's entry is its signal's entry moved adversely by the slippage, its size is quantity times entry, and its quantity is the greatest within both caps of an account row the run really had |
| LedgerLaws.SettlingIsRight | demo/executor.py:182-254 | gross, fees, net, percentage of the margin and result of a settled position in closed form |
| LedgerLaws.ClosesExactlyWhen | demo/executor.py:182-254 | closing books a trade exactly for a TP/SL signal with a position and no trade: it repeats the row, closes only that row and moves the balance and peak by its net; otherwise nothing changes |
| LedgerLaws.RefusalsOfTrades | database/database.py:1475-1590 | a trade is booked exactly for a usable, existing position row, no trade yet, a positive fee and an account; which error refuses anything else; trade ids are given in order |
| LedgerLaws.SettlingSucceedsExactlyWhen | demo/executor.py:182-254 | the settlement can be computed exactly without negative slippage or fee, on positive price, quantity and size |
| LedgerLaws.EveryTradeRepeatsItsPosition | database/database.py:1475-1590 | in every reachable state each trade repeats the side, entry, quantity, size, margin and leverage of the position it closed |
| LedgerTheorems.BalanceAlwaysAddsUp | database/database.py:1513-1590 | in every state any interleaving with crashes reaches: balance = initial + sum of recorded net, and the peak is the highest such balance |
| LedgerTheorems.PositionsAndTradesMatch | demo/executor.py:182-254 | at most one position and one trade per signal; a position is CLOSED exactly when its trade exists; only TP/SL signals are traded |
| LedgerTheorems.OneActiveSignalPerSymbol | database/database.py:700-745 | at most one PENDING_ENTRY or OPEN signal per symbol, with strictly ordered positive levels |
| LedgerLaws.StepsTouchTheirOwn | signal_engine/runtime.py:536-714 | a step of one process leaves every other process alone, a crash only makes its process forget, and an action on the tables commits its transaction |
| LedgerLaws.StartsReadTheRow | signal_engine/runtime.py:676-714 | a process that starts an opening, a closing, a manual close or a watch remembers the row as it is and changes none |
| LedgerLaws.PricesLand | web/server.py:353-377 | in the interleaving too, the market price of a manual close decides the status, becomes the close price, and the process goes on to book that row; without a price nothing moves |
| LedgerLaws.EntriesLand | signal_engine/monitor.py:420-441 | a clean entry opens the pending row and goes on to its position; if another daemon opened it first, the process looks again and follows that row |
| LedgerTheorems.SignalsOnlyMoveForward | database/models.py:47-51 | over any continuation levels never change and terminal rows are final |
| LedgerTheorems.HitsPassThroughOpen | database/models.py:44-51 | TP_HIT and SL_HIT are reached only through OPEN |
| LedgerTheorems.CreationSucceedsExactlyWhen | database/database.py:671-710 | creation succeeds exactly for well-formed prices on a symbol without an active signal |
| LedgerTheorems.TwoSymbolsMayBothBeActive | database/database.py:663-710 | a run in which two symbols are active at once |
| LedgerTheorems.SameRowsSameTrade | demo/executor.py:182-254 | whatever the schedule, crashes and repairs, two trades over equal rows carry equal numbers |
| LedgerTheorems.TradeFollowsItsRows | demo/executor.py:196-235 | in every run whose executors charge one fee rate and slippage, every recorded trade has the numbers its position and signal rows prescribe |
| LedgerSafety.DoKeeps | database/database.py:1011-1061 | the inductive step: every action of every daemon and of the dashboard's manual close, and every crash, keeps rows and local reads sound |
| LedgerInvariant.PeakIsMaximumOfBalances | database/database.py:1565-1572 | the running peak is the maximum over all prefixes of trades |
| Executor.DemoExecutor.OpenPosition | demo/executor.py:109-180 | the stepwise call reads, sizes and inserts exactly as one sequential opening |
| Executor.DemoExecutor.ClosePosition | demo/executor.py:182-254 | the stepwise call settles exactly as one sequential closing |
| Executor.DemoExecutor.Reconcile | demo/executor.py:258-293 | the repair pass over the listed positions, with its two counters; an exception leaves the rows of the step that raised |
| Executor.DemoExecutor.SettleListing | demo/executor.py:274-286 | the loop settles every listed position in id order, or raises its first error with exactly the earlier positions settled |
| Recovery.ReconcileRepairs | demo/executor.py:258-293 | from any sound ledger one pass succeeds, keeps it sound, and leaves no TP/SL signal with a position untraded |
| Recovery.TwoPassesReachAFixpoint | demo/executor.py:258-293 | after at most two passes the ledger no longer changes |
| Recovery.SettledPassOnlyOpens | demo/executor.py:258-293 | on a settled ledger a pass can only open the active signal's position |
| CrashRecovery.RestartBooksWhatIsOwed | signal_engine/runtime.py:425-452 | from any sound rows, with any active signal, one reconcile appends exactly the trades owed by the rows the crash left, leaves the signals alone, and moves the balance by the sum of their net results |
| CrashRecovery.CrashedCloseIsRepaired | demo/executor.py:258-293 | for any signal at its target still untraded, among any number of them and whatever is active, the restart books the trade the uncrashed close would have booked |
| CrashRecovery.RestartMakesUpForTheCrash | demo/executor.py:258-293 | whether one of any number of unsettled signals was closed before the restart or not, afterwards signals, balance and the trade of every signal are the same |
| CrashRecovery.RestartMakesUpForTheEntry | demo/executor.py:258-272 | opening the active signal's position before the restart or leaving it to the restart ends in the same rows |
| Recovery.RestartEqualsUncrashedClose | signal_engine/runtime.py:425-452 | with one unsettled signal and nothing active the restart reaches the very rows of the uncrashed close |
| Recovery.RecoveryFindsTheActiveSignal | signal_engine/recovery.py:128-196 | on sound rows recovery answers what the active-signal query answers, if and only if fewer than 100 newer rows share the signal's status |
| Recovery.RecoveryAnswersExactly | signal_engine/recovery.py:128-190 | on any rows, sound or not: a signal is resumed exactly if it is the only one of its symbol on the listing pages and its row makes sense, nothing exactly if there is none, and everything else is refused |
| Recovery.RecoveryMissesBeyondOnePage | database/database.py:828-876 | with 101 pending symbols "A", "AA" and so on recovery does not see the oldest |
| Recovery.RecoveryIsCompleteForFewSymbols | signal_engine/recovery.py:128-196 | on sound rows over at most 100 symbols recovery answers exactly what the active-signal query answers |
| Recovery.SizingAlwaysWorks | demo/executor.py:146-157 | a funded account can size every sound signal, whatever the adverse slippage below 100% |
| Recovery.SettlingAlwaysWorks | demo/executor.py:209-232 | every position of a TP/SL signal can be settled, with a positive fee |
| ExecutorLaws.PositionIsGreatestWithinCaps | demo/executor.py:146-172 | the quantity is the greatest one within both caps at the adverse fill, and the notional is quantity times fill |
| ExecutorLaws.SettlementAddsUp | demo/executor.py:204-232 | gross, fee and net of a settled trade add up, the exit is adverse, and a WIN is exactly a positive net |
| ExecutorLaws.TargetGainsStopLoses | demo/executor.py:204-232 | without slippage a trade gains gross exactly at its target and loses gross at its stop |
| ExecutorLaws.RecoveredTradesAreCounted | demo/executor.py:274-293 | the repair pass reports exactly the trades it appended |
| ExecutorLaws.RecoveredPositionsAreCountedExactlyWhen | demo/executor.py:267-272 | the repair pass reports as many recovered positions as it added rows if and only if the active signal's position was not already there; otherwise it reports one and adds none |
| ExecutorLaws.ExistingPositionCountsAsRecovered | demo/executor.py:267-272 | rows on which a pass that changes nothing reports one recovered position |
| LiveMonitor.SignalMonitor.Poll | signal_engine/monitor.py:338-382 | one poll on the mutable database: idle, feed failure, no closed candle, classification, transition |
| LiveMonitor.SignalMonitor.OpenAt | signal_engine/monitor.py:420-441 | promotion, or observing what a concurrent poll already did |
| LiveMonitor.SignalMonitor.CloseAt | signal_engine/monitor.py:443-476 | closing at the configured level, never over a terminal state |
| LiveMonitor.SignalMonitor.NewestClosed | signal_engine/monitor.py:363-370 | the newest closed candle of a fetch; the forming one is never used |
| RuntimeLaws.PollAnswersExactly | signal_engine/monitor.py:338-476 | with an active signal a poll answers DATA_UNAVAILABLE exactly without a closed candle, and otherwise what the newest closed candle says of that signal's levels, with the row it leaves; no other answer moves a row |
| RuntimeLaws.LostRaceAnswers | signal_engine/monitor.py:420-476 | a promotion or a close that another daemon made impossible changes no row and is answered from the rows as they are now, both directions |
| LiveMonitor.PollingFollowsTheLifecycle | signal_engine/monitor.py:338-476 | polls move the symbol's signal along the pure lifecycle and touch nothing else in the database |
| LiveMonitor.LedgerIsStutterInvariant | signal_engine/monitor.py:338-476 | however often each minute is polled, the database ends up the same row for row |
| LiveAgreement.ConfirmIsTheMonitor | signal_engine/monitor.py:384-476 | the daemons' atomic confirm step is the monitor's evaluation of a possibly stale row |
| LiveAgreement.UninterruptedCloseIsOneCall | demo/executor.py:182-254 | a daemon left alone performs exactly one `close_position` |
| LiveAgreement.UninterruptedOpenIsOneCall | demo/executor.py:109-180 | a daemon left alone performs exactly one `open_position` |
| LiveAgreement.BacktestAgreesWithLive | backtest/engine.py:310-354 | on minutes from the decision time on, the backtest gives a signal the live monitor's status, exit kind and level |
| LiveAgreement.BacktestAgreesWithStutteringLive | backtest/engine.py:310-354 | the same when the live monitor polls each minute any positive number of times |
| LiveAgreement.SameFill | backtest/engine.py:541-562 | with equal settings and balance both sides fill at the same price, quantity and notional, or both refuse |
| LiveAgreement.SameNet | backtest/engine.py:564-597 | equal fills closed at the same exit settle to the same price, gross, fees and net on both sides, or both refuse |
| LiveRuns.CursorIsPastTheDecision | backtest/engine.py:356-468 | at every state a run reaches, all minutes not yet consumed open at or after the active signal's decision time |
| LiveRuns.PendingAgreesExactlyWhen | backtest/engine.py:314-315 | at every reachable state with a pending signal, a live monitor that polled from an earlier minute agrees if and only if no minute before the decision time enters |
| LiveRuns.LiveAgreesExactlyWhen | backtest/engine.py:310-375 | on any further stretch of the run they agree if and only if the earlier minutes leave the live phase what the later ones alone give, as they do whenever none of them enters |
| LiveRuns.RunReportsWhatLiveFinds | backtest/engine.py:310-375 | every event of a completed run is, in status, exit kind and level, what live polling of the minutes from its decision time on finds |
| LiveRuns.RunAgreesWithLiveExactlyWhen | signal_engine/monitor.py:338-382 | polled from earlier minutes: agreement if none of them enters, for a never entered signal only then, and otherwise exactly when the early position meets the reported end |
| LiveRuns.LiveMayEnterEarly | backtest/engine.py:314-315 | a whole run that ends with its signal pending while the live monitor holds a position |
| Runtime.RuntimeDaemon.Start | signal_engine/runtime.py:425-452 | recovery plus one reconcile per process; never announces anything |
| Runtime.RuntimeDaemon.PollMonitor | signal_engine/runtime.py:536-547 | monitor poll, then demo write, then messages; an exception of the write sends none and leaves the polled rows, at most with the account created |
| Runtime.RuntimeDaemon.HandleMonitorResult | signal_engine/runtime.py:676-714 | each opened signal is announced at most once per process; an exception leaves the rows, at most with the account created |
| Runtime.CloseMessageReportsTheLedger | signal_engine/runtime.py:696-707 | a TP/SL message is sent only for a trade in the ledger, with its net result and the balance after it |
| RuntimeLaws.MessagesExactlyWhen | signal_engine/runtime.py:676-714 | which monitor result sends which message, both directions: a close exactly if its trade is in the ledger, an ambiguous candle always, an opening exactly if it was not announced before |
| RuntimeLaws.OpeningsAreAnnouncedExactlyOnce | signal_engine/runtime.py:676-714 | over the whole life of a process a signal is announced as opened if and only if some poll confirmed its entry, and then exactly once |
| Runtime.RestartRepairsACrashedExit | signal_engine/runtime.py:425-452 | from any sound ledger, a poll that confirms an exit ends, after a restart, in the same balance, trades and position rows whether the process died before its demo write or finished it |
| Runtime.RestartRepairsACrashedEntry | signal_engine/runtime.py:425-452 | from any sound ledger, a confirmed entry ends in the same rows either way if the signal is on recovery's listing page, and its lost position is opened if and only if it is |
| Runtime.RestartRepairsACrashedPoll | signal_engine/runtime.py:425-452 | from a settled ledger the restarted process ends in the very rows of the finished poll |
| ManualClose.Dashboard.ClosePosition | web/server.py:328-377 | the checks, the transition and the demo write on the mutable database, with every error and the rows it leaves |
| ManualClose.ManualCloseSucceedsExactlyWhen | web/server.py:328-377 | on sound rows a manual close succeeds exactly for an OPEN signal with a position and a positive price; it keeps the rows sound and books one trade and its net |
| ManualClose.ManualCloseRefusesFor | web/server.py:328-377 | which check refuses a manual close, in their order, and which status a granted one gets at which price |
| ManualClose.UninterruptedManualCloseIsOneCall | web/server.py:328-377 | the dashboard's interleaved steps, left alone, are one call |
| ManualClose.RestartRepairsAManualClose | web/server.py:361-377 | if the dashboard dies right after the transition, the next restart books the trade at that market price and ends with the books of the finished close, whatever else is unsettled or active |
| ManualClose.TpHitWinsExactlyWhen | web/server.py:357-367 | a manual SL_HIT always loses; a manual TP_HIT wins if and only if the exit beats the fees on the filled entry |
| ManualClose.TpHitMayLose | web/server.py:357-367 | a LONG closed by hand at its entry is TP_HIT and loses both fees |
| Scheduler.OneHourScheduler.Tick | signal_engine/scheduler.py:445-499 | the breaker around one tick, on mutable fields, with streak, half-open and reset |
| Scheduler.OneHourScheduler.TickLocked | signal_engine/scheduler.py:501-689 | gates in order; what is analyzed and what is marked, spelled out in `TickOutcomes` |
| Scheduler.OneHourScheduler.Analyze | signal_engine/scheduler.py:715-987 | every answer of analyzer and engine: outcome, marker and seed |
| Scheduler.OneHourScheduler.Detect | signal_engine/scheduler.py:1098-1145 | proceed only on a candle newer than the last processed one |
| Scheduler.OneHourScheduler.LastProcessedCandle | signal_engine/scheduler.py:1147-1171 | the marker row, or the newest signal's market time |
| Scheduler.SchedulerStore.RecordProcessedCandle | database/database.py:1105-1133 | the marker moves exactly when the write succeeds and the time is positive |
| TickOutcomes.AiIsCalledExactlyWhen | signal_engine/scheduler.py:501-689 | the AI is called exactly for a new candle, no active signal, no release window, at least 200 candles and computable indicators, and then on the window's newest candle |
| TickOutcomes.BlackoutLocksTheAi | signal_engine/scheduler.py:560-596 | an event blackout keeps every tick from calling the AI and from creating a signal |
| TickOutcomes.BlackoutExactlyWhen | signal_engine/scheduler.py:560-596 | EVENT_BLACKOUT is answered exactly for a new candle, an idle gate, a release window and a mark that can be written |
| TickOutcomes.EarlyOutcomesExactlyWhen | signal_engine/scheduler.py:501-689 | exactly when a tick answers ALREADY_PROCESSED, NO_NEW_CANDLE, BLOCKED_ACTIVE_SIGNAL, DATA_UNAVAILABLE, or raises |
| TickOutcomes.AnalysisOutcomesExactlyWhen | signal_engine/scheduler.py:715-987 | exactly when a tick answers CREATED, WAIT, REJECTED or RATE_LIMITED |
| TickOutcomes.ErrorExactlyWhen | signal_engine/scheduler.py:501-987 | exactly when a tick answers ERROR: a broken fetch, a failed analysis or engine, or a lost mark |
| TickOutcomes.TickWritesExactly | signal_engine/scheduler.py:560-987 | exactly which tick moves the marker, to which candle, and which moves the newest signal's market time |
| TickOutcomes.RestartForgetsTheBreaker | signal_engine/scheduler.py:445-499 | a new process keeps the marker and forgets the breaker: its first tick is never skipped and one failure does not open a breaker that waits for more |
| SchedulerTheorems.OutcomeTellsTheMark | signal_engine/scheduler.py:725-987 | which outcomes imply an AI call and a marked candle |
| SchedulerTheorems.ActiveSignalLocksTheAi | signal_engine/scheduler.py:533-556 | no AI call on a tick whose gate read saw an active signal |
| SchedulerTheorems.BlockedExactlyWhen | signal_engine/scheduler.py:516-556 | with an active signal a tick reports BLOCKED_ACTIVE_SIGNAL if and only if it is executed, its detection fetch found a closed candle, the marker could be read, and the candle is newer than the last processed one |
| SchedulerTheorems.ActiveSignalMayReportMissingData | signal_engine/scheduler.py:516-531 | a tick with an active signal whose refused fetch is reported as DATA_UNAVAILABLE |
| SchedulerTheorems.TickMovesForward | signal_engine/scheduler.py:1127-1145 | the last processed candle never goes back and grows strictly at each marking tick |
| SchedulerTheorems.AnalysisIsNewExactlyWhen | signal_engine/scheduler.py:658-661 | without the feed assumption, order breaks exactly when the window fell behind |
| SchedulerTheorems.RecordedCandleIsNeverAnalyzedAgain | signal_engine/scheduler.py:501-596 | over every run of ticks and restarts, a candle on record is never analyzed or marked again |
| SchedulerTheorems.AnalyzedTwiceOnlyUnrecorded | signal_engine/scheduler.py:715-987 | a candle analyzed twice was not on record after the first time, and which outcomes that leaves |
| SchedulerTheorems.RecordedExactlyWhen | signal_engine/scheduler.py:715-987 | an analyzed candle goes on record exactly for a rate limit, WAIT or rejection whose marker can be written, or a created signal whose marker can be written or has no older row |
| SchedulerTheorems.AnalyzedAgainExactlyWhen | signal_engine/scheduler.py:715-987 | the next open tick on the same candle analyzes it again if and only if the first answer was none of these |
| SchedulerTheorems.CandleIsFinalExactlyWhen | signal_engine/scheduler.py:501-987 | over whole runs: after such an answer no later tick of any process analyzes the candle again, and after any other answer the next open tick on it does |
| SchedulerTheorems.CreatedCandleCanBeAnalyzedAgain | signal_engine/scheduler.py:825-867 | a concrete run in which a created signal's candle reaches the AI twice |
| SchedulerTheorems.BreakerBoundsFailingCalls | signal_engine/scheduler.py:457-499 | an all-failing stretch executes at most N + floor((t_last - t_N)/C) ticks |
| SchedulerTheorems.SkippedExactlyWhen | signal_engine/scheduler.py:457-499 | a tick is skipped exactly when the newest executed tick failed less than a cooldown ago and the last N executed ticks that did not raise all failed |
| SchedulerTheorems.DisabledBreakerNeverSkips | signal_engine/scheduler.py:183-204 | a non-positive threshold disables the breaker |
| Indicators.EmaArray | binance/indicators.py:73-93 | the array loop fills the recurrence: seed after `period` values, end at the first gap |
| Indicators.EmaStaysBetween | binance/indicators.py:73-93 | every smoothed value lies between the minimum and maximum of the inputs so far |
| IndicatorMeaning.SmoothingReads | binance/indicators.py:73-98 | nothing before the row of the period-th filled value, there the mean of the first period filled values, then each value at weight alpha against the row before; a gap ends it |
| IndicatorMeaning.ShortSeriesStaysMissing | binance/indicators.py:73-98 | with fewer filled values than the period every row stays missing |
| IndicatorLaws.SmoothingIsGeometric | binance/indicators.py:73-93 | a smoothed row is the seed and every later input, weighted by alpha times (1 - alpha) to the power of its age |
| IndicatorLoops.RsiSeries | binance/indicators.py:101-131 | the two running averages are Wilder smoothings of gains and losses, row by row |
| IndicatorLoops.TrueRangeSeries | binance/indicators.py:144-153 | row 0 missing, then the largest of the three ranges |
| IndicatorLaws.TrueRangeIsTheHull | binance/indicators.py:144-153 | the true range is the length of the smallest interval holding the candle and the previous close |
| IndicatorLoops.RawMoves | binance/indicators.py:170-177 | the raw up and down moves |
| IndicatorLoops.Indexes | binance/indicators.py:183-195 | +DI, -DI and DX row by row, zero where the range or the total is zero |
| IndicatorLoops.AdxSeries | binance/indicators.py:161-197 | ADX with its two components, from the loops above |
| IndicatorLaws.SmoothingIsAdditive | binance/indicators.py:73-98 | smoothing a sum is summing the smoothed series, for equal gaps |
| IndicatorLaws.SmoothingIsMonotone | binance/indicators.py:73-98 | a row-wise larger input stays larger after smoothing |
| IndicatorLaws.DirectionalIndexesAreBounded | binance/indicators.py:161-195 | +DI, -DI >= 0 and their sum at most 100 wherever the ATR is defined |
| IndicatorLaws.AdxIsBounded | binance/indicators.py:183-197 | every defined ADX row lies in [0, 100] |
| IndicatorLaws.RsiIsBounded | binance/indicators.py:101-131 | RSI lies in [0, 100] for every period; from period 2 on, 100, 0 and 50 say exactly what happened to the closes since the start |
| IndicatorLaws.RsiIsTheGainShare | binance/indicators.py:116-124 | RSI is the percentage of average gain in average gain plus average loss |
| IndicatorLaws.WarmUpIsExact | binance/indicators.py:31-41 | each column is defined exactly from its tabulated candle on, with no gap after; only the volume ratio has gaps, exactly where its average is zero |
| IndicatorMeaning.GainAndLossSplitTheChange | binance/indicators.py:101-112 | gain less loss is the change of the close, and at most one of them is not zero |
| IndicatorMeaning.RsiReadsGains | binance/indicators.py:101-131 | a defined RSI row times smoothed gain plus loss is 100 times the smoothed gain, at rate 1/period up to its own close; 50 when nothing moved |
| IndicatorMeaning.MacdReads | binance/indicators.py:134-141 | the line is the fast average less the slow one at rates 2/13 and 2/27, the signal smooths it at 2/10, the histogram is line less signal |
| IndicatorMeaning.MovesRead | binance/indicators.py:170-177 | an up move is a positive rise of the high larger than the fall of the low, a down move the reverse, and a candle has at most one |
| IndicatorMeaning.DirectionalReads | binance/indicators.py:156-197 | +DI and -DI are the smoothed up and down moves in percent of the smoothed range, DX their difference in percent of their sum, ADX its smoothing |
| IndicatorMeaning.MatrixReads | binance/indicators.py:216-270 | each smoothed and directional column of the matrix holds the series of its own name |
| IndicatorMeaning.MatrixRefusesExactly | binance/indicators.py:216-230 | the matrix is refused exactly for no candles, the first forming one, or open times out of order |
| IndicatorMeaning.RollingColumnsRead | binance/indicators.py:200-270 | the bands lie two deviations around the mean of the last 20 closes, and the volume ratio times the mean of the last 20 volumes is the volume |
| Causality.EmaIsCausal | binance/indicators.py:73-98 | smoothing a prefix is the prefix of smoothing the whole, for any pattern of gaps |
| Causality.MacdIsCausal | binance/indicators.py:134-141 | the same for line, signal and histogram, where a gapped series is smoothed again |
| Causality.RsiIsCausal | binance/indicators.py:101-131 | the same for RSI |
| Causality.AdxIsCausal | binance/indicators.py:161-197 | the same for ADX |
| Causality.MatrixIsCausal | binance/indicators.py:216-270 | for all sixteen columns, adding candles never changes an earlier row nor turns an accepted prefix into an error |
| Rolling.RollingIsCausal | binance/indicators.py:200-213 | the same for the rolling average, both Bollinger bands and the volume ratio, whatever the square root |
| Rolling.MeanStaysBetween | binance/indicators.py:200-201 | a rolling average lies between the extremes of its window |
| IndicatorMeaning.WindowsAverage | binance/indicators.py:200-206 | the mean of a window times its length is its total, and the variance times the length the total of the squared distances from that mean |
| Rolling.BandsEnclose | binance/indicators.py:208-213 | with a true square root the bands lie evenly around the average, and meet exactly when all closes of the window are equal |
| Rolling.MeanSlides | binance/indicators.py:200-201 | each next average is the last one moved by the entering less the leaving value |
| Positioning.LatestPoint | binance/positioning.py:274-281 | the scan with its early exit computes the lookup |
| Positioning.LatestIsTheGreatest | binance/positioning.py:274-281 | that lookup is the greatest point at or before the instant |
| Positioning.InputOrderDoesNotMatter | binance/positioning.py:159-165 | histories over the same points answer alike |
| Positioning.FreezeHistory | binance/positioning.py:185-191 | merging both lists into a dictionary and emitting it in key order |
| Positioning.ThawHistory | binance/positioning.py:168-183 | keeps readable, plausible fields of each record, then sorts |
| Positioning.RoundTrip | binance/positioning.py:159-191 | freeze then thaw answers every instant as before, for every well-formed history, shared timestamps included |
| Positioning.RoundTripExactlyWhen | binance/positioning.py:159-191 | it does so if and only if the greatest point of every instant is admissible |
| Positioning.ThawedHistoryIsStable | binance/positioning.py:168-191 | a thawed history survives any further freeze, whatever the artifact held |
| Positioning.FrozenReads | binance/positioning.py:185-191 | the artifact lists each timestamp of either list once, ascending, with the greatest value of each kind |
| Positioning.ThawKeepsExactly | binance/positioning.py:168-183 | thawing keeps exactly the readable points with a non-negative time, a rate of at most 0.05 either way and a percentage strictly between 0 and 100 |
| Htf.RollUp | binance/htf.py:174-202 | the bucket dictionary and its sorted walk compute the rollup |
| Htf.GatherBuckets | binance/htf.py:181-183 | each bucket holds its candles in input order |
| Htf.FoldGroup | binance/htf.py:189-201 | first open, highest high, lowest low, last close, total volume |
| Htf.RollupIgnoresOrder | binance/htf.py:174-202 | every permutation of candles with distinct times rolls up to the same list |
| Htf.RollupAscends | binance/htf.py:184-202 | output times ascend strictly, at most one candle per bucket |
| Htf.RolledCandleSpansItsGroup | binance/htf.py:184-201 | a rolled candle takes its extremes, first open and last close from four closed candles of its bucket |
| Htf.LaterBucketsOnlyAppend | binance/htf.py:174-202 | candles of later buckets append exactly their own rollup |
| Htf.RolledExactlyWhen | binance/htf.py:174-202 | a 4-hour bucket yields a candle if and only if it holds exactly four candles, all closed; then it is the one rolled from them |
| Htf.RolledVolumeIsTheSum | binance/htf.py:189-201 | the rolled volume is the sum of the four volumes |
| Structure.FindSwingHighs | binance/htf.py:68-75 | the window test finds exactly the candles strictly above their neighbours |
| StructureMeaning.StructureReadsExactly | binance/htf.py:87-113 | HH_HL if and only if among the newest nine candles the newest peak of the highs is above the peak before it and the newest trough of the lows above the trough before it; LH_LL if and only if both are below |
| StructureMeaning.RegimeReadsExactly | binance/htf.py:135-171 | UP if and only if the newest close is above its 20-candle smoothing at rate 2/21 and that above the 50-candle one at 2/51, both started, on well-formed candles; DOWN for the opposite; structure is only read then |
| Structure.StructureMirrors | binance/htf.py:87-113 | reflecting prices exchanges HH_HL with LH_LL; which is which says `StructureMeaning.StructureReadsExactly` |
| Structure.ConfirmationDropsNothing | binance/htf.py:98-101 | the confirmation filter never removes a swing |
| Structure.SecondNewestCanBeASwing | binance/htf.py:87-101 | the second newest candle can be a swing |
| Structure.BiasMirrors | binance/htf.py:135-171 | reflecting prices exchanges UP with DOWN and the two structures |

## Left out

- LLM calls, prompts, debate and context text: an analysis is a value or a failure.
- Binance HTTP, Telegram transport, the web dashboard except its manual close and its creation of the account, CLI, secrets, reports and the supervisor: I/O and UI. Runtime state keys and heartbeats are not modelled.
- SQLite itself: each transaction is taken as atomic and isolated; schema rebuild, locks and read errors are not modelled.
- Binary-float and 28-digit decimal rounding: all arithmetic is exact over `real`.
- `delete_signals`, `delete_all_signals` and `update_balance`: they remove trades without moving the balance or write any balance, so the ledger invariant does not hold across them.
- The cap of three open positions under interleaving: it is read outside the inserting transaction, so it holds only for one executor at a time.
- Cancelling stale pending signals is an action any daemon may take; that it eventually happens is not claimed, since the active-signal gate returns before the engine's expiry check.
- Several demo accounts: every executor uses the same account name, so one account is modelled. Timestamps of rows, pnl text fields and notification text are dropped.
- The signal engine's answer (`SignalEngine.process`) is an input of the scheduler tick rather than a second copy of the ledger transaction it ends in.
- The blackout calendar's notices and flags: the tick sees only whether a blackout is active.
- Metrics.Compute: does not report the informational slippage cost and takes every monetary value of a closed trade as present, because a run always fills them in.
- LiveMonitor.SignalMonitor.Poll: does not model the legacy scope without a symbol or the conversion of malformed OHLC values, because every daemon is given a symbol and candles arrive parsed.
- CrashRecovery.RestartMakesUpForTheCrash: does not compare the stored peak, because it depends on the order of bookings (`LedgerInvariant.PeakIsMaximumOfBalances` says how) and a restart books in table order.
- The loop of `_swing_lows`: the same loop as `_swing_highs` with the comparison turned, covered by the mirror lemmas.
- SchedulerTheorems.RecordedCandleIsNeverAnalyzedAgain: assumes one daemon per symbol and that within a tick the second fetch is not behind the first; `AnalysisIsNewExactlyWhen` shows that this is exactly what it needs.
