# Verified model of the trading lab

This project models the crash-tolerant and stateful core of the paper and demo trading lab in Dafny and proves what that core promises over every input, every run and every crash point. Objects whose methods change fields in the source are classes here, with methods proved against a specification function; what is promised is then proved of that function or of a state machine built from the same steps. Prices and money are exact reals, times are integer minutes, a digest is identified with its content, and a crash is an explicit step between any two durable writes.

| files | what they model |
|---|---|
| `Backtester`, `BacktestLaws`, `BacktestRows` | the event-driven backtester: no look-ahead, cash conservation, trade intervals, when the reported metrics add up, and what every row of the ledger says, read off bars and signals alone |
| `RawRetention` | the greedy cover over archived pages, how far it is from the smallest cover and when it is one |
| `Frames`, `HistoricalStore`, `StoreWriters` | normalisation, merging writes, the chunked rebuild, and several writing processes with crashes |
| `BarIndex` | holes in the store, its report, and batch lookup |
| `ChartBars` | the bounded-memory streaming resampler against the full resample |
| `Releases`, `ReleaseLaws` | the release journal: installation, health verification and rollback, with a crash between any two writes |
| `ProtectedClosure` | the import closure of protected modules |
| `DemoOrders`, `DemoLaws`, `DemoAdapter`, `DeskMeanings` | the demo order boundary: at-most-once orders, reconciliation, exposure verification |
| `DemoLockstep`, `LockstepLaws`, `DemoRunner`, `SwitchLaws` | paper decisions executed on the demo account, their lock-step with broker fills, and what the two kill switches hold |
| `BitsCycle`, `BitsLaws`, `BitsRunner` | the decision cycle over shell jobs: posted once, started once, blocked after an uncertain crash |
| `MemoryBook`, `MemoryLaws` | versioned notes, pending drafts, and the bounded log of recent work |
| `Conversation` | the pruned conversation log and its paging |
| `Attribution` | paper fills and the incremental attribution of profit and cost |
| `CallLedger`, `CallLaws` | the tool-call ledger and its bounded investigations |
| `Canary` | breakout transitions, decision ids, and fills over restarts |
| `Prelude` | optional values and results |

## What the code does not do

Several claims one would expect, some of them made in the repository's own comments, do not hold. Each is stated here with the lemma that shows the failure and the condition under which the claim does hold.

- Financing is signed in cash and unsigned in the metric, so a short is credited where the metric charges it (`ShortHoldIsCredited`). The two differ by twice the charges on shorts, so the metric is what cash paid exactly when no bar opens beyond a paid session gap with a short in the book (`FinancingMetricIsSignedIffNoShortPays`). There is no such bar without a financing rate, without a session gap, or without a negative signal (`NoShortPays`).
- The reported gross profit is snapped to zero below 1e-10, and the metric identity holds exactly when it was not (`MetricsReconcile`).
- The retention plan is called minimal, but a page inside the previous one is kept when nothing else extends its block (`ContainedPageIsKept`). The smallest cover has one page less for every stalled block, a block whose last pages lie beyond the last hop and lead no further; so the plan is minimal exactly when no block stalls, which one pass over the pages shows (`MinimalExactly`). No block stalls when the last page of each ends after every page before it (`LastPageEndsLast`).
- A window limit of zero or less makes `missing_windows` fail exactly when some gap is wholly closed (`MissingWindows`), as over any weekend (`ClosedGapFails`).
- Lock-step of paper and broker fails when a decision that paper accepted while the runner was off is taken again (`OrphanReplayBreaksLockStep`), and when the write of a stop raises (`LostStopBreaksLockStep`). For one execution each condition is exact: a completed trade leaves the sides even exactly when the decision was no such orphan (`TradedOutcome`); a lost stop, or any exception after paper has committed, leaves them even exactly when paper had answered the decision before (`LostStopOutcome`, `LostOrderOutcome`). For whole runs, a move of a running lab that goes on keeps lock-step exactly when it neither puts on file a fill that is not owed nor ends a cycle by an exception while an order is owed (`OrdinaryIsExact`), and without the two kinds of move it holds over every run (`LockStepExposure`).
- Stopping is not all that keeps the sides even: a crash between paper's answer and the broker's leaves both switches running (`CrashAfterPaperLeavesSwitchesRunning`). The sides are then even exactly when nothing was owed (`CrashLeavesTheDebt`); the runner is down, and its next start finds the difference.
- A stop of either side outlasts every restart (`PaperStopHolds`, `DemoStopHolds`, `StartupMeaning`), unless it gives the reason of a fresh account: such a stop by hand is lifted by the next start-up (`StopAsFreshIsLifted`).
- Pruning finished jobs at start-up keeps 500 rows, but the number of steps in a cycle has no upper bound; each action runs at most once exactly for budgets of at most 501 (`ExactHorizon`).
- A crash while a job runs should lead only to a recovery stop, but a second crash between marking the job and writing the stop lets a later process go on (`SecondCrashForgetsTheJob`). Which crashes can be forgotten is decided by what is on disk: some later run acts again exactly when the cycle is not blocked, not submitting, and not waiting for a job other than one that is retained and ended plainly; in all other states nothing is posted or started any more (`ForgottenExactly`). A first restart that completes always stops (`UninterruptedRecovery`).
- The risk monitor is described as stopping after consecutive failures, but it counts all failures since the process began (`MonitorCountsAllFailures`, `ScatteredFailuresStop`).
- A parked call is said to reopen with new job-status evidence, but the status request that would record such evidence is redirected to the parked reconciliation, so a parked call stays parked in every run (`ParkedForEver`). Two lookups that find nothing are enough to park any call that a crash left unknown (`TwoMissesPark`, `CrashLeavesUnknown`).
- Engine decision ids are named after the newest bar of the first of two reads, so a bar that arrives between the reads can be traded a second time after a restart (`ExposedFillsTwice`, `ExposedIsReachable`). The condition is exact: after any run without such fills, a tick can be followed by a second fill of one transition, with no further exposed fill, exactly when it emits a bar that its first read lacked and the gate fills it (`ExposureIsExact`). With the demo source's ids it never happens (`TransitionAtMostOnce`).

## Assumptions

- Only the coordinator trades the paper account while its runner runs; somebody else may trade it at any other time. One process at a time holds the agent lock, one writer at a time the file lock.
- In the lock-step machine `CycleRaises` stands for any exception that ends a cycle outside the adapter: in paper after its commit, in the audit row, or in the write of a stop; `AdapterRaises` for one inside the adapter, before or after its last write.
- Generated ids are new: request ids only as far as stated, draft, release, cycle, call and entry ids always. A call ledger lookup answers about the job it was asked for, in a status request as in a reconciliation, and a job is done only after it was submitted.
- Archived page names tell the range of their bars where a lemma says so (`HonestNames`), and pages are not empty where the optimum of the retention plan is stated.
- Stored bars have unique, increasing minutes, as every write leaves them.

## Model

| member | source | states |
|---|---|---|
| `Backtester.Simulation.Run` | xauusd/engine.py:132-181 | One pass over the bars and the forced last exit leave exactly the equity curve, ledger and financing of the specification run, cash and position included |
| `Backtester.Simulation.CloseOut` | xauusd/engine.py:120-130 | A close books the trade at the fill price less both commissions, credits cash with the gross result less one commission, and flattens the position |
| `Backtester.Simulation.ChargeOvernight` | xauusd/engine.py:109-114 | A position held over a session gap pays the gap's financing in cash, signed by its side, before anything else on that bar |
| `Backtester.Simulation.FollowSignal` | xauusd/engine.py:141-148 | The previous bar's signal closes a position of another side and opens one of its own at this bar's open |
| `Backtester.Simulation.CheckLevels` | xauusd/engine.py:150-165 | Stop, target, intrabar priority and holding limit end a position on the bar, in that order of precedence |
| `Backtester.Simulation.MarkToMarket` | xauusd/engine.py:167-171 | Each bar appends one equity value: cash, or what closing at the bar's close would leave |
| `BacktestLaws.StateIsCausal` | xauusd/engine.py:132-171 | What the run is after n bars depends on no later bar and no later signal |
| `BacktestLaws.PrefixStability` | xauusd/engine.py:132-175 | No look-ahead: a run on a prefix gives the first equity values of every longer run and the same closed trades, except at most one final exit |
| `BacktestLaws.MarkIsLiquidation` | xauusd/engine.py:167-171 | The marked equity of an open position is the cash that closing it at that price would leave |
| `BacktestLaws.FinalOverwriteChangesNothing` | xauusd/engine.py:173-175 | Closing out on the last bar adds the trade to the ledger but alters no equity value |
| `BacktestLaws.HistoryOnlyGrows` | xauusd/engine.py:130-171 | Later bars only append to the equity curve and the ledger |
| `BacktestLaws.IntervalsInvariant` | xauusd/engine.py:141-165 | At every bar all booked trades lie before the open position, in order and without overlap |
| `BacktestLaws.TradeIntervals` | xauusd/engine.py:141-174 | All trades have ordered, disjoint bar ranges of at least one bar and at most the holding limit, so the held bars never exceed the bars there are |
| `BacktestLaws.CashInvariant` | xauusd/engine.py:120-171 | At every bar cash is initial cash plus the ledger's net results, less signed financing and the entry commission of an open position |
| `BacktestLaws.Conservation` | xauusd/engine.py:120-181 | Final equity is initial cash plus all net results less the side-weighted financing that the trades' own entry and exit bars imply; the reported financing is the unweighted sum |
| `BacktestLaws.BacktestNetsItsRows` | xauusd/engine.py:120-130 | Every ledger row's net result is its gross result less its commissions |
| `BacktestLaws.MetricsReconcile` | xauusd/engine.py:183-220 | Pre-cost profit less total cost less signed financing is the net profit; the reported gross profit fits that identity exactly when it was not snapped to zero |
| `BacktestLaws.FinancingMetricIsSignedIffNoShortPays` | xauusd/engine.py:137-180 | The reported financing exceeds what cash paid by twice the charges on shorts, and is what cash paid exactly when no bar opens beyond a paid session gap with a short in the book |
| `BacktestLaws.NoShortPays` | xauusd/engine.py:109-148 | Without a financing rate, a session gap or a negative signal there is no such bar |
| `BacktestLaws.ShortHoldIsCredited` | xauusd/engine.py:137-180 | A short held over one gap is credited in cash and reported as a charge |
| `BacktestRows.LedgerRows` | xauusd/engine.py:116-174 | Every row of the ledger was opened because the bar before asked for its side, at the open and half the spread and the slippage against it; no level and no limit was reached and every signal agreed until its last bar; it was closed for the first reason there in the order stop, target, limit, at the price that reason implies and again the same cost against it; with two commissions |
| `BacktestRows.SignalsAreFollowed` | xauusd/engine.py:141-148 | Whenever the bar before asks for a side, some row holds that side over the bar |
| `BacktestRows.PreCostIsMidProfit` | xauusd/engine.py:183-220 | The profit before costs is what the rows gained between the mid prices they were opened and closed at |
| `BacktestRows.ProfitExplained` | xauusd/engine.py:109-181 | The final equity is the initial cash and, for every row, its gain at mid prices less spread, slippage, commissions and the signed charge for the gaps it was held over; the reported financing adds the charges up unsigned |
| `BacktestRows.EquityExplained` | xauusd/engine.py:167-171 | Every equity value is the initial cash, what the rows closed so far brought, and what closing an open position at this bar's close would bring |
| `RawRetention.RetentionPlan` | xauusd/data.py:277-302 | The plan keeps a cover of every archived minute, its gap count is the number of contiguous blocks less one, the pages it calls redundant are those not kept, and no cover is smaller exactly when no block of the archive stalls |
| `RawRetention.PagesInReach` | xauusd/data.py:284-289 | All pages in reach are consumed and the first of those that end last is remembered |
| `RawRetention.OneRound` | xauusd/data.py:282-302 | A round in reach picks at most one page; a round without one is a gap and opens a block |
| `RawRetention.CoverNeedsMarks` | xauusd/data.py:262-270 | No set of archived pages covers all minutes with fewer pages than there are independent minutes |
| `RawRetention.MinimalExactly` | xauusd/data.py:262-302 | The smallest cover of the archive has exactly one page less than the plan for every stalled block, so the plan is minimal exactly when no block is stalled |
| `RawRetention.LastPageEndsLast` | xauusd/data.py:277-302 | When the last page of every block ends after every page before it, no cover is smaller than the plan |
| `RawRetention.ContainedPageIsKept` | xauusd/data.py:283-300 | Two pages, one inside the other: their block stalls, and both are kept although one covers everything |
| `Frames.NormalMeaning` | xauusd/data.py:110-123 | Normalising keeps for every minute the last bar given for it, in time order without repetition |
| `Frames.CanonicalUnique` | xauusd/data.py:110-123 | A normalised frame is determined by the bar it holds for each minute |
| `Frames.NormalByMeaning` | xauusd/data.py:110-123 | Frames that mean the same normalise to the same frame, and normalising twice changes nothing |
| `HistoricalStore.Store.Write` | xauusd/data.py:185-208 | A rejected frame leaves the file alone; a merge is the right-biased override of the stored bars; without merge the file is the normalised input |
| `HistoricalStore.RefusedExactly` | xauusd/data.py:110-123 | A frame is refused exactly when the bar given last for some minute has an open or close outside its range or a negative volume |
| `HistoricalStore.Store.RebuildFromRaw` | xauusd/data.py:317-382 | For every positive chunk size the rebuild writes the same frame or the same error, and a failed rebuild leaves the file alone |
| `HistoricalStore.Gather` | xauusd/data.py:355-365 | The frames of a chunk are the rows of its pages from the cutoff on, in archive order |
| `HistoricalStore.RebuiltMeaning` | xauusd/data.py:344-379 | With honest page names the rebuilt bars are, minute by minute, the last archived bar at or after the cutoff |
| `HistoricalStore.SkippedPagesHoldNothing` | xauusd/data.py:347-350 | A page skipped by its name holds nothing from the cutoff on |
| `HistoricalStore.ReplayedExactly` | xauusd/data.py:352-356 | A page is read exactly when its name does not claim to end before the minute of the cutoff |
| `HistoricalStore.ChunkMerge` | xauusd/data.py:366-373 | Merging a chunk that was normalised by itself equals normalising everything so far |
| `StoreWriters.ReadersSeeSerialStates` | xauusd/data.py:185-208 | For any interleaving of writers, time-outs and crashes, a reader sees the completed writes applied one after another in lock order |
| `StoreWriters.OneWriterInside` | xauusd/atomic.py:95-128 | At most one writer is past the lock |
| `StoreWriters.LogOnlyGrows` | xauusd/atomic.py:39-61 | A swap that has happened is never undone |
| `StoreWriters.NoMinuteDisappears` | xauusd/data.py:185-208 | Every minute written by a writer that has swapped is in the file at every later moment until a writer replaces the store, and the file means the override of all requests since it was last replaced |
| `StoreWriters.CrashBeforeSwapLeavesNoTrace` | xauusd/atomic.py:39-61 | A writer that dies before its replace leaves the file as it was and the lock free |
| `StoreWriters.UndisturbedWrite` | xauusd/data.py:185-208 | A writer that nobody disturbs replaces the file by its merge, or leaves it alone when its bars are refused, and leaves the lock free either way |
| `StoreWriters.WaitsForLock` | xauusd/atomic.py:95-128 | A writer that finds the lock held waits until it gives up, without a trace |
| `BarIndex.MissingWindows` | xauusd/data.py:146-184 | For any index, sorted or not, with or without repeated minutes, the scan reports, gap by gap, the runs with enough open minutes, and fails exactly for a limit of zero or less on a wholly closed gap |
| `BarIndex.ClosedGapFails` | xauusd/data.py:172-180 | Two bars around closed minutes and a limit of zero make the scan fail; a limit of one does not |
| `BarIndex.MinuteIsReported` | xauusd/data.py:173-183 | Every open minute without a bar lies in a reported window when its gap has enough open minutes |
| `BarIndex.WindowsInOrder` | xauusd/data.py:173-184 | Windows come in time order and never overlap |
| `BarIndex.Validate` | xauusd/data.py:124-145 | The absent minutes of the stored range split into closed and missing ones, and add up with the rows to the range; the gap events are the bars that do not follow the one before them minute on minute |
| `BarIndex.WindowsHoldAllMissing` | xauusd/data.py:124-184 | With a limit of one minute the windows hold exactly the missing market minutes of the report |
| `BarIndex.MissingIsOpenLessBars` | xauusd/data.py:133-135 | The missing minutes are the open minutes of the range less the open minutes that have bars |
| `BarIndex.PositionsFind` | xauusd/data.py:383-397 | The batch lookup returns the row of each stored time and -1 for every other |
| `BarIndex.RefusedExactly` | xauusd/data.py:383-397 | The batch lookup refuses an index exactly when it is out of order or repeats a minute |
| `ChartBars.Chart` | xauusd/lab_market.py:63-87 | For any row groups and any batches, the bounded view is exactly the last complete buckets of the full resample of the rows in the groups read, and of all rows as soon as those hold enough closed ones |
| `ChartBars.StreamBatches` | xauusd/lab_market.py:76-84 | After any number of batches the bounded view is the tail of the resample of all closed rows so far |
| `ChartBars.AddBatch` | xauusd/lab_market.py:77-84 | One batch merged into the view and cut to its tail is the tail of the merge of everything |
| `ChartBars.NoUnclosedRowsSuffices` | xauusd/lab_market.py:70-75 | When no stored row is newer than the last closed minute, the trailing row groups read are always enough |
| `ChartBars.GroupConcat` | xauusd/lab_market.py:80-83 | Resampling a concatenation is resampling the parts and merging the bucket at the seam |
| `ChartBars.TruncationIsHarmless` | xauusd/lab_market.py:84-85 | Cutting the running view to its tail before the next batch loses nothing of the result |
| `ChartBars.NewestRowsSuffice` | xauusd/lab_market.py:70-85 | The newest buckets of all rows are those of the newest rows, so older row groups need not be read |
| `ChartBars.ResampleShape` | xauusd/lab_market.py:80-80 | Buckets are aligned, increasing, and hold at most one row per minute |
| `ChartBars.ResampleMeaning` | xauusd/lab_market.py:16-17 | Each bucket has the first open, highest high, lowest low, last close and total volume of exactly the rows in its interval |
| `ChartBars.HighestMeaning` | xauusd/lab_market.py:16-17 | The highest high and the lowest low of a bucket are those of some row and bound all of them |
| `ChartBars.GroupsRead` | xauusd/lab_market.py:70-75 | Row groups are read from the newest on until they number the rows of two buckets more than asked for, and no further |
| `Releases.DiffDescribes` | xauusd/agent_engineering.py:166-189 | The listed changes are exactly the paths whose content differs, with old and new content |
| `Releases.CheckMeaning` | xauusd/agent_engineering.py:166-189 | The check refuses exactly when the live tree is no longer the snapshot's, a difference touches what no release may change, or nothing differs, in that order |
| `Releases.HoldsMeaning` | xauusd/agent_engineering.py:311-314 | The last look at the workspace finds every file to be installed with its checked content |
| `ReleaseLaws.CheckedIsReady` | xauusd/agent_engineering.py:166-189 | A change set that passes the check turns the live tree into exactly the proposed one, touches only allowed paths and changes something |
| `Releases.EngineeringManager.Deploy` | xauusd/agent_engineering.py:290-331 | Nothing is written unless the check finds the same changes before the tests, after them and under the lock, the tests pass, no release is pending before or under the lock, and the proposed contents are still there; then the installation runs as far as the process lives |
| `Releases.EngineeringManager.Install` | xauusd/agent_engineering.py:303-331 | Backups, journal, pending record, files and the wait for health are written in this order |
| `Releases.EngineeringManager.VerifyPending` | xauusd/agent_engineering.py:332-381 | A healthy installed release whose files are all new is recorded as verified and kept; with a file that is not new, or a path no release may touch, it is a conflict and nothing is written; anything else is rolled back, with the writes of that outcome as far as the process lives |
| `Releases.EngineeringManager.RollBack` | xauusd/agent_engineering.py:346-371 | The rollback restores in reverse order, and stops before the first write when a file is unknown |
| `Releases.EngineeringManager.Matches` | xauusd/agent_engineering.py:337-350 | The check of the tree accepts exactly trees that match the expected contents of every change |
| `Releases.EngineeringManager.Restore` | xauusd/agent_engineering.py:352-360 | Each backup is checked before it is written, last change first |
| `Releases.EngineeringManager.RecoverPending` | xauusd/agent_engineering.py:382-387 | Recovery treats an interrupted installation as unhealthy and leaves an installed release and an empty record as they are |
| `ReleaseLaws.InstallPrefixSafe` | xauusd/agent_engineering.py:303-328 | Dying between any two writes of an installation leaves a disk from which recovery is possible |
| `ReleaseLaws.CompleteInstall` | xauusd/agent_engineering.py:303-331 | An uninterrupted installation leaves exactly the proposed tree, waiting for its health check |
| `ReleaseLaws.VerifyPrefixSafe` | xauusd/agent_engineering.py:332-381 | Dying between any two writes of a verification or rollback leaves a disk from which recovery is possible |
| `ReleaseLaws.CrashAtomicRelease` | xauusd/agent_engineering.py:303-381 | From any crash point and after any number of interrupted attempts, without outside edits, a cleared release left exactly the old or exactly the proposed tree, the latter precisely when recorded as verified |
| `ReleaseLaws.RollbackSucceeds` | xauusd/agent_engineering.py:346-371 | From every disk a crash can leave, one uninterrupted rollback restores the old tree and clears the release |
| `ReleaseLaws.HealthyReleaseIsVerified` | xauusd/agent_engineering.py:346-351 | From every disk a crash can leave that waits for its health check, one healthy verification keeps exactly the proposed tree as verified when every file is new, and is a conflict without a write otherwise |
| `ReleaseLaws.HealthyInstallIsKept` | xauusd/agent_engineering.py:303-381 | An installation that runs through, restarts and proves healthy ends with the proposed tree, verified |
| `ReleaseLaws.RecoveryMeaning` | xauusd/agent_engineering.py:382-387 | Recovery restores the old tree after an interrupted installation and leaves an installed release alone |
| `Releases.BadBackupIsConflict` | xauusd/agent_engineering.py:358-360 | A rollback that meets a missing or altered backup is a conflict and leaves the release pending as it was |
| `ReleaseLaws.UnknownFileBlocksRollback` | xauusd/agent_engineering.py:346-351 | A file that matches neither hash leaves every file untouched |
| `ProtectedClosure.Closure` | xauusd/agent_engineering.py:87-106 | The work list ends and protects exactly the modules that some chain of relative imports reaches from the load-bearing ones |
| `ProtectedClosure.MoreImportsMoreProtected` | xauusd/agent_engineering.py:96-106 | Adding imports never unprotects a module |
| `ProtectedClosure.ProtectionStays` | xauusd/agent_engineering.py:87-106 | Only the imports of protected modules decide what is protected |
| `ReleaseLaws.ReleaseKeepsProtection` | xauusd/agent_engineering.py:83-106 | On every disk an installation, a crash or a rollback can leave, a manager that starts anew finds the same modules protected, since no source of a protected module may change |
| `DemoAdapter.CTraderDemoAdapter.Execute` | xauusd/ctrader_demo.py:743-783 | An execution answers from the kill switch, a collision or the prior record, or reserves, sends, judges and records, and is a run of the order machine |
| `DemoAdapter.SubmitMeaning` | xauusd/ctrader_demo.py:743-783 | An order goes out exactly when execution is not stopped, no other record uses its broker id and it has no record; its record then holds the verdict, and an unknown verdict leaves execution stopped |
| `DemoAdapter.VerdictMeaning` | xauusd/ctrader_demo.py:756-783 | A sent order is recorded as accepted exactly for the complete fill of this very order, as rejected exactly for an error that shows no fill, and otherwise as unknown, which leaves execution stopped |
| `DeskMeanings.OpenMeaning` | xauusd/ctrader_demo.py:743-758 | A stopped desk refuses; another record under the same broker key stops the desk; a recorded request gets what its record says; anything else is reserved, as pending, with its volume, side and broker key |
| `DeskMeanings.AttemptStages` | xauusd/ctrader_demo.py:754-783 | How far an order comes before an exception: on file and pending once reserved, sent from the second write on, stopped at the third when unknown, with its verdict on file at the fourth |
| `DeskMeanings.SwitchMeaning` | xauusd/ctrader_demo.py:619-640 | A stop withdraws the reconciliation, only a reconciled desk starts, a pending request can be recorded as rejected, and a desk without pending requests as reconciled |
| `DemoAdapter.AttemptMeaning` | xauusd/ctrader_demo.py:743-783 | An execution, raising or not, adds at most one record, for a request the desk did not have and of the order's side; an acceptance it records has the order's whole volume, and an accepted answer rests on a recorded acceptance |
| `DemoLaws.AtMostOnce` | xauusd/ctrader_demo.py:743-783 | Over every run of executions, crashes, restarts and reconciliations no request id and no broker id is sent twice |
| `DemoLaws.RecordedIdIsNeverReopened` | xauusd/ctrader_demo.py:636-643 | A request with a record is answered from it and never sent again |
| `DemoAdapter.CTraderDemoAdapter.Start` | xauusd/ctrader_demo.py:687-695 | Execution starts exactly after a successful reconciliation that no stop has followed |
| `DemoAdapter.CTraderDemoAdapter.Stop` | xauusd/ctrader_demo.py:697-700 | A stop also withdraws the reconciliation |
| `DemoAdapter.CTraderDemoAdapter.ReconcileAfterRestart` | xauusd/ctrader_demo.py:706-741 | Reconciliation succeeds exactly when the snapshot is of this demo account, broker ids are unambiguous, every pending request is reported rejected and the exposure agrees; the fills then total the paper volume, and any failure stops execution |
| `DemoAdapter.CTraderDemoAdapter.SettlePending` | xauusd/ctrader_demo.py:725-733 | Nothing is written while a pending request has no verdict; then rejections go in, in record order, up to the first pending request with another verdict |
| `DemoAdapter.Identify` | xauusd/ctrader_demo.py:714-722 | The map from broker ids to requests exists exactly when no broker id is used twice |
| `DemoAdapter.Translate` | xauusd/ctrader_demo.py:723-724 | A request's outcome is the last one reported under its broker id or, when no record has that broker id, under the id itself |
| `DeskMeanings.WordMeaning` | xauusd/ctrader_demo.py:723-724 | The verdict that counts is the last one under a request's broker key, or under the id itself when no record speaks under it |
| `DemoAdapter.VerifyExposure` | xauusd/ctrader_demo.py:847-902 | The exposure check passes exactly when there are no open orders, every record is a verified fill or a rejection with its own deal, every position is sound, both sides agree position by position and the broker total is the paper volume |
| `DeskMeanings.AgreementMeaning` | xauusd/ctrader_demo.py:847-902 | Agreement, read off the records: no open orders; every request a complete execution of itself on this account under its own key, or a rejection; no deal twice; every broker position sound and listed once; position by position what was bought less what was sold; and in all the paper volume |
| `DeskMeanings.ReconcilableMeaning` | xauusd/ctrader_demo.py:706-741 | A reconciliation asks for a snapshot of this very demo account, distinct broker keys, a rejection as the last verdict on every pending request, and agreement with those on file |
| `DemoAdapter.ReadFills` | xauusd/ctrader_demo.py:859-882 | The net volume per position is the sum of verified fills; any record that cannot be verified ends the check |
| `DemoAdapter.ReadPositions` | xauusd/ctrader_demo.py:883-892 | The broker's volumes are taken per position, each position once |
| `DemoLaws.AgreementTotals` | xauusd/ctrader_demo.py:882-902 | When every position agrees, all accepted fills together are the paper volume |
| `DemoLockstep.PolicyMeaning` | xauusd/demo_execution.py:64-74 | A volume passes the policy exactly when it is the minimum plus whole steps and not above the maximum |
| `DemoLockstep.ToVolume` | xauusd/demo_execution.py:34-43 | A converted volume is positive and exactly the quantity times the factor |
| `DemoLockstep.Expected` | xauusd/cli.py:133-139 | The expected volume, when there is one, is the paper position times the factor |
| `DeskMeanings.VolumeMeaning` | xauusd/demo_execution.py:34-43 | A quantity converts exactly when it is positive and a whole number of broker units; a position has an expected volume exactly when it is a whole number of them |
| `DeskMeanings.PaperMeaning` | xauusd/paper_trading.py:275-282 | Paper answers a decision once; a new one is accepted exactly when paper is not stopped and the gate lets it pass, and then moves the position by its quantity on its side |
| `DemoRunner.PaperToCTraderDemoCoordinator.Execute` | xauusd/demo_execution.py:102-134 | Volume rules first, then paper, then the broker; a refusal or an exception of the adapter after paper acceptance stops both sides, unless the audit or a stop itself raises |
| `DemoRunner.CoordinateIsExecuted` | xauusd/demo_execution.py:102-134 | An execution, with whatever exceptions, is the step-by-step run of the machine |
| `DemoRunner.ExecutionOutcome` | xauusd/demo_execution.py:118-134 | From a running runner in lock-step, whatever raises: a refusal after paper acceptance leaves both switches stopped, and the sides are even exactly when a fill went on file for a decision new to paper or none for one it had answered |
| `DemoRunner.TradedOutcome` | xauusd/demo_execution.py:118-134 | A completed trade leaves both sides even exactly when it was no second taking of a decision that paper had accepted and the desk had never recorded |
| `DemoRunner.LostStopOutcome` | xauusd/demo_execution.py:126-134 | When the audit or a stop raises after a refusal, the runner goes on, and the sides are even exactly when paper had answered the decision before |
| `DemoRunner.LostOrderOutcome` | xauusd/demo_execution.py:118-124 | When paper raises after its commit the runner goes on, and the sides are even exactly when the decision was not new |
| `LockstepLaws.LockStepExposure` | xauusd/demo_execution.py:102-134 | Over every run, whenever the runner is running and no execution is under way, the paper position times the factor is the net of all accepted fills, unless a fill went on file that was not owed or an exception ended a cycle while its order was owed |
| `LockstepLaws.OrdinaryIsExact` | xauusd/demo_execution.py:118-134 | Those two exceptions are exact: of a runner in lock-step that goes on, a move keeps lock-step if and only if it is neither |
| `LockstepLaws.CrashLeavesTheDebt` | xauusd/demo_execution.py:118-134 | A crash leaves both switches as they are, and the sides even exactly when no order was owed |
| `LockstepLaws.EveryOrderOnce` | xauusd/demo_execution.py:102-134 | At most once also holds for the whole machine, without those exceptions |
| `LockstepLaws.ReconciliationMeaning` | xauusd/ctrader_demo.py:706-741 | A reconciliation changes no fill, and a successful one means the fills are the paper volume |
| `LockstepLaws.StartupKeeps` | xauusd/demo_runner.py:127-150 | A successful start finds both sides even |
| `DemoRunner.OrphanReplayBreaksLockStep` | xauusd/paper_trading.py:275-282 | A decision paper accepted while the runner was off, taken again after flat trading elsewhere, is bought at the broker while paper does not move, with both switches running |
| `DemoRunner.LostStopBreaksLockStep` | xauusd/demo_runner.py:169-174 | A stop write that raises is counted as one failure and the runner goes on with both switches running and the sides apart |
| `DemoRunner.CrashAfterPaperLeavesSwitchesRunning` | xauusd/demo_execution.py:118-124 | A crash between paper's answer and the reservation leaves both switches running and the sides apart |
| `DemoRunner.StartupInPieces` | xauusd/demo_runner.py:102-150 | A successful start-up is a reconciliation followed by the starts it needs, each a move of its own, so a crash inside it is a run of those moves |
| `DemoRunner.DemoAutomationRunner.Start` | xauusd/demo_runner.py:102-150 | A start changes nothing while either switch is stopped for any reason but a fresh account's; otherwise it reconciles, and then starts only what was never stopped or stops both |
| `SwitchLaws.StartupMeaning` | xauusd/demo_runner.py:102-150 | A start-up ends running with both switches on exactly when neither switch must hold and the reconciliation succeeds; a switch that must hold leaves everything as it was, and a failed reconciliation stops both for good |
| `SwitchLaws.PaperStopHolds` | xauusd/paper_trading.py:30-50 | Over every run with restarts, a paper stop stays until an operator starts paper, and until then the position does not move |
| `SwitchLaws.DemoStopHolds` | xauusd/paper_trading.py:30-50 | Likewise a stop of the demo side, and until it is lifted nothing is sent |
| `SwitchLaws.SwitchesMove` | xauusd/demo_runner.py:187-197 | A stop takes its reason at once, a start of the demo side needs a reconciliation, and a runner that gives up stops both sides |
| `SwitchLaws.SettlingWaits` | xauusd/ctrader_demo.py:725-733 | Reconciliations and settlements wait for the order in flight, and a settlement records a rejection for a pending request and touches nothing else |
| `DemoRunner.StopAsFreshIsLifted` | xauusd/paper_trading.py:35-50 | A stop by hand that gives a fresh account's reason is lifted by the next start-up |
| `DemoRunner.DemoAutomationRunner.RunCycle` | xauusd/demo_runner.py:152-174 | A cycle runs one coordinated execution with whatever raises in it, counts failures in a row and stops both switches at the limit |
| `BitsCycle.PruneAt` | xauusd/bits_jobs.py:216-238 | Pruning deletes only finished rows that have at least the kept number of finished rows after them |
| `BitsCycle.PruneExactly` | xauusd/bits_jobs.py:216-238 | Pruning deletes exactly the ended rows that have at least the kept number of ended rows after them |
| `BitsCycle.StepKeeps` | xauusd/bits_runner.py:262-430 | Every durable step keeps rows in cycle order, posts once per submission, each row to one process, and each cycle within its budget |
| `BitsLaws.PostedOnceWithinBudget` | xauusd/bits_runner.py:262-430 | Over every run with crashes at any write, each submission is posted at most once and no cycle starts more processes than its budget |
| `BitsLaws.ShellExactlyOnce` | xauusd/bits_jobs.py:176-190 | Each action of a cycle starts at most one process while the budget is at most one more than the rows a start-up keeps |
| `BitsLaws.ExactHorizon` | xauusd/bits_jobs.py:216-238 | That bound is exact: with any larger budget some run starts the same action twice |
| `BitsLaws.ForgottenActionRunsAgain` | xauusd/bits_jobs.py:220-224 | A run in which a start-up deletes a row of the cycle under way and the action runs again |
| `BitsLaws.CrashIsStuck` | xauusd/bits_runner.py:275-280 | A crash during a submission, or while the recorded job runs, leaves a cycle whose outcome is uncertain |
| `BitsLaws.UncertainNeverActs` | xauusd/bits_runner.py:300-302 | After a crash during a submission or under a running recorded job, nothing is posted or started until the operator resets |
| `BitsLaws.StuckTickStops` | xauusd/bits_runner.py:300-335 | A tick in that state leads to the recovery stop |
| `BitsLaws.UninterruptedRecovery` | xauusd/bits_runner.py:72-76 | A start-up that completes after such a crash, or with any job still running, has stopped paper and blocked the cycle |
| `BitsLaws.SecondCrashForgetsTheJob` | xauusd/bits_runner.py:72-76 | A second crash between marking a running row and writing the stop lets the next process go on to a new cycle without any stop |
| `BitsLaws.ForgottenExactly` | xauusd/bits_runner.py:72-76 | From every reachable state of a process that is down with paper running, some run without an operator posts again exactly when the cycle on disk is not blocked, not submitting, and not waiting for a job other than one retained and plainly ended; otherwise nothing is posted or started |
| `BitsRunner.BitsAgentRunner.constructor` | xauusd/bits_runner.py:47-76 | A new process deletes old rows, marks running ones, and blocks whatever is uncertain |
| `BitsRunner.BitsAgentRunner.RunTick` | xauusd/bits_runner.py:291-430 | One tick is the specified composition of durable steps for every phase, market state and reply |
| `BitsRunner.TickIsRun` | xauusd/bits_runner.py:291-430 | A tick is a list of the cycle's moves, so a process that dies inside a tick has made the first of them and crashed |
| `BitsRunner.SubmitLeaves` | xauusd/bits_runner.py:264-289 | A new cycle or the next step of this one is posted once, and an unanswered request stays as being submitted |
| `BitsRunner.ActLeaves` | xauusd/bits_runner.py:405-424 | Beyond the budget the cycle ends; a key without a row gets one and its process, a key with a row for the same request is that job again without a process, and one for another request changes nothing |
| `BitsRunner.WatchLeaves` | xauusd/bits_runner.py:315-345 | A running job is waited for or given up past its ceiling; an uncertain, cancelled or timed-out end stops paper, a plain one leads to feedback |
| `BitsRunner.TickLeaves` | xauusd/bits_runner.py:291-430 | What a tick leaves in every phase: stops, waits, ends and drops, and new work in an open market on fresh data only |
| `BitsRunner.OutsideLeaves` | xauusd/cli.py:702-717 | The operator's reset, with the process down and paper stopped, frees the cycle and takes every running row for uncertain; a step that raises leaves the process at rest |
| `BitsRunner.BitsAgentRunner.SubmitNow` | xauusd/bits_runner.py:262-289 | The phase is written before the request and again after its answer; an unanswered request stays submitting |
| `BitsRunner.BitsAgentRunner.ActNow` | xauusd/bits_runner.py:405-425 | The budget ends the cycle; otherwise the action is claimed, started when new, and counted |
| `BitsRunner.BitsAgentRunner.WatchJob` | xauusd/bits_runner.py:315-340 | A running job is waited for or stranded, an uncertain end stops paper, a good one leads to feedback |
| `BitsRunner.BitsStore.Claim` | xauusd/bits_jobs.py:176-190 | A key is inserted once; a second claim gets the same row, or an error for a different request |
| `BitsRunner.BitsStore.Recover` | xauusd/bits_jobs.py:207-214 | All running rows, and no others, become uncertain |
| `BitsRunner.BitsStore.PruneRows` | xauusd/bits_jobs.py:216-238 | The oldest finished rows beyond the kept number go |
| `BitsRunner.TickKeeps` | xauusd/bits_runner.py:291-430 | Every tick keeps the invariants of all runs |
| `BitsRunner.MonitorCountsAllFailures` | xauusd/bits_runner.py:453-477 | The risk monitor stops paper exactly when three of its cycles have failed since the process began |
| `BitsRunner.ScatteredFailuresStop` | xauusd/bits_runner.py:461-468 | Three failures need not follow each other: a success resets a counter that is never tested |
| `BitsRunner.ThreeInARowStop` | xauusd/bits_runner.py:461-474 | Three failures in a row always stop paper |
| `MemoryLaws.BitsMemory.WriteNotes` | xauusd/bits_memory.py:604-655 | The write transaction closes the named drafts one by one, counts the others as skipped and replaces the notes, or changes nothing |
| `MemoryLaws.WriteMeaning` | xauusd/bits_memory.py:604-655 | The version rises by one exactly when the content is new, exactly the named drafts are resolved, and a named base must be the current version |
| `MemoryLaws.WriteLeavesTheRest` | xauusd/bits_memory.py:600-650 | An accepted write leaves exactly the drafts it does not name, in their order and with their contents, each passed over once more |
| `MemoryLaws.BitsMemory.RecordRejection` | xauusd/bits_memory.py:698-756 | A refused write is recorded on the drafts it names or matches, or as a new draft after making room |
| `MemoryLaws.RecordMeaning` | xauusd/bits_memory.py:698-756 | A rejection leaves the notes unchanged and closes at most the oldest draft, only to make room |
| `MemoryLaws.RecordTouches` | xauusd/bits_memory.py:695-735 | A rejection belongs to the open drafts it names, or else to the first that holds its payload; those count an attempt and take over the new base, payload and evidence, and every other draft stays exactly as it was; where there is none it opens a draft, the oldest making room, unless nothing was supplied or the notes already hold the payload |
| `MemoryLaws.RefusedWorkIsKept` | xauusd/bits_memory.py:666-734 | A refused payload that may be retained is found in an open draft |
| `MemoryLaws.BitsMemory.SupersedeDraft` | xauusd/bits_memory.py:757-782 | Superseding closes the named open draft |
| `MemoryLaws.SupersedeMeaning` | xauusd/bits_memory.py:757-782 | Superseding closes exactly one draft and touches no notes |
| `MemoryLaws.LoadSettles` | xauusd/bits_memory.py:487-503 | Loading folds the record of the previous release in once and evicts an overflow |
| `MemoryLaws.LoadMeaning` | xauusd/bits_memory.py:487-503 | The record of the previous release becomes the oldest open draft, and with five open already it is evicted at once |
| `MemoryLaws.LegacyOnce` | xauusd/bits_memory.py:487-503 | A record whose draft is open or remembered as closed is not taken over again |
| `MemoryLaws.DraftsConserved` | xauusd/bits_memory.py:487-782 | Over every run every draft is open or has exactly one fate, with at most five open and twenty remembered as closed |
| `MemoryLaws.DraftsAddUp` | xauusd/bits_memory.py:487-782 | All drafts ever opened are those open, resolved, superseded and evicted, and the eviction counter is the last number |
| `MemoryLaws.LostUpdateImpossible` | xauusd/bits_memory.py:587-602 | Once a write has changed the notes, no write based on the older version is accepted |
| `MemoryLaws.MergedRefs` | xauusd/bits_memory.py:442-451 | Merging references keeps what was there, adds nothing twice, stays within the limit and counts exactly those it could not keep |
| `MemoryLaws.Remember` | xauusd/bits_memory.py:876-898 | A source is remembered once; the full entries and the shortened ones are each the longest newest run within their limits |
| `Conversation.ConversationStore.Append` | xauusd/agent_conversation.py:24-43 | An appended entry takes its place in time, its body is stored once, and the log is pruned |
| `Conversation.ConversationStore.Prune` | xauusd/agent_conversation.py:45-67 | What survives is exactly the longest newest run of unexpired entries within the number and the distinct bytes, with exactly the bodies it uses |
| `Conversation.LongestIsUnique` | xauusd/agent_conversation.py:45-58 | The survivors are determined by the limits alone |
| `Conversation.NewerIsWithin` | xauusd/agent_conversation.py:45-58 | A newer part of a run within the limits is within the limits, so the longest one is where pruning stops |
| `Conversation.NewestSurvives` | xauusd/agent_conversation.py:45-58 | The newest entry is never deleted while it is unexpired and fits by itself |
| `Conversation.StillMatched` | xauusd/agent_conversation.py:60-62 | After dropping orphans every entry has its body and every body an entry |
| `Conversation.PagesShowAll` | xauusd/agent_conversation.py:69-77 | Following the cursor shows every unexpired older entry exactly once, newest first, for every page size |
| `Conversation.PagesShowUnexpired` | xauusd/agent_conversation.py:69-77 | From the top, the pages show exactly the unexpired entries, each once, newest first |
| `Conversation.PageMeaning` | xauusd/agent_conversation.py:69-77 | A page holds as many of the remaining entries as asked for, at least one and at most a hundred, with a cursor at its last exactly when more remain |
| `Conversation.TextPageMeaning` | xauusd/agent_conversation.py:79-88 | A page of a body holds as many characters as asked for, at least one and at most twelve thousand, with the next offset exactly when some remain |
| `Conversation.TextRoundTrip` | xauusd/agent_conversation.py:79-87 | Reading a body page by page gives the whole text |
| `Attribution.AttributionIdentity` | xauusd/experiment_learning.py:22-56 | Over every sequence of fills, the tracked entry gives the account's average price, matched profit is mid-price profit less cost, every close is matched or not, and counters, sums and the two best closes are those of the closes observed; from a flat account with positions that can be told from none, an entry is tracked exactly while a position is open and every close is matched |
| `Attribution.CostsAddUp` | xauusd/experiment_learning.py:22-34 | Every fill is counted, and the accumulated spread and slippage are together exactly the cash that trading at mid prices would have left besides |
| `Attribution.NetSinceStart` | xauusd/experiment_learning.py:10-19 | The observed net profit is the account's realized profit since the observation began |
| `Attribution.FillKeepsTracking` | xauusd/experiment_learning.py:49-56 | Opening, adding, reducing, closing and reversing keep the tracked entry equal to the average price, and keep it there exactly while a position is open |
| `Attribution.OpeningIsTracked` | xauusd/experiment_learning.py:49-52 | A fill that opens or reverses a position tracks it with the quote's mid price, its own side and its own cost per unit |
| `Attribution.EveryCloseIsMatched` | xauusd/experiment_learning.py:22-56 | From a fresh observation of a flat account, an entry is tracked exactly while a position is open, so every close is matched and the matched profit is all of it |
| `Attribution.MidBooksBalance` | xauusd/experiment_learning.py:22-56 | Then cash at mid prices and the position at its tracked mid are the initial cash and the matched gross, and spread and slippage are the matched cost and what the open position still carries |
| `Attribution.RoundTripIsMatched` | xauusd/experiment_learning.py:22-56 | One round trip in figures: gross 5, cost 2, nothing unmatched |
| `Attribution.MatchedClose` | xauusd/experiment_learning.py:36-47 | The profit of a tracked close is the mid-price move less the costs of both fills |
| `Attribution.TopTwoLargest` | xauusd/experiment_learning.py:40-42 | The two best closes stay the two largest |
| `Attribution.BestWithinPositive` | xauusd/experiment_learning.py:73-79 | The two best closes are part of the positive sum, so their share never exceeds one |
| `Attribution.ObservedOnce` | xauusd/experiment_learning.py:25-26 | A fill observed twice counts once |
| `Attribution.FillKeepsBooks` | xauusd/paper_trading.py:518-541 | Cash plus the position at its average price is the initial cash plus all realized profit after every fill |
| `Attribution.EquityMeaning` | xauusd/paper_trading.py:515-516 | Equity at any mark is initial cash, realized profit and open profit |
| `Attribution.PaperAccount.Apply` | xauusd/paper_trading.py:518-541 | A fill moves cash, position, average price and ledger as specified |
| `Attribution.ExperimentRow.ObserveFill` | xauusd/experiment_learning.py:22-56 | An observation updates the figures as specified and never the account |
| `CallLaws.NeverRepeated` | xauusd/agent_advisor.py:310-353 | Over every run with crashes, of two executed side effects with one fingerprint the earlier is settled, and every unsettled one stands unresolved in the ledger |
| `CallLaws.UnresolvedIsKept` | xauusd/agent_advisor.py:300-306 | An unresolved call stays in the ledger until it is completed, whatever the bound on settled calls |
| `CallLaws.SettledIsBounded` | xauusd/agent_advisor.py:301-305 | At most a hundred settled calls are kept |
| `CallLaws.CompletionNeedsEvidence` | xauusd/agent_advisor.py:402-428 | An unknown call becomes completed only in a reconciliation that names it, from a reply that its own job is done |
| `CallLaws.ParkedForEver` | xauusd/agent_advisor.py:324-327 | A job missed twice is parked, and no later run ever changes a parked call, because the status request that could bring evidence is itself redirected |
| `CallLaws.TwoMissesPark` | xauusd/agent_advisor.py:402-428 | Two lookups that find nothing park any unknown remote call |
| `CallLaws.CrashLeavesUnknown` | xauusd/agent_advisor.py:289-293 | A crash under a remote call leaves one, from an empty ledger |
| `CallLaws.InvestigationOf` | xauusd/agent_advisor.py:402-428 | A reconciliation changes the named call as the lookup says, and a parked one not at all |
| `CallLaws.LookupSettles` | xauusd/agent_advisor.py:413-426 | A reconciliation of an unknown remote call that is not parked completes it when its job is done and succeeded in running, counts a miss when it is not found, and leaves it otherwise |
| `CallLaws.EvidenceReopens` | xauusd/agent_advisor.py:407-426 | Matching evidence, could a reconciliation name any, would complete even a parked call |
| `CallLaws.RequestMeaning` | xauusd/agent_advisor.py:310-330 | A call is taken up, as running and on record, exactly when no row answers it or the reconciliation it stands for, and fewer than twenty calls press or it only reads, asks for a status or reconciles |
| `CallLaws.RefusalMeaning` | xauusd/agent_advisor.py:338-346 | A call that would be taken up but finds no planned variant is on record as refused, and nothing else happens |
| `CallLaws.DispatchMeaning` | xauusd/agent_advisor.py:345-372 | The effect of a local or remote call leaves the process once, that of no other ever |
| `CallLaws.FinishMeaning` | xauusd/agent_advisor.py:440-472 | An effect whose outcome is uncertain stays unknown, everything else is completed and settled |
| `CallLaws.InterruptedLookupBlocks` | xauusd/agent_advisor.py:316-327 | A reconciliation that was interrupted is not made again by the same request or by a status request |
| `CallLaws.AgentAdvisor.constructor` | xauusd/agent_advisor.py:289-293 | A new process turns every running call into an unknown one |
| `CallLaws.AgentAdvisor.Record` | xauusd/agent_advisor.py:300-306 | A row replaces the one with its id and only settled rows are bounded |
| `CallLaws.AgentAdvisor.Begin` | xauusd/agent_advisor.py:316-353 | A duplicate is answered with the known call, too many unresolved calls refuse all but reading, and everything else is on record before it runs |
| `CallLaws.AgentAdvisor.Look` | xauusd/agent_advisor.py:402-428 | A reconciliation looks up the named call and records the verdict, unless it is parked |
| `CallLaws.AgentAdvisor.Execute` | xauusd/agent_advisor.py:310-472 | A call is the step-by-step run of the ledger, as far as the process lives |
| `Canary.ConfirmedBreakoutCanarySource.Read` | xauusd/canary_strategy.py:83-106 | A read emits the pending transition and takes the newest bar as observed, or refuses invalid signals and changes nothing |
| `Canary.EmissionMeaning` | xauusd/canary_strategy.py:108-134 | An emitted transition is unobserved, the newest, and among the last backlog bars; nothing is emitted exactly when there is none, and a first read looks at the newest bar only |
| `Canary.EventMeaning` | xauusd/engine_loop.py:317-406 | A tick observes its second snapshot and sends the pending transition to the gate under an id of the newest bar and its side, refused when decided before and decided for good otherwise; a lost tick has observed all the same, a restart nothing |
| `Canary.EveryBarEveryTransition` | xauusd/canary_strategy.py:108-134 | A consumer that sees every bar gets every transition |
| `Canary.TransitionAtMostOnce` | xauusd/engine_loop.py:381-406 | Over restarts and a growing store no transition is filled twice, with ids named after the transition always, and with ids named after the newest bar as long as no tick fills a bar newer than its id |
| `Canary.OneSnapshotIsNeverExposed` | xauusd/engine_loop.py:331-347 | With one snapshot per tick that condition holds |
| `Canary.ExposedFillsTwice` | xauusd/engine_loop.py:397-406 | After an exposed tick that the gate fills, a restart that finds the same newest bar fills the same transition again under another id |
| `Canary.ExposureIsExact` | xauusd/engine_loop.py:317-406 | After any run without exposed fills, a tick can be followed by a second fill of one transition, with no further exposed fill, exactly when it is itself an exposed fill |
| `Canary.ExposedIsReachable` | xauusd/engine_loop.py:331-397 | Such a tick happens when a bar arrives between the two reads of one tick |
| `Canary.PaperTradingEngine.EvaluateOnce` | xauusd/engine_loop.py:282-376 | A halted or unvalidated engine does nothing; a failure counts towards the halt, which comes exactly at the limit, and leaves what was done before it, a fill included; anything else clears the count and is one tick |
| `Canary.PaperTradingEngine.CheckHalt` | xauusd/engine_loop.py:206-226 | The stored halt decides, and lifting it clears the failure count |

## Left out

- HTTP, SSH, Twisted, protobuf, subprocesses and systemd: transports are replies, losses and crashes given from outside.
- SQL and pandas: tables are sequences and maps, a transaction is one step, a resample is its definition.
- Floating-point rounding: reals are exact; the tolerances the code applies (1e-10 in the metrics, 1e-9 in attribution) are kept.
- Time zones and daylight saving: market hours are a predicate on minutes; cadences, poll intervals and time-outs are events that may happen at any moment.
- Sharpe, Sortino, CAGR, quantiles and concentration statistics of the backtest: single formulas over the equity curve.
- The decoding of trend bars and the order of equal minutes inside one page: a page is the frame it decodes to. Rows that normalisation drops for missing numbers are not there.
- Equity points and trades carry bar numbers instead of timestamps, and signals that are missing at a bar are zero, as the source fills them.
- The chart cache and the coverage summary of `lab_market.py`.
- Release metadata beside the journal, the pending record and the last three releases: events, the engineering summary, and the deletion of expired release directories. The dependency rule for `pyproject.toml` and the eligibility of paths are predicates.
- The test sandbox of a release: whether the tests passed is an input.
- Paper gates other than the kill switch: market hours, data age, trade count, position and loss limits are one verdict of the gate. A blank decision id, which paper refuses without storing it, is such a verdict that is stored.
- The symbol name of an account: records and snapshots carry account and symbol id.
- Audit rows, transcripts, status files, prompts, secret filtering and the contents of shell jobs.
- Draft fields that only describe (times, errors, character counts), repair reasons, and notes validation, which is a verdict.
- Evidence paging, plan reservations, source capture and stagnation limits of the call ledger: a refusal by any of them is the event `Refuse` or no event. Adoption of lookups recorded by earlier releases in `research_recovery.py`.
- Reviews and assessments of experiments, and the equity baseline.
- The feature builder and the strategy behind a signal: a bar carries its signal.
- CallLaws.NeverRepeated: speaks of fingerprints as the calls themselves, since a digest stands for its content.
- ChartBars.Chart: when rows newer than the last closed minute leave too few closed rows in the groups read, the view is that of the rows read, not of all rows.
- BarIndex.Validate: does not report the first hundred gaps one by one, nor the repeated minutes of the frame as given, which is a count.
- DemoRunner.DemoAutomationRunner.RunCycle: covers cycles in which anything may raise; a process that dies inside a cycle is a crash of the machine in DemoLockstep between two of the moves of the same execution.
- BitsRunner.BitsAgentRunner.RunTick: covers ticks that end; a process that dies inside one has made the first of the moves in `TickMoves`.
