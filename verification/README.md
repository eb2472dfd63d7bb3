# Run engine verification

A Dafny model of the run engine in `apps/api/app/runtime`: how work items are selected and run, how workers
hold them, how the budget ledger is kept, and the text machinery that turns model output into file changes.
Each module follows one part of the engine; code that updates state step by step is a class or a method with
loops proved equal to a specification, and the properties are lemmas about the specification.

| module | part of the engine |
|---|---|
| `WorkItems` | work-item rows and the failure and dependency predicates |
| `Scheduler` | selection of runnable items: order, truncate, then look at dependencies; cancellation |
| `Batches` | one pass of the embedded run loop: its transaction, its rollbacks and its retries |
| `Runs` | whole runs of the loop as sequences of turns, and what every turn keeps |
| `Repeats` | how often a run starts the same row |
| `Answers` | which of the executor's answers the rows carry |
| `Orchestrator` | the loop itself, the run row and the final write |
| `TemplateRun` | runs of the template graph, from its creation to the exit of the loop |
| `Dag` | the template work graph |
| `Leases` | lease arithmetic, keep-alive, the two reclaimers, all interleavings |
| `Budget` | the budget ledger, its serialised form and its modes |
| `Spending` | prices, limits and reserves of the ledger in money |
| `DerivedStates` | validation, retry and lifecycle states derived from the rows |
| `JsonScan` | the balanced JSON scanner and the candidate extraction in front of it |
| `Hunks`, `HunkStats` | applying a diff by block replacement; line statistics |
| `Patches` | where blocks are found, which patches are refused, hunks out of file order |
| `Zones` | replacing the body of a marked zone |
| `ExecuteLoop` | the attempt and repair loops of one `execute` |
| `Exits` | which answers and findings lead to which exit of one `execute` |
| `RelPath`, `Components`, `Imports` | relative import paths, component resolution, import normalisation |
| `ImportReports` | what one import pass does to each import, injects, reports and counts |
| `Landing` | landing-page normalisation and its validator |
| `Text`, `Wrappers` | string helpers with Python's meaning; `Option` |

Lines are cited by path from the repository root.

## Where the code does less than one would expect

Several natural properties fail for some inputs. In each case the code is modelled as it is, the condition under
which the property holds is stated as an equivalence, and a concrete input shows the failure.

- **Scheduler progress.** The dependency query keeps only a parent's status, payload and result, so a failure that is
  tolerated because its error text names an exhausted budget does not release its children, and does not fail the
  run either: the loop sleeps for ever. A code stage that raises with such a text does this in every template run:
  recovery has no rule for that class of failure and leaves the result empty. Tolerance by type (`WRITE_TESTS`) is
  lost in the query as well, but the template marks those items as not blocking in the payload, which is not.
  `EmptySelectionIff`, `Progress`, `SleepsIff`, `TemplateSleepsIff`, `BudgetTextStarves`.
- **No repeated starts.** An exception while an item runs rolls the session back to the top of the pass, which
  undoes the results of the earlier items of the same batch; they run again in the next turn. A run that stops by
  itself, drained, failed or asleep, starts no item twice exactly if no call raised past the first position of its
  batch and none was retried; for an interrupted run only the calls before the last turn count.
  `NothingRequeuedIff`, `NoRepeatsIff`, `StoppedNoRepeatsIff`, `RaiseRepeats`.
- **Only blocked items are canceled.** Exactly if a query without a limit would have selected nothing either; a split
  failure or an older cancellation counts as a cause. `CanceledAreBlockedIff`, `SmallLimitCancelsReadyWork`.
- **Extraction inverts printing.** A blank prefix sends the whole rest along, and a code fence inside a string of the
  value is found first, as is one that the prefix opens. `ExtractionInvertsPrinting`, `ExtractionByParts`,
  `FenceFreeExtraction`, `TrailingTextStays`, `FenceInsideStringWins`.
- **Hunk round trip.** A hunk without old lines is dropped without a word. `HunkRoundTrip`, `InsertionIsLost`.
- **Line conservation.** Newlines always balance; the line count does too unless a deletion cuts the last line off
  in its middle. `LineConservation`, `LocatedConservation`, `MidLineDeletion`.
- **A relative path leads to its target.** Not if the importing directory goes up where it leaves the target's path.
  `RelativeLeadsToTarget`, `ParentStepMisleads`.
- **Import normalisation is idempotent.** Not if text follows the script tag on its line and imports are injected; a
  second pass settles it. `Imports.NormalizeIdempotentIff`, `TextAfterTagInjectsAgain`, `StableAfterTwo`.
- **Landing normalisation is idempotent.** Not if a style tag opens inside the script block and the first style block of
  the page is another one. `Landing.NormalizeIdempotentIff`, `StyleAcrossScriptGrows`.
- **A plan or an error.** The missing-plan exit is reachable for a negative retry limit only. `PlanMissingIff`.
- **A completed run shows success.** Not if a validation item was canceled and none failed in a tolerated way; and a
  canceled run shows as running. `FinishedRunShows`, `CompletedButValidating`.

## Model

| member | source | states |
|---|---|---|
| `WorkItems.DependencyViewAgrees` | apps/api/app/runtime/orchestrator.py:711-735 | the dependency query, which sees neither type nor last error, agrees with the row's own predicate exactly when the row is not split, and is stricter where they differ |
| `WorkItems.DeadEndCauses` | apps/api/app/services/work_item_state.py:33-71 | a terminal row holds its children back for good exactly if it failed blocking, is split, or was canceled |
| `WorkItems.BlockingIff` | apps/api/app/services/work_item_state.py:33-60 | which failures block, by the columns alone |
| `WorkItems.ReleasesIff` | apps/api/app/runtime/orchestrator.py:711-735 | which rows release their children, by the columns alone |
| `Scheduler.QueueOrdered` | apps/api/app/runtime/orchestrator.py:699-706 | the queue lists exactly the queued rows, once each, higher priority first and then older first |
| `Scheduler.RunnableSelects` | apps/api/app/runtime/orchestrator.py:692-735 | the selection holds distinct queued rows from the truncated queue, all with every parent released |
| `Scheduler.BatchIff` | apps/api/app/runtime/orchestrator.py:699-706 | the truncated query returns exactly the queued rows with fewer queued rows ahead of them than its limit |
| `Scheduler.EmptySelectionIff` | apps/api/app/runtime/orchestrator.py:692-735 | over any graph whose edges strictly decrease priority and any limit, with nothing active: the selection is empty exactly when every row in the truncated queue hangs off a dead end by a chain of queued rows |
| `Scheduler.Progress` | apps/api/app/runtime/orchestrator.py:493-495 | with nothing active, no blocking failure and no canceled or split row, a queued row means a non-empty selection: truncating before filtering cannot starve the run |
| `Scheduler.SplitFailureStarves` | apps/api/app/runtime/orchestrator.py:726-735 | rows behind a failure tolerated for its error text, from which no limit selects anything although nothing failed in a blocking way |
| `Scheduler.RankInversionStarves` | apps/api/app/runtime/orchestrator.py:699-706 | without the priority condition on edges, a limit of one starves a run that has work |
| `Scheduler.CanceledAreDescendants` | apps/api/app/runtime/orchestrator.py:474-486 | when the limit covers the queue and nothing is selected, every canceled row descends from a dead end |
| `Scheduler.CanceledAreBlockedIff` | apps/api/app/runtime/orchestrator.py:474-486 | cancellation hits only rows that hang off a dead end if and only if a query without a limit selects nothing |
| `Scheduler.CanceledDescendFromBlockingFailure` | apps/api/app/runtime/orchestrator.py:474-486 | and from a blocking failure if nothing is split or was canceled before |
| `Scheduler.SmallLimitCancelsReadyWork` | apps/api/app/runtime/orchestrator.py:474-486 | with a small limit an item that nothing blocks is canceled |
| `Batches.StartsReady` | apps/api/app/runtime/orchestrator.py:497-498 | dependencies hold when each item of a batch starts, whatever the items before it in the batch did |
| `Batches.BatchMakesProgress` | apps/api/app/runtime/orchestrator.py:430-498 | every non-empty batch lowers a weight over the rows, through rollbacks and in-place retries |
| `Batches.BatchAccounting` | apps/api/app/runtime/orchestrator.py:737-864 | the executor calls of a batch for a row are each either requeued or settle it, exactly once |
| `Batches.NothingRequeuedIff` | apps/api/app/runtime/orchestrator.py:827-864 | a pass requeues nothing exactly when no item after the first raises and none is retried |
| `Batches.RequeuedAreUndone` | apps/api/app/runtime/orchestrator.py:827-864 | the rows a pass requeues are exactly those of the calls that put their row back or were followed by one that raised |
| `Batches.RollbackRepeats` | apps/api/app/runtime/orchestrator.py:827-837 | an item that was done and is queued again because the next item of its batch raised |
| `Runs.HistoryHolds` | apps/api/app/runtime/orchestrator.py:430-498 | after every turn of every run: the graph invariant, topological order, readiness at every start, conservation of calls, requeues explained by the calls, outcomes those of the executor, profiles and finished rows unchanged |
| `Runs.RunsAgree` | apps/api/app/runtime/orchestrator.py:430-498 | rows, graph, limit and executor determine a run: of two runs one continues the other |
| `Runs.TurnsBounded` | apps/api/app/runtime/orchestrator.py:430-498 | a run takes at most as many turns as the weight of its rows |
| `Runs.EndedRunIsOver` | apps/api/app/runtime/orchestrator.py:457-486 | when the loop ends a run, every row is terminal, the run failed exactly for a blocking failure, every row it was given has settled, or was canceled because the run failed |
| `Runs.GoesOnIff` | apps/api/app/runtime/orchestrator.py:474-498 | the loop goes on exactly as long as something is selected, failures or not |
| `Runs.SleepsIff` | apps/api/app/runtime/orchestrator.py:457-495 | when the loop stops making progress it sleeps for ever exactly if nothing failed in a blocking way and a row it was given has a parent that will never release it |
| `Runs.CancelKeepsFailures` | apps/api/app/runtime/orchestrator.py:474-486 | cancellation neither hides nor creates a blocking failure |
| `Repeats.StartsPerRow` | apps/api/app/runtime/orchestrator.py:469-498 | over a whole run, a row is started exactly if it settled or a call of it came to nothing, and a settled row once exactly if none did, where a call comes to nothing by its own outcome or by a later raise in its batch |
| `Repeats.QueuedAgainRepeats` | apps/api/app/runtime/orchestrator.py:692-735 | a row that was started and is queued again is selected and started by the very next turn, since its parents settled and nothing overtakes it in the queue |
| `Repeats.NoRepeatsIff` | apps/api/app/runtime/orchestrator.py:827-864 | for every run, no row is started twice if and only if, before the last turn, no call raised past the first position of its batch and none put its row back |
| `Repeats.StoppedNoRepeatsIff` | apps/api/app/runtime/orchestrator.py:827-864 | for every run that the loop stops itself, drained, failed or asleep, this holds of all its calls |
| `Repeats.RaiseRepeats` | apps/api/app/runtime/orchestrator.py:827-837 | whatever the rows, graph and limit, if two rows are selected together one raise gives a run of two turns in which a row that had succeeded is started again |
| `Answers.SettleFollows` | apps/api/app/runtime/orchestrator.py:771-837 | how an answer changes its row: status by the verdict or the raise, the answer's flags, and queued again exactly for a failure that recovery retries with attempts left |
| `Answers.RunExplained` | apps/api/app/runtime/orchestrator.py:737-864 | over every run, every row, and every row that a call found, is untouched if it was never called, follows the answer of its last call, or is as that call found it if a later call of its batch raised |
| `Answers.RunAnswered` | apps/api/app/runtime/orchestrator.py:771-837 | every row that settled carries the answer of its last call: DONE exactly for success, SKIPPED exactly for a pass, FAILED exactly for a rejection or a raise, with its flags |
| `Answers.FailureAnswered` | apps/api/app/runtime/orchestrator.py:446-455 | the run has a blocking failure exactly if it had one at the start or some settled row's last answer is a failure that blocks by its profile and flags |
| `Orchestrator.PollingCause` | apps/api/app/runtime/orchestrator.py:493-495 | the loop can only sleep for ever when every row of the truncated queue is held back by a canceled or split row |
| `Orchestrator.StatusDecides` | apps/api/app/runtime/orchestrator.py:435-439 | a run row that is over when the run starts ends it at once, and one that nobody ends never interrupts it |
| `Orchestrator.FinalWriteIs` | apps/api/app/runtime/orchestrator.py:527-542 | a status found final under the lock stays; otherwise the run is FAILED exactly if it failed and may fail, CANCELED exactly if it did not fail and was last read so, COMPLETED else |
| `Orchestrator.RunIsDetermined` | apps/api/app/runtime/orchestrator.py:430-560 | the contract of the loop leaves no freedom: rows, graph, limit, executor and the statuses others write determine the run, its exit and the statuses it reads last |
| `Orchestrator.RunOrchestrator.ProcessWorkItem` | apps/api/app/runtime/orchestrator.py:737-864 | one item's effect on the rows: its verdict, its in-place retry, or a rollback of the pass with this item failed; what these are in columns is `Answers.SettleFollows` |
| `Orchestrator.RunOrchestrator.ProcessBatch` | apps/api/app/runtime/orchestrator.py:497-498 | running a batch gives the rows, calls and log of its specification for this executor |
| `Orchestrator.RunOrchestrator.Pass` | apps/api/app/runtime/orchestrator.py:430-498 | one turn: its ruling on the rows it finds, the selected batch run by this executor if it goes on, the queued rows canceled if it ends the run, nothing otherwise |
| `Orchestrator.RunOrchestrator.Start` | apps/api/app/runtime/orchestrator.py:430-560 | the whole run: rows and calls are those of a run of turns with this executor, stopped by the first final status read or by the ruling; ready and topological starts; a row started twice exactly with an earlier raise or retry, and in every run not interrupted exactly with any; settled rows carry their last answers, and a drained run failed exactly by them; drained only with every given row settled, or canceled in a failed run; asleep exactly if rows are held back; a run that is over is not touched, a status found final under the lock is kept, and any other is replaced by the one that follows from the failure |
| `Orchestrator.RunOrchestrator.CancelBlocked` | apps/api/app/runtime/orchestrator.py:645-686 | cancels the queued rows, leaves every row terminal and the blocking failures as they were |
| `TemplateRun.TemplateSleepsIff` | apps/api/app/runtime/orchestrator.py:692-735 | a run of the template graph sleeps for ever exactly if nothing failed in a blocking way and a row other than the last stage's, its blocking flag absent, failed with the budget named by its error text alone |
| `TemplateRun.RunTemplate` | apps/api/app/runtime/orchestrator.py:430-560 | builder and loop together: the loop is launched on untouched rows of the template, runs them with this executor, limit and other writers, and sleeps exactly then |
| `TemplateRun.BudgetTextNeverEnds` | apps/api/app/runtime/recovery_policy.py:481-492 | whatever stage with children raises with such a text, the loop never rules that the run is over, and sleeps only once that stage has failed |
| `TemplateRun.BudgetTextStarves` | apps/api/app/runtime/orchestrator.py:493-495 | for every template, limit and code stage, the run launched with an executor that raises at that stage with such a text ends asleep, that row failed and others queued |
| `Dag.BuildNodes` | apps/api/app/runtime/dag.py:1151-1179 | the stages of a run, in template order, for every surface and with or without a genesis foundation |
| `Dag.StagesAre` | apps/api/app/runtime/dag.py:1151-1179 | the stages of all six templates, written out |
| `Dag.BuildLinks` | apps/api/app/runtime/dag.py:1221-1258 | the dependencies are exactly the expected ones |
| `Dag.LinksAre` | apps/api/app/runtime/dag.py:1221-1258 | the dependencies of all six templates, written out |
| `Dag.ExpectedForward` | apps/api/app/runtime/dag.py:1221-1258 | every dependency connects two stages of the run and goes forward in the template |
| `Dag.ExpectedEnters` | apps/api/app/runtime/dag.py:1221-1258 | every stage but the plan waits for another one |
| `Dag.GenerateTemplateDag` | apps/api/app/runtime/dag.py:1191-1274 | the builder's rows and edges satisfy the priority condition the scheduler needs, the edges are exactly the dependencies, and each dependency count is the number of edge rows into the item |
| `Dag.PlanReaches` | apps/api/app/runtime/dag.py:1221-1258 | every stage is reachable from the plan |
| `Dag.TemplateSplitsOnlyOnErrorText` | apps/api/app/runtime/dag.py:536-542 | in a template run only an error text can make a failure split |
| `Dag.FailedStageBlocks` | apps/api/app/runtime/dag.py:536-542 | which failed stages block a template run: all but the writing of tests, and with a task none of tests, reviews and preview |
| `Leases.FourRefreshesPerLease` | apps/api/app/runtime/leases.py:45-47 | four refresh intervals fit into a lease exactly from sixty seconds on |
| `Leases.RefreshIntervalIs` | apps/api/app/runtime/leases.py:45-47 | a third of the lease, between five and fifteen seconds |
| `Leases.LeaseOutlastsTimeout` | apps/api/app/runtime/leases.py:34-42 | a lease is its own executor's timeout and a minute, or the minimum |
| `Leases.RefreshesEveryFifteenSeconds` | apps/api/app/runtime/leases.py:34-47 | every executor's worker refreshes at the same pace |
| `Leases.EveryExecutorRefreshesInTime` | apps/api/app/runtime/leases.py:34-47 | so they do for every executor and timeout |
| `Leases.LeaseTable.ReclaimExpired` | apps/api/app/runtime/leases.py:50-104 | requeues exactly the held rows whose lease has run out and reports them |
| `Leases.LeaseTable.ReclaimOrphaned` | apps/api/app/runtime/leases.py:140-196 | requeues exactly the held rows without an active owner and reports them |
| `Leases.LeaseTable.KeepAlive` | apps/api/app/runtime/leases.py:107-137 | extends the lease only of a held row of this agent, and goes on exactly then |
| `Leases.LeaseTable.UpdateStatus` | apps/api/app/services/state_guard.py:32-45 | the compare-and-set: writes exactly if the row is held |
| `Leases.SweepsRestoreOwnership` | apps/api/app/runtime/leases.py:50-196 | after both sweeps, in either order, every held row has an active owner and no expired lease, and no other row changed |
| `Leases.TerminalForever` | apps/api/app/runtime/leases.py:50-196 | no interleaving of claims, refreshes, final writes and sweeps brings a terminal row back |
| `Leases.LeaseProvenance` | apps/api/app/runtime/leases.py:107-133 | in every run the lease on a held row was granted by a step of its present owner, so a displaced agent never extends it |
| `Leases.PunctualWorkerKeepsItem` | apps/api/app/runtime/leases.py:107-196 | a worker whose refreshes land within the lease keeps its item through every interleaving of other agents and sweeps |
| `Leases.RefreshingWorkerKeepsItem` | apps/api/app/runtime/leases.py:34-196 | the intervals fit the leases: an executor's worker that refreshes at every interval, missing up to three in a row, keeps its item unexpired in every interleaving, for every executor and timeout |
| `Leases.LateWorkerLosesItem` | apps/api/app/runtime/leases.py:50-104 | and the first expiry sweep after the deadline takes it, exactly then |
| `Budget.ExecutionBudgetLedger.Refresh` | apps/api/app/runtime/execution_contract.py:351-438 | refresh clamps the counters and derives what is left, the partition, mode, cap and reason |
| `Budget.ExecutionBudgetLedger.Measure` | apps/api/app/runtime/execution_contract.py:377-410 | what is left in tokens and money, and which partition pays, with the fallback to the main one |
| `Budget.ExecutionBudgetLedger.FromDict` | apps/api/app/runtime/execution_contract.py:464-483 | loading: zero limits read as missing, then one refresh |
| `Budget.BuildLedger` | apps/api/app/runtime/execution_contract.py:739-748 | a contract's ledger: loaded or new, with its cost limit raised to the planned cost |
| `Budget.RecordRunBudgetUsage` | apps/api/app/runtime/execution_contract.py:930-975 | one recorded call, from serialised form to serialised form |
| `Budget.SeverityIsMonotone` | apps/api/app/runtime/execution_contract.py:351-438 | with limits, reserve and recovery mode fixed, more usage never moves the mode back, through the clamps, the fallback and the exhausted reserve |
| `Budget.MainViewIsStricter` | apps/api/app/runtime/execution_contract.py:385-400 | the main view of a ledger is never more permissive than its recovery view |
| `Budget.CapWithinRemaining` | apps/api/app/runtime/execution_contract.py:405-438 | the completion cap is within the remaining tokens after every refresh, and an unblocked run has at least 256 left |
| `Budget.LedgerIsPlainSum` | apps/api/app/runtime/execution_contract.py:930-975 | after any sequence of recorded calls the persisted counters are the plain sums, and recovery cost is part of the total |
| `Spending.CostIs` | apps/api/app/runtime/execution_contract.py:234-259 | a call costs its input at its tier's input rate and its output at the output rate, per thousand tokens, to the nearest unit with ties to even |
| `Spending.LedgerCostIs` | apps/api/app/runtime/execution_contract.py:930-975 | over any history the persisted costs are the exact prices up to half a unit for every call |
| `Spending.PlannedCostIs` | apps/api/app/runtime/execution_contract.py:280-302 | the planned limit is the configured one, or the price of the budgeted steps if that is more |
| `Spending.FirstRecord` | apps/api/app/runtime/execution_contract.py:345-354 | the first recorded call sets the limits, and the reserve by its fraction and minimum |
| `Spending.LoadedLimits` | apps/api/app/runtime/execution_contract.py:345-360 | a saved limit of zero counts as missing and a negative one as zero; a saved reserve stays and a missing one is set |
| `Budget.RecordAdds` | apps/api/app/runtime/execution_contract.py:930-975 | one call adds exactly its amounts, raises the cost limit to the planned cost at most, and keeps a reserve once set |
| `Budget.LimitsOnlyGrow` | apps/api/app/runtime/execution_contract.py:739-748 | over any history the cost limit never falls and the reserve stays once set |
| `Budget.OvershootBound` | apps/api/app/runtime/execution_contract.py:405-438 | a caller that calls only when not blocked, with output within the cap and input at most a bound, never uses more than the token limit plus that bound, over every run |
| `DerivedStates.FinishedRunShows` | apps/api/app/runtime/execution_contract.py:818-889 | exactly what lifecycle a run with only terminal rows shows, for every run status |
| `DerivedStates.RetryShows` | apps/api/app/runtime/execution_contract.py:845-865 | when each retry state is shown |
| `DerivedStates.ValidationShows` | apps/api/app/runtime/execution_contract.py:818-835 | when each validation state is shown |
| `DerivedStates.LiveRunShows` | apps/api/app/runtime/execution_contract.py:868-889 | what a run shows while rows are active or queued |
| `DerivedStates.DrainedRunShows` | apps/api/app/runtime/execution_contract.py:868-889 | the loop's final status and the lifecycle agree: success exactly without blocking validation failures or stuck validation, and without any blocking failure unless runs may not fail |
| `DerivedStates.CompletedButValidating` | apps/api/app/runtime/execution_contract.py:818-835 | a completed run without blocking failures that shows as validating |
| `JsonScan.ExtractBalancedJsonBlock` | apps/api/app/runtime/codex_executor.py:750-778 | the scanner's loop returns what its state machine says |
| `JsonScan.ValueTransparent` | apps/api/app/runtime/codex_executor.py:750-778 | every JSON value, nested to any depth and with any strings, passes through a scan that counts one kind of bracket without a trace |
| `JsonScan.ScanInvertsPrinting` | apps/api/app/runtime/codex_executor.py:750-778 | the scan returns exactly the printed object or array, whatever follows and whatever precedes without an opening bracket |
| `JsonScan.TruncatedGivesNothing` | apps/api/app/runtime/codex_executor.py:750-778 | a value cut off anywhere gives nothing |
| `JsonScan.ExtractionInvertsPrinting` | apps/api/app/runtime/codex_executor.py:791-803 | the candidate is exactly the printed value if and only if: after a blank prefix nothing visible follows; after a visible one the fence search finds nothing else |
| `JsonScan.ExtractionByParts` | apps/api/app/runtime/codex_executor.py:791-803 | after a visible prefix without brackets, by its parts: where the prefix opens a fence that some bracket closes, exactly if the value ends there; otherwise the prefix's fences match nothing, and exactly if the search through value and suffix finds nothing else |
| `JsonScan.FenceFreeExtraction` | apps/api/app/runtime/codex_executor.py:791-803 | after such a prefix and with no fence in the suffix, the value comes back exactly if no fenced block can be read inside it, nor up to a bracket inside it from a fence the prefix opens |
| `JsonScan.UnfencedExtraction` | apps/api/app/runtime/codex_executor.py:791-803 | a text without fences and with a visible prefix always gives the value back |
| `JsonScan.TrailingTextStays` | apps/api/app/runtime/codex_executor.py:795-796 | text after a value that comes first is handed on with it |
| `JsonScan.TruncatedLeavesNothing` | apps/api/app/runtime/codex_executor.py:791-803 | in a text without fences a value cut off anywhere leaves no candidate |
| `JsonScan.FenceInsideStringWins` | apps/api/app/runtime/codex_executor.py:113 | a value whose string quotes a fenced block loses to that block |
| `JsonScan.FencedExtraction` | apps/api/app/runtime/codex_executor.py:113 | a value in the first code fence of a text, tagged `json` in any case or not at all, comes back exactly if the text does not start with a bracket and no closing bracket inside the value is followed by a fence |
| `Hunks.CollectHunks` | apps/api/app/runtime/codex_executor.py:3081-3109 | the reading loop gives the hunks of its specification |
| `Hunks.PassedOver` | apps/api/app/runtime/codex_executor.py:3081-3109 | which lines inside a hunk are passed over |
| `Hunks.ApplyPatchByHunkReplacement` | apps/api/app/runtime/codex_executor.py:3080-3135 | what is written, or that the patch is refused, for every patch and file |
| `Hunks.ParsingInvertsRendering` | apps/api/app/runtime/codex_executor.py:3081-3109 | a rendered diff reads back as its blocks exactly when no deleted line starts with two dashes and a space and no added line with two pluses and a space |
| `Hunks.HunkRoundTrip` | apps/api/app/runtime/codex_executor.py:3110-3135 | a diff whose blocks are found in their places writes the new file, less its pure insertions, and so the whole new file exactly when there are none |
| `Hunks.InsertionIsLost` | apps/api/app/runtime/codex_executor.py:3120-3122 | a patch that counts as applied and loses an insertion |
| `Patches.PlaceIff` | apps/api/app/runtime/codex_executor.py:3123-3127 | the occurrence replaced is the first from the cursor on, else the first of all, and there is none exactly if the block occurs nowhere |
| `Patches.RefusedIff` | apps/api/app/runtime/codex_executor.py:3080-3135 | a patch is refused exactly without a file, without a hunk with old lines, or at an old block that occurs nowhere in the text as rewritten so far |
| `Patches.WrittenIff` | apps/api/app/runtime/codex_executor.py:3080-3135 | what is written is the last of the texts that the hunks, one after the other, make of the file |
| `Patches.OutOfOrder` | apps/api/app/runtime/codex_executor.py:3123-3127 | two changes in the reverse of their order in the file are both applied |
| `Patches.SecondSearch` | apps/api/app/runtime/codex_executor.py:3123-3127 | a patch that only the search from the start applies |
| `HunkStats.ParsePatchFileStats` | apps/api/app/runtime/codex_executor.py:2804-2825 | the counting loop gives the statistics of its specification, per file, or fails on a header without a path |
| `HunkStats.HeaderReadings` | apps/api/app/runtime/codex_executor.py:2804-2815 | the file that a header names, with either prefix or none, and that a deleted file counts for nothing |
| `HunkStats.FilesCounted` | apps/api/app/runtime/codex_executor.py:2804-2825 | in a diff of several files every file gets the lines of its own changes and no others |
| `HunkStats.LineCountsFor` | apps/api/app/runtime/codex_executor.py:2817-2824 | what any line of a hunk counts for: lines that start with a doubled marker do not, and one of them opens a file |
| `HunkStats.DeletedUncounted` | apps/api/app/runtime/codex_executor.py:2808-2811 | after the header of a deleted file nothing counts until the next file |
| `HunkStats.LineConservation` | apps/api/app/runtime/codex_executor.py:1212-1232 | wherever its blocks are found, a one-file diff changes the newlines by added minus deleted, and the line count too exactly when no deletion cuts the last line |
| `HunkStats.LocatedConservation` | apps/api/app/runtime/codex_executor.py:1212-1232 | a diff applied to its own file changes the line count by its statistics exactly unless its last change deletes the end of the file after a line without its end |
| `HunkStats.AlignedConservation` | apps/api/app/runtime/codex_executor.py:1212-1232 | a diff of whole lines applied to its own file changes the line count by its statistics |
| `HunkStats.MidLineDeletion` | apps/api/app/runtime/codex_executor.py:3117-3130 | deleting one line of one can leave one |
| `HunkStats.LineCount` | apps/api/app/runtime/codex_executor.py:2836-2845 | the number of lines is the number of newlines, plus one for an unended last line |
| `Zones.PartsOfPage` | apps/api/app/runtime/codex_executor.py:173-176 | every page splits into blocks and loose tokens without loss |
| `Zones.PageOfParts` | apps/api/app/runtime/codex_executor.py:173-176 | and in one way only |
| `Zones.RewriteSetsBodies` | apps/api/app/runtime/codex_executor.py:196-211 | the substitution pass rewrites the bodies of the target's blocks and nothing else |
| `Zones.NewBodyIs` | apps/api/app/runtime/codex_executor.py:196-211 | the replacement stands on lines of its own, less the blanks it ends in |
| `Zones.ZoneNames` | apps/api/app/runtime/codex_executor.py:196-211 | a zone without a name changes nothing, and a name without blanks is the target |
| `Zones.ReplaceSetsTarget` | apps/api/app/runtime/codex_executor.py:196-211 | the blocks of the result are those of the page with the target's bodies set, under nested and unmatched markers |
| `Zones.LastWriteWins` | apps/api/app/runtime/codex_executor.py:196-211 | of two writes to a zone the last wins |
| `Zones.DistinctWritesCommute` | apps/api/app/runtime/codex_executor.py:196-211 | writes to distinct zones commute |
| `Zones.ReplaceChangesIff` | apps/api/app/runtime/codex_executor.py:196-211 | a page stays the same exactly when no block of the target has another body |
| `Zones.ClosingReplacementGrows` | apps/api/app/runtime/codex_executor.py:196-211 | a replacement that closes its own zone breaks the laws |
| `ExecuteLoop.RunAttempts` | apps/api/app/runtime/codex_executor.py:1686-1858 | the attempt loop gives the outcome and the number of calls of its specification |
| `ExecuteLoop.PlannedIff` | apps/api/app/runtime/codex_executor.py:1686-1858 | a plan comes out at the n-th call exactly when that call yields one and those before failed in ways that are retried: at most one parse failure, at most the retry limit of transient ones |
| `ExecuteLoop.PlanMissingIff` | apps/api/app/runtime/codex_executor.py:1859-1865 | the missing-plan exit is reached exactly for a negative retry limit, and at minus one only after a parse failure |
| `Exits.AttemptsExit` | apps/api/app/runtime/codex_executor.py:1686-1858 | the attempts go on while failures are retried, and the first that is not decides between a plan and each way of halting |
| `ExecuteLoop.RepairPlan` | apps/api/app/runtime/codex_executor.py:4379-4452 | one repair with its parse retries |
| `Exits.RepairIs` | apps/api/app/runtime/codex_executor.py:4379-4452 | a repair works exactly if a plan follows malformed output at most the limit's times, and ends as invalid exactly for the other endings that read so |
| `ExecuteLoop.RoundWithin` | apps/api/app/runtime/codex_executor.py:1926-2550 | one round makes at most three calls for each contract repair and eight for the patch repair, none for a repair whose flag is used up, and flags are used up by the calls they allow |
| `ExecuteLoop.RunExecute` | apps/api/app/runtime/codex_executor.py:1686-2635 | both loops together |
| `Exits.ExecuteExits` | apps/api/app/runtime/codex_executor.py:1686-2635 | for every world: the rounds go on exactly while a repair works, and which of success, the guard's refusal, a missing confirmation, a failed action, an exhausted budget or an exception ends `execute` is decided by the first round without one, by its findings alone |
| `Exits.SucceedsIff` | apps/api/app/runtime/codex_executor.py:1686-2635 | success, exactly: a confident plan, and a last round that neither raises nor is mended nor asks for confirmation, whose guard agrees and whose actions apply |
| `ExecuteLoop.AgainUsesFlag` | apps/api/app/runtime/codex_executor.py:1892-1895 | every round that goes on has used up a one-shot flag |
| `ExecuteLoop.CallBound` | apps/api/app/runtime/codex_executor.py:1686-2635 | at most `max_retries` + 2 attempts, 3 and 3 calls for the contract repairs, 8 for the patch repair, four rounds, `max_retries` + 16 calls in all; and no missing plan |
| `ExecuteLoop.CallBoundMet` | apps/api/app/runtime/codex_executor.py:1686-2635 | the bound and the four rounds are reached for every retry limit |
| `RelPath.RelativeBetween` | apps/api/app/runtime/frontend_import_resolver.py:48-60 | the loop writes the relative path of its specification |
| `RelPath.RelativeLeadsToTarget` | apps/api/app/runtime/frontend_import_resolver.py:48-60 | from the importing directory the relative path leads to the target exactly when what the directory does not share with it holds no parent step |
| `RelPath.ParentStepMisleads` | apps/api/app/runtime/frontend_import_resolver.py:48-60 | the path computed from a directory that is one parent step never leads to a target that does not start with one |
| `RelPath.ReadInvertsWrite` | apps/api/app/runtime/frontend_import_resolver.py:138-149 | reading a relative path text gives back the components it was written from |
| `RelPath.CommonIsLongest` | apps/api/app/runtime/frontend_import_resolver.py:51-53 | the shared prefix is the longest |
| `Components.FirstExisting` | apps/api/app/runtime/frontend_import_resolver.py:90-94 | of the candidates in order, the first that exists, and none exactly if none does |
| `Components.ManifestWins` | apps/api/app/runtime/frontend_import_resolver.py:77-85 | a manifest entry whose file exists wins over everything else, and the three button names share one |
| `Components.SearchedInOrder` | apps/api/app/runtime/frontend_import_resolver.py:86-90 | other components are looked for in four folders in their order |
| `Components.ButtonsSearched` | apps/api/app/runtime/frontend_import_resolver.py:63-90 | the names under which buttons are looked for, and where first |
| `Components.ButtonOrder` | apps/api/app/runtime/frontend_import_resolver.py:86-90 | and in which order, folder by folder |
| `Components.AliasPoints` | apps/api/app/runtime/frontend_import_resolver.py:138-149 | a source under the alias is read from the web sources |
| `Components.PackagePoints` | apps/api/app/runtime/frontend_import_resolver.py:138-149 | a package points at something, a blank source at nothing |
| `Components.ResolvedExists` | apps/api/app/runtime/frontend_import_resolver.py:77-94 | the path written for a component passes the existence check of the next pass |
| `Components.RepositoryIsSound` | apps/api/app/runtime/frontend_import_resolver.py:77-149 | component resolution keeps the promise the import pass relies on |
| `Components.NormalizedFileResolves` | apps/api/app/runtime/frontend_import_resolver.py:163-230 | in a repository every default import of the result resolves to something that exists unless reported, and when a second pass repairs nothing |
| `Imports.NormalizeFrontendImports` | apps/api/app/runtime/frontend_import_resolver.py:163-230 | the pass gives the content, repair count and reported symbols of its specification |
| `Imports.RewritePass` | apps/api/app/runtime/frontend_import_resolver.py:172-198 | the rewriting of import statements, with its counters and its set of seen imports |
| `Imports.RewriteSettles` | apps/api/app/runtime/frontend_import_resolver.py:172-198 | after the rewriting pass no import would be rewritten or dropped again |
| `Imports.RewriteKeepsSymbols` | apps/api/app/runtime/frontend_import_resolver.py:190-196 | dropping duplicates loses no imported symbol |
| `Imports.RewriteKeepsOthers` | apps/api/app/runtime/frontend_import_resolver.py:172-198 | everything but default imports is left as it is, in order |
| `Imports.SecondPass` | apps/api/app/runtime/frontend_import_resolver.py:163-230 | what a second pass finds, exactly |
| `Imports.SecondPassRepairs` | apps/api/app/runtime/frontend_import_resolver.py:163-230 | a second pass makes no repairs exactly when nothing was to be injected or a script block's tag ends its line |
| `Imports.NormalizeIdempotentIff` | apps/api/app/runtime/frontend_import_resolver.py:163-230 | idempotent on content exactly when nothing was injected or the script tag ends its line |
| `Imports.TextAfterTagInjectsAgain` | apps/api/app/runtime/frontend_import_resolver.py:216-220 | a file that a second pass changes again |
| `Imports.StableAfterTwo` | apps/api/app/runtime/frontend_import_resolver.py:163-230 | two passes always settle a file |
| `Imports.SourcesPoint` | apps/api/app/runtime/frontend_import_resolver.py:163-230 | every default import not reported unresolved points at something |
| `ImportReports.ImportsFollow` | apps/api/app/runtime/frontend_import_resolver.py:172-198 | every default import survives, keeps its source if that points at something or nothing is found, and is otherwise pointed at what is found; none comes from elsewhere and none repeats |
| `ImportReports.ReportedIff` | apps/api/app/runtime/frontend_import_resolver.py:163-230 | which symbols are reported, exactly |
| `ImportReports.InjectedIff` | apps/api/app/runtime/frontend_import_resolver.py:200-215 | which imports are injected, exactly: one for every importable component used, not imported, and found |
| `ImportReports.InjectedInOrder` | apps/api/app/runtime/frontend_import_resolver.py:200-215 | in the order of their names |
| `ImportReports.LinesAre` | apps/api/app/runtime/frontend_import_resolver.py:216-220 | the injected lines, and the last that runs into text after the tag |
| `ImportReports.RepairsCount` | apps/api/app/runtime/frontend_import_resolver.py:163-230 | the repairs are the imports pointed elsewhere, the repeated ones dropped, and the ones to inject |
| `Landing.ValidateGraphIntegrity` | apps/api/app/runtime/frontend_topology_engine.py:73-81 | the validator lists a missing shell and the missing zones |
| `Landing.ViolationsAre` | apps/api/app/runtime/frontend_topology_engine.py:73-81 | which violations are listed, exactly |
| `Landing.NormalizeLandingGraphContent` | apps/api/app/runtime/frontend_topology_engine.py:84-151 | the normaliser gives the page, notes and verdict of its specification |
| `Landing.CollectBodies` | apps/api/app/runtime/frontend_topology_engine.py:95-100 | the dictionary holds the last body of every zone that is not blank |
| `Landing.ExistingIs` | apps/api/app/runtime/frontend_topology_engine.py:95-100 | a zone's body is its last one that is not blank |
| `Landing.BodyIsSection` | apps/api/app/runtime/frontend_topology_engine.py:101-128 | which named section fills which zone, in which order of preference, and each zone's placeholder |
| `Landing.BlockIff` | apps/api/app/runtime/frontend_topology_engine.py:141-142 | a block reaches from the first opening tag to the first closing tag after it |
| `Landing.MarkupIs` | apps/api/app/runtime/frontend_topology_engine.py:44-52 | a component's markup is its first pair of tags if one is closed, else its first self-closing tag |
| `Landing.OutcomeIs` | apps/api/app/runtime/frontend_topology_engine.py:90-139 | which pages are refused, that they are left alone, and what is said of them |
| `Landing.Wrapped` | apps/api/app/runtime/frontend_topology_engine.py:131-139 | what is written around the zones opens and closes alike |
| `Landing.OutputMatches` | apps/api/app/runtime/frontend_topology_engine.py:117-139 | the zones found in the output are the ones written, with their bodies |
| `Landing.OutputStyle` | apps/api/app/runtime/frontend_topology_engine.py:141-147 | the output's first style block is the page's exactly when no style tag opens in the script or the first style block was in it |
| `Landing.NormalizedIsValid` | apps/api/app/runtime/frontend_topology_engine.py:73-151 | when normalising reports ok the validator finds nothing, for every page |
| `Landing.BodiesPreserved` | apps/api/app/runtime/frontend_topology_engine.py:95-129 | every existing zone body is the body of its zone afterwards |
| `Landing.NormalizeIdempotentIff` | apps/api/app/runtime/frontend_topology_engine.py:84-151 | normalising twice is normalising once exactly when the style block is found again |
| `Landing.StyleAcrossScriptGrows` | apps/api/app/runtime/frontend_topology_engine.py:141-147 | a page whose second normalisation differs from the first |

## Left out

- Sessions, commits and row locks are modelled by what they make atomic; a pass of the loop is one transaction, a keep-alive turn and a sweep are one step each.
- The branch of the run loop for transient database errors, and attribute expiry after a rollback.
- The external mode of the run loop, the expiry sweep inside the embedded loop (embedded items carry no lease), and the publication of a branch on completion.
- An executor call is taken to end DONE, FAILED or SKIPPED, or to raise; other status words it might return are not modelled.
- Recovery that creates new work items; the in-place retry, which changes the status of a row of the run, is modelled.
- The run row as other writers change it is a sequence of statuses in the order the loop sees them.
- Budget.EstimateCost: money is in integer units of a ten-thousandth of a cent and rounds to even, where the code rounds binary floating point; job ids, time stamps and tier caps of the ledger are not kept.
- Unicode line splitting: a patch is the list of its lines and a file has newlines only.
- JsonScan.FencedExtraction: the fence is the first of the text; earlier fences are covered by `ExtractionByParts`, where no bracket comes before the value.
- Zone markers, script tags, component tags and import statements are tokens; how the patterns find them in text is not modelled, nor are imports that span lines, component names inside import statements, or symbols that other text makes look like imports.
- Imports.NormalizeFrontendImports: the attempt counter and the list of resolved imports are telemetry and not kept; that a candidate list drops repeated file names is not modelled, since only the first that exists counts.
- Components.ResolvedExists: manifest paths are relative and trimmed, the importing file is named without parent steps, and links in the file system are not modelled.
- Landing.NormalizeIdempotentIff: bodies that are written out open no script or style and do not close their own zone, and script and style hold no zone tags; the topology is the default one.
- ExecuteLoop.RunExecute: what the checks find in a round is arbitrary; their rules, prompts, model tiers and token caps are not modelled.
- Governance message lists, path scoring, composition scores, the mutation authority contract, the execution graph specification and the web front end hold string tables and easy facts.
