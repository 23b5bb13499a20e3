# Taskd: a model of its scheduling core

Taskd turns cron schedules into agent runs, hands the runs to workers, and executes each as a loop of
model and tool calls. This project models the parts whose correctness depends on interleavings, on
arithmetic or on a whole history, and proves what they guarantee. `dafny verify dfyconfig.toml` checks it.

| modules | part of the system |
|---|---|
| `Lifecycle`, `LifecycleRuns`, `LifecycleLeases`, `LifecycleRenewals`, `Coordinator` | the life of a run: dispatch transactions with their row locks, worker reports, lease renewals, the reaper |
| `Trace` | several executions of the same run, which share nothing but the run's trace |
| `AgentModel`, `Registry`, `Executor`, `ExecutorLoop`, `ExecutorGuarantees`, `ExecutorMeaning`, `ExecutorExamples` | the agent loop: budgets, the conversation, the recorded steps, which tools are run |
| `Schedule`, `Materializer` | fire times across clock changes, catching up after an outage, the life of a schedule |
| `WorkerQueue` | the queue of one worker and its shutdown |
| `RoundRobin`, `FairTurns`, `WorkerPool` | which worker an offer goes to, heartbeats and sweeps |
| `Alerts`, `AlertsInterleaved` | the failure count of an agent and the notifier's passes, uninterrupted and in any interleaving |
| `Memory` | the pruned memory log against a log that is never pruned |
| `Telegram` | splitting a long message |

An SQL statement is one atomic step on a map of rows. What the program asks of the outside is a parameter
that answers as it likes: the model provider, the tools, RPC replies, the clock, the success of a
statement or a commit, the cron library's search and the zone's offset. Processes interleave freely; where
a property needs a discipline the code does not enforce, the discipline is a named predicate
(`Disciplined`, `Timely`, `AllRenew`, `Atomic`, `Moderate`, `FirstGapIsLeast`, `RepeatsAreAdjacent`,
`Grows`) and a lemma shows what happens without it.

## What the code does not guarantee

Each of these is proved from a concrete input or run, together with the exact condition where there is one.

- A report has no guard on the row's status, so a reaped run can be set back to running
  (`ReapedRunIsRevived`), and one whose dispatch was rolled back can go from pending to succeeded
  (`OutcomeOfAPendingRun`; exactly when: `UnguardedReportIff`, `LivesKeptIff`, `LivesAlwaysIff`).
- A start report on a row without a lease leaves a run the reaper never ends (exactly when: `LeasesKeptIff`,
  `LeasesAlwaysIff`; for how long: `AbandonedForEver`). Each part of the dispatch discipline is needed: a
  rolled-back accepting dispatch, a failed mark, an offer enqueued with an error and a stray report all
  lead there
  (`RolledBackRunGetsStuck`, `FailedMarkGetsStuck`, `EnqueuedWithErrorGetsStuck`, `StrayReportGetsStuck`).
- The guard on repeated clock readings looks at one previous fire (`HalfHourlyRepeats`; exactly when:
  `DistinctReadingsIff`).
- The granularity check measures one gap (`OneMinuteGapIsAccepted`; what it means when that gap is the
  shortest: `AcceptedIffSpaced`).
- A schedule that outruns the catch-up bound loses its next fire time (`LongOutageLosesNextFire`; exactly
  when: `CatchUpExactIff`).
- A submission between its draining check and its send can be stranded (`InFlightCanBeStranded`; exactly
  when: `CanBeStrandedIff`).
- An offer during which the round-robin counter wraps can skip a worker (`ThreeWorkersMissOne`; exactly when:
  `EachOnceIff`), and turns across a wrap can be unfair (`WrapIsUnfair`; exactly when: `FairIff`).
  A maximum of 255 missed heartbeats is never exceeded (`NeverDroppedAt255`; exactly when: `SilenceIsNoticedIff`).
- A mark that lands after a success silences the next streak of failures (`LateMarkSilencesNextStreak`;
  exactly when a row is out of step: `TracksIff`). Overlapping passes and a failed mark report an agent twice
  (`OverlappingPassesRepeat`, `FailedMarkRepeats`; exactly when: `RepeatAlertIff`).
- A read by key forgets what 500 newer records pushed out (`KeyedReadForgets`; exactly when:
  `KeyedReadAfterPruneIff`).
- The splitter can emit an empty message (`SplitFullLine`; exactly when: the contract of `SplitForTelegram`).
- A tool that fails with an empty error text cannot be told from an empty result in the trace
  (`WordlessFailureIsForgotten`; exactly when: `ConversationIsInTheTrace`).
- Token totals are narrowed to 32 bits for the report and can come out negative
  (`ReportWrapsBeyondTheBound`; exactly when: `ReportIsExactIff`).

Where the code and its documentation disagree, the code is followed. docs/PRD.md says a candidate fire
time is accepted if it is strictly later than the last one, and that this handles the repeated autumn
hour; the code compares wall-clock readings instead (pkg/schedule/schedule.go:97). docs/PRODUCT.md gives the
Telegram limit in characters; the code counts bytes. The comment on stoppedByBudget says that output
produced so far is kept; the loop never sets any before it stops, so the output is always the reason.
The status `cancelled` is never set.

## Model

| member | source | states |
|---|---|---|
| Lifecycle.StepIsSafe | pkg/coordinator/coordinator.go:212-263 | every step of dispatch, report, renewal and reaping, in any interleaving, keeps rows, locks and executions consistent; a row never returns to pending and a missed row never changes |
| Lifecycle.BeginMeans | pkg/coordinator/coordinator.go:351-355 | a dispatch can lock exactly fifty or fewer different rows that are due, pending and locked by no other dispatch, oldest first, and changes no row by it |
| Lifecycle.RenewMeans | pkg/coordinator/coordinator.go:255-263 | a renewal sets the lease of a running row to 60s from the clock read, and changes nothing else |
| LifecycleLeases.WholeLife | pkg/worker/worker.go:335-373 | a disciplined run of the system from creation over dispatch, start and execution to success, with the row at its end |
| Lifecycle.CommitAdvances | pkg/coordinator/coordinator.go:388-399 | the rows a commit marks are all still pending; it turns them into running ones and frees its locks without disturbing those of other passes |
| Lifecycle.AcceptIsSafe | pkg/coordinator/coordinator.go:376-395 | an accepted offer enqueues the row on offer, pending and locked by its transaction, and keeps the invariant, whether or not marking it succeeds |
| Lifecycle.ReapAdvances | pkg/reaper/reaper.go:42-58 | a reaper pass keeps the invariant, rows advance only, and pending rows stay as they are |
| LifecycleRuns.AlwaysSafe | pkg/coordinator/coordinator.go:316-400 | the invariant holds in every state of every run of the system, with any number of overlapping ticks |
| LifecycleRuns.RowsOnlyAdvance | pkg/coordinator/coordinator.go:212-252 | between any two moments a row's status history only grows and nothing returns to pending |
| LifecycleRuns.OverlappingPassesAreDisjoint | pkg/coordinator/coordinator.go:351-355 | two open dispatch passes never hold the same row |
| LifecycleRuns.CommittedIsNeverOfferedAgain | pkg/coordinator/coordinator.go:351-399 | a row accepted in a committed dispatch is offered by no later dispatch |
| LifecycleRuns.DispatchOverwritesNoReport | pkg/coordinator/coordinator.go:376-399 | when a dispatch commits, every row it marks has been nothing but pending, so no reported status is overwritten |
| LifecycleRuns.MissedIsNeverWorked | pkg/materializer/materializer.go:97-107 | a missed run is never locked, leased, queued or executed, then or later |
| LifecycleRuns.RenewalRevivesNothing | pkg/coordinator/coordinator.go:255-263 | a renewal changes no status and leaves a row that is not running exactly as it was |
| LifecycleRuns.StepIsOrderly | pkg/coordinator/coordinator.go:217-235 | under the dispatch discipline, which allows a late start report as long as the run is still executed, each step keeps: a running row has a lease one TTL after its last extension, and a run has at most one execution |
| LifecycleRuns.AlwaysOrderly | pkg/coordinator/coordinator.go:212-263 | so it is in every state of every disciplined run of the system |
| LifecycleRuns.ReapedIffStale | pkg/reaper/reaper.go:42-58 | the reaper fails a running row if and only if its last extension is more than a TTL old |
| LifecycleRuns.NothingStaysStuck | pkg/reaper/reaper.go:42-58 | as long as every start report so far found a lease on its row, after a reaper pass at time T no row is running whose last extension was before T - 60s, and a running row has a lease |
| LifecycleRuns.LeasesKeptIff | pkg/coordinator/coordinator.go:217-218 | a step leaves some running row without a lease if and only if it is a start report on a row that carries none |
| LifecycleRuns.LeasesAlwaysIff | pkg/coordinator/coordinator.go:217-235 | in every run of the system all running rows had their leases up to a moment if and only if no start report so far was on a row without one |
| LifecycleRuns.DisciplinedStartsAreLeased | pkg/coordinator/coordinator.go:376-399 | a disciplined run of the system meets that condition |
| LifecycleRuns.AbandonedForEver | pkg/reaper/reaper.go:48-51 | a running row without a lease and without anyone left to report on it is never expired and never changes again unless renewed |
| LifecycleRuns.UnguardedReportIff | pkg/coordinator/coordinator.go:217-235 | a report keeps the life of a row pending, running, one terminal status if and only if the row is running, already has the reported status, or is pending and reported to run |
| LifecycleRuns.LivesKeptIff | pkg/coordinator/coordinator.go:212-252 | a step of the system leaves some run with more than one life if and only if it is a report against that condition |
| LifecycleRuns.LivesAlwaysIff | pkg/coordinator/coordinator.go:212-252 | in every run of the system all runs had one life up to a moment if and only if no report so far was such |
| LifecycleRuns.ReapSparesTheLiving | pkg/reaper/reaper.go:42-58 | with timely extensions a reaper pass changes no run that is being executed |
| LifecycleRuns.StepIsSteady | pkg/worker/worker.go:335-373 | with timely extensions each step keeps every run on one life and every live execution's run running |
| LifecycleRuns.EveryRunHasOneLife | pkg/model/run.go:5-15 | over every such run of the system each status history is a prefix of pending, running, one terminal status, or just missed |
| LifecycleLeases.KeptAliveIff | pkg/reaper/reaper.go:19-25 | losses keep a lease alive if and only if no four renewals in a row are lost after one arrived and those lost at the start fit next to the age the lease had by then |
| LifecycleRenewals.StepExtends | pkg/coordinator/coordinator.go:255-263 | outside an open dispatch a lease is extended by a renewal that finds its row running and by nothing else |
| LifecycleRenewals.InTimeIffGapsFit | pkg/worker/worker.go:377-398 | in a run of the system where an execution tries to renew at any times and any of the renewals arrive, the lease of its row is at most a TTL old in every state if and only if no extension comes more than a TTL after the one before |
| LifecycleRenewals.InTimeIffKeptAlive | pkg/reaper/reaper.go:19-25 | for renewals every 15s that is so if and only if the losses keep the lease alive |
| LifecycleRenewals.RenewedRunsHaveOneLife | pkg/worker/worker.go:335-398 | if the extensions of every live execution fit so, whenever it renews and whatever it loses, then in every state no live run was reaped and every run is on one life; that renewals find their rows running is proved on the way |
| LifecycleLeases.ReapedRunIsRevived | pkg/coordinator/coordinator.go:217-218 | a queued run is not renewed: a run of the system in which its lease expires, it is failed, and the start report sets it back to running |
| LifecycleLeases.RolledBackRunGetsStuck | pkg/coordinator/coordinator.go:397-399 | a run of the system, disciplined but for a rolled-back accepting dispatch, that abandons a run |
| LifecycleLeases.OutcomeOfAPendingRun | pkg/coordinator/coordinator.go:232-240 | the same breach and a lost start report: the run goes from pending to succeeded |
| LifecycleLeases.EnqueuedWithErrorGetsStuck | pkg/coordinator/coordinator.go:419-423 | the same, disciplined but for an offer that was enqueued although it returned an error |
| LifecycleLeases.FailedMarkGetsStuck | pkg/coordinator/coordinator.go:388-394 | the same, disciplined but for an accepted run whose mark failed |
| LifecycleLeases.StrayReportGetsStuck | pkg/worker/worker.go:401-407 | the same, disciplined but for a start report that arrives after its sender gave it up |
| Coordinator.Database.UpdateRunStatus | pkg/coordinator/coordinator.go:212-252 | RUNNING sets a row running; SUCCEEDED, FAILED and BUDGET_EXCEEDED set it succeeded, failed and budget exceeded with no lease and ended now; all other rows stay; a success clears its agent's failure count and mark, the others add one; an unsupported status or a failing update changes nothing and is an error; a failing count is an error that leaves the run updated |
| Coordinator.Database.RenewLease | pkg/coordinator/coordinator.go:255-263 | a lease is set to 60s from now, and success reported, exactly for a running row; all other rows stay; a failing statement changes nothing and gives no answer |
| Coordinator.Database.ReapExpiredRuns | pkg/reaper/reaper.go:42-70 | exactly the running rows whose lease is in the past fail, ended now, and all others stay; each of their agents is counted once; the number reaped is returned |
| Coordinator.Database.DispatchPendingRuns | pkg/coordinator/coordinator.go:338-400 | the accepted runs are the batch up to the first refusal; if the commit succeeds and no mark failed exactly these are running with a lease of 60s from now, otherwise nothing is |
| Coordinator.AcceptedCount | pkg/coordinator/coordinator.go:376-386 | the pass stops at the first row of the batch nobody takes |
| Coordinator.AcceptsArePath | pkg/coordinator/coordinator.go:376-395 | accepting a batch row by row is a sequence of enabled protocol steps |
| Coordinator.CommittedPassIsAPath | pkg/coordinator/coordinator.go:338-400 | what a committed pass stores is what the protocol's begin, accept, decline and commit steps store, so the protocol's theorems hold of it |
| Coordinator.RolledBackPassIsAPath | pkg/coordinator/coordinator.go:349-399 | a pass whose commit fails stores nothing while the workers keep what they accepted; it is a run of protocol steps ending in a rollback, undisciplined exactly if an offer was accepted |
| Trace.StepKeepsOneOwner | pkg/executor/executor.go:105-176 | whatever step any execution of a run takes, the trace stays without gaps, with one owner who is level with it, and with every tool run but the last in it |
| Trace.AlwaysOneOwner | pkg/db/migrations/0004_run_steps.sql:24 | so it is in every interleaving of any number of executions of a run |
| Trace.OnlyOneGetsPastTheFirstInsert | pkg/store/steps.go:43-51 | at most one execution ever gets past its index-0 insert; every stored row and every tool run is its own and the trace is what it recorded, row by row |
| Trace.StoredIndicesHaveNoGap | pkg/db/migrations/0004_run_steps.sql:24 | the stored indices are exactly 0..n-1 with one owner, also when inserts fail with or without leaving their row |
| Trace.ToolRunsAreInTheTrace | pkg/executor/executor.go:145-169 | each tool run has its own row, recorded before the next tool is run; only the last can be missing |
| Trace.InsertMeans | pkg/store/steps.go:43-51 | an insert stores its row exactly at a free index the database does not refuse, and where the execution goes next |
| Trace.UseToolMeans | pkg/executor/executor.go:145-164 | a tool call moves on to its row and counts as a tool run unless refused |
| Trace.OneExecutionCompletes | pkg/executor/executor.go:105-176 | an execution by itself, with a tool call and an answer, stores its whole trace |
| AgentModel.Agent.HasTool | pkg/model/agent.go:99-106 | true exactly for a granted name |
| AgentModel.Agent.ApplyDefaults | pkg/model/agent.go:109-128 | unset values get their defaults, set values and all other fields stay |
| AgentModel.Agent.Validate | pkg/model/agent.go:131-162 | no problem is reported exactly for an agent under every ceiling with known tools and a proper context; otherwise the first problem in the order of the checks, the unknown tool being the first one |
| AgentModel.NewAgent | pkg/model/agent.go:109-162 | an agent with a name, a model and known tools is valid once its defaults are applied: 20 steps, 100,000 tokens, 600 seconds, fresh context, the default secret |
| Registry.ToolRegistry.Register | pkg/tools/registry.go:63-65 | the catalog gains or replaces the tool under its own name and stays keyed by names |
| Registry.ToolRegistry.Get | pkg/tools/registry.go:68-71 | a tool is found exactly if registered, and carries the name asked for |
| Registry.ToolRegistry.Definitions | pkg/tools/registry.go:85-102 | the definitions are those of the granted tools that are registered, with their own name, description and schema; a name is declared exactly if granted and registered |
| Registry.KnownIff | pkg/tools/registry.go:85-102 | a name is among the declared ones if and only if it is granted and registered |
| Registry.KnownInOrder | pkg/tools/registry.go:85-102 | the declared names are those granted that are registered, each as often as granted and in that order |
| Executor.StepStore.Record | pkg/store/steps.go:43-51 | a row is stored only at a free index, and acknowledged exactly if it was free and the database did not fail |
| Executor.StepStore.Append | pkg/executor/executor.go:128-136 | the next step lands after the earlier ones, or nothing changes; an acknowledged one is stored |
| Executor.RunTool | pkg/executor/executor.go:183-204 | a tool is run, with blank arguments read as an empty object, exactly if granted, registered and given valid JSON; otherwise the call is refused for the right reason |
| Executor.RunTools | pkg/executor/executor.go:145-176 | each call of an answer is dealt with, recorded and told to the model in order; if recording fails the calls after it are not made |
| ExecutorLoop.TakeTurn | pkg/executor/executor.go:115-176 | one iteration yields what the model and the tools answered, recorded throughout, or all of it but its last row |
| ExecutorLoop.Execute | pkg/executor/executor.go:103-180 | every execution is one of the admissible ones: each model call is within all limits and sent the whole conversation, the outcome follows from the exchanges, and the rows stored are theirs |
| ExecutorMeaning.StoredRowsMean | pkg/executor/executor.go:128-166 | of every turn, as far as rows were stored: the model call's row has the message's content and usage, and each tool call's row has the call's own name and arguments, its content as result or its error text as error |
| ExecutorMeaning.RowsCount | pkg/executor/executor.go:136-169 | a turn takes one row for the model call and one for each tool call dealt with |
| ExecutorMeaning.ConversationGrows | pkg/executor/executor.go:143-176 | the first model call is sent the initial conversation, each further one what was sent before, the model's message, and per tool call a tool message with its id and the content, or the error after a fixed prefix |
| ExecutorMeaning.OutcomesMean | pkg/executor/executor.go:183-204 | a call is refused for a tool not granted or not registered, or for arguments that are not valid JSON; otherwise the tool is run with them, or with an empty object for blank ones |
| ExecutorMeaning.EndMeans | pkg/executor/executor.go:107-179 | an execution ends with steps, time or tokens spent, in this order and named as such; with the content of an answer without tool calls; or with an error for a missing answer or a row that could not be recorded |
| ExecutorMeaning.AgentsOwnLimits | pkg/executor/executor.go:101-113 | an execution for an agent keeps that agent's own steps, seconds and tokens, and runs no tool it was not granted |
| ExecutorGuarantees.BudgetsHold | pkg/executor/executor.go:107-122 | at most MaxSteps model calls, none begun after the deadline, and total tokens at most MaxTokens plus the last call's usage |
| ExecutorGuarantees.CallsOfAStoredAgent | pkg/model/agent.go:152-154 | an execution for an agent that passes validation makes at most 100 model calls |
| ExecutorGuarantees.TraceAddsUp | pkg/executor/executor.go:124-136 | the sums over the model-call rows of a conversation's trace are the usage of its calls |
| ExecutorGuarantees.ReportedTotalsAreRecorded | pkg/executor/executor.go:125-140 | on a success or a spent budget the totals reported equal the sums over the model-call rows stored |
| ExecutorGuarantees.ReportIsExactIff | pkg/worker/worker.go:365-371 | for usage that is not negative the int32 totals of a finished run are the recorded sums if and only if the last call uses no more prompt and completion tokens than the earlier calls left of the 32-bit range |
| ExecutorGuarantees.ReportIsExact | pkg/worker/worker.go:369-370 | so under the token ceiling they are exact when each call uses 0 to 2^31 - 1 - 2,000,000 prompt and completion tokens |
| ExecutorExamples.ReportWrapsBeyondTheBound | pkg/worker/worker.go:369-370 | for every agent under the ceiling whose model spends the budget on a tool call and one token over that bound on its answer, there is an execution that reports a negative total |
| ExecutorExamples.SpendthriftOverspends | pkg/executor/executor.go:107-140 | there is such a model |
| ExecutorGuarantees.EarlierTurnsAreStored | pkg/executor/executor.go:128-169 | when a model call is made all earlier turns have answered every tool call and their rows are stored |
| ExecutorGuarantees.ConversationShape | pkg/executor/executor.go:143-176 | each model call is sent, for each earlier iteration and in its place, the model's message and one tool message per call with that call's id, in order |
| ExecutorGuarantees.RebuildIff | pkg/executor/executor.go:150-175 | a conversation can be read back from the model's messages and the trace if and only if no tool failed with an empty error text |
| ExecutorGuarantees.WordlessFailureIsLost | pkg/executor/executor.go:155-164 | one tool failing with an empty error text: what is read back differs from what was said |
| ExecutorExamples.WordlessFailureIsForgotten | pkg/executor/executor.go:155-175 | for every agent whose granted tool fails so on its first call there is an execution whose second conversation cannot be read back from what was stored |
| ExecutorExamples.SpendthriftIsWordless | pkg/executor/executor.go:183-204 | there is such an agent |
| ExecutorGuarantees.ConversationIsInTheTrace | pkg/executor/executor.go:143-176 | every conversation sent is the initial one continued from the model's messages and the stored rows, under exactly that condition |
| ExecutorGuarantees.OnlyDeclaredToolsAreRun | pkg/executor/executor.go:101-204 | a tool call is carried out if and only if the tool was declared to the model and its arguments are valid |
| ExecutorGuarantees.LatecomerDoesNothing | pkg/executor/executor.go:128-135 | an execution that finds the trace begun stores nothing, runs no tool and calls the model at most once |
| Schedule.NextPassesOverOneReading | pkg/schedule/schedule.go:91-104 | the next fire time is the least matching instant after the given one, except that the first match is passed over if and only if it reads like the last fire |
| Schedule.NextEndsIff | pkg/schedule/schedule.go:91-104 | there is no next fire time exactly if the library finds none, at once or past a reading equal to the last; otherwise, and without a last reading, it is the library's answer |
| Schedule.ChainIncreases | pkg/schedule/schedule.go:91-104 | the guarded chain is strictly increasing and has no holes |
| Schedule.ChainSuffix | pkg/materializer/materializer.go:131-147 | continuing from a stored fire time continues the same chain |
| Schedule.NoFireOnASkippedDay | pkg/schedule/schedule.go:84-86 | an expression that on one day matches only readings a forward jump skips has no fire, the saved one included, that reads on that day |
| Schedule.OffsetRiseIsAJump | pkg/schedule/schedule.go:77-79 | a rise of the zone's offset that stays long enough makes a forward jump of the wall clock |
| Schedule.SkippedReadingsNeverFire | pkg/schedule/schedule.go:84-86 | no instant of a chain reads inside the skipped interval |
| Schedule.SkippedDayIsNotFired | pkg/schedule/schedule.go:84-86 | it goes from the match before that day straight to the match after it |
| Schedule.HalfPastTwoIsSkippedOnce | pkg/schedule/schedule.go:84-86 | a daily 02:30 schedule skips exactly the day on which the clock jumps from 02:00 to 03:00 |
| Schedule.ChainIsRaw | pkg/schedule/schedule.go:92-103 | the guarded chain is a subsequence of the library's fires |
| Schedule.SkippedOnlyAsRepeat | pkg/schedule/schedule.go:97-98 | a fire of the library is skipped only right after a fire with the same reading |
| Schedule.DistinctReadingsIff | pkg/schedule/schedule.go:84-104 | if no reading shows three times, a schedule never repeats a reading if and only if no fire lies between two fires that read the same |
| Schedule.ConsecutiveRepeatIff | pkg/schedule/schedule.go:97-98 | two consecutive fires read the same if and only if three consecutive fires of the library do |
| Schedule.HalfHourlyRepeats | pkg/schedule/schedule.go:97-98 | a half-hourly schedule repeats readings in the autumn hour |
| Schedule.AcceptedIffSpaced | pkg/schedule/schedule.go:56-74 | for an expression whose first gap after the reference is its shortest, being accepted means firing, with all fires from there on at least five minutes apart |
| Schedule.SpacedIsAccepted | pkg/schedule/schedule.go:56-74 | an expression that fires and never more often than every five minutes is accepted, whatever its first gap |
| Schedule.SavedFireIsRaw | pkg/scheduler/api_schedules.go:47-55 | the fire time saved with a schedule after the reference is one of the fires the check is about |
| Schedule.ChainGapsAtLeast | pkg/schedule/schedule.go:91-104 | the guarded chain from any of those fires is spaced at least as widely |
| Schedule.OneMinuteGapIsAccepted | pkg/schedule/schedule.go:59-73 | an expression with a one-minute gap is accepted |
| Materializer.ResolveFireTimes | pkg/materializer/materializer.go:130-153 | the loop computes the bounded walk along the chain, and the run is missed exactly if that fire time is over five minutes old |
| Materializer.ResolveWalksChain | pkg/materializer/materializer.go:133-147 | the walk stops on the latest chain element not after now, or on the chain when the bound is used up |
| Materializer.CatchUpExactIff | pkg/materializer/materializer.go:130-147 | it finds the last element not after now and the first after it if and only if the chain does not outrun the bound; otherwise the next fire time is lost |
| Materializer.SpacedFiresAreNeverLost | pkg/materializer/materializer.go:22-24 | fires at least 300s apart and an outage under 30,000,000s never reach the bound |
| Materializer.AcceptedSchedulesAreNeverLost | pkg/materializer/materializer.go:130-147 | so a schedule the check accepted, whose first gap is its shortest, finds its latest and next fire time after any such outage, wherever it was saved |
| Materializer.LongOutageLosesNextFire | pkg/materializer/materializer.go:133-147 | a five-minute schedule after an outage of 30,000,000s loses its next fire time |
| Materializer.FrequentFiresAreNeverMissed | pkg/materializer/materializer.go:149-152 | a schedule whose gaps are at most five minutes is not missed while it has a next fire time |
| Materializer.LifeFollowsChain | pkg/materializer/materializer.go:48-122 | over any passes at any times the recorded fires stand at increasing places of the one chain from the saved next fire time, and the stored next one at a later place |
| Materializer.FiresStrictlyIncrease | pkg/materializer/materializer.go:48-122 | recorded fire times strictly increase |
| Materializer.PassRecordsLatest | pkg/materializer/materializer.go:95-115 | a due pass records the latest chain element not after now, unless the bound is outrun |
| Materializer.LifeGrows | pkg/materializer/materializer.go:48-122 | a further pass adds nothing before the next fire time, and then exactly one fire, missed exactly if over five minutes old |
| Materializer.SecondPassRecordsNothing | pkg/materializer/materializer.go:57-65 | a second pass at the same instant, or an earlier one, records nothing and changes nothing |
| Materializer.RecordedReadingsDistinct | pkg/schedule/schedule.go:84-104 | without a fire between equal readings all recorded fires between two saves read differently |
| Materializer.Materializer.MaterializeOne | pkg/materializer/materializer.go:86-115 | for a schedule that parses exactly one run is added: of that schedule and its agent, for the latest chain element not after now unless the bound is outrun, missed if that is over five minutes old and pending otherwise; the next fire time and the last reading are stored; other schedules stay; one that does not parse changes nothing |
| Materializer.Materializer.RunOnce | pkg/materializer/materializer.go:48-122 | a committed pass adds such a run for exactly the schedules no one has locked that parse, are enabled as is their agent, and whose next fire time is not after now, one each, and counts them; an uncommitted one changes nothing |
| WorkerQueue.StepIsConserved | pkg/worker/worker.go:272-328 | every step keeps: accepted is started followed by queued, in order; started is executing plus finished; no submission twice; the bounds |
| WorkerQueue.AcceptedIsQueuedExecutingOrFinished | pkg/worker/worker.go:24-31 | at every moment accepted is the disjoint union of at most five queued, at most five executing and the finished, none of them started twice |
| WorkerQueue.StopLeavesOnlyLateSubmissions | pkg/worker/worker.go:233-249 | when Stop's wait is over only submissions in flight when the flag went up can be left in the queue; with none in flight all accepted ones were executed to their end |
| WorkerQueue.CanBeStrandedIff | pkg/worker/worker.go:272-291 | raising the flag can strand a submission if and only if it is between its draining check and its send |
| WorkerQueue.CheckThenSend | pkg/worker/worker.go:272-291 | a submission checked and then sent is accepted, last in the queue, exactly if the flag is down and the queue has room; with the flag up it is never in flight |
| WorkerQueue.EveryMoveCounts | pkg/worker/worker.go:308-328 | each step of a goroutine brings the end of the wait one step closer |
| WorkerQueue.WaitEnds | pkg/worker/worker.go:241-244 | from every cancelled state the goroutines end by themselves with the queue empty |
| WorkerQueue.WorkerServer.CheckDraining | pkg/worker/worker.go:273-279 | a submission passes the draining check exactly if the flag is down, and is in flight from then on |
| WorkerQueue.WorkerServer.TrySend | pkg/worker/worker.go:281-290 | a submission is accepted, last in the queue, exactly if fewer than five are queued, and conservation is kept |
| WorkerQueue.WorkerServer.BeginStop | pkg/worker/worker.go:233-242 | the flag goes up before the context is cancelled |
| WorkerQueue.WorkerServer.Drain | pkg/worker/worker.go:315-325 | the inner loop executes everything queued in order and exits with the queue empty |
| RoundRobin.EachOnceIff | pkg/coordinator/coordinator.go:265-277 | n attempts look at each of n positions once if and only if the counter does not wrap or n divides 2^32 |
| RoundRobin.ThreeWorkersMissOne | pkg/coordinator/coordinator.go:274-275 | three workers and a counter at 2^32 - 1: the third is not tried |
| RoundRobin.TurnsAreFair | pkg/coordinator/coordinator.go:265-277 | m calls with the uint32 counter at i give each of n positions the floor or ceiling of m/n turns if i + m <= 2^32 or n divides 2^32 |
| RoundRobin.WrapIsUnfair | pkg/coordinator/coordinator.go:274-275 | three calls from 2^32 - 1 give the third of three workers none |
| FairTurns.FairIff | pkg/coordinator/coordinator.go:265-277 | m calls with the uint32 counter at i, for any m, give each of n positions the floor or ceiling of m/n turns if and only if there is no wrap, n divides 2^32, or the leftovers before and after one or two wraps fit together; three wraps never do |
| FairTurns.OneWrapTurns | pkg/coordinator/coordinator.go:274-275 | the exact number of turns of a position across one wrap |
| FairTurns.FairAcrossAWrap | pkg/coordinator/coordinator.go:274-275 | four calls across a wrap are fair to three workers |
| WorkerPool.DroppedExactlyAt | pkg/coordinator/coordinator.go:449-473 | for maxima up to 254 a silent worker is dropped exactly at sweep maximum + 2 and its uint8 count never wraps |
| WorkerPool.Pool.Sweeps | pkg/coordinator/coordinator.go:449-473 | k sweeps with no heartbeat in between leave of each worker what k sweeps make of its count; one that had missed nothing is still registered if and only if k <= maximum + 1, for maxima up to 254 |
| WorkerPool.SilenceIsNoticedIff | pkg/coordinator/coordinator.go:454-470 | a silent worker is ever dropped if and only if the maximum is at most 254 |
| WorkerPool.KeysOf | pkg/coordinator/coordinator.go:304-308 | the rebuilt key list holds each registered worker exactly once |
| WorkerPool.Pool.SendHeartbeat | pkg/coordinator/coordinator.go:279-314 | a known worker's misses are cleared, an unknown one is registered if it can be dialled, and the key list stays exact |
| WorkerPool.Pool.RemoveInactiveWorkers | pkg/coordinator/coordinator.go:449-473 | a sweep drops exactly the workers over the maximum, counts a miss for all others, and the key list stays exact |
| WorkerPool.Pool.GetNextWorker | pkg/coordinator/coordinator.go:265-277 | the worker at the counter modulo the length of the list is returned and the counter advances modulo 2^32; none if the list is empty |
| WorkerPool.Pool.OfferRunToWorker | pkg/coordinator/coordinator.go:404-430 | workers are tried in the counter's order until one accepts, at most as many as there are; the result says who took the run or that nobody did |
| WorkerPool.RefusedOfferTriesAllIff | pkg/coordinator/coordinator.go:402-430 | an offer nobody accepts asked every worker exactly once if and only if i + n <= 2^32 or n divides 2^32 |
| WorkerPool.Pool.NextWorkers | pkg/coordinator/coordinator.go:265-277 | m calls on a stable pool return the workers at the successive positions of the counter |
| WorkerPool.TurnsAreSharedIff | pkg/coordinator/coordinator.go:265-277 | so on a stable pool m calls return every worker the floor or ceiling of m/n times if and only if those leftovers fit |
| WorkerPool.WorkersTakeFairTurns | pkg/coordinator/coordinator.go:265-277 | in particular if the counter does not wrap or n divides 2^32 |
| Alerts.StepIsConsistent | pkg/coordinator/coordinator.go:518-530 | every uninterrupted step keeps the count equal to the failures since the last success and the mark equal to an alert since then |
| Alerts.AlertsAreSound | pkg/notifier/notifier.go:64-119 | so it is in every reachable state, for all agents |
| Alerts.ReportMeans | pkg/notifier/notifier.go:67-115 | an uninterrupted report sends and marks exactly an agent with alerts switched on, three failures or more and no mark, if the message gets through |
| Alerts.ReadMeans | pkg/notifier/notifier.go:67-76 | a pass reads exactly such agents |
| Alerts.AlertsAreSeparated | pkg/notifier/notifier.go:73-75 | two alerts for one agent are separated by a success |
| Alerts.AlertFollowsThreeFailures | pkg/notifier/notifier.go:26-28 | an alert is preceded by at least three failures since the last success |
| AlertsInterleaved.StepIsCoherent | pkg/notifier/notifier.go:64-119 | every step of any interleaving of passes and outcomes keeps the count equal to the failures since the last success, the mark equal to a mark since then, and each mark after its own alert |
| AlertsInterleaved.TracksIff | pkg/notifier/notifier.go:104-114 | in every reachable state of any interleaving, with passes that give up included, an agent's row is in step with its history if and only if no success came between an alert and that alert's own mark with no newer alert, and no alert since the last success is without a mark |
| AlertsInterleaved.UnmarkedAlertIsUnsettled | pkg/notifier/notifier.go:111-114 | an alert without a mark is one whose pass is still to mark it or failed to |
| AlertsInterleaved.RepeatAlertIff | pkg/notifier/notifier.go:67-114 | from a reachable state an alert about an agent can go out before its next success if and only if a pass that has not given up has read it without sending yet, or its row is unmarked |
| AlertsInterleaved.RepeatIsUnseparated | pkg/notifier/notifier.go:67-76 | for an agent reported since its last success such an alert makes two with no success between them |
| AlertsInterleaved.OverlappingPassesRepeat | pkg/notifier/notifier.go:67-112 | two overlapping passes report an agent twice without a success in between |
| AlertsInterleaved.FailedMarkRepeats | pkg/notifier/notifier.go:111-114 | so does a pass after one whose mark failed |
| AlertsInterleaved.FailedSendIsHarmless | pkg/notifier/notifier.go:104-108 | after a failed send and a report that was marked no further alert can go out |
| AlertsInterleaved.LateMarkSilencesNextStreak | pkg/notifier/notifier.go:104-112 | a run in which a late mark leaves three new failures unreported |
| Alerts.Notifier.RunOnce | pkg/notifier/notifier.go:64-119 | exactly the agents with alerts switched on, three failures or more and no mark whose message went through are marked now and counted, and nothing else of any agent changes; a failed mark ends the pass; after a fully delivered pass no such agent is left |
| Alerts.DeliveredPassLeavesNobody | pkg/notifier/notifier.go:96-118 | marking every selected agent leaves none to select |
| Memory.PrunedTableHoldsNewest | pkg/store/memory.go:44-72 | for any order of timestamps and any interleaving of writers a namespace never loses one of its newest 500 records, and right after a prune holds exactly those |
| Memory.KeylessReadSeesWholeLog | pkg/store/memory.go:76-102 | a read without a key equals the same read of a log that was never pruned |
| Memory.KeyedReadAgreesIff | pkg/store/memory.go:87-93 | at any moment a read by key equals that of the unpruned log if and only if the records it should return survived |
| Memory.KeyedReadAfterPruneIff | pkg/store/memory.go:61-93 | right after a prune that is so if and only if each of those records has fewer than 500 newer ones, of any key, in its namespace |
| Memory.RankIff | pkg/store/memory.go:63-66 | the newest n records are those with fewer than n newer ones |
| Memory.KeyedReadForgets | pkg/store/memory.go:61-93 | a run of 501 writes and a prune after which a key written first is not found |
| Memory.PruneTouchesOneNamespace | pkg/store/memory.go:61-67 | pruning a namespace leaves every other as it was |
| Memory.DeletionsKeepNewestPart | pkg/store/memory.go:120-130 | with deletions and growing timestamps the table is still the newest part of the log |
| Memory.DeletedReadIsNewest | pkg/store/memory.go:76-130 | a keyless read then returns the newest records of the log, as many as the table has left |
| Memory.NewestUnique | pkg/store/memory.go:63-66 | the ordered, limited selection has one result |
| Memory.AnswerMeans | pkg/store/memory.go:84-93 | a read selects the records of the user, namespace and key that fewer than the limit come before, by time and then identifier |
| Memory.PrunedMeans | pkg/store/memory.go:61-67 | a prune takes out, of its namespace, exactly the records that 500 or more come before |
| Memory.RemovedMeans | pkg/store/memory.go:120-130 | a deletion takes out the one record with that identifier if it is the user's |
| Memory.RemoveStepMeans | pkg/store/memory.go:120-130 | of the table and of the unpruned log alike |
| Memory.ListsUnique | pkg/store/memory.go:93-93 | a page of records in that order is determined by its members |
| Memory.Clamped | pkg/store/memory.go:77-82 | the limit used is the one from 1 to 50 nearest to the one asked for |
| Memory.MemoryStore.Write | pkg/store/memory.go:44-72 | a record over 16 KiB changes nothing; otherwise the table gains the record, and of its namespace exactly the records that fewer than 500 come before stay; a failed prune leaves the record in |
| Memory.MemoryStore.PruneNamespace | pkg/store/memory.go:61-67 | the namespace keeps exactly its newest 500 records and the rest of the table stays |
| Memory.MemoryStore.Read | pkg/store/memory.go:76-102 | exactly the records of the user, namespace and key that fewer than the clamped limit come before, the youngest first and the greater identifier first among equals |
| Memory.MemoryStore.Delete | pkg/store/memory.go:120-130 | exactly the user's record with that id goes and the table is one smaller; if there was none it is not found and nothing changes |
| Telegram.SplitForTelegram | pkg/tools/delivery.go:132-166 | terminates on every text; chunks of at most 4096 bytes are consecutive slices of the text with only newlines between them; a line is cut only if it is itself longer than a message; neighbours together fill a message; an empty chunk appears exactly if a remainder of 4096 bytes meets an empty buffer |
| Telegram.SplitFullLine | pkg/tools/delivery.go:152-155 | 4096 bytes and a newline are sent with an empty message |
| Telegram.FullLineFlushesNothing | pkg/tools/delivery.go:152-155 | every such text meets the condition for one |
| Telegram.CutPieces | pkg/tools/delivery.go:143-150 | full messages are cut off a long paragraph after the buffer went out, and nothing is lost |
| Telegram.BufferRest | pkg/tools/delivery.go:152-159 | what is left of a paragraph joins the buffer with a newline, or the buffer goes out first and it starts a new one |
| Telegram.AddParagraph | pkg/tools/delivery.go:142-160 | a paragraph is added keeping order, sizes, permitted cuts and the account of empty chunks |
| Telegram.JoinParagraphs | pkg/tools/delivery.go:142-142 | splitting at newlines and joining again gives the text back |
| Telegram.ParagraphsAreLines | pkg/tools/delivery.go:142-142 | no paragraph holds a newline |
| Telegram.ContentPreserved | pkg/tools/delivery.go:142-165 | apart from newlines the chunks put together are the text, in order |
| Telegram.ChunkCountBound | pkg/tools/delivery.go:142-165 | there are at most 2 * (len / 4096) + 1 chunks of a split text |

## Left out

- The dashboard, REST handlers, sessions, settings and secrets: request-to-SQL plumbing and wrappers over libraries.
- The model client, web search, HTTP fetch, webhook and Telegram sends: their replies are parameters.
- Parsing cron expressions and the zone database: a `Spec` takes the library's search and the offset as parameters; `Spec.Valid` says what the search must answer.
- Loading the agent, building the initial messages, storing the rendered prompt and finding the credential, before the loop of Execute starts.
- Database migrations and start-up; rows deleted with their agent or user.
- UTF-8 validity of chunks cut inside a character, JSON encoding and decoding; which texts are blank or valid JSON and how a refusal is worded are parameters of `World`.
- Overflow of Go's 64-bit integers and of the INTEGER columns.
- Registry.Names and ListByAgent: sorted or limited listings that would only add easy members.
- A run's output, error text and token columns in the `runs` table: only status, lease and times take part in the life of a run.
- Parsing failures inside the row scan of a query, which skip a row (pkg/coordinator/coordinator.go:364-367).
- Materializer.Materializer.RunOnce: does not state the order in which the due schedules are taken, which no property depends on.
- WorkerPool.Pool.OfferRunToWorker: the pool does not change during an offer, and offers do not race for the counter; the code increments it under a read lock.
- Trace.OnlyOneGetsPastTheFirstInsert: speaks of the executions of one run; rows of different runs never collide because the unique index includes the run.
- Alerts.AlertsAreSound: assumes that reading, sending and marking one agent are not interrupted; `TracksIff` and `RepeatAlertIff` say what interruptions change.
- LifecycleRuns.EveryRunHasOneLife: assumes `Disciplined` and `Timely`, which the code does not enforce; `LifecycleLeases` has a run against each part of `Disciplined` and one against `Timely`, and `LifecycleRenewals` derives `Timely` from renewals.
- Schedule.AcceptedIffSpaced: assumes `FirstGapIsLeast`, which the code does not check; without it an accepted expression may fire more often.
- Schedule.SavedFireIsRaw: assumes that the library's search gives up only if nothing matches any more, and a save after the check's reference date.
- LifecycleRenewals.InTimeIffGapsFit: the renewals that arrive are assumed to find the row running; `RenewedRunsHaveOneLife` proves that they do.
