# Verified models of the fleet scheduler, mailbox, run loop, adoption and recovery

The project models the coordination core of the Go program and proves what its
protocols keep.

**Fleet scheduler.** `FleetMachine` is a state machine over the task store, one
tracker and any number of goroutines. One step is one SQL statement or one
section under a lock; steps of different threads interleave freely, a crash may
fall anywhere, and any number of restarts may follow. `FleetSafety` proves
dependency order, at-most-once dispatch, the worker bound and path exclusivity
over every execution; `FleetWakeup` and `FleetRecovery` that no wake-up is lost
at a fan-in, and which ones a crash loses. `FleetProgress`, `FleetFair` and
`FleetCompletion` decide where a fleet ends, however its workers end: fair rounds
always exist, and after enough of them a task is completed exactly when its own
worker did not lose and it is in no set stuck behind the losers. `FleetVerdicts`
says what a worker's end makes of its own task, `FleetFailures` what a failure
does to the children, and `FleetLimits` when leases outlive their task. `DagStore` and `FleetTracker` are the code itself,
classes whose methods are proved to extend an execution statement by statement,
and `FleetPlan` is the construction of the store from a plan.

**Mailbox.** `MailboxMachine`, `MailboxSafety` and `MailboxStore` do the same for
the envelope table and its consumers; `MailboxLoss` says when a message is lost.

**Runs, adoption, recovery.** `RunLoop` is the orchestrator's loop against a
coordinator that may answer anything, statement by statement among other runs and
recovery on the same store; `RunTables` is what it knows of its rows meanwhile,
`EffectKeys` its printed keys, `TaskStore` its tables. `AdoptionMachine`,
`AdoptionHistory`, `AdoptionOutcome` and `AdoptionCommands` are the life of a
candidate under concurrent adopt and reject commands; `Reconcile` is crash
reconciliation, and `LateStart` what it makes of a run that could not start.

**Small pieces.** `LineSplitter` (terminal output into lines) and `Router`
(choice of a provider, over exact reals). `Pieces`, `PathText`, `Sets`,
`Options` and `Decisions` are shared vocabulary.

How the proofs are arranged: a machine's invariant is proved for every step by
one small lemma per group of steps; results over runs follow by induction on the
run; each method that changes state logs the step it took, and the verifier
checks that the step was enabled and leads exactly to the new state. Other
threads act in `Preempt`, which takes any number of arbitrary steps, and other
runs in `RunLoop.RunContext.Others`.

## Where the code and its description differ

- `depends_on` indices of a plan that name the entry itself or a later one are
  dropped silently (`cmd/omni/main.go:580-584`): `FleetPlan.PlanParents`.
- Leases do not always end with their task. `FailDependents` and the failing
  update of `UnblockIfReady` fail a blocked task without releasing the leases it
  was given while the plan was built, and a crash leaves behind the leases of
  every goroutine past its active write. No later step releases them, so no task
  with one of those paths ever runs again: `FleetLimits.StrandedExactly`,
  `FleetLimits.StrandedForever`, `FleetLimits.CrashStrands`.
- `poll` trims the paths it reads back, `fleetCmd` leases them untrimmed. The
  fleet of two tasks with paths `" x"` and `"x"`, the second waiting for the
  first, never dispatches anything (`FleetLimits.UntrimmedPathStarvesFleet`).
  The exact condition is `FleetPlan.PlanCompletesExactly`: a plan completes
  unless some entries are stuck, each waiting for an earlier one of them or for a
  path that one of them declared first and cannot give back.
- `ResumeActiveTasks` finds a task again after a crash only through legacy parent
  columns, and tasks built by `fleetCmd` have 0 there:
  `FleetRecovery.ResumeChecksExactly`, `FleetRecovery.CrashForgetsExactly`.
- The mailbox describes at-least-once delivery (`internal/mailbox/mailbox.go:2-9`).
  `Dequeue` hands out each message at most once, and `Redeliver` only reads; it
  compares whole seconds. A message is abandoned, leased with nobody holding it,
  exactly when its consumer died, its effect failed or its ack failed while it was
  held and nobody outside has acked it since (`MailboxLoss.AbandonedExactly`).
  An abandoned message is never handed out or acked by a consumer again
  (`MailboxLoss.AbandonedForever`), perhaps without its effect ever having been
  called (`MailboxLoss.CrashLosesMessage`).
- `result adopt` tells the user to "reject first" when an attempt is already
  adopted; `result reject` does not clear an adoption
  (`AdoptionCommands.RunRows.ResultReject`). A reject between an adopter's read
  and its write is lost, and so is a late cancel or interrupt by another run or a
  recovery (`AdoptionHistory.RejectLostExactly`), and two adopters
  both write exactly when one writes between the other's look at the adopted
  column and its write (`AdoptionHistory.AdoptedOnceExactly`);
  `AdoptionMachine.RejectIsLost`, `AdoptionHistory.CancelIsLost` and
  `AdoptionMachine.TwoAdoptersBothWrite` are schedules where it happens.
- Run and `Reconcile` cancel or interrupt attempts they listed as active earlier,
  without looking again (`internal/orchestrator/orchestrator.go:178-182`,
  `internal/orchestrator/recovery.go:39-74`), so another process can hit an attempt
  that has been observed since. A good candidate cancelled that way after its run is
  over is never adopted (`AdoptionOutcome.CancelWithdraws`,
  `AdoptionOutcome.WithdrawnForever`). `finalizeTerminal` does not count
  `interrupted` as terminal, so a candidate interrupted before its run closes its
  rows becomes `completed` whatever its exit code
  (`RunLoop.RunContext.CompletedRow`) and can be adopted
  (`AdoptionOutcome.RaisedIsAdopted`). An adopted attempt exits with another code
  than 0 only in this way (`AdoptionHistory.RaisedAfterInterrupt`).
- `Reconcile` interrupts the run and the task of an attempt it gives up, even
  when they had already failed or completed (`Reconcile.RunChanges`,
  `Reconcile.TaskChanges`): a run that failed because a worker could not be
  started is interrupted (`LateStart.FailedRunIsInterrupted`). `GetWorkerByAttempt` is described as the
  first worker and returns the last.
- The router's scores assume counts that fit. The store counts runs as attempts
  but rejects per attempt, so a score can be negative and an ineligible default
  is chosen over the only eligible provider: `Router.ChoiceIsBestExactly`,
  `Router.RejectsHideTheOnlyEligible`.
- `DetectCircular` follows only the legacy parent column and gives up after 100
  steps, so a longer chain without any cycle is refused as well. The scheduler
  uses the edge table, for which the answer is right exactly as
  `DagStore.AcceptsMirrorsEdges` and `DagStore.AcceptedCycleExactly` say;
  `DagStore.AcceptedCycle` is an accepted edge that closes a cycle.
- An attempt whose validator passed with a nonzero exit code is `failed`, yet the
  coordinator may answer COMPLETE and the run is `completed`
  (`RunLoop.RunContext.CompletedRow`). Such an attempt can be the candidate
  (`AdoptionOutcome.FailedCandidate`) and is then never adopted, nor is any other
  attempt, unless the closing raises it as above (`AdoptionOutcome.NeverAdopted`,
  `AdoptionOutcome.ClosedForGood`); what an undisturbed adopt command needs to
  succeed is `AdoptionOutcome.AdoptsExactly`.
- A worker that reports FAIL fails its blocked children; one that errs, or whose
  attempt could not be created, leaves them blocked for good
  (`FleetFailures.FailedOrBlocked`), unless a completed parent's check of the child
  comes last (`FleetFailures.FailedExactly`).

## Model

| member | source | states |
|---|---|---|
| FleetSafety.SafeAt | internal/daemon/tracker.go:120-288 | every state of every interleaving, crashes and restarts included, satisfies the control, order and lease invariants |
| FleetSafety.DependencyOrder | internal/dag/dag.go:303-344 | a task that is pending, active or completed, or was ever dispatched or active, has every ancestor completed, although UnblockIfReady reads twice and then writes |
| FleetSafety.NothingBelowFailure | internal/dag/dag.go:455-469 | no descendant of a task that ever fails is pending, active, completed or dispatched at any point of the run |
| FleetSafety.TerminalStays | internal/dag/dag.go:356-361 | completed and failed are absorbing |
| FleetSafety.SweepStatusChanges | internal/dag/dag.go:320-344 | the write of UnblockIfReady only moves a blocked task, to pending when all its parents are completed and to failed otherwise |
| FleetSafety.LeasesKeptByWorker | internal/dag/dag.go:120-125 | the release of one worker's leases leaves every other worker all of its own |
| FleetSafety.NextSweepOk | internal/dag/dag.go:320-344 | what the two separate reads of UnblockIfReady concluded is still true at the write |
| FleetSafety.RedispatchNeedsCrash | internal/daemon/tracker.go:140-182 | two dispatches of one task are separated by a crash that found it still pending: never twice in one tracker's life, never again once active |
| FleetSafety.WorkerBound | internal/daemon/tracker.go:84-98 | at most maxWorkers goroutines are in flight, also after Close emptied the active map; everything active is in flight |
| FleetSafety.PathExclusivity | internal/daemon/tracker.go:148-181 | every live goroutine holds the lease on each of its paths, so no two share one |
| FleetVerdicts.LosesForGood | internal/daemon/tracker.go:221-252 | in every execution, a task whose attempt could not be created, whose run erred or reported FAIL, is failed in that and every later state |
| FleetVerdicts.CompletedExactly | internal/daemon/tracker.go:240-247 | a task is completed in a state exactly when its goroutine saw COMPLETE before |
| FleetVerdicts.OrphanedExactly | internal/daemon/tracker.go:228-255 | a task is active with no goroutine left to settle it exactly when its run once ended with neither COMPLETE nor FAIL, or the process once died while it was active |
| FleetWakeup.NoLostWakeup | internal/daemon/tracker.go:241-243 | without a crash, a task still blocked behind completed parents is owed a check by the goroutine of one of them |
| FleetRecovery.ResumeChecksExactly | internal/daemon/tracker.go:258-277 | a finished ResumeActiveTasks has checked a waiting task, or left a goroutine or an outside call owing it the check, exactly when at its start some blocked task's legacy column named one of its parents or somebody owed it the check, or an outside call came for it |
| FleetRecovery.ResumeRestoresWakeups | internal/daemon/tracker.go:267-276 | after any crashes and a finished ResumeActiveTasks, a task whose own column names one of its parents, alone or among others, is never left without a check owed |
| FleetRecovery.CrashForgetsExactly | internal/daemon/tracker.go:241-243 | a crash leaves a task behind exactly when it waits behind completed parents and no blocked task's column names one of them |
| FleetRecovery.ForgottenForever | internal/daemon/tracker.go:258-277 | and it stays blocked through every restart, poll and ResumeActiveTasks, unless an outside call names one of its parents |
| FleetRecovery.FleetChildForgotten | cmd/omni/main.go:585-585 | tasks built by fleetCmd have 0 in the column, so every one that waits at a crash is left behind |
| FleetProgress.RankStep | internal/daemon/tracker.go:191-256 | no step of a steady run, whatever its workers end with, increases the work left, and every step of a task's goroutine or dispatch decreases it |
| FleetProgress.RankZeroIsDone | internal/daemon/tracker.go:191-256 | without a loser, no work left means exactly: all completed, nobody running; and each task was dispatched once |
| FleetFair.NobodyStuck | internal/daemon/tracker.go:211-255 | a live goroutine has a happy step of its own exactly unless it wants the tracker's mutex while a poll or a resume holds it |
| FleetFair.HolderCanMove | internal/daemon/tracker.go:120-183 | whoever holds that mutex has a happy statement of its own |
| FleetFair.HolderLeavesLess | internal/daemon/tracker.go:140-182 | every statement of the holder brings it nearer to giving the mutex back |
| FleetFair.FairRoundExists | internal/daemon/tracker.go:105-182 | from every state of a steady run a fair round can follow in which no further worker loses |
| FleetFair.FairRunExists | internal/daemon/tracker.go:105-182 | every steady run, whoever has lost in it, goes on to any number of fair rounds with the same losers |
| FleetCompletion.StuckNeverRuns | internal/daemon/tracker.go:148-181 | no task stuck behind lost ones is dispatched while those are not completed, in any execution, with whatever failures, crashes and restarts |
| FleetCompletion.QuietPoll | internal/daemon/tracker.go:140-182 | a complete poll with no live goroutine dispatches, makes a task give back for the first time the leases it was built with, or finds the fleet settled |
| FleetCompletion.FruitlessIsSettled | internal/daemon/tracker.go:172-179 | after a complete poll that did neither of the first two, what is neither completed nor lost is stuck |
| FleetCompletion.SettledStays | internal/daemon/tracker.go:140-182 | a settled fleet stays settled: nobody is dispatched and nobody loses any more |
| FleetCompletion.RoundDecreases | internal/daemon/tracker.go:105-182 | every fair round makes progress or ends with the fleet settled |
| FleetCompletion.FleetSettles | internal/daemon/tracker.go:105-256 | however the workers end, after enough fair rounds no goroutine is left, a task is completed exactly when its worker did not lose and it is in no set stuck behind the losers, and exactly those and the losers were dispatched, once each |
| FleetFailures.FailedOrBlocked | internal/daemon/tracker.go:234-252 | a task none of whose parents completes ends failed when one of them reported FAIL, and otherwise blocked for good, unless an outside call asks for it |
| FleetFailures.FailedExactly | internal/dag/dag.go:320-344 | a task whose worker does not lose ends failed exactly when a parent reported FAIL or a check of it came after all its parents were terminal, one of them failed; an outside or resumed call may still be in the middle of that check |
| FleetFailures.ReportFails | internal/dag/dag.go:455-469 | every child of a task that reported FAIL ends failed, whatever else happens |
| FleetCompletion.FleetCompletes | cmd/omni/main.go:571-616 | without a stuck set, every long enough fair happy run completes all tasks, one dispatch each |
| FleetCompletion.FleetCompletesExactly | cmd/omni/main.go:571-616 | and with one, not every such run does: completion in all of them is equivalent to having no stuck set |
| FleetCompletion.QuietPollLaunches | internal/daemon/tracker.go:140-182 | when every lease lies with the lowest task that wants its path, each complete poll with no live goroutine and work left dispatches, whatever interleaves |
| FleetCompletion.LowestIsPending | internal/daemon/tracker.go:240-248 | with nobody running, the lowest uncompleted task is pending |
| FleetCompletion.OrderedIsStuckless | internal/dag/dag.go:106-117 | such leases leave no stuck set |
| FleetLimits.StrandedStep | internal/dag/dag.go:455-469 | a started task that is not running holds a lease after a step exactly when it did before, or the step failed it while blocked, or the process died under its goroutine |
| FleetLimits.StrandedExactly | internal/daemon/tracker.go:212-219 | over every execution, leases end with their task exactly as long as no such step was taken |
| FleetLimits.StrandedForever | internal/dag/dag.go:106-125 | a stranded lease stays for good, and no task with that path is dispatched again |
| FleetLimits.CrashStrands | internal/daemon/tracker.go:228-253 | a crash strands every path of every goroutine past its active write |
| FleetLimits.UntrimmedIsStuck | cmd/omni/main.go:597-599 | the plan with paths " x" and "x" and an edge between them is stuck |
| FleetLimits.UntrimmedPathStarvesFleet | internal/daemon/tracker.go:149-160 | it never dispatches anything |
| FleetLimits.OutOfOrderMayComplete | internal/daemon/tracker.go:149-160 | without the edge it still reads its paths out of order, and nothing is stuck |
| DagStore.AcceptedIsUnreachable | internal/dag/dag.go:425-449 | after DetectCircular returned nil, `from` is on the parent chain of `to` at no depth |
| DagStore.AcceptsMeans | internal/dag/dag.go:425-449 | acceptance said of the column itself: a walk of at most 100 tasks from `to` that ends without meeting `from` |
| DagStore.AcceptedEdgeKeepsAcyclic | internal/dag/dag.go:425-449 | adding the accepted edge keeps every parent chain finite |
| DagStore.Refused | internal/dag/dag.go:425-449 | a chain that reaches `from`, repeats a task or is longer than the limit is refused |
| DagStore.Accepted | internal/dag/dag.go:425-449 | a chain that ends within the limit without meeting `from` is accepted |
| DagStore.CycleNeverEnds | internal/dag/dag.go:425-449 | a chain that repeats a task never ends, so every cycle is refused whatever `from` is |
| DagStore.EdgeKeepsAcyclicExactly | internal/dag/dag.go:423-449 | an edge keeps the edge table acyclic exactly when its parent does not descend from its child |
| DagStore.AcceptsMirrorsEdges | internal/dag/dag.go:425-449 | where the edges along a short parent chain are the legacy parents, acceptance is equivalent to the edge table staying acyclic |
| DagStore.AcceptedCycleExactly | internal/dag/dag.go:443-445 | a task with an empty column is accepted as anybody else's parent, into a cycle exactly when it descends from the child |
| DagStore.AcceptedCycle | internal/dag/dag.go:443-445 | the two-task store where that happens |
| DagStore.Store.DetectCircular | internal/dag/dag.go:425-449 | the loop accepts exactly when along the column one comes from `to`, within 100 tasks and without meeting `from`, to a task without a parent |
| DagStore.Store.CreateTaskFull | internal/dag/dag.go:214-244 | the new row, its edge, its status, and the refusal of a missing parent |
| DagStore.Store.AcquirePathLease | internal/dag/dag.go:106-117 | granted unless another task holds the path |
| DagStore.Store.TasksWithStatus | internal/dag/dag.go:365-376 | exactly the tasks with the status, each once, in some order |
| DagStore.Store.AllParentsComplete | internal/dag/dag.go:303-317 | true exactly when every existing parent is completed or failed |
| FleetTracker.Tracker.constructor | internal/daemon/tracker.go:84-98 | a tracker over a built store is an execution with no step yet |
| FleetTracker.Tracker.Poll | internal/daemon/tracker.go:120-183 | poll is an execution; with nobody running and work left in a happy run it contains a dispatch |
| FleetTracker.Tracker.PollOnce | internal/daemon/tracker.go:120-183 | the loop over the stale list extends the execution and gives the mutex back |
| FleetTracker.Tracker.AcquireAll | internal/daemon/tracker.go:148-179 | splitting, trimming and leasing the stored paths ends with all of them held or none wanted |
| FleetTracker.Tracker.GiveBack | internal/daemon/tracker.go:172-178 | one release per acquired path, then the next task |
| FleetTracker.Tracker.ExecuteTask | internal/daemon/tracker.go:191-193 | the task becomes active and its goroutine exists |
| FleetTracker.Tracker.RunTask | internal/daemon/tracker.go:221-254 | the goroutine's body for every result of the run, as steps of the machine: no attempt or an error leaves the task failed; otherwise the first COMPLETE or FAIL settles it, and without one it is active |
| FleetTracker.Tracker.Complete | internal/daemon/tracker.go:241-247 | completed is written, then the dependents are unblocked, and completed it stays |
| FleetTracker.Tracker.Fail | internal/daemon/tracker.go:249-252 | failed is written, then the dependents are failed, and failed it stays |
| FleetTracker.Tracker.FailsKids | internal/dag/dag.go:455-469 | the rows FailDependents changes are the blocked children of the graph |
| FleetTracker.Tracker.Leave | internal/daemon/tracker.go:212-219 | out of the active map first, leases released after, none left |
| FleetTracker.Tracker.UnblockDependents | internal/dag/dag.go:389-421 | visits every dependent once, whatever happens between its statements |
| FleetTracker.Tracker.UnblockIfReady | internal/dag/dag.go:320-344 | three separate statements, each a step of the machine |
| FleetTracker.Tracker.ResumeActiveTasks | internal/daemon/tracker.go:258-277 | visits every blocked task and discharges the need to resume |
| FleetTracker.Tracker.LookUpParent | internal/daemon/tracker.go:269-272 | the parent is what the legacy column holds, and a sweep starts exactly when that task is completed |
| FleetTracker.Tracker.Close | internal/daemon/tracker.go:279-288 | closes and empties the active map; goroutines go on |
| FleetPlan.AddTask | cmd/omni/main.go:573-601 | one entry: row, then edges, then blocked, then leases |
| FleetPlan.BuildPlan | cmd/omni/main.go:571-601 | an edge for every earlier entry an entry names and no other; blocked with an edge and pending without; every declared path leased to its first declarer |
| FleetPlan.TakeLeases | cmd/omni/main.go:597-599 | keeps every path with its first declarer |
| FleetPlan.KnownDependencies | cmd/omni/main.go:579-584 | exactly the named earlier entries, none left out |
| FleetPlan.NamedAreDone | cmd/omni/main.go:579-592 | in every execution from a plan, an entry that is pending, active, completed or was ever dispatched has every earlier entry it names completed |
| FleetPlan.BuiltGraph | cmd/omni/main.go:571-601 | the tables built say exactly the plan's graph |
| FleetPlan.StuckPlanExactly | cmd/omni/main.go:571-601 | sets of the built store stuck behind lost tasks are the ones read off the plan |
| FleetPlan.PlanSettles | cmd/omni/main.go:571-616 | which entries complete is decided by the plan and the losers alone: those that are neither lost nor stuck behind them |
| FleetPlan.PlanCompletesExactly | cmd/omni/main.go:571-616 | a plan completes in every long fair happy run exactly when none of its entries are stuck |
| FleetPlan.StuckEntryNeverRuns | cmd/omni/main.go:571-616 | and an entry stuck behind lost ones is dispatched in no execution while those are not completed; with none lost, never |
| FleetPlan.PlanLeasesExactly | cmd/omni/main.go:585-599 | every lease taken while building belongs to the first task that poll will want it for, exactly when no task reads a path first declared by a later one |
| FleetPlan.InOrderIsNotStuck | cmd/omni/main.go:596-599 | such a plan has no stuck entries |
| FleetPlan.CleanPlanReadsInOrder | internal/daemon/tracker.go:149-160 | and a plan is such when no path has a comma or outer spaces |
| FleetPlan.StartFleet | cmd/omni/main.go:571-615 | the tracker starts in the state those results speak about, with at least one worker |
| Pieces.SplitUndoesJoin | internal/daemon/tracker.go:149-149 | splitting undoes joining exactly when there is a piece and none holds the separator |
| PathText.TrimExactly | internal/daemon/tracker.go:156-156 | trimming takes away spaces in front and at the end, all of them, and nothing else |
| PathText.KeptExactly | internal/daemon/tracker.go:149-170 | the paths are the trimmed pieces that are not empty, in their order |
| PathText.PathsReadBack | internal/daemon/tracker.go:149-159 | clean paths are read back from the column as declared |
| MailboxSafety.InvAt | internal/mailbox/mailbox.go:186-368 | the table, claim, consumer and reason invariants hold in every state of every run |
| MailboxSafety.StepRefinesQueue | internal/mailbox/mailbox.go:229-273 | SELECT and compare-and-set by any number of processes refine an atomic pop-or-nothing on a queue per recipient |
| MailboxSafety.ClaimedOnceInOrder | internal/mailbox/mailbox.go:229-273 | no row is claimed twice, claimed rows have delivery_attempt one, and the claims of a recipient increase |
| MailboxSafety.EffectSafety | internal/mailbox/mailbox.go:338-368 | acked by consumers only after a rejection or a successful effect, the effect called at most once over all consumers and restarts, a message whose effect failed or was cut short still leased |
| MailboxSafety.Conservation | internal/mailbox/mailbox.go:186-220 | every enqueued id sits in one row for good and only moves forward; enqueuing it again revives nothing |
| MailboxSafety.OnwardAll | internal/mailbox/mailbox.go:186-309 | rows never move, change recipient or go back over any stretch of a run |
| MailboxLoss.AbandonedExactly | internal/mailbox/mailbox.go:2-9 | in every state of every run, a message is leased and held by nobody exactly when a crash, a failed effect or a failed ack let go of it earlier and nobody outside acked it since |
| MailboxLoss.AbandonedForever | internal/mailbox/mailbox.go:229-285 | and so it stays, with no further call, success, rejection or ack, unless somebody outside acks it |
| MailboxLoss.CrashLosesMessage | internal/mailbox/mailbox.go:338-358 | the run of four steps that ends there before the effect was called |
| MailboxStore.RedeliveryWindow | internal/mailbox/mailbox.go:289-303 | what the comparison of whole seconds guarantees about the age of a lease |
| MailboxStore.Mailbox.Enqueue | internal/mailbox/mailbox.go:186-220 | the three refusals in order, then an append unless the id exists |
| MailboxStore.Mailbox.Dequeue | internal/mailbox/mailbox.go:229-273 | claims the oldest message queued for the recipient, or nothing, and nothing only when none was queued at its SELECT or the selected one was claimed first |
| MailboxStore.Mailbox.CompareAndSet | internal/mailbox/mailbox.go:248-262 | succeeds exactly when the message is still queued, and then stamps its row and no other |
| MailboxStore.Mailbox.Redeliver | internal/mailbox/mailbox.go:289-309 | exactly the unacked rows with no lease or an expired one, in id order |
| MailboxStore.Mailbox.FailedIsRedelivered | internal/mailbox/mailbox.go:356-359 | a message whose effect failed comes back from Redeliver once its lease is old enough |
| MailboxStore.Mailbox.ProcessOne | internal/mailbox/mailbox.go:338-368 | which outcome is reported when, and what is then recorded about the message |
| EffectKeys.ItoaReadsBack | internal/orchestrator/orchestrator.go:306-306 | the printed number determines the number |
| EffectKeys.KeyInjective | internal/orchestrator/orchestrator.go:306-306 | the printed effect key determines run, attempt and decision |
| RunLoop.Coordinator.Wake | internal/coordinator/runtime.go:93-153 | answers exactly when the generation is current before and after and the decision is allowed |
| RunLoop.AllowedExactly | internal/orchestrator/orchestrator.go:630-639 | which decisions count after an observation: RETRY_CLEAN and FAIL always, COMPLETE exactly after a passed validator, else REPLACE after an exit and CONTINUE without one |
| RunLoop.DecidedExactly | internal/orchestrator/orchestrator.go:216-302 | every decision in full: the reply, if the coordinator was not replaced meanwhile and the reply counts, FAIL otherwise; without a coordinator COMPLETE after a passed validator and VALIDATE else |
| RunLoop.RunContext.constructor | internal/orchestrator/orchestrator.go:188-211 | a run and task that were given and exist are used; otherwise new rows are added, with a record exactly for a new run with a provider |
| RunLoop.RunContext.CreateAttempt | internal/orchestrator/orchestrator.go:387-468 | what a start leaves behind, also when it fails after the row was added, with other processes acting between its statements; with nobody else at work exactly its rows change |
| RunLoop.RunContext.ObserveAndWait | internal/orchestrator/orchestrator.go:515-539 | checkpoint and status of the attempt, as far as nobody wrote over them, and of no other |
| RunLoop.RunContext.FinalizeTerminal | internal/orchestrator/orchestrator.go:650-687 | looks at each tracked row and closes it when it was open, the last attempt twice, then run and task, with other processes acting between look and write; with nobody else at work exactly the tracked pending, running and interrupted attempts and workers get the status |
| RunTables.ClosesExactly | internal/orchestrator/orchestrator.go:650-684 | the tracked rows that were pending, running or interrupted are closed, and no other |
| RunLoop.RunContext.WakeCoordinator | internal/orchestrator/orchestrator.go:379-385 | every reply that does not count comes to FAIL |
| RunLoop.RunContext.Respond | internal/orchestrator/orchestrator.go:276-302 | the next decision is the counted answer, FAIL, or without a coordinator what the validator says |
| RunLoop.RunContext.FreshKey | internal/orchestrator/orchestrator.go:304-317 | on a run without earlier keys the key of the next decision is new |
| RunLoop.RunContext.OneMoreKey | internal/taskstore/store.go:705-717 | recording it leaves only keys of attempts so far |
| RunLoop.RunContext.Persist | internal/orchestrator/orchestrator.go:304-317 | the run ends here exactly when the write of the key fails or the key was stored before; otherwise the key is added and nothing else of this run changes |
| RunLoop.RunContext.Complete | internal/orchestrator/orchestrator.go:319-351 | the gateway's rejection is unreachable; a run with a record ends with its last attempt as candidate, unless that write fails, and a provider's run without one fails; the record is otherwise untouched |
| RunLoop.RunContext.Loop | internal/orchestrator/orchestrator.go:226-369 | for every coordinator, environment and company: COMPLETE only last and only after a passed validator, bounded attempts, why the loop ended, the final status of run and task and every tracked row terminal unless recovery interrupts them late, what the attempts' rows say, and the row a late start failure leaves |
| RunLoop.RunContext.AttemptsBounded | internal/orchestrator/orchestrator.go:226-266 | at most maxAttempts attempts, three when that is not positive and three without a coordinator; a run that just stops has used them up, and nothing that ends a run was passed over |
| RunLoop.Run | internal/orchestrator/orchestrator.go:167-370 | the same from the entry, for every run without earlier keys, and the refused call that changes nothing; every decision but one whose write failed has its key, and the candidate is written exactly by a COMPLETE that was not replayed and met no error |
| RunLoop.RunContext.CompletedRow | internal/orchestrator/orchestrator.go:531-535 | a completed run's last attempt passed its validator and is failed exactly when its exit code is nonzero; beside other runs it may be cancelled instead, and beside recovery interrupted, or completed whatever its exit code |
| RunLoop.RunContext.RowsTell | internal/orchestrator/orchestrator.go:335-351 | without recovery beside it, every tracked attempt's row says what was observed of it last, or is cancelled by another run; the last attempt and its worker are failed when no candidate could be recorded |
| RunLoop.RunContext.EndsTerminal | internal/orchestrator/orchestrator.go:650-687 | whatever other runs do, without recovery beside it a run ends with everything terminal and its exact final status |
| RunLoop.RunContext.Others | internal/orchestrator/orchestrator.go:176-186 | what other processes on the same store may do between two statements: anything to other runs' rows, cancel this run's attempts whatever their status, and if recovery is among them interrupt its attempts, workers, task and run |
| RunLoop.CancelGone | internal/orchestrator/orchestrator.go:176-186 | cancels the attempts that were listed active with a gone branch, while others act between list and writes; with nobody else at work no other row changes and none is left |
| RunLoop.CancelIfGone | internal/orchestrator/orchestrator.go:178-182 | decides on the row as listed and writes over whatever it has become |
| AdoptionMachine.AdoptionSafety | cmd/omni/main.go:422-457 | over every interleaving the adopted attempt is 0 or the candidate, with a passed validator and a checkpoint, and with exit code 0 unless the closing of its run raised it |
| AdoptionMachine.AdoptedForever | cmd/omni/main.go:457-472 | nothing ever takes an adoption back |
| AdoptionMachine.CandidateForever | internal/taskstore/store.go:676-688 | a candidate once recorded stays |
| AdoptionOutcome.AdoptsExactly | cmd/omni/main.go:384-475 | an adopt command nobody interrupts writes exactly when the run has a record, nothing is adopted, and the candidate, asked for or by default, is completed with a checkpoint; then the candidate is adopted |
| AdoptionOutcome.NeverAdopted | cmd/omni/main.go:422-432 | with a candidate that left no checkpoint, or exited nonzero and is not raised, nothing is ever adopted, before or after |
| AdoptionOutcome.CandidateIsEither | internal/orchestrator/orchestrator.go:319-351 | a candidate has a checkpoint, and exit code zero or was raised, exactly when it is not such a one |
| AdoptionOutcome.FailedCandidate | internal/orchestrator/orchestrator.go:531-535 | such candidates are reachable, with their run closed |
| AdoptionOutcome.ClosedForGood | internal/orchestrator/orchestrator.go:650-687 | once a run has closed its rows it raises none any more |
| AdoptionOutcome.RaisedIsAdopted | internal/orchestrator/orchestrator.go:688-690 | the schedule in which an attempt that exited with 1 is interrupted late, raised and adopted |
| AdoptionOutcome.WithdrawnForever | cmd/omni/main.go:422-457 | a candidate of a closed run that is not completed, and that no adopter under way has seen completed, is never adopted and never completed again |
| AdoptionOutcome.CancelWithdraws | internal/orchestrator/orchestrator.go:178-182 | a late cancel does that to a good candidate |
| AdoptionHistory.WrittenFromGoodRows | cmd/omni/main.go:400-457 | in every execution, an adoption is written only after its adopter read rows in which the attempt was completed, checkpointed and not superseded, and it is not superseded at the write |
| AdoptionHistory.AdoptedOnceExactly | cmd/omni/main.go:441-457 | at most one adoption is written exactly as long as no write falls between an adopter's look at the adopted column and its own write |
| AdoptionHistory.AdoptedOnce | internal/taskstore/store.go:656-671 | so with adopt commands one at a time it is written at most once |
| AdoptionHistory.RejectLostExactly | cmd/omni/main.go:457-498 | the attempt is not completed when its adoption is written exactly when the last status write since its adopter read the rows was a reject's, a failed adopter's, or that of another run or recovery that had listed it as active |
| AdoptionHistory.CancelIsLost | internal/orchestrator/orchestrator.go:178-182 | the schedule of nine steps in which a late cancel is lost |
| AdoptionHistory.RaisedExactly | internal/orchestrator/orchestrator.go:650-687 | an attempt is raised exactly when the closing of its completed run wrote over it |
| AdoptionHistory.RaisedAfterInterrupt | internal/orchestrator/recovery.go:74-74 | an adopted attempt with another exit code than 0 was interrupted after it was observed and raised after that |
| AdoptionHistory.StatusWrites | cmd/omni/main.go:458-494 | an observed attempt is completed after a step exactly when it was and no reject, failed adopter, late cancel or interrupt hits it, or an adopter or the closing of its run completes it |
| AdoptionMachine.RejectIsLost | cmd/omni/main.go:477-498 | a reject between an adopter's checks and its write is overwritten |
| AdoptionMachine.TwoAdoptersBothWrite | cmd/omni/main.go:441-457 | concurrent adopters can both write |
| AdoptionCommands.RunRows.ResultAdopt | cmd/omni/main.go:384-475 | success means exactly that this command wrote; the adopted attempt is the one asked for, adoptable and completed, and it is failed when the write failed; each error names the step of this command that decided it |
| AdoptionCommands.RunRows.Check | cmd/omni/main.go:422-455 | goes on exactly when every check holds on what was read |
| AdoptionCommands.RunRows.ResultReject | cmd/omni/main.go:477-498 | the last attempt fails; an adoption stays |
| Reconcile.Reconcile | internal/orchestrator/recovery.go:36-90 | row by row over the four tables, whatever order the query returns: a pending or running attempt without a checkpoint and a live last worker is interrupted with its worker, run and task, every other row is unchanged, and the counts are right |
| Reconcile.WorkerLives | internal/orchestrator/recovery.go:55-63 | only the last worker of the attempt counts |
| Reconcile.InterruptsExactly | internal/orchestrator/recovery.go:64-79 | the same of the specification: what changes is exactly the attempts given up and the task, run and last worker of each |
| Reconcile.Terminalize | internal/orchestrator/recovery.go:64-79 | the rows one dead attempt takes with it, and no other |
| Reconcile.ReconcileCompose | internal/orchestrator/recovery.go:34-36 | two calls with different live processes equal one call with those alive both times |
| Reconcile.ReconcileIdempotent | internal/orchestrator/recovery.go:34-36 | a second call interrupts nothing and changes no row |
| Reconcile.Survivors | internal/orchestrator/recovery.go:47-79 | an attempt stays active exactly when it was and has a checkpoint or a live worker; settled attempts do not move |
| Reconcile.RunChanges | internal/orchestrator/recovery.go:64-75 | a run changes exactly when one of its attempts is given up |
| Reconcile.TaskChanges | internal/orchestrator/recovery.go:64-79 | a task changes exactly when one of its attempts is given up |
| Reconcile.WorkerlessIsInterrupted | internal/orchestrator/recovery.go:47-79 | an attempt in flight for which no worker was recorded dooms its run and task, whatever their status and whoever lives |
| LateStart.FailedRunIsInterrupted | internal/orchestrator/orchestrator.go:425-468 | a run that ends because a start failed late is failed and leaves such an attempt, so reconciliation interrupts it, unless another process wrote to the row |
| LineSplitter.OutputReader.ReadOutput | internal/runtime/runtime.go:529-564 | whatever the reads, with room in the channel the delivered lines joined with newlines are the stream without carriage returns up to one final newline, an unterminated last line included; a full channel drops single lines |
| LineSplitter.AtEndMeans | internal/runtime/runtime.go:554-560 | the lines sent once the stream has ended hold no newline and join to the whole text but one final newline |
| LineSplitter.WithoutCRExactly | internal/runtime/runtime.go:540-552 | what is kept of the stream is every other character, in order |
| LineSplitter.CutsDoNotMatter | internal/runtime/runtime.go:529-564 | two ways of cutting a stream into reads deliver the same lines |
| LineSplitter.LinesAreTheStream | internal/runtime/runtime.go:540-552 | lines joined with newlines and the residue are the stream without carriage returns |
| LineSplitter.LinesAreUnique | internal/runtime/runtime.go:540-552 | no other lines have that property |
| LineSplitter.PassedInOrder | internal/runtime/runtime.go:544-547 | the delivered lines are exactly the sends that found room, in order |
| LineSplitter.PassedAll | internal/runtime/runtime.go:544-547 | nothing is dropped while there is room |
| Router.ScoreRange | internal/coordinator/router.go:166-218 | with counts that fit the base score is in (0, 0.85] and at most 1 with bonuses |
| Router.ScoreMonotone | internal/coordinator/router.go:196-218 | monotone in successes, rejects, time and repositories, strictly in the first three |
| Router.ScoreGains | internal/coordinator/router.go:196-218 | what successes, rejects and repositories are worth: 0.35, 0.25 and 0.10 from one end to the other |
| Router.ScoreTime | internal/coordinator/router.go:206-210 | an average of m minutes costs m / (1 + m) of 0.15 |
| Router.ScoreAttained | internal/coordinator/router.go:196-218 | 0.85 is attained, and a provider without attempts scores nothing |
| Router.Bonuses | internal/coordinator/router.go:166-188 | 0.10 for a named model, 0.05 for an effort with Claude or Agy |
| Router.SelectCoordinator | internal/coordinator/router.go:104-163 | on every input: the first best eligible candidate when one scores above zero, Codex otherwise |
| Router.ChoiceIsBest | internal/coordinator/router.go:91-103 | with counts that fit: eligible, maximal, ties to Codex, Codex when nobody is eligible |
| Router.ChoiceIsBestExactly | internal/coordinator/router.go:104-163 | without them: exactly when some eligible score is positive or Codex is itself best |
| Router.RejectsHideTheOnlyEligible | internal/taskstore/store.go:633-645 | a record with more rejects than attempts makes the router choose a provider without samples |

## Left out

- SQL text, migrations, files, JSON, HTTP, TLS, logging, flag parsing: plumbing. Tables are maps, sets and sequences.
- Terminals, signals, `kill`, `wait4`, git worktrees, secret scanning, providers and prompts: their answers are parameters.
- Database errors, except those of recording an effect, a candidate or an adoption, and of a consumer's ack; graph and status writes of the scheduler do not fail.
- `ResumeWithRecovery`: its re-own goroutines can write completed without an observation of a run, and race with the write of running.
- `OwnedPathMap`, `OrphanCleanup`, `RetryBackoff`, capability policy and authority comparison: single branches or unused by the code modelled.
- `RecordAttemptOutcome` and the mailbox and dependency calls inside `observeAndWait`: the scheduler's machine allows UnblockDependents with any id from outside at any time.
- `fleetCmd` opens the same file in the temporary directory every time (`cmd/omni/main.go:564-565`), so a second plan starts among the rows and leases of the first: plans here start from an empty store.
- Changes to the graph after the tracker has started, and a second process on the same lease table.
- Termination of one `orchestrator.Run` call inside the tracker: assumed as fairness of a round, proved for the loop itself in `RunLoop`.
- Cancellation of a worker's context by Close: the result of its run is arbitrary.
- Wall-clock time, except the monotone clock of leases and redelivery.
- Rounding of floating point: the router is modelled over reals, and its store does not change during one call.
- The base commit and instruction text of retries, and the order in which `result adopt` reports several failing checks.
- FleetCompletion.FleetSettles: is about a tracker nobody closes or kills; with Close or a crash, FleetSafety, FleetRecovery and FleetLimits say what holds.
- FleetFailures.FailedOrBlocked: is about tasks none of whose parents completes; below a completed and a failed parent the status depends on which came first, as FleetFailures.FailedExactly says.
- RunLoop.RunContext.Others: does not include `result` commands on the run while it is under way, which are in AdoptionMachine; finding or adding the run's own run and task row is one step.
- AdoptionMachine.AdoptionSafety: is about runs that add a row for every attempt; runs of the fleet share one row, and have no record and so no adoption.
- RunLoop.Run: terminality is for tracked attempts; an attempt row whose start failed after it was added stays pending.
