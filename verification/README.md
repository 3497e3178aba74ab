# Coordinator verification

A Dafny model of the state-changing core of the coordinator under `tools/`, with proofs of what it keeps over whole
runs. `dafny verify dfyconfig.toml` checks everything.

Where the program updates fields, tables or files in place, a class does the same and each method is proved against a
function on values; the run theorems are about those functions. What each operation must answer is stated besides in
words of its own: by the fields before and after, by the commits in the log, by Git's printer, by positions in a
history or by components of a path. Runs are arbitrary sequences of calls: a call whose
guards fail changes nothing, so the theorems quantify over every sequence.

| component | modules |
|---|---|
| fast receipts: intent table, exactly-once protocol, worker | `Intents`, `ReceiptProtocol`, `ReceiptStores`, `ReceiptWorker` |
| publication jobs: leases, push, settlement | `Publications`, `PublicationWorker`, `Settlement` |
| task lifecycle, executions, budgets | `Tasks`, `Autonomy`, `Lifecycle`, `TaskRecords`, `Coordinators`, `Dependencies`, `Claims`, `Executions`, `Budgets`, `BoundRuns` |
| Git file transaction | `GitTransactions` |
| drift ledger and porcelain parser | `DriftLedger`, `Porcelain` |
| hash-linked ledgers | `HashChains`, `SessionChain`, `Assumptions` |
| graph validators | `DependencyGraphs`, `IssueSeries`, `PointerChains`, `Hierarchy` |
| observation cache, formal jobs | `Observations`, `FormalJobs` |
| envelope narrowing, privacy prefilters | `Envelopes`, `Privacy` |

Assumptions that are part of the statements: receipt ids, job ids, execution ids, leases and tokens are random and not
drawn twice; each transaction is atomic and one service process works at a time; clocks do not run backwards; only
`core.mutate` writes a receipt's marker into a commit. A boolean `admitted` or `clean` on a call stands for the role,
gate, session, process and content checks that are not looked into; both answers are covered.

## What turned out differently

- A release compares the caller's owner with the task's and nothing else. A finished task has an empty owner, so a
  release with an empty owner moves it from done to any other status, under active tasks that depend on it
  (`Dependencies.DoneTaskCanBeReopened`). Satisfied dependencies stay satisfied exactly without such a call.
- On Git the validation after a mutation rejects an expired claim of the selected task. Recovering a completed
  execution needs an expired reservation, and a start raises a shorter claim to the reservation's expiry, so such an
  execution can only be abandoned, which its receipt forbids (`BoundRuns.RaisedClaimIsNeverRecovered`; exactly when a
  recovery commits is `BoundRuns.RecoveryCommitsIff`).
- A hold recorded by a bound run is carried by the run update, but a bound run ends with execution-finish, which does
  not carry it and is therefore rejected until the hold is disposed of (`BoundRuns.HeldRunNeedsDisposition`; exactly
  when a finish commits is `BoundRuns.FinishCommitsIff`).
- Two runs admitted before either records pass a command limit when the hold in between is disposed of
  (`Budgets.InterleavedRunsOvershoot`); each single record is within budget exactly under `Budgets.RecordStaysWithinIff`.
- Restoring a failed Git mutation leaves generated files that did not exist before, unless the commit itself failed
  (`GitTransactions.NewShardStays`; the exact condition is in `GitTransactions.RestoredIff`). A receipt's commit that
  landed but cannot be read back leaves the old worktree under the new HEAD (`GitTransactions.ReadBackIff`).
- With different inputs in flight a fresh-scan answer can be older than its caller; it never is exactly if all callers
  share one input digest (`Observations.AlwaysFreshIff`).
- A narrower envelope that drops the network admits an unauthorized publication that its predecessor refused
  (`Envelopes.SuccessorAdmitsLess`, `Envelopes.DroppedNetworkAdmits`), and leaving a timeout out and putting it back
  raises it in two replacements (`Envelopes.TimeoutsCanRise`). Both are possible exactly while the history of at most
  16 replacements has room (`Envelopes.BecomesAdmittedIff`, `Envelopes.TimeoutRisesIff`; what one replacement bounds is
  `Envelopes.TimeoutBoundedIff`).
- Repeating a committed bind-envelope is never recognised as done: the comparison includes the task revision, which the
  commit of the binding has already raised (`Executions.BindNeverReplays`).
- Building an explanation, an observation or a disposition checks less than the ledger's validator; the exact
  difference is in `DriftLedger.AppliedAcceptedIff` and `Assumptions.AppliedAcceptedIff`.

## Model

| member | source | states |
|---|---|---|
| `ReceiptProtocol.AtMostOnce` | tools/fast_receipt_worker.py:534-607 | In every run of submit, reserve, mutate, settle, crash and recover, one receipt per key, at most one `core.mutate` call and at most one commit with its marker |
| `ReceiptProtocol.ReceiptsMatchLog` | tools/fast_receipt_worker.py:406-442 | In every run, completed-local or published means exactly one marked commit, of the fenced task and operation, with revision expected + 1; rejected means none; queued means never called |
| `ReceiptProtocol.OutcomesStick` | tools/fast_receipts.py:600-695 | Over any continuation a row keeps its identity, phases only advance, no reserved intent is queued again, a recorded outcome does not change |
| `ReceiptProtocol.ReplayIsStable` | tools/fast_receipts.py:556-598 | At any later time the same key and payload answers with the same receipt, other payload is refused, and neither adds a row |
| `ReceiptProtocol.RunKeeps` | tools/fast_receipt_worker.py:534-622 | Every step list, crashes included, keeps the invariant that ties the table to the commit log and the calls |
| `ReceiptProtocol.SettleSound` | tools/fast_receipt_worker.py:406-442 | A verdict of local completion is backed by the only marked commit, a rejection by the absence of one |
| `ReceiptStores.ReceiptStore.Enqueue` | tools/fast_receipts.py:556-598 | Inserts once per key, replays equal input, refuses other input; the unique index stays exact |
| `ReceiptStores.ReceiptStore.ClaimNext` | tools/fast_receipts.py:600-623 | Reserves the oldest queued row and no other |
| `ReceiptStores.ReceiptStore.FinishRunning` | tools/fast_receipts.py:625-672 | One outcome per reservation; an identical repeat replays, a different one is refused |
| `ReceiptStores.ReceiptStore.RecordLocalCommit` | tools/fast_receipts.py:674-685 | Refuses any revision but expected + 1 |
| `ReceiptStores.ReceiptStore.RecordRejection` | tools/fast_receipts.py:687-690 | The rejected outcome of the running row |
| `ReceiptStores.ReceiptStore.RecordAmbiguity` | tools/fast_receipts.py:692-695 | The ambiguous outcome of the running row |
| `ReceiptStores.ReceiptStore.RecordRemoteObservation` | tools/fast_receipts.py:727-753 | Only completed-local rows become published; a second observation must be the same |
| `ReceiptStores.ReceiptStore.RecordPublicationFailure` | tools/fast_receipts.py:755-770 | A diagnostic on completed-local rows only |
| `ReceiptStores.ReceiptStore.AdmitPublication` | tools/fast_receipts.py:772-852 | One job per candidate; a request key keeps its candidate and base |
| `ReceiptStores.ReceiptStore.ClaimPublication` | tools/fast_receipts.py:932-958 | Leases exactly a queued job, for 60 seconds, and changes nothing else |
| `ReceiptStores.ReceiptStore.FinishPublication` | tools/fast_receipts.py:960-1045 | A publishing job is ended iff by the holder of its live lease with a well-formed ending; an ended job only repeats its own ending |
| `ReceiptStores.ReceiptStore.RecoverPublication` | tools/fast_receipts.py:1047-1103 | Recovers exactly ambiguous jobs and run-out leases: published iff the remote is at the candidate, queued iff it is at the base, else rejected as base changed |
| `ReceiptStores.ReceiptStore.ResolveSuperseded` | tools/fast_receipts.py:895-930 | Published iff the remote is at the candidate; else rejected, as superseded iff the remote is at the base |
| `ReceiptStores.ReceiptStore.RecoverOutstanding` | tools/fast_receipt_worker.py:749-768 | The loop over the recoverable rows has the effect of one pass on every job |
| `ReceiptWorker.FindReceiptCommit` | tools/fast_receipt_worker.py:430-442 | Collects exactly the commits whose message carries the marker |
| `ReceiptWorker.Worker.RecordFromLog` | tools/fast_receipt_worker.py:571-607 | Records what the log shows of a reservation: one verified commit, none, or ambiguity |
| `ReceiptWorker.Worker.ProcessOne` | tools/fast_receipt_worker.py:534-588 | The oldest queued receipt, called at most once, ends completed iff the returned or the only marked commit fits and is readable on the active branch, rejected iff the readable log has none and the call was refused, else ambiguous with its code |
| `ReceiptWorker.Worker.RecoverReservation` | tools/fast_receipt_worker.py:591-607 | Without executing it, a running row ends completed iff the only marked commit fits and is readable on the active branch, else ambiguous: interrupted before commit iff the readable log has none |
| `ReceiptWorker.Worker.RecoverRunning` | tools/fast_receipt_worker.py:591-607 | Settles every running row from the log; none is left running |
| `ReceiptWorker.Worker.ProcessPending` | tools/fast_receipt_worker.py:610-622 | Recovers first, then performs the batch of turns; stops early only when nothing is queued |
| `ReceiptWorker.BatchIsRun` | tools/fast_receipt_worker.py:610-622 | A batch is a run of the protocol, so the run theorems hold of the tables it leaves |
| `ReceiptProtocol.SettleEnds` | tools/fast_receipt_worker.py:534-588 | The verdict of a settlement, stated by the marked commits in the log and what the call returned |
| `ReceiptProtocol.FromLogEnds` | tools/fast_receipt_worker.py:591-607 | The same of what the log alone shows |
| `ReceiptProtocol.FirstComeFirstServed` | tools/fast_receipts.py:600-623 | In every run no later receipt leaves the queue while an earlier one waits |
| `ReceiptWorker.IdleMeansNoneRunning` | tools/fast_receipt_worker.py:591-622 | In every run no row is running between turns |
| `Publications.PublicationFence` | tools/fast_receipts.py:932-1103 | In every reachable table published means the remote was seen at the candidate; one job per candidate; keys agree with their jobs |
| `Publications.TerminalIsAbsorbing` | tools/fast_receipts.py:960-1103 | Published and rejected rows never change again |
| `Publications.FinishXorRecover` | tools/fast_receipts.py:1009-1103 | At any instant a publishing job can be finished by its holder or recovered, exactly one of the two, and by no other lease |
| `Publications.RecoveredLeaseIsDead` | tools/fast_receipts.py:1009-1103 | With fresh leases, a recovered lease never finishes the job in any continuation |
| `Publications.RunKeeps` | tools/fast_receipts.py:772-1103 | Every operation sequence keeps the table valid and the request of every job fixed |
| `Publications.AdmitEffect` | tools/fast_receipts.py:772-852 | Admission disturbs no existing job and answers with the job of this candidate on this base |
| `PublicationWorker.RecordPush` | tools/fast_receipt_worker.py:771-806 | The observed remote head fixes how the job ends; after the lease nothing is written |
| `PublicationWorker.LeaseLocalHead` | tools/fast_receipt_worker.py:692-747 | Leased iff the local head can be admitted on this base and its job is new, queued or interrupted; other candidates are untouched |
| `PublicationWorker.PublishIfNeeded` | tools/fast_receipt_worker.py:692-747 | Due iff a pending commit is local but not remote and the remote is behind; then made iff the head is admitted and its job is free, under a lease of its own |
| `PublicationWorker.FinishPublications` | tools/fast_receipt_worker.py:809-829 | A receipt becomes published exactly when its commit is on both branches; otherwise the cause is noted |
| `PublicationWorker.PublishSelected` | tools/fast_receipt_worker.py:831-861 | One round end to end: jobs are recovered with the heads just read, then pushed if needed, then the receipts decided by the remote head seen last; a raise leaves the receipts alone |
| `PublicationWorker.PublishedIff` | tools/fast_receipt_worker.py:831-861 | After a round a selected receipt is published iff the remote was seen and its commit is on both branches, and otherwise carries the cause |
| `Settlement.TwoPassesSettle` | tools/fast_receipt_worker.py:749-768 | With fixed heads two passes, the second at any later time, leave only terminal jobs and jobs queued for the local head; a lease live at both is untouched |
| `Settlement.OnePassSettlesIff` | tools/fast_receipts.py:1068-1075 | One pass settles a job iff it is not an interrupted push of a superseded head found still on its base |
| `Settlement.PassDecreases` | tools/fast_receipts.py:1047-1103 | The measure on phases falls with every visit until the job is settled |
| `Settlement.PassesSettle` | tools/fast_receipt_worker.py:749-768 | Over passes at any nondecreasing times, a job that two of them reach is settled, one whose lease outlives them all is untouched |
| `Settlement.PassesDecrease` | tools/fast_receipt_worker.py:749-768 | Each pass that reaches an unsettled job takes at least one from the measure on its phase |
| `Settlement.PassesStop` | tools/fast_receipt_worker.py:749-768 | No later pass changes a job that two have reached, nor one whose lease outlives the passes |
| `Settlement.VisitIsPass` | tools/fast_receipt_worker.py:749-768 | The order in which jobs are listed does not matter |
| `Settlement.PassPublishesIff` | tools/fast_receipts.py:895-1103 | A pass that reaches an interrupted push or a stale queued job publishes it iff the remote is at its candidate, and queues it again iff an interrupted push is still on its base |
| `Settlement.PassLeavesTheRest` | tools/fast_receipts.py:877-893 | Terminal jobs, live leases and the queued job of the local head are left alone |
| `Coordinators.Coordinator.Mutate` | tools/handoffctl.py:3419-3487 | The task set becomes exactly the validated successor, or stays as it was |
| `Coordinators.Coordinator.MutationErrors` | tools/handoffctl.py:1735-1754 | Reports iff the candidate set is not committable on this backend |
| `Coordinators.GlobalKeyErrors` | tools/handoffctl.py:1707-1733 | Reports iff two active tasks share a nonempty owner, worktree or branch |
| `Coordinators.SupersessionErrors` | tools/handoffctl.py:1537-1559 | Reports iff some superseded_by pointer is not from a superseded task to a different task that reaches done |
| `TaskRecords.ActiveKeyErrors` | tools/handoffctl.py:1717-1728 | The pass with one `seen` dictionary finds a clash iff two active tasks share the key |
| `TaskRecords.AllSatisfied` | tools/handoffctl.py:2462-2464 | True iff every dependency is satisfied |
| `TaskRecords.TaskRecord.TakeClaim` | tools/handoffctl.py:2448-2485 | Open, ready, admitted, no other active task of the owner; sets owner, lease and worker |
| `TaskRecords.TaskRecord.PromoteTask` | tools/handoffctl.py:2503-2523 | Planned and ready becomes open at the exact revision |
| `TaskRecords.TaskRecord.PauseTask` | tools/handoffctl.py:2560-2578 | An owned, unreserved active task becomes blocked and gives up its claim |
| `TaskRecords.TaskRecord.Reopen` | tools/handoffctl.py:2581-2643 | A blocked, unclaimed task becomes open on the right session evidence |
| `TaskRecords.TaskRecord.RecoverClaim` | tools/handoffctl.py:2657-2688 | Only an expired, unreserved claim with evidence is given up |
| `TaskRecords.TaskRecord.RenewLease` | tools/handoffctl.py:2956-2990 | A heartbeat of the owner moves the lease of an unreserved active task |
| `TaskRecords.TaskRecord.UpdateTask` | tools/handoffctl.py:2956-3013 | An owned, unreserved update; only a run update carries the hold |
| `TaskRecords.TaskRecord.ReleaseTask` | tools/handoffctl.py:2956-3000 | Any status but in_progress, for whoever matches the owner field, without looking at the old status |
| `TaskRecords.TaskRecord.AttachCheckpoint` | tools/handoffctl.py:3022-3034 | Owner and revision fenced |
| `TaskRecords.TaskRecord.BindTree` | tools/handoffctl.py:2833-2863 | First binding or matching completion of one; no clash with an active task |
| `TaskRecords.TaskRecord.RepairTree` | tools/legacy_binding_repair.py:8-23 | Clears one exact stale worktree of an inactive task |
| `TaskRecords.TaskRecord.BindFirstEnvelope` | tools/handoffctl.py:2894-2927 | Binds once; the same reference, revision, task revision and digest is a replay, anything else is refused |
| `TaskRecords.TaskRecord.SwapEnvelope` | tools/handoffctl.py:2929-2932 | Binds the next envelope revision under another reference and digest, on an unreserved active task |
| `TaskRecords.TaskRecord.RequireActiveOwner` | tools/handoffctl.py:2816-2830 | Admits iff the caller is the owner, admitted, of an active task with a live lease at the exact revision; says which check failed |
| `TaskRecords.TaskRecord.StartExecution` | tools/execution_lifecycle.py:21-53 | Reserves the empty slot for the bound envelope and raises a shorter claim |
| `TaskRecords.TaskRecord.RecordExecutionResult` | tools/execution_lifecycle.py:70-85 | Records a receipt of this very reservation without clearing it |
| `TaskRecords.TaskRecord.FinishExecution` | tools/execution_lifecycle.py:56-67 | Clears the slot only with a matching receipt |
| `TaskRecords.TaskRecord.RecoverExecution` | tools/execution_lifecycle.py:88-103 | Clears an expired slot only with a matching receipt |
| `TaskRecords.TaskRecord.AbandonExecution` | tools/execution_lifecycle.py:106-150 | Clears an expired slot only without one: the task is open and unclaimed, with a record of this reservation appended |
| `TaskRecords.TaskRecord.PreflightBudget` | tools/autonomy_limits.py:303-323 | Starts the ledger, refuses while held, or records a hold for the first limit reached |
| `TaskRecords.TaskRecord.RecordCommand` | tools/autonomy_limits.py:326-351 | Charges one command and holds when a limit is reached |
| `TaskRecords.TaskRecord.DisposeHold` | tools/autonomy_limits.py:354-384 | Clears a hold fenced to this revision and keeps the last 32 dispositions |
| `TaskRecords.TaskRecord.CarryHold` | tools/autonomy_limits.py:394-403 | Moves the hold to the revision the run update creates |
| `TaskRecords.TaskRecord.Transition` | tools/handoffctl.py:3147-3205 | Raised iff the board does not allow it, idempotent iff its work is on record, else moves exactly the fields of its kind |
| `Dependencies.DependencySatisfied` | tools/handoffctl.py:2370-2390 | The walk terminates and answers true iff following superseded_by reaches a done task |
| `Lifecycle.AcceptedIff` | tools/handoffctl.py:2448-3205 | Every transition is refused iff the board does not allow it and does nothing iff its work is on record |
| `Lifecycle.Effect` | tools/handoffctl.py:2448-3205 | Every accepted transition moves phase, holder, slot, bindings, text and ledger exactly as its kind says |
| `Lifecycle.OnlyReleaseFinishes` | tools/handoffctl.py:2991-2999 | A task that was not done becomes done only by a release to done |
| `Lifecycle.RefusalMeans` | tools/handoffctl.py:2448-3205 | Stale revision, live or expired lease and denial are reported only when they are the case |
| `Dependencies.SatisfiedIff` | tools/handoffctl.py:2370-2390 | The same of the specification; cycles and dead ends answer false |
| `Dependencies.KeptIffNotReopened` | tools/handoffctl.py:2448-3012 | On either backend a committed mutation keeps every satisfied dependency iff it does not take a done task out of done |
| `Dependencies.StatusChanges` | tools/handoffctl.py:2448-3012 | A done task leaves done exactly by a release to another status or, unvalidated, by an update to in_progress |
| `Dependencies.DoneTaskCanBeReopened` | tools/handoffctl.py:2991-2999 | A concrete validated board on which a release takes away the dependency of an active task |
| `Claims.OneRevision` | tools/handoffctl.py:3419-3452 | A committed mutation raises one revision by one and frames every other task |
| `Claims.CommitsIff` | tools/handoffctl.py:1679-1754 | On a consistent board validating the whole set comes down to the changed task: an accepted transition commits iff its record is in order, no supersession breaks and, on Git, it is held alive and exclusively |
| `Claims.RunConsistent` | tools/handoffctl.py:1679-1754 | In every run over Git active owners, worktrees and branches are pairwise distinct, and owner and lease are set iff in_progress |
| `Claims.RunKeepsReady` | tools/handoffctl.py:2448-2485 | In every run over Git without reopening release every active task keeps satisfied dependencies |
| `Claims.OnlyClaimsActivate` | tools/handoffctl.py:1679-1704 | On Git only a claim, with its dependencies checked, makes a task active |
| `Claims.ClaimThenGivenUp` | tools/handoffctl.py:2448-2688 | On Git a committed claim followed by a committed release to open or lease recovery gives the whole board back |
| `Claims.ClaimPauseUnblock` | tools/handoffctl.py:2448-2643 | So do a committed claim, pause and unblock |
| `BoundRuns.RecoveryCommitsIff` | tools/execution_lifecycle.py:88-103 | An admitted execution recovery commits iff no hold stands and, on Git, the claim is still alive when validated |
| `BoundRuns.FinishCommitsIff` | tools/execution_lifecycle.py:56-67 | A finish whose guards hold commits iff no hold stands and, on Git, the claim is still alive when validated |
| `BoundRuns.HeldRunNeedsDisposition` | tools/run_command.py:42-104 | A concrete bound run on Git whose own record reaches the limit: its finish is rejected, and commits after a disposition |
| `BoundRuns.RaisedClaimIsNeverRecovered` | tools/execution_lifecycle.py:50-52 | After a start that raised the claim, whatever is called in between, no recovery of that reservation commits on Git |
| `Executions.ReservationsAreSafe` | tools/execution_lifecycle.py:21-150 | In every run a reservation stands on an active claim with its owner and envelope that does not end before it |
| `Executions.ExecutionsLeaveOnce` | tools/execution_lifecycle.py:56-150 | With fresh ids a started execution holds its slot or left it once: by a receipt recorded under it that matches, or abandoned with none |
| `Executions.ClosedIsFinal` | tools/execution_lifecycle.py:56-150 | No later call adds a receipt to a closed execution or closes it again |
| `Executions.OldReceiptsProveNothing` | tools/execution_receipt.py:46-53 | In every run a receipt of a closed execution does not match the reservation now in any slot |
| `Executions.BindingsRise` | tools/handoffctl.py:2894-2932 | In every run a bound envelope is older than the task revision, never unbound, and only followed by later ones |
| `Executions.BindNeverReplays` | tools/handoffctl.py:2898-2918 | After any run a bind is accepted iff no envelope is bound and its guards hold; the replay answer is never reached |
| `Executions.OtherOpsLeaveTheSlot` | tools/handoffctl.py:2956-2970 | Every other transition leaves a reserved slot, its owner, envelope and claim alone |
| `Executions.RunKeeps` | tools/execution_lifecycle.py:21-150 | Every run keeps slots and the book of executions in agreement |
| `Budgets.BudgetsHold` | tools/autonomy_limits.py:275-384 | When each record has its own admitted preflight since the last record, counters stay within limits and cost passes by less than the last charge, dispositions included |
| `Budgets.InterleavedRunsOvershoot` | tools/autonomy_limits.py:303-384 | Without that condition a concrete run of two preflights passes a limit of one command |
| `Budgets.RecordStaysWithinIff` | tools/autonomy_limits.py:326-351 | A committed record keeps the budgets iff each counter it raises was below its limit before the call |
| `Budgets.RunStaysFenced` | tools/autonomy_limits.py:196-252 | In every committed state a hold is fenced to the current revision |
| `Budgets.HeldAcceptsOnly` | tools/autonomy_limits.py:220-232 | From a held state only a disposition or the run update that carries the hold commits |
| `Budgets.AdmittedIsUnder` | tools/autonomy_limits.py:275-323 | A preflight without hold has seen every counter strictly below its limit |
| `Autonomy.BreachIff` | tools/autonomy_limits.py:275-300 | A hold is due iff some limit is used up, and it is for the first of them |
| `Autonomy.PreflightEffect` | tools/autonomy_limits.py:303-323 | Admitted iff the ledger is usable and not held; changes nothing but to hold when a limit is used up |
| `Autonomy.RecordEffect` | tools/autonomy_limits.py:326-351 | Charges one command and what is reported, keeps a hold, and otherwise holds when a limit is used up |
| `Autonomy.DisposeEffect` | tools/autonomy_limits.py:354-384 | Lifts exactly a current hold and appends its disposition, dropping the oldest of 32 |
| `Autonomy.CarryEffect` | tools/autonomy_limits.py:394-403 | Moves a hold to the next revision and changes nothing else |
| `GitTransactions.Tree.Restore` | tools/handoffctl.py:2037-2043 | Every snapshotted path gets its old text or absence, no other path changes |
| `GitTransactions.Tree.Persist` | tools/handoffctl.py:3331-3403 | A raise puts every snapshotted path back; the whole worktree comes back iff the generated paths were put back too or no new path was left written; HEAD moves only with a landed commit, and after a failed read-back the two agree iff nothing changed |
| `GitTransactions.Tree.Conclude` | tools/handoffctl.py:3365-3403 | Nothing lands without a difference from HEAD; every raise before the commit is known puts the snapshot and the generated paths back |
| `GitTransactions.RestoredIff` | tools/handoffctl.py:3331-3377 | Putting the snapshot back restores the whole tree iff outside it the last edit of every edited path unlinks it |
| `GitTransactions.ReadBackIff` | tools/handoffctl.py:3395-3403 | After a landed commit that could not be read back HEAD and the worktree agree iff the mutation changed nothing |
| `GitTransactions.NewShardStays` | tools/handoffctl.py:3354-3377 | A generated file written for the first time survives a failed validation |
| `GitTransactions.SnapshottedEditsComeBack` | tools/handoffctl.py:3331-3377 | When only snapshotted paths are edited any failure restores the tree |
| `GitTransactions.CommitCoversChanges` | tools/handoffctl.py:3380-3395 | A commit covers every edit of a snapshotted or generated path |
| `Porcelain.StatusEntries` | tools/change_drift.py:91-123 | Succeeds iff the bytes are Git's printing of some changes plus unterminated rest, and then shows exactly these changes in order |
| `Porcelain.RoundTrip` | tools/change_drift.py:91-123 | Git's printing of any changes, a second field behind exactly the renamed and copied, is read as these changes, sorted |
| `Porcelain.AcceptedPrints` | tools/change_drift.py:91-123 | Accepted input is Git's printing of the changes read plus the unterminated rest: each field is consumed once |
| `Porcelain.AcceptedIff` | tools/change_drift.py:91-123 | Input is accepted iff it is Git's printing of some changes |
| `Porcelain.SortedUnique` | tools/change_drift.py:120-123 | The canonical order does not depend on the order printed |
| `Porcelain.SortedInOrder` | tools/change_drift.py:120-123 | Sorted means by path, then origin, then status, in lexicographic order of code points |
| `Porcelain.PrintedIsReadOrDenied` | tools/change_drift.py:110-111 | Of what Git prints the path policy alone decides: read iff every path and origin is safe, denied otherwise |
| `DriftLedger.Records` | tools/change_drift.py:453-498 | The loop accepts iff the history is linked, increasing and obeys the cycle rules |
| `DriftLedger.DriftTask.Apply` | tools/change_drift.py:667-699 | Owner and revision fenced; records exactly what was given under the next revision, or leaves the history alone |
| `DriftLedger.RunKeeps` | tools/change_drift.py:571-699 | Every committed history has the shape baseline rescope* (delta explain*)? and is accepted |
| `DriftLedger.ScanIff` | tools/change_drift.py:453-498 | The pass accepts a history iff every record is sealed, linked, later than the one before and fits the cycle it stands in |
| `DriftLedger.RecordsGiven` | tools/change_drift.py:571-638 | The new record has the given head and entries, paths and reason, or scope; earlier records are kept |
| `DriftLedger.AppliedIff` | tools/change_drift.py:571-638 | Which actions build a record, by the phase of the cycle |
| `DriftLedger.BaselineIffAllNamed` | tools/change_drift.py:516-588 | After a committed delta, in every run without a new baseline, a baseline is taken up iff each given material path was named by a committed reason |
| `DriftLedger.AppliedShaped` | tools/change_drift.py:571-638 | Every extension keeps that shape |
| `DriftLedger.AppliedAcceptedIff` | tools/change_drift.py:453-498 | An extension is accepted iff an explanation names only paths of the active delta and an observation is within its bound |
| `DriftLedger.AdmissibleIsCommitted` | tools/change_drift.py:546-552 | Validation drops a built record exactly when that condition fails |
| `DriftLedger.BaselineNeedsResolvedCycle` | tools/change_drift.py:585-588 | A baseline replaces a cycle only after every material path of its delta was explained under that delta's digest |
| `DriftLedger.SameDigestSameHistory` | tools/change_drift.py:342-370 | Equal last digests mean equal accepted histories up to recorded_at |
| `DriftLedger.TimesAreNotCovered` | tools/change_drift.py:160-168 | Histories of any length that differ only in recorded_at are accepted alike, resolved alike and end in the same digest |
| `DriftLedger.LastDigestIff` | tools/change_drift.py:342-370 | Two accepted histories have the same last digest iff they are the same record for record up to recorded_at |
| `HashChains.LastDigestFixesAll` | tools/durable_session_chain.py:122-141 | In any linked ledger with covering digests the last digest fixes length and covered content |
| `SessionChain.ValidateChain` | tools/durable_session_chain.py:122-141 | The pass accepts iff every record is valid, contiguous, linked and of one session |
| `SessionChain.Append` | tools/durable_session_chain.py:169-171 | Revalidates the extended chain |
| `SessionChain.AppendIff` | tools/durable_session_chain.py:169-171 | Accepts exactly the valid next record of the same session linked to the last digest |
| `SessionChain.SameDigestSameJournal` | tools/durable_session_chain.py:65-141 | Equal last digests mean equal journals, record for record |
| `Assumptions.Records` | tools/assumption_revalidation.py:239-272 | The loop accepts iff the history is linked, increasing and every follow-up fits its declaration |
| `Assumptions.AssumptionTask.Apply` | tools/assumption_revalidation.py:366-393 | Taken up iff fenced and the request may follow its assumption's story; records exactly what was asked and observed, or leaves the history alone |
| `Assumptions.AppliedAcceptedIff` | tools/assumption_revalidation.py:366-393 | What is appended is accepted iff a disposition's reason is one bounded line |
| `Assumptions.AppliedIff` | tools/assumption_revalidation.py:336-393 | A request is taken up iff it declares something new and observable or follows the latest record, and is recorded as given |
| `Assumptions.LinkedIff` | tools/assumption_revalidation.py:239-272 | The pass accepts a history iff every record is sealed, linked, later than the one before and continues its assumption |
| `Assumptions.OneStoryPerAssumption` | tools/assumption_revalidation.py:254-269 | Each assumption is declared once, keeps kind and materiality, and nothing follows its disposition |
| `Assumptions.RevisionsRise` | tools/assumption_revalidation.py:247-252 | Revisions of an accepted history strictly increase |
| `Assumptions.SameDigestSameHistory` | tools/assumption_revalidation.py:195-272 | Equal last digests mean equal histories, record for record |
| `IssueSeries.CycleErrors` | tools/issue_series.py:161-181 | Terminates for every graph, reports only identifiers on cycles, and nothing iff the graph is acyclic |
| `IssueSeries.CycleSearch.Visit` | tools/issue_series.py:167-178 | One recursive visit keeps the stack a walk and finished identifiers ranked |
| `IssueSeries.EdgeErrors` | tools/issue_series.py:142-158 | Builds the graph; reports exactly the duplicated, self and missing dependencies |
| `IssueSeries.Closure` | tools/issue_series.py:192-201 | The worklist yields exactly what the finalizer reaches |
| `IssueSeries.FinalizerErrors` | tools/issue_series.py:184-206 | Reports exactly the members the finalizer does not depend on directly, and those it does not reach |
| `IssueSeries.ParseManifest` | tools/issue_series.py:235-261 | Accepts iff nonempty, distinct ids, the finalizer last, and all graph checks hold |
| `IssueSeries.AcceptedSeries` | tools/issue_series.py:209-213 | An accepted series is a closed DAG whose finalizer reaches every member and is reached by none |
| `Hierarchy.HierarchyErrors` | tools/hierarchy.py:38-75 | Terminates and reports nothing iff the edges form a forest; every report is true, and a cycle is reported for exactly the tasks without a root |
| `Hierarchy.EdgeErrors` | tools/hierarchy.py:38-63 | Fills parents and children lists; nothing iff pointers resolve and lists hold distinct tasks that point back |
| `Hierarchy.OmissionErrors` | tools/hierarchy.py:64-66 | Nothing iff every parent pointed at lists the child |
| `Hierarchy.ChainRepeats` | tools/hierarchy.py:67-74 | The walk ends; it repeats iff the chain has no root |
| `Hierarchy.Children` | tools/hierarchy.py:23-35 | Nothing iff the list is well formed, duplicate-free and without the task itself |
| `Hierarchy.RootBound` | tools/hierarchy.py:67-74 | A chain with a root reaches it in fewer steps than there are tasks |
| `Observations.ObservationCache.Look` | tools/fast_observation.py:86-128 | The locked section decides between failure, bounded answer, fresh answer, scanning, time-out and waiting |
| `Observations.ObservationCache.Publish` | tools/fast_observation.py:154-161 | Publishes the state under the scanner's inputs and bumps the generation |
| `Observations.ObservationCache.Fail` | tools/fast_observation.py:141-152 | Only a changed input bumps the generation; the scan flag is always given back |
| `Observations.SingleFlight` | tools/fast_observation.py:79-170 | In every interleaving at most one call scans |
| `Observations.OneScanServesAll` | tools/fast_observation.py:79-170 | A published scan answers every call that waited for the same inputs, unless these had moved under an earlier scan |
| `Observations.FailureIsTold` | tools/fast_observation.py:141-152 | When inputs move, the scan and every call that waited for them end without an answer |
| `Observations.RecentScanAnswers` | tools/fast_observation.py:96-106 | A new call is answered at once by the last scan if it is for its inputs and young enough |
| `Observations.OthersScanOrWait` | tools/fast_observation.py:79-128 | Otherwise it scans iff nobody does, or waits with a deadline of 90 seconds; more than 300 seconds of age are refused |
| `Observations.DeadlineEnds` | tools/fast_observation.py:122-128 | A call that wakes at its deadline stops waiting; before it, it waits only while somebody scans |
| `Observations.AnswersAreTheCallers` | tools/fast_observation.py:79-170 | Every answer is a scan published for the caller's inputs; a bounded answer is within the caller's age |
| `Observations.AlwaysFreshIff` | tools/fast_observation.py:79-170 | Callers with inputs of a set always get fresh-scan answers published after they arrived iff the set has at most one member |
| `Observations.SharedInputsAreFresh` | tools/fast_observation.py:107-121 | With one shared input digest every fresh answer was published after its caller arrived |
| `Observations.OtherInputsMakeStale` | tools/fast_observation.py:141-147 | For any two different inputs an interleaving in which a fresh-scan answer is older than its caller |
| `Observations.RunKeeps` | tools/fast_observation.py:79-170 | Every interleaving keeps the scan flag, the cache and the generations explained |
| `FormalJobs.FormalJobStore.Start` | tools/formal_job_receipts.py:103-143 | A known key changes nothing; otherwise every active job of the scope ends superseded, one new job starts, and the rest stays |
| `FormalJobs.FormalJobStore.Begin` | tools/formal_job_receipts.py:145-165 | Hands a token to a started job at the exact revision |
| `FormalJobs.FormalJobStore.Recover` | tools/formal_job_receipts.py:167-184 | Takes the token from a running job at the exact revision |
| `FormalJobs.FormalJobStore.Finish` | tools/formal_job_receipts.py:200-233 | Only the exact token and revision end a running job, with its one receipt |
| `FormalJobs.FormalJobStore.Execute` | tools/formal_job_receipts.py:235-258 | The outcome becomes the one receipt iff nothing happened to the job while the runner worked; otherwise it is dropped and what the others did stands |
| `FormalJobs.FormalJobStore.ReceiptFor` | tools/formal_job_receipts.py:260-275 | Evidence only when completed, matching and of exit code zero |
| `FormalJobs.RunKeeps` | tools/formal_job_receipts.py:103-258 | In every run at most one active job per scope, one row per key, a receipt exactly on terminal rows |
| `FormalJobs.RevisionsRise` | tools/formal_job_receipts.py:103-258 | Revisions never fall, an equal revision means an unchanged row, terminal rows and receipts are final |
| `FormalJobs.RecoveredIsFenced` | tools/formal_job_receipts.py:167-233 | After a recovery no completion with an earlier token or revision is accepted in any continuation |
| `FormalJobs.FinishMeansUndisturbed` | tools/formal_job_receipts.py:235-258 | Whatever happens while the runner works, its completion is accepted iff its own job was not touched |
| `Envelopes.BoundTask.ReplaceBound` | tools/execution_envelope.py:289-367 | Binds an identified, narrower successor and appends the old identity, or changes nothing |
| `Envelopes.BoundTask.Replace` | tools/handoffctl.py:3419-3475 | The mutation around it: commits the replacement at the next task revision, or leaves the record as stored when it is refused or the history too long |
| `Envelopes.AnyClassWidens` | tools/execution_envelope.py:326-333 | The loop finds a widened class or timeout iff there is one |
| `Envelopes.AnyCapabilityWidens` | tools/execution_envelope.py:334-338 | The loop finds a switched-on capability iff there is one |
| `Envelopes.NarrowerIff` | tools/execution_envelope.py:323-340 | Narrower means smaller scopes, no class newly allowed, no timeout stated on both sides raised, no capability newly on, no non-goal dropped |
| `Envelopes.CommittedIff` | tools/execution_envelope.py:289-390 | A replacement commits iff the file is valid, for this task, spec and revision, next in line under fresh names, narrower, and the history of 16 has room |
| `Envelopes.CoversIff` | tools/execution_envelope.py:456-533 | A scope entry covers a path iff it names its root or its components are the first components of the path |
| `Envelopes.AdmittedIff` | tools/execution_envelope.py:456-633 | A command is admitted iff its class is allowed, it publishes with metadata and external just when the network is on, and each path lies in the scope of its kind |
| `Envelopes.SuccessorAdmitsLess` | tools/execution_envelope.py:456-633 | What a successor admits its predecessor admits, except exactly a publication without external authorization where the predecessor had the network |
| `Envelopes.ChainNarrows` | tools/execution_envelope.py:323-340 | Along any chain scopes and allowed classes shrink, non-goals grow, capabilities never switch on |
| `Envelopes.ChainAdmitsLess` | tools/execution_envelope.py:456-633 | The same admission statement between any two envelopes of a chain |
| `Envelopes.ReplacementsChain` | tools/execution_envelope.py:289-390 | Any run of calls binds a chain, one revision a step and at rising task revisions, and the history of at most 16 keeps what it had and names every step in order |
| `Envelopes.RunsAdmitLess` | tools/execution_envelope.py:289-633 | After any run of calls the bound envelope admits nothing that the first refused, with that one exception |
| `Envelopes.DroppedNetworkAdmits` | tools/execution_envelope.py:536-570 | The exception is real: with room in the history, a committed successor that only switches the network off |
| `Envelopes.BecomesAdmittedIff` | tools/execution_envelope.py:289-633 | Some run of calls makes a refused command admitted iff it is a publication without external effects, allowed but for the network, and the history of 16 has room |
| `Envelopes.TimeoutBoundedIff` | tools/execution_envelope.py:330-333 | Every committed successor keeps a timeout within a bound iff the bound envelope states one itself, the bound is the format's own or the history is full |
| `Envelopes.StatedTimeoutsShrink` | tools/execution_envelope.py:330-333 | Along a chain that states the timeout throughout it never rises |
| `Envelopes.RisenMeansLeftOut` | tools/execution_envelope.py:330-333 | Over any run of calls a timeout has risen only if some bound envelope in between left it out |
| `Envelopes.TimeoutsCanRise` | tools/execution_envelope.py:330-333 | With room for two, two committed replacements at rising task revisions raise a stated timeout to any higher value of the format; one alone is refused |
| `Envelopes.TimeoutRisesIff` | tools/execution_envelope.py:330-390 | A run of calls can raise a stated timeout to a higher value iff the format allows it and the history has room for two replacements |
| `Privacy.PrivateTextErrors` | tools/handoffctl.py:1331-1341 | For every text the prefiltered scan reports exactly what all patterns would, in order |
| `Privacy.PossibleUuid` | tools/handoffctl.py:1289-1305 | The hyphen scan ends and answers true iff the UUID shape occurs |
| `Privacy.Possible` | tools/handoffctl.py:1307-1328 | The literal prefilter of each label |
| `Privacy.PrefiltersAreNecessary` | tools/handoffctl.py:761-782 | No prefilter rejects a text in which its pattern is found |
| `Privacy.UuidHasShape` | tools/handoffctl.py:774-781 | Every match of the UUID pattern shows the shape at its first hyphen |

## Left out

- Digests are free constructors over the covered fields, so equal digests mean equal content by construction; canonical JSON is not modelled.
- Identifiers, object ids, timestamps as text, JSON shapes and regular-expression syntax of fields: opaque tokens, integer times and typed fields.
- Rows are listed in insertion order where the program sorts by creation time and row id.
- SQLite, file descriptors, locks, processes, sockets, Git and GitHub calls: replaced by atomic transactions, a commit log, an ancestor relation and observed heads given as arguments.
- A child process that outlives the service and commits after recovery has looked at the log.
- Verification of a commit's exact delta, projection, session row and sign-off: the one boolean `exact` of a commit.
- Rollback, reconcile and backend switching: they rewrite several fields or tasks at once.
- Gate, acceptance, retry-circuit, spec binding, change-drift and assumption commands inside the task lifecycle: one step that changes only fields no other transition reads.
- Dependency-graph and hierarchy validation inside the mutation path: those fields are not changed by the modelled transitions, so it belongs to `clean`.
- Claims.RunKeepsReady: is stated for Git, because SQLite mutations are not validated for claims, so there an update can make a task active without a claim.
- ReceiptWorker.Worker.ProcessOne: the world outside (the mutation's outcome, what can be read of Git) is an argument of the turn.
- Computing a delta from two observations, generated-path and scope classification: the delta's entries are an input.
- Porcelain.RoundTrip: the decoding of names to text is any injective function, since names that are not UTF-8 sort by surrogates; the path policy is any predicate.
- The derived fields of a status entry (generated, content digest).
- Observations: wake-ups may happen at any time and the wait's own timing is only the deadline; that a waiter is eventually served is not stated.
- A push whose command raises, and the time-out handler of the publisher's loop.
- Envelope file loading, symlink walks and path existence: `loaded` and `reachable` are inputs; command timeouts at run time are not modelled.
- Privacy.PrivateTextErrors: on text that is not ASCII every pattern runs, so the patterns' meaning there is any function.
- The text of scopes, non-goals and descriptions in an envelope file, and its outputs, evidence and stop conditions: only the counts that replacement compares are validated.
- Finite exploration models, board metrics, campaign, rendering, runbook generation and field-equality admission checks: they add no invariant.
