# Durable protocols of T.A.R.S.

T.A.R.S. runs tasks through agents that may die at any moment, and keeps what matters on disk: restores that
replace a whole installation, leases and cancellations shared by several processes, delegated work, approvals and a
journal of actions. This project models those protocols as state machines over their durable state and proves what
they are for, over every run; and it models the pure and in-place computations beside them (context pruning, epochs,
schema validation, JSON pointers) and proves what they compute.

`dafny verify dfyconfig.toml` checks everything.

## How it is built

- **Restore** (`RestoreDisk`, `RestoreSteps`, `RestoreEngine`). The disk is a map of directory entries to objects with
  identities, the transaction directories with their journals, and the marker. Every durable step meets its own
  weather: it works, fails before or after its effect, or power fails. `Promised` is the object recovery would leave
  under a destination if the machine stopped now; `Inv` is what every step keeps. A restore changes no promise until
  the committed journal is written, and then all of them at once.
- **Leases** (`PathNames`, `Ownership`, `Tasks`). What can be learnt about processes at a moment is a `Sight`: which
  are gone, and which can be examined. A lease passes on only when its owner and every fenced process are provably
  gone.
- **Control queue** (`CancellationState`, `ControlQueue`). Each method is one transaction with an exact effect; `Run`
  interleaves them with callbacks and deaths. The invariant ties open cancellations to leases, fences and the recovery
  phase.
- **Delegation** (`DelegationAuthority`, `DelegationLifecycle`, `DelegationService`). Contract, delegation row and
  child task, and the volatile runs that lead to one executor call. Each transaction of `start`, `cancel` and the run
  itself is a step of its own, so another process or a death may come between any two.
- **Context** (`Generation`, `Decimals`, `ContextWindow`, `ContextEpochs`). Pruning works in place on the selected
  history; `Kept(history, k)` is its functional meaning. The tokenizer may answer anything, or fail, at each call.
- **Tool arguments** (`JsonSchema`, `JsonKeywords`, `JsonPointer`). `Defined` is what the definition check accepts, `Sat` what a
  schema means, and `Overflows` when validation meets a number without a finite float. The validator, which swallows
  errors but not that one, decides `Sat` on accepted definitions unless it overflows. `JsonKeywords` says of each
  keyword alone which definitions of it are accepted and which values it lets through.
- **Actions** (`ActionJournal`). Approvals, journal entries and action leases.

Where a method and its specification share a test or an update, a lemma or a clause beside it says what that means in
terms of the rows themselves: `ReclaimedByProof`, `WritesPast`, `ResolvingLifts`, `VerdictByLease`, `PermitsByEffect`,
`FinishedTells`, `MatchesByScope`, `WithdrawnSpares`, `ConstMeans` and others.

## What is not as it may seem

- *Recovery can be refused for good.* Deleting a finished transaction directory is not one step. If its journal is
  deleted first and power fails before its staging tree is gone, recovery refuses from then on
  (src/tars/backup.py:565-567). `Recover` states that it refuses exactly then, and the destinations are uniform;
  `RecoveryLockedOut` shows it happen.
- *Rollback can leave a copy behind.* If death falls between the two renames of an item, the incoming object stays
  (src/tars/backup.py:662-678). `RollbackItem` says exactly when.
- *Recovering cancellations can fail as a whole.* Recording an ambiguous outcome passes the terminal-state guard of the
  task, so it raises on a task that already ended some other way (src/tars/control_queue.py:30-34), and the whole
  recovery transaction is undone. `RecoverCancellationsOf` succeeds exactly when there is no such row;
  `RecoveryLockedOut` of the control queue reaches one from the empty queue (`RecoveryCanFail`).
- *A refused workspace claim is not without effect.* Dead overlapping leases met before the first live one stay deleted
  (src/tars/ownership.py:172-187). `ClaimWorkspaceLease` says exactly which, for any order of the rows;
  `RefusalKeepsAll` says when a refusal changes nothing, and `RefusalDeletes` shows one that deletes.
- *A result written directly strands its contract.* `complete_delegation` never looks at the contract
  (src/tars/orchestration.py:294-346). Contract and records still agree, but the contract stays open for ever
  (`RowEvolves`, `CompletingKeeps`).
- *A huge integer is neither valid nor invalid.* Validation asks whether a number is finite by converting it to a
  float. From 2^1024 - 2^970 on that raises an overflow error (src/tars/mcp.py:401), and so does rounding an infinite
  quotient of `multipleOf` (src/tars/mcp.py:417). It is not one of the errors that alternatives swallow, so it ends the
  validation, under `not` as well. `ValidateArguments` says exactly when: `Overflows` follows the order of the checks,
  and `Finite` is a condition on value and schema alone that rules it out (`FiniteNeverOverflows`). A bound of that
  size in a schema makes the definition check raise in the same way, so such a schema is not accepted.
- *The first drop can make a context larger.* It brings the omission marker (src/tars/context.py:350-376). Dropping a
  message shrinks the candidate exactly if the marker was there already or the message takes more tokens than it
  (`DropChanges`); the first drop enlarges it exactly if the message has at most 153 characters (`FirstDropGrows`,
  with `ShortDropGrows` for an example). Termination rests on the number of messages.

## Model

| member | source | states |
|---|---|---|
| `RestoreEngine.Installation.Run` | src/tars/backup.py:716-750 | Any schedule of restores and recoveries, each with its own failures and power cuts between any two durable steps: every destination is promised exactly what the committed restores, each as a whole and in order, made of it; a restore that returned normally is committed; recovery is never refused if directories list the journal last |
| `RestoreEngine.Installation.Recover` | src/tars/backup.py:716-742 | Recovery keeps every promise, changes nothing when it refuses, refuses if and only if a transaction directory lost its journal but not its staging tree, never meets a changed identity or an orphaned marker, and ends with no transaction, no marker and every destination as promised |
| `RestoreEngine.Installation.RecoverOne` | src/tars/backup.py:719-737 | One transaction directory is refused, finalized, closed or rolled back by its journal; afterwards none is left |
| `RestoreEngine.Installation.RestoreBundle` | src/tars/backup.py:847-914 | All or nothing: every member of the bundle is promised an object of its kind, file or directory, with its new data exactly when the committed journal reached the disk, otherwise nothing changed; in calm weather it succeeds exactly for a genuine bundle whose index rebuilds |
| `RestoreEngine.Installation.RollbackItem` | src/tars/backup.py:657-689 | Undoing an item never hits an identity error and leaves the original object at the destination; the incoming copy is left behind exactly when the process died between the two renames |
| `RestoreEngine.Installation.PutBack` | src/tars/backup.py:662-674 | The branch that found the saved object: the destination is cleared of the new object and the original returns under its own identity |
| `RestoreEngine.Installation.UndoItems` | src/tars/backup.py:657-689 | The reverse loop settles every item, whatever state a crash left each one in |
| `RestoreEngine.Installation.Rollback` | src/tars/backup.py:653-696 | Rollback ends idle with the promises unchanged; cut short, the journal on disk still never says committed |
| `RestoreEngine.Installation.FinalizeItem` | src/tars/backup.py:702-710 | A committed item keeps its new object and loses the saved one and the leftover copy |
| `RestoreEngine.Installation.Finalize` | src/tars/backup.py:699-713 | Finalizing changes no promise, leaves no saved object and no copy, and ends idle |
| `RestoreEngine.Installation.Discard` | src/tars/backup.py:707-710 | Removing a leftover of a committed item never refuses and touches no destination |
| `RestoreEngine.Installation.DeleteTransaction` | src/tars/backup.py:695-696 | The directory goes piecewise; a cut between journal and staging tree, when the journal is listed first, loses the journal |
| `RestoreEngine.Installation.ClearMarker` | src/tars/backup.py:546-553 | The marker goes only if it belongs to the transaction, and it always does |
| `RestoreEngine.Installation.Close` | src/tars/backup.py:694-696 | Marker first, directory last: afterwards the disk is idle |
| `RestoreEngine.Installation.RemovePath` | src/tars/backup.py:483-492 | Absent paths are left alone, a changed identity is refused, a directory may be found half deleted |
| `RestoreEngine.Installation.Begin` | src/tars/backup.py:851-868 | Before the guarded region nothing promised changes, and the journal is durable before the marker |
| `RestoreEngine.Installation.Mark` | src/tars/backup.py:864-868 | The marker is raised over a durable journal |
| `RestoreEngine.Installation.BuildItems` | src/tars/backup.py:769-808 | Each item records the identity of the object it would replace, or that there was none |
| `RestoreEngine.Installation.Copy` | src/tars/backup.py:814-818 | The copy of a file is a file and of a directory a directory, complete, under an identity never used before; nothing else is disturbed |
| `RestoreEngine.Installation.PrepareItem` | src/tars/backup.py:812-819 | The identity of each copy is journaled before the next copy is made |
| `RestoreEngine.Installation.Prepare` | src/tars/backup.py:811-819 | After preparation every item is staged with its part's data and journaled identity |
| `RestoreEngine.Installation.ApplyItem` | src/tars/backup.py:828-843 | Two renames put the original aside and the copy in place; the identity checks never fail |
| `RestoreEngine.Installation.Apply` | src/tars/backup.py:822-844 | Afterwards every part is in place and still undoable |
| `RestoreEngine.Installation.Rebuild` | src/tars/backup.py:889-894 | The rebuilt index goes into the new database only |
| `RestoreEngine.Installation.Publish` | src/tars/backup.py:889-897 | Writing the committed journal is the one step that changes a promise, and it changes all of them together |
| `RestoreEngine.Installation.Stage` | src/tars/backup.py:877-887 | Everything up to the prepared journal leaves every promise alone |
| `RestoreEngine.Installation.Install` | src/tars/backup.py:888-897 | From prepared to committed: either all destinations are promised new data or none is |
| `RestoreEngine.Installation.Forward` | src/tars/backup.py:876-901 | The guarded region: an exception without a committed journal leaves a rollback that is always possible |
| `RestoreEngine.RecoveryLockedOut` | src/tars/backup.py:556-572 | From a fresh installation, for any bundle: power fails while the bundle is validated and again during the recovery between the deletions of journal and staging tree, and recovery refuses from then on |
| `RestoreDisk.UnmarkedIsUniform` | src/tars/backup.py:520-553 | Whenever the marker is absent, or the journal says committed, every destination already shows what recovery would leave: never a mixture |
| `RestoreDisk.SettledIsUniform` | src/tars/backup.py:691-696 | Once every item is settled the destinations are uniformly old |
| `RestoreDisk.EntriesStep` | src/tars/backup.py:653-713 | A step on the names of one item that keeps its own item recoverable keeps the whole disk recoverable and every promise |
| `RestoreSteps.CommitStep` | src/tars/backup.py:895-897 | The committed journal turns the promise of every part from the old object into the new data, and of nothing else |
| `RestoreSteps.MoveAsideStep` | src/tars/backup.py:833-838 | Renaming the original aside keeps it promised |
| `RestoreSteps.MoveInStep` | src/tars/backup.py:842 | Renaming the copy into place keeps the original promised |
| `RestoreSteps.PutBackStep` | src/tars/backup.py:674 | Renaming the saved object back settles the item |
| `RestoreSteps.UnmarkStep` | src/tars/backup.py:546-553 | Clearing the marker is safe in exactly the journal states in which the code does it |
| `RestoreSteps.RecordStep` | src/tars/backup.py:817-819 | Journaling a copy's identity keeps every item recoverable |
| `RestoreSteps.TracksStep` | src/tars/backup.py:895-897 | What the committed restores of a run promise, one more request extends by its own parts only |
| `Ownership.LeaseTable.Run` | src/tars/ownership.py:112-286 | Over any interleaving of claims, heartbeats, fences, releases and exits: a holder that is not gone and does not release still holds, whatever its expiry; so does one with a live process fenced on, unless it re-claims or unfences itself; overlapping workspaces have one owner |
| `Ownership.LeaseTable.ClaimInTransaction` | src/tars/ownership.py:112-157 | A claim succeeds if and only if the lease is free, the owner's own, or provably abandoned, and execution is not fenced; a success replaces the lease, fences included |
| `Ownership.LeaseTable.ClaimWorkspaceLease` | src/tars/ownership.py:168-191 | For any order of the queried rows: succeeds if and only if every overlapping lease of another owner is reclaimable; a refusal leaves the old rows without exactly the reclaimable blockers before the first live one |
| `Ownership.RefusalKeepsAll` | src/tars/ownership.py:172-187 | A refused claim is without effect if and only if the first blocker the query lists is live |
| `Ownership.RefusalDeletes` | src/tars/ownership.py:172-187 | From an empty table: of two disjoint directories below the claimed one, the dead owner's lease is deleted by a claim the live owner's lease refuses |
| `Ownership.LeaseTable.UpdateFence` | src/tars/ownership.py:207-257 | Unstable identities are rejected; otherwise removals and duplicates are dropped and everything else kept in order |
| `Ownership.LeaseTable.ReleaseLease` | src/tars/ownership.py:273-286 | Released if and only if held by the owner with no fenced process possibly alive |
| `Ownership.HonoursExtend` | src/tars/ownership.py:102-157 | What every step honours, a whole run honours |
| `Ownership.ReclaimedByProof` | src/tars/ownership.py:68-104 | A lease is reclaimable exactly if its holder and every process fenced onto it have a known start, were examined and were found gone |
| `Ownership.FencedByProof` | src/tars/ownership.py:86-99 | Fenced processes stop holding a lease exactly if each of them is proved gone; a malformed entry holds it for good |
| `Ownership.ClaimedDespiteExpiry` | src/tars/ownership.py:120-139 | Only a lease of somebody not proved gone, the fence or the recovery phase stand in the way of a claim; the expiry never does |
| `Ownership.ClaimHolds` | src/tars/ownership.py:107-109 | A lease just taken is held under its token for the time asked for, and for a second at least |
| `Tasks.WritesPast` | src/tars/tasks.py:184-207 | A task row is written exactly if no executor may be alive or the live one writes under its unexpired lease, and a row that ended is not changed |
| `Tasks.RecoversFailed` | src/tars/tasks.py:308-330 | Exactly a failed task is recovered, unless its cancellation was ambiguous or an executor may be alive |
| `Ownership.RetainedConcat` | src/tars/ownership.py:232-242 | Removal goes entry by entry and keeps order and repetition |
| `Ownership.AdditionsConcat` | src/tars/ownership.py:243-250 | New processes are appended in order, each judged against the retained fence alone |
| `Ownership.WorkspaceHonours` | src/tars/ownership.py:168-191 | A workspace claim, granted or refused, takes nothing from an owner that may be alive |
| `Ownership.DistinctOwnersDistinctTrees` | src/tars/ownership.py:168-191 | Two owners never hold the same resolved directory, nor one inside the other |
| `PathNames.OverlapIsAncestry` | src/tars/ownership.py:174-180 | The string overlap test equals component-wise ancestry on resolved absolute paths, the root included |
| `PathNames.UnderIsAncestry` | src/tars/delegation.py:116-118 | The string containment test equals component-wise ancestry on resolved paths |
| `PathNames.UnderTransitive` | src/tars/delegation.py:116-118 | Containment by string prefix is transitive, for any strings |
| `PathNames.JoinedInjective` | src/tars/delegation.py:112-118 | Different resolved paths have different names |
| `ControlQueueModel.ControlQueue.Run` | src/tars/control_queue.py:91-769 | Over any interleaving of all transactions, callbacks and deaths the invariant holds (one open cancellation per task and operation, open ones pending, leased and fenced), cancellations only move forward, and no callback runs twice |
| `ControlQueueModel.ControlQueue.EnqueueControl` | src/tars/control_queue.py:91-188 | Succeeds if and only if the task exists, cancellation data fits the kind and a new intent can be leased and fenced; a duplicate of an operation is settled at once; failure changes nothing |
| `ControlQueueModel.ControlQueue.OwnIntent` | src/tars/control_queue.py:155-178 | Lease and fence of a new intent are taken together or not at all |
| `ControlQueueModel.ControlQueue.NextSeqNo` | src/tars/control_queue.py:127-129 | The next sequence number is one more than the task's largest |
| `ControlQueueModel.ControlQueue.BeginCancellation` | src/tars/control_queue.py:232-269 | Only a pending, non-destructive intent whose lease can be had begins, exactly once, and it launches one worker |
| `ControlQueueModel.ControlQueue.CallBack` | src/tars/agent_loop.py:403-432 | A launched worker calls back at most once, after its attempt began |
| `ControlQueueModel.ControlQueue.ReleaseFence` | src/tars/control_queue.py:46-66 | The fence goes exactly if no cancellation of the task is open and, under a token, it carries that token; no other lease changes |
| `ControlQueueModel.ControlQueue.ResolveUnattemptedCancellation` | src/tars/control_queue.py:272-320 | Resolves exactly an intent whose unexpired lease the caller holds; its lease goes, and the fence of its task exactly if nothing else of the task is open and the caller raised it |
| `ControlQueueModel.ControlQueue.MakeAmbiguous` | src/tars/control_queue.py:19-43 | Marks the attempt ambiguous, drops its lease and fence and fails the task into the recovery phase |
| `ControlQueueModel.ControlQueue.ReconcileCancellation` | src/tars/control_queue.py:323-391 | Settles exactly an attempt under the caller's unexpired lease; a resolved one lifts the fence of its task exactly if nothing else is open and the caller raised it, an ambiguous one always does; an ambiguous outcome is refused on a task that ended otherwise |
| `ControlQueueModel.ControlQueue.AbandonCancellation` | src/tars/control_queue.py:394-452 | Shutdown makes the caller's own attempt ambiguous and is idempotent afterwards |
| `ControlQueueModel.ControlQueue.RecoverRow` | src/tars/control_queue.py:494-587 | Live owners are left alone, lost intents resolved, lost attempts made ambiguous; no attempt is ever started |
| `ControlQueueModel.ControlQueue.RecoverCancellationsOf` | src/tars/control_queue.py:478-587 | Recovery does to every open cancellation what its own lease calls for, independent of order; it drops exactly the leases of the settled ones, the fence with a lost outcome or once nothing is open, fails the task exactly with a lost outcome, counts what it settled, and fails as a whole exactly when an outcome is lost on a task that ended some other way |
| `ControlQueueModel.ControlQueue.ClaimNextControl` | src/tars/control_queue.py:631-663 | Takes exactly the first pending control by priority and number, unless its cancellation is still open |
| `ControlQueueModel.ControlQueue.FinishControl` | src/tars/control_queue.py:666-716 | Finishes exactly a processing, settled control under the caller's unexpired lease |
| `ControlQueueModel.ControlQueue.RecoverProcessingOf` | src/tars/control_queue.py:743-769 | Puts back and counts exactly the controls whose lease can be taken over: none left, the recoverer's own, or its holder provably gone |
| `ControlQueueModel.ControlQueue.ClaimExecutionOf` | src/tars/ownership.py:120-157 | An execution claim succeeds exactly if the task is not fenced, not to be recovered, and not held by anybody who may be alive; and then the task has no open cancellation |
| `CancellationState.OpenCancellationBlocksExecution` | src/tars/ownership.py:120-130 | While a cancellation of the task is open no execution claim succeeds, not even the current owner's |
| `CancellationState.CallbackAtMostOnce` | src/tars/agent_loop.py:363-432 | In every consistent state a callback ran at most once, never before its attempt began |
| `CancellationState.AmbiguousKeeps` | src/tars/control_queue.py:379-390 | One operation turning ambiguous removes the shared fence, and the recovery phase keeps the task closed to the others |
| `CancellationState.ResolvedKeeps` | src/tars/control_queue.py:303-319 | Resolving one cancellation keeps the fence of every other open one |
| `CancellationState.AttemptKeeps` | src/tars/control_queue.py:232-269 | Beginning an attempt keeps the invariant |
| `CancellationState.EnqueuedKeeps` | src/tars/control_queue.py:104-178 | Enqueueing keeps one open cancellation per task and operation |
| `CancellationState.RowKeeps` | src/tars/control_queue.py:494-587 | Recovering one row keeps the invariant |
| `CancellationState.RowsStep` | src/tars/control_queue.py:494-587 | Each visited row changes its own lease, the fence and the task as its verdict says, and nothing else |
| `CancellationState.ResolvedFence` | src/tars/control_queue.py:46-66 | Resolving one releases the fence exactly when it was the last and none was skipped |
| `CancellationState.ResolvingLifts` | src/tars/control_queue.py:46-66 | Resolving under a token lifts the fence of the task exactly if nothing else of the task is open and the fence carries the token, and no other |
| `CancellationState.VerdictByLease` | src/tars/control_queue.py:494-560 | What recovery does, by the state of the cancellation and by what is known of the process that holds its lease |
| `CancellationState.OwnedTogether` | src/tars/control_queue.py:155-178 | A new intent is owned unless its lease or the fence belongs to somebody not proved gone, or the fence carries another token |
| `CancellationState.FailsUnlessEnded` | src/tars/control_queue.py:30-37 | An ambiguous outcome can be recorded exactly on a task that has not ended, or that ended just so |
| `CancellationState.UrgentFirst` | src/tars/control_queue.py:13-14 | Cancel before interrupt and pause, then approval, then redirect and resume, then messages |
| `ControlQueueModel.CancelsComeFirst` | src/tars/control_queue.py:631-640 | While a cancel is pending nothing but a cancel is taken, and a message only when nothing else is pending; equals go by number |
| `ControlQueueModel.TakenOnceSettled` | src/tars/control_queue.py:641-650 | In every consistent state only an open cancellation holds its control back |
| `ControlQueueModel.PutBackByLease` | src/tars/control_queue.py:743-769 | A control in process is put back exactly if nobody else who may be alive leases it |
| `CancellationState.RecoveryCanFail` | src/tars/control_queue.py:30-34 | Where the task completed while an attempt was open and the owner of the attempt is gone, recovery fails as a whole for everyone at any time |
| `ControlQueueModel.RecoveryLockedOut` | src/tars/control_queue.py:30-34 | From the empty queue, by creating a task, enqueueing and beginning a cancellation, completing the task and the death of the process: recovery then fails, whoever attempts it and whenever |
| `CancellationState.LaunchWithin` | src/tars/agent_loop.py:363-383 | A new attempt has room for exactly one worker |
| `CancellationState.EvolvesTransitive` | src/tars/control_queue.py:232-587 | Forward movement of cancellations composes over runs |
| `DelegationAuthority.AncestorsPermit` | src/tars/delegation.py:132-157 | Along a chain of any depth, whatever a descendant may do every ancestor may, and its budget is no larger |
| `DelegationAuthority.PermittedPathIsInside` | src/tars/delegation.py:142-152 | A permitted file action stays inside a granted directory, component by component |
| `DelegationAuthority.BelowPermits` | src/tars/delegation.py:132-157 | A scope under another permits no more |
| `DelegationAuthority.BelowTransitive` | src/tars/delegation.py:132-139 | Narrowing composes |
| `DelegationAuthority.PermitsByEffect` | src/tars/delegation.py:142-157 | A listed tool and effect need, beside that, a path under a granted one for a file effect, a listed target for the network and for remotes, and nothing for other effects |
| `DelegationAuthority.NarrowerByParts` | src/tars/delegation.py:132-139 | A scope is narrower exactly if its tools, paths, effects, network targets, remote targets and secrets each are |
| `DelegationAuthority.ExceedsByParts` | src/tars/delegation.py:215-219 | A budget is exceeded exactly by exceeding one of its three parts |
| `DelegationAuthority.RootUnderPaths` | src/tars/delegation.py:220-228 | A workspace is usable exactly if its policy is known and its root, if any, lies under one of the child's own paths |
| `DelegationAuthority.Granting` | src/tars/delegation.py:205-232 | A contract is granted exactly if authority, budget and workspace fit; each refusal has its exact reason, and what is granted is what was asked for, the workspace root included |
| `DelegationAuthority.NormalBudget` | src/tars/delegation.py:207-213 | Every budget is at least one second, one iteration, one token; a part asked for within that is granted as asked, an absent one takes its default |
| `DelegationLifecycle.AuthorityNarrows` | src/tars/delegation.py:142-157 | In every reachable book the ceiling narrows along every chain of contracts |
| `DelegationServiceModel.DelegationService.Run` | src/tars/delegation.py:249-691 | Over any interleaving of transactions, executor calls and deaths: contract, row and child task agree, authority narrows, each executor is called at most once and a started one is not replayed, a result is written once, a terminal contract changes only by judgement |
| `DelegationServiceModel.DelegationService.CreateDelegation` | src/tars/delegation.py:181-246 | A child contract is created exactly if the parent task is open and the request fits its parent contract's ceiling, or an explicit one at a root; a refusal changes nothing |
| `DelegationServiceModel.DelegationService.StartDelegation` | src/tars/delegation.py:432-480 | Schedules a run exactly for a created or scheduled contract without a live executor; a contract whose run was lost is failed and given no run |
| `DelegationServiceModel.DelegationService.FinishExecution` | src/tars/delegation.py:274-335 | Ends the execution in all three tables or in none, exactly when the caller owns it, nothing was recorded before and the child's own end does not contradict it |
| `DelegationServiceModel.DelegationService.ClaimChild` | src/tars/delegation.py:506-514 | A conflict on the child task ends the run before it begins |
| `DelegationServiceModel.DelegationService.BeginRun` | src/tars/delegation.py:249-271 | The running transition needs a scheduled contract under the run's own unexpired lease |
| `DelegationServiceModel.DelegationService.StartChild` | src/tars/delegation.py:531-533 | The child is marked running under the task guard, or the run ends uncalled |
| `DelegationServiceModel.DelegationService.DeliverResult` | src/tars/delegation.py:550-565 | A returned run ends timed out before cancelled before failed for want of a summary, and completed otherwise, and each ending reads so in contract, delegation row, child task and recorded status; it is recorded under the finishing guard |
| `DelegationServiceModel.DelegationService.CompleteDelegation` | src/tars/orchestration.py:294-346 | Writes a result once, past any contract |
| `DelegationServiceModel.DelegationService.JudgeResult` | src/tars/delegation.py:667-691 | Completed work is accepted exactly if all its evidence is the child's own, of every required type, and a required summary is there |
| `DelegationLifecycle.FinishedKeeps` | src/tars/delegation.py:274-335 | Finishing keeps the three records in agreement and never finishes twice |
| `DelegationLifecycle.FinishedAgrees` | src/tars/delegation.py:278-281 | The ending written to contract, row and child task is one and the same |
| `DelegationLifecycle.FinishesWhen` | src/tars/delegation.py:281-322 | An execution is recorded as over exactly under the caller's unexpired lease, on an open contract that was scheduled, with nothing recorded before, and not against the child's own end or its live executor |
| `DelegationLifecycle.FinishedTells` | src/tars/delegation.py:278-330 | Each of the four endings reads as one story in contract, row, child task and phase; the lease goes and no other delegation changes |
| `DelegationLifecycle.CompletingKeeps` | src/tars/orchestration.py:294-346 | A result recorded past an open contract keeps the records in agreement, and that contract stays open for good |
| `DelegationLifecycle.BeginsOnce` | src/tars/delegation.py:528-530 | A contract that was not started has no run near its executor, so the beginning run is alone |
| `DelegationLifecycle.InvokesOnce` | src/tars/delegation.py:545-549 | Calling the executor leaves no other run that could |
| `DelegationLifecycle.DelegatedKeeps` | src/tars/orchestration.py:189-233 | A new delegation disturbs no other |
| `DelegationLifecycle.EvolvesTransitive` | src/tars/delegation.py:249-335 | Forward movement of contracts, rows and tasks composes over runs |
| `DelegationServiceModel.JudgedKeeps` | src/tars/delegation.py:667-691 | An accepted contract's evidence stays in place |
| `DelegationServiceModel.StaleKeeps` | src/tars/delegation.py:464-481 | Starting a contract whose run was lost keeps the three records in agreement and replays nothing |
| `DelegationServiceModel.LostRunFails` | src/tars/delegation.py:464-481 | A lost run fails its contract, row and child together, exactly if this process lives to record it, nothing was recorded before and the child does not contradict it or have another live executor; otherwise only the lease changes |
| `ContextWindow.Build` | src/tars/context.py:300-458 | What is kept is a cut of the history at one point around protected messages, and the whole history if it fits; each pass of pruning starts from a candidate that is too large; prefix and suffix are intact and the marker says how many were omitted; input, generation limit and safety margin fit the window; the limit is the requested output or all that remains, at least the reserve; the ceiling never fails; a refusal has a counted excess and comes only with nothing left to drop, after twelve attempts, or on the estimate after a tokenizer failure |
| `ContextWindow.Select` | src/tars/context.py:378-414 | The newest message is kept, the count is the tokenizer's about these very messages or the estimate of them, a truncated transcript opens with no orphan, and an excess remains only when pruning was exhausted |
| `ContextWindow.Selection.DropOldest` | src/tars/context.py:367-376 | Drops the oldest unprotected messages, never the newest, and fewer than asked only when nothing else can go |
| `ContextWindow.Selection.Normalize` | src/tars/context.py:221-228 | Exactly orphaned turns leave the front, the candidate does not grow, and a whole or minimal selection is untouched |
| `ContextWindow.Selection.PrePrune` | src/tars/context.py:378-383 | Ends under the target or with nothing left to drop; every pass starts above the target and drops an eighth of the messages, at least one, so a selection under the target is left alone |
| `ContextWindow.Selection.Tighten` | src/tars/context.py:391-414 | Ends within the usable input, with nothing left to drop, after twelve attempts, or on the estimate if the tokenizer fails; every pass starts from a count above the usable input and drops what covers the excess |
| `ContextWindow.Selection.DropFor` | src/tars/context.py:400-402 | The drop is the least that covers the overflow at the average estimate of a message, at least one and never all |
| `ContextWindow.KeptHolds` | src/tars/context.py:367-376 | A message survives a cut exactly if it is protected or not older than the cut |
| `ContextWindow.CutMoves` | src/tars/context.py:367-376 | Deleting the first unprotected survivor is a later cut of the same history |
| `ContextWindow.CutStaysShort` | src/tars/context.py:367-376 | As long as a message follows, the cut stays short of the newest |
| `ContextWindow.LastCut` | src/tars/context.py:378-383 | When only protected messages precede the newest, the cut is the last one |
| `ContextWindow.DropChanges` | src/tars/context.py:350-376 | Dropping any message, wherever it stands, makes the candidate smaller if and only if the marker was there already or the message takes more tokens than the first marker; the first drop changes the estimate by exactly the difference of the two |
| `ContextWindow.FirstDropGrows` | src/tars/context.py:350-376 | The first drop makes the candidate larger if and only if the dropped message has at most 153 characters |
| `ContextWindow.ShortDropGrows` | src/tars/context.py:350-376 | Two short messages: the candidate without the older one is larger than with it |
| `ContextWindow.EstimateText` | src/tars/context.py:99-102 | The floor of the shifted quotient is the third of the length rounded up |
| `ContextWindow.EstimateMessages` | src/tars/context.py:105-111 | The accumulated estimate is the sum over the messages |
| `ContextWindow.EstimateGrows` | src/tars/context.py:105-111 | Each message costs a third of its characters, rounded up, and 8; a list costs 16 by itself |
| `ContextWindow.FittingStays` | src/tars/context.py:378-406 | A history within the target, and within the usable input by the tokenizer if it is asked and answers, is not pruned at all |
| `Decimals.ReadsBack` | src/tars/context.py:350-365 | The number in the omission marker reads back as the number omitted |
| `Generation.GenerationBudget` | src/tars/generation.py:28-49 | A plan exists exactly for a positive reserve that leaves room for input, and its parts add up to the window |
| `Generation.CeilingAllots` | src/tars/generation.py:52-58 | An input within the usable part always leaves the full requested output, or at least the reserve; computed and stored limits agree |
| `ContextEpochs.Conversation.Run` | src/tars/context_epochs.py:37-105 | Over any messages and rollovers every message that entered the context is still there or in exactly one archive, pinned ones stay, and epochs cover strictly increasing ranges |
| `ContextEpochs.Conversation.Rollover` | src/tars/context_epochs.py:37-105 | Archives exactly what is older than the newest user message and not pinned, in order, and fails exactly if there is nothing of that kind |
| `ContextEpochs.Conversation.Sort` | src/tars/context_epochs.py:59-75 | The loop sorts the context into the archive and the unresolved work carried over |
| `ContextEpochs.Conversation.LatestUser` | src/tars/context_epochs.py:55 | The newest user message in context, or none |
| `ContextEpochs.Conversation.AddMessage` | src/tars/conversation.py:129-155 | A message gets the next number and enters the context if asked to |
| `ContextEpochs.Conversation.Advance` | src/tars/context_epochs.py:77-98 | Withdrawal from context, epoch record and epoch number change together |
| `ContextEpochs.ArchivedOnce` | src/tars/context_epochs.py:59-98 | A rollover puts each message it removes into exactly one archive and no message it keeps into any |
| `ContextEpochs.RolloverIsCut` | src/tars/context.py:185-203 | The history a context build receives after a rollover is the earlier one cut at the newest user message around the pinned messages |
| `ContextEpochs.IncreasesOnce` | src/tars/context_epochs.py:90-98 | The new epoch begins after every earlier one ended and ends before the newest user message |
| `ContextEpochs.ArchiveHolds` | src/tars/context_epochs.py:59-75 | The archive holds exactly the archivable messages |
| `ContextEpochs.ArchiveAscends` | src/tars/context_epochs.py:59-75 | The archive is in order and lists nothing twice |
| `ContextEpochs.WithdrawnSpares` | src/tars/context_epochs.py:61-75 | A rollover withdraws from the context exactly what is older than the newest user message, no control and no unresolved tool turn, and changes nothing else |
| `ContextEpochs.ArchivedWhole` | src/tars/context_epochs.py:65-75 | An archived message keeps its number, role, content, kind and flag |
| `ContextEpochs.CarriedHolds` | src/tars/context_epochs.py:67-69 | The unresolved work carried over is exactly the controls and tool turns that stay |
| `ContextEpochs.CarriedAscends` | src/tars/context_epochs.py:67-69 | It is in order and lists nothing twice |
| `ContextEpochs.PreservedTransitive` | src/tars/context_epochs.py:84-88 | Leaving the context is final, and composes |
| `JsonSchema.ValidateArguments` | src/tars/mcp.py:292-418 | On an accepted definition the validator passes exactly the values that satisfy the schema, unless it meets a number without a finite float first; its errors are never malformed-schema or depth errors |
| `JsonSchema.ValidateDefinition` | src/tars/mcp.py:216-289 | Accepts exactly the well-formed schemas within the depth limit whose bounds have finite floats |
| `JsonSchema.FiniteNeverOverflows` | src/tars/mcp.py:400-418 | If every integer of the value fits a double and every quotient is finite, validation decides exactly what the schema means |
| `JsonSchema.IntegerOverflows` | src/tars/mcp.py:400-402 | Every integer satisfies the integer schema, and validation overflows exactly from 2^1024 - 2^970 on |
| `JsonSchema.TenTo309Overflows` | src/tars/mcp.py:400-402 | 10 to the 309th and the limit itself overflow, the integer below the limit does not |
| `JsonSchema.DefinedParts` | src/tars/mcp.py:263-264 | An accepted object schema sits above the last level, and all its parts are accepted one level down |
| `JsonSchema.CheckAlternatives` | src/tars/mcp.py:323-341 | Counting swallowed errors answers allOf, anyOf and oneOf; an overflow is not swallowed |
| `JsonSchema.AlternativesDecide` | src/tars/mcp.py:323-341 | The number of satisfied alternatives decides all three combinators |
| `JsonSchema.CountMatches` | src/tars/mcp.py:329-335 | The counter is the number of alternatives the value satisfies, unless one of them overflows |
| `JsonSchema.TruesDecide` | src/tars/mcp.py:336-341 | The count tells all, some and exactly one |
| `JsonSchema.CheckNot` | src/tars/mcp.py:342-348 | A swallowed error of the forbidden schema means that the value does not match it, if that schema was accepted; an overflow is not swallowed |
| `JsonSchema.CheckObject` | src/tars/mcp.py:349-373 | Required members, counts, properties and additional properties |
| `JsonSchema.MembersDecide` | src/tars/mcp.py:365-373 | The first member that does not pass decides about an object that has what is required |
| `JsonSchema.CheckMember` | src/tars/mcp.py:365-373 | Each member is checked against its own property schema, or the additional one |
| `JsonSchema.CheckArray` | src/tars/mcp.py:374-386 | Counts, distinctness and items |
| `JsonSchema.ItemsDecide` | src/tars/mcp.py:384-386 | The first item that does not pass decides about an array with what is required |
| `JsonSchema.CheckString` | src/tars/mcp.py:387-399 | Lengths and pattern in turn |
| `JsonSchema.CheckNumber` | src/tars/mcp.py:400-418 | Finiteness, the four bounds and the quotient in turn; without a finite float there is an overflow |
| `JsonSchema.CheckParts` | src/tars/mcp.py:349-418 | What remains once type, choices and combinators are satisfied |
| `JsonSchema.CheckLogic` | src/tars/mcp.py:323-348 | All combinators together |
| `JsonSchema.CheckType` | src/tars/mcp.py:308-316 | The value has one of the listed types |
| `JsonSchema.CheckChoice` | src/tars/mcp.py:317-322 | The value is one of the enumeration and equals the constant, by type and value |
| `JsonSchema.ValidateAlternatives` | src/tars/mcp.py:239-247 | A combinator needs a non-empty list of accepted schemas |
| `JsonSchema.ValidateLogic` | src/tars/mcp.py:239-249 | The four combinators of a definition are well formed |
| `JsonSchema.CheckItem` | src/tars/mcp.py:384-386 | Each item is checked against the items schema, or accepted without one |
| `JsonSchema.ValidateChildren` | src/tars/mcp.py:250-264 | Properties, additional properties and items are accepted one level down |
| `JsonKeywords.ScalarsEqual` | src/tars/mcp.py:200-201 | Scalars are equal exactly if they are the same value of the same type |
| `JsonKeywords.PartsEqual` | src/tars/mcp.py:200-201 | Containers are equal exactly if they have the same shape and loosely equal parts, key order aside |
| `JsonKeywords.LooseScalars` | src/tars/mcp.py:200-201 | Inside a container a boolean counts as 0 or 1 and an integer as a real |
| `JsonKeywords.EqualityIsEquivalence` | src/tars/mcp.py:200-201 | The equality of enumerations and constants is reflexive, symmetric and transitive |
| `JsonKeywords.TextParts` | src/tars/mcp.py:380-383 | The equality of uniqueItems is exact at any depth, key order aside |
| `JsonKeywords.TypeNames` | src/tars/mcp.py:204-213 | Every value has one type, an integer two, and a boolean is no number |
| `JsonKeywords.TypesMean` | src/tars/mcp.py:308-316 | A list of types lets through exactly the values of any of them |
| `JsonKeywords.ConstMeans` | src/tars/mcp.py:321-322 | A constant lets through exactly its equals; a scalar one, itself alone |
| `JsonKeywords.EnumMeans` | src/tars/mcp.py:317-320 | An enumeration lets through exactly the equals of its choices; of scalars, the listed ones alone |
| `JsonKeywords.LowerMeans` | src/tars/mcp.py:403-411 | The two lower bounds, inclusive and exclusive; other values are free |
| `JsonKeywords.UpperMeans` | src/tars/mcp.py:403-411 | The two upper bounds, inclusive and exclusive; other values are free |
| `JsonKeywords.MultipleMeans` | src/tars/mcp.py:412-418 | A divisor lets through exactly the numbers with a whole quotient |
| `JsonKeywords.MinLengthMeans` | src/tars/mcp.py:387-389 | A least length constrains strings alone |
| `JsonKeywords.MaxLengthMeans` | src/tars/mcp.py:390-392 | A greatest length constrains strings alone |
| `JsonKeywords.PatternMeans` | src/tars/mcp.py:393-399 | A pattern constrains strings alone, to those in which it is found |
| `JsonKeywords.MemberCountsMean` | src/tars/mcp.py:361-365 | The two member counts constrain objects alone |
| `JsonKeywords.ItemCountsMean` | src/tars/mcp.py:374-379 | The two item counts constrain arrays alone |
| `JsonKeywords.RequiredMeans` | src/tars/mcp.py:358-360 | Exactly the listed members must be there |
| `JsonKeywords.UniqueMeans` | src/tars/mcp.py:380-383 | No two items have the same text, if that is asked |
| `JsonKeywords.ItemsMean` | src/tars/mcp.py:384-386 | Every item of an array satisfies the items schema |
| `JsonKeywords.PropertiesMean` | src/tars/mcp.py:365-373 | Every named member satisfies its schema, the others are free |
| `JsonKeywords.AdditionalMeans` | src/tars/mcp.py:365-373 | Without named members the additional schema holds for all of them |
| `JsonKeywords.ClosedMeans` | src/tars/mcp.py:365-373 | The additional schema holds for just the members that are not named |
| `JsonKeywords.CombinatorsMean` | src/tars/mcp.py:323-341 | allOf, anyOf and oneOf mean all, some and exactly one |
| `JsonKeywords.NotMeans` | src/tars/mcp.py:342-348 | A forbidden schema lets through exactly what does not satisfy it |
| `JsonKeywords.MultipleOverflows` | src/tars/mcp.py:400-418 | A number overflows by itself or by an infinite quotient |
| `JsonKeywords.ItemsOverflow` | src/tars/mcp.py:384-386 | An array overflows exactly with its first item that does not pass |
| `JsonKeywords.CombinatorOverflowsAlone` | src/tars/mcp.py:327-341 | An overflow of any alternative overflows the combinator |
| `JsonKeywords.NotOverflows` | src/tars/mcp.py:342-348 | An overflow of the forbidden schema is an overflow, not a mismatch |
| `JsonKeywords.CountAccepted` | src/tars/mcp.py:265-270 | Counts are accepted exactly if they are integers from 0 on |
| `JsonKeywords.BoundAccepted` | src/tars/mcp.py:280-284 | Bounds are accepted exactly if they are numbers with a finite float |
| `JsonKeywords.MultipleAccepted` | src/tars/mcp.py:285-289 | A divisor is accepted exactly if it is positive with a finite float |
| `JsonKeywords.TypeAccepted` | src/tars/mcp.py:230-236 | A type is accepted exactly if it is a known name or a non-empty list of them |
| `JsonKeywords.ChoiceAccepted` | src/tars/mcp.py:237-238 | An enumeration is a list; a constant may be anything |
| `JsonKeywords.RequiredAccepted` | src/tars/mcp.py:250-255 | Required members are a list of names |
| `JsonKeywords.PatternAccepted` | src/tars/mcp.py:273-279 | A pattern is accepted exactly if it compiles |
| `JsonKeywords.UnsupportedRefused` | src/tars/mcp.py:223-229 | An unknown keyword refuses the schema |
| `JsonKeywords.ItemsAccepted` | src/tars/mcp.py:263-264 | An items schema is accepted one level down |
| `JsonKeywords.AdditionalAccepted` | src/tars/mcp.py:256-262 | An additional schema is a boolean or an object schema accepted one level down |
| `JsonKeywords.PropertiesAccepted` | src/tars/mcp.py:250-259 | Every property schema is accepted one level down |
| `JsonKeywords.CombinatorAccepted` | src/tars/mcp.py:239-247 | A combinator is a non-empty list of schemas accepted one level down |
| `JsonKeywords.NotAccepted` | src/tars/mcp.py:248-249 | A forbidden schema is accepted one level down |
| `JsonKeywords.DeepestSchema` | src/tars/mcp.py:216-219 | Schemas nest 64 deep, object schemas 63 |
| `JsonPointer.PointerWalks` | src/tars/mcp.py:167-185 | Writing a path of keys and indices as a pointer and resolving it walks exactly that path, and finds nothing exactly where the path leads nowhere |
| `JsonPointer.EscapeReturns` | src/tars/mcp.py:949 | Escaping and unescaping undo each other, for every key |
| `JsonPointer.EscapedIsToken` | src/tars/mcp.py:949 | An escaped key holds no separator and no invalid escape |
| `JsonPointer.TokenIsEscaped` | src/tars/mcp.py:172-174 | Every well-formed token is the escaped form of the key it unescapes to |
| `JsonPointer.EscapesByCharacter` | src/tars/mcp.py:949 | A tilde becomes ~0, a slash ~1, and every other character stays |
| `JsonPointer.PointerInjective` | src/tars/mcp.py:949-950 | Different paths of keys have different pointers |
| `JsonPointer.Resolve` | src/tars/mcp.py:167-185 | Resolving follows the tokens one by one, or fails |
| `JsonPointer.BadEscapeFails` | src/tars/mcp.py:172-173 | A tilde that escapes nothing fails the whole pointer, whatever the value is |
| `JsonPointer.FollowsKey` | src/tars/mcp.py:174-184 | A token leads where its key leads: to a member, to the item of that index, or nowhere |
| `JsonPointer.SplitJoined` | src/tars/mcp.py:171 | Splitting undoes joining |
| `JsonPointer.TokenReturns` | src/tars/mcp.py:172-174 | Each token is valid and unescapes to its key or index |
| `ActionJournalModel.ActionJournal.Run` | src/tars/action_journal.py:54-224 | Over any interleaving: a one-call approval backs at most one action, approvals never move back, each action ends once, an action is leased exactly while it runs, and every permitted action is backed by policy or by an approval granted for it |
| `ActionJournalModel.ActionJournal.EnterAction` | src/tars/action_journal.py:70-117 | A running entry, its lease and the spending of its approval happen together, exactly if the approval is not spent yet; the lease can always be had |
| `ActionJournalModel.ActionJournal.AuthorizeAction` | src/tars/action_journal.py:54-67 | Allowed by policy or by an approved matching approval, otherwise journaled as denied |
| `ActionJournalModel.ActionJournal.FinishAction` | src/tars/action_journal.py:120-156 | Only the process holding the action's unexpired lease ends it, once |
| `ActionJournalModel.ActionJournal.RecoverInterrupted` | src/tars/action_journal.py:194-224 | Marks exactly the running actions whose lease can be taken over, its holder provably gone or the recoverer itself, as unknown, and counts them |
| `ActionJournalModel.ActionJournal.DecideApproval` | src/tars/approvals.py:78-120 | Only a pending approval is decided, and by a named task or session only its own |
| `ActionJournalModel.ActionJournal.ConsumeApproval` | src/tars/approvals.py:122-141 | A matching approval authorises, and a one-call approval is spent by it |
| `ActionJournalModel.ActionJournal.Expire` | src/tars/approvals.py:205-211 | Exactly the overdue pending and approved approvals expire |
| `ActionJournalModel.EnteredKeeps` | src/tars/action_journal.py:74-85 | The approval spent for a new action was not used by any other |
| `ActionJournalModel.EnteredSpends` | src/tars/action_journal.py:70-117 | Entering journals just what was authorised, leases it for a day and spends exactly its own one-call approval; it fails exactly if that one is spent |
| `ActionJournalModel.MatchesByScope` | src/tars/approvals.py:178-203 | An approval is good, until it is overdue, for its tool, target and effect and, by its scope, for the same intent, authority, task or session |
| `ActionJournalModel.LostByLease` | src/tars/action_journal.py:194-224 | In every consistent journal exactly the lease of a running action decides whether recovery takes it over |
| `ActionJournalModel.EndedKeeps` | src/tars/action_journal.py:138-155 | Ending an action drops exactly its lease |
| `ActionJournalModel.ApprovalsKeep` | src/tars/approvals.py:78-141 | Approvals moving forward disturb no action |

## Left out

- Restore: unpacking and validating a bundle, fsync ordering, the validation of a journal's own text, parent-directory
  identities, temporary names of atomic writes and the progress counters no reader uses; hidden names are pairs of
  transaction and member, and identities are never reused, so the collision check on them never fires.
- Restore: the restore lock. One restore or recovery runs at a time, as under the lock.
- RestoreEngine.Installation.RestoreBundle: one rebuilt database content stands for the memory index and the
  reconciliation report together.
- Leases: heartbeat threads, `acquire` with its waiting, `model_execution_scope`, and how a process start time is read;
  lease metadata other than the fence.
- Ownership.LeaseTable.Run: plain claims on the workspace resource type are not part of a run; the source claims
  workspaces only through `claim_workspace`.
- Restore: the write-ahead log of the state database. A restore moves the main file, and the `-wal` and `-shm` files
  beside it are not part of this model.
- The database engine: a transaction is atomic, serialised and undone when it raises; foreign keys are invariants.
- ControlQueueModel.ControlQueue.Run: callers write the recovery phase only with the failed state, do not recover a task
  into that phase, and do not release cancellation leases or fences directly; no code of the repository does.
- Control queue: messages, payload annotation, event rows and session lineage; `latest_redirect` and `pending_context`.
- ControlQueueModel.ControlQueue.CallBack: what the callback returns is the `ambiguous` flag of the reconciliation; the
  loop's retry bookkeeping is any later reconciliation.
- Delegation: roles and routing, evidence references of the parent, memory staging, `join`, the iteration and time
  bounds inside one executor call, inference options, handoffs.
- DelegationServiceModel.DelegationService.Run: waiting for an exclusive workspace and the per-process table of runs are
  left out; a cancellation that finds no run is any claim of the delegation followed by any finish.
- DelegationAuthority.Granting: canonical paths are taken as given.
- Context: reading history and task state from the database, the text of the system messages, persistence of a
  projection, and which messages the history limit cuts before the build.
- ContextWindow.EstimateText: floating-point rounding of the quotient; it is taken over the reals.
- Context epochs: the guard on the task row, checkpoints, digests, events and transcript search; kind and metadata of a
  message never change.
- JsonSchema.ValidateArguments: on a schema no definition check accepted, keyword values of the wrong type are malformed
  or ignored, where the code may coerce them or raise another kind of error; nothing is claimed there.
- JsonSchema.ValidateDefinition: a bound without a finite float is refused by an overflow error, any other fault by a
  value error; both are refusals here.
- JsonSchema.CheckString: regular expressions are a parameter.
- JsonSchema.CheckNumber: the float quotient of `multipleOf`, its tolerance included, is a parameter; floats are finite
  reals.
- JsonSchema.CheckArray: `uniqueItems` compares serialised text in the code, so negative zero differs from zero there
  and not here.
- JsonPointer.Resolve: non-ASCII digits in array tokens; leading zeros are accepted, as in the code.
- Actions: redaction, events, which of several matching approvals is found first and the policy rule a persistent approval
  adds; equal digests are equal intents.
- The command line, chat, HTTP, browser, document and desktop tools, model download and calibration: I/O around
  libraries.
