# Erasing and remembering faces: a verified model

This project models the memory core of a local photograph application: how face vectors
("representations") become searchable, are owned by identities, are forgotten, and are erased from
the database rows, the index files and the write-ahead log even though the process may crash between
any two steps, files may be locked and other callers keep committing. It also models five smaller
cores of the same program. `dafny verify dfyconfig.toml` checks all of it.

How the files fit together:

- **The erasure protocol.** `Store` has the rows, `IndexQueue` and `Repositories` the statements on
  them. `Protocol` is the system as steps: commits of any caller, a coordinator pass under its lock
  (claim, open, quarantine, rebuild, apply, persist, purge, settle), finalization, the marker and the
  checkpoint, damage, lost manifests, torn persists, passes an exception ends and crashes, interleaved
  in any order.
  `Evolution`, `Invariant` and `InvariantProof` carry one invariant through every step; `Safety`
  states what holds in every state of every run.
- **The same code as it runs undisturbed.** `Coordinator`, `Passes`, `Queueing`, `Erasure` and
  `Startup` are the imperative bodies (chunked statements, loops over operations and spaces, the
  report filled field by field). Each one is proved to take only steps of `Protocol`, so all of
  `Safety` applies to it, and is proved against what the call must have achieved when it returns.
  They ask for no more than the invariant, which `Safety.RunKeepsInv` shows in every reachable state
  (every crash state included), and for elapsed backoffs.
  `StuckSpace` is a run after which `resume` cannot finish.
- **The identity lifecycle.** `Tables` has the identity tables and the view the coordinator has of
  them. `IdentityManager`, `Splitting`, `People`, `Corrections`, `Forget` and `MergeForest` are the
  use cases, each leaving the tables alone when it refuses; `MergeProof`, `SplitProof`, `ForgetProof`
  and `Lifecycle` prove what they keep over whole runs, and that each transaction is a commit
  `Protocol` allows. `AnnLookup` resolves keys an index returned.
- **Both on the same rows.** In `WholeSystem` a run is any sequence of transactions (each any number
  of actions that commit together) and protocol steps. Both invariants hold in all its states; it is
  a run of `Protocol` and a history of `Lifecycle`, so what is proved of those holds of it.
- **Acceptance of a processing run**: `Acceptance` and `AcceptanceProof`; `AcceptanceInRuns` makes it
  one move of `WholeSystem` and shows that every reachable state meets its hypotheses.
- **Smaller cores**: `Paging`, `ReviewLog`, `TwinGroups`, `Scheduler`, `Wilson`.

## Where the code falls short of what its documentation promises

1. *"`resume` runs the remaining steps for everything still ERASING."* One `resume` does not always
   finish them, nor do any number. Finalization only looks for superseded index files; only a
   coordinator pass (or validating the index) deletes them, and a pass opens only spaces that have an
   operation due. So a representation stays `ERASING`, however often `resume` runs, exactly when its
   space holds a superseded file, has nothing PENDING and every removal under way there is already
   done. `StuckSpace.ReachesStuck` reaches such a state with no file ever locked: a damaged generation
   is quarantined, and the process dies between writing the rebuilt index file and naming it in the
   manifest. `RepresentationEraser.Resume` states the condition in both directions. Startup is not
   affected in practice: it validates the indexes of ACTIVE spaces first, and `Startup.Recover` shows
   that nothing stays stuck but in a space that is not ACTIVE, and no code of the program makes one so.
2. *"Accepting a run again finds nothing to do."* Its re-check demands exactly one occurrence of the
   run at an observation that was placed, and none at one that was not. When one observation has two
   representations (one per space), the second acceptance fails unless both decisions are ABSTAIN;
   `AcceptanceProof.SecondAcceptIff` is the exact condition and `SharedFailsRecheck` an instance.
3. *"A half-written last line is ignored."* A crash that loses only the newline leaves a line that
   still parses: it is read as a decision, and the next decision moves it aside.
   `ReviewLog.LogReadsBack` says exactly when; `UnendedDecisionVanishes` shows both readings.

## Model

| member | source | states |
|---|---|---|
| IndexQueue.LastDesireWins | backend/app/memory/index_operation_repository.py:65-119 | After any batch on any queue each representation mentioned has exactly one PENDING operation, of the kind of its last entry; its history and everyone else's operations are unchanged |
| IndexQueue.AppendEffect | backend/app/memory/index_operation_repository.py:88-118 | One entry supersedes the opposite PENDING operation and coalesces with its own kind |
| Repositories.AppendBatch | backend/app/memory/index_operation_repository.py:65-119 | The statement loop records exactly that, or nothing when a representation does not exist |
| Repositories.Requeue | backend/app/memory/index_operation_repository.py:163-187 | Exactly a FAILED operation with no PENDING one of its kind is given a fresh set of attempts |
| Repositories.SetMarker | backend/app/settings/app_state.py:25-32 | The marker is overwritten with a value never drawn before |
| Repositories.ClearMarker | backend/app/settings/app_state.py:37-44 | Compare-and-delete: a marker that was set again since it was read stays |
| IdentityManager.LifecycleSession.AllocateAnnKey | backend/app/memory/repository.py:243-263 | The next key of the space, the first being 1, and the sequence moves past it |
| Evolution.CommitEvolves | backend/app/memory/models.py:188-212 | Whatever another caller commits keeps the row and queue rules and changes rows and queue only in the ways the protocol relies on |
| Evolution.QueueErasureEvolves | backend/app/memory/erasure.py:156-234 | Queueing an erasure replaces every open REMOVE of what it takes by a fresh one and takes no other away |
| Evolution.ActivateEvolves | backend/app/identities/use_cases.py:228-275 | Becoming eligible gives a key nobody in the space holds and an ADD |
| Evolution.RetireEvolves | backend/app/memory/repository.py:211-241 | Ceasing to be eligible leaves one open REMOVE and no PENDING ADD |
| InvariantProof.SettleCountsOnlyPurged | backend/app/memory/index_coordinator.py:503-551 | A settlement makes an erasure count as removed only if the index persisted was built without the representation; a late settlement of an older in-place REMOVE never does |
| InvariantProof.StepKeepsInv | backend/app/memory/index_coordinator.py:177-551 | Every step of every participant, fault or crash keeps the invariant of the protocol |
| Safety.RunKeepsInv | backend/app/memory/erasure.py:1-31 | So it holds in every reachable state |
| Safety.ErasureSafety | backend/app/memory/erasure.py:322-393 | In every reachable state the vector of an ERASED representation is in no row, no index file (current, superseded or quarantined) and no index a pass has loaded |
| Safety.IndexAgreesUpToQueue | backend/app/memory/index_coordinator.py:319-354 | Wherever a usable index differs from what is eligible, the representation has an open operation of the kind that repairs it |
| Safety.QuietIndexIsExact | backend/app/memory/index_coordinator.py:420-481 | With nothing open in a space its usable index answers with exactly the eligible keys |
| Safety.LogMarker | backend/app/memory/erasure.py:349-370 | While the write-ahead log holds bytes of an ERASED vector the truncation marker is set |
| Safety.StepKeepsErased | backend/app/memory/erasure.py:349-370 | No step brings an erased vector back, into the rows or into the log |
| Safety.CompleteReportIsTrue | backend/app/memory/erasure.py:304-309 | What a call saw ERASED before truncating is, when it returns and ever after, in no row, no file and not in the log |
| Safety.KeysAreNeverReused | backend/app/memory/repository.py:243-263 | Over any run a key once held in a space is never held by anyone else, and an erased holder's key never resolves again |
| Coordinator.Library.Entries | backend/app/memory/index_coordinator.py:420-448 | A rebuild holds exactly the indexable representations of the space, each under its key |
| Coordinator.Library.OpenOrRebuild | backend/infrastructure/indexing/representation_index.py:519-551 | The opened or rebuilt index is the directory's only live file, in steps of the protocol |
| Coordinator.Library.ApplyAll | backend/app/memory/index_coordinator.py:340-345 | The loop's outcomes: an error exactly for vectors no index can hold, a rebuild wanted exactly when a REMOVE is of something being erased |
| Coordinator.Library.ApplyToIndex | backend/app/memory/index_coordinator.py:346-352 | After the rebuild, if one was wanted, every operation but those is done |
| Coordinator.Library.ApplyIndex | backend/app/memory/index_coordinator.py:319-354 | A whole space's work ends with nothing superseded left and those outcomes final |
| Coordinator.Library.Settle | backend/app/memory/index_coordinator.py:503-551 | Only operations still PENDING change: applied, retried after the backoff, or FAILED when out of attempts |
| Passes.ApplyPending | backend/app/memory/index_coordinator.py:177-187 | An undisturbed pass whose limit and clock leave nothing PENDING out applies all but the operations of vectors no index can hold, and deletes the superseded files of exactly the spaces it opened |
| Passes.Claim | backend/app/memory/index_operation_repository.py:121-137 | Up to the limit, each once and as it is: the PENDING operations that are due, the oldest due first, and none passed over while there is room |
| Queueing.TakeDeleted | backend/app/memory/erasure.py:165-184 | Chunk by chunk: every DELETED one is taken and every REMOVE it had forgotten |
| Queueing.MoveErasable | backend/app/memory/erasure.py:194-229 | Chunk by chunk: exactly the erasable ones move, their open REMOVEs go, and one REMOVE each is wanted for the keyed |
| Queueing.AppendMissing | backend/app/memory/erasure.py:231-253 | Exactly one fresh REMOVE for every keyed ERASING representation without any |
| Queueing.RequeueFailedRemoves | backend/app/memory/erasure.py:232-270 | Afterwards no FAILED REMOVE of an erasure is without a PENDING one |
| Queueing.Queue | backend/app/memory/erasure.py:156-234 | The whole transaction is the commit the protocol reasons about, and everything it made PENDING is due at once |
| Queueing.QueueIsCommit | backend/app/memory/erasure.py:194-234 | What the statements leave, in whatever order rows came back, is that commit |
| Erasure.RepresentationEraser.FinalizeSpace | backend/app/memory/erasure.py:322-347 | Clears what was never indexed, and what is removed if no superseded file is left; blocked exactly when one is |
| Erasure.RepresentationEraser.FinalizeSpaces | backend/app/memory/erasure.py:291-303 | Over all spaces: exactly the finished ones are cleared, exactly the blocked ones reported |
| Erasure.RepresentationEraser.ApplyRemovals | backend/app/memory/erasure.py:284-290 | After the pass every removal of an erasure is done and no error concerns one |
| Erasure.PassRemoves | backend/app/memory/erasure.py:373-393 | Once queued, one pass leaves every keyed erasure with a REMOVE applied and none open |
| Erasure.RepresentationEraser.Truncate | backend/app/memory/erasure.py:395-414 | Only a successful checkpoint clears the marker, and then no erased vector is in the log; a busy or failing one is reported and leaves it set |
| Erasure.RepresentationEraser.Drive | backend/app/memory/erasure.py:273-310 | Clears everything ERASING that no superseded file holds up, whatever becomes of the checkpoint; complete exactly when nothing waits and no truncation is owed |
| Erasure.RepresentationEraser.Resume | backend/app/memory/erasure.py:136-145 | Erases everything ERASING but the stuck ones, and is complete exactly when none is stuck and no truncation is owed; whether one is owed follows from the checkpoint |
| Erasure.RepresentationEraser.Erase | backend/app/memory/erasure.py:128-134 | Whatever of the request was erasable is erased when the call returns, and out of the log unless the truncation is still owed; the request is sorted into erased, pending and ignored |
| Erasure.StuckStays | backend/app/memory/erasure.py:194-234 | What an empty queueing leaves waiting is exactly what was stuck before it |
| Startup.FreshIsExact | backend/app/memory/index_coordinator.py:252-259 | An index is not stale exactly when its keys are the eligible ones |
| Startup.ValidateIndex | backend/app/memory/index_coordinator.py:189-250 | Afterwards the space's index is usable, alone in its directory, and holds exactly the eligible or the indexable keys |
| Startup.RequeueFailedOperations | backend/app/memory/index_coordinator.py:281-313 | Every FAILED operation is PENDING again unless one that says the same already is |
| Startup.Recover | backend/app/recovery/startup.py:434-436 | Validate, requeue, resume: erases all but what is stuck in a space that is not ACTIVE, complete exactly when nothing is and no truncation is owed; with no marker left the log holds no erased vector |
| StuckSpace.ReachesStuck | backend/app/memory/erasure.py:334-344 | A run of the protocol that ends in a state `resume` cannot finish |
| IdentityManager.CreatePendingIdentity | backend/app/identities/use_cases.py:70-89 | One new PENDING identity, naming the run that recognized it |
| IdentityManager.ActivateIdentity | backend/app/identities/use_cases.py:92-145 | The guarded update: only a PENDING identity at the expected revision; otherwise which refusal |
| IdentityManager.AssignRepresentation | backend/app/identities/use_cases.py:169-275 | Key, state, owner, evidence, touched identity and ADD together, or a refusal and nothing |
| IdentityManager.ReconcilePersonOnMerge | backend/app/identities/use_cases.py:292-339 | The survivor's naming wins; a name only the loser had carries over; the loser's link ends |
| IdentityManager.MergeIdentities | backend/app/identities/use_cases.py:376-512 | Every refusal, including a stale revision found after writes, leaves the tables as they were; a merge moves exactly the ACTIVE rows |
| MergeProof.MergeKeepsInv | backend/app/identities/use_cases.py:376-512 | Merging keeps ownership, one link per identity and the forest |
| MergeProof.MergeKeepsForest | backend/app/identities/use_cases.py:494-504 | A merge never closes a cycle |
| MergeProof.MergeKeepsIndex | backend/app/identities/use_cases.py:376-398 | Merging leaves every space's eligible keys and vectors and the queue as they were |
| MergeForest.NoCycle | backend/app/identities/models.py:57-61 | No chain of merges comes back to where it started |
| MergeForest.FollowMerges | backend/app/identities/use_cases.py:790-797 | The chain-following loop ends, at the end of the chain |
| MergeForest.ResolveRecognitionCandidates | backend/app/identities/use_cases.py:771-806 | Exactly the ACTIVE ends of the candidates' chains, each once, in the order of the first candidate that leads there |
| MergeForest.Family | backend/app/identities/forget.py:299-316 | Exactly the identities whose chain passes through this one, each once |
| Splitting.OccurrenceSupport | backend/app/identities/use_cases.py:658-679 | For every ACTIVE occurrence of the identity, the ACTIVE representations it owns that rest on its observations |
| Splitting.RefreshRepresentative | backend/app/identities/use_cases.py:682-706 | The face stays unless it has left; then it is the earliest face the identity still owns, or none |
| Splitting.SplitIdentity | backend/app/identities/use_cases.py:518-639 | The refusals in order, a conflict naming exactly the occurrences that would be cut; otherwise exactly the selection and its occurrences move |
| SplitProof.SplitKeepsSupport | backend/app/identities/use_cases.py:568-575 | All of an occurrence's support moves with it or none does |
| SplitProof.SplitThenMerge | backend/app/identities/use_cases.py:376-639 | Merging the part back restores the owner of every representation and occurrence |
| SplitProof.SplitKeepsInv | backend/app/identities/use_cases.py:518-639 | Splitting keeps the ownership invariant |
| SplitProof.SplitKeepsIndex | backend/app/identities/use_cases.py:518-639 | Splitting leaves the index alone |
| People.AssignIdentityToPerson | backend/app/people/use_cases.py:46-124 | The old link is superseded, not rewritten, and exactly one is ACTIVE; or why not |
| People.RemoveIdentityFromPerson | backend/app/people/use_cases.py:127-166 | The ACTIVE link ends, whatever state the identity is in |
| People.NameIdentity | backend/app/people/use_cases.py:169-213 | A person exists only together with the link that made it |
| People.LinkKeepsInv | backend/app/people/use_cases.py:46-124 | Linking keeps the ownership invariant, one ACTIVE link included, and the index |
| Corrections.ConfirmOccurrence | backend/app/identities/corrections.py:149-172 | Only evidence is added; stale and invalid faces are refused |
| Corrections.ReassignOccurrence | backend/app/identities/corrections.py:175-249 | The face and the representations it rests on move; both identities' faces and revisions follow |
| Corrections.ResolveRepresentation | backend/app/identities/corrections.py:269-376 | A declined face gets owner and occurrence, only when it has exactly one recorded abstention and no occurrence |
| Corrections.ReassignKeepsInv | backend/app/identities/corrections.py:175-249 | Moving a face keeps the ownership invariant |
| Corrections.ReassignKeepsIndex | backend/app/identities/corrections.py:10-14 | Moving a face leaves the index alone |
| Corrections.ResolveKeepsIndex | backend/app/identities/corrections.py:284-285 | Placing a declined face leaves the index alone |
| Forget.ForgetOne | backend/app/identities/forget.py:185-291 | Repeating collects only what is owed; otherwise identity, link, faces and evidence change together, and every vector of the family is named |
| Forget.ForgetIdentity | backend/app/identities/forget.py:120-132 | The one transaction, with the erasure queued in it |
| ForgetProof.ForgettingIsTotal | backend/app/identities/forget.py:226-291 | At its commit nothing the family owns is in a state other than ERASING or ERASED, every keyed one has its REMOVE, and the eligible set shrinks by exactly what the family had ACTIVE |
| ForgetProof.FamilyResolvesToNothing | backend/app/identities/forget.py:299-316 | The identity and all that was merged into it resolve to nobody |
| ForgetProof.ForgottenIsErased | backend/app/identities/forget.py:165-183 | The eraser's call that follows, without faults, erases every vector of the family that was not being erased already, stuck spaces included |
| ForgetProof.ForgetKeepsInv | backend/app/identities/forget.py:185-291 | Forgetting keeps the ownership invariant |
| Lifecycle.OwnershipOverRuns | backend/app/memory/models.py:192-197 | Over every run, what is ACTIVE belongs to an ACTIVE identity, no identity has two ACTIVE links, and merges form a forest |
| Lifecycle.ForgottenForGood | backend/app/identities/forget.py:23-26 | Once forgotten, the identity and everything merged into it resolve to nobody ever after |
| Lifecycle.EditIsEditOwners | backend/app/identities/corrections.py:10-14 | Create, activate, merge, split, confirm, reassign, resolve, link, unlink and name each leave the index as it was, as a commit the protocol allows |
| Lifecycle.AssignIsActivation | backend/app/identities/use_cases.py:228-275 | An assignment or accepted abstention is the protocol's activation of one representation |
| Lifecycle.ForgetIsTwoCommits | backend/app/identities/forget.py:120-132 | A forget is the queueing of an erasure and an edit of owners nothing eligible had left |
| Lifecycle.TransactionIsCommits | backend/app/memory/index_coordinator.py:3-9 | Every use case, whatever it answers, and every private row that comes to be, is at most two commits the protocol allows |
| Lifecycle.ActionKeepsRuns | backend/app/processing/accept_run.py:1-6 | Evidence and occurrences carry a run's name only once a representation of that run has stopped being private |
| Lifecycle.ActionKeepsCreations | backend/app/identities/use_cases.py:192-227 | An identity recorded as created is never PENDING, then or later |
| WholeSystem.WholeRunKeepsInv | backend/app/memory/index_coordinator.py:3-9 | Transactions and protocol steps on the same rows, in any order: both invariants and their agreement hold in every state |
| WholeSystem.WholeRunIsRun | backend/app/memory/erasure.py:1-31 | Every mixed run is a run of the protocol that visits its states in order |
| WholeSystem.WholeRunIsHistory | backend/app/memory/models.py:192-197 | And a history of the tables |
| WholeSystem.KeysInRuns | backend/app/memory/repository.py:243-263 | Whatever use cases run, a key once held in a space is never held by another representation |
| WholeSystem.ErasedInRuns | backend/app/memory/erasure.py:322-393 | Whatever use cases run, what is ERASED stays so, with its vector in no row and no index file |
| WholeSystem.UseCasesMayRun | backend/app/memory/models.py:188-212 | Every reachable state meets what the use cases ask for: rows and queue in order, one ACTIVE link each, unique keys, unused ids |
| WholeSystem.ForgettingInRuns | backend/app/identities/forget.py:226-291 | Forgetting is total in every reachable state |
| AnnLookup.ByAnnKeys | backend/app/memory/repository.py:191-209 | Exactly the keys some row of the space holds, whatever its state |
| AnnLookup.KeysAreUnique | backend/app/memory/models.py:199 | Rows in order hold each key of a space at most once, which the lookups rely on |
| AnnLookup.ResolveAnnCandidates | backend/app/identities/use_cases.py:727-768 | The chunked lookup is the filter of the distinct keys by what SQLite stands behind now |
| AnnLookup.LookupIsFilter | backend/app/identities/use_cases.py:749-768 | That filter keeps exactly the eligible keys given, each once, in the order they first came |
| AnnLookup.ErasingIsRefused | backend/app/identities/use_cases.py:738-742 | A representation being erased is refused whatever a stale index answers |
| Acceptance.Accept | backend/app/processing/accept_run.py:149-197 | All or nothing: it accepts exactly when every check holds, no identity is recognized as new twice and none of those was recorded as created before; exactly when it finds the run accepted before; and no change otherwise |
| AcceptanceProof.AcceptWritesExactly | backend/app/processing/accept_run.py:452-527 | Exactly the named representations become ACTIVE, each with a key never used before and one ADD, one evidence row each, one occurrence per placed decision |
| AcceptanceProof.PrivateIsFromPrivate | backend/app/processing/accept_run.py:254-293 | FINAL named exactly the run's private rows |
| AcceptanceProof.SecondAcceptIff | backend/app/processing/accept_run.py:553-579 | A second acceptance passes every check exactly when no two decisions share an observation unless both abstained |
| AcceptanceProof.ArtifactsIff | backend/app/processing/accept_run.py:793-884 | Of one decision, evidence and ADD are always found once; the occurrence check holds exactly when no other decision places a face there |
| AcceptanceProof.SharedFailsRecheck | backend/app/processing/accept_run.py:855-871 | One face placed in one space and declined in another: accepted, and refused the second time |
| AcceptanceInRuns.PrivateIsUnaccepted | backend/app/processing/accept_run.py:254-293 | In a reachable state, output that passes the check for being private was never recorded, shown or indexed |
| AcceptanceInRuns.GoesThroughInAnyState | backend/app/processing/accept_run.py:452-527 | In every reachable state, of output that passes the checks all decisions go through exactly when no identity is recognized as new twice |
| AcceptanceInRuns.AcceptanceIsMove | backend/app/processing/accept_run.py:149-197 | Accepting a run is one transaction of activations, assignments, abstentions and faces, and keeps everything |
| AcceptanceInRuns.AcceptanceInAnyState | backend/app/processing/accept_run.py:452-579 | In every reachable state what the transaction checks is all it takes to write exactly what it should, and for the exact condition of the second acceptance |
| Paging.Page | backend/app/identities/repository.py:187-202 | The newest rows below the cursor, and a next cursor exactly when some are left |
| Paging.EveryPageListsOnce | backend/api/pagination.py:91-130 | While rows come and go no row repeats, the order is newest first, and every row present throughout is listed |
| Paging.FixedTableIsListed | backend/api/pagination.py:91-130 | A table that does not change is listed exactly |
| Paging.CursorAdvances | backend/app/identities/repository.py:60-72 | Following cursors ends |
| ReviewLog.Review.SetAsideTornTail | evaluation/label_review.py:272-287 | What has no newline is moved, not lost, and the log ends with a newline |
| ReviewLog.Review.Append | evaluation/label_review.py:260-269 | A decision goes, with its newline, after what is left of the log once a torn tail is cut off |
| ReviewLog.Review.ReadLog | evaluation/label_review.py:169-187 | Of any log: damaged exactly when something follows a line that does not parse, and otherwise the lines that parse, in order |
| ReviewLog.SessionKeepsShape | evaluation/label_review.py:218-287 | After any decisions and crashes the log is whole records and at most one torn tail |
| ReviewLog.LogReadsBack | evaluation/label_review.py:169-187 | It never reads as damaged and gives back every ended decision in order, and one more exactly when a crash lost only the newline |
| ReviewLog.UnendedDecisionVanishes | evaluation/label_review.py:260-287 | That one is read now and gone after the next decision |
| TwinGroups.Root | evaluation/label_review.py:319-322 | The parent chain ends at the root |
| TwinGroups.GroupTwins | evaluation/label_review.py:316-328 | The groups after all declarations, in whatever order they come |
| TwinGroups.SharedRootIffDeclared | evaluation/label_review.py:316-328 | Two photographs share a root exactly when a chain of valid declarations links them |
| TwinGroups.Verified | evaluation/label_review.py:306-353 | Every photograph of the manifest lands in exactly one place, and why |
| TwinGroups.SplitDecisions | evaluation/label_review.py:192-213 | Of each photograph's last logged decision, whether bytes and label are still what was decided about |
| TwinGroups.VerifiedFromLog | evaluation/label_review.py:355-358 | From the logged decisions and the digests now: undecided is not verified, a last decision about something else is stale, and the rest are placed in file order |
| TwinGroups.KeptOncePerGroup | evaluation/label_review.py:329-341 | At most one photograph per group and per digest is kept |
| Scheduler.NoLostWake | backend/api/scheduler.py:47-76 | Asleep with the event unset and no callback in flight, every wake issued came before the latest look |
| Scheduler.WakeIsAnswered | backend/api/scheduler.py:47-52 | A wake after the latest look stays on its way or arrived until the next look |
| Scheduler.NoRunAfterStop | backend/api/scheduler.py:54-64 | After the flag is set no call begins |
| Scheduler.ExitsAfterStop | backend/api/scheduler.py:61-76 | Three steps of its own later, at most, the loop has returned |
| Scheduler.WaitEndsAfterStop | backend/api/scheduler.py:54-58 | A stopping loop does not need a timeout to wake |
| Wilson.Interval | evaluation/measure_operating_point.py:239-246 | 0 <= low <= correct / total <= high <= 1 |

## Left out

- SQLAlchemy, sessions and busy retries: each write transaction is one atomic step that commits or changes nothing.
- Similarity search and the index library: a generation is the keys it answers with and the vectors whose bytes are in its file.
- Physical log pages, power cuts that undo finished file operations, SSD and backup remnants: the log is a set of vectors a successful checkpoint empties, and a file operation that returned is durable.
- Passes.Claim: operations due and created at the same instant come in the order their ids were drawn, where the program's ids are random; in the protocol any set of PENDING operations may be claimed.
- The order of identifiers inside an erasure report: reports hold sets.
- Passes.ApplyPending: states one pass in which every backoff has elapsed, the limit covers the queue, no file is locked and nobody else commits; the disturbed passes are the steps of `Protocol`.
- Erasure.RepresentationEraser.Resume: states a call without faults other than a checkpoint that fails; what a disturbed call may and may not do is `Safety`.
- Startup.Recover: covers index validation, requeueing and erasure; the other startup steps (artifacts, jobs, packages) are not part of this model.
- A staged manifest a crash leaves counts as a superseded file without vectors, which is all the checks for leftovers see of it.
- The source an evidence row or an occurrence names: it is that of its run.
- Requeueing many FAILED operations is one transaction in the program and one step each in the protocol.
- Re-activating a representation that already has a key: the program never does it, and a FAILED REMOVE requeued after a later ADD would undo that ADD.
- `forget_person`: the same `_one` for each linked identity in one transaction; only the single forget is modelled.
- Face crops and artifact files when an identity is forgotten, and source deletion.
- Evidence payloads beyond kind, subject, person, representations and run; lineage beyond its two ends; display names.
- Acceptance.Accept: whether a decision follows from its evidence (the reasoner, the assessment and candidate validation) is one flag of the decision, and parsing of the FINAL payload is not modelled; both are checks on values that write nothing.
- Acceptance.Accept: missing source or job rows, and revision conflicts on the source, run and job, which cannot change inside one transaction.
- Chunking of statements by 500 outside erasure queueing and key lookup.
- Cursor encoding and page limits of the HTTP layer, routes, tokens, WebSocket, the frontend and the desktop shell.
- ReviewLog.LogReadsBack: a record's text is any line that parses and has no shorter part that does, as a JSON object has; decoding of damaged bytes is not modelled.
- The manifest file, how digests are computed, how a log line's text becomes a decision, and the export file of the review tool.
- Wilson.Interval: exact numbers instead of floating point; the square root is given by its square.
- `choose_policy`, `choose_conservative` and the other report functions of the operating-point tool.
- Migrations, dataset importers and the gate runner.
