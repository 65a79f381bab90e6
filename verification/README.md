# Verification of the GOET controller and worker core

A Dafny 4.11 model of the parts of GOET whose correctness depends on whole runs, and proofs about
that model. `dafny verify dfyconfig.toml` checks everything.

* **Workflow dependency plans** (`PlanModel`, `PlanObject`, `PlanLaws`, `DependencyStore`,
  `StoreLaws`, `StoreView`, `StoreEffects`, `PlanEffects`, `RebuiltPlan`, `StoreFailures`, `StepFacts`,
  `StepOutputFacts`). A plan is stages of steps of work-item memberships. It is
  updated by reports and rebuilt from persisted records on every read. `PlanModel` says what each
  mutator does to a plan; `PlanObject` is the same as an object changed in place by loops, proved
  against it; `DependencyStore` is the store and the rebuild. `PlanEffects`, `RebuiltPlan`,
  `StoreFailures` and `StepFacts` say place by place what a mutator leaves, what a rebuild shows, what a
  failure stores and which output a step gets.
* **Workflow runs** (`WorkflowRun`, `WorkflowRunInv`, `WorkflowRunParts`, `WorkflowRunRelease`,
  `WorkflowRunStages`, `WorkflowRunOpening`, `WorkflowRunLaws`, `WorkflowRunTheorems`,
  `WorkflowReplay`, `WorkflowCover`, `WorkflowCoverExact`, `WorkflowFirstStage`,
  `WorkflowLateRelease`, `WorkflowRefusal`, `WorkflowExample`, `WorkflowHistory`). Submission, claims, requeues, completion and failure reports, and the failed
  attempts stored at the retry ceiling, of one run as atomic steps over the store, with the compiler
  and the aggregation as oracles. One inductive invariant gives the theorems over all runs.
* **Destination promotion** (`PromotionProtocol`, `PromotionOutcomes`). Any number of workers, every look, lock creation,
  rename, write and removal a step of its own.
* **Caretaker and worker capacity** (`CareTakerWake`, `CareTaker`, `WorkerCapacity`). The coalescing
  wake channel, back-off, next wake-up, and the reservation list.
* **Values** (`Overlay`, `OverlayProvenance`, `OverlayRun`; `JsonText`, `JsonRoundTrip`,
  `JsonLexis`, `JsonComplete`, `CanonicalJson`, `CanonicalForm`, `StrictJson`, `SourceLayout`, `OutputText`, `JsonRun`; `StepOutput`,
  `CollectionOutput`). Layered data with provenance, JSON decoding and canonical JSON, output
  canonicalisation and aggregation.
* **Archives and command lines** (`SourceBundle`, `ShellQuoting`).

`Wrappers`, `Strings`, `StringOrder`, `Sorting`, `Decimal` and `JsonValue` hold shared definitions.

## Where the code does not keep a promise

Each of these is stated with the exact condition under which the promise holds.

* A destination whose lock is free is settled unless the removal in a rollback failed: the code
  ignores that error (`PromotionProtocol.FreeDestinationSettled`, `FailedRollbackLeavesOrphan`).
* The back-off is the capped exponential exactly when the initial delay is at most the maximum and
  twice the maximum does not overflow (`CareTaker.BackoffConditionIsExact`).
* The two output canonicalisations agree exactly when no zero is written `-0`
  (`OutputText.PipelinesAgreeIff`, `MinusZeroDisagrees`).
* `docs/concepts/dependency-aware-workflows/008-compile-next-ready-stage.md:44` wants a repeated
  completion report not to queue the next stage twice. A stage that has queued only asset items still
  rebuilds as blocked, so a repeated report opens it again: its asset items are queued a second time,
  or the run is failed when the times differ. A repeated report can also release an item that was
  passed over when the last output it waits for was refused. `WorkflowReplay.ReplayIdempotentIff`
  gives the exact condition, for reports of tracked and of asset items, accepted or refused, and
  `WorkflowExample.RunningAssetQueuedAgain` a run that violates it.
* Asset items have no memberships, so a step made of asset items alone never completes. A run that
  comes to rest is completed exactly when there is no such step
  (`WorkflowRunTheorems.RestingCompletedIff`; `WorkflowExample.RestsWithoutCompleting` is a run that
  rests without completing).
* A step gets its output once its recorded memberships have finished, and a deferred item has no
  membership before it is released. With two inputs and a commit of each, as
  `internal/workflow/explicit_commit_data.go:62-80` compiles them, the commit step has its output, and
  the whole stage is completed and the next one opened, while the second commit has yet to run
  (`WorkflowLateRelease.StageCompletedEarly`). A step that has an output has finished all its items
  when none of them waits for its own stage or they all depend on the same items, whatever else
  happens, and when they all wait for the same items, directly or through others, as long as no
  output has been refused (`WorkflowCover.OutputMeansFinished`, `StageOrderItems`). Over the runs
  without a refusal that last condition is exact, for every stage of every plan that waits within
  itself and is followed by stages that can be opened (`WorkflowCoverExact.OutputCoversIff`,
  `SubmittedCoversIff`; `WorkflowLateRelease.PlanBreaksPromise` applies it to the plan above). With a
  refusal it is not enough (`WorkflowRefusal.UniformIsNotEnough`).
* The incremental update of a plan and its rebuild agree after a success report exactly when the step
  of the item has no output yet or everything on it has succeeded with the report
  (`PlanLaws.TerminalReportRefinesRebuild`, `OutputReportRefinesRebuild`); a step that got its output
  early and still has two items to run leaves that condition.
* Recovery at the retry ceiling stores a failed attempt and reports nothing
  (`internal/persistence/store.go:2347-2381`). For a tracked item the rebuilt plan is failed; for an
  asset item the run is left with nothing to do and a plan still running
  (`WorkflowExample.ExpiredAssetStalls`). A run at rest has completed every item exactly when no
  attempt has failed (`WorkflowRunTheorems.RestingMeansDone`).

## Assumptions

* Workflow runs: report handlers are atomic and the store reports no errors of its own; plan
  validation gives unique step indexes and contiguous stage indexes from zero, and step records are
  listed in the order of these indexes, so that sorting them in the rebuild changes nothing; the
  compiler is a function of the stage alone, although it is given the outputs of earlier steps, it
  places items on steps of that stage and gives asset items no dependencies, as `internal/workflow/explicit_commit_data.go:80` is the only place that adds any; of
  the terminal attempts of an item the store shows a success if there is one and the last otherwise;
  output digests are not empty.
* Promotion: destinations do not nest, they lie outside the `.goet` area, staging directories are
  private, no worker crashes, and a look at a path never errs: `pathExists` takes every error for
  absence, and "never overwritten" rests on this. Nothing is assumed of the digest in lock names.
* Caretaker: times are integers and the clock never reads zero.
* Strings are sequences of Unicode scalar values, so that `sort.Strings` is code point order; texts
  that are not valid UTF-8 are outside the model. `filepath.ToSlash` is the identity, as on Linux.

## Model

| member | source | states |
|---|---|---|
| PlanLaws.MutateUp | cmd/controller/workflow_dependency_store.go:185-654 | Every mutator of a plan keeps: a failed membership has a failed step, a failed step a failed stage, a failed stage a failed workflow |
| PlanLaws.MutationsKeepFailureUp | cmd/controller/workflow_dependency_store.go:185-654 | Upward failure propagation holds after any sequence of mutations |
| PlanLaws.TerminalReportRefinesRebuild | cmd/controller/workflow_dependency_store.go:556-593 | For a running plan in derived state, a completed, skipped or failed report gives exactly the states the derive functions compute, if and only if it is a failure, changes nothing, or its step has no output fact or all other memberships of it have succeeded |
| PlanLaws.OutputReportRefinesRebuild | cmd/controller/workflow_dependency_store.go:295-392 | The same for a recorded output, with the finished step joining the facts: if and only if its step has no fact or all other memberships of it have succeeded |
| PlanLaws.RepeatedReportChangesNothing | cmd/controller/workflow_dependency_store.go:556-593 | Reporting the same outcome again changes nothing and says so |
| PlanEffects.SuccessEffect | cmd/controller/workflow_dependency_store.go:556-593 | A report of success sets the state of its own membership; every other membership, step and stage keeps state and reason, and outputs lose their texts exactly when the plan has finished |
| PlanEffects.FailureEffect | cmd/controller/workflow_dependency_store.go:556-635 | A failure report fails its own membership, step, stage and plan, each with the given reason where it had none, and leaves every other state and reason |
| PlanEffects.ActivationFailureEffect | cmd/controller/workflow_dependency_store.go:595-654 | A failed activation fails the plan, the stage, all its steps and their unfinished memberships with the given reason, and leaves the other stages |
| PlanEffects.MembershipExact | cmd/controller/workflow_dependency_store.go:185-241 | A membership is refused exactly when its step has its id or its index; otherwise it is added queued and without output, in its place by index, and nothing else changes |
| PlanObject.UpdateStepState | cmd/controller/workflow_dependency_store.go:757-777 | The counting loop computes the updated step state: failed if any failed, completed if all succeeded, active if some did |
| PlanObject.UpdateStageState | cmd/controller/workflow_dependency_store.go:779-806 | The two scans compute the updated stage state |
| PlanObject.DeriveStepState | cmd/controller/workflow_dependency_store.go:1114-1145 | The flag loop computes the derived step state, an output fact counting as completion |
| PlanObject.DeriveStageState | cmd/controller/workflow_dependency_store.go:1160-1196 | The flag loop computes the derived stage state; the earliest stage is never blocked |
| PlanObject.DeriveWorkflowState | cmd/controller/workflow_dependency_store.go:1198-1217 | Failed if any stage failed, completed if there are stages and all are completed |
| PlanObject.FindWorkItem | cmd/controller/workflow_dependency_store.go:665-677 | The nested loops find the first place of a work item, and report absence exactly |
| PlanObject.OutputsAreReady | cmd/controller/workflow_dependency_store.go:728-743 | True exactly when there are memberships and all succeeded with an output |
| PlanObject.FailedStep | cmd/controller/workflow_dependency_store.go:637-654 | Fails the named membership, or all that have not succeeded, keeping first reasons |
| PlanObject.DependencyPlan.UpdateWorkflowState | cmd/controller/workflow_dependency_store.go:808-822 | The workflow state becomes what its stages say; nothing else changes |
| PlanObject.DependencyPlan.PutStep | cmd/controller/workflow_dependency_store.go:585-590 | Writing a step back recomputes its stage and, while running, the workflow |
| PlanObject.DependencyPlan.PruneOutputsIfTerminal | cmd/controller/workflow_dependency_store.go:848-859 | A finished plan loses its output texts and keeps digests and sizes; a running one is untouched |
| PlanObject.DependencyPlan.MarkPlanFailed | cmd/controller/workflow_dependency_store.go:595-635 | The new plan is the failed plan of the specification: named step and item, or the whole stage, first reasons kept |
| PlanObject.DependencyPlan.RecordTerminal | cmd/controller/workflow_dependency_store.go:556-593 | The in-place update equals the specified report, with its flag |
| PlanObject.DependencyPlan.RecordOutput | cmd/controller/workflow_dependency_store.go:295-392 | The in-place update equals the specified output report; a refused one changes nothing |
| PlanObject.DependencyPlan.AddMember | cmd/controller/workflow_dependency_store.go:185-241 | Adds a queued membership in index order; a repeated id or index is refused and changes nothing |
| PlanObject.DependencyPlan.CompleteEmptyFanout | cmd/controller/workflow_dependency_store.go:394-470 | Completes exactly the steps that compiled to nothing and says whether that completed the stage |
| StoreLaws.RebuiltFailedIff | cmd/controller/workflow_dependency_store.go:861-1023 | A rebuilt plan is failed exactly when a failed plan was saved or a recorded membership has a failed attempt |
| StoreLaws.FailureIsAbsorbing | cmd/controller/workflow_dependency_store.go:861-1249 | Once a rebuilt plan is failed every later rebuild is failed, whatever events follow |
| StoreLaws.FirstReasonIsKept | cmd/controller/workflow_dependency_store.go:595-635 | The first non-empty saved failure reason is never replaced and every later rebuild shows it |
| StoreLaws.RebuiltFailureUp | cmd/controller/workflow_dependency_store.go:861-1023 | Every rebuilt plan propagates failure upward |
| StoreView.StepStates | cmd/controller/workflow_dependency_store.go:976-1004 | Without a failure a rebuilt step is completed exactly with a fact or with all recorded memberships finished, and blocked exactly with neither facts nor memberships |
| RebuiltPlan.MemberShown | cmd/controller/workflow_dependency_store.go:1039-1112 | While no failed plan is saved, every recorded item is a membership of its step in the rebuilt plan: completed, skipped or failed as its attempt was, running or queued; with the attempt's text and digest, the text pruned exactly when the step has its output, or with the attempt's error |
| RebuiltPlan.ShownIsRecorded | cmd/controller/workflow_dependency_store.go:1039-1112 | Every membership of a rebuilt step is that of a record, shown in that way |
| RebuiltPlan.FailedStepShown | cmd/controller/workflow_dependency_store.go:1114-1145 | A rebuilt step is failed exactly when a recorded item of it has a failed attempt, also when it has its output |
| RebuiltPlan.StepShown | cmd/controller/workflow_dependency_store.go:1114-1145 | Without a failure a rebuilt step is completed, active, ready or blocked exactly as queue, attempts and facts say |
| StoreView.StageStates | cmd/controller/workflow_dependency_store.go:1005-1015 | Without a failure a rebuilt stage is completed exactly when all its steps are, and blocked exactly when none has begun and it is not the first |
| RebuiltPlan.StageShown | cmd/controller/workflow_dependency_store.go:1160-1196 | The same for a rebuilt stage, active exactly when it is unfinished and a step of it is completed or has an item that runs or has run |
| RebuiltPlan.PlanShown | cmd/controller/workflow_dependency_store.go:1198-1217 | Such a plan is completed exactly when all its steps are done, running otherwise, and has no failure reason |
| StoreEffects.MemberAppended | cmd/controller/workflow_dependency_store.go:185-241 | Recording a membership that clashes with none appends exactly it |
| StoreEffects.OutputRecorded | cmd/controller/workflow_dependency_store.go:295-392 | An accepted output changes at most the fact of its step, and leaves one when it was the last of the step |
| StepFacts.OutputExact | cmd/controller/workflow_dependency_store.go:295-392 | The report of an output, exactly: ignored once the finished plan has it, without effect while an output is missing, refused when the aggregation refuses, and otherwise the fact of the step becomes the aggregate of all its memberships with the reported output in place, without its text exactly when every other step is done |
| StepOutputFacts.RecordedText | cmd/controller/workflow_dependency_store.go:361-384 | With the aggregation of step outputs, the text recorded for a step of ordinary items decodes to the value of its one item, or to the list of the values of all its recorded items by increasing index |
| StoreEffects.EmptiesRecorded | cmd/controller/workflow_dependency_store.go:394-470 | Completing empty fan-outs adds exactly their facts |
| StoreEffects.EmptyFanoutFlag | cmd/controller/workflow_dependency_store.go:394-470 | The flag is true exactly when some step was empty and every other one done |
| StoreEffects.RefusalFails | cmd/controller/main.go:3452-3462 | A refused output fails the plan for good when its step has no output yet |
| StoreEffects.RefusalIgnored | cmd/controller/workflow_dependency_store.go:571-575 | A refused output of a step that has its output changes nothing |
| StoreFailures.FailureSeen | cmd/controller/workflow_dependency_store.go:556-635 | A failure report, for instance of a refused output, of an item whose step has no output is seen from then on as the failure of the run for that reason, or the default for a blank one, and shown at the item; step outputs keep digests and lengths and lose their texts |
| StoreFailures.ActivationFailureSeen | cmd/controller/workflow_dependency_store.go:535-554 | So is a failed activation |
| WorkflowRun.ActivateNextReadyStage | cmd/controller/workflow_stage_activation.go:15-89 | The activation loop ends on every input and computes the specified activation |
| WorkflowRun.QueueableItems | cmd/controller/workflow_stage_queue.go:202-226 | The loop queues exactly the items without a dependency in their own stage, in order, and records memberships for those that are not assets |
| WorkflowRun.CollectReady | cmd/controller/asset_materialize_dependencies.go:40-106 | The loop collects exactly the untouched items that wait for the completed one and have all dependencies completed, to be queued by index and id, with their memberships in order of work |
| WorkflowRunRelease.ReleaseKeepsAlways | cmd/controller/asset_materialize_dependencies.go:40-126 | Releasing keeps the queue and release invariants, also in a failed run |
| WorkflowRunRelease.ReleaseKeepsClean | cmd/controller/asset_materialize_dependencies.go:40-126 | After a release nobody waits only for the item that completed |
| WorkflowRunOpening.ActivateStageKeeps | cmd/controller/workflow_stage_activation.go:34-88 | One turn of the loop keeps the invariant, and a stage finished at once has all its facts |
| WorkflowRunOpening.ActivateNextKeeps | cmd/controller/workflow_stage_activation.go:15-89 | Trying the next stage keeps the invariant, in particular that the last opened stage is unfinished or final |
| WorkflowRunLaws.CompleteKeepsInv | cmd/controller/main.go:3394-3488 | A completion report, first or repeated, accepted or refused, keeps the invariant of the run |
| WorkflowRunLaws.FailBreaks | cmd/controller/main.go:3336-3392 | A failure report fails the run for good, for asset items through their stage |
| WorkflowRunLaws.ExpireKeepsInv | internal/persistence/store.go:2347-2381 | A failed attempt stored at the retry ceiling, without a report, keeps the invariant: it fails the run for good, or is that of an asset item and the run goes on as before |
| WorkflowRunLaws.RunKeepsInv | cmd/controller/main.go:3336-3488 | Every run of claims, requeues, retry-ceiling failures and completion and failure reports keeps the invariant |
| WorkflowRunTheorems.SubmitEstablishesInv | cmd/controller/main.go:1886-1930 | An accepted submission establishes the invariant |
| WorkflowHistory.SubmitAcceptedIff | cmd/controller/main.go:1886-1930 | A submission is accepted exactly when its first stage compiles to items with different ids |
| WorkflowHistory.CallExact | cmd/controller/main.go:3336-3488 | What any call does to work, queue and attempts: new items and newly queued ones have the time of the call, queued ones keep theirs, attempts begin by a claim and end by a requeue or a report, which is stored unless a success already is, and no other item is moved |
| WorkflowHistory.RunIsRecorded | cmd/controller/main.go:3336-3488 | In every reachable run all items were created and queued at the time of the submission or of a call, and every stored attempt is one that a call reported for its item |
| WorkflowHistory.SuccessIsKept | cmd/controller/main.go:3336-3488 | A success once stored is never replaced |
| WorkflowRunTheorems.StageOrder | cmd/controller/workflow_stage_activation.go:15-89 | In every reachable run still going, a stage that is not blocked or has recorded memberships has all earlier stages completed |
| WorkflowRunTheorems.ReleasedOnceWhenReady | cmd/controller/asset_materialize_dependencies.go:40-118 | In every reachable run deferred items are queued by at most one release, only with all dependencies completed, together with all items of the stage that depend on the same ones, and no tracked item is in two of queue, running and finished |
| WorkflowRunTheorems.UnreleasedWaits | cmd/controller/workflow_stage_queue.go:202-226 | In every reachable run still going, an item not yet queued has a dependency that has not succeeded or whose output was refused |
| WorkflowRunTheorems.RestingMeansDone | cmd/controller/asset_materialize_dependencies.go:40-118 | With acyclic dependencies among known items, an unfailed plan and nothing refused, a run with nothing queued or running has completed every item exactly when no attempt has failed; tracked items never have a failed one |
| WorkflowRunTheorems.RestingCompletedIff | cmd/controller/workflow_stage_queue.go:183-190 | Such a run without a failed attempt has completed its workflow exactly when no step consists of asset items alone |
| WorkflowCover.OutputMeansFinished | cmd/controller/workflow_dependency_store.go:1114-1145 | In every reachable run still going, a step with an output has finished every tracked item of its compiled stage, if none of them waits for its own stage, or they all depend on the same items, or nothing was refused and they all wait for the same items, directly or not |
| WorkflowCover.StageOrderItems | cmd/controller/workflow_stage_activation.go:15-89 | In every reachable run still going, once a stage has begun every item on such a step of an earlier stage has succeeded |
| WorkflowCover.TakesIn | cmd/controller/main.go:3394-3488 | Claiming a queued item and accepting its output records one more success, keeps the invariant, gives its step an output if it was the last one recorded there, and then tries the next stage |
| WorkflowCoverExact.NextOpens | cmd/controller/workflow_stage_activation.go:15-89 | When the stages to come compile to new items, trying the next stage fails nothing, changes no attempt and loses no fact |
| WorkflowCoverExact.RunSet | cmd/controller/asset_materialize_dependencies.go:40-126 | From any stage just opened, when no output is refused, every set of its items that waits for nothing outside it can be run, and nothing else of the stage, unless a chosen step gets its output before |
| WorkflowCoverExact.OutputCoversIff | cmd/controller/workflow_dependency_store.go:1114-1145 | For any stage just opened whose deferred items wait for items of the stage without a cycle and whose later stages compile to new items, under a controller that refuses no output: in all runs an output of the step means all its items have finished, if and only if they all wait for the same items |
| WorkflowCoverExact.SubmittedCoversIff | cmd/controller/main.go:1886-1930 | The same for every step of the first stage of every submitted plan of that kind, with any number of stages |
| WorkflowLateRelease.StageCompletedWithoutItem | cmd/controller/asset_materialize_dependencies.go:40-126 | Every plan of two inputs with a commit of each has a run in which the commit step gets its output before the second commit has a membership, and keeps it while the next stage opens |
| WorkflowLateRelease.StageCompletedEarly | internal/workflow/explicit_commit_data.go:62-80 | One such plan in full: the first stage is completed and the item of the second queued while an item of the first is still queued |
| WorkflowLateRelease.PlanBreaksPromise | internal/workflow/explicit_commit_data.go:62-80 | The exact condition applied to that plan: its commit step does not keep the promise |
| WorkflowRefusal.LateItemPassedOver | cmd/controller/main.go:3452-3462 | When the last output two items wait for is refused in a step that has its output, repeating the report of another dependency releases only the one that depends on it directly, and their step gets its output without the other |
| WorkflowRefusal.UniformIsNotEnough | cmd/controller/main.go:3452-3462 | One such run in full, on a step whose items all wait for the same items |
| WorkflowReplay.ReplayIdempotentIff | cmd/controller/workflow_stage_activation.go:28-39 | In every reachable run still going, repeating a recorded report of any item not running leaves all work unchanged exactly as follows: a failed attempt, always; an asset item, when nobody is ready that waits for it; an accepted output, when besides the next stage is not found blocked behind a completed one or all it would queue is still queued since this time; an output refused again, when its step has an output |
| WorkflowReplay.AssetAgainIff | cmd/controller/main.go:3441-3450 | Repeating the report of an asset item changes nothing exactly when nobody is ready that waits for it |
| WorkflowReplay.RefusedAgainIff | cmd/controller/main.go:3452-3462 | A report whose output is refused again changes nothing exactly when its step has an output; otherwise it fails the plan |
| WorkflowReplay.ReplayReleasesNobody | cmd/controller/asset_materialize_dependencies.go:40-106 | In every reachable run still going without a refused output, nobody is left whom a repeated report would release |
| WorkflowReplay.ReopenedIsLast | cmd/controller/workflow_stage_activation.go:33-39 | The stage found blocked behind a completed one is the last one opened |
| WorkflowExample.RunningAssetQueuedAgain | cmd/controller/workflow_stage_activation.go:66-77 | A reachable run in which a repeated report queues a running item again |
| WorkflowExample.RestsWithoutCompleting | cmd/controller/workflow_stage_queue.go:183-190 | A reachable run with nothing left to do whose workflow is still running |
| WorkflowExample.ExpiredAssetStalls | internal/persistence/store.go:2347-2381 | A reachable run in which an asset item has failed at the retry ceiling, nothing is left to do and the workflow is still running |
| PromotionProtocol.StepKeepsInv | cmd/worker/asset_destination.go:71-198 | Every step of every worker keeps the invariant on locks, destinations and manifests |
| PromotionProtocol.RunsExclude | cmd/worker/asset_destination.go:154-198 | In every interleaving no two promoters ever hold the same lock, whether acquiring, working or releasing, and two that share a destination or a key are never in the critical section together |
| PromotionProtocol.StepRemovesOnlyOwnLocks | cmd/worker/asset_destination.go:154-198 | A step removes only a lock file its own worker created |
| PromotionOutcomes.AlonePromotes | cmd/worker/asset_destination.go:71-118 | From any root where its destination, manifest and locks are absent, a worker whose operations all succeed and that runs alone ends promoted, with its content at the destination, its own manifest and no locks left |
| PromotionOutcomes.OutcomeHasCause | cmd/worker/asset_destination.go:71-198 | In every interleaving a promoter reports an existing destination only if it saw the destination or the manifest, work in progress only if a lock it needed was taken, an error only if an operation of its own failed |
| PromotionOutcomes.PromotedIffWritten | cmd/worker/asset_destination.go:108-117 | In every interleaving a promoter ends promoted exactly when it wrote its manifest, and what it promoted is still there |
| PromotionProtocol.RunKeepsFinished | cmd/worker/asset_destination.go:71-118 | A finished destination is never overwritten or removed |
| PromotionProtocol.ReaderSeesMatchingEvidence | cmd/worker/asset_destination.go:38-69 | Whoever finds a destination and its manifest finds matching evidence |
| PromotionProtocol.FreeDestinationSettled | cmd/worker/asset_destination.go:71-118 | In every interleaving a destination with a free lock exists exactly with one manifest of matching evidence, if and only if no removal in a rollback failed for it |
| PromotionProtocol.NoFailedRollbackNoOrphan | cmd/worker/asset_destination.go:110-114 | Without failed removals nothing is orphaned |
| PromotionProtocol.FailedRollbackLeavesOrphan | cmd/worker/asset_destination.go:110-114 | One worker whose manifest write and removal both fail leaves a destination no manifest names |
| PromotionProtocol.ManifestNameInjective | cmd/worker/asset_destination.go:148-151 | Valid keys have distinct manifest files |
| PromotionProtocol.LockDirectory.RemoveAll | cmd/worker/asset_destination.go:169-198 | Removes exactly the listed lock files, passing over those that cannot be removed |
| PromotionProtocol.LockDirectory.AcquirePromotionLocks | cmd/worker/asset_destination.go:154-198 | Creates both lock files exactly when both are free and creatable and the destination is not taken; otherwise of those it created exactly the ones whose removal fails stay |
| CareTakerWake.NoLostWakeup | cmd/controller/caretaker.go:131-153 | Under any interleaving every sent signal is covered by a pending token or by a snapshot taken after it |
| CareTakerWake.SleepingMeansObserved | cmd/controller/caretaker.go:211-253 | When the loop sleeps with no token pending every sent signal has been observed |
| CareTakerWake.LoopReachesSleep | cmd/controller/caretaker.go:211-253 | The loop reaches its wait within a fixed number of its own steps |
| CareTaker.BackoffIsCappedExponential | cmd/controller/caretaker.go:403-420 | After any history the delay is min(initial times 2 to the failures less one, maximum), reset by success |
| CareTaker.BackoffConditionIsExact | cmd/controller/caretaker.go:403-416 | That holds for all histories exactly when the initial delay is at most the maximum and doubling the maximum does not overflow |
| CareTaker.FoldedIsEarliest | cmd/controller/caretaker.go:473-509 | The running minimum is the earliest clamped candidate, and absent exactly when there is none |
| CareTaker.WakeIsSoonEnough | cmd/controller/caretaker.go:473-509 | The next wake, in plain arithmetic: not before now, not after the clamped worker expiry, any clamped reservation expiry, the retry with its delay forced into its bounds, or the fallback sweep, and absent exactly when none of them is due |
| CareTaker.CalculateNextWake | cmd/controller/caretaker.go:473-509 | The loops compute a wake that is one of these instants and the earliest of them |
| CareTaker.CareTaker.NoteReconcileError | cmd/controller/caretaker.go:403-416 | The stored delay becomes the next one, with 64-bit wrap-around |
| CareTaker.CareTaker.ClearReconcileError | cmd/controller/caretaker.go:418-420 | The stored delay is reset |
| CareTaker.CareTaker.Reconcile | cmd/controller/caretaker.go:352-401 | A pass notes an error or clears it and returns the next wake for the state it leaves; without a source or a launcher it changes nothing |
| WorkerCapacity.FailedLaunchRestores | cmd/controller/worker_execution.go:151-200 | A failed launch restores the pruned reservation list exactly, for any pattern |
| WorkerCapacity.RunValid | cmd/controller/worker_execution.go:151-298 | Reservation ids stay distinct over every run |
| WorkerCapacity.BuiltInEvaluation | cmd/controller/worker_execution.go:52-84 | With the built-in patterns a start happens only with nothing in flight and never pushes sessions plus reservations over the maximum |
| WorkerCapacity.RunKeepsOneInflight | cmd/controller/worker_execution.go:151-298 | With the built-in patterns at most one reservation is ever in flight |
| WorkerCapacity.ConfirmedIsOldest | cmd/controller/worker_execution.go:225-240 | Under a monotone clock the confirmed reservation is the oldest |
| WorkerCapacity.OneByOneStarts | cmd/controller/worker_execution.go:52-80 | When the one-by-one pattern starts a worker, and that it starts one |
| WorkerCapacity.PruneExact | cmd/controller/worker_execution.go:255-269 | A reservation survives pruning exactly when there is no timeout or it is not older than the timeout; the order is kept |
| WorkerCapacity.PatternsByName | cmd/controller/worker_execution.go:151-223 | The null pattern starts nobody, an unknown name changes nothing, and otherwise a worker is started exactly when the launcher agrees, nothing is in flight any more and there is room and demand |
| WorkerCapacity.NoSecondStart | cmd/controller/worker_execution.go:151-200 | After a successful one-by-one launch no evaluation up to the end of the timeout launches again unless a worker has registered |
| WorkerCapacity.WorkerCapacityManager.PruneExpiredInflightStarts | cmd/controller/worker_execution.go:255-269 | Keeps in order exactly the reservations whose age does not exceed the timeout, and all of them without a timeout |
| WorkerCapacity.WorkerCapacityManager.ReserveInflightStarts | cmd/controller/worker_execution.go:271-283 | Appends the specified number of reservations with fresh ids |
| WorkerCapacity.WorkerCapacityManager.RemoveInflightReservations | cmd/controller/worker_execution.go:285-298 | Removes exactly the given reservations |
| WorkerCapacity.WorkerCapacityManager.EvaluateDemand | cmd/controller/worker_execution.go:151-200 | The in-place evaluation equals the specified one |
| WorkerCapacity.WorkerCapacityManager.ConfirmOldestInflightStartRegistered | cmd/controller/worker_execution.go:225-240 | Drops the first reservation if there is one and says so |
| Overlay.SucceedsIff | internal/document/overlay.go:8-68 | An overlay fails exactly when some layer holds a null or two layers disagree on object versus other value at a path |
| Overlay.LeafFromLast | internal/document/overlay.go:27-68 | Every leaf of the result comes from the last layer defining its path |
| Overlay.Associative | internal/document/overlay.go:8-68 | Any run of layers may be overlaid first: the whole fails when it does and is otherwise the same |
| Overlay.EmptyIsIdentity | internal/document/overlay.go:17-19 | An empty tree changes nothing wherever it stands |
| Overlay.Idempotent | internal/document/overlay.go:27-68 | A layer without nulls is its own overlay, and overlaying it again changes nothing |
| Overlay.Extensional | internal/document/overlay.go:27-68 | Trees with the same shape at every path are equal |
| OverlayProvenance.PointerInjective | internal/document/overlay.go:113-134 | Different paths have different JSON Pointers |
| OverlayProvenance.PointerReads | internal/document/overlay.go:113-134 | Splitting a pointer at its slashes and decoding its tokens, as section 4 of RFC 6901 says, gives the path it was made from |
| OverlayProvenance.ProvenanceExact | internal/document/overlay.go:104-111 | Provenance has a key for exactly the paths of the effective tree and names their origin |
| OverlayProvenance.OriginExact | internal/document/overlay.go:41-65 | The origin is the last layer defining a leaf and the first defining an object |
| OverlayProvenance.ProvenanceKeys | internal/document/overlay.go:104-111 | Every key of the provenance is the pointer of a path of the effective tree |
| OverlayRun.CloneValue | internal/document/overlay.go:70-102 | Copies a value exactly, and refuses exactly those with a null in them |
| OverlayRun.EffectiveData.MarkProvenance | internal/document/overlay.go:104-111 | Stamps exactly the pointers of the value and of all it contains |
| OverlayRun.EffectiveData.OverlayKey | internal/document/overlay.go:34-66 | Takes over one member: refused, merged or replaced, with exactly the claimed paths stamped; a refusal is a null in the member or a path where both sides disagree, with the provenance the path had |
| OverlayRun.EffectiveData.OverlayObject | internal/document/overlay.go:27-68 | The loop over keys, in any order, computes the merge and stamps exactly the claimed paths |
| OverlayRun.EffectiveData.OverlaySources | internal/document/overlay.go:8-25 | The loop over sources computes the overlay and its provenance, unnamed layers named by position; a refusal is explained by a null or by a clash that names the origin of what the layers below have at its path |
| OverlayRun.LayersNamed | internal/document/overlay.go:12-16 | A layer is known by its own name, or else by its position in decimal digits |
| OverlayRun.ClashNamesOrigin | internal/document/overlay.go:54-61 | At a path where a layer disagrees with the layers below, the provenance names the origin of what they have there, so the fallback name is never used |
| JsonRoundTrip.DocumentRead | internal/document/decode.go:81-99 | Reading the text of a document with any white space, escapes, lone surrogates among them, and member order gives exactly what it says |
| JsonLexis.NumberGrammar | internal/document/decode.go:81-99 | The number texts are exactly those of the grammar in section 6 of RFC 8259 |
| JsonLexis.SurrogatesCombine | internal/document/decode.go:81-99 | A pair of surrogate escapes reads as the code point it stands for |
| JsonLexis.HexDigitsExact | internal/document/decode.go:81-99 | Four hexadecimal digits, of either case, read as their value |
| JsonLexis.ShortEscapesExact | internal/document/decode.go:81-99 | The eight short escapes read as the characters they stand for |
| JsonComplete.DocumentWritten | internal/document/decode.go:81-99 | Every text the reader accepts is the text of such a document, which says what was read |
| CanonicalJson.CanonicalReads | internal/fingerprint/canonical_json.go:50-209 | Canonical text reads back as the value it was written from |
| CanonicalJson.CanonicalInjective | internal/fingerprint/canonical_json.go:50-209 | Different values have different canonical texts |
| CanonicalJson.IntegerTextOfValue | internal/fingerprint/canonical_json.go:211-230 | An integer text is the text of its value unless it is -0 |
| CanonicalForm.CanonicalExactly | internal/fingerprint/canonical_json.go:50-209 | A text is the canonical text of a value exactly when it is the text of a document that reads as the value and is in canonical form: no white space, keys strictly increasing, shortest integers, and every character as itself unless it is reserved, then by its short escape or else by lower-case \u |
| CanonicalForm.WrittenIsCanonical | internal/fingerprint/canonical_json.go:50-209 | Whatever is written is in that form |
| CanonicalForm.CanonicalIsHarmless | internal/fingerprint/canonical_json.go:50-209 | Canonical text has no control character and none of the characters <, >, &, U+2028 and U+2029 |
| StringOrder.CodePointOrder | internal/fingerprint/canonical_json.go:186-190 | The order of keys is that of their first differing code points, a prefix coming first |
| Decimal.ValueIsPositional | internal/fingerprint/canonical_json.go:211-230 | The value of a digit string is the sum of its digits times powers of ten |
| StrictJson.StrictRoundTrip | internal/document/decode.go:81-201 | Decoding the canonical text of any value without nulls and with 64-bit integers returns it |
| StrictJson.CanonicalTextInjective | internal/fingerprint/canonical_json.go:50-209 | Distinct such values have distinct canonical texts |
| StrictJson.DecodedIsCanonicalizable | internal/document/decode.go:81-201 | Whatever decodes strictly has a canonical text that decodes to the same value |
| StrictJson.StrictIsLaxWithoutDuplicates | internal/document/decode.go:101-201 | The strict decoder accepts exactly the documents without repeated keys that resolve, with the same value |
| SourceLayout.LayoutIsIrrelevant | internal/document/decode.go:81-201 | Any two accepted texts that read the same up to member order decode alike and have the same canonical text |
| SourceLayout.DocumentsDecodeAlike | internal/document/decode.go:81-201 | So do the texts of two documents equal up to white space, escapes and member order |
| JsonRun.CanonicalWriter.Write | internal/fingerprint/canonical_json.go:50-115 | Appends exactly the canonical text, and refuses exactly values with a number that is not an integer |
| JsonRun.CanonicalWriter.WriteList | internal/fingerprint/canonical_json.go:171-183 | Appends the canonical text of a list |
| JsonRun.CanonicalWriter.WriteObject | internal/fingerprint/canonical_json.go:185-209 | Appends the canonical text of an object, members by sorted key |
| JsonRun.DecodeValue | internal/document/decode.go:101-132 | The decoder computes the strict decoding |
| JsonRun.DecodeArray | internal/document/decode.go:169-187 | The list loop computes the strict decoding |
| JsonRun.DecodeObject | internal/document/decode.go:134-167 | The member loop computes the strict decoding and refuses a repeated key |
| StringOrder.SortKeys | internal/fingerprint/canonical_json.go:186-190 | Collecting and sorting keys gives the one sorted list of the set |
| OutputText.PipelinesAgreeIff | cmd/controller/main.go:3586-3607 | For every document that resolves, the reported text equals the resolved one exactly when no zero is written -0 |
| OutputText.ReportIdempotent | cmd/controller/main.go:3586-3607 | Canonicalising a reported text again changes nothing |
| OutputText.ResolvedIdempotent | cmd/controller/workflow_outputs.go:96-217 | The resolved text is a fixed point of both canonicalisations |
| OutputText.HashCheckIff | cmd/controller/workflow_dependency_store.go:316-330 | The check on the recorded hash passes exactly when no zero is written -0, up to hash collisions |
| OutputText.MinusZeroDisagrees | cmd/controller/main.go:3586-3607 | The document -0 is reported as -0 and resolves to 0 |
| OutputText.PlainNumberIsInteger | cmd/controller/workflow_outputs.go:144-156 | A number text without point and exponent is an integer text |
| StepOutput.OrderIsIrrelevant | cmd/controller/workflow_outputs.go:219-318 | The aggregate of a step depends only on which items there are |
| StepOutput.OrdinaryAggregate | cmd/controller/workflow_outputs.go:219-318 | Of ordinary items, one gives its bare object; otherwise the aggregate decodes to the list of their values by increasing index |
| StepOutput.AggregatesIff | cmd/controller/workflow_outputs.go:219-318 | Ordinary items have an aggregate exactly when their indexes differ, each succeeded with an object of a fitting size, and the resulting text fits |
| StepOutput.CollectOutputs | cmd/controller/workflow_outputs.go:242-280 | The loop accepts exactly distinct indexes with all items ready, and collects values and collection members in order |
| CollectionOutput.IndexesExact | cmd/controller/workflow_outputs.go:363-499 | Success means the member indexes are exactly those below the member count, each once |
| CollectionOutput.AggregatedIff | cmd/controller/workflow_outputs.go:363-499 | Where neither the hash nor the validation of the manifest objects, outputs are aggregated exactly when each stands by itself and every two agree and do not collide; no member is special |
| CollectionOutput.NoneMissing | cmd/controller/workflow_outputs.go:495-499 | With as many members as announced, in range and different, no index is missing: this check never refuses anything |
| CollectionOutput.ManifestShared | cmd/controller/workflow_outputs.go:506-517 | What the manifest says of asset, domain, fingerprint, dimension order, kinds and count, every member says too |
| CollectionOutput.MembersHashed | cmd/controller/workflow_outputs.go:501-505 | The recorded hash is that of the members by increasing index |
| CollectionOutput.PathsRendered | cmd/controller/workflow_outputs.go:523-580 | Every local path is the manifest root followed by the shared template rendered with the member bindings |
| CollectionOutput.BindingsDiffer | cmd/controller/workflow_outputs.go:435-438 | No two members share the values of all dimensions |
| CollectionOutput.DimensionsExact | cmd/controller/workflow_outputs.go:463-481 | Each dimension lists exactly the values that occur, each once |
| CollectionOutput.OrderIsIrrelevant | cmd/controller/workflow_outputs.go:363-521 | Permuting the inputs gives the same manifest, or none again |
| CollectionOutput.CollectDimensions | cmd/controller/workflow_outputs.go:463-481 | The loops over members and dimension names, remembering value keys, accumulate exactly the specified dimensions |
| CollectionOutput.AggregateMembers | cmd/controller/workflow_outputs.go:377-521 | The loops over sorted members compute the specified manifest or refusal |
| CollectionOutput.CheckMembers | cmd/controller/workflow_outputs.go:393-499 | The loop with what it has seen accepts exactly members that conform and are pairwise compatible |
| SourceBundle.ValidateEntries | cmd/worker/source_bundle.go:90-128 | Entries are accepted exactly when each is valid, all paths differ and no file is a proper ancestor of an entry, and are then planned in order |
| SourceBundle.FileAbove | cmd/worker/source_bundle.go:200-216 | The walk up finds a file on the path exactly when there is one |
| SourceBundle.AnyBelow | cmd/worker/source_bundle.go:218-226 | Finds a path below this one exactly when there is one |
| SourceBundle.PrefixIsAncestor | cmd/worker/source_bundle.go:218-226 | Comparing texts with a slash appended compares paths name by name |
| SourceBundle.OrderIsIrrelevant | cmd/worker/source_bundle.go:90-128 | Whether a list is accepted does not depend on its order |
| SourceBundle.TreeAcceptedIff | cmd/worker/source_bundle.go:90-128 | The listing of files and directories with safe names is accepted exactly when no path occurs twice and nothing lies below a file |
| SourceBundle.TargetUnderRoot | cmd/worker/source_bundle.go:235-237 | Every extraction target lies under the root, by proper names only |
| SourceBundle.TargetsDiffer | cmd/worker/source_bundle.go:105-107 | Accepted entries go to different targets |
| ShellQuoting.CommandLineRoundTrip | cmd/controller/slurm_worker_script.go:160-170 | Word splitting and quote removal of the joined quoted line returns exactly the argument list |
| ShellQuoting.ShellCommand | cmd/controller/slurm_worker_script.go:160-166 | The loop builds that line, and the shell reads back the arguments |
| ShellQuoting.CommandLineInjective | cmd/controller/slurm_worker_script.go:160-166 | Different argument lists have different command lines |
| ShellQuoting.ArgumentRead | cmd/controller/bash_shell_platform.go:14-16 | A quoted argument is read as one word with its value, whatever it contains |

## Left out

- The SQL store: transactions are abstract state; only the refusals its inserts make are modelled.
- The workflow compiler, the variable resolver and the validators of `internal/model`: oracles and stated assumptions.
- `splitCompiledWorkflowByStage`, `workflowStepScope`, the counters of `submissionDependencyStatusFromPlan` and `workerDemand`: they would add only easy members.
- Two report handlers interleaved inside the store: each handler is one atomic step.
- Crashes that strand destination locks, and nested destinations.
- The emission of observations, log texts and error messages; error paths are modelled, their wording is not.
- YAML sources, and format selection by media type or file name.
- SHA-256: a function of which nothing is assumed.
- JSON objects changed through aliases: `OverlayRun` updates its own tree and provenance in place, nested objects are values.
- Work of other runs in the queue: a run sees its own items only.
- WorkflowCoverExact.OutputCoversIff: is exact over the runs in which no output is refused, because which refusals leave a run going depends on the other steps of the stage; with refusals `WorkflowCover.OutputMeansFinished` gives the one direction, for steps without a deferred item or with the same dependencies throughout.
- JsonRun.DecodeValue: decodes a document already read, not a token at a time, because the reader and the decoder fail on the same texts either way.
- JsonRun.DecodeArray: loops over the items read, not over tokens, for the same reason.
- JsonRun.DecodeObject: loops over the members read, not over tokens, for the same reason.
