# Verification of the ACES runtime control plane

This project models the processor's runtime side as Dafny code and proves properties of it: the control plane that
advances one snapshot by backend calls, cancellations, timeout reconciliation and participant actions; the three
contract checkers that guard every backend result; the operation stores behind idempotent submission and restart; the
runtime manager with its rollback; the reference services; planning; and the import of modules under a namespace.

Code that changes state step by step is a class or a method with loops, each proved against a specification
function; the results are lemmas about those functions over all inputs and all runs. What the functions themselves
mean is stated once more without them, on fields, positions and texts (the `Outcomes` modules and `CheckerRules`). A
backend is arbitrary: it may raise, return something of the wrong shape, or return any result at all. Clock readings,
operation ids and dictionary orders are parameters.

| part | files |
|---|---|
| data | `RuntimeModels`, `Wrappers`, `Text` |
| checkers and boundary | `WorkflowContracts`, `EvaluationContracts`, `ParticipantEpisodes`, `BackendBoundary`, `CheckerRules` |
| unchecked writes | `Compensation`, `WorkflowControl`, `WorkflowSafety`, `WorkflowOutcomes`, `CompensationOrder` |
| control plane | `ControlPlane`, `ControlPlaneRuns`, `Idempotency`, `Restarts` |
| stores | `StorePayloads`, `OperationStore` |
| participants | `ParticipantRuntime`, `ParticipantLogs`, `ParticipantRuns`, `ParticipantOutcomes` |
| manager and services | `RuntimeManager`, `ManagerSafety`, `StubServices`, `StubContracts`, `StubRuns` |
| planning | `Plans`, `DependencyGraph`, `Planner`, `PlanConvergence`, `PlanOutcomes`, `NodeCount`, `CompilerOrdering` |
| modules | `Namespacing`, `ModuleComposition`, `ModuleOutcomes` |

`dafny verify dfyconfig.toml` checks everything.

## What turned out

- Cancellation and reconciliation write the snapshot without running the checkers. `StepAcceptedIff` says exactly
  when that is safe; `BareRunBreaks` gives an accepted snapshot from which both write a rejected one, and
  `RejectedRunWedges` says what follows for later backend calls.
- `specs/formal/workflows/compensation.md` promises strict reverse completion order. The code sorts timestamp texts,
  and the clock writes a fraction of six digits but leaves out a zero one, so the promise fails for two completions
  within one second (`FractionalSecondsBreakReverseCompletion`); `CancelInReverseIff` gives the exact condition.
- On a target without a participant runtime a key can come to belong to two operations (`BypassRebinds`).
- A caller can give a new participant episode the id of an earlier one (`CallersCanReuseIds`).
- An initial snapshot is not stored before the first save (`InitialSnapshotIsForgotten`).
- The rollback of a failed apply clears whole domains (`RollbackClears`), so it restores the snapshot from before the
  apply only if nothing ran there; `RollbackRestoresIff` gives the exact condition.
- With dotted names and an undeclared feature, feature bindings of two nodes can form one ordering cycle
  (`BorrowedNamesJoinNodes`); `FeatureCyclesStayOnOneNodeIff` gives the exact condition.

## Model

| member | source | states |
|---|---|---|
| WorkflowContracts.StepViolations | implementations/python/packages/aces_sdl/semantics/workflow.py:85-126 | The shared step rules object to nothing exactly when the step state conforms to its contract, and each of the eight rules is reported exactly when it is broken. |
| WorkflowContracts.MonotoneDiagnostics | implementations/python/packages/aces_processor/manager.py:394-416 | One pass that remembers only the previous timestamp, and skips unreadable ones, is silent exactly when every timestamp parses and every earlier one is not after every later one. |
| WorkflowContracts.StepDiagnostics | implementations/python/packages/aces_processor/manager.py:479-549 | The comparisons and loops over steps are silent exactly when the result reports the observable steps, each conforming to its contract, and no completed step has an outcome outside its domain. |
| WorkflowContracts.EventDiagnostics | implementations/python/packages/aces_processor/manager.py:575-667 | An event draws no diagnostic exactly when its step, switch, call, join and compensation references are those of the execution contract. |
| WorkflowContracts.TerminalDiagnostics | implementations/python/packages/aces_processor/manager.py:669-698 | Silent exactly when a terminal status is recorded by its event and every compensation event comes after the last such record. |
| WorkflowContracts.CompensationDiagnostics | implementations/python/packages/aces_processor/manager.py:711-757 | Silent exactly when the compensation status agrees with the compensation events of the history, its last one in particular. |
| WorkflowContracts.HistoryDiagnostics | implementations/python/packages/aces_processor/manager.py:551-757 | Silent exactly when a non-empty history starts with workflow_started, all its events are allowed, a running workflow does not end in a terminal event, and terminal and compensation events agree with the state. |
| WorkflowContracts.RunDiagnostics | implementations/python/packages/aces_processor/manager.py:394-757 | Silent exactly when state, steps and history conform to the two contracts. |
| WorkflowContracts.AddressDiagnostics | implementations/python/packages/aces_processor/manager.py:284-757 | Silent exactly when the address has a workflow entry with two well-formed contracts to which its result and history conform. |
| WorkflowContracts.WorkflowDiagnostics | implementations/python/packages/aces_processor/manager.py:258-757 | The whole workflow checker is silent exactly on snapshots in which every workflow result conforms to its two compiled contracts and its history leads to it; all its diagnostics are errors. |
| EvaluationContracts.EvaluationViolations | implementations/python/packages/aces_processor/models.py:1773-1801 | The result rules object to nothing exactly when type, schema and measurement are what the compiled result contract asks for, and each of the seven rules is reported exactly when it is broken. |
| EvaluationContracts.AddressDiagnostics | implementations/python/packages/aces_processor/manager.py:800-1055 | Silent exactly when the address is observable, its contracts and result are well formed, and result and history conform to them. |
| EvaluationContracts.EvaluationDiagnostics | implementations/python/packages/aces_processor/manager.py:760-1057 | The whole evaluation checker is silent exactly when every observable address has a result, and every result conforms to its compiled contracts together with its history. |
| ParticipantEpisodes.StreamViolations | implementations/python/packages/aces_processor/models.py:1639-1686 | The single pass with its last sequence number and its map of episode ids finds nothing exactly when, for all pairs of events, numbers do not decrease, equal numbers carry equal ids, and every increase after the first event arrives by a reset or restart. |
| ParticipantEpisodes.HistoryViolations | implementations/python/packages/aces_processor/models.py:1599-1686 | Finds nothing exactly when the key is not empty, every event is well formed and belongs to the participant, and the stream is in order. |
| ParticipantEpisodes.HeadViolations | implementations/python/packages/aces_processor/models.py:1688-1770 | For an accepted history the cross-check finds nothing exactly when the result is the head of the history: same episode, same number, terminated with the same reason exactly when the head is terminal. |
| ParticipantEpisodes.SnapshotViolations | implementations/python/packages/aces_processor/models.py:1531-1770 | The violation iterator yields nothing exactly when all results and histories of the snapshot are accepted. |
| BackendBoundary.CallBackendApply | implementations/python/packages/aces_processor/manager.py:106-255 | A backend that raises, returns the wrong shape, or reports a snapshot that any of the three checkers rejects leaves the caller with a failure on the snapshot it came with and an error diagnostic, whose code and address tell the first two apart; any other result passes unchanged. |
| BackendBoundary.EpisodeDiagnostics | implementations/python/packages/aces_processor/manager.py:1060-1077 | One error diagnostic for each violation, so silent exactly when the participant side is accepted. |
| CheckerRules.WorkflowAcceptedIff | implementations/python/packages/aces_processor/manager.py:258-757 | The workflow checker accepts exactly the runs that keep its rules, written as tables: what a step may report in each stage, what an event of each type may refer to, what each status demands of reason, record and compensation events, and timestamps that ascend from one event to the next. |
| CheckerRules.EvaluationAcceptedIff | implementations/python/packages/aces_processor/manager.py:760-1057 | The same for evaluations: what may be measured, and which event must be last, in each status. |
| CheckerRules.EpisodesAcceptedIff | implementations/python/packages/aces_processor/models.py:1531-1770 | The same for participants: what an episode carries by its number and status, what each event carries by its type, that an event stays in the episode of its predecessor or opens a later one, and that the result has id, number and reason of the last event. |
| CheckerRules.PassesIff | implementations/python/packages/aces_processor/manager.py:106-255 | The boundary lets a backend's answer through exactly when its snapshot keeps all these rules and every observable address has a result. |
| Compensation.CompensationSchedule | implementations/python/packages/aces_processor/control_plane.py:171-267 | Compensation happens exactly when the contract asks for it automatically, the status triggers it, and a compensable step is on record as succeeded; otherwise nothing changes. Then the history is the old one and a block of 3n+2 events: an opening with the trigger, for each event of the schedule a registration with its time, a start and a completion, each with its step and the workflow that compensates it, and a closing with the count. The schedule is exactly the succeeded completions of compensable steps, later texts first, ties in history order. |
| Compensation.LatestFirstIsStable | implementations/python/packages/aces_processor/control_plane.py:206 | The sort is descending by timestamp text, and of every text it keeps the events in history order. |
| Compensation.CompensableCounts | implementations/python/packages/aces_processor/control_plane.py:187-201 | Every succeeded completion of a compensable step is selected as often as it occurs, and nothing else is. |
| Compensation.CollectCompensable | implementations/python/packages/aces_processor/control_plane.py:187-201 | The loop selects the succeeded completions of compensable steps in history order. |
| Compensation.AppendBlock | implementations/python/packages/aces_processor/control_plane.py:207-249 | The appends put one block after the history, in the order of the list they are given; CompensationSchedule says what the block holds. |
| Compensation.MaybeApplyCompensation | implementations/python/packages/aces_processor/control_plane.py:171-267 | The procedure (guards, collect, sort, append, mark) computes what CompensationSchedule describes. |
| Compensation.ReverseCompletionIff | implementations/python/packages/aces_processor/control_plane.py:206 | The documented order is strict reverse completion; sorting the texts achieves it exactly when no smaller text stands for a later instant. |
| CompensationOrder.CancelInReverseIff | implementations/python/packages/aces_processor/control_plane.py:187-249 | Cancelling an accepted unfinished workflow writes its compensations in strict reverse completion order exactly when cancellation triggers none, or no completed compensable step has a timestamp with a smaller text and a later instant than another. |
| CompensationOrder.FractionalSecondsBreakReverseCompletion | implementations/python/packages/aces_processor/control_plane.py:47-48 | An accepted, well-logged run with two compensable steps completed half a second apart, whose cancellation registers the compensation of the step that completed first before that of the step that completed last. |
| WorkflowControl.ClosedConformsIff | implementations/python/packages/aces_processor/control_plane.py:325-343 | What closing an accepted unfinished workflow writes (terminal state, terminal event, compensation block) conforms to its contracts exactly when the history had begun, the clock is not behind its last event, and due compensation finds a completed compensable step on record. |
| WorkflowControl.CancelAcceptedIff | implementations/python/packages/aces_processor/control_plane.py:325-368 | The snapshot that a cancellation writes without running the checkers is accepted by all three exactly when the workflow was safe to close. |
| WorkflowControl.TimeOutIfDue | implementations/python/packages/aces_processor/control_plane.py:412-464 | One entry of the loop: raised on an unreadable state, skipped unless the workflow is due, closed otherwise; ReconciliationTurnsIff says when it is due. |
| WorkflowControl.ReconcileTimeouts | implementations/python/packages/aces_processor/control_plane.py:407-464 | The loop over all entries raises exactly when a watched state is unreadable; otherwise it times out the due workflows and reports their addresses in entry order. |
| WorkflowOutcomes.ReconciliationTurnsIff | implementations/python/packages/aces_processor/control_plane.py:407-472 | Reconciliation turns a result from running to timed out, and reports its address, exactly when the entry is an orchestration workflow with a timeout of n != 0 seconds, start and present time can be read, and the present is not before the start plus n seconds. What it then writes is given field by field; everything else is as before, and addresses are reported in entry order. |
| WorkflowOutcomes.ReconciliationRaisesIff | implementations/python/packages/aces_processor/control_plane.py:412-426 | It raises exactly when a workflow with a timeout has a result that cannot be read, whatever its status. |
| WorkflowOutcomes.ClosedWrites | implementations/python/packages/aces_processor/control_plane.py:325-343 | Closing sets status, reason and time, keeps run id, start and steps, puts the record behind the old history, and a block of compensations behind that exactly when the contract asks for it and a compensable step is on record as succeeded. |
| WorkflowOutcomes.CancellationWrites | implementations/python/packages/aces_processor/control_plane.py:284-368 | A cancellation is carried out exactly when the run is known, readable, the one that is meant and unfinished; it ends that run, with the given reason in state and record, and leaves everything else alone. |
| WorkflowSafety.ReconcileAcceptedIff | implementations/python/packages/aces_processor/control_plane.py:407-472 | The snapshot that reconciliation writes without running the checkers is accepted exactly when every due workflow was safe to close. |
| WorkflowSafety.ReconcileIsCompleteFramedIdempotent | implementations/python/packages/aces_processor/control_plane.py:407-472 | After reconciling at an instant no workflow runs whose start plus timeout is not after it, every workflow that was not due and the rest of the snapshot are untouched, and reconciling again at that instant changes and reports nothing. |
| WorkflowSafety.TerminalIsAbsorbing | implementations/python/packages/aces_processor/control_plane.py:302-343 | Over any sequence of cancellations and reconciliations a terminal result and its history never change, run id, start time and steps are never altered, and histories only grow. |
| WorkflowSafety.ClosedEvolves | implementations/python/packages/aces_processor/control_plane.py:325-343 | Closing leaves run id, start time and steps alone, sets status, reason and time, puts the record right after the old history, and compensates exactly when compensation fires. |
| WorkflowSafety.CancelStaysAccepted | implementations/python/packages/aces_processor/control_plane.py:345-369 | On accepted snapshots whose unfinished runs are backed by their histories, cancelling writes an accepted snapshot of that kind again. |
| WorkflowSafety.ReconcileStaysAccepted | implementations/python/packages/aces_processor/control_plane.py:458-472 | The same for reconciliation at a time that is not behind the clock. |
| WorkflowSafety.BareRunBreaks | implementations/python/packages/aces_processor/control_plane.py:325-369 | A running workflow without any history is accepted by the checkers, and both cancelling it and timing it out write snapshots that they reject. |
| WorkflowSafety.RejectedRunWedges | implementations/python/packages/aces_processor/manager.py:233-239 | Once such a run is in the snapshot, every backend result that leaves it alone is refused. |
| ControlPlaneRuns.StepAcceptedIff | implementations/python/packages/aces_processor/control_plane.py:743-814 | From an accepted snapshot one request leads to an accepted snapshot exactly when the plane does not act on it, or the backend result passes or falls back on an accepted base, or what is closed was safe to close. |
| ControlPlaneRuns.RunsHold | implementations/python/packages/aces_processor/control_plane.py:269-495 | Over every run, with backends that raise, lie or fail at will: if what passes the boundary is backed by its history and the clock does not run backward, acceptance and backing hold after every request. |
| ControlPlaneRuns.EverySnapshotAccepted | implementations/python/packages/aces_processor/control_plane.py:743-814 | Hence every snapshot the plane ever holds is accepted by all three checkers, those written unchecked included. |
| ControlPlaneRuns.EmptyHolds | implementations/python/packages/aces_processor/control_plane_store.py:257-259 | The empty snapshot of a fresh store is one to start from. |
| ControlPlaneRuns.OperationsTellOutcomes | implementations/python/packages/aces_processor/control_plane.py:743-814 | The operation of a backend call is recorded in its domain, under its key and fingerprint, and as succeeded exactly when its result passed and claims success, with the reported addresses and diagnostics behind those of the validation; the snapshot is the reported one or the base, and no other record changes. |
| ControlPlaneRuns.CancellationsTellOutcomes | implementations/python/packages/aces_processor/control_plane.py:269-392 | A cancellation raises exactly on an unreadable run and then changes nothing; it is refused with one error for an unknown run or another run id, succeeds without effect on an ended run, and otherwise ends the run and reports its address; one record is written. |
| ControlPlaneRuns.ReconciliationsTellOutcomes | implementations/python/packages/aces_processor/control_plane.py:394-495 | A reconciliation works at the time given, or without one at its own; it raises exactly when a watched result cannot be read and then changes nothing, and otherwise succeeds with exactly the addresses of the runs that timed out, in entry order. |
| ControlPlaneRuns.RefusalsTellOutcomes | implementations/python/packages/aces_processor/control_plane.py:101-123 | A submission that the target cannot serve leaves the snapshot alone and is recorded as failed with one error, a participant action under its key and fingerprint and the others under none. |
| StubRuns.StubRunsHold | implementations/python/packages/aces_backend_stubs/stubs.py:209-291 | For a plane served by the reference services nothing has to be assumed of the backends: all their results are backed by their histories. |
| StubRuns.StubRunsKeepLogs | implementations/python/packages/aces_backend_stubs/stubs.py:474-732 | Over every such run the participant histories stay complete logs of their results and only grow, whatever else the plane does in between. |
| StubRuns.StartedWellLogged | implementations/python/packages/aces_backend_stubs/stubs.py:238-276 | Starting workflows keeps every unfinished run backed by its history. |
| StubRuns.StubsKeepWellLogged | implementations/python/packages/aces_backend_stubs/stubs.py:162-423 | Every reference service, answering on a snapshot whose unfinished runs are backed by their histories, reports such a snapshot. |
| ControlPlane.RuntimeControlPlane.constructor | implementations/python/packages/aces_processor/control_plane.py:54-64 | A plane starts from the snapshot handed in, or else from the stored one, with the stored records. |
| ControlPlane.RuntimeControlPlane.IdempotentReceipt | implementations/python/packages/aces_processor/control_plane.py:816-830 | No key or an unknown key proceeds, clashing fingerprints raise and change nothing, and anything else replays the stored receipt; HeldKeyAnswers says when fingerprints clash. |
| ControlPlane.RuntimeControlPlane.PersistRecord | implementations/python/packages/aces_processor/control_plane.py:832-834 | The record enters the operations and the store under its operation id. |
| ControlPlane.RuntimeControlPlane.RejectSubmission | implementations/python/packages/aces_processor/control_plane.py:702-741 | A failed operation with one error diagnostic is recorded under the given key, and the snapshot stays. |
| ControlPlane.RuntimeControlPlane.ExecuteOperation | implementations/python/packages/aces_processor/control_plane.py:743-814 | Lookup, running record, screened call, adoption, final record: the reply and the whole next state of the plane and its store. |
| ControlPlane.RuntimeControlPlane.SubmitProvisioning | implementations/python/packages/aces_processor/control_plane.py:77-99 | Validation findings go into the receipt but do not stop the apply. |
| ControlPlane.RuntimeControlPlane.SubmitOrchestration | implementations/python/packages/aces_processor/control_plane.py:101-123 | Without an orchestrator the submission is rejected, without regard to its key. |
| ControlPlane.RuntimeControlPlane.SubmitEvaluation | implementations/python/packages/aces_processor/control_plane.py:125-147 | Without an evaluator the submission is rejected, without regard to its key. |
| ControlPlane.RuntimeControlPlane.ControlParticipantEpisode | implementations/python/packages/aces_processor/control_plane.py:497-676 | The four participant actions; without a participant runtime they are rejected and recorded under their key before it is looked up. |
| ControlPlane.RuntimeControlPlane.CancelWorkflow | implementations/python/packages/aces_processor/control_plane.py:269-392 | Rejects unknown runs and other run ids, raises on an unreadable state, accepts terminal workflows without effect, and otherwise closes the run and saves. |
| ControlPlane.RuntimeControlPlane.ReconcileWorkflowTimeouts | implementations/python/packages/aces_processor/control_plane.py:394-495 | Raises before any change if a watched state is unreadable; otherwise adopts, saves and records the reconciled snapshot. |
| Idempotency.ExactlyOnce | implementations/python/packages/aces_processor/control_plane.py:278-283 | In any interleaved run in which no held key is recorded unseen: once a served request with a key was answered by a receipt, every later served request with that key gets the same receipt, or an error exactly if its fingerprint and that of the recorded request are non-empty and differ; the plane does not act and nothing changes. |
| Idempotency.HeldKeyAnswers | implementations/python/packages/aces_processor/control_plane.py:816-830 | The same for one request under a held key, with the record that holds it. |
| Idempotency.ActsIff | implementations/python/packages/aces_processor/control_plane.py:755-760 | The plane acts on a request exactly when the target serves it and no recorded operation holds its key. |
| Idempotency.KeyedRecordsBroughtIn | implementations/python/packages/aces_processor/control_plane.py:797-812 | Every record under a key was there from the beginning or bears key and fingerprint of the request that drew its operation id. |
| Idempotency.BindingLasts | implementations/python/packages/aces_processor/control_plane.py:816-830 | What a key finds it keeps finding as long as recorded operations stay as they are. |
| Idempotency.RunsStayCoherent | implementations/python/packages/aces_processor/control_plane.py:816-834 | Over every such run each key stays bound to one operation. |
| Idempotency.ServingParticipantsNeverBypasses | implementations/python/packages/aces_processor/control_plane.py:505-511 | On a target with a participant runtime every run is such a run. |
| Idempotency.RunsStayMirrored | implementations/python/packages/aces_processor/control_plane.py:66 | Over every run on every target, with any operation ids, the plane's copy of the operations is the store's. |
| Idempotency.OperationsLast | implementations/python/packages/aces_processor/control_plane.py:149-151 | What a caller reads of an operation stays what it is: over every run on every target recorded operations never change, and new ones are finished when their request returns. |
| Idempotency.StepKeepsCoherentIff | implementations/python/packages/aces_processor/control_plane.py:702-741 | One step with a fresh operation id keeps each key bound to one operation exactly when it is not a rejection for want of a participant runtime under a key that is held already. |
| Idempotency.BypassRebinds | implementations/python/packages/aces_processor/control_plane.py:505-511 | Such a rejection makes the in-memory store answer for the new operation, although the key belonged to another. |
| Idempotency.ReplayChangesNothing | implementations/python/packages/aces_processor/control_plane.py:829 | Refreshing the copy on a replay changes nothing in a plane whose copy of the operations is its store's. |
| OperationStore.IndexAgreesWithScanIff | implementations/python/packages/aces_processor/control_plane_store.py:226-238 | After any sequence of saves the index and the file scan answer alike for a key exactly when the key was never used, or its last user still holds it and sorts before every other holder. |
| OperationStore.IndexRefinesScan | implementations/python/packages/aces_processor/control_plane_store.py:269-297 | So they answer alike whenever keys and operations correspond one to one. |
| OperationStore.LocalControlPlaneStore.FindByIdempotency | implementations/python/packages/aces_processor/control_plane_store.py:290-297 | The scan returns the record with the key whose operation id sorts first, and none exactly when no record has the key. |
| OperationStore.LocalControlPlaneStore.SaveRecord | implementations/python/packages/aces_processor/control_plane_store.py:279-288 | Reading, extending and rewriting the file adds the one record and keeps all others. |
| OperationStore.InMemoryControlPlaneStore.SaveRecord | implementations/python/packages/aces_processor/control_plane_store.py:226-229 | The record is kept under its operation id, and a non-empty key is indexed to it. |
| OperationStore.InMemoryControlPlaneStore.FindByIdempotency | implementations/python/packages/aces_processor/control_plane_store.py:231-238 | The record of the operation that the index names. |
| OperationStore.LocalControlPlaneStore.SaveSnapshot | implementations/python/packages/aces_processor/control_plane_store.py:263-267 | Writing the snapshot file makes loading return that snapshot and leaves the records alone. |
| OperationStore.LocalControlPlaneStore.LoadSnapshot | implementations/python/packages/aces_processor/control_plane_store.py:257-261 | The snapshot that the file holds, and the empty one if there is no file. |
| StorePayloads.RecordsRoundTrip | implementations/python/packages/aces_processor/control_plane_store.py:154-205 | Reading back the records payload gives the records that were written, receipts, statuses, diagnostics and keys included. |
| StorePayloads.SnapshotRoundTrip | implementations/python/packages/aces_processor/control_plane_store.py:68-125 | Reading back the snapshot payload gives the snapshot that was written. |
| Restarts.RestartsAreInvisible | implementations/python/packages/aces_processor/control_plane.py:54-64 | On a plane that a restart leaves as it is, on any target and with any operation ids and keys, restarts after any turns of any run change nothing: same snapshot, same records, same replies. |
| Restarts.StepRestartIff | implementations/python/packages/aces_processor/control_plane.py:369 | After a step a restart goes unnoticed exactly when the step saved the snapshot or a restart would have gone unnoticed before it. |
| Restarts.RunRestartIff | implementations/python/packages/aces_processor/control_plane.py:54-64 | A restart after a run goes unnoticed exactly when it would have gone unnoticed before the run or some turn saved the snapshot. |
| Restarts.OpenedFromStore | implementations/python/packages/aces_processor/control_plane.py:62-64 | A plane that starts from its store is one that a restart leaves as it is. |
| Restarts.InitialSnapshotIsForgotten | implementations/python/packages/aces_processor/control_plane.py:62-63 | Whatever the store holds, a snapshot handed in at the start is lost by a restart before the first save, exactly unless it is the stored one. |
| Restarts.StoresAreInterchangeable | implementations/python/packages/aces_processor/control_plane_store.py:208-297 | Over every run in which no held key is recorded unseen, a plane on the in-memory store and one on the file store give the same replies and hold the same state. |
| Restarts.EmptyPlanesAlike | implementations/python/packages/aces_processor/control_plane_store.py:211-259 | Fresh planes on two empty stores are such a pair. |
| ParticipantRuntime.StubParticipantRuntime.Initialize | implementations/python/packages/aces_backend_stubs/stubs.py:474-516 | Rejects an empty address and a participant that has a result; otherwise opens episode 0 and starts the history anew. |
| ParticipantRuntime.StubParticipantRuntime.Reset | implementations/python/packages/aces_backend_stubs/stubs.py:518-577 | Rejects unless there is a valid live episode; otherwise opens the next one, or raises if the id is the current one, with the counter already moved. |
| ParticipantRuntime.StubParticipantRuntime.Restart | implementations/python/packages/aces_backend_stubs/stubs.py:579-638 | Rejects unless there is a valid terminated episode; otherwise opens the next one or raises as a reset does. |
| ParticipantRuntime.StubParticipantRuntime.Terminate | implementations/python/packages/aces_backend_stubs/stubs.py:640-691 | Rejects unless there is a valid live episode; otherwise ends it; TerminateTells says what it writes. |
| ParticipantRuntime.StubParticipantRuntime.AllocateEpisodeId | implementations/python/packages/aces_backend_stubs/stubs.py:743-746 | The next number of the participant, and the counter moves. |
| ParticipantRuntime.StubParticipantRuntime.Apply | implementations/python/packages/aces_backend_stubs/stubs.py:705-732 | The result is replaced, the history replaced or extended, and the memory mirrors the snapshot. |
| ParticipantRuntime.StubParticipantRuntime.Commit | implementations/python/packages/aces_processor/models.py:1330-1397 | If the constructor of the state or of an event raises, nothing is applied. |
| ParticipantRuns.RunsStaySound | implementations/python/packages/aces_backend_stubs/stubs.py:474-732 | Over any sequence of requests with any addresses and ids, raising ones included: the snapshot stays accepted, every history is a complete log of its result, the runtime mirrors the snapshot, and histories are only extended. |
| ParticipantRuns.ServeKeepsSound | implementations/python/packages/aces_backend_stubs/stubs.py:705-732 | Every call either raises or returns a result that the boundary lets through unchanged. |
| ParticipantOutcomes.InitializeTells | implementations/python/packages/aces_backend_stubs/stubs.py:474-516 | Initializing succeeds exactly for a named participant without an episode: number 0, no predecessor, the caller's id or the allocated one, which is counted, and two events. |
| ParticipantOutcomes.ReopeningTells | implementations/python/packages/aces_backend_stubs/stubs.py:518-638 | A reset of a live episode or a restart of an ended one opens the next: one number higher, with the current episode as predecessor and the reason on record. It raises exactly when the id is the current one, with an allocated id counted all the same, and is refused otherwise. |
| ParticipantOutcomes.TerminateTells | implementations/python/packages/aces_backend_stubs/stubs.py:640-691 | Terminating succeeds exactly for a participant whose episode has not ended: the result keeps its episode and has the given reason, and the history gains one event with that reason and the detail. |
| ParticipantLogs.MoveKeepsFaithful | implementations/python/packages/aces_backend_stubs/stubs.py:518-732 | After every accepted action, replaying the participant's whole history gives exactly its current result (id, number, status, reason, previous id, last action, timestamps). |
| ParticipantLogs.ChainIsOrdered | implementations/python/packages/aces_processor/models.py:1639-1686 | Such a log satisfies the stream rules, and its sequence numbers run from 0 to the last without a gap. |
| ParticipantLogs.FaithfulAccepted | implementations/python/packages/aces_processor/models.py:1688-1770 | The result of a complete log is the head of its history. |
| ParticipantRuns.RaisesIff | implementations/python/packages/aces_backend_stubs/stubs.py:534-549 | A call raises exactly when it gets past the guards of a reset or restart and takes the id of the current episode. |
| ParticipantRuns.RaisedResetSucceedsNextTime | implementations/python/packages/aces_backend_stubs/stubs.py:743-746 | A reset that raised over an allocated id leaves the snapshot alone and succeeds when it is sent again. |
| ParticipantRuns.NewEpisodeKeepsIdsDistinctIff | implementations/python/packages/aces_backend_stubs/stubs.py:535 | An accepted reset or restart keeps one id per sequence number exactly when its id was not used before in the history. |
| ParticipantRuns.CallersCanReuseIds | implementations/python/packages/aces_backend_stubs/stubs.py:535 | Callers can bring back any earlier id except the current one. |
| ParticipantRuns.OpenRunsNeverRaise | implementations/python/packages/aces_backend_stubs/stubs.py:743-746 | If no caller supplies ids, no call of a run raises and no two episodes of a participant share an id. |
| ParticipantRuns.EpisodeNamesInjective | implementations/python/packages/aces_backend_stubs/stubs.py:746 | Allocated ids determine the participant and the number. |
| RuntimeManager.RuntimeManager.Apply | implementations/python/packages/aces_processor/manager.py:1218-1391 | A plan succeeds exactly when it is applicable and every call it led to returned success without an error; findings and changed addresses are those of the plan, the validation and the phases in order; a refused plan reaches no backend and changes nothing; the adopted snapshot is the one that the phases lead to. |
| RuntimeManager.RuntimeManager.Destroy | implementations/python/packages/aces_processor/manager.py:1413-1500 | Stops what the target has, then deletes every provisioning entry dependents first, on the snapshots that the calls before leave. It succeeds exactly when every call returned success without an error, and reports findings and changed addresses of all phases in order. |
| RuntimeManager.RuntimeManager.Rollback | implementations/python/packages/aces_processor/manager.py:1136-1170 | Stops the given services in the given order, each whether or not an earlier one failed to stop, and adds what they find and change. |
| RuntimeManager.RuntimeManager.Phase | implementations/python/packages/aces_processor/manager.py:1124-1133 | One screened call on the snapshot that the phase before it leaves: its findings, with an error added if it failed without one, and its changed addresses are added to those so far. |
| RuntimeManager.RuntimeManager.ProvenanceDiagnostics | implementations/python/packages/aces_processor/manager.py:1080-1121 | Silent exactly when the plan was made for this target, manifest and snapshot; otherwise one error for each way in which it was not. |
| RuntimeManager.RuntimeManager.Refusal | implementations/python/packages/aces_processor/manager.py:1219-1284 | A plan is refused, with an error, exactly when it is not applicable. |
| ManagerSafety.ApplyAdoptsAccepted | implementations/python/packages/aces_processor/manager.py:1218-1391 | Whatever the services do, apply replaces an accepted snapshot by an accepted one. |
| ManagerSafety.DestroyAdoptsAccepted | implementations/python/packages/aces_processor/manager.py:1413-1500 | So does destroy. |
| ManagerSafety.RollbackUndoesStarts | implementations/python/packages/aces_processor/manager.py:1301-1383 | A plan that completes stops nothing; one that does not stops exactly the services it asked to start, in reverse order. |
| ManagerSafety.ApplyAsks | implementations/python/packages/aces_processor/manager.py:1300-1391 | The calls of an apply in order: the evaluator is asked if provisioning succeeded and something is to be done, the orchestrator if that succeeded too and something is to be done, and whoever was asked is stopped in reverse order if a start fails; the plan completes exactly when all that are asked succeed. |
| ManagerSafety.RollbackClears | implementations/python/packages/aces_processor/manager.py:1349-1383 | If the orchestrator fails to start after the evaluator was started, stops that clear their domain leave no orchestration or evaluation entry, result or history, of earlier applies neither, and every other entry as the failed start left it. |
| ManagerSafety.RollbackRestoresIff | implementations/python/packages/aces_processor/manager.py:1349-1383 | Such a rollback restores the snapshot from before the apply exactly when nothing of orchestration or evaluation was there and the failed start left everything else as it was. |
| ManagerSafety.DestroyLeavesParticipants | implementations/python/packages/aces_processor/manager.py:1413-1500 | With the reference services, destroying from an accepted snapshot succeeds and leaves exactly the participant domain. |
| ManagerSafety.DestroySucceedsIff | implementations/python/packages/aces_processor/manager.py:1413-1500 | With stops that clear their domains and the reference provisioner, destroying is reported as a success exactly if neither stop brings an error along, and its phases end on the participant domain. |
| StubServices.StubEvaluator.Start | implementations/python/packages/aces_backend_stubs/stubs.py:337-423 | The snapshot, result and memory after the loop over the operations. |
| StubServices.StubOrchestrator.Start | implementations/python/packages/aces_backend_stubs/stubs.py:209-291 | The same for the orchestrator, which starts a workflow anew even for an unchanged operation. |
| StubServices.StubProvisioner.Apply | implementations/python/packages/aces_backend_stubs/stubs.py:168-197 | The same for the provisioner. |
| PlanOutcomes.ProvisionerTells | implementations/python/packages/aces_backend_stubs/stubs.py:168-197 | The last operation on an address removes its entry or leaves its own with status applied or unchanged; other addresses keep theirs. |
| PlanOutcomes.OrchestratorTells | implementations/python/packages/aces_backend_stubs/stubs.py:209-291 | The last operation on an address removes everything there or leaves its entry, queued or bound; a workflow then runs from its start, every observable step pending, with the start as its history. |
| PlanOutcomes.EvaluatorTells | implementations/python/packages/aces_backend_stubs/stubs.py:337-423 | The last operation on an address removes everything there or leaves its entry, a ready result with a pass and the full score as far as its contract has them, and a history of start and readiness. |
| PlanOutcomes.ChangedTells | implementations/python/packages/aces_backend_stubs/stubs.py:173-191 | The changed addresses are those of the operations that are not unchanged, in their order. |
| StubServices.StubOrchestrator.Stop | implementations/python/packages/aces_backend_stubs/stubs.py:306-325 | No orchestration entry, result or history is left, every other entry is as it was, the changed addresses are exactly the removed ones, each once, and the memory is empty. |
| StubServices.StubEvaluator.Stop | implementations/python/packages/aces_backend_stubs/stubs.py:438-455 | No evaluation entry, result or history is left, every other entry is as it was, the changed addresses are exactly the removed ones, each once, and the memory is empty. |
| StubContracts.EvaluatorMeetsContractsIff | implementations/python/packages/aces_backend_stubs/stubs.py:337-423 | From an accepted snapshot, for any plan over compiled evaluation resources (create, update, unchanged, delete), the evaluator's result passes the boundary exactly when no operation touches the address of a workflow result. |
| StubContracts.ReadyConforms | implementations/python/packages/aces_processor/compiler.py:163-198 | The stub's result and history conform to the contracts that the compiler gives the resource. |
| StubContracts.OrchestratorMeetsContractsIff | implementations/python/packages/aces_backend_stubs/stubs.py:209-291 | The orchestrator's result passes exactly when no operation touches the address of an evaluation result, or has the last word on an address that has a workflow result by then and sets up something else. |
| StubContracts.DisplacesIff | implementations/python/packages/aces_backend_stubs/stubs.py:209-291 | Where no address comes twice, the latter is setting up something else than a workflow at the address of a workflow result. |
| StubContracts.StartedConforms | implementations/python/packages/aces_backend_stubs/stubs.py:246-276 | A freshly started workflow conforms to the contracts compiled for it. |
| StubContracts.ProvisionerMeetsContractsIff | implementations/python/packages/aces_backend_stubs/stubs.py:168-197 | The provisioner's result passes exactly when no operation touches the address of a result. |
| StubContracts.StopsKeepAccepted | implementations/python/packages/aces_backend_stubs/stubs.py:306-325 | Stopping either service turns an accepted snapshot into an accepted one. |
| DependencyGraph.TopologicalOrder | implementations/python/packages/aces_processor/semantics/planner.py:161-199 | Counting down pending dependencies with a queue gives an order of all nodes, each once, that lists dependencies first exactly when the graph has no cycle; on any graph its first part lists every node after its dependencies, and the rest depends on the rest. |
| DependencyGraph.ReverseEdges | implementations/python/packages/aces_processor/semantics/planner.py:167-173 | Each node lists its dependents as often as they depend on it, and the indegree counts all dependencies. |
| DependencyGraph.Release | implementations/python/packages/aces_processor/semantics/planner.py:187-190 | Releasing dependents one by one keeps the counts and puts a node into the queue exactly when its last pending dependency is listed. |
| DependencyGraph.LeftOverIffLeadsIntoCycle | implementations/python/packages/aces_processor/semantics/planner.py:191-197 | A node is left over exactly when it leads into a cycle. |
| DependencyGraph.TopologicalIffAcyclic | implementations/python/packages/aces_processor/semantics/planner.py:161-199 | All dependencies come first exactly when the graph has no cycle. |
| DependencyGraph.AcyclicIffRanked | implementations/python/packages/aces_processor/semantics/planner.py:161-199 | A graph has no cycle exactly when its nodes can be ranked so that every dependency ranks lower. |
| DependencyGraph.DeleteOrderReverses | implementations/python/packages/aces_processor/semantics/planner.py:202-207 | On an acyclic graph the deletion order lists dependents before what they depend on. |
| Planner.RefreshImpacted | implementations/python/packages/aces_processor/semantics/planner.py:234-258 | The search finds exactly the unchanged nodes that depend, perhaps through others, on a changed one. |
| Planner.ReconcileActions | implementations/python/packages/aces_processor/semantics/planner.py:265-304 | Create, update, delete and unchanged are assigned by comparison, and by refresh reachability from a real change. |
| Planner.UnchangedIsClosed | implementations/python/packages/aces_processor/semantics/planner.py:290-302 | Whatever is left unchanged depends, at any distance, on unchanged resources only. |
| PlanOutcomes.ActionsTell | implementations/python/packages/aces_processor/semantics/planner.py:265-304 | Delete without a resource, create without an entry; update exactly when the entry differs in domain, type, payload or dependencies, or a path of refresh dependencies leads to a resource that is new or different; unchanged otherwise. |
| Planner.BuildPlan | implementations/python/packages/aces_processor/planner.py:810-931 | One operation for each resource, then one deletion for each deleted entry, dependencies first in the one part and dependents first in the other. |
| PlanOutcomes.PlanTells | implementations/python/packages/aces_processor/planner.py:810-931 | One operation for each resource and each deleted entry, no address twice, each carrying action, type, payload and dependencies of its own; if the ordering dependencies can be ranked, set-ups come after those of their dependencies and deletions before them. |
| Planner.ResourceDeleteOrder | implementations/python/packages/aces_processor/semantics/planner.py:218-223 | All nodes once, and on an acyclic graph dependents first. |
| Planner.NothingToDoIff | implementations/python/packages/aces_processor/planner.py:209-216 | No resource has anything to be done exactly when each has a matching entry. |
| Plans.ExecutedAt | implementations/python/packages/aces_backend_stubs/stubs.py:168-197 | The last operation on an address has the last word on it. |
| PlanConvergence.PlanHolds | implementations/python/packages/aces_processor/planner.py:810-931 | A plan touches each address of its resources and deleted entries exactly once and no other. |
| PlanConvergence.ExecutedPlan | implementations/python/packages/aces_processor/planner.py:810-931 | Executing a part makes its resources match, removes its deleted entries and leaves every other entry alone. |
| ManagerSafety.PlanningTwiceFindsNothing | implementations/python/packages/aces_processor/manager.py:1284-1391 | After an apply that completes with the reference services, and that skips the parts with nothing to do, every resource has a matching entry and only participant entries are left besides; of a second plan for the same resources no part has anything to do. |
| PlanConvergence.ApplyingConverges | implementations/python/packages/aces_processor/planner.py:810-967 | The entries after provisioning, and after evaluation and orchestration as far as something is to be done there, match every resource. |
| PlanConvergence.IdlePart | implementations/python/packages/aces_processor/planner.py:810-931 | A part without actionable operations has only resources that match already, and no deletions. |
| PlanConvergence.SecondPlanIsIdle | implementations/python/packages/aces_processor/planner.py:781-792 | Where every resource has a matching entry no part of a plan has anything to do. |
| NodeCount.ValidateAllowedValues | implementations/python/packages/aces_processor/planner.py:401-444 | The bound of a variable is the largest of its allowed values, and it exists exactly when all of them are counts. |
| NodeCount.CountUpperBound | implementations/python/packages/aces_processor/planner.py:447-507 | The captured variable comes first if it is declared with values, then the literal, then the reference. A variable gives a bound exactly when all its allowed values are counts, and then the largest; an undeclared one is reported as unbound, and one with no values or a placeholder first is deferred. |
| NodeCount.ExceedsMaximum | implementations/python/packages/aces_processor/planner.py:573-593 | The maximum is reported as exceeded exactly when some choice of the variables within their allowed values, shared variables included, makes the nodes with a bound exceed it; and exactly the nodes whose variable gives no bound are reported. |
| NodeCount.BoundIsExact | implementations/python/packages/aces_processor/planner.py:573-593 | The sum of the bounds exceeds the maximum exactly when some assignment does. |
| CompilerOrdering.CompileBindings | implementations/python/packages/aces_processor/compiler.py:500-557 | The loops over nodes and bindings fill the dictionary in which the last entry of a joined name wins, and report exactly the wanted templates that are not declared. |
| CompilerOrdering.OwnerIsLast | implementations/python/packages/aces_processor/compiler.py:538-557 | Of all nodes that enter a joined name the last one in the scenario owns it. |
| CompilerOrdering.BindingsTell | implementations/python/packages/aces_processor/compiler.py:500-557 | A name is bound exactly if it joins a node that is no switch with a declared template that the node lists, and then to such a pair. |
| CompilerOrdering.EdgesAreReferences | implementations/python/packages/aces_processor/compiler.py:439-974 | The ordering dependencies of an address are exactly the references of its element, kind by kind: none is missing and none is added. |
| CompilerOrdering.WhereCyclesLive | implementations/python/packages/aces_processor/compiler.py:439-974 | For every scenario, what lies on one ordering cycle is all nodes and networks, or all feature bindings, or all objectives; so orchestration is acyclic. |
| CompilerOrdering.FeatureCyclesStayOnOneNodeIff | implementations/python/packages/aces_processor/compiler.py:500-552 | Feature bindings on one ordering cycle always belong to one node exactly when no binding leads back to one that borrows it, that is, that depends on it through a wanted but undeclared feature whose joined name it bears. |
| CompilerOrdering.FeatureCyclesStayOnOneNode | implementations/python/packages/aces_processor/compiler.py:500-552 | So they do where no undeclared feature is wanted under the joined name of a binding. |
| CompilerOrdering.BorrowedNamesJoinNodes | implementations/python/packages/aces_processor/compiler.py:521-537 | Without that condition they need not: a scenario with dotted names in which bindings of two nodes form a cycle. |
| CompilerOrdering.DeclaredBorrowsNothing | implementations/python/packages/aces_processor/compiler.py:508-520 | The condition holds wherever the compiler reports no unbound feature template. |
| CompilerOrdering.DependenciesCollectedIff | implementations/python/packages/aces_processor/compiler.py:439-974 | Every ordering dependency is the address of a collected resource exactly when no feature binding depends on a wanted feature without a binding. |
| CompilerOrdering.DanglingIsUndeclared | implementations/python/packages/aces_processor/compiler.py:521-537 | Such a dependency is always on an undeclared feature. |
| CompilerOrdering.AddressTextsDiffer | implementations/python/packages/aces_processor/compiler.py:69-152 | The text of an address determines its kind and the rest of its name. |
| Namespacing.SectionNamesInjectiveIff | implementations/python/packages/aces_sdl/_module_symbols.py:71-80 | Renaming a section loses no name exactly when no exported name reads like the private form of an unexported one. |
| Namespacing.NewNamesCollideIff | implementations/python/packages/aces_sdl/_module_symbols.py:48-53 | Two names get one new name exactly when one is exported and reads like the private form of the other, which is not. |
| Namespacing.RewritingRenamesReferences | implementations/python/packages/aces_sdl/composition.py:66-142 | Rewriting an element renames each of its references through the map of the section that the reference is to, and nothing else. |
| ModuleOutcomes.ReferencesTell | implementations/python/packages/aces_sdl/composition.py:66-142 | The references of an element are exactly what its fields mention, each field in its section. |
| ModuleOutcomes.RenamingTells | implementations/python/packages/aces_sdl/composition.py:45-48 | Placeholders, empty names and names that the module does not define stay; every other name gets its new one. |
| ModuleOutcomes.SectionArrives | implementations/python/packages/aces_sdl/composition.py:287-293 | If no exported name reads like the mark of one that is not, an imported section holds each element under the namespace and its name, marked if it is not exported, with its references renamed, and nothing else. |
| ModuleComposition.ReferencesSurvive | implementations/python/packages/aces_sdl/composition.py:145-297 | A reference to an element of a section is renamed, and under its new name the imported section holds the renamed image of that element. |
| ModuleComposition.EntityReferencesSurvive | implementations/python/packages/aces_sdl/composition.py:145-297 | The same for references to entities, nested ones included, if nested entities are exported exactly when their roots are. |
| ModuleComposition.RenamedLookup | implementations/python/packages/aces_sdl/composition.py:287-293 | Under an injective renaming every entry is found under its new name, and nothing else is. |
| ModuleComposition.FlattenCommutesIff | implementations/python/packages/aces_sdl/entities.py:50-62 | Flattening the renamed hierarchy gives the renamed flat names exactly when nested entities are exported exactly when their roots are. |
| ModuleComposition.NameFollowsRootIff | implementations/python/packages/aces_sdl/_module_symbols.py:71-80 | A nested name continues its root's new name exactly when both are exported or both are not. |
| ModuleComposition.FlattenEntities | implementations/python/packages/aces_sdl/entities.py:50-62 | The recursion over dictionaries computes the flat dictionary, in which later entries win. |
| ModuleOutcomes.FlatNamesTell | implementations/python/packages/aces_sdl/entities.py:50-62 | The flat names are exactly the dotted paths of keys through the hierarchy, each with the entity at its end. |
| ModuleOutcomes.LastPairCounts | implementations/python/packages/aces_sdl/entities.py:56-61 | Of several entries under one name the last one counts. |
| ModuleComposition.ExportingAllIsSafe | implementations/python/packages/aces_sdl/_module_symbols.py:56-68 | A module that exports everything meets both conditions. |
| ModuleComposition.StepReferencesSurvive | implementations/python/packages/aces_sdl/composition.py:116-122 | A rewritten step reference is to the same step of the renamed workflow. |
| ModuleOutcomes.StepRenamingTells | implementations/python/packages/aces_sdl/composition.py:116-122 | A reference to a step gets the new name of its workflow, split off at the last dot, and keeps its step; placeholders and unknown workflows stay. |
| ModuleComposition.MergeSections | implementations/python/packages/aces_sdl/composition.py:300-316 | The merge raises exactly when a section of both sides shares a key, and otherwise keeps every entry of both sides and nothing else. |

## Left out

- Type checks on payloads: results, histories, contracts and events are typed values, and only the value checks of their constructors are modelled; closed vocabularies are enumerations, so a text outside them is out of the model. Payloads that do not parse, which the checkers report and the compensation search skips, do not occur in the model.
- Diagnostic messages, schema version fields of receipts, `details` and `evidence_refs` fields that no modelled code reads.
- In-place changes by a backend to the snapshot object it is handed: snapshots are values.
- Timestamps are integers in microseconds beside their text, where the code computes deadlines in floating-point seconds; that equal texts stand for equal instants is a hypothesis where it matters (CompensationOrder).
- JSON text, files and their failures: a file of the store is its parsed payload, which holds what JSON can hold. After a restart the entries come in sorted order; orders are parameters everywhere.
- The audit log, the HTTP adapter, security configuration, the command line and conformance reports: plumbing.
- ControlPlane.RuntimeControlPlane.ControlParticipantEpisode: one method for the four participant actions, which differ in the backend method called only.
- ControlPlaneRuns.RunsHold: a base snapshot supplied by a caller is required to be accepted and backed by its histories, because the code adopts it unchecked when the backend fails.
- WorkflowSafety.TerminalIsAbsorbing: speaks of cancellation and reconciliation only; starting the orchestrator again resets every workflow of its plan.
- CompilerOrdering.CompileBindings: the other dictionaries of the compiler are given by the functions OrderingDependencies and Collected, as sets, without the order and repetition of dependencies; objective windows only refresh and are not modelled.
- DependencyGraph.TopologicalOrder: the choice among ready nodes, which the code makes by canonical identity, is left open; finding strongly connected components is not modelled.
- Planner.BuildPlan: stands for the three builders, which differ in the domain only.
- ModuleComposition.ReferencesSurvive: references through the table shared by all sections, switch-case predicates and service knowledge are not modelled, nor is the expansion of nested imports from disk.
- Manifest validation other than the node count, objective windows, scenario validation, instantiation and vocabularies: declarative checks.
