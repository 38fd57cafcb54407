/** What the reference services promise: which of their results the boundary lets through. */
module StubContracts {
  import opened Wrappers
  import opened RuntimeModels
  import opened WorkflowContracts
  import opened EvaluationContracts
  import opened BackendBoundary
  import opened Plans
  import opened StubServices

  // ----------------------------------------------------------- compiled payloads

  predicate IsEvaluationType(t: ResourceType) {
    t.ConditionBinding? || t.Metric? || t.EvaluationResource? || t.Tlo? || t.Goal? || t.Objective?
  }

  const ALL_STATUSES := [EvaluationPending, EvaluationRunning, EvaluationReady, EvaluationFailed]
  const ALL_EVENTS := [EvaluationStartedEvent, EvaluationUpdatedEvent, EvaluationReadyEvent, EvaluationFailedEvent]

  /** The contracts compiled for an evaluation resource: metrics score, everything else passes or fails. */
  function CompiledContracts(
    t: ResourceType, maxScore: Option<int>): (EvaluationResultContract, EvaluationExecutionContract) {
    var xc := EvaluationExecutionContract(EvaluationSchema(), t, ALL_STATUSES, ALL_EVENTS, true);
    if t.Metric? then (EvaluationResultContract(EvaluationSchema(), t, false, true, maxScore), xc)
    else (EvaluationResultContract(EvaluationSchema(), t, IsEvaluationType(t), false, None), xc)
  }

  /** An operation that sets up a compiled evaluation resource; a negative maximum does not compile. */
  predicate IsCompiledEvaluation(op: PlannedOp) {
    !op.action.Delete? ==>
      && IsEvaluationType(op.resourceType)
      && op.payload.EvaluationPayload? && op.payload.resultContract.Some? && op.payload.executionContract.Some?
      && op.payload.resultContract.value.Valid()
      && (op.payload.resultContract.value, op.payload.executionContract.value)
         == CompiledContracts(op.resourceType, op.payload.resultContract.value.fixedMaxScore)
  }

  /** An operation that sets up a compiled orchestration resource. */
  predicate IsCompiledOrchestration(op: PlannedOp) {
    !op.action.Delete? && op.resourceType.Workflow? ==>
      && op.payload.WorkflowPayload? && op.payload.result.Some? && op.payload.execution.Some?
      && op.payload.result.value.Valid() && op.payload.execution.value.Valid()
      && op.payload.result.value.schemaVersion == op.payload.execution.value.schemaVersion
      && op.payload.result.value.observableSteps.Keys <= op.payload.execution.value.steps.Keys
      && (op.payload.execution.value.startStep == ""
          || op.payload.execution.value.startStep in op.payload.execution.value.steps)
      && forall step :: step in op.payload.result.value.observableSteps ==>
           op.payload.result.value.observableSteps[step].fixedAttempts.None?
           || op.payload.result.value.observableSteps[step].fixedAttempts.value >= 0
  }

  // ------------------------------------------------------------------- evaluator

  /** The same entry, evaluation result and evaluation history at the address. */
  predicate SameEvaluation(s: RuntimeSnapshot, t: RuntimeSnapshot, a: string) {
    && (a in t.entries <==> a in s.entries) && (a in s.entries ==> t.entries[a] == s.entries[a])
    && (a in t.evaluationResults <==> a in s.evaluationResults)
    && (a in s.evaluationResults ==> t.evaluationResults[a] == s.evaluationResults[a])
    && (a in t.evaluationHistory <==> a in s.evaluationHistory)
    && (a in s.evaluationHistory ==> t.evaluationHistory[a] == s.evaluationHistory[a])
  }

  predicate EvaluatedTo(t: RuntimeSnapshot, op: PlannedOp, now: Stamp) {
    var a := op.address;
    if op.action.Delete? then a !in t.entries && a !in t.evaluationResults && a !in t.evaluationHistory
    else
      && a in t.entries && t.entries[a] == EntryFor(Evaluation, op)
      && a in t.evaluationResults && t.evaluationResults[a] == ReadyState(op, now)
      && a in t.evaluationHistory && t.evaluationHistory[a] == ReadyHistory(op, now)
  }

  lemma {:induction false} EvaluatedElsewhere(s: RuntimeSnapshot, ops: seq<PlannedOp>, now: Stamp, a: string)
    requires a !in Touched(ops)
    ensures SameEvaluation(s, Evaluated(s, ops, now), a)
  {
    hide ReadyState, ReadyHistory, EntryFor;
    if ops != [] {
      var front, last := ops[..|ops| - 1], ops[|ops| - 1];
      assert last.address in Touched(ops);
      assert forall i :: 0 <= i < |front| ==> ops[i] == front[i];
      EvaluatedElsewhere(s, front, now, a);
    }
  }

  lemma {:induction false} EvaluatedAt(s: RuntimeSnapshot, ops: seq<PlannedOp>, now: Stamp, k: nat)
    requires k < |ops| && LastAt(ops, k)
    ensures EvaluatedTo(Evaluated(s, ops, now), ops[k], now)
  {
    hide ReadyState, ReadyHistory, EntryFor;
    var front, last := ops[..|ops| - 1], ops[|ops| - 1];
    if k < |front| {
      EvaluatedAt(s, front, now, k);
      assert front[k] == ops[k] && last.address != ops[k].address;
    }
  }

  lemma {:induction false} EvaluatedFrame(s: RuntimeSnapshot, ops: seq<PlannedOp>, now: Stamp)
    ensures var t := Evaluated(s, ops, now);
            t == s.(entries := t.entries, evaluationResults := t.evaluationResults,
                evaluationHistory := t.evaluationHistory)
  {
    hide ReadyState, ReadyHistory, EntryFor;
    if ops != [] {
      EvaluatedFrame(s, ops[..|ops| - 1], now);
    }
  }

  /** The stub's result and history fit the contracts compiled for the resource. */
  lemma ReadyConforms(op: PlannedOp, now: Stamp)
    requires IsCompiledEvaluation(op) && !op.action.Delete? && now.IsClock()
    ensures EvaluationConforms(op.payload.resultContract.value, op.payload.executionContract.value,
        ReadyState(op, now), ReadyHistory(op, now))
  {
  }

  lemma EvaluatedAcceptedAt(s: RuntimeSnapshot, t: RuntimeSnapshot, op: PlannedOp, now: Stamp)
    requires EvaluatedTo(t, op, now) && IsCompiledEvaluation(op) && now.IsClock()
    ensures op.address in t.evaluationResults ==> EvaluationAccepted(t, op.address)
    ensures op.address in t.entries ==> op.address in t.evaluationResults && !t.entries[op.address].IsWorkflow()
  {
  }

  lemma EvaluatedKeepsAt(s: RuntimeSnapshot, t: RuntimeSnapshot, a: string)
    requires SameEvaluation(s, t, a) && EvaluationsAccepted(s)
    ensures a in t.evaluationResults ==> EvaluationAccepted(t, a)
    ensures a in t.entries && t.entries[a].IsObservable() ==> a in t.evaluationResults
  {
  }

  /**
    From an accepted snapshot, for any plan over compiled evaluation resources, the evaluator's result passes the
    boundary exactly when no operation touches the address of a workflow result.
   */
  lemma EvaluatorMeetsContractsIff(s: RuntimeSnapshot, ops: seq<PlannedOp>, now: Stamp)
    requires Accepted(s) && now.IsClock()
    requires forall i :: 0 <= i < |ops| ==> IsCompiledEvaluation(ops[i])
    ensures Accepted(Evaluated(s, ops, now)) <==> Touched(ops) !! s.orchestrationResults.Keys
  {
    hide IsCompiledEvaluation, Evaluated, EvaluatedTo, SameEvaluation, EvaluationAccepted, SnapshotEntry.IsObservable,
    RunConforms;
    var t := Evaluated(s, ops, now);
    EvaluatedFrame(s, ops, now);
    forall a ensures a in t.evaluationResults ==> EvaluationAccepted(t, a)
             ensures a in t.entries && t.entries[a].IsObservable() ==> a in t.evaluationResults {
      if a in Touched(ops) {
        var k := LastOpExists(ops, a);
        EvaluatedAt(s, ops, now, k);
        EvaluatedAcceptedAt(s, t, ops[k], now);
      } else {
        EvaluatedElsewhere(s, ops, now, a);
        EvaluatedKeepsAt(s, t, a);
      }
    }
    forall a | a in s.orchestrationResults ensures WorkflowAccepted(t, a) <==> a !in Touched(ops) {
      assert WorkflowAccepted(s, a);
      if a in Touched(ops) {
        var k := LastOpExists(ops, a);
        EvaluatedAt(s, ops, now, k);
        EvaluatedAcceptedAt(s, t, ops[k], now);
      } else {
        EvaluatedElsewhere(s, ops, now, a);
        SameEntry(s, t, a);
      }
    }
  }

  lemma SameEntry(s: RuntimeSnapshot, t: RuntimeSnapshot, a: string)
    requires SameEvaluation(s, t, a)
    ensures (a in t.entries <==> a in s.entries) && (a in s.entries ==> t.entries[a] == s.entries[a])
  {
  }

  // ----------------------------------------------------------------- provisioner

  /** The provisioner's result passes the boundary exactly when no operation touches the address of a result. */
  lemma ProvisionerMeetsContractsIff(s: RuntimeSnapshot, ops: seq<PlannedOp>)
    requires Accepted(s)
    ensures Accepted(Provisioned(s, ops)) <==> Touched(ops) !! s.orchestrationResults.Keys + s.evaluationResults.Keys
  {
    hide Executed, RunConforms, EvaluationConforms;
    var t := Provisioned(s, ops);
    forall a ensures a in Touched(ops) && a in t.entries ==> t.entries[a].domain == Provisioning
             ensures a !in Touched(ops) ==>
                 (a in t.entries <==> a in s.entries) && (a in s.entries ==> t.entries[a] == s.entries[a]) {
      if a in Touched(ops) {
        var k := LastOpExists(ops, a);
        ExecutedAt(s.entries, Provisioning, ops, k);
      } else {
        ExecutedElsewhere(s.entries, Provisioning, ops, a);
      }
    }
    forall a | a in s.orchestrationResults ensures WorkflowAccepted(t, a) <==> a !in Touched(ops) {
      assert WorkflowAccepted(s, a);
    }
    forall a | a in s.evaluationResults ensures EvaluationAccepted(t, a) <==> a !in Touched(ops) {
      assert EvaluationAccepted(s, a);
    }
  }

  // -------------------------------------------------------------------- stopping

  /** Stopping the orchestrator or the evaluator turns an accepted snapshot into an accepted one. */
  lemma StopsKeepAccepted(s: RuntimeSnapshot)
    requires Accepted(s)
    ensures Accepted(WithoutOrchestration(s)) && Accepted(WithoutEvaluation(s))
  {
    hide RunConforms, EvaluationConforms;
    var o, e := WithoutOrchestration(s), WithoutEvaluation(s);
    forall a | a in o.evaluationResults ensures EvaluationAccepted(o, a) {
      assert EvaluationAccepted(s, a);
    }
    forall a | a in e.orchestrationResults ensures WorkflowAccepted(e, a) {
      assert WorkflowAccepted(s, a);
    }
  }

  // ---------------------------------------------------------------- orchestrator

  /** The same entry, workflow result and workflow history at the address. */
  predicate SameWorkflow(s: RuntimeSnapshot, t: RuntimeSnapshot, a: string) {
    && (a in t.entries <==> a in s.entries) && (a in s.entries ==> t.entries[a] == s.entries[a])
    && (a in t.orchestrationResults <==> a in s.orchestrationResults)
    && (a in s.orchestrationResults ==> t.orchestrationResults[a] == s.orchestrationResults[a])
    && HistoryAt(t.orchestrationHistory, a) == HistoryAt(s.orchestrationHistory, a)
  }

  predicate StartedTo(s: RuntimeSnapshot, t: RuntimeSnapshot, op: PlannedOp, now: Stamp) {
    var a := op.address;
    if op.action.Delete? then a !in t.entries && a !in t.orchestrationResults
    else
      && a in t.entries && t.entries[a] == EntryFor(Orchestration, op)
      && (if op.resourceType.Workflow? then
            && a in t.orchestrationResults && t.orchestrationResults[a] == StartedState(op, now)
            && HistoryAt(t.orchestrationHistory, a) == StartedHistory(op, now)
          else (a in t.orchestrationResults <==> a in s.orchestrationResults))
  }

  lemma StartOpElsewhere(s: RuntimeSnapshot, op: PlannedOp, now: Stamp, a: string)
    requires a != op.address
    ensures SameWorkflow(s, StartOp(s, op, now), a)
  {
  }

  lemma StartOpAt(s: RuntimeSnapshot, op: PlannedOp, now: Stamp)
    ensures StartedTo(s, StartOp(s, op, now), op, now)
  {
  }

  lemma SameWorkflowTransitive(s: RuntimeSnapshot, t: RuntimeSnapshot, u: RuntimeSnapshot, a: string)
    requires SameWorkflow(s, t, a) && SameWorkflow(t, u, a)
    ensures SameWorkflow(s, u, a)
  {
  }

  lemma {:induction false} StartedElsewhere(s: RuntimeSnapshot, ops: seq<PlannedOp>, now: Stamp, a: string)
    requires a !in Touched(ops)
    ensures SameWorkflow(s, Started(s, ops, now), a)
  {
    if ops != [] {
      hide SameWorkflow, StartOp;
      var front, last := ops[..|ops| - 1], ops[|ops| - 1];
      assert last.address in Touched(ops);
      assert forall i :: 0 <= i < |front| ==> ops[i] == front[i];
      StartedElsewhere(s, front, now, a);
      StartOpElsewhere(Started(s, front, now), last, now, a);
      SameWorkflowTransitive(s, Started(s, front, now), Started(s, ops, now), a);
    }
  }

  lemma StartedToLasts(s: RuntimeSnapshot, t: RuntimeSnapshot, u: RuntimeSnapshot, op: PlannedOp, now: Stamp)
    requires StartedTo(s, t, op, now) && SameWorkflow(t, u, op.address)
    ensures StartedTo(s, u, op, now)
  {
  }

  /** The last operation on an address decides, together with what was there at that moment. */
  lemma {:induction false} StartedAt(s: RuntimeSnapshot, ops: seq<PlannedOp>, now: Stamp, k: nat)
    requires k < |ops| && LastAt(ops, k)
    ensures StartedTo(Started(s, ops[..k], now), Started(s, ops, now), ops[k], now)
  {
    hide SameWorkflow, StartOp, StartedTo;
    var front, last := ops[..|ops| - 1], ops[|ops| - 1];
    var before, after := Started(s, front, now), Started(s, ops, now);
    if k < |front| {
      assert front[..k] == ops[..k] && front[k] == ops[k] && last.address != ops[k].address;
      assert forall j :: k < j < |front| ==> front[j] == ops[j];
      StartedAt(s, front, now, k);
      StartOpElsewhere(before, last, now, ops[k].address);
      StartedToLasts(Started(s, ops[..k], now), before, after, ops[k], now);
    } else {
      StartOpAt(before, last, now);
    }
  }

  lemma {:induction false} StartedFrame(s: RuntimeSnapshot, ops: seq<PlannedOp>, now: Stamp)
    ensures var t := Started(s, ops, now);
            t == s.(entries := t.entries, orchestrationResults := t.orchestrationResults,
                orchestrationHistory := t.orchestrationHistory)
  {
    hide StartedState, StartedHistory, EntryFor;
    if ops != [] {
      StartedFrame(s, ops[..|ops| - 1], now);
    }
  }

  /** A freshly started workflow fits the contracts compiled for it. */
  lemma StartedConforms(op: PlannedOp, now: Stamp)
    requires IsCompiledOrchestration(op) && !op.action.Delete? && op.resourceType.Workflow? && now.IsClock()
    ensures RunConforms(op.payload.result.value, op.payload.execution.value, StartedState(op, now),
        StartedHistory(op, now))
  {
  }

  lemma StartedAcceptedAt(s: RuntimeSnapshot, t: RuntimeSnapshot, op: PlannedOp, now: Stamp)
    requires StartedTo(s, t, op, now) && IsCompiledOrchestration(op) && now.IsClock()
    ensures op.address in t.orchestrationResults ==> (WorkflowAccepted(t, op.address) <==> op.resourceType.Workflow?)
    ensures op.address in t.entries ==> !t.entries[op.address].IsObservable()
    ensures op.address in t.orchestrationResults && !op.resourceType.Workflow? ==> op.address in s.orchestrationResults
    ensures !op.action.Delete? && op.address in s.orchestrationResults ==> op.address in t.orchestrationResults
    ensures op.action.Delete? ==> op.address !in t.orchestrationResults
  {
  }

  /** The operation has the last word on an address that has a workflow result by then, and sets up something else. */
  predicate Displaces(s: RuntimeSnapshot, ops: seq<PlannedOp>, now: Stamp, k: nat)
    requires k < |ops|
  {
    && LastAt(ops, k) && !ops[k].action.Delete? && !ops[k].resourceType.Workflow?
    && ops[k].address in Started(s, ops[..k], now).orchestrationResults
  }

  /** Where no address comes twice that is an address that had a workflow result before. */
  lemma DisplacesIff(s: RuntimeSnapshot, ops: seq<PlannedOp>, now: Stamp, k: nat)
    requires k < |ops| && DistinctAddresses(ops)
    ensures Displaces(s, ops, now, k)
            <==> !ops[k].action.Delete? && !ops[k].resourceType.Workflow? && ops[k].address in s.orchestrationResults
  {
    hide Started;
    StartedElsewhere(s, ops[..k], now, ops[k].address);
  }

  lemma StartedKeepsAt(s: RuntimeSnapshot, t: RuntimeSnapshot, a: string)
    requires SameWorkflow(s, t, a) && WorkflowsAccepted(s)
    ensures a in t.orchestrationResults ==> WorkflowAccepted(t, a)
    ensures (a in t.entries <==> a in s.entries) && (a in s.entries ==> t.entries[a] == s.entries[a])
  {
  }

  lemma StartedEffect(s: RuntimeSnapshot, ops: seq<PlannedOp>, now: Stamp, a: string)
    requires WorkflowsAccepted(s) && now.IsClock()
    requires forall i :: 0 <= i < |ops| ==> IsCompiledOrchestration(ops[i])
    ensures var t := Started(s, ops, now);
            && (a in t.orchestrationResults && !WorkflowAccepted(t, a) <==>
                  exists k :: 0 <= k < |ops| && ops[k].address == a && Displaces(s, ops, now, k))
            && (a in Touched(ops) && a in t.entries ==> !t.entries[a].IsObservable())
            && (a !in Touched(ops) ==>
                  (a in t.entries <==> a in s.entries) && (a in s.entries ==> t.entries[a] == s.entries[a]))
  {
    hide IsCompiledOrchestration, Started, StartedTo, SameWorkflow, WorkflowAccepted, SnapshotEntry.IsObservable;
    var t := Started(s, ops, now);
    if a in Touched(ops) {
      var k := LastOpExists(ops, a);
      StartedAt(s, ops, now, k);
      StartedAcceptedAt(Started(s, ops[..k], now), t, ops[k], now);
      assert forall j :: 0 <= j < |ops| && ops[j].address == a && LastAt(ops, j) ==> j == k;
    } else {
      StartedElsewhere(s, ops, now, a);
      StartedKeepsAt(s, t, a);
    }
  }

  /**
    From an accepted snapshot, for any plan over compiled orchestration resources, the orchestrator's result passes
    the boundary exactly when no operation touches the address of an evaluation result or displaces a workflow.
   */
  lemma OrchestratorMeetsContractsIff(s: RuntimeSnapshot, ops: seq<PlannedOp>, now: Stamp)
    requires Accepted(s) && now.IsClock()
    requires forall i :: 0 <= i < |ops| ==> IsCompiledOrchestration(ops[i])
    ensures Accepted(Started(s, ops, now)) <==>
            && Touched(ops) !! s.evaluationResults.Keys
            && forall k :: 0 <= k < |ops| ==> !Displaces(s, ops, now, k)
  {
    hide IsCompiledOrchestration, Started, Displaces, WorkflowAccepted, EvaluationConforms, SnapshotEntry.IsObservable;
    var t := Started(s, ops, now);
    StartedFrame(s, ops, now);
    forall a ensures a in t.orchestrationResults && !WorkflowAccepted(t, a) <==>
                       exists k :: 0 <= k < |ops| && ops[k].address == a && Displaces(s, ops, now, k)
             ensures a in Touched(ops) && a in t.entries ==> !t.entries[a].IsObservable()
             ensures a !in Touched(ops) ==>
                       (a in t.entries <==> a in s.entries) && (a in s.entries ==> t.entries[a] == s.entries[a]) {
      StartedEffect(s, ops, now, a);
    }
    forall k | 0 <= k < |ops| && Displaces(s, ops, now, k) ensures !WorkflowsAccepted(t) {
      assert !WorkflowAccepted(t, ops[k].address) && ops[k].address in t.orchestrationResults;
    }
    forall a | a in s.evaluationResults ensures EvaluationAccepted(t, a) <==> a !in Touched(ops) {
      assert EvaluationAccepted(s, a);
    }
  }
}
