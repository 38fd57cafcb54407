/** The reference provisioner, orchestrator and evaluator. */
module StubServices {
  import opened Wrappers
  import opened RuntimeModels
  import opened Plans

  function WorkflowSchema(): (r: string)
    ensures r != ""
  {
    "workflow-step-state/v1"
  }

  function EvaluationSchema(): (r: string)
    ensures r != ""
  {
    "evaluation-result-state/v1"
  }

  // ---------------------------------------------------------------- provisioner

  function Provisioned(s: RuntimeSnapshot, ops: seq<PlannedOp>): RuntimeSnapshot {
    s.(entries := Executed(s.entries, Provisioning, ops))
  }

  // --------------------------------------------------------------- orchestrator

  function ResultContractOf(op: PlannedOp): WorkflowResultContract {
    if op.payload.WorkflowPayload? && op.payload.result.Some? then op.payload.result.value
    else WorkflowResultContract(WorkflowSchema(), map[])
  }

  function StartStepOf(op: PlannedOp): Option<string> {
    if op.payload.WorkflowPayload? && op.payload.execution.Some? then Some(op.payload.execution.value.startStep)
    else None
  }

  function RunIdOf(address: string): (r: string)
    ensures r != ""
  {
    address + "-run"
  }

  /** A workflow as it starts: running, every observable step pending. */
  function StartedState(op: PlannedOp, now: Stamp): WorkflowState {
    var rc := ResultContractOf(op);
    WorkflowState(rc.schemaVersion, Running, RunIdOf(op.address), now, now, None, NotRequired, None, None, [],
                  map step | step in rc.observableSteps :: StepState(StepPending, None, 0))
  }

  function StartedHistory(op: PlannedOp, now: Stamp): seq<WorkflowEvent> {
    [WorkflowEvent(WorkflowStarted, now, StartStepOf(op), None, None, NO_DETAILS)]
  }

  /** One operation; a workflow starts anew even when nothing about it changed. */
  function StartOp(s: RuntimeSnapshot, op: PlannedOp, now: Stamp): RuntimeSnapshot {
    s.(entries := ExecuteOp(s.entries, Orchestration, op),
       orchestrationResults := ResultsAfter(s.orchestrationResults, op, now),
       orchestrationHistory := HistoriesAfter(s.orchestrationHistory, op, now))
  }

  function ResultsAfter(results: map<string, WorkflowState>, op: PlannedOp, now: Stamp): map<string, WorkflowState> {
    if op.action.Delete? then results - {op.address}
    else if op.resourceType.Workflow? then results[op.address := StartedState(op, now)]
    else results
  }

  function HistoriesAfter(
    history: map<string, seq<WorkflowEvent>>, op: PlannedOp, now: Stamp): map<string, seq<WorkflowEvent>> {
    if op.action.Delete? then history - {op.address}
    else if op.resourceType.Workflow? then history[op.address := StartedHistory(op, now)]
    else history
  }

  function Started(s: RuntimeSnapshot, ops: seq<PlannedOp>, now: Stamp): RuntimeSnapshot {
    if ops == [] then s else StartOp(Started(s, ops[..|ops| - 1], now), ops[|ops| - 1], now)
  }

  // ------------------------------------------------------------------ evaluator

  function EvaluationContractOf(op: PlannedOp): EvaluationResultContract {
    if op.payload.EvaluationPayload? && op.payload.resultContract.Some? then op.payload.resultContract.value
    else EvaluationResultContract(EvaluationSchema(), op.resourceType, false, false, None)
  }

  /** What the stub measures: the full score and a pass, as far as the contract supports them. */
  function Measured(rc: EvaluationResultContract): Measurement {
    var full := if rc.fixedMaxScore.Some? then rc.fixedMaxScore.value else 100;
    Measurement(if rc.supportsPassed then Some(true) else None,
                if rc.supportsScore then Some(full as real) else None,
                if rc.supportsScore then Some(full) else None)
  }

  const NOT_MEASURED := Measurement(None, None, None)

  function DetailOf(address: string): string {
    "stub result for " + address
  }

  function EvaluationRunId(): (r: string)
    ensures r != ""
  {
    "evaluation-run"
  }

  function ReadyState(op: PlannedOp, now: Stamp): EvaluationState {
    var rc := EvaluationContractOf(op);
    EvaluationState(rc.schemaVersion, rc.resourceType, EvaluationRunId(), EvaluationReady, now, now, Measured(rc),
        Some(DetailOf(op.address)))
  }

  function ReadyHistory(op: PlannedOp, now: Stamp): seq<EvaluationEvent> {
    [ EvaluationEvent(EvaluationStartedEvent, now, EvaluationRunning, NOT_MEASURED, None),
      EvaluationEvent(EvaluationReadyEvent, now, EvaluationReady, Measured(EvaluationContractOf(op)),
          Some(DetailOf(op.address))) ]
  }

  function EvaluateOp(s: RuntimeSnapshot, op: PlannedOp, now: Stamp): RuntimeSnapshot {
    var a := op.address;
    var t := s.(entries := ExecuteOp(s.entries, Evaluation, op));
    if op.action.Delete? then
      t.(evaluationResults := t.evaluationResults - {a}, evaluationHistory := t.evaluationHistory - {a})
    else
      t.(evaluationResults := t.evaluationResults[a := ReadyState(op, now)],
         evaluationHistory := t.evaluationHistory[a := ReadyHistory(op, now)])
  }

  function Evaluated(s: RuntimeSnapshot, ops: seq<PlannedOp>, now: Stamp): RuntimeSnapshot {
    if ops == [] then s else EvaluateOp(Evaluated(s, ops[..|ops| - 1], now), ops[|ops| - 1], now)
  }

  // ------------------------------------------------------------------- stopping

  function Remaining(entries: map<string, SnapshotEntry>, domain: RuntimeDomain): map<string, SnapshotEntry> {
    map a | a in entries && entries[a].domain != domain :: entries[a]
  }

  function WithoutOrchestration(s: RuntimeSnapshot): RuntimeSnapshot {
    s.(entries := Remaining(s.entries, Orchestration), orchestrationResults := map[], orchestrationHistory := map[])
  }

  function WithoutEvaluation(s: RuntimeSnapshot): RuntimeSnapshot {
    s.(entries := Remaining(s.entries, Evaluation), evaluationResults := map[], evaluationHistory := map[])
  }

  /** No entry of the domain is left, and every other entry is as it was. */
  predicate ClearsDomain(before: map<string, SnapshotEntry>, after: map<string, SnapshotEntry>, domain: RuntimeDomain) {
    && (forall a :: a in after ==> a in before && after[a] == before[a] && after[a].domain != domain)
    && (forall a :: a in before && before[a].domain != domain ==> a in after)
  }

  /** Exactly the addresses whose entries are gone, each once. */
  ghost predicate ListsRemoved(
    changed: seq<string>, before: map<string, SnapshotEntry>, after: map<string, SnapshotEntry>) {
    NoDuplicates(changed) && forall a :: a in changed <==> a in before && a !in after
  }

  // ---------------------------------------------------------------- the objects

  class StubProvisioner {
    constructor () {
    }

    method Apply(ops: seq<PlannedOp>, snapshot: RuntimeSnapshot) returns (result: ApplyResult)
      ensures result == ApplyResult(true, Provisioned(snapshot, ops), [], Changed(ops))
    {
      var entries, changed := snapshot.entries, [];
      for k := 0 to |ops|
        invariant entries == Executed(snapshot.entries, Provisioning, ops[..k])
        invariant changed == Changed(ops[..k])
      {
        var op := ops[k];
        assert ops[..k + 1][..k] == ops[..k];
        if op.action.Delete? {
          entries := entries - {op.address};
          changed := changed + [op.address];
          continue;
        }
        entries := entries[op.address := EntryFor(Provisioning, op)];
        if !op.action.Unchanged? {
          changed := changed + [op.address];
        }
      }
      assert ops[..|ops|] == ops;
      result := ApplyResult(true, snapshot.(entries := entries), [], changed);
    }
  }

  class StubOrchestrator {
    var running: bool
    var startupOrder: seq<string>
    var results: map<string, WorkflowState>
    var history: map<string, seq<WorkflowEvent>>

    constructor ()
      ensures !running && startupOrder == [] && results == map[] && history == map[]
    {
      running, startupOrder, results, history := false, [], map[], map[];
    }

    method Start(ops: seq<PlannedOp>, resources: set<string>, order: seq<string>, snapshot: RuntimeSnapshot, now: Stamp)
      returns (result: ApplyResult)
      modifies this
      ensures result == ApplyResult(true, Started(snapshot, ops, now), [], Changed(ops))
      ensures results == result.snapshot.orchestrationResults && history == result.snapshot.orchestrationHistory
      ensures running == (resources != {}) && startupOrder == order
    {
      var t, changed := snapshot, [];
      for k := 0 to |ops|
        invariant t == Started(snapshot, ops[..k], now) && changed == Changed(ops[..k])
      {
        var op := ops[k];
        assert ops[..k + 1][..k] == ops[..k];
        var address := op.address;
        if op.action.Delete? {
          t := t.(entries := t.entries - {address},
                  orchestrationResults := t.orchestrationResults - {address},
                  orchestrationHistory := t.orchestrationHistory - {address});
          changed := changed + [address];
          continue;
        }
        t := t.(entries := t.entries[address := EntryFor(Orchestration, op)]);
        if op.resourceType.Workflow? {
          t := t.(orchestrationResults := t.orchestrationResults[address := StartedState(op, now)],
                  orchestrationHistory := t.orchestrationHistory[address := StartedHistory(op, now)]);
        }
        if !op.action.Unchanged? {
          changed := changed + [address];
        }
      }
      assert ops[..|ops|] == ops;
      running, startupOrder := resources != {}, order;
      results, history := t.orchestrationResults, t.orchestrationHistory;
      result := ApplyResult(true, t, [], changed);
    }

    /** The order is the one in which the snapshot lists its entries. */
    method Stop(snapshot: RuntimeSnapshot, order: seq<string>) returns (result: ApplyResult)
      requires NoDuplicates(order) && forall a :: a in order <==> a in snapshot.entries
      modifies this
      ensures result.success && result.diagnostics == [] && result.snapshot == WithoutOrchestration(snapshot)
      ensures ClearsDomain(snapshot.entries, result.snapshot.entries, Orchestration)
      ensures ListsRemoved(result.changedAddresses, snapshot.entries, result.snapshot.entries)
      ensures result.snapshot.orchestrationResults == map[] && result.snapshot.orchestrationHistory == map[]
      ensures !running && startupOrder == [] && results == map[] && history == map[]
    {
      var entries, removed := map[], [];
      for k := 0 to |order|
        invariant forall a :: a in entries <==> a in order[..k] && snapshot.entries[a].domain != Orchestration
        invariant forall a :: a in entries ==> entries[a] == snapshot.entries[a]
        invariant NoDuplicates(removed)
        invariant forall a :: a in removed <==> a in order[..k] && snapshot.entries[a].domain == Orchestration
      {
        var address := order[k];
        assert address in order && address !in order[..k];
        if snapshot.entries[address].domain == Orchestration {
          removed := removed + [address];
        } else {
          entries := entries[address := snapshot.entries[address]];
        }
      }
      assert order[..|order|] == order;
      running, startupOrder, results, history := false, [], map[], map[];
      assert entries == Remaining(snapshot.entries, Orchestration);
      result := ApplyResult(true,
          snapshot.(entries := entries, orchestrationResults := map[], orchestrationHistory := map[]), [], removed);
    }
  }

  class StubEvaluator {
    var running: bool
    var startupOrder: seq<string>
    var results: map<string, EvaluationState>
    var history: map<string, seq<EvaluationEvent>>

    constructor ()
      ensures !running && startupOrder == [] && results == map[] && history == map[]
    {
      running, startupOrder, results, history := false, [], map[], map[];
    }

    method Start(ops: seq<PlannedOp>, resources: set<string>, order: seq<string>, snapshot: RuntimeSnapshot, now: Stamp)
      returns (result: ApplyResult)
      modifies this
      ensures result == ApplyResult(true, Evaluated(snapshot, ops, now), [], Changed(ops))
      ensures results == result.snapshot.evaluationResults && history == result.snapshot.evaluationHistory
      ensures running == (resources != {}) && startupOrder == order
    {
      var t, changed := snapshot, [];
      for k := 0 to |ops|
        invariant t == Evaluated(snapshot, ops[..k], now) && changed == Changed(ops[..k])
      {
        var op := ops[k];
        assert ops[..k + 1][..k] == ops[..k];
        var address := op.address;
        if op.action.Delete? {
          t := t.(entries := t.entries - {address},
                  evaluationResults := t.evaluationResults - {address},
                  evaluationHistory := t.evaluationHistory - {address});
          changed := changed + [address];
          continue;
        }
        t := t.(entries := t.entries[address := EntryFor(Evaluation, op)],
                evaluationResults := t.evaluationResults[address := ReadyState(op, now)],
                evaluationHistory := t.evaluationHistory[address := ReadyHistory(op, now)]);
        if !op.action.Unchanged? {
          changed := changed + [address];
        }
      }
      assert ops[..|ops|] == ops;
      running, startupOrder := resources != {}, order;
      results, history := t.evaluationResults, t.evaluationHistory;
      result := ApplyResult(true, t, [], changed);
    }

    /** The order is the one in which the snapshot lists its entries. */
    method Stop(snapshot: RuntimeSnapshot, order: seq<string>) returns (result: ApplyResult)
      requires NoDuplicates(order) && forall a :: a in order <==> a in snapshot.entries
      modifies this
      ensures result.success && result.diagnostics == [] && result.snapshot == WithoutEvaluation(snapshot)
      ensures ClearsDomain(snapshot.entries, result.snapshot.entries, Evaluation)
      ensures ListsRemoved(result.changedAddresses, snapshot.entries, result.snapshot.entries)
      ensures result.snapshot.evaluationResults == map[] && result.snapshot.evaluationHistory == map[]
      ensures !running && startupOrder == [] && results == map[] && history == map[]
    {
      var entries, removed := map[], [];
      for k := 0 to |order|
        invariant forall a :: a in entries <==> a in order[..k] && snapshot.entries[a].domain != Evaluation
        invariant forall a :: a in entries ==> entries[a] == snapshot.entries[a]
        invariant NoDuplicates(removed)
        invariant forall a :: a in removed <==> a in order[..k] && snapshot.entries[a].domain == Evaluation
      {
        var address := order[k];
        assert address in order && address !in order[..k];
        if snapshot.entries[address].domain == Evaluation {
          removed := removed + [address];
        } else {
          entries := entries[address := snapshot.entries[address]];
        }
      }
      assert order[..|order|] == order;
      running, startupOrder, results, history := false, [], map[], map[];
      assert entries == Remaining(snapshot.entries, Evaluation);
      result := ApplyResult(true,
          snapshot.(entries := entries, evaluationResults := map[], evaluationHistory := map[]), [], removed);
    }
  }
}
