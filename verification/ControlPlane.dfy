/** The control plane: one snapshot, a log of operations, and a store that outlives the plane. */
module ControlPlane {
  import opened Wrappers
  import opened RuntimeModels
  import opened BackendBoundary
  import opened Compensation
  import opened WorkflowControl
  import opened StorePayloads
  import opened OperationStore

  /** What the target provides; a provisioner is always there. */
  datatype Target = Target(hasOrchestrator: bool, hasEvaluator: bool, hasParticipantRuntime: bool)

  datatype PlaneState = PlaneState(snapshot: RuntimeSnapshot, operations: map<string, OperationRecord>,
      store: StoreView)

  /**
    What a caller asks for, together with what the world will answer: the outcome of the backend's call, and for
    provisioning the findings of its validation. A missing base means the plane's own snapshot.
   */
  datatype Action =
    | Provision(base: Option<RuntimeSnapshot>, validation: seq<Diagnostic>, outcome: BackendOutcome)
    | Orchestrate(base: Option<RuntimeSnapshot>, outcome: BackendOutcome)
    | Evaluate(base: Option<RuntimeSnapshot>, outcome: BackendOutcome)
    | Cancel(address: string, runId: string, reason: string)
    | Reconcile(now: Option<Stamp>, order: seq<string>)
    | Participate(outcome: BackendOutcome)

  /**
    An action with its idempotency key and fingerprint, the operation id it will draw, and the clock at its start and
    end.
   */
  datatype Request = Request(action: Action, key: string, fingerprint: string, operationId: string, at: Stamp,
      later: Stamp)

  // ------------------------------------------------------------- specification

  function Persist(p: PlaneState, record: OperationRecord): PlaneState {
    p.(operations := p.operations[record.receipt.operationId := record], store := WithRecord(p.store, record))
  }

  function Adopt(p: PlaneState, s: RuntimeSnapshot): PlaneState {
    p.(snapshot := s, store := WithSnapshot(p.store, s))
  }

  function DomainOfAction(action: Action): RuntimeDomain {
    match action
    case Provision(_, _, _) => Provisioning
    case Evaluate(_, _) => Evaluation
    case Participate(_) => Participant
    case _ => Orchestration
  }

  function ReceiptFor(request: Request, at: Stamp, taken: bool, diagnostics: seq<Diagnostic>): OperationReceipt {
    OperationReceipt(request.operationId, DomainOfAction(request.action), at.text, taken, diagnostics)
  }

  function StatusFor(
    request: Request, state: OperationState, at: Stamp, updated: Stamp, diagnostics: seq<Diagnostic>,
    changed: seq<string>): OperationStatus
  {
    OperationStatus(request.operationId, DomainOfAction(request.action), state, at.text, updated.text, diagnostics,
        changed)
  }

  function RejectedAt(domain: RuntimeDomain): string {
    "runtime.control-plane." + DomainText(domain)
  }

  function RejectionRecord(request: Request, key: string, fingerprint: string): OperationRecord {
    var diagnostics := [FailureDiagnostic(ControlPlaneRejected, RejectedAt(DomainOfAction(request.action)))];
    OperationRecord(ReceiptFor(request, request.at, false, diagnostics),
                    StatusFor(request, OpFailed, request.at, request.at, diagnostics, []), fingerprint, key)
  }

  /** A completed direct operation: cancellation and reconciliation never wait for a backend. */
  function DoneRecord(request: Request, at: Stamp, changed: seq<string>): OperationRecord {
    OperationRecord(ReceiptFor(request, at, true, []), StatusFor(request, OpSucceeded, at, at, [], changed),
                    request.fingerprint, request.key)
  }

  function RunningRecord(request: Request, diagnostics: seq<Diagnostic>): OperationRecord {
    OperationRecord(ReceiptFor(request, request.at, true, diagnostics),
                    StatusFor(request, OpRunning, request.at, request.at, diagnostics, []), request.fingerprint,
                    request.key)
  }

  function FinalRecord(request: Request, diagnostics: seq<Diagnostic>, result: ApplyResult): OperationRecord {
    RunningRecord(request, diagnostics).(
      status := StatusFor(request, if result.success then OpSucceeded else OpFailed, request.at, request.later,
                          diagnostics + result.diagnostics, result.changedAddresses))
  }

  /** A backend call as an operation: recorded as running, screened, adopted, recorded as finished. */
  function Execute(
    p: PlaneState, request: Request, base: RuntimeSnapshot, diagnostics: seq<Diagnostic>,
    result: ApplyResult): PlaneState {
    Persist(Adopt(Persist(p, RunningRecord(request, diagnostics)), result.snapshot),
        FinalRecord(request, diagnostics, result))
  }

  function BaseOf(p: PlaneState, action: Action): RuntimeSnapshot {
    if (action.Provision? || action.Orchestrate? || action.Evaluate?) && action.base.Some? then action.base.value
    else p.snapshot
  }

  /** An empty timestamp counts as none. */
  function ReconcilesAt(request: Request): Stamp
    requires request.action.Reconcile?
  {
    if request.action.now.Some? && request.action.now.value.text != "" then request.action.now.value else request.at
  }

  predicate CallsBackend(action: Action) {
    action.Provision? || action.Orchestrate? || action.Evaluate? || action.Participate?
  }

  function Validation(action: Action): seq<Diagnostic> {
    if action.Provision? then action.validation else []
  }

  /** What a request does once it may proceed. */
  function Perform(
    p: PlaneState, request: Request, findings: seq<Diagnostic>): (Outcome<OperationReceipt>, PlaneState) {
    var action := request.action;
    if CallsBackend(action) then
      var base := BaseOf(p, action);
      (Returned(ReceiptFor(request, request.at, true, Validation(action))),
       Execute(p, request, base, Validation(action), Screened(action.outcome, base, findings)))
    else if action.Cancel? then PerformCancel(p, request)
    else PerformReconcile(p, request)
  }

  function PerformCancel(p: PlaneState, request: Request): (Outcome<OperationReceipt>, PlaneState)
    requires request.action.Cancel?
  {
    var verdict := Cancellation(p.snapshot, request.action.address, request.action.runId, request.action.reason,
        request.at);
    match verdict
    case UnreadableRun => (Raised, p)
    case UnknownRun => Reject(p, request, request.key, request.fingerprint)
    case OtherRun => Reject(p, request, request.key, request.fingerprint)
    case AlreadyTerminal =>
      var record := DoneRecord(request, request.at, []);
      (Returned(record.receipt), Persist(p, record))
    case Cancels(next) =>
      var record := DoneRecord(request, request.at, [request.action.address]);
      (Returned(record.receipt), Persist(Adopt(p, next), record))
  }

  function PerformReconcile(p: PlaneState, request: Request): (Outcome<OperationReceipt>, PlaneState)
    requires request.action.Reconcile?
  {
    var now := ReconcilesAt(request);
    if !AllReadable(p.snapshot) then (Raised, p)
    else
      var record := DoneRecord(request, now, DueInOrder(p.snapshot, now, request.action.order));
      (Returned(record.receipt), Persist(Adopt(p, Reconciled(p.snapshot, now)), record))
  }

  function Reject(
    p: PlaneState, request: Request, key: string, fingerprint: string): (Outcome<OperationReceipt>, PlaneState) {
    var record := RejectionRecord(request, key, fingerprint);
    (Returned(record.receipt), Persist(p, record))
  }

  /** What the store says about a request's key. */
  datatype Ruling = Proceeds | Replays(record: OperationRecord) | Conflicts

  predicate Clash(a: string, b: string) {
    a != "" && b != "" && a != b
  }

  ghost function RulingOn(v: StoreView, key: string, fingerprint: string): Ruling {
    if key == "" then Proceeds
    else
      var found := Find(v, key);
      if found.None? then Proceeds
      else if Clash(found.value.requestFingerprint, fingerprint) then Conflicts
      else Replays(found.value)
  }

  /** The reply that a ruling decides on its own, if it does. */
  function FirstReply(ruling: Ruling): Outcome<Option<OperationReceipt>> {
    match ruling
    case Conflicts => Raised
    case Replays(record) => Returned(Some(record.receipt))
    case Proceeds => Returned(None)
  }

  /** A replay refreshes the plane's copy of the record. */
  function Replayed(p: PlaneState, ruling: Ruling): PlaneState {
    if ruling.Replays? then p.(operations := p.operations[ruling.record.receipt.operationId := ruling.record]) else p
  }

  /** The target cannot serve the action, and the plane says so before it looks at the key. */
  predicate Unserved(target: Target, action: Action) {
    || (action.Orchestrate? && !target.hasOrchestrator)
    || (action.Evaluate? && !target.hasEvaluator)
    || (action.Participate? && !target.hasParticipantRuntime)
  }

  /** One request from beginning to end. */
  ghost function Step(
    target: Target, p: PlaneState, request: Request, findings: seq<Diagnostic>): (Outcome<OperationReceipt>,
    PlaneState) {
    if Unserved(target, request.action) then
      if request.action.Participate? then Reject(p, request, request.key, request.fingerprint)
      else Reject(p, request, "", "")
    else
      var ruling := RulingOn(p.store, request.key, request.fingerprint);
      match ruling
      case Conflicts => (Raised, p)
      case Replays(record) => (Returned(record.receipt), Replayed(p, ruling))
      case Proceeds => Perform(p, request, findings)
  }

  /** A plane as it starts on a store; a snapshot handed in takes the place of the stored one but is not stored. */
  function Opened(v: StoreView, initial: Option<RuntimeSnapshot>): PlaneState {
    PlaneState(if initial.Some? then initial.value else Loaded(v), v.records, v)
  }

  // ----------------------------------------------------------------- the object

  class RuntimeControlPlane {
    const target: Target
    const store: Store
    var snapshot: RuntimeSnapshot
    var operations: map<string, OperationRecord>

    predicate Valid()
      reads this, Footprint(store)
    {
      Ready(store) && this !in Footprint(store)
    }

    function State(): PlaneState
      requires Valid()
      reads this, Footprint(store)
    {
      PlaneState(snapshot, operations, ViewOf(store))
    }

    constructor (target: Target, store: Store, initial: Option<RuntimeSnapshot>)
      requires Ready(store)
      ensures Valid() && this.target == target && this.store == store
      ensures State() == Opened(ViewOf(store), initial)
    {
      this.target, this.store := target, store;
      var loaded, records := Load(store);
      snapshot := if initial.Some? then initial.value else loaded;
      operations := records;
    }

    method IdempotentReceipt(key: string, fingerprint: string) returns (existing: Outcome<Option<OperationReceipt>>)
      requires Valid()
      modifies this`operations
      ensures Valid()
      ensures existing == FirstReply(RulingOn(ViewOf(store), key, fingerprint))
      ensures State() == Replayed(old(State()), RulingOn(ViewOf(store), key, fingerprint))
    {
      hide Find;
      if key == "" {
        return Returned(None);
      }
      var record := FindStored(store, key);
      if record.None? {
        return Returned(None);
      }
      if record.value.requestFingerprint != "" && fingerprint != "" && record.value.requestFingerprint != fingerprint {
        return Raised;
      }
      operations := operations[record.value.receipt.operationId := record.value];
      return Returned(Some(record.value.receipt));
    }

    method PersistRecord(record: OperationRecord)
      requires Valid()
      modifies this`operations, Footprint(store)
      ensures Valid() && State() == Persist(old(State()), record)
    {
      operations := operations[record.receipt.operationId := record];
      StoreRecord(store, record);
    }

    method AdoptSnapshot(next: RuntimeSnapshot)
      requires Valid()
      modifies this`snapshot, Footprint(store)
      ensures Valid() && State() == Adopt(old(State()), next)
    {
      snapshot := next;
      StoreSnapshot(store, next);
    }

    method RecordDone(request: Request, at: Stamp, changed: seq<string>) returns (receipt: OperationReceipt)
      requires Valid()
      modifies this`operations, Footprint(store)
      ensures Valid() && State() == Persist(old(State()), DoneRecord(request, at, changed))
      ensures receipt == DoneRecord(request, at, changed).receipt
    {
      var record := DoneRecord(request, at, changed);
      PersistRecord(record);
      receipt := record.receipt;
    }

    method RejectSubmission(request: Request, key: string, fingerprint: string) returns (receipt: OperationReceipt)
      requires Valid()
      modifies this`operations, Footprint(store)
      ensures Valid() && (Returned(receipt), State()) == Reject(old(State()), request, key, fingerprint)
    {
      var record := RejectionRecord(request, key, fingerprint);
      PersistRecord(record);
      receipt := record.receipt;
    }

    /** The backend call proper, between the running and the final record. */
    method RunOperation(request: Request, base: RuntimeSnapshot, diagnostics: seq<Diagnostic>)
      returns (receipt: OperationReceipt, ghost findings: seq<Diagnostic>)
      requires Valid() && CallsBackend(request.action)
      modifies this`snapshot, this`operations, Footprint(store)
      ensures Valid()
      ensures State() == Execute(old(State()), request, base, diagnostics,
          Screened(request.action.outcome, base, findings))
      ensures receipt == ReceiptFor(request, request.at, true, diagnostics)
    {
      receipt := ReceiptFor(request, request.at, true, diagnostics);
      PersistRecord(RunningRecord(request, diagnostics));
      var result := CallBackendApply(request.action.outcome, base, RejectedAt(DomainOfAction(request.action)));
      findings := result.diagnostics;
      AdoptSnapshot(result.snapshot);
      PersistRecord(FinalRecord(request, diagnostics, result));
    }

    method ExecuteOperation(request: Request, diagnostics: seq<Diagnostic>, baseSnapshot: Option<RuntimeSnapshot>)
      returns (outcome: Outcome<OperationReceipt>, ghost findings: seq<Diagnostic>)
      requires Valid() && CallsBackend(request.action) && !Unserved(target, request.action)
      requires diagnostics == Validation(request.action)
      requires baseSnapshot == if request.action.Participate? then None else request.action.base
      modifies this`snapshot, this`operations, Footprint(store)
      ensures Valid() && (outcome, State()) == Step(target, old(State()), request, findings)
    {
      hide Execute, Screened;
      findings := [];
      var existing := IdempotentReceipt(request.key, request.fingerprint);
      if existing.Raised? {
        return Raised, [];
      }
      if existing.value.Some? {
        return Returned(existing.value.value), [];
      }
      var base := if baseSnapshot.Some? then baseSnapshot.value else snapshot;
      var receipt, found := RunOperation(request, base, diagnostics);
      return Returned(receipt), found;
    }

    method SubmitProvisioning(request: Request)
      returns (outcome: Outcome<OperationReceipt>, ghost findings: seq<Diagnostic>)
      requires Valid() && request.action.Provision?
      modifies this`snapshot, this`operations, Footprint(store)
      ensures Valid() && (outcome, State()) == Step(target, old(State()), request, findings)
    {
      outcome, findings := ExecuteOperation(request, request.action.validation, request.action.base);
    }

    method SubmitOrchestration(request: Request)
      returns (outcome: Outcome<OperationReceipt>, ghost findings: seq<Diagnostic>)
      requires Valid() && request.action.Orchestrate?
      modifies this`snapshot, this`operations, Footprint(store)
      ensures Valid() && (outcome, State()) == Step(target, old(State()), request, findings)
    {
      if !target.hasOrchestrator {
        var receipt := RejectSubmission(request, "", "");
        return Returned(receipt), [];
      }
      outcome, findings := ExecuteOperation(request, [], request.action.base);
    }

    method SubmitEvaluation(request: Request)
      returns (outcome: Outcome<OperationReceipt>, ghost findings: seq<Diagnostic>)
      requires Valid() && request.action.Evaluate?
      modifies this`snapshot, this`operations, Footprint(store)
      ensures Valid() && (outcome, State()) == Step(target, old(State()), request, findings)
    {
      if !target.hasEvaluator {
        var receipt := RejectSubmission(request, "", "");
        return Returned(receipt), [];
      }
      outcome, findings := ExecuteOperation(request, [], request.action.base);
    }

    /** Any of the four participant actions. */
    method ControlParticipantEpisode(request: Request)
      returns (outcome: Outcome<OperationReceipt>, ghost findings: seq<Diagnostic>)
      requires Valid() && request.action.Participate?
      modifies this`snapshot, this`operations, Footprint(store)
      ensures Valid() && (outcome, State()) == Step(target, old(State()), request, findings)
    {
      if !target.hasParticipantRuntime {
        var receipt := RejectSubmission(request, request.key, request.fingerprint);
        return Returned(receipt), [];
      }
      outcome, findings := ExecuteOperation(request, [], None);
    }

    /** The state and the history that a cancellation writes. */
    method CloseCancelled(address: string, reason: string, at: Stamp) returns (next: RuntimeSnapshot)
      requires address in snapshot.orchestrationResults
      ensures next == WithRun(snapshot, address, CancelledRun(snapshot, address, reason, at))
    {
      var normalized := snapshot.orchestrationResults[address];
      var cancelled := EndedState(normalized, Cancelled, reason, at);
      var history := HistoryAt(snapshot.orchestrationHistory, address) + [CancelRecord(reason, at)];
      var state, events := MaybeApplyCompensation(CompiledContract(snapshot, address), cancelled, history, at);
      next := WithRun(snapshot, address, (state, events));
    }

    /** A cancellation whose key is new. */
    method CancelRun(request: Request) returns (outcome: Outcome<OperationReceipt>)
      requires Valid() && request.action.Cancel?
      modifies this`snapshot, this`operations, Footprint(store)
      ensures Valid() && (outcome, State()) == PerformCancel(old(State()), request)
    {
      hide CancelledRun, WithRun, RejectionRecord, DoneRecord, WorkflowState.Valid, Persist, Adopt, Reject;
      var address, runId := request.action.address, request.action.runId;
      if address !in snapshot.orchestrationResults {
        var receipt := RejectSubmission(request, request.key, request.fingerprint);
        return Returned(receipt);
      }
      var normalized := snapshot.orchestrationResults[address];
      if !normalized.Valid() {
        return Raised;
      }
      if runId != "" && normalized.runId != runId {
        var receipt := RejectSubmission(request, request.key, request.fingerprint);
        return Returned(receipt);
      }
      if normalized.status.IsTerminal() {
        var receipt := RecordDone(request, request.at, []);
        return Returned(receipt);
      }
      var next := CloseCancelled(address, request.action.reason, request.at);
      AdoptSnapshot(next);
      var receipt := RecordDone(request, request.at, [address]);
      return Returned(receipt);
    }

    method CancelWorkflow(request: Request) returns (outcome: Outcome<OperationReceipt>)
      requires Valid() && request.action.Cancel?
      modifies this`snapshot, this`operations, Footprint(store)
      ensures Valid() && (outcome, State()) == Step(target, old(State()), request, [])
    {
      hide RulingOn, PerformCancel;
      var existing := IdempotentReceipt(request.key, request.fingerprint);
      if existing.Raised? {
        return Raised;
      }
      if existing.value.Some? {
        return Returned(existing.value.value);
      }
      outcome := CancelRun(request);
    }

    method ReconcileWorkflowTimeouts(request: Request) returns (outcome: Outcome<OperationReceipt>)
      requires Valid() && request.action.Reconcile? && Enumerates(request.action.order, snapshot)
      modifies this`snapshot, this`operations, Footprint(store)
      ensures Valid() && (outcome, State()) == Step(target, old(State()), request, [])
    {
      hide RulingOn, PerformReconcile;
      var existing := IdempotentReceipt(request.key, request.fingerprint);
      if existing.Raised? {
        return Raised;
      }
      if existing.value.Some? {
        return Returned(existing.value.value);
      }
      outcome := ReconcileRuns(request);
    }

    /** A reconciliation whose key is new. */
    method ReconcileRuns(request: Request) returns (outcome: Outcome<OperationReceipt>)
      requires Valid() && request.action.Reconcile? && Enumerates(request.action.order, snapshot)
      modifies this`snapshot, this`operations, Footprint(store)
      ensures Valid() && (outcome, State()) == PerformReconcile(old(State()), request)
    {
      hide Reconciled, AllReadable, DueInOrder, DoneRecord, Persist, Adopt;
      var now := ReconcilesAt(request);
      var reconciled := ReconcileTimeouts(snapshot, now, request.action.order);
      if reconciled.Raised? {
        return Raised;
      }
      var (next, changed) := reconciled.value;
      AdoptSnapshot(next);
      var receipt := RecordDone(request, now, changed);
      return Returned(receipt);
    }

    method GetOperation(operationId: string) returns (status: Option<OperationStatus>)
      requires Valid()
      ensures status == if operationId in State().operations then Some(State().operations[operationId].status) else None
    {
      status := if operationId in operations then Some(operations[operationId].status) else None;
    }
  }
}
