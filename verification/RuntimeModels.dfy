/** The plain-data entities that the processor, the backends and the control plane exchange. */
module RuntimeModels {
  import opened Wrappers

  datatype RuntimeDomain = Provisioning | Orchestration | Evaluation | Participant

  datatype ResourceType =
    | Network | Node | FeatureBinding | ContentPlacement | AccountPlacement
    | InjectBinding | Inject | Event | Script | Story | Workflow
    | ConditionBinding | Metric | EvaluationResource | Tlo | Goal | Objective

  datatype Severity = Error | Warning | Info

  /** The diagnostic codes of the modelled code paths; any other code a backend or a plan brings along is foreign. */
  datatype DiagnosticCode =
    | BackendCallFailed | BackendContractInvalid
    | PlanTargetUnbound | PlanTargetMismatch | PlanManifestMismatch | PlanSnapshotMismatch
    | MissingEvaluator | MissingOrchestrator | ApplyPhaseFailed | ApplyRollbackFailed | DestroyPhaseFailed
    | ControlPlaneRejected | ParticipantRejected
    | Foreign(code: string)

  datatype Diagnostic = Diagnostic(code: DiagnosticCode, address: string, severity: Severity)
  {
    predicate IsError() {
      severity.Error?
    }
  }

  predicate HasError(diagnostics: seq<Diagnostic>) {
    exists d :: d in diagnostics && d.IsError()
  }

  function FailureDiagnostic(code: DiagnosticCode, address: string): Diagnostic {
    Diagnostic(code, address, Error)
  }

  /** A timestamp as it travels: the text, and the instant (in microseconds) it parses to, if it parses. */
  datatype Stamp = Stamp(text: string, instant: Option<int>)
  {
    /** What the clock produces: a non-empty text that parses. */
    predicate IsClock() {
      text != "" && instant.Some?
    }

    predicate NotAfter(other: Stamp) {
      instant.Some? && other.instant.Some? && instant.value <= other.instant.value
    }
  }

  // ---------------------------------------------------------------- workflows

  datatype StepLifecycle = StepPending | StepRunning | StepCompleted

  datatype StepOutcome = StepSucceeded | StepFailed | StepExhausted

  datatype WorkflowStatus = Pending | Running | Succeeded | Failed | Cancelled | TimedOut
  {
    predicate IsTerminal() {
      Succeeded? || Failed? || Cancelled? || TimedOut?
    }
  }

  datatype CompensationStatus =
    | NotRequired | CompensationPending | CompensationRunning | CompensationSucceeded | CompensationFailed

  datatype WorkflowEventType =
    | WorkflowStarted | StepStartedEvent | StepCompletedEvent | SwitchCaseSelected | CallStarted | CallCompleted
    | BranchEntered | BranchConverged | WorkflowCompleted | WorkflowFailed | WorkflowCancelled | WorkflowTimedOut
    | CompensationRegistered | CompensationStarted | CompensationWorkflowStarted | CompensationWorkflowCompleted
    | CompensationWorkflowFailed | CompensationCompleted | CompensationFailedEvent
  {
    predicate IsTerminal() {
      WorkflowCompleted? || WorkflowFailed? || WorkflowCancelled? || WorkflowTimedOut?
    }

    predicate IsCompensation() {
      || CompensationRegistered? || CompensationStarted? || CompensationWorkflowStarted?
          || CompensationWorkflowCompleted?
      || CompensationWorkflowFailed? || CompensationCompleted? || CompensationFailedEvent?
    }
  }

  /** The event details that the modelled code reads or writes; an absent workflow address reads as the empty text. */
  datatype EventDetails = EventDetails(
    workflowAddress: string,
    completedAt: Option<Stamp>,
    trigger: Option<WorkflowStatus>,
    reason: Option<string>,
    number: Option<int>)

  const NO_DETAILS := EventDetails("", None, None, None, None)

  datatype WorkflowEvent = WorkflowEvent(
    eventType: WorkflowEventType,
    timestamp: Stamp,
    stepName: Option<string>,
    joinStep: Option<string>,
    outcome: Option<StepOutcome>,
    details: EventDetails)

  /** The step kinds that the history rules single out. */
  datatype StepKind = SwitchStep | CallStep | OtherStep

  datatype CompensationMode = Automatic | Disabled

  datatype StepContract = StepContract(
    stateObservable: bool,
    observableOutcomes: seq<StepOutcome>,
    fixedAttempts: Option<int>)

  datatype StepState = StepState(lifecycle: StepLifecycle, outcome: Option<StepOutcome>, attempts: int)
  {
    predicate Valid() {
      && attempts >= 0
      && (!lifecycle.StepCompleted? ==> outcome.None?)
      && (lifecycle.StepPending? ==> attempts == 0)
    }

    predicate HasSucceeded() {
      lifecycle.StepCompleted? && outcome == Some(StepSucceeded)
    }
  }

  datatype WorkflowState = WorkflowState(
    schemaVersion: string,
    status: WorkflowStatus,
    runId: string,
    startedAt: Stamp,
    updatedAt: Stamp,
    terminalReason: Option<string>,
    compensation: CompensationStatus,
    compensationStartedAt: Option<Stamp>,
    compensationUpdatedAt: Option<Stamp>,
    compensationFailures: seq<string>,
    steps: map<string, StepState>)
  {
    /** The constructor's checks: a payload that fails them raises instead of normalizing. */
    predicate Valid() {
      && schemaVersion != "" && runId != "" && startedAt.text != "" && updatedAt.text != ""
      && (forall name :: name in steps ==> steps[name].Valid())
      && (status.IsTerminal() <==> terminalReason.Some?)
      && (!status.IsTerminal() ==>
            compensation.NotRequired? && compensationStartedAt.None? && compensationUpdatedAt.None?)
      && (compensation.NotRequired? ==>
            compensationStartedAt.None? && compensationUpdatedAt.None? && compensationFailures == [])
      && (compensation.CompensationRunning? ==> compensationStartedAt.Some?)
    }
  }

  datatype WorkflowResultContract = WorkflowResultContract(schemaVersion: string, observableSteps: map<string,
      StepContract>)
  {
    predicate Valid() {
      schemaVersion != "" && forall name :: name in observableSteps ==> observableSteps[name].stateObservable
    }
  }

  datatype WorkflowExecutionContract = WorkflowExecutionContract(
    schemaVersion: string,
    startStep: string,
    timeoutSeconds: Option<int>,
    steps: map<string, StepContract>,
    stepTypes: map<string, StepKind>,
    joinOwners: map<string, string>,
    callSteps: map<string, string>,
    compensationMode: CompensationMode,
    compensationTriggers: seq<WorkflowStatus>,
    compensationTargets: map<string, string>)
  {
    predicate Valid() {
      schemaVersion != "" && (timeoutSeconds.Some? ==> timeoutSeconds.value > 0)
    }
  }

  // -------------------------------------------------------------- evaluations

  datatype EvaluationStatus = EvaluationPending | EvaluationRunning | EvaluationReady | EvaluationFailed

  datatype EvaluationEventType =
    | EvaluationStartedEvent | EvaluationUpdatedEvent | EvaluationReadyEvent | EvaluationFailedEvent

  datatype Measurement = Measurement(passed: Option<bool>, score: Option<real>, maxScore: Option<int>)
  {
    predicate FitsStatus(status: EvaluationStatus) {
      && (!status.EvaluationReady? ==> passed.None? && score.None? && maxScore.None?)
      && (status.EvaluationReady? ==> passed.Some? || score.Some?)
      && (maxScore.Some? ==> score.Some?)
    }
  }

  datatype EvaluationEvent = EvaluationEvent(
    eventType: EvaluationEventType,
    timestamp: Stamp,
    status: EvaluationStatus,
    measured: Measurement,
    detail: Option<string>)
  {
    predicate Valid() {
      timestamp.text != "" && measured.FitsStatus(status)
    }
  }

  datatype EvaluationState = EvaluationState(
    schemaVersion: string,
    resourceType: ResourceType,
    runId: string,
    status: EvaluationStatus,
    observedAt: Stamp,
    updatedAt: Stamp,
    measured: Measurement,
    detail: Option<string>)
  {
    predicate Valid() {
      && schemaVersion != "" && runId != "" && observedAt.text != "" && updatedAt.text != ""
      && measured.FitsStatus(status)
      && (measured.score.Some? && measured.maxScore.Some? ==> measured.score.value <= measured.maxScore.value as real)
    }
  }

  datatype EvaluationResultContract = EvaluationResultContract(
    schemaVersion: string,
    resourceType: ResourceType,
    supportsPassed: bool,
    supportsScore: bool,
    fixedMaxScore: Option<int>)
  {
    predicate Valid() {
      && schemaVersion != ""
      && (fixedMaxScore.Some? ==> fixedMaxScore.value >= 0 && supportsScore)
    }
  }

  datatype EvaluationExecutionContract = EvaluationExecutionContract(
    schemaVersion: string,
    resourceType: ResourceType,
    allowedStatuses: seq<EvaluationStatus>,
    historyEventTypes: seq<EvaluationEventType>,
    requiresStartEvent: bool)
  {
    predicate Valid() {
      schemaVersion != ""
    }
  }

  // ----------------------------------------------------- participant episodes

  datatype EpisodeStatus = EpisodeInitializing | EpisodeLive | EpisodeTerminated

  datatype TerminalReason = Completed | TimedOutReason | Truncated | Interrupted

  datatype ControlAction = Initialize | Reset | Restart

  datatype EpisodeEventType =
    | EpisodeInitialized | EpisodeRunning | EpisodeCompleted | EpisodeTimedOut | EpisodeTruncated | EpisodeInterrupted
    | EpisodeReset | EpisodeRestarted
  {
    /** The reason a terminal event must carry; none for the other events. */
    function Reason(): Option<TerminalReason> {
      match this
      case EpisodeCompleted => Some(Completed)
      case EpisodeTimedOut => Some(TimedOutReason)
      case EpisodeTruncated => Some(Truncated)
      case EpisodeInterrupted => Some(Interrupted)
      case _ => None
    }

    /** The control action that a transition event must carry; none for the other events. */
    function Action(): Option<ControlAction> {
      match this
      case EpisodeInitialized => Some(Initialize)
      case EpisodeReset => Some(Reset)
      case EpisodeRestarted => Some(Restart)
      case _ => None
    }

    predicate OpensEpisode() {
      EpisodeReset? || EpisodeRestarted?
    }
  }

  datatype EpisodeState = EpisodeState(
    schemaVersion: string,
    participant: string,
    episodeId: string,
    sequenceNumber: int,
    status: EpisodeStatus,
    terminalReason: Option<TerminalReason>,
    initializedAt: Stamp,
    updatedAt: Stamp,
    terminatedAt: Option<Stamp>,
    lastAction: ControlAction,
    previousEpisodeId: Option<string>)
  {
    predicate Valid() {
      && schemaVersion != "" && participant != "" && episodeId != "" && sequenceNumber >= 0
      && initializedAt.text != "" && updatedAt.text != ""
      && (terminatedAt.Some? ==> terminatedAt.value.text != "")
      && (previousEpisodeId.Some? ==> previousEpisodeId.value != "")
      && (status.EpisodeTerminated? <==> terminalReason.Some?)
      && (status.EpisodeTerminated? <==> terminatedAt.Some?)
      && (sequenceNumber == 0 ==> lastAction.Initialize? && previousEpisodeId.None?)
      && (sequenceNumber != 0 ==>
            !lastAction.Initialize? && previousEpisodeId.Some? && previousEpisodeId.value != episodeId)
    }
  }

  datatype EpisodeDetails = EpisodeDetails(previousEpisodeId: Option<string>, reason: Option<string>,
      detail: Option<string>)

  datatype EpisodeEvent = EpisodeEvent(
    eventType: EpisodeEventType,
    timestamp: Stamp,
    participant: string,
    episodeId: string,
    sequenceNumber: int,
    terminalReason: Option<TerminalReason>,
    controlAction: Option<ControlAction>,
    details: EpisodeDetails)
  {
    predicate Valid() {
      && timestamp.text != "" && participant != "" && episodeId != "" && sequenceNumber >= 0
      && terminalReason == eventType.Reason()
      && controlAction == eventType.Action()
      && (eventType.EpisodeInitialized? ==> sequenceNumber == 0)
      && (eventType.OpensEpisode() ==> sequenceNumber != 0)
    }
  }

  // ----------------------------------------------------------------- snapshot

  datatype EntryPayload =
    | WorkflowPayload(result: Option<WorkflowResultContract>, execution: Option<WorkflowExecutionContract>)
    | EvaluationPayload(resultContract: Option<EvaluationResultContract>,
        executionContract: Option<EvaluationExecutionContract>)
    | OtherPayload(data: string)

  datatype SnapshotEntry = SnapshotEntry(
    address: string,
    domain: RuntimeDomain,
    resourceType: ResourceType,
    payload: EntryPayload,
    orderingDependencies: seq<string>,
    refreshDependencies: seq<string>,
    status: string)
  {
    predicate IsWorkflow() {
      domain.Orchestration? && resourceType.Workflow?
    }

    /** An evaluation resource whose payload carries both compiled contracts. */
    predicate IsObservable() {
      && domain.Evaluation? && payload.EvaluationPayload?
      && payload.resultContract.Some? && payload.executionContract.Some?
    }
  }

  datatype RuntimeSnapshot = RuntimeSnapshot(
    entries: map<string, SnapshotEntry>,
    orchestrationResults: map<string, WorkflowState>,
    orchestrationHistory: map<string, seq<WorkflowEvent>>,
    evaluationResults: map<string, EvaluationState>,
    evaluationHistory: map<string, seq<EvaluationEvent>>,
    participantResults: map<string, EpisodeState>,
    participantHistory: map<string, seq<EpisodeEvent>>,
    metadata: map<string, string>)

  const EMPTY_SNAPSHOT := RuntimeSnapshot(map[], map[], map[], map[], map[], map[], map[], map[])

  function HistoryAt<E>(history: map<string, seq<E>>, address: string): seq<E> {
    if address in history then history[address] else []
  }

  datatype ApplyResult = ApplyResult(
    success: bool,
    snapshot: RuntimeSnapshot,
    diagnostics: seq<Diagnostic>,
    changedAddresses: seq<string>)
}
