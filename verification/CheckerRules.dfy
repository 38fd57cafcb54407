/**
  The rules that the three checkers enforce, once more and independently: as tables over lifecycles, event types and
  statuses, and over neighbouring events instead of pairs. A snapshot is accepted exactly if it keeps these rules.
 */
module CheckerRules {
  import opened Wrappers
  import opened RuntimeModels
  import opened WorkflowContracts
  import opened EvaluationContracts
  import opened ParticipantEpisodes
  import opened BackendBoundary

  // ---------------------------------------------------------------- timestamps

  /** Every timestamp can be read, and none is before its predecessor. */
  predicate Ascending(stamps: seq<Stamp>) {
    && (forall i :: 0 <= i < |stamps| ==> stamps[i].instant.Some?)
    && (forall i :: 0 < i < |stamps| ==> stamps[i - 1].instant.value <= stamps[i].instant.value)
  }

  lemma {:induction false} AscendingPairs(stamps: seq<Stamp>, i: nat, j: nat)
    requires Ascending(stamps) && i <= j < |stamps|
    ensures stamps[i].instant.value <= stamps[j].instant.value
    decreases j
  {
    if i < j {
      AscendingPairs(stamps, i, j - 1);
    }
  }

  lemma MonotoneIffAscending(stamps: seq<Stamp>)
    ensures Monotone(stamps) <==> Ascending(stamps)
  {
    if Ascending(stamps) {
      forall i, j | 0 <= i < j < |stamps| ensures stamps[i].NotAfter(stamps[j]) {
        AscendingPairs(stamps, i, j);
      }
    }
    if Monotone(stamps) {
      forall i | 0 < i < |stamps| ensures stamps[i - 1].instant.value <= stamps[i].instant.value {
        assert stamps[i - 1].NotAfter(stamps[i]);
      }
    }
  }

  // ----------------------------------------------------------------- workflows

  /** What a step may report in each stage of its life. */
  predicate StepKeeps(contract: StepContract, st: StepState) {
    match st.lifecycle
    case StepPending =>
      st.attempts == 0 && st.outcome.None? && (contract.fixedAttempts.Some? ==> 0 <= contract.fixedAttempts.value)
    case StepRunning =>
      && (if contract.stateObservable then 1 else 0) <= st.attempts && st.outcome.None?
      && (contract.fixedAttempts.Some? ==> st.attempts <= contract.fixedAttempts.value)
    case StepCompleted =>
      && 0 <= st.attempts && (contract.fixedAttempts.Some? ==> st.attempts == contract.fixedAttempts.value)
      && (contract.stateObservable ==> st.outcome.Some? && st.outcome.value in contract.observableOutcomes)
  }

  /** What an event of each type may refer to. */
  predicate EventKeeps(xc: WorkflowExecutionContract, e: WorkflowEvent) {
    var step := if e.stepName.Some? then e.stepName.value else "";
    && (step == "" || step in xc.steps)
    && match e.eventType
       case SwitchCaseSelected => e.stepName.None? || (step in xc.stepTypes && xc.stepTypes[step].SwitchStep?)
       case CallStarted => CallKeeps(xc, e)
       case CallCompleted => CallKeeps(xc, e)
       case BranchConverged => e.joinStep.Some? && e.joinStep.value in xc.joinOwners
       case CompensationRegistered => e.stepName.Some? && step in xc.compensationTargets
       case CompensationWorkflowStarted => CompensatorKeeps(xc, e)
       case CompensationWorkflowCompleted => CompensatorKeeps(xc, e)
       case CompensationWorkflowFailed => CompensatorKeeps(xc, e)
       case _ => true
  }

  /** A call is of a call step, and names the workflow called there if it names one and the contract does too. */
  predicate CallKeeps(xc: WorkflowExecutionContract, e: WorkflowEvent) {
    && e.stepName.Some? && e.stepName.value in xc.stepTypes && xc.stepTypes[e.stepName.value].CallStep?
    && var called := if e.stepName.value in xc.callSteps then xc.callSteps[e.stepName.value] else "";
    called == "" || e.details.workflowAddress in {"", called}
  }

  predicate CompensatorKeeps(xc: WorkflowExecutionContract, e: WorkflowEvent) {
    && e.stepName.Some? && e.stepName.value in xc.compensationTargets
    && e.details.workflowAddress in {"", xc.compensationTargets[e.stepName.value]}
  }

  /** The record that a status calls for. */
  predicate Records(t: WorkflowEventType, status: WorkflowStatus) {
    match status
    case Succeeded => t.WorkflowCompleted?
    case Failed => t.WorkflowFailed?
    case Cancelled => t.WorkflowCancelled?
    case TimedOut => t.WorkflowTimedOut?
    case _ => false
  }

  predicate IsCompensationEvent(t: WorkflowEventType) {
    t in {CompensationRegistered, CompensationStarted, CompensationWorkflowStarted, CompensationWorkflowCompleted,
          CompensationWorkflowFailed, CompensationCompleted, CompensationFailedEvent}
  }

  /** At the given place stands the last record of the status, and no compensation event comes before it. */
  predicate RecordedAt(status: WorkflowStatus, history: seq<WorkflowEvent>, p: int) {
    && 0 <= p < |history| && Records(history[p].eventType, status)
    && (forall i :: p < i < |history| ==> !Records(history[i].eventType, status))
    && (forall i :: 0 <= i < p ==> !IsCompensationEvent(history[i].eventType))
  }

  function CompensationEvents(history: seq<WorkflowEvent>): seq<WorkflowEventType> {
    if history == [] then []
    else
      var last := history[|history| - 1].eventType;
      CompensationEvents(history[..|history| - 1]) + (if IsCompensationEvent(last) then [last] else [])
  }

  /** What the compensation events must be for each compensation status. */
  predicate CompensationKeeps(status: CompensationStatus, history: seq<WorkflowEvent>) {
    var events := CompensationEvents(history);
    match status
    case NotRequired => events == []
    case CompensationPending => true
    case CompensationRunning => CompensationStarted in events
    case CompensationSucceeded => events == [] || events[|events| - 1].CompensationCompleted?
    case CompensationFailed => events == [] || events[|events| - 1].CompensationFailedEvent?
  }

  ghost predicate HistoryKeeps(xc: WorkflowExecutionContract, st: WorkflowState, history: seq<WorkflowEvent>) {
    history != [] ==>
      && history[0].eventType.WorkflowStarted?
      && (forall i :: 0 <= i < |history| ==> EventKeeps(xc, history[i]))
      && (st.status in {Succeeded, Failed, Cancelled, TimedOut} ==> exists p :: RecordedAt(st.status, history, p))
      && (st.status.Running? ==>
            !(history[|history| - 1].eventType
                in {WorkflowCompleted, WorkflowFailed, WorkflowCancelled, WorkflowTimedOut}))
      && CompensationKeeps(st.compensation, history)
  }

  /** What a state must carry in each status. */
  predicate StateKeeps(st: WorkflowState) {
    && st.schemaVersion != "" && st.runId != "" && st.startedAt.text != "" && st.updatedAt.text != ""
    && (if st.status in {Succeeded, Failed, Cancelled, TimedOut} then
          && st.terminalReason.Some?
          && (st.compensation.CompensationRunning? ==> st.compensationStartedAt.Some?)
        else st.terminalReason.None? && st.compensation.NotRequired?)
    && (st.compensation.NotRequired? ==>
          st.compensationStartedAt.None? && st.compensationUpdatedAt.None? && st.compensationFailures == [])
  }

  /** A terminal state that calls for compensation must not say that none is required. */
  ghost predicate OwnsUp(xc: WorkflowExecutionContract, st: WorkflowState) {
    st.compensation.NotRequired? && xc.compensationMode.Automatic? && st.status in xc.compensationTriggers ==>
      forall step | step in st.steps && st.steps[step].lifecycle.StepCompleted?
                    && st.steps[step].outcome == Some(StepSucceeded) && step in xc.compensationTargets ::
        xc.compensationTargets[step] == ""
  }

  /** The entry of a workflow with two readable contracts. */
  predicate EntryKeeps(entry: SnapshotEntry) {
    && entry.domain.Orchestration? && entry.resourceType.Workflow? && entry.payload.WorkflowPayload?
    && entry.payload.result.Some? && entry.payload.execution.Some?
    && var rc, xc := entry.payload.result.value, entry.payload.execution.value;
    && rc.schemaVersion != "" && xc.schemaVersion != ""
    && (forall n :: n in rc.observableSteps ==> rc.observableSteps[n].stateObservable)
    && (xc.timeoutSeconds.Some? ==> 0 < xc.timeoutSeconds.value)
  }

  ghost predicate WorkflowKeeps(s: RuntimeSnapshot, a: string) {
    && a in s.orchestrationResults && a in s.entries && EntryKeeps(s.entries[a])
    && var rc, xc := s.entries[a].payload.result.value, s.entries[a].payload.execution.value;
    var st, history := s.orchestrationResults[a], HistoryAt(s.orchestrationHistory, a);
    && StateKeeps(st) && st.schemaVersion == rc.schemaVersion == xc.schemaVersion && OwnsUp(xc, st)
    && (forall n :: n in st.steps <==> n in rc.observableSteps)
    && (forall n :: n in st.steps ==>
          && StepKeeps(rc.observableSteps[n], st.steps[n]) && n in xc.steps
          && (xc.steps[n].stateObservable && st.steps[n].outcome.Some? ==>
                st.steps[n].outcome.value in xc.steps[n].observableOutcomes))
    && Ascending(Stamps(history)) && HistoryKeeps(xc, st, history)
  }

  lemma EventConformsIff(xc: WorkflowExecutionContract, e: WorkflowEvent)
    ensures EventConforms(xc, e) <==> EventKeeps(xc, e)
  {
  }

  lemma SelectionsAgree(t: WorkflowEventType, status: WorkflowStatus)
    ensures t.IsCompensation() <==> IsCompensationEvent(t)
    ensures TerminalEventOf(status) == Some(t) <==> Records(t, status)
    ensures TerminalEventOf(status).Some? <==> status in {Succeeded, Failed, Cancelled, TimedOut}
  {
  }

  lemma {:induction false} LastRecordExists(status: WorkflowStatus, history: seq<WorkflowEvent>, i: nat)
    returns (p: nat)
    requires i < |history| && Records(history[i].eventType, status)
    ensures p < |history| && Records(history[p].eventType, status)
    ensures forall j :: p < j < |history| ==> !Records(history[j].eventType, status)
    decreases |history| - i
  {
    p := i;
    if j :| i < j < |history| && Records(history[j].eventType, status) {
      p := LastRecordExists(status, history, j);
    }
  }

  lemma TerminalRecordedIff(status: WorkflowStatus, history: seq<WorkflowEvent>)
    requires status in {Succeeded, Failed, Cancelled, TimedOut}
    ensures TerminalRecorded(status, history) <==> exists p :: RecordedAt(status, history, p)
  {
    hide IsCompensationEvent, Records;
    forall i | 0 <= i < |history|
      ensures history[i].eventType.IsCompensation() <==> IsCompensationEvent(history[i].eventType)
      ensures TerminalEventOf(status) == Some(history[i].eventType) <==> Records(history[i].eventType, status)
    {
      SelectionsAgree(history[i].eventType, status);
    }
    SelectionsAgree(WorkflowStarted, status);
    if TerminalRecorded(status, history) {
      var i :| 0 <= i < |history| && history[i].eventType == TerminalEventOf(status).value;
      var p := LastRecordExists(status, history, i);
      assert RecordedAt(status, history, p);
    }
    if p :| RecordedAt(status, history, p) {
      RecordedMeans(status, history, p);
    }
  }

  lemma RecordedMeans(status: WorkflowStatus, history: seq<WorkflowEvent>, p: int)
    requires RecordedAt(status, history, p)
    ensures TerminalRecorded(status, history)
  {
    var expected := TerminalEventOf(status).value;
    assert history[p].eventType == expected;
    forall i, j | 0 <= i < |history| && 0 <= j < |history|
                  && history[i].eventType == expected && history[j].eventType.IsCompensation()
      ensures i < j
    {
      assert i <= p;
      assert j > p;
    }
  }

  /** The filtered list contains what stands at some position. */
  lemma {:induction false} CompensationEventsContain(history: seq<WorkflowEvent>, t: WorkflowEventType)
    ensures t in CompensationEvents(history) <==>
      t.IsCompensation() && exists i :: 0 <= i < |history| && history[i].eventType == t
  {
    hide IsCompensationEvent;
    if history != [] {
      var front, last := history[..|history| - 1], history[|history| - 1];
      CompensationEventsContain(front, t);
      SelectionsAgree(last.eventType, Pending);
      assert forall i :: 0 <= i < |front| ==> front[i] == history[i];
      if t == last.eventType {
        assert history[|history| - 1].eventType == t;
      }
    }
  }

  /** The last of the filtered list is the last one that stands at some position. */
  lemma {:induction false} CompensationEventsEnd(history: seq<WorkflowEvent>, j: int)
    requires IsLastCompensation(history, j)
    ensures var events := CompensationEvents(history);
            events != [] && events[|events| - 1] == history[j].eventType
  {
    hide IsCompensationEvent;
    var front, last := history[..|history| - 1], history[|history| - 1];
    SelectionsAgree(last.eventType, Pending);
    if j < |front| {
      assert history[|front|].eventType == last.eventType;
      assert forall i :: 0 <= i < |front| ==> front[i] == history[i];
      CompensationEventsEnd(front, j);
    }
  }

  lemma {:induction false} LastCompensationExists(history: seq<WorkflowEvent>, i: nat) returns (j: nat)
    requires i < |history| && history[i].eventType.IsCompensation()
    ensures IsLastCompensation(history, j)
    decreases |history| - i
  {
    j := i;
    if k :| i < k < |history| && history[k].eventType.IsCompensation() {
      j := LastCompensationExists(history, k);
    }
  }

  lemma CompensationRecordedIff(status: CompensationStatus, history: seq<WorkflowEvent>)
    ensures CompensationRecorded(status, history) <==> CompensationKeeps(status, history)
  {
    hide CompensationEvents;
    var events := CompensationEvents(history);
    CompensationEventsContain(history, CompensationStarted);
    assert forall e :: e in history <==> exists i :: 0 <= i < |history| && history[i] == e;
    forall j | IsLastCompensation(history, j) ensures events != [] && events[|events| - 1] == history[j].eventType {
      CompensationEventsEnd(history, j);
    }
    if events != [] {
      assert events[0] in events;
      CompensationEventsContain(history, events[0]);
      var i :| 0 <= i < |history| && history[i].eventType.IsCompensation();
      var j := LastCompensationExists(history, i);
    } else {
      forall i | 0 <= i < |history| ensures !history[i].eventType.IsCompensation() {
        CompensationEventsContain(history, history[i].eventType);
      }
    }
  }

  lemma HistoryConformsIff(xc: WorkflowExecutionContract, st: WorkflowState, history: seq<WorkflowEvent>)
    ensures HistoryConforms(xc, st, history) <==> HistoryKeeps(xc, st, history)
  {
    hide EventConforms, EventKeeps, TerminalRecorded, RecordedAt, CompensationRecorded, CompensationKeeps;
    if history != [] {
      forall e ensures EventConforms(xc, e) <==> EventKeeps(xc, e) {
        EventConformsIff(xc, e);
      }
      assert (forall e :: e in history ==> EventConforms(xc, e)) <==>
             (forall i :: 0 <= i < |history| ==> EventKeeps(xc, history[i]));
      if st.status in {Succeeded, Failed, Cancelled, TimedOut} {
        TerminalRecordedIff(st.status, history);
      } else {
        NothingExpected(st.status, history);
      }
      CompensationRecordedIff(st.compensation, history);
    }
  }

  lemma NothingExpected(status: WorkflowStatus, history: seq<WorkflowEvent>)
    requires !(status in {Succeeded, Failed, Cancelled, TimedOut})
    ensures TerminalRecorded(status, history)
  {
  }

  lemma StepConformsIff(contract: StepContract, st: StepState)
    ensures StepConforms(contract, st) <==> StepKeeps(contract, st)
  {
  }

  lemma StateConformsIff(rc: WorkflowResultContract, xc: WorkflowExecutionContract, st: WorkflowState)
    ensures StateConforms(rc, xc, st) <==>
      && StateKeeps(st) && st.schemaVersion == rc.schemaVersion == xc.schemaVersion && OwnsUp(xc, st)
      && (forall n :: n in st.steps <==> n in rc.observableSteps)
      && (forall n :: n in st.steps ==>
            && StepKeeps(rc.observableSteps[n], st.steps[n]) && n in xc.steps
            && (xc.steps[n].stateObservable && st.steps[n].outcome.Some? ==>
                  st.steps[n].outcome.value in xc.steps[n].observableOutcomes))
  {
    hide StepConforms, StepKeeps;
    forall n | n in st.steps && n in rc.observableSteps
      ensures StepConforms(rc.observableSteps[n], st.steps[n]) <==> StepKeeps(rc.observableSteps[n], st.steps[n])
      ensures StepKeeps(rc.observableSteps[n], st.steps[n]) ==> st.steps[n].Valid()
      ensures StepKeeps(rc.observableSteps[n], st.steps[n]) && st.steps[n].outcome.Some? ==>
                st.steps[n].lifecycle.StepCompleted?
    {
      StepConformsIff(rc.observableSteps[n], st.steps[n]);
      StepIsValid(rc.observableSteps[n], st.steps[n]);
    }
    assert st.steps.Keys == rc.observableSteps.Keys <==> forall n :: n in st.steps <==> n in rc.observableSteps;
    DueIff(xc, st);
    StateValidIff(st);
  }

  lemma StepIsValid(contract: StepContract, st: StepState)
    ensures StepKeeps(contract, st) ==> st.Valid() && (st.outcome.Some? ==> st.lifecycle.StepCompleted?)
  {
  }

  lemma StateValidIff(st: WorkflowState)
    ensures st.Valid() <==> StateKeeps(st) && forall n :: n in st.steps ==> st.steps[n].Valid()
  {
  }

  lemma DueIff(xc: WorkflowExecutionContract, st: WorkflowState)
    ensures OwnsUp(xc, st) <==> (CompensationDue(xc, st) ==> !st.compensation.NotRequired?)
  {
    forall step | step in st.steps
      ensures OwesCompensation(xc, st, step) <==>
        && st.steps[step].lifecycle.StepCompleted? && st.steps[step].outcome == Some(StepSucceeded)
        && step in xc.compensationTargets && xc.compensationTargets[step] != ""
    {
    }
  }

  /** The workflow checker accepts exactly the workflows that keep the rules. */
  lemma WorkflowAcceptedIff(s: RuntimeSnapshot, a: string)
    ensures WorkflowAccepted(s, a) <==> WorkflowKeeps(s, a)
  {
    hide StateConforms, HistoryConforms, Monotone, StateKeeps, OwnsUp, StepKeeps, HistoryKeeps, Ascending;
    if a in s.entries && a in s.orchestrationResults && EntryKeeps(s.entries[a]) {
      var rc, xc := s.entries[a].payload.result.value, s.entries[a].payload.execution.value;
      var st, history := s.orchestrationResults[a], HistoryAt(s.orchestrationHistory, a);
      StateConformsIff(rc, xc, st);
      HistoryConformsIff(xc, st, history);
      MonotoneIffAscending(Stamps(history));
    }
  }

  // --------------------------------------------------------------- evaluations

  /** What may be measured in each status: nothing before the result is ready, and then what the contract supports. */
  predicate MeasurementKeeps(rc: EvaluationResultContract, status: EvaluationStatus, m: Measurement) {
    if status.EvaluationReady? then
      && (m.passed.Some? <==> rc.supportsPassed) && (m.score.Some? <==> rc.supportsScore)
      && (rc.supportsPassed || rc.supportsScore) && (m.maxScore.Some? ==> rc.supportsScore)
      && (rc.fixedMaxScore.Some? ==> m.maxScore == rc.fixedMaxScore)
      && (m.score.Some? && m.maxScore.Some? ==> m.score.value <= m.maxScore.value as real)
    else m == Measurement(None, None, None)
  }

  predicate EvaluationEventKeeps(xc: EvaluationExecutionContract, e: EvaluationEvent) {
    && e.timestamp.text != "" && e.eventType in xc.historyEventTypes && e.status in xc.allowedStatuses
    && if e.status.EvaluationReady? then
         (e.measured.passed.Some? || e.measured.score.Some?) && (e.measured.maxScore.Some? ==> e.measured.score.Some?)
       else e.measured == Measurement(None, None, None)
  }

  /** The last event of a history, for each status it may lead to. */
  predicate LeadsTo(last: EvaluationEventType, status: EvaluationStatus) {
    match status
    case EvaluationPending => true
    case EvaluationRunning => last.EvaluationStartedEvent? || last.EvaluationUpdatedEvent?
    case EvaluationReady => last.EvaluationReadyEvent?
    case EvaluationFailed => last.EvaluationFailedEvent?
  }

  predicate EvaluationHistoryKeeps(
    xc: EvaluationExecutionContract, status: EvaluationStatus, history: seq<EvaluationEvent>) {
    && Ascending(EvaluationStamps(history))
    && (forall i :: 0 <= i < |history| ==> EvaluationEventKeeps(xc, history[i]))
    && (history != [] ==>
          && (xc.requiresStartEvent ==> history[0].eventType.EvaluationStartedEvent?)
          && LeadsTo(history[|history| - 1].eventType, status))
  }

  predicate EvaluationEntryKeeps(entry: SnapshotEntry) {
    && entry.domain.Evaluation? && entry.payload.EvaluationPayload?
    && entry.payload.resultContract.Some? && entry.payload.executionContract.Some?
  }

  predicate EvaluationKeeps(s: RuntimeSnapshot, a: string) {
    && a in s.entries && EvaluationEntryKeeps(s.entries[a]) && a in s.evaluationResults && a in s.evaluationHistory
    && var rc, xc := s.entries[a].payload.resultContract.value, s.entries[a].payload.executionContract.value;
    var st := s.evaluationResults[a];
    && st.schemaVersion == rc.schemaVersion == xc.schemaVersion != "" && st.resourceType == rc.resourceType
    && (rc.fixedMaxScore.Some? ==> 0 <= rc.fixedMaxScore.value && rc.supportsScore)
    && st.runId != "" && st.observedAt.text != "" && st.updatedAt.text != ""
    && st.status in xc.allowedStatuses && MeasurementKeeps(rc, st.status, st.measured)
    && EvaluationHistoryKeeps(xc, st.status, s.evaluationHistory[a])
  }

  lemma EvaluationHistoryIff(
    xc: EvaluationExecutionContract, status: EvaluationStatus, history: seq<EvaluationEvent>)
    ensures EvaluationHistoryConforms(xc, status, history) <==> EvaluationHistoryKeeps(xc, status, history)
  {
    hide Ascending, Monotone;
    MonotoneIffAscending(EvaluationStamps(history));
    assert forall i :: 0 <= i < |history| ==> history[i] in history;
    forall e ensures EvaluationEventKeeps(xc, e) <==>
      e.Valid() && e.eventType in xc.historyEventTypes && e.status in xc.allowedStatuses
    {
    }
  }

  lemma EvaluationStateIff(rc: EvaluationResultContract, xc: EvaluationExecutionContract, st: EvaluationState)
    ensures (rc.Valid() && xc.Valid() && st.Valid() && st.resourceType == rc.resourceType
             && st.schemaVersion == rc.schemaVersion && st.schemaVersion == xc.schemaVersion
             && MeasurementConforms(rc, st.status, st.measured)) <==>
      && st.schemaVersion == rc.schemaVersion == xc.schemaVersion != "" && st.resourceType == rc.resourceType
      && (rc.fixedMaxScore.Some? ==> 0 <= rc.fixedMaxScore.value && rc.supportsScore)
      && st.runId != "" && st.observedAt.text != "" && st.updatedAt.text != ""
      && MeasurementKeeps(rc, st.status, st.measured)
  {
  }

  /** The evaluation checker accepts exactly the results that keep the rules. */
  lemma EvaluationAcceptedIff(s: RuntimeSnapshot, a: string)
    ensures EvaluationAccepted(s, a) <==> EvaluationKeeps(s, a)
  {
    hide EvaluationHistoryConforms, EvaluationHistoryKeeps, MeasurementConforms, MeasurementKeeps;
    if a in s.entries && EvaluationEntryKeeps(s.entries[a]) && a in s.evaluationResults && a in s.evaluationHistory {
      var rc, xc := s.entries[a].payload.resultContract.value, s.entries[a].payload.executionContract.value;
      EvaluationStateIff(rc, xc, s.evaluationResults[a]);
      EvaluationHistoryIff(xc, s.evaluationResults[a].status, s.evaluationHistory[a]);
    }
  }

  // ------------------------------------------------------------------ episodes

  /** The first episode of a participant is initialized; every later one is opened by a reset or restart of another. */
  predicate EpisodeKeeps(address: string, st: EpisodeState) {
    && address != "" && st.participant == address
    && st.schemaVersion != "" && st.episodeId != "" && st.initializedAt.text != "" && st.updatedAt.text != ""
    && (if st.sequenceNumber == 0 then st.lastAction.Initialize? && st.previousEpisodeId.None?
        else && 0 < st.sequenceNumber && st.lastAction in {Reset, Restart}
             && st.previousEpisodeId.Some? && st.previousEpisodeId.value !in {"", st.episodeId})
    && (if st.status.EpisodeTerminated? then
          st.terminalReason.Some? && st.terminatedAt.Some? && st.terminatedAt.value.text != ""
        else st.terminalReason.None? && st.terminatedAt.None?)
  }

  /** What an event of each type carries. */
  predicate EpisodeEventKeeps(address: string, e: EpisodeEvent) {
    && e.participant == address && e.timestamp.text != "" && e.episodeId != "" && 0 <= e.sequenceNumber
    && match e.eventType
       case EpisodeInitialized => e.sequenceNumber == 0
           && (e.controlAction, e.terminalReason) == (Some(Initialize), None)
       case EpisodeReset => e.sequenceNumber != 0 && (e.controlAction, e.terminalReason) == (Some(Reset), None)
       case EpisodeRestarted => e.sequenceNumber != 0 && (e.controlAction, e.terminalReason) == (Some(Restart), None)
       case EpisodeRunning => (e.controlAction, e.terminalReason) == (None, None)
       case EpisodeCompleted => (e.controlAction, e.terminalReason) == (None, Some(Completed))
       case EpisodeTimedOut => (e.controlAction, e.terminalReason) == (None, Some(TimedOutReason))
       case EpisodeTruncated => (e.controlAction, e.terminalReason) == (None, Some(Truncated))
       case EpisodeInterrupted => (e.controlAction, e.terminalReason) == (None, Some(Interrupted))
  }

  /** An event stays in the episode of its predecessor, or opens a later one. */
  predicate Stepwise(events: seq<EpisodeEvent>) {
    forall i :: 0 < i < |events| ==>
      if events[i].sequenceNumber == events[i - 1].sequenceNumber then events[i].episodeId == events[i - 1].episodeId
      else && events[i].sequenceNumber > events[i - 1].sequenceNumber
           && events[i].eventType in {EpisodeReset, EpisodeRestarted}
  }

  lemma {:induction false} StepwisePairs(events: seq<EpisodeEvent>, i: nat, j: nat)
    requires Stepwise(events) && i <= j < |events|
    ensures events[i].sequenceNumber <= events[j].sequenceNumber
    ensures events[i].sequenceNumber == events[j].sequenceNumber ==> events[i].episodeId == events[j].episodeId
    decreases j
  {
    if i < j {
      StepwisePairs(events, i, j - 1);
    }
  }

  lemma OrderedIffStepwise(events: seq<EpisodeEvent>)
    ensures OrderedStream(events) <==> Stepwise(events)
  {
    if Stepwise(events) {
      forall i, j | 0 <= i < j < |events|
        ensures events[i].sequenceNumber <= events[j].sequenceNumber
        ensures events[i].sequenceNumber == events[j].sequenceNumber ==> events[i].episodeId == events[j].episodeId
      {
        StepwisePairs(events, i, j);
      }
    }
    if OrderedStream(events) {
      forall i | 0 < i < |events|
        ensures if events[i].sequenceNumber == events[i - 1].sequenceNumber
                then events[i].episodeId == events[i - 1].episodeId
                else && events[i].sequenceNumber > events[i - 1].sequenceNumber
                     && events[i].eventType in {EpisodeReset, EpisodeRestarted}
      {
        assert events[i - 1].sequenceNumber <= events[i].sequenceNumber;
      }
    }
  }

  /** The two maps of participants: every result and every event keeps the rules, and a result stands at the head. */
  predicate EpisodesKeep(results: map<string, EpisodeState>, history: map<string, seq<EpisodeEvent>>) {
    && (forall a :: a in results ==> EpisodeKeeps(a, results[a]))
    && (forall a :: a in history ==>
          && a != "" && Stepwise(history[a])
          && forall i :: 0 <= i < |history[a]| ==> EpisodeEventKeeps(a, history[a][i]))
    && (forall a :: a in results && a in history && history[a] != [] ==>
          var head := history[a][|history[a]| - 1];
          && head.episodeId == results[a].episodeId && head.sequenceNumber == results[a].sequenceNumber
          && head.terminalReason == results[a].terminalReason)
  }

  lemma EpisodeIff(address: string, st: EpisodeState)
    ensures ResultAccepted(address, st) <==> EpisodeKeeps(address, st)
  {
  }

  lemma EpisodeEventIff(address: string, e: EpisodeEvent)
    requires address != ""
    ensures e.Valid() && e.participant == address <==> EpisodeEventKeeps(address, e)
  {
  }

  lemma EpisodeHistoryIff(address: string, history: seq<EpisodeEvent>)
    ensures HistoryAccepted(address, history) <==>
      address != "" && Stepwise(history) && forall i :: 0 <= i < |history| ==> EpisodeEventKeeps(address, history[i])
  {
    hide EpisodeEvent.Valid, EpisodeEventKeeps, OrderedStream, Stepwise;
    OrderedIffStepwise(history);
    if address != "" {
      forall e: EpisodeEvent ensures e.Valid() && e.participant == address <==> EpisodeEventKeeps(address, e) {
        EpisodeEventIff(address, e);
      }
    }
    assert forall i :: 0 <= i < |history| ==> history[i] in history;
  }

  lemma HeadIff(address: string, st: EpisodeState, head: EpisodeEvent)
    requires EpisodeKeeps(address, st) && EpisodeEventKeeps(address, head)
    ensures MatchesHead(st, head) <==>
      && head.episodeId == st.episodeId && head.sequenceNumber == st.sequenceNumber
      && head.terminalReason == st.terminalReason
  {
  }

  /** The participant checker accepts exactly the maps that keep the rules. */
  lemma EpisodesAcceptedIff(results: map<string, EpisodeState>, history: map<string, seq<EpisodeEvent>>)
    ensures EpisodesAccepted(results, history) <==> EpisodesKeep(results, history)
  {
    hide ResultAccepted, EpisodeKeeps, HistoryAccepted, EpisodeEventKeeps, Stepwise, MatchesHead;
    forall a | a in results ensures ResultAccepted(a, results[a]) <==> EpisodeKeeps(a, results[a]) {
      EpisodeIff(a, results[a]);
    }
    forall a | a in history
      ensures HistoryAccepted(a, history[a]) <==>
        a != "" && Stepwise(history[a]) && forall i :: 0 <= i < |history[a]| ==> EpisodeEventKeeps(a, history[a][i])
    {
      EpisodeHistoryIff(a, history[a]);
    }
    forall a | a in results && a in history && history[a] != [] && EpisodeKeeps(a, results[a])
               && EpisodeEventKeeps(a, history[a][|history[a]| - 1])
      ensures MatchesHead(results[a], history[a][|history[a]| - 1]) <==>
        var head := history[a][|history[a]| - 1];
        && head.episodeId == results[a].episodeId && head.sequenceNumber == results[a].sequenceNumber
        && head.terminalReason == results[a].terminalReason
    {
      HeadIff(a, results[a], history[a][|history[a]| - 1]);
    }
  }

  // ------------------------------------------------------------- the boundary

  /** What the boundary lets through: an answer of the right shape whose snapshot keeps the rules of all three. */
  lemma PassesIff(outcome: BackendOutcome)
    ensures Passes(outcome) <==>
      && outcome.Applies?
      && var s := outcome.result.snapshot;
      && (forall a :: a in s.orchestrationResults ==> WorkflowKeeps(s, a))
      && (forall a :: a in s.entries && EvaluationEntryKeeps(s.entries[a]) ==> a in s.evaluationResults)
      && (forall a :: a in s.evaluationResults ==> EvaluationKeeps(s, a))
      && EpisodesKeep(s.participantResults, s.participantHistory)
  {
    hide WorkflowAccepted, WorkflowKeeps, EvaluationAccepted, EvaluationKeeps, EpisodesAccepted, EpisodesKeep;
    if outcome.Applies? {
      var s := outcome.result.snapshot;
      forall a ensures WorkflowAccepted(s, a) <==> WorkflowKeeps(s, a) {
        WorkflowAcceptedIff(s, a);
      }
      forall a ensures EvaluationAccepted(s, a) <==> EvaluationKeeps(s, a) {
        EvaluationAcceptedIff(s, a);
      }
      EpisodesAcceptedIff(s.participantResults, s.participantHistory);
    }
  }
}
