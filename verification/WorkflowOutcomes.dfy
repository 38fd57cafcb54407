/** What cancellation and timeout reconciliation do, read off the entries, results and histories themselves. */
module WorkflowOutcomes {
  import opened Wrappers
  import opened RuntimeModels
  import opened Compensation
  import opened WorkflowControl

  // ------------------------------------------------------- closing a workflow

  lemma RecordIsNoCompletion(
    history: seq<WorkflowEvent>, record: WorkflowEvent, ordered: seq<WorkflowEvent>, targets: map<string, string>)
    requires !record.eventType.StepCompletedEvent? && Schedule(ordered, history + [record], targets)
    ensures Schedule(ordered, history, targets)
  {
    assert (history + [record])[..|history|] == history;
    forall e: WorkflowEvent | e.eventType.StepCompletedEvent?
        ensures multiset(history + [record])[e] == multiset(history)[e] {
    }
  }

  /** The contract that the control plane goes by: the compiled one, if the entry has one that is well formed. */
  function ContractAt(s: RuntimeSnapshot, address: string): Option<WorkflowExecutionContract> {
    if address in s.entries && s.entries[address].payload.WorkflowPayload?
       && s.entries[address].payload.execution.Some? && s.entries[address].payload.execution.value.Valid()
    then s.entries[address].payload.execution
    else None
  }

  /** Whether the contract asks for compensation and a compensable step is on record as succeeded. */
  predicate AsksToCompensate(
    contract: Option<WorkflowExecutionContract>, history: seq<WorkflowEvent>, status: WorkflowStatus) {
    && contract.Some? && contract.value.compensationMode.Automatic? && status in contract.value.compensationTriggers
    && exists e :: e in history && e.eventType.StepCompletedEvent? && e.outcome == Some(StepSucceeded)
                   && e.stepName.Some? && e.stepName.value in contract.value.compensationTargets
  }

  /** The events after closing: the record, and behind it the block for the completed compensable steps. */
  ghost predicate EndsWith(
    contract: Option<WorkflowExecutionContract>, history: seq<WorkflowEvent>, status: WorkflowStatus,
    record: WorkflowEvent, at: Stamp, events: seq<WorkflowEvent>)
  {
    if AsksToCompensate(contract, history, status) then
      exists ordered ::
        && ordered != [] && Schedule(ordered, history, contract.value.compensationTargets)
        && RecordsBlock(events, history + [record], status, ordered, contract.value.compensationTargets, at)
    else events == history + [record]
  }

  /**
    The run at the address has ended between the two snapshots: what its result and history say now, given what they
    said before.
   */
  ghost predicate Ended(
    s: RuntimeSnapshot, t: RuntimeSnapshot, address: string, status: WorkflowStatus, reason: string,
    recordType: WorkflowEventType, details: EventDetails, at: Stamp)
  {
    && address in s.orchestrationResults && address in t.orchestrationResults && address in t.orchestrationHistory
    && var st, history := s.orchestrationResults[address], HistoryAt(s.orchestrationHistory, address);
    && var ended, compensates :=
         t.orchestrationResults[address], AsksToCompensate(ContractAt(s, address), history, status);
    && ended.status == status && ended.terminalReason == Some(reason) && ended.updatedAt == at
    && ended.runId == st.runId && ended.startedAt == st.startedAt && ended.steps == st.steps
    && ended.schemaVersion == st.schemaVersion && ended.compensationFailures == []
    && ended.compensation == (if compensates then CompensationSucceeded else NotRequired)
    && ended.compensationStartedAt == (if compensates then Some(at) else None)
    && ended.compensationUpdatedAt == (if compensates then Some(at) else None)
    && EndsWith(ContractAt(s, address), history, status, WorkflowEvent(recordType, at, None, None, None, details), at,
                t.orchestrationHistory[address])
  }

  /**
    What a workflow ends with: the new status, reason and time, its record right behind the old history, and a block
    of compensations behind that if the contract asks for it and a compensable step is on record as succeeded.
   */
  lemma ClosedWrites(
    contract: Option<WorkflowExecutionContract>, st: WorkflowState, history: seq<WorkflowEvent>,
    status: WorkflowStatus, reason: string, record: WorkflowEvent, at: Stamp)
    requires !record.eventType.StepCompletedEvent?
    ensures var (ended, events) := Closed(contract, st, history, status, reason, record, at);
      var compensates := AsksToCompensate(contract, history, status);
      && ended == st.(status := status, terminalReason := Some(reason), updatedAt := at,
                      compensation := if compensates then CompensationSucceeded else NotRequired,
                      compensationStartedAt := if compensates then Some(at) else None,
                      compensationUpdatedAt := if compensates then Some(at) else None,
                      compensationFailures := [])
      && EndsWith(contract, history, status, record, at, events)
  {
    hide Schedule, RecordsBlock, Compensate;
    var ended := EndedState(st, status, reason, at);
    var compensates, ordered := CompensationSchedule(contract, ended, history + [record], at);
    assert forall e :: e in history + [record] && e.eventType.StepCompletedEvent? <==>
        e in history && e.eventType.StepCompletedEvent?;
    if compensates {
      RecordIsNoCompletion(history, record, ordered, contract.value.compensationTargets);
    }
  }

  lemma ClosedMeansEnded(
    s: RuntimeSnapshot, t: RuntimeSnapshot, address: string, status: WorkflowStatus, reason: string,
    record: WorkflowEvent, at: Stamp)
    requires address in s.orchestrationResults && address in t.orchestrationResults && address in t.orchestrationHistory
    requires record == WorkflowEvent(record.eventType, at, None, None, None, record.details)
        && !record.eventType.StepCompletedEvent?
    requires (t.orchestrationResults[address], t.orchestrationHistory[address])
             == Closed(CompiledContract(s, address), s.orchestrationResults[address],
                       HistoryAt(s.orchestrationHistory, address), status, reason, record, at)
    ensures Ended(s, t, address, status, reason, record.eventType, record.details, at)
  {
    hide Closed;
    ClosedWrites(CompiledContract(s, address), s.orchestrationResults[address],
        HistoryAt(s.orchestrationHistory, address), status, reason, record, at);
  }

  // ------------------------------------------------------------- cancellation

  /**
    A cancellation is carried out exactly when the run is known, readable, the one that is meant, and unfinished. It
    ends that run and leaves everything else alone.
   */
  lemma CancellationWrites(s: RuntimeSnapshot, address: string, runId: string, reason: string, at: Stamp)
    ensures Cancellation(s, address, runId, reason, at).Cancels? <==>
      && address in s.orchestrationResults && s.orchestrationResults[address].Valid()
      && (runId == "" || runId == s.orchestrationResults[address].runId)
      && !(s.orchestrationResults[address].status in {Succeeded, Failed, Cancelled, TimedOut})
    ensures Cancellation(s, address, runId, reason, at).Cancels? ==>
      var t := Cancellation(s, address, runId, reason, at).next;
      && Ended(s, t, address, Cancelled, reason, WorkflowCancelled, EventDetails("", None, None, Some(reason), None),
          at)
      && t == s.(orchestrationResults := s.orchestrationResults[address := t.orchestrationResults[address]],
                 orchestrationHistory := s.orchestrationHistory[address := t.orchestrationHistory[address]])
  {
    hide Closed, Ended, CompiledContract, WorkflowState.Valid;
    if Cancellation(s, address, runId, reason, at).Cancels? {
      ClosedMeansEnded(s, Cancellation(s, address, runId, reason, at).next, address, Cancelled, reason,
          CancelRecord(reason, at), at);
    }
  }

  // ----------------------------------------------------------------- timeouts

  /** The one comes before the other. */
  predicate Precedes(order: seq<string>, a: string, b: string) {
    exists i, j :: 0 <= i < j < |order| && order[i] == a && order[j] == b
  }

  predicate KeepsOrder(order: seq<string>, some: seq<string>) {
    forall i, j :: 0 <= i < j < |some| ==> Precedes(order, some[i], some[j])
  }

  lemma {:induction false} DueKeepOrder(s: RuntimeSnapshot, now: Stamp, order: seq<string>)
    ensures KeepsOrder(order, DueInOrder(s, now, order))
  {
    hide Due;
    if order != [] {
      var front, last := order[..|order| - 1], order[|order| - 1];
      var earlier, due := DueInOrder(s, now, front), DueInOrder(s, now, order);
      DueKeepOrder(s, now, front);
      assert forall i :: 0 <= i < |front| ==> front[i] == order[i];
      forall i, j | 0 <= i < j < |due| ensures Precedes(order, due[i], due[j]) {
        if j < |earlier| {
          assert Precedes(front, earlier[i], earlier[j]);
        } else {
          assert earlier[i] in front;
        }
      }
    }
  }

  /**
    Reconciliation turns a result from running to timed out, and reports its address, exactly when the entry is an
    orchestration workflow whose execution contract sets a timeout, start and present time can be read, and the
    present is not before the start plus the timeout. Everything else is left alone.
   */
  lemma ReconciliationTurnsIff(s: RuntimeSnapshot, now: Stamp, order: seq<string>, a: string)
    requires NoDuplicates(order) && forall x :: x in order <==> x in s.entries
    ensures var t, changed := Reconciled(s, now), DueInOrder(s, now, order);
      var turns :=
        && a in s.entries && s.entries[a].domain.Orchestration? && s.entries[a].resourceType.Workflow?
        && s.entries[a].payload.WorkflowPayload? && s.entries[a].payload.execution.Some?
        && s.entries[a].payload.execution.value.timeoutSeconds.Some?
        && s.entries[a].payload.execution.value.timeoutSeconds.value != 0
        && a in s.orchestrationResults && s.orchestrationResults[a].status.Running?
        && s.orchestrationResults[a].startedAt.instant.Some? && now.instant.Some?
        && s.orchestrationResults[a].startedAt.instant.value
             + 1_000_000 * s.entries[a].payload.execution.value.timeoutSeconds.value <= now.instant.value;
      && (a in changed <==> turns)
      && (turns <==> && a in s.orchestrationResults && s.orchestrationResults[a].status.Running?
                     && a in t.orchestrationResults && t.orchestrationResults[a].status.TimedOut?)
      && (turns ==> Ended(s, t, a, TimedOut, "workflow timed out", WorkflowTimedOut,
            EventDetails("", None, None, None, s.entries[a].payload.execution.value.timeoutSeconds), now))
      && (!turns ==>
            && (a in t.orchestrationResults <==> a in s.orchestrationResults)
            && (a in s.orchestrationResults ==> t.orchestrationResults[a] == s.orchestrationResults[a])
            && (a in t.orchestrationHistory <==> a in s.orchestrationHistory)
            && (a in s.orchestrationHistory ==> t.orchestrationHistory[a] == s.orchestrationHistory[a]))
      && t == s.(orchestrationResults := t.orchestrationResults, orchestrationHistory := t.orchestrationHistory)
      && KeepsOrder(order, changed)
  {
    hide Closed, Ended, CompiledContract, KeepsOrder;
    DueKeepOrder(s, now, order);
    var t := Reconciled(s, now);
    if Due(s, a, now) {
      assert a in DueSet(s, now);
      ClosedMeansEnded(s, t, a, TimedOut, TIMED_OUT_REASON, TimeoutRecord(TimeoutOf(s, a), now), now);
      EndedStatus(s, t, a, TimedOut, TIMED_OUT_REASON, WorkflowTimedOut, TimeoutRecord(TimeoutOf(s, a), now).details,
          now);
    }
  }

  lemma EndedStatus(
    s: RuntimeSnapshot, t: RuntimeSnapshot, address: string, status: WorkflowStatus, reason: string,
    recordType: WorkflowEventType, details: EventDetails, at: Stamp)
    requires Ended(s, t, address, status, reason, recordType, details, at)
    ensures address in t.orchestrationResults && t.orchestrationResults[address].status == status
  {
  }

  /** Reconciliation raises exactly when a workflow with a timeout and a result has a result that cannot be read. */
  lemma ReconciliationRaisesIff(s: RuntimeSnapshot)
    ensures !AllReadable(s) <==> exists a ::
      && a in s.entries && s.entries[a].domain.Orchestration? && s.entries[a].resourceType.Workflow?
      && s.entries[a].payload.WorkflowPayload? && s.entries[a].payload.execution.Some?
      && s.entries[a].payload.execution.value.timeoutSeconds.Some?
      && s.entries[a].payload.execution.value.timeoutSeconds.value != 0
      && a in s.orchestrationResults && !s.orchestrationResults[a].Valid()
  {
    hide WorkflowState.Valid;
  }
}
