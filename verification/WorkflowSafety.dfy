/** What cancellation and timeout reconciliation keep, leave alone, and may break. */
module WorkflowSafety {
  import opened Wrappers
  import opened RuntimeModels
  import opened WorkflowContracts
  import opened EvaluationContracts
  import opened Compensation
  import opened BackendBoundary
  import opened WorkflowControl

  // ------------------------------------------------------- acceptance, exactly

  /** Every workflow that would time out now is safe to close now. */
  predicate SafeToReconcile(s: RuntimeSnapshot, now: Stamp) {
    forall a | a in DueSet(s, now) ::
      HasWorkflowContracts(s, a) && a in s.orchestrationResults && SafeToCloseAt(s, a, TimedOut, now)
  }

  lemma TimedOutConformsIff(s: RuntimeSnapshot, address: string, now: Stamp)
    requires Accepted(s) && now.text != "" && Due(s, address, now)
    ensures HasWorkflowContracts(s, address)
    ensures var run := TimedOutRun(s, address, now);
            RunConforms(s.entries[address].payload.result.value, ExecutionContractAt(s, address), run.0, run.1)
            <==> SafeToCloseAt(s, address, TimedOut, now)
  {
    assert WorkflowAccepted(s, address);
    ClosedConformsIff(s.entries[address].payload.result.value, ExecutionContractAt(s, address),
                      s.orchestrationResults[address], HistoryAt(s.orchestrationHistory, address),
                      TimedOut, TIMED_OUT_REASON, TimeoutRecord(TimeoutOf(s, address), now), now);
  }

  /** The snapshot that reconciliation writes passes the checkers exactly when every due workflow was safe to close. */
  lemma ReconcileAcceptedIff(s: RuntimeSnapshot, now: Stamp)
    requires Accepted(s) && now.text != ""
    ensures Accepted(Reconciled(s, now)) <==> SafeToReconcile(s, now)
  {
    hide RunConforms, TimedOutRun, SafeToClose, EvaluationsAccepted;
    var next := Reconciled(s, now);
    OtherDomainsUntouched(s, next);
    forall a | a in s.orchestrationResults
      ensures WorkflowAccepted(next, a) <==>
          (a in DueSet(s, now) ==> HasWorkflowContracts(s, a) && SafeToCloseAt(s, a, TimedOut, now))
    {
      ReconciledRunAcceptedIff(s, a, now);
    }
    assert forall a :: a in next.orchestrationResults <==> a in s.orchestrationResults;
  }

  lemma ReconciledRunAcceptedIff(s: RuntimeSnapshot, address: string, now: Stamp)
    requires Accepted(s) && now.text != "" && address in s.orchestrationResults
    ensures WorkflowAccepted(Reconciled(s, now), address) <==>
            (Due(s, address, now) ==> HasWorkflowContracts(s, address) && SafeToCloseAt(s, address, TimedOut, now))
  {
    hide RunConforms, TimedOutRun, SafeToClose, EvaluationsAccepted, WorkflowExecutionContract.Valid,
    WorkflowResultContract.Valid;
    assert WorkflowAccepted(s, address);
    if Due(s, address, now) {
      TimedOutConformsIff(s, address, now);
      assert address in DueSet(s, now);
    }
  }

  // -------------------------------------------- complete, framed, idempotent

  lemma TimedOutIsTerminal(s: RuntimeSnapshot, address: string, now: Stamp)
    requires Watched(s, address)
    ensures TimedOutRun(s, address, now).0.status.TimedOut?
  {
  }

  lemma {:induction false} NothingDue(s: RuntimeSnapshot, now: Stamp, order: seq<string>)
    requires forall a :: !Due(s, a, now)
    ensures DueInOrder(s, now, order) == []
  {
    if order != [] {
      NothingDue(s, now, order[..|order| - 1]);
    }
  }

  /**
    After reconciling at an instant no workflow is due at it; every workflow that was not due, and everything
    outside the orchestration results and histories, is as before; and reconciling again changes nothing.
   */
  lemma ReconcileIsCompleteFramedIdempotent(s: RuntimeSnapshot, now: Stamp)
    ensures var next := Reconciled(s, now);
            && (forall a | && a in next.entries && next.entries[a].domain.Orchestration?
                           && next.entries[a].resourceType.Workflow? && next.entries[a].payload.WorkflowPayload?
                           && next.entries[a].payload.execution.Some? && a in next.orchestrationResults
                           && next.orchestrationResults[a].status.Running? && now.instant.Some?
                           && next.orchestrationResults[a].startedAt.instant.Some? ::
                  var timeout := next.entries[a].payload.execution.value.timeoutSeconds;
                  || timeout.None? || timeout.value == 0
                  || now.instant.value < next.orchestrationResults[a].startedAt.instant.value
                                         + 1_000_000 * timeout.value)
            && (forall a :: a in s.orchestrationResults && !Due(s, a, now) ==>
                  && a in next.orchestrationResults && next.orchestrationResults[a] == s.orchestrationResults[a]
                  && HistoryAt(next.orchestrationHistory, a) == HistoryAt(s.orchestrationHistory, a))
            && next == s.(orchestrationResults := next.orchestrationResults,
                orchestrationHistory := next.orchestrationHistory)
            && next.orchestrationResults.Keys == s.orchestrationResults.Keys
            && next.orchestrationHistory.Keys == s.orchestrationHistory.Keys + DueSet(s, now)
            && Reconciled(next, now) == next
    ensures forall order :: Enumerates(order, s) ==> DueInOrder(Reconciled(s, now), now, order) == []
  {
    var next := Reconciled(s, now);
    forall a ensures !Due(next, a, now) {
      if Due(next, a, now) {
        assert Watched(s, a);
        if Due(s, a, now) {
          TimedOutIsTerminal(s, a, now);
        }
      }
    }
    assert DueSet(next, now) == {};
    assert Reconciled(next, now) == next;
    forall order | Enumerates(order, s) ensures DueInOrder(next, now, order) == [] {
      NothingDue(next, now, order);
    }
  }

  // --------------------------------------------------- terminal is absorbing

  predicate RunEvolves(
    st: WorkflowState, history: seq<WorkflowEvent>, st': WorkflowState, history': seq<WorkflowEvent>) {
    && (st.status.IsTerminal() ==> st' == st && history' == history)
    && st'.runId == st.runId && st'.startedAt == st.startedAt && st'.steps == st.steps
    && st'.schemaVersion == st.schemaVersion
    && history <= history'
  }

  predicate Evolves(s: RuntimeSnapshot, t: RuntimeSnapshot) {
    && t == s.(orchestrationResults := t.orchestrationResults, orchestrationHistory := t.orchestrationHistory)
    && t.orchestrationResults.Keys == s.orchestrationResults.Keys
    && (forall a :: a in s.orchestrationResults ==>
          RunEvolves(s.orchestrationResults[a], HistoryAt(s.orchestrationHistory, a),
                     t.orchestrationResults[a], HistoryAt(t.orchestrationHistory, a)))
  }

  lemma EvolvesTransitive(s: RuntimeSnapshot, t: RuntimeSnapshot, u: RuntimeSnapshot)
    requires Evolves(s, t) && Evolves(t, u)
    ensures Evolves(s, u)
  {
  }

  lemma ClosedEvolves(
    contract: Option<WorkflowExecutionContract>, st: WorkflowState, history: seq<WorkflowEvent>,
    status: WorkflowStatus, reason: string, record: WorkflowEvent, at: Stamp)
    requires !st.status.IsTerminal()
    ensures var (ended, events) := Closed(contract, st, history, status, reason, record, at);
            && RunEvolves(st, history, ended, events)
            && ended.status == status && ended.terminalReason == Some(reason) && ended.updatedAt == at
            && |events| > |history| && events[|history|] == record
            && (ended.compensation.CompensationSucceeded? <==> Fires(contract, status, history + [record]))
            && (ended.compensation.NotRequired? <==> |events| == |history| + 1)
  {
  }

  /** One request to the control plane that touches workflows. */
  datatype ControlStep =
    | CancelStep(address: string, runId: string, reason: string, at: Stamp)
    | ReconcileStep(now: Stamp)

  function Advance(s: RuntimeSnapshot, step: ControlStep): RuntimeSnapshot {
    match step
    case CancelStep(address, runId, reason, at) =>
      var verdict := Cancellation(s, address, runId, reason, at);
      if verdict.Cancels? then verdict.next else s
    case ReconcileStep(now) =>
      if AllReadable(s) then Reconciled(s, now) else s
  }

  function AdvanceAll(s: RuntimeSnapshot, steps: seq<ControlStep>): RuntimeSnapshot
    decreases |steps|
  {
    if steps == [] then s else AdvanceAll(Advance(s, steps[0]), steps[1..])
  }

  lemma AdvanceEvolves(s: RuntimeSnapshot, step: ControlStep)
    ensures Evolves(s, Advance(s, step))
  {
    match step
    case CancelStep(address, runId, reason, at) => CancelEvolves(s, address, runId, reason, at);
    case ReconcileStep(now) => ReconcileEvolves(s, now);
  }

  lemma CancelEvolves(s: RuntimeSnapshot, address: string, runId: string, reason: string, at: Stamp)
    ensures var verdict := Cancellation(s, address, runId, reason, at);
            Evolves(s, if verdict.Cancels? then verdict.next else s)
  {
  }

  lemma ReconcileEvolves(s: RuntimeSnapshot, now: Stamp)
    ensures Evolves(s, Reconciled(s, now))
  {
    hide Closed, CompiledContract;
    forall a | a in DueSet(s, now)
      ensures var run := TimedOutRun(s, a, now);
              RunEvolves(s.orchestrationResults[a], HistoryAt(s.orchestrationHistory, a), run.0, run.1)
    {
      ClosedEvolves(CompiledContract(s, a), s.orchestrationResults[a], HistoryAt(s.orchestrationHistory, a),
                    TimedOut, TIMED_OUT_REASON, TimeoutRecord(TimeoutOf(s, a), now), now);
    }
  }

  /**
    Over any sequence of cancellations and reconciliations a terminal result and its history never change again,
    run id, start time and steps are never altered, and histories only grow.
   */
  lemma {:induction false} TerminalIsAbsorbing(s: RuntimeSnapshot, steps: seq<ControlStep>)
    ensures Evolves(s, AdvanceAll(s, steps))
    decreases |steps|
  {
    if steps != [] {
      AdvanceEvolves(s, steps[0]);
      TerminalIsAbsorbing(Advance(s, steps[0]), steps[1..]);
      EvolvesTransitive(s, Advance(s, steps[0]), AdvanceAll(s, steps));
    }
  }

  // -------------------------------------------------- what keeps runs closable

  /** The clock has not run behind a recorded event. */
  predicate RecordedBy(history: seq<WorkflowEvent>, clock: int) {
    forall e :: e in history ==> e.timestamp.instant.Some? && e.timestamp.instant.value <= clock
  }

  /**
    The history backs the state: it has begun, and if some succeeded step is compensable, the history shows a
    successful completion of a compensable step.
   */
  predicate WellLogged(xc: WorkflowExecutionContract, st: WorkflowState, history: seq<WorkflowEvent>, clock: int) {
    && history != [] && RecordedBy(history, clock)
    && ((exists step :: step in xc.compensationTargets && OwesCompensation(xc, st, step)) ==>
          Compensable(history, xc.compensationTargets) != [])
  }

  /** Every unfinished workflow with a readable contract is well logged. */
  predicate AllWellLogged(s: RuntimeSnapshot, clock: int) {
    forall a ::
      a in s.orchestrationResults && !s.orchestrationResults[a].status.IsTerminal() && HasWorkflowContracts(s, a) ==>
        WellLogged(ExecutionContractAt(s, a), s.orchestrationResults[a], HistoryAt(s.orchestrationHistory, a), clock)
  }

  /** A due workflow that is well logged can be timed out safely. */
  lemma DueIsSafe(s: RuntimeSnapshot, address: string, now: Stamp, clock: int)
    requires Accepted(s) && AllWellLogged(s, clock) && Due(s, address, now) && clock <= now.instant.value
    ensures HasWorkflowContracts(s, address) && SafeToCloseAt(s, address, TimedOut, now)
  {
  }

  lemma WellLoggedIsSafe(
    xc: WorkflowExecutionContract, st: WorkflowState, history: seq<WorkflowEvent>, status: WorkflowStatus, at: Stamp)
    requires at.instant.Some? && WellLogged(xc, st, history, at.instant.value)
    ensures SafeToClose(xc, st, history, status, at)
  {
  }

  /** A later clock keeps every history recorded, so well-loggedness survives waiting. */
  lemma WellLoggedLater(s: RuntimeSnapshot, clock: int, later: int)
    requires AllWellLogged(s, clock) && clock <= later
    ensures AllWellLogged(s, later)
  {
  }

  lemma ClosedIsTerminal(s: RuntimeSnapshot, t: RuntimeSnapshot, clock: int)
    requires AllWellLogged(s, clock) && t.entries == s.entries
    requires forall a :: a in t.orchestrationResults && !t.orchestrationResults[a].status.IsTerminal() ==>
      && a in s.orchestrationResults && t.orchestrationResults[a] == s.orchestrationResults[a]
      && HistoryAt(t.orchestrationHistory, a) == HistoryAt(s.orchestrationHistory, a)
    ensures AllWellLogged(t, clock)
  {
  }

  /** On accepted, well-logged snapshots a cancellation writes an accepted, well-logged snapshot. */
  lemma CancelStaysAccepted(s: RuntimeSnapshot, address: string, runId: string, reason: string, at: Stamp)
    requires at.IsClock() && Accepted(s) && AllWellLogged(s, at.instant.value)
    requires Cancellation(s, address, runId, reason, at).Cancels?
    ensures var next := Cancellation(s, address, runId, reason, at).next;
            Accepted(next) && AllWellLogged(next, at.instant.value)
  {
    hide EvaluationsAccepted, Closed, RunConforms, SafeToClose, WellLogged, Compensate;
    assert WorkflowAccepted(s, address);
    WellLoggedIsSafe(ExecutionContractAt(s, address), s.orchestrationResults[address],
                     HistoryAt(s.orchestrationHistory, address), Cancelled, at);
    CancelAcceptedIff(s, address, runId, reason, at);
    ClosedEvolves(CompiledContract(s, address), s.orchestrationResults[address],
        HistoryAt(s.orchestrationHistory, address),
                  Cancelled, reason, CancelRecord(reason, at), at);
    ClosedIsTerminal(s, Cancellation(s, address, runId, reason, at).next, at.instant.value);
  }

  /** On accepted, well-logged snapshots reconciliation writes an accepted, well-logged snapshot. */
  lemma ReconcileStaysAccepted(s: RuntimeSnapshot, now: Stamp, clock: int)
    requires Accepted(s) && AllWellLogged(s, clock)
    requires now.text != "" && (now.instant.Some? ==> clock <= now.instant.value)
    ensures Accepted(Reconciled(s, now)) && AllWellLogged(Reconciled(s, now), clock)
  {
    hide Closed, RunConforms, SafeToClose, WellLogged, Compensate;
    forall a | a in DueSet(s, now) ensures HasWorkflowContracts(s, a) && SafeToCloseAt(s, a, TimedOut, now) {
      DueIsSafe(s, a, now, clock);
    }
    ReconcileAcceptedIff(s, now);
    forall a | a in DueSet(s, now) ensures TimedOutRun(s, a, now).0.status.TimedOut? {
      TimedOutIsTerminal(s, a, now);
    }
    ClosedIsTerminal(s, Reconciled(s, now), clock);
  }

  // ------------------------------------------------ where the guard is missing

  const BARE_RESULT_CONTRACT := WorkflowResultContract("v1", map[])

  const BARE_EXECUTION_CONTRACT :=
      WorkflowExecutionContract("v1", "", Some(5), map[], map[], map[], map[], Disabled, [], map[])

  /** A backend may report a running workflow without any history: the checkers have nothing to object to. */
  function BareRun(started: Stamp): RuntimeSnapshot {
    EMPTY_SNAPSHOT.(
      entries := map["w" := SnapshotEntry(
        "w", Orchestration, ResourceType.Workflow,
        WorkflowPayload(Some(BARE_RESULT_CONTRACT), Some(BARE_EXECUTION_CONTRACT)), [], [], "r")],
      orchestrationResults := map["w" :=
          WorkflowState("v1", Running, "r", started, started, None, NotRequired, None, None, [], map[])])
  }

  lemma BareRunAccepted(started: Stamp)
    requires started.text != ""
    ensures Accepted(BareRun(started))
  {
  }

  /**
    From an accepted snapshot, cancelling such a run writes a snapshot that the checkers reject; so does timing it
    out.
   */
  lemma BareRunBreaks(started: Stamp, reason: string, at: Stamp)
    requires started.IsClock() && at.IsClock() && started.instant.value + 5_000_000 <= at.instant.value
    ensures var s := BareRun(started);
            && Accepted(s)
            && Cancellation(s, "w", "", reason, at).Cancels? && !Accepted(Cancellation(s, "w", "", reason, at).next)
            && !Accepted(Reconciled(s, at))
  {
    var s := BareRun(started);
    BareRunAccepted(started);
    CancelAcceptedIff(s, "w", "", reason, at);
    ReconcileAcceptedIff(s, at);
    assert Due(s, "w", at) && "w" in DueSet(s, at);
  }

  /** Nothing else at the address changes: the entry, the result and the history. */
  predicate LeavesRun(s: RuntimeSnapshot, t: RuntimeSnapshot, address: string) {
    && address in t.orchestrationResults && address in s.orchestrationResults
    && address in t.entries && address in s.entries
    && t.entries[address] == s.entries[address]
    && t.orchestrationResults[address] == s.orchestrationResults[address]
    && HistoryAt(t.orchestrationHistory, address) == HistoryAt(s.orchestrationHistory, address)
  }

  /** Once a run is written that the checkers reject, every backend result that leaves it alone is refused. */
  lemma RejectedRunWedges(s: RuntimeSnapshot, address: string, outcome: BackendOutcome)
    requires address in s.orchestrationResults && !WorkflowAccepted(s, address)
    requires outcome.Applies? && LeavesRun(s, outcome.result.snapshot, address)
    ensures !Passes(outcome)
  {
  }
}
