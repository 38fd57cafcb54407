/** Contract safety of the control plane: one step exactly, and whole runs. */
module ControlPlaneRuns {
  import opened Wrappers
  import opened RuntimeModels
  import opened WorkflowContracts
  import opened BackendBoundary
  import opened WorkflowControl
  import opened WorkflowSafety
  import opened WorkflowOutcomes
  import opened StorePayloads
  import opened ControlPlane

  // -------------------------------------------------------------- one step, exactly

  /** The plane acts on a request: the target serves it and its key is new. */
  ghost predicate Acts(target: Target, p: PlaneState, request: Request) {
    !Unserved(target, request.action) && RulingOn(p.store, request.key, request.fingerprint).Proceeds?
  }

  /** The latest timestamp that a request leaves in histories: backends go on stamping until their call returns. */
  function Moment(request: Request): Stamp {
    if request.action.Reconcile? then ReconcilesAt(request)
    else if CallsBackend(request.action) then request.later
    else request.at
  }

  /** What the caller and the backend must bring for the snapshot to stay accepted. */
  predicate SafeAction(s: RuntimeSnapshot, base: RuntimeSnapshot, request: Request) {
    var action := request.action;
    match action
    case Cancel(address, runId, reason) =>
      Cancellation(s, address, runId, reason, request.at).Cancels? ==>
        HasWorkflowContracts(s, address) && SafeToCloseAt(s, address, Cancelled, request.at)
    case Reconcile(_, _) => AllReadable(s) ==> SafeToReconcile(s, ReconcilesAt(request))
    case _ => Passes(action.outcome) || Accepted(base)
  }

  /**
    A step from an accepted snapshot leads to an accepted one exactly when it does not act, or its backend result
    passes the boundary or falls back on an accepted base, or whatever it closes was safe to close.
   */
  lemma StepAcceptedIff(target: Target, p: PlaneState, request: Request, findings: seq<Diagnostic>)
    requires Accepted(p.snapshot) && request.at.IsClock()
    ensures Accepted(Step(target, p, request, findings).1.snapshot)
            <==> (Acts(target, p, request) ==> SafeAction(p.snapshot, BaseOf(p, request.action), request))
  {
    hide Accepted, RulingOn, Cancellation, Reconciled, AllReadable, SafeToReconcile, SafeToCloseAt;
    if Acts(target, p, request) {
      match request.action
      case Cancel(address, runId, reason) =>
        if Cancellation(p.snapshot, address, runId, reason, request.at).Cancels? {
          CancelledHasContracts(p.snapshot, address, runId, reason, request.at);
          CancelAcceptedIff(p.snapshot, address, runId, reason, request.at);
        }
      case Reconcile(_, _) =>
        ReconcileAcceptedIff(p.snapshot, ReconcilesAt(request));
      case _ =>
        ScreenedAcceptedIff(request.action.outcome, BaseOf(p, request.action), findings);
    }
  }

  lemma CancelledHasContracts(s: RuntimeSnapshot, address: string, runId: string, reason: string, at: Stamp)
    requires Accepted(s) && Cancellation(s, address, runId, reason, at).Cancels?
    ensures HasWorkflowContracts(s, address) && address in s.orchestrationResults
  {
  }

  /**
    What the log says of a request that the plane acts on. A backend's operation is recorded as succeeded exactly
    when the result passed and claims success, the snapshot is the reported one or the base, and validation
    findings are carried along without a say.
   */
  lemma OperationsTellOutcomes(target: Target, p: PlaneState, request: Request, findings: seq<Diagnostic>)
    requires Acts(target, p, request) && CallsBackend(request.action)
    ensures var (reply, q) := Step(target, p, request, findings);
            var passes, outcome := Passes(request.action.outcome), request.action.outcome;
            && request.operationId in q.operations && reply == Returned(q.operations[request.operationId].receipt)
            && var record := q.operations[request.operationId];
            && var validation := if request.action.Provision? then request.action.validation else [];
            && record.receipt.accepted && record.receipt.diagnostics == validation
            && record.receipt.operationId == record.status.operationId == request.operationId
            && record.receipt.domain == record.status.domain
            && (record.receipt.domain.Provisioning? <==> request.action.Provision?)
            && (record.receipt.domain.Orchestration? <==> request.action.Orchestrate?)
            && (record.receipt.domain.Evaluation? <==> request.action.Evaluate?)
            && (record.receipt.domain.Participant? <==> request.action.Participate?)
            && record.idempotencyKey == request.key && record.requestFingerprint == request.fingerprint
            && record.receipt.submittedAt == record.status.submittedAt == request.at.text
            && record.status.updatedAt == request.later.text
            && (record.status.state.OpSucceeded? <==> passes && outcome.result.success)
            && (record.status.state.OpFailed? <==> !(passes && outcome.result.success))
            && (passes ==>
                  && q.snapshot == outcome.result.snapshot
                  && record.status.changedAddresses == outcome.result.changedAddresses
                  && record.status.diagnostics == validation + outcome.result.diagnostics)
            && (!passes ==>
                  && q.snapshot == (if !request.action.Participate? && request.action.base.Some?
                                    then request.action.base.value else p.snapshot)
                  && record.status.changedAddresses == []
                  && record.status.diagnostics == validation + findings)
            && q.operations == p.operations[request.operationId := record]
  {
    hide RulingOn, Accepted;
  }

  /** The log has gained the one record, and the reply is its receipt. */
  predicate RecordsReply(
    p: PlaneState, q: PlaneState, request: Request, reply: Outcome<OperationReceipt>, key: string, fingerprint: string)
  {
    && request.operationId in q.operations
    && var record := q.operations[request.operationId];
    && q.operations == p.operations[request.operationId := record]
    && reply == Returned(record.receipt) && record.idempotencyKey == key && record.requestFingerprint == fingerprint
    && record.receipt.operationId == record.status.operationId == request.operationId
    && record.receipt.domain == record.status.domain
    && record.receipt.submittedAt == record.status.submittedAt == record.status.updatedAt
    && record.receipt.diagnostics == record.status.diagnostics
    && (record.receipt.accepted <==> record.status.state.OpSucceeded?)
    && (!record.receipt.accepted <==> record.status.state.OpFailed?)
  }

  /**
    A submission that the target cannot serve is refused: a failed operation with one error and no changed address, on
    record under the request's key for a participant action, and under no key for the others.
   */
  lemma RefusalsTellOutcomes(target: Target, p: PlaneState, request: Request, findings: seq<Diagnostic>)
    requires || (request.action.Orchestrate? && !target.hasOrchestrator)
             || (request.action.Evaluate? && !target.hasEvaluator)
             || (request.action.Participate? && !target.hasParticipantRuntime)
    ensures var (reply, q) := Step(target, p, request, findings);
            var kept := request.action.Participate?;
            && q.snapshot == p.snapshot
            && RecordsReply(p, q, request, reply, if kept then request.key else "",
                            if kept then request.fingerprint else "")
            && RefusedWith(q.operations[request.operationId], request.at)
            && q.operations[request.operationId].receipt.domain ==
                 (if request.action.Orchestrate? then Orchestration
                  else if request.action.Evaluate? then Evaluation else Participant)
  {
    hide RejectedAt;
  }

  /** Not accepted, with one error and no changed address. */
  predicate RefusedWith(record: OperationRecord, at: Stamp) {
    && !record.receipt.accepted && record.receipt.submittedAt == at.text
    && |record.receipt.diagnostics| == 1 && record.receipt.diagnostics[0].severity.Error?
    && record.receipt.diagnostics[0].code.ControlPlaneRejected?
    && record.status.changedAddresses == []
  }

  /**
    A cancellation that the plane acts on raises on an unreadable run, is refused for an unknown run or another run
    id, succeeds without effect on an ended run, and otherwise ends the run and reports its address.
   */
  lemma CancellationsTellOutcomes(target: Target, p: PlaneState, request: Request, findings: seq<Diagnostic>)
    requires Acts(target, p, request) && request.action.Cancel?
    ensures var (reply, q) := Step(target, p, request, findings);
            var a, results := request.action.address, p.snapshot.orchestrationResults;
            var fits := a in results && (request.action.runId == "" || results[a].runId == request.action.runId);
            var ended := a in results && results[a].status in {Succeeded, Failed, Cancelled, TimedOut};
            && (reply.Raised? <==> a in results && !results[a].Valid())
            && (reply.Raised? ==> q == p)
            && (reply.Returned? ==>
                  && RecordsReply(p, q, request, reply, request.key, request.fingerprint)
                  && q.operations[request.operationId].receipt.domain.Orchestration?
                  && q.operations[request.operationId].receipt.submittedAt == request.at.text)
            && (reply.Returned? && !fits ==> RefusedWith(q.operations[request.operationId], request.at))
            && (reply.Returned? && fits ==>
                  && reply.value.accepted && reply.value.diagnostics == []
                  && q.operations[request.operationId].status.changedAddresses == if ended then [] else [a])
            && (reply.Returned? && fits && !ended ==>
                  && Ended(p.snapshot, q.snapshot, a, Cancelled, request.action.reason, WorkflowCancelled,
                           EventDetails("", None, None, Some(request.action.reason), None), request.at)
                  && q.snapshot == p.snapshot.(
                       orchestrationResults := results[a := q.snapshot.orchestrationResults[a]],
                       orchestrationHistory :=
                         p.snapshot.orchestrationHistory[a := q.snapshot.orchestrationHistory[a]]))
            && (!fits || ended ==> q.snapshot == p.snapshot)
  {
    hide RulingOn, Closed, RejectedAt, WorkflowState.Valid, CompiledContract, Ended, WithRun, CancelledRun;
    var action := request.action;
    CancellationWrites(p.snapshot, action.address, action.runId, action.reason, request.at);
  }

  /**
    A reconciliation that the plane acts on raises exactly when a watched result cannot be read, and then nothing
    changes. Otherwise it succeeds, with the addresses of the workflows that ran past their deadline at the time given
    or, without one, at its own time.
   */
  lemma ReconciliationsTellOutcomes(
    target: Target, p: PlaneState, request: Request, findings: seq<Diagnostic>, a: string)
    requires Acts(target, p, request) && request.action.Reconcile?
    requires NoDuplicates(request.action.order) && forall x :: x in request.action.order <==> x in p.snapshot.entries
    ensures var (reply, q) := Step(target, p, request, findings);
            var given := request.action.now;
            var now := if given.Some? && given.value.text != "" then given.value else request.at;
            && (reply.Raised? <==> !AllReadable(p.snapshot))
            && (reply.Raised? ==> q == p)
            && (reply.Returned? ==>
                  && q.snapshot == Reconciled(p.snapshot, now)
                  && RecordsReply(p, q, request, reply, request.key, request.fingerprint)
                  && reply.value.accepted && reply.value.diagnostics == [] && reply.value.domain.Orchestration?
                  && reply.value.submittedAt == now.text
                  && q.operations[request.operationId].status.changedAddresses
                       == DueInOrder(p.snapshot, now, request.action.order)
                  && var changed := q.operations[request.operationId].status.changedAddresses;
                  && KeepsOrder(request.action.order, changed)
                  && (a in changed <==>
                        && a in p.snapshot.orchestrationResults && a in q.snapshot.orchestrationResults
                        && p.snapshot.orchestrationResults[a].status.Running?
                        && q.snapshot.orchestrationResults[a].status.TimedOut?))
  {
    hide RulingOn, Reconciled, AllReadable, DueInOrder, KeepsOrder;
    ReconciliationTurnsIff(p.snapshot, ReconcilesAt(request), request.action.order, a);
  }

  // --------------------------------------------------------------------- runs

  /** One request with the findings that the boundary reports if it refuses the backend's result. */
  datatype Turn = Turn(request: Request, findings: seq<Diagnostic>)

  ghost function Run(target: Target, p: PlaneState, turns: seq<Turn>): PlaneState {
    if turns == [] then p
    else
      var last := turns[|turns| - 1];
      Step(target, Run(target, p, turns[..|turns| - 1]), last.request, last.findings).1
  }

  /** The latest instant that the requests have written, or the given one. */
  function ClockAfter(turns: seq<Turn>, start: int): int {
    if turns == [] then start
    else
      var moment := Moment(turns[|turns| - 1].request);
      if moment.instant.Some? then moment.instant.value else ClockAfter(turns[..|turns| - 1], start)
  }

  /** The clock does not run backward; a reconciliation may be given a timestamp that does not parse. */
  predicate WellTimed(turns: seq<Turn>, start: int) {
    turns == [] ||
      var front, request := turns[..|turns| - 1], turns[|turns| - 1].request;
      && WellTimed(front, start) && request.at.IsClock() && request.later.IsClock()
      && (Moment(request).instant.Some? ==> ClockAfter(front, start) <= Moment(request).instant.value)
  }

  /** Backends and callers only bring in unfinished runs whose history backs them; a caller's base is accepted. */
  predicate WellBehaved(turn: Turn) {
    var action, at := turn.request.action, Moment(turn.request);
    && (CallsBackend(action) && Passes(action.outcome) && at.instant.Some? ==>
          AllWellLogged(action.outcome.result.snapshot, at.instant.value))
    && ((action.Provision? || action.Orchestrate? || action.Evaluate?) && action.base.Some? && at.instant.Some? ==>
          Accepted(action.base.value) && AllWellLogged(action.base.value, at.instant.value))
  }

  predicate Holds(s: RuntimeSnapshot, clock: int) {
    Accepted(s) && AllWellLogged(s, clock)
  }

  lemma HoldsLater(s: RuntimeSnapshot, clock: int, later: int)
    requires Holds(s, clock) && clock <= later
    ensures Holds(s, later)
  {
    hide Accepted, AllWellLogged;
    WellLoggedLater(s, clock, later);
  }

  lemma BackendStepHolds(p: PlaneState, turn: Turn, clock: int)
    requires CallsBackend(turn.request.action) && Holds(p.snapshot, clock) && WellBehaved(turn)
    requires turn.request.later.instant.Some? && clock <= turn.request.later.instant.value
    ensures var base := BaseOf(p, turn.request.action);
            Holds(Screened(turn.request.action.outcome, base, turn.findings).snapshot, turn.request.later.instant.value)
  {
    hide AllWellLogged, Accepted;
    HoldsLater(p.snapshot, clock, turn.request.later.instant.value);
  }

  lemma StepHolds(target: Target, p: PlaneState, turn: Turn, clock: int)
    requires Holds(p.snapshot, clock) && WellBehaved(turn) && turn.request.at.IsClock() && turn.request.later.IsClock()
    requires Moment(turn.request).instant.Some? ==> clock <= Moment(turn.request).instant.value
    ensures var moment := Moment(turn.request);
            Holds(Step(target, p, turn.request, turn.findings).1.snapshot, if moment.instant.Some?
                then moment.instant.value else clock)
  {
    hide AllWellLogged, Accepted, RulingOn, Cancellation, Reconciled, AllReadable, WellBehaved;
    var request := turn.request;
    var moment := Moment(request);
    if moment.instant.Some? {
      HoldsLater(p.snapshot, clock, moment.instant.value);
    }
    if Acts(target, p, request) {
      match request.action
      case Cancel(address, runId, reason) =>
        if Cancellation(p.snapshot, address, runId, reason, request.at).Cancels? {
          CancelStaysAccepted(p.snapshot, address, runId, reason, request.at);
        }
      case Reconcile(_, _) =>
        ReconcileStaysAccepted(p.snapshot, moment, if moment.instant.Some? then moment.instant.value else clock);
      case _ =>
        BackendStepHolds(p, turn, clock);
    }
  }

  /**
    Over any run, with backends that raise, lie or fail as they like: as long as what passes the boundary is backed
    by its history and the clock does not run backward, every snapshot that the plane ever holds is accepted by
    all three checkers, including the ones that cancellation and reconciliation write unchecked.
   */
  lemma {:induction false} RunsHold(target: Target, p: PlaneState, turns: seq<Turn>, start: int)
    requires Holds(p.snapshot, start) && WellTimed(turns, start)
    requires forall i :: 0 <= i < |turns| ==> WellBehaved(turns[i])
    ensures Holds(Run(target, p, turns).snapshot, ClockAfter(turns, start))
  {
    hide Holds, WellBehaved, Step, Moment;
    if turns != [] {
      var front, last := turns[..|turns| - 1], turns[|turns| - 1];
      RunsHold(target, p, front, start);
      StepHolds(target, Run(target, p, front), last, ClockAfter(front, start));
    }
  }

  lemma {:induction false} WellTimedPrefix(turns: seq<Turn>, start: int, k: nat)
    requires WellTimed(turns, start) && k <= |turns|
    ensures WellTimed(turns[..k], start)
    decreases |turns| - k
  {
    if k < |turns| {
      WellTimedPrefix(turns, start, k + 1);
      assert turns[..k + 1][..k] == turns[..k];
    } else {
      assert turns[..k] == turns;
    }
  }

  lemma EverySnapshotAccepted(target: Target, p: PlaneState, turns: seq<Turn>, start: int, k: nat)
    requires Holds(p.snapshot, start) && WellTimed(turns, start) && k <= |turns|
    requires forall i :: 0 <= i < |turns| ==> WellBehaved(turns[i])
    ensures Accepted(Run(target, p, turns[..k]).snapshot)
  {
    hide WellBehaved, WellTimed, Run, Accepted, AllWellLogged;
    WellTimedPrefix(turns, start, k);
    RunsHold(target, p, turns[..k], start);
  }

  /** A plane on an empty store starts from a snapshot that holds at every instant. */
  lemma EmptyHolds(clock: int)
    ensures Holds(EMPTY_SNAPSHOT, clock)
  {
  }
}
