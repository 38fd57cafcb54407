/** A control plane on the reference services: nothing needs to be assumed of its backends. */
module StubRuns {
  import opened RuntimeModels
  import opened BackendBoundary
  import opened WorkflowControl
  import opened OperationStore
  import opened WorkflowSafety
  import opened Plans
  import opened StubServices
  import opened ParticipantRuntime
  import opened ParticipantLogs
  import opened ParticipantRuns
  import opened ControlPlane
  import opened ControlPlaneRuns

  // ------------------------------------------- every service keeps runs well logged

  lemma StartOpWellLogged(s: RuntimeSnapshot, op: PlannedOp, now: Stamp, clock: int)
    requires AllWellLogged(s, clock) && now.instant.Some? && now.instant.value <= clock
    ensures AllWellLogged(StartOp(s, op, now), clock)
  {
  }

  lemma {:induction false} StartedWellLogged(s: RuntimeSnapshot, ops: seq<PlannedOp>, now: Stamp, clock: int)
    requires AllWellLogged(s, clock) && now.instant.Some? && now.instant.value <= clock
    ensures AllWellLogged(Started(s, ops, now), clock)
  {
    hide AllWellLogged, StartOp;
    if ops != [] {
      StartedWellLogged(s, ops[..|ops| - 1], now, clock);
      StartOpWellLogged(Started(s, ops[..|ops| - 1], now), ops[|ops| - 1], now, clock);
    }
  }

  /** Workflow results and histories as before, and no new workflow entries. */
  predicate NoNewWorkflows(s: RuntimeSnapshot, t: RuntimeSnapshot) {
    && t.orchestrationResults == s.orchestrationResults && t.orchestrationHistory == s.orchestrationHistory
    && forall a :: a in t.entries && t.entries[a].IsWorkflow() ==> a in s.entries && t.entries[a] == s.entries[a]
  }

  lemma NoNewWorkflowsWellLogged(s: RuntimeSnapshot, t: RuntimeSnapshot, clock: int)
    requires NoNewWorkflows(s, t) && AllWellLogged(s, clock)
    ensures AllWellLogged(t, clock)
  {
  }

  lemma {:induction false} EvaluatedAddsNone(s: RuntimeSnapshot, ops: seq<PlannedOp>, now: Stamp)
    ensures NoNewWorkflows(s, Evaluated(s, ops, now))
  {
    hide ReadyState, ReadyHistory, StatusOf;
    if ops != [] {
      EvaluatedAddsNone(s, ops[..|ops| - 1], now);
    }
  }

  lemma {:induction false} ProvisionedAddsNone(s: RuntimeSnapshot, ops: seq<PlannedOp>)
    ensures NoNewWorkflows(s, Provisioned(s, ops))
  {
    hide StatusOf;
    if ops != [] {
      ProvisionedAddsNone(s, ops[..|ops| - 1]);
    }
  }

  // ---------------------------------------------------------------------- runs

  /** The outcome is what a reference service answers on the snapshot, at some instant up to the end of the call. */
  ghost predicate AnsweredByStub(action: Action, base: RuntimeSnapshot, end: Stamp)
    requires CallsBackend(action)
  {
    match action
    case Provision(_, _, outcome) =>
      exists ops :: outcome == Applies(ApplyResult(true, Provisioned(base, ops), [], Changed(ops)))
    case Orchestrate(_, outcome) =>
      exists ops, now: Stamp :: now.NotAfter(end)
          && outcome == Applies(ApplyResult(true, Started(base, ops, now), [], Changed(ops)))
    case Evaluate(_, outcome) =>
      exists ops, now :: outcome == Applies(ApplyResult(true, Evaluated(base, ops, now), [], Changed(ops)))
    case Participate(outcome) =>
      exists request, stub, now :: outcome == AsBackend(Reply(request, base, stub, now))
  }

  lemma StubsKeepWellLogged(action: Action, base: RuntimeSnapshot, end: Stamp)
    requires CallsBackend(action) && AnsweredByStub(action, base, end)
    requires end.instant.Some? && AllWellLogged(base, end.instant.value)
    ensures action.outcome.Applies? ==> AllWellLogged(action.outcome.result.snapshot, end.instant.value)
  {
    hide AllWellLogged, NoNewWorkflows, Provisioned, Started, Evaluated;
    match action
    case Provision(_, _, outcome) =>
      var ops :| outcome == Applies(ApplyResult(true, Provisioned(base, ops), [], Changed(ops)));
      ProvisionedAddsNone(base, ops);
      NoNewWorkflowsWellLogged(base, Provisioned(base, ops), end.instant.value);
    case Orchestrate(_, outcome) =>
      var ops, now: Stamp :| now.NotAfter(end)
          && outcome == Applies(ApplyResult(true, Started(base, ops, now), [], Changed(ops)));
      StartedWellLogged(base, ops, now, end.instant.value);
    case Evaluate(_, outcome) =>
      var ops, now :| outcome == Applies(ApplyResult(true, Evaluated(base, ops, now), [], Changed(ops)));
      EvaluatedAddsNone(base, ops, now);
      NoNewWorkflowsWellLogged(base, Evaluated(base, ops, now), end.instant.value);
    case Participate(outcome) =>
      var request, stub, now :| outcome == AsBackend(Reply(request, base, stub, now));
      if outcome.Applies? {
        ReplyAddsNone(request, base, stub, now);
        NoNewWorkflowsWellLogged(base, outcome.result.snapshot, end.instant.value);
      }
  }

  lemma ReplyAddsNone(request: EpisodeRequest, s: RuntimeSnapshot, stub: StubState, now: Stamp)
    requires Reply(request, s, stub, now).Returned?
    ensures NoNewWorkflows(s, Reply(request, s, stub, now).value.snapshot)
  {
  }

  /** Every backend call of the run is answered by a reference service, on the plane's own snapshot. */
  ghost predicate ServedByStubs(target: ControlPlane.Target, p: PlaneState, turns: seq<Turn>) {
    turns == [] ||
      var front, request := turns[..|turns| - 1], turns[|turns| - 1].request;
      && ServedByStubs(target, p, front)
      && (CallsBackend(request.action) ==>
            && (!request.action.Participate? ==> request.action.base.None?)
            && AnsweredByStub(request.action, Run(target, p, front).snapshot, request.later))
  }

  /**
    A plane served by the reference services holds accepted snapshots only, over every run in which the clock does
    not run backward: whatever is planned, cancelled, reconciled, reset or restarted, and in whichever order.
   */
  lemma {:induction false} StubRunsHold(target: ControlPlane.Target, p: PlaneState, turns: seq<Turn>, start: int)
    requires Holds(p.snapshot, start) && WellTimed(turns, start) && ServedByStubs(target, p, turns)
    ensures Holds(Run(target, p, turns).snapshot, ClockAfter(turns, start))
  {
    if turns != [] {
      hide Step, AnsweredByStub, AllWellLogged, Accepted;
      var front, last := turns[..|turns| - 1], turns[|turns| - 1];
      StubRunsHold(target, p, front, start);
      var q := Run(target, p, front);
      if CallsBackend(last.request.action) {
        HoldsLater(q.snapshot, ClockAfter(front, start), last.request.later.instant.value);
        StubsKeepWellLogged(last.request.action, q.snapshot, last.request.later);
      }
      StepHolds(target, q, last, ClockAfter(front, start));
    }
  }

  // ------------------------------------------------- participants on the plane

  /** Complete logs of all results, and every earlier history a prefix. */
  ghost predicate KeepsLogs(s: RuntimeSnapshot, t: RuntimeSnapshot) {
    AllFaithful(t) && forall a :: HistoryAt(s.participantHistory, a) <= HistoryAt(t.participantHistory, a)
  }

  lemma KeepsLogsTransitive(s: RuntimeSnapshot, t: RuntimeSnapshot, u: RuntimeSnapshot)
    requires KeepsLogs(s, t) && KeepsLogs(t, u)
    ensures KeepsLogs(s, u)
  {
    hide AllFaithful;
  }

  lemma SameParticipantsKeepLogs(s: RuntimeSnapshot, t: RuntimeSnapshot)
    requires AllFaithful(s) && t.participantResults == s.participantResults
        && t.participantHistory == s.participantHistory
    ensures KeepsLogs(s, t)
  {
    hide Faithful;
  }

  lemma {:induction false} StartedKeepsParticipants(s: RuntimeSnapshot, ops: seq<PlannedOp>, now: Stamp)
    ensures Started(s, ops, now).participantResults == s.participantResults
    ensures Started(s, ops, now).participantHistory == s.participantHistory
  {
    if ops != [] {
      StartedKeepsParticipants(s, ops[..|ops| - 1], now);
    }
  }

  lemma {:induction false} EvaluatedKeepsParticipants(s: RuntimeSnapshot, ops: seq<PlannedOp>, now: Stamp)
    ensures Evaluated(s, ops, now).participantResults == s.participantResults
    ensures Evaluated(s, ops, now).participantHistory == s.participantHistory
  {
    if ops != [] {
      EvaluatedKeepsParticipants(s, ops[..|ops| - 1], now);
    }
  }

  lemma ReplyKeepsLogs(request: EpisodeRequest, s: RuntimeSnapshot, stub: StubState, now: Stamp)
    requires AllFaithful(s) && Reply(request, s, stub, now).Returned?
    ensures KeepsLogs(s, Reply(request, s, stub, now).value.snapshot)
  {
    hide AllFaithful, Chosen, Move.Constructs, WithEpisode;
    var move := Chosen(request, s, stub, now);
    if move.Moves? {
      MoveKeepsLogs(request, s, stub, now);
    }
  }

  lemma StubsKeepLogs(action: Action, base: RuntimeSnapshot, end: Stamp)
    requires CallsBackend(action) && AnsweredByStub(action, base, end) && AllFaithful(base)
    ensures action.outcome.Applies? ==> KeepsLogs(base, action.outcome.result.snapshot)
  {
    hide AllFaithful, KeepsLogs, Executed, Started, Evaluated;
    match action
    case Provision(_, _, outcome) =>
      var ops :| outcome == Applies(ApplyResult(true, Provisioned(base, ops), [], Changed(ops)));
      SameParticipantsKeepLogs(base, Provisioned(base, ops));
    case Orchestrate(_, outcome) =>
      var ops, now: Stamp :| now.NotAfter(end)
          && outcome == Applies(ApplyResult(true, Started(base, ops, now), [], Changed(ops)));
      StartedKeepsParticipants(base, ops, now);
      SameParticipantsKeepLogs(base, Started(base, ops, now));
    case Evaluate(_, outcome) =>
      var ops, now :| outcome == Applies(ApplyResult(true, Evaluated(base, ops, now), [], Changed(ops)));
      EvaluatedKeepsParticipants(base, ops, now);
      SameParticipantsKeepLogs(base, Evaluated(base, ops, now));
    case Participate(outcome) =>
      var request, stub, now :| outcome == AsBackend(Reply(request, base, stub, now));
      if outcome.Applies? {
        ReplyKeepsLogs(request, base, stub, now);
      }
  }

  lemma DirectActionKeepsParticipants(p: PlaneState, request: Request, findings: seq<Diagnostic>)
    requires !CallsBackend(request.action)
    ensures var q := Perform(p, request, findings).1;
            q.snapshot.participantResults == p.snapshot.participantResults
                && q.snapshot.participantHistory == p.snapshot.participantHistory
  {
    hide CancelledRun, TimedOutRun, RejectionRecord, DoneRecord, DueInOrder, DueSet, AllReadable, WithRecord,
    WithSnapshot, WorkflowState.Valid;
  }

  lemma DirectStepKeepsParticipants(target: ControlPlane.Target, p: PlaneState, turn: Turn)
    requires !CallsBackend(turn.request.action) || !Acts(target, p, turn.request)
    ensures var q := Step(target, p, turn.request, turn.findings).1;
            q.snapshot.participantResults == p.snapshot.participantResults
                && q.snapshot.participantHistory == p.snapshot.participantHistory
  {
    hide RulingOn, Perform, RejectionRecord, WithRecord;
    if Acts(target, p, turn.request) {
      DirectActionKeepsParticipants(p, turn.request, turn.findings);
    }
  }

  /** Over every such run of the plane the participant histories stay complete logs of their results and only grow. */
  lemma {:induction false} StubRunsKeepLogs(target: ControlPlane.Target, p: PlaneState, turns: seq<Turn>)
    requires AllFaithful(p.snapshot) && ServedByStubs(target, p, turns)
    ensures KeepsLogs(p.snapshot, Run(target, p, turns).snapshot)
  {
    if turns != [] {
      var front, last := turns[..|turns| - 1], turns[|turns| - 1];
      StubRunsKeepLogs(target, p, front);
      StubStepKeepsLogs(target, Run(target, p, front), last);
      KeepsLogsTransitive(p.snapshot, Run(target, p, front).snapshot, Run(target, p, turns).snapshot);
    } else {
      SameParticipantsKeepLogs(p.snapshot, p.snapshot);
    }
  }

  lemma StubStepKeepsLogs(target: ControlPlane.Target, p: PlaneState, turn: Turn)
    requires AllFaithful(p.snapshot)
    requires CallsBackend(turn.request.action) ==>
      && (!turn.request.action.Participate? ==> turn.request.action.base.None?)
      && AnsweredByStub(turn.request.action, p.snapshot, turn.request.later)
    ensures KeepsLogs(p.snapshot, Step(target, p, turn.request, turn.findings).1.snapshot)
  {
    hide AllFaithful, KeepsLogs, RulingOn, Accepted, AnsweredByStub, Cancellation, Reconciled, AllReadable, DueInOrder;
    var q := Step(target, p, turn.request, turn.findings).1;
    SameParticipantsKeepLogs(p.snapshot, p.snapshot);
    if CallsBackend(turn.request.action) && Acts(target, p, turn.request) {
      StubsKeepLogs(turn.request.action, p.snapshot, turn.request.later);
    } else {
      DirectStepKeepsParticipants(target, p, turn);
      SameParticipantsKeepLogs(p.snapshot, q.snapshot);
    }
  }
}
