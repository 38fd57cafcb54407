/**
  The contract checker for evaluator results: every observable address reports a result that its
  compiled contracts allow, together with a history that leads to it.
 */
module EvaluationContracts {
  import opened RuntimeModels
  import opened WorkflowContracts

  /** The value shape that a compiled result contract asks for. */
  predicate MeasurementConforms(rc: EvaluationResultContract, status: EvaluationStatus, m: Measurement) {
    && (!rc.supportsPassed ==> m.passed.None?)
    && (rc.supportsPassed && status.EvaluationReady? ==> m.passed.Some?)
    && (!rc.supportsScore ==> m.score.None? && m.maxScore.None?)
    && (rc.supportsScore && status.EvaluationReady? ==> m.score.Some?)
    && (rc.fixedMaxScore.Some? && status.EvaluationReady? ==> m.maxScore == rc.fixedMaxScore)
  }

  datatype ResultRule =
    | ResourceTypeDiffers | SchemaVersionDiffers | PassedNotSupported | PassedMissing
    | ScoreNotSupported | ScoreMissing | MaxScoreDiffers

  /** Each rule is reported exactly when it is broken. */
  predicate ReportsResultRules(violations: seq<ResultRule>, rc: EvaluationResultContract, st: EvaluationState) {
    && (ResourceTypeDiffers in violations <==> st.resourceType != rc.resourceType)
    && (SchemaVersionDiffers in violations <==> st.schemaVersion != rc.schemaVersion)
    && (PassedNotSupported in violations <==> !rc.supportsPassed && st.measured.passed.Some?)
    && (PassedMissing in violations <==>
        rc.supportsPassed && st.status.EvaluationReady? && st.measured.passed.None?)
    && (ScoreNotSupported in violations <==>
        !rc.supportsScore && (st.measured.score.Some? || st.measured.maxScore.Some?))
    && (ScoreMissing in violations <==>
        rc.supportsScore && st.status.EvaluationReady? && st.measured.score.None?)
    && (MaxScoreDiffers in violations <==>
        rc.fixedMaxScore.Some? && st.status.EvaluationReady? && st.measured.maxScore != rc.fixedMaxScore)
  }

  method EvaluationViolations(rc: EvaluationResultContract, st: EvaluationState) returns (violations: seq<ResultRule>)
    ensures violations == [] <==>
      st.resourceType == rc.resourceType && st.schemaVersion == rc.schemaVersion
          && MeasurementConforms(rc, st.status, st.measured)
    ensures ReportsResultRules(violations, rc, st)
  {
    violations := [];
    var m, ready := st.measured, st.status.EvaluationReady?;
    if st.resourceType != rc.resourceType {
      violations := violations + [ResourceTypeDiffers];
    }
    if st.schemaVersion != rc.schemaVersion {
      violations := violations + [SchemaVersionDiffers];
    }
    if !rc.supportsPassed && m.passed.Some? {
      violations := violations + [PassedNotSupported];
    }
    if rc.supportsPassed && ready && m.passed.None? {
      violations := violations + [PassedMissing];
    }
    if !rc.supportsScore && (m.score.Some? || m.maxScore.Some?) {
      violations := violations + [ScoreNotSupported];
    }
    if rc.supportsScore && ready && m.score.None? {
      violations := violations + [ScoreMissing];
    }
    if rc.fixedMaxScore.Some? {
      if ready && m.maxScore != rc.fixedMaxScore {
        violations := violations + [MaxScoreDiffers];
      }
    }
  }

  function EvaluationStamps(history: seq<EvaluationEvent>): seq<Stamp> {
    seq(|history|, i requires 0 <= i < |history| => history[i].timestamp)
  }

  predicate EndsWell(status: EvaluationStatus, last: EvaluationEventType) {
    && (status.EvaluationReady? ==> last.EvaluationReadyEvent?)
    && (status.EvaluationFailed? ==> last.EvaluationFailedEvent?)
    && (status.EvaluationRunning? ==> !last.EvaluationReadyEvent? && !last.EvaluationFailedEvent?)
  }

  predicate EvaluationHistoryConforms(
    xc: EvaluationExecutionContract, status: EvaluationStatus, history: seq<EvaluationEvent>) {
    && (forall e :: e in history ==> e.Valid())
    && Monotone(EvaluationStamps(history))
    && (history != [] ==>
          && (xc.requiresStartEvent ==> history[0].eventType.EvaluationStartedEvent?)
          && (forall e :: e in history ==> e.eventType in xc.historyEventTypes && e.status in xc.allowedStatuses)
          && EndsWell(status, history[|history| - 1].eventType))
  }

  predicate EvaluationConforms(
    rc: EvaluationResultContract, xc: EvaluationExecutionContract, st: EvaluationState, history: seq<EvaluationEvent>)
  {
    && rc.Valid() && xc.Valid() && st.Valid()
    && st.resourceType == rc.resourceType
    && st.schemaVersion == rc.schemaVersion && st.schemaVersion == xc.schemaVersion
    && MeasurementConforms(rc, st.status, st.measured)
    && st.status in xc.allowedStatuses
    && EvaluationHistoryConforms(xc, st.status, history)
  }

  predicate EvaluationAccepted(s: RuntimeSnapshot, address: string) {
    && address in s.entries && s.entries[address].IsObservable()
    && address in s.evaluationResults && address in s.evaluationHistory
    && var payload := s.entries[address].payload;
    EvaluationConforms(payload.resultContract.value, payload.executionContract.value,
                       s.evaluationResults[address], s.evaluationHistory[address])
  }

  predicate EvaluationsAccepted(s: RuntimeSnapshot) {
    && (forall a :: a in s.entries && s.entries[a].IsObservable() ==> a in s.evaluationResults)
    && (forall a :: a in s.evaluationResults ==> EvaluationAccepted(s, a))
  }

  method EventDiagnostics(xc: EvaluationExecutionContract, history: seq<EvaluationEvent>, address: string)
    returns (ds: seq<Diagnostic>)
    ensures ds == [] <==> forall e :: e in history ==>
        e.eventType in xc.historyEventTypes && e.status in xc.allowedStatuses
    ensures forall d :: d in ds ==> d.IsError()
  {
    ds := [];
    for k := 0 to |history|
      invariant forall d :: d in ds ==> d.IsError()
      invariant ds == [] <==> forall i :: 0 <= i < k ==>
          history[i].eventType in xc.historyEventTypes && history[i].status in xc.allowedStatuses
    {
      if history[k].eventType !in xc.historyEventTypes {
        ds := ds + [Objection(address)];
      }
      if history[k].status !in xc.allowedStatuses {
        ds := ds + [Objection(address)];
      }
    }
  }

  method PayloadDiagnostics(history: seq<EvaluationEvent>, address: string) returns (ds: seq<Diagnostic>)
    ensures ds == [] <==> forall e :: e in history ==> e.Valid()
    ensures forall d :: d in ds ==> d.IsError()
  {
    ds := [];
    for k := 0 to |history|
      invariant forall d :: d in ds ==> d.IsError()
      invariant ds == [] <==> forall i :: 0 <= i < k ==> history[i].Valid()
    {
      if !history[k].Valid() {
        ds := ds + [Objection(address)];
      }
    }
  }

  method HistoryDiagnostics(
    xc: EvaluationExecutionContract, status: EvaluationStatus, history: seq<EvaluationEvent>, address: string)
    returns (ds: seq<Diagnostic>)
    ensures ds == [] <==> EvaluationHistoryConforms(xc, status, history)
    ensures forall d :: d in ds ==> d.IsError()
  {
    ds := PayloadDiagnostics(history, address);
    var monotone := MonotoneDiagnostics(EvaluationStamps(history), address);
    ds := ds + monotone;
    if history != [] {
      if xc.requiresStartEvent && !history[0].eventType.EvaluationStartedEvent? {
        ds := ds + [Objection(address)];
      }
      var events := EventDiagnostics(xc, history, address);
      ds := ds + events;
      var last := history[|history| - 1].eventType;
      if (status.EvaluationReady? && !last.EvaluationReadyEvent?)
          || (status.EvaluationFailed? && !last.EvaluationFailedEvent?) {
        ds := ds + [Objection(address)];
      }
      if status.EvaluationRunning? && (last.EvaluationReadyEvent? || last.EvaluationFailedEvent?) {
        ds := ds + [Objection(address)];
      }
    }
  }

  method AddressDiagnostics(s: RuntimeSnapshot, a: string) returns (ds: seq<Diagnostic>)
    requires a in s.evaluationResults
    ensures ds == [] <==> EvaluationAccepted(s, a)
    ensures forall d :: d in ds ==> d.IsError()
  {
    hide ReportsResultRules, MeasurementConforms, EvaluationHistoryConforms;
    ds := [];
    if a !in s.entries || !s.entries[a].IsObservable() {
      return [Objection(a)];
    }
    var rc, xc := s.entries[a].payload.resultContract.value, s.entries[a].payload.executionContract.value;
    var st := s.evaluationResults[a];
    if !rc.Valid() || !xc.Valid() || !st.Valid() {
      return [Objection(a)];
    }
    if a !in s.evaluationHistory {
      return [Objection(a)];
    }
    if st.schemaVersion != rc.schemaVersion {
      ds := ds + [Objection(a)];
    }
    if st.schemaVersion != xc.schemaVersion {
      ds := ds + [Objection(a)];
    }
    var violations := EvaluationViolations(rc, st);
    ds := ds + Objections(|violations|, a);
    if st.status !in xc.allowedStatuses {
      ds := ds + [Objection(a)];
    }
    var history := HistoryDiagnostics(xc, st.status, s.evaluationHistory[a], a);
    ds := ds + history;
  }

  /** The whole checker: silent exactly on snapshots whose evaluation side is accepted. */
  method EvaluationDiagnostics(s: RuntimeSnapshot) returns (ds: seq<Diagnostic>)
    ensures ds == [] <==> EvaluationsAccepted(s)
    ensures forall d :: d in ds ==> d.IsError()
  {
    ds := [];
    var missing := set a | a in s.entries.Keys && s.entries[a].IsObservable() && a !in s.evaluationResults;
    if missing != {} {
      ds := ds + [FailureDiagnostic(BackendContractInvalid, "runtime.apply.evaluation-results")];
      var a :| a in missing;
    }
    assert missing == {} ==>
        forall a :: a in s.entries && s.entries[a].IsObservable() && a !in s.evaluationResults ==> a in missing;
    var todo := s.evaluationResults.Keys;
    while todo != {}
      invariant todo <= s.evaluationResults.Keys
      invariant forall d :: d in ds ==> d.IsError()
      invariant ds == [] <==> missing == {} && forall a :: a in s.evaluationResults && a !in todo ==>
          EvaluationAccepted(s, a)
    {
      var a :| a in todo;
      var more := AddressDiagnostics(s, a);
      ds := ds + more;
      todo := todo - {a};
    }
  }
}
