/** Applying and destroying a plan against a target: phases, rollback, and what is adopted. */
module RuntimeManager {
  import opened Wrappers
  import opened RuntimeModels
  import opened BackendBoundary
  import opened Plans
  import opened Planner
  import opened DependencyGraph

  /** What the target provides besides a provisioner. */
  datatype Target = Target(name: string, manifest: string, hasOrchestrator: bool, hasEvaluator: bool)

  /** How the target's services answer during one call of the manager; each is asked at most once. */
  datatype Services = Services(
    provision: (seq<PlannedOp>, RuntimeSnapshot) -> BackendOutcome,
    startEvaluator: (seq<PlannedOp>, RuntimeSnapshot) -> BackendOutcome,
    startOrchestrator: (seq<PlannedOp>, RuntimeSnapshot) -> BackendOutcome,
    stopEvaluator: RuntimeSnapshot -> BackendOutcome,
    stopOrchestrator: RuntimeSnapshot -> BackendOutcome)

  datatype ExecutionPlan = ExecutionPlan(
    targetName: Option<string>,
    manifest: string,
    baseSnapshot: RuntimeSnapshot,
    provisioning: seq<PlannedOp>,
    orchestration: seq<PlannedOp>,
    evaluation: seq<PlannedOp>,
    diagnostics: seq<Diagnostic>)

  datatype CallSite = ProvisionCall | StartEvaluator | StartOrchestrator | StopEvaluator | StopOrchestrator

  /** The calls made, the snapshot adopted in the end, and whether every phase succeeded. */
  datatype Trace = Trace(calls: seq<CallSite>, snapshot: RuntimeSnapshot, completed: bool)

  // -------------------------------------------------------------- specification

  /** A screened call: did it succeed, and what snapshot does it leave. */
  function Call(outcome: BackendOutcome, s: RuntimeSnapshot): (bool, RuntimeSnapshot) {
    var r := Screened(outcome, s, []);
    (r.success, r.snapshot)
  }

  /** The plan was made for this target and this snapshot, is free of errors, and asks for nothing the target lacks. */
  predicate Applicable(target: Target, plan: ExecutionPlan, s: RuntimeSnapshot, validation: seq<Diagnostic>) {
    && plan.targetName == Some(target.name) && plan.manifest == target.manifest && plan.baseSnapshot == s
    && !HasError(plan.diagnostics)
    && (HasActionable(plan.evaluation) ==> target.hasEvaluator)
    && (HasActionable(plan.orchestration) ==> target.hasOrchestrator)
    && !HasError(validation)
  }

  function StopEvaluatorTrace(services: Services, s: RuntimeSnapshot, calls: seq<CallSite>): Trace {
    Trace(calls + [StopEvaluator], Call(services.stopEvaluator(s), s).1, false)
  }

  function RollbackTrace(services: Services, s: RuntimeSnapshot, calls: seq<CallSite>, startedEvaluator: bool): Trace {
    var stopped := Call(services.stopOrchestrator(s), s).1;
    if startedEvaluator then StopEvaluatorTrace(services, stopped, calls + [StopOrchestrator])
    else Trace(calls + [StopOrchestrator], stopped, false)
  }

  function OrchestrationTrace(
    services: Services, plan: ExecutionPlan, s: RuntimeSnapshot, calls: seq<CallSite>, startedEvaluator: bool): Trace {
    if !HasActionable(plan.orchestration) then Trace(calls, s, true)
    else
      var (ok, next) := Call(services.startOrchestrator(plan.orchestration, s), s);
      if ok then Trace(calls + [StartOrchestrator], next, true)
      else RollbackTrace(services, next, calls + [StartOrchestrator], startedEvaluator)
  }

  function EvaluationTrace(services: Services, plan: ExecutionPlan, s: RuntimeSnapshot, calls: seq<CallSite>): Trace {
    if !HasActionable(plan.evaluation) then OrchestrationTrace(services, plan, s, calls, false)
    else
      var (ok, next) := Call(services.startEvaluator(plan.evaluation, s), s);
      if ok then OrchestrationTrace(services, plan, next, calls + [StartEvaluator], true)
      else StopEvaluatorTrace(services, next, calls + [StartEvaluator])
  }

  function ApplyTrace(services: Services, plan: ExecutionPlan, s: RuntimeSnapshot): Trace {
    var (ok, next) := Call(services.provision(plan.provisioning, s), s);
    if !ok then Trace([ProvisionCall], next, false) else EvaluationTrace(services, plan, next, [ProvisionCall])
  }

  function StoppedOrchestrator(target: Target, services: Services, s: RuntimeSnapshot): (bool, RuntimeSnapshot) {
    if target.hasOrchestrator then Call(services.stopOrchestrator(s), s) else (true, s)
  }

  function StoppedEvaluator(target: Target, services: Services, s: RuntimeSnapshot): (bool, RuntimeSnapshot) {
    if target.hasEvaluator then Call(services.stopEvaluator(s), s) else (true, s)
  }

  function StoppedAll(target: Target, services: Services, s: RuntimeSnapshot): RuntimeSnapshot {
    StoppedEvaluator(target, services, StoppedOrchestrator(target, services, s).1).1
  }

  /** Deletions of all provisioning entries, dependents before what they depend on. */
  ghost predicate TearsDown(ops: seq<PlannedOp>, entries: Entries) {
    exists deletions ::
      && PlansDomain(ops, [], deletions, map[], EntriesOf(entries, Provisioning), map[])
      && WellOrdered([], deletions, map[], EntriesOf(entries, Provisioning))
  }

  // ------------------------------------------------------------------ accounts

  /**
    One screened call: who was asked for which operations, on which snapshot, what the answer was, what the boundary
    made of it, and what a failure without an error is reported as.
   */
  datatype PhaseReport = PhaseReport(
    call: CallSite, ops: seq<PlannedOp>, before: RuntimeSnapshot, answer: BackendOutcome, result: ApplyResult,
    failure: Diagnostic)
  {
    /** The findings of the phase; a failure that brings no error along gets one. */
    function Diagnostics(): seq<Diagnostic> {
      if !result.success && !HasError(result.diagnostics) then result.diagnostics + [failure] else result.diagnostics
    }

    predicate Fine() {
      result.success && !HasError(result.diagnostics)
    }

    /** An answer with an accepted snapshot is let through; any other becomes a failure with an error on no change. */
    predicate IsScreened() {
      && failure.severity.Error?
      && if answer.Applies? && Accepted(answer.result.snapshot) then result == answer.result
         else && !result.success && result.snapshot == before && result.changedAddresses == []
              && HasError(result.diagnostics)
    }
  }

  /** What the service that is asked answers; a service that is to stop is given no operations. */
  function Answer(services: Services, call: CallSite, ops: seq<PlannedOp>, s: RuntimeSnapshot): BackendOutcome {
    match call
    case ProvisionCall => services.provision(ops, s)
    case StartEvaluator => services.startEvaluator(ops, s)
    case StartOrchestrator => services.startOrchestrator(ops, s)
    case StopEvaluator => services.stopEvaluator(s)
    case StopOrchestrator => services.stopOrchestrator(s)
  }

  function AllDiagnostics(phases: seq<PhaseReport>): seq<Diagnostic> {
    if phases == [] then []
    else AllDiagnostics(phases[..|phases| - 1]) + phases[|phases| - 1].Diagnostics()
  }

  function AllChanged(phases: seq<PhaseReport>): seq<string> {
    if phases == [] then []
    else AllChanged(phases[..|phases| - 1]) + phases[|phases| - 1].result.changedAddresses
  }

  function CallsOf(phases: seq<PhaseReport>): seq<CallSite> {
    seq(|phases|, i requires 0 <= i < |phases| => phases[i].call)
  }

  function SnapshotAfter(start: RuntimeSnapshot, phases: seq<PhaseReport>): RuntimeSnapshot {
    if phases == [] then start else phases[|phases| - 1].result.snapshot
  }

  /** The phase starts from the snapshot that the one before it leaves, and its answer is that of whom it asked. */
  ghost predicate Continues(
    services: Services, start: RuntimeSnapshot, before: seq<PhaseReport>, phase: PhaseReport,
    failureOf: CallSite -> Diagnostic)
  {
    && phase.before == SnapshotAfter(start, before)
    && phase.answer == Answer(services, phase.call, phase.ops, phase.before)
    && phase.failure == failureOf(phase.call)
    && phase.IsScreened()
  }

  ghost predicate IsAccount(
    services: Services, start: RuntimeSnapshot, phases: seq<PhaseReport>, failureOf: CallSite -> Diagnostic) {
    forall i :: 0 <= i < |phases| ==> Continues(services, start, phases[..i], phases[i], failureOf)
  }

  predicate AllFine(phases: seq<PhaseReport>) {
    forall i :: 0 <= i < |phases| ==> phases[i].Fine()
  }

  lemma AccountGrows(
    services: Services, start: RuntimeSnapshot, phases: seq<PhaseReport>, failureOf: CallSite -> Diagnostic,
    report: PhaseReport)
    requires IsAccount(services, start, phases, failureOf) && Continues(services, start, phases, report, failureOf)
    ensures IsAccount(services, start, phases + [report], failureOf)
  {
    hide Continues;
    var more, n := phases + [report], |phases|;
    forall i | 0 <= i < |more| ensures Continues(services, start, more[..i], more[i], failureOf) {
      assert more[..i] == phases[..i];
      if i < n {
        assert more[i] == phases[i];
      } else {
        assert phases[..n] == phases;
      }
    }
  }

  lemma SumsGrow(start: RuntimeSnapshot, phases: seq<PhaseReport>, report: PhaseReport)
    ensures SnapshotAfter(start, phases + [report]) == report.result.snapshot
    ensures AllDiagnostics(phases + [report]) == AllDiagnostics(phases) + report.Diagnostics()
    ensures AllChanged(phases + [report]) == AllChanged(phases) + report.result.changedAddresses
    ensures CallsOf(phases + [report]) == CallsOf(phases) + [report.call]
  {
    hide PhaseReport.Diagnostics;
    assert (phases + [report])[..|phases|] == phases;
  }

  lemma FineGrows(phases: seq<PhaseReport>, report: PhaseReport)
    ensures AllFine(phases + [report]) <==> AllFine(phases) && report.Fine()
  {
    hide PhaseReport.Fine;
    var more := phases + [report];
    assert more[|phases|] == report;
    assert forall i :: 0 <= i < |phases| ==> phases[i] == more[i];
  }

  /** The findings of a phase contain an error exactly if it failed or reported one. */
  lemma FineIff(report: PhaseReport)
    requires report.failure.severity.Error?
    ensures HasError(report.Diagnostics()) <==> !report.Fine()
  {
    ErrorsAdd(report.result.diagnostics, [report.failure]);
    assert report.failure in [report.failure] && report.failure.IsError();
  }

  lemma {:induction false} AllFineIff(phases: seq<PhaseReport>)
    requires forall i :: 0 <= i < |phases| ==> phases[i].failure.severity.Error?
    ensures HasError(AllDiagnostics(phases)) <==> !AllFine(phases)
  {
    hide HasError, PhaseReport.Diagnostics, PhaseReport.Fine;
    if phases != [] {
      var front, last := phases[..|phases| - 1], phases[|phases| - 1];
      AllFineIff(front);
      FineIff(last);
      ErrorsAdd(AllDiagnostics(front), last.Diagnostics());
      assert forall i :: 0 <= i < |front| ==> phases[i] == front[i];
    } else {
      NoErrorsYet();
    }
  }

  /** What a failure without an error is reported as while a plan is applied, rolled back services included. */
  function ApplyFailure(call: CallSite): Diagnostic {
    match call
    case ProvisionCall => Diagnostic(ApplyPhaseFailed, "runtime.apply.provisioning", Error)
    case StartEvaluator => Diagnostic(ApplyPhaseFailed, "runtime.apply.evaluator", Error)
    case StartOrchestrator => Diagnostic(ApplyPhaseFailed, "runtime.apply.orchestrator", Error)
    case StopEvaluator => Diagnostic(ApplyRollbackFailed, "runtime.rollback.evaluator", Error)
    case StopOrchestrator => Diagnostic(ApplyRollbackFailed, "runtime.rollback.orchestrator", Error)
  }

  function DestroyFailure(call: CallSite): Diagnostic {
    match call
    case StopEvaluator => Diagnostic(DestroyPhaseFailed, "runtime.destroy.evaluator", Error)
    case StopOrchestrator => Diagnostic(DestroyPhaseFailed, "runtime.destroy.orchestrator", Error)
    case _ => Diagnostic(DestroyPhaseFailed, "runtime.destroy.provisioning", Error)
  }

  lemma ErrorsAdd(a: seq<Diagnostic>, b: seq<Diagnostic>)
    ensures HasError(a + b) <==> HasError(a) || HasError(b)
  {
  }

  lemma NoErrorsYet()
    ensures !HasError([])
  {
  }

  function WithFailure(ds: seq<Diagnostic>, code: DiagnosticCode, address: string): (r: seq<Diagnostic>)
    ensures HasError(r)
  {
    var failure := FailureDiagnostic(code, address);
    assert (ds + [failure])[|ds|] == failure && failure.IsError();
    ds + [failure]
  }

  // ----------------------------------------------------------------- the object

  /** The findings and changes so far add up to those of the phases. */
  ghost predicate Tallies(
    services: Services, start: RuntimeSnapshot, failureOf: CallSite -> Diagnostic, sofar: seq<Diagnostic>,
    phases: seq<PhaseReport>, working: RuntimeSnapshot, ds: seq<Diagnostic>, changed: seq<string>)
  {
    && IsAccount(services, start, phases, failureOf) && working == SnapshotAfter(start, phases)
    && ds == sofar + AllDiagnostics(phases) && changed == AllChanged(phases)
  }

  /** The operations that a plan has for a service. */
  function PlannedFor(plan: ExecutionPlan, call: CallSite): seq<PlannedOp> {
    match call
    case ProvisionCall => plan.provisioning
    case StartEvaluator => plan.evaluation
    case StartOrchestrator => plan.orchestration
    case _ => []
  }

  ghost predicate AsPlanned(plan: ExecutionPlan, phases: seq<PhaseReport>) {
    forall i :: 0 <= i < |phases| ==> phases[i].ops == PlannedFor(plan, phases[i].call)
  }

  lemma RollbackAsPlanned(plan: ExecutionPlan, asked: seq<PhaseReport>, phases: seq<PhaseReport>)
    requires AsPlanned(plan, asked) && |asked| <= |phases| && phases[..|asked|] == asked
    requires forall i :: |asked| <= i < |phases| ==>
      (phases[i].call.StopOrchestrator? || phases[i].call.StopEvaluator?) && phases[i].ops == []
    ensures AsPlanned(plan, phases)
  {
    assert forall i :: 0 <= i < |asked| ==> phases[i] == asked[i];
  }

  lemma TallyDecides(
    services: Services, start: RuntimeSnapshot, failureOf: CallSite -> Diagnostic, sofar: seq<Diagnostic>,
    phases: seq<PhaseReport>, working: RuntimeSnapshot, ds: seq<Diagnostic>, changed: seq<string>)
    requires Tallies(services, start, failureOf, sofar, phases, working, ds, changed)
    ensures HasError(ds) <==> HasError(sofar) || !AllFine(phases)
    ensures ds == sofar + AllDiagnostics(phases) && changed == AllChanged(phases)
    ensures IsAccount(services, start, phases, failureOf)
  {
    hide HasError, PhaseReport.Fine, PhaseReport.Diagnostics;
    AllFineIff(phases);
    ErrorsAdd(sofar, AllDiagnostics(phases));
  }

  class RuntimeManager {
    const target: Target
    var snapshot: RuntimeSnapshot

    constructor (target: Target, initial: Option<RuntimeSnapshot>)
      ensures this.target == target && snapshot == if initial.Some? then initial.value else EMPTY_SNAPSHOT
    {
      this.target := target;
      snapshot := if initial.Some? then initial.value else EMPTY_SNAPSHOT;
    }

    /** One finding for each way in which the plan was not made for this target, manifest and snapshot. */
    method ProvenanceDiagnostics(plan: ExecutionPlan) returns (ds: seq<Diagnostic>)
      ensures ds == [] <==>
        plan.targetName == Some(target.name) && plan.manifest == target.manifest && plan.baseSnapshot == snapshot
      ensures forall d :: d in ds ==> d.severity.Error? && d.address == "runtime.apply"
      ensures forall code :: Diagnostic(code, "runtime.apply", Error) in ds <==>
        || (code.PlanTargetUnbound? && plan.targetName.None?)
        || (code.PlanTargetMismatch? && plan.targetName.Some? && plan.targetName.value != target.name)
        || (code.PlanManifestMismatch? && plan.manifest != target.manifest)
        || (code.PlanSnapshotMismatch? && plan.baseSnapshot != snapshot)
      ensures ds != [] ==> HasError(ds)
    {
      ds := [];
      if plan.targetName.None? {
        ds := ds + [FailureDiagnostic(PlanTargetUnbound, "runtime.apply")];
      } else if plan.targetName.value != target.name {
        ds := ds + [FailureDiagnostic(PlanTargetMismatch, "runtime.apply")];
      }
      if plan.manifest != target.manifest {
        ds := ds + [FailureDiagnostic(PlanManifestMismatch, "runtime.apply")];
      }
      if plan.baseSnapshot != snapshot {
        ds := ds + [FailureDiagnostic(PlanSnapshotMismatch, "runtime.apply")];
      }
      assert ds != [] ==> ds[0] in ds;
    }

    /** One phase: the screened call, its findings and its changes. */
    method Phase(
      services: Services, call: CallSite, ops: seq<PlannedOp>, failure: Diagnostic, working: RuntimeSnapshot,
      ds: seq<Diagnostic>, changed: seq<string>, ghost start: RuntimeSnapshot,
      ghost failureOf: CallSite -> Diagnostic, ghost sofar: seq<Diagnostic>, ghost phases: seq<PhaseReport>)
      returns (
        ok: bool, next: RuntimeSnapshot, found: seq<Diagnostic>, touched: seq<string>,
        ghost extended: seq<PhaseReport>)
      requires Tallies(services, start, failureOf, sofar, phases, working, ds, changed)
      requires failure == failureOf(call) && failure.severity.Error?
      ensures Tallies(services, start, failureOf, sofar, extended, next, found, touched)
      ensures (ok, next) == Call(Answer(services, call, ops, working), working)
      ensures |extended| == |phases| + 1 && extended[..|phases|] == phases
      ensures var report := extended[|phases|];
              report.call == call && report.ops == ops && report.before == working
      ensures CallsOf(extended) == CallsOf(phases) + [call]
      ensures AllFine(extended) ==> AllFine(phases) && ok
    {
      hide HasError, AllDiagnostics, AllChanged, IsAccount, CallsOf, AllFine, Answer, SnapshotAfter;
      var answer := Answer(services, call, ops, working);
      var r := CallBackendApply(answer, working, failure.address);
      ok, next := r.success, r.snapshot;
      found := ds + r.diagnostics;
      touched := changed + r.changedAddresses;
      if !r.success && !HasError(r.diagnostics) {
        found := found + [failure];
      }
      ghost var report := PhaseReport(call, ops, working, answer, r, failure);
      extended := phases + [report];
      AccountGrows(services, start, phases, failureOf, report);
      SumsGrow(start, phases, report);
      FineGrows(phases, report);
    }

    /** Everything that stands between a plan and its first backend call. */
    method Refusal(plan: ExecutionPlan, validation: seq<Diagnostic>) returns (refused: bool, ds: seq<Diagnostic>)
      ensures refused <==> !Applicable(target, plan, snapshot, validation)
      ensures refused ==> HasError(ds)
      ensures !refused ==> ds == plan.diagnostics + validation
    {
      ds := plan.diagnostics;
      var provenance := ProvenanceDiagnostics(plan);
      ErrorsAdd(ds, provenance);
      ds := ds + provenance;
      if provenance != [] {
        return true, ds;
      }
      if HasError(plan.diagnostics) {
        return true, ds;
      }
      if HasActionable(plan.evaluation) && !target.hasEvaluator {
        return true, WithFailure(ds, MissingEvaluator, "runtime.apply.evaluator");
      }
      if HasActionable(plan.orchestration) && !target.hasOrchestrator {
        return true, WithFailure(ds, MissingOrchestrator, "runtime.apply.orchestrator");
      }
      assert ds == plan.diagnostics;
      ErrorsAdd(ds, validation);
      ds := ds + validation;
      return HasError(validation), ds;
    }

    /** Stops the given services in the given order; each is stopped whether or not an earlier one failed to stop. */
    method Rollback(
      services: Services, s: RuntimeSnapshot, orchestrator: bool, evaluator: bool, sofar: seq<Diagnostic>,
      changed: seq<string>, ghost start: RuntimeSnapshot, ghost first: seq<Diagnostic>,
      ghost phases: seq<PhaseReport>)
      returns (
        next: RuntimeSnapshot, ds: seq<Diagnostic>, touched: seq<string>, ghost extended: seq<PhaseReport>)
      requires Tallies(services, start, ApplyFailure, first, phases, s, sofar, changed)
      ensures Tallies(services, start, ApplyFailure, first, extended, next, ds, touched)
      ensures next ==
        var stopped := if orchestrator then Call(services.stopOrchestrator(s), s).1 else s;
        if evaluator then Call(services.stopEvaluator(stopped), stopped).1 else stopped
      ensures |phases| <= |extended| && extended[..|phases|] == phases
      ensures CallsOf(extended) == CallsOf(phases)
        + (if orchestrator then [StopOrchestrator] else []) + (if evaluator then [StopEvaluator] else [])
      ensures forall i :: |phases| <= i < |extended| ==>
        (extended[i].call.StopOrchestrator? || extended[i].call.StopEvaluator?) && extended[i].ops == []
      ensures AllFine(extended) ==> AllFine(phases)
    {
      hide IsAccount, Tallies, AllFine, AllDiagnostics, AllChanged, CallsOf;
      next, ds, touched, extended := s, sofar, changed, phases;
      if orchestrator {
        var ok;
        ok, next, ds, touched, extended := Phase(services, StopOrchestrator, [],
          Diagnostic(ApplyRollbackFailed, "runtime.rollback.orchestrator", Error), next, ds, touched,
          start, ApplyFailure, first, extended);
      }
      if evaluator {
        var ok;
        ok, next, ds, touched, extended := Phase(services, StopEvaluator, [],
          Diagnostic(ApplyRollbackFailed, "runtime.rollback.evaluator", Error), next, ds, touched,
          start, ApplyFailure, first, extended);
      }
    }

    /** The last phase of a plan: the orchestrator's start, and the rollback if it fails. */
    method OrchestrationPhase(
      services: Services, plan: ExecutionPlan, s: RuntimeSnapshot, evaluating: bool, sofar: seq<Diagnostic>,
      changed: seq<string>, ghost start: RuntimeSnapshot, ghost first: seq<Diagnostic>, ghost phases: seq<PhaseReport>)
      returns (
        next: RuntimeSnapshot, ds: seq<Diagnostic>, touched: seq<string>, ghost extended: seq<PhaseReport>)
      requires Tallies(services, start, ApplyFailure, first, phases, s, sofar, changed) && AsPlanned(plan, phases)
      ensures Tallies(services, start, ApplyFailure, first, extended, next, ds, touched) && AsPlanned(plan, extended)
      ensures var trace := OrchestrationTrace(services, plan, s, CallsOf(phases), evaluating);
              CallsOf(extended) == trace.calls && next == trace.snapshot && (AllFine(extended) ==> trace.completed)
      ensures AllFine(extended) ==> AllFine(phases)
    {
      hide HasActionable, IsAccount, Tallies, AllFine, AllDiagnostics, AllChanged, CallsOf, Call;
      next, ds, touched, extended := s, sofar, changed, phases;
      if HasActionable(plan.orchestration) {
        var ok;
        ok, next, ds, touched, extended := Phase(services, StartOrchestrator, plan.orchestration,
          Diagnostic(ApplyPhaseFailed, "runtime.apply.orchestrator", Error), next, ds, touched,
          start, ApplyFailure, first, extended);
        if !ok {
          ghost var asked := extended;
          next, ds, touched, extended :=
            Rollback(services, next, true, evaluating, ds, touched, start, first, extended);
          RollbackAsPlanned(plan, asked, extended);
        }
      }
    }

    /** The phases after provisioning. */
    method ServicePhases(
      services: Services, plan: ExecutionPlan, s: RuntimeSnapshot, sofar: seq<Diagnostic>,
      changed: seq<string>, ghost start: RuntimeSnapshot, ghost first: seq<Diagnostic>, ghost phases: seq<PhaseReport>)
      returns (
        next: RuntimeSnapshot, ds: seq<Diagnostic>, touched: seq<string>, ghost extended: seq<PhaseReport>)
      requires Tallies(services, start, ApplyFailure, first, phases, s, sofar, changed) && AsPlanned(plan, phases)
      ensures Tallies(services, start, ApplyFailure, first, extended, next, ds, touched) && AsPlanned(plan, extended)
      ensures var trace := EvaluationTrace(services, plan, s, CallsOf(phases));
              CallsOf(extended) == trace.calls && next == trace.snapshot && (AllFine(extended) ==> trace.completed)
    {
      hide HasActionable, IsAccount, Tallies, AllFine, AllDiagnostics, AllChanged, CallsOf, Call, OrchestrationTrace;
      next, ds, touched, extended := s, sofar, changed, phases;
      var evaluating := HasActionable(plan.evaluation);
      if evaluating {
        var ok;
        ok, next, ds, touched, extended := Phase(services, StartEvaluator, plan.evaluation,
          Diagnostic(ApplyPhaseFailed, "runtime.apply.evaluator", Error), next, ds, touched,
          start, ApplyFailure, first, extended);
        if !ok {
          ghost var asked := extended;
          next, ds, touched, extended := Rollback(services, next, false, true, ds, touched, start, first, extended);
          RollbackAsPlanned(plan, asked, extended);
          return;
        }
      }
      next, ds, touched, extended :=
        OrchestrationPhase(services, plan, next, evaluating, ds, touched, start, first, extended);
    }

    /**
      The phases of an applicable plan. The findings are those that there were already and those of the phases; the
      plan succeeds exactly if every phase was fine.
     */
    method ApplyPhases(services: Services, plan: ExecutionPlan, sofar: seq<Diagnostic>)
      returns (result: ApplyResult, ghost trace: Trace, ghost phases: seq<PhaseReport>)
      requires plan.baseSnapshot == snapshot && !HasError(sofar)
      modifies this`snapshot
      ensures trace == ApplyTrace(services, plan, old(snapshot)) && snapshot == trace.snapshot
      ensures IsAccount(services, old(snapshot), phases, ApplyFailure) && AsPlanned(plan, phases)
      ensures CallsOf(phases) == trace.calls
      ensures result == ApplyResult(AllFine(phases), snapshot, sofar + AllDiagnostics(phases), AllChanged(phases))
      ensures result.success <==> !HasError(result.diagnostics)
      ensures result.success ==> trace.completed
    {
      hide HasError, HasActionable, IsAccount, Tallies, AllFine, AllDiagnostics, AllChanged, CallsOf, Call,
      EvaluationTrace;
      trace := ApplyTrace(services, plan, snapshot);
      phases := [];
      NothingAsked(services, snapshot, ApplyFailure, sofar);
      ghost var start := snapshot;
      var ok, working, ds, changed;
      ok, working, ds, changed, phases := Phase(services, ProvisionCall, plan.provisioning,
        Diagnostic(ApplyPhaseFailed, "runtime.apply.provisioning", Error), plan.baseSnapshot, sofar, [],
        start, ApplyFailure, sofar, phases);
      assert [] + [ProvisionCall] == [ProvisionCall];
      if ok {
        working, ds, changed, phases := ServicePhases(services, plan, working, ds, changed, start, sofar, phases);
      }
      TallyDecides(services, start, ApplyFailure, sofar, phases, working, ds, changed);
      snapshot := working;
      return ApplyResult(ok && !HasError(ds), snapshot, ds, changed), trace, phases;
    }

    /**
      A plan succeeds exactly if it is applicable and every call was fine: returned success without an error. A refused
      plan reaches no backend and changes nothing.
     */
    method Apply(services: Services, plan: ExecutionPlan, validation: seq<Diagnostic>)
      returns (result: ApplyResult, ghost trace: Trace, ghost phases: seq<PhaseReport>)
      modifies this`snapshot
      ensures result.success <==> !HasError(result.diagnostics)
      ensures result.snapshot == snapshot == trace.snapshot
      ensures !Applicable(target, plan, old(snapshot), validation) ==>
        && trace == Trace([], old(snapshot), false) && phases == []
        && !result.success && result.changedAddresses == []
      ensures Applicable(target, plan, old(snapshot), validation) ==>
        && trace == ApplyTrace(services, plan, old(snapshot)) && CallsOf(phases) == trace.calls
        && IsAccount(services, old(snapshot), phases, ApplyFailure) && AsPlanned(plan, phases)
        && (result.success <==> AllFine(phases))
        && result.diagnostics == plan.diagnostics + validation + AllDiagnostics(phases)
        && result.changedAddresses == AllChanged(phases)
      ensures result.success ==> trace.completed
    {
      hide HasError, HasActionable, ApplyTrace, IsAccount, AllFine, AllDiagnostics, AllChanged, CallsOf;
      var refused, ds := Refusal(plan, validation);
      if refused {
        return ApplyResult(false, snapshot, ds, []), Trace([], snapshot, false), [];
      }
      ErrorsAdd(plan.diagnostics, validation);
      result, trace, phases := ApplyPhases(services, plan, ds);
    }

    /**
      Stops what the target has, then deletes every provisioning entry. It succeeds exactly if every one of these
      calls was fine, and reports what they found and changed.
     */
    method Destroy(services: Services)
      returns (result: ApplyResult, ghost ops: seq<PlannedOp>, ghost phases: seq<PhaseReport>)
      modifies this`snapshot
      ensures var stopped := StoppedAll(target, services, old(snapshot));
              TearsDown(ops, stopped.entries) && snapshot == Call(services.provision(ops, stopped), stopped).1
      ensures IsAccount(services, old(snapshot), phases, DestroyFailure)
      ensures CallsOf(phases) == (if target.hasOrchestrator then [StopOrchestrator] else [])
        + (if target.hasEvaluator then [StopEvaluator] else []) + [ProvisionCall]
      ensures phases[|phases| - 1].ops == ops && TearsDown(ops, phases[|phases| - 1].before.entries)
      ensures result == ApplyResult(AllFine(phases), snapshot, AllDiagnostics(phases), AllChanged(phases))
      ensures result.success <==> !HasError(result.diagnostics)
    {
      hide HasError, TearsDown, Call, IsAccount, Tallies, AllFine, AllDiagnostics, AllChanged, CallsOf,
      PhaseReport.Fine;
      phases := [];
      NothingAsked(services, snapshot, DestroyFailure, []);
      ghost var start := snapshot;
      var ds, changed, working, fine := [], [], snapshot, true;
      if target.hasOrchestrator {
        fine, working, ds, changed, phases := Phase(services, StopOrchestrator, [],
          Diagnostic(DestroyPhaseFailed, "runtime.destroy.orchestrator", Error), working, ds, changed,
          start, DestroyFailure, [], phases);
      }
      if target.hasEvaluator {
        var ok;
        ok, working, ds, changed, phases := Phase(services, StopEvaluator, [],
          Diagnostic(DestroyPhaseFailed, "runtime.destroy.evaluator", Error), working, ds, changed,
          start, DestroyFailure, [], phases);
        fine := fine && ok;
      }
      var deletePlan := DeletePlan(working);
      ops := deletePlan;
      var ok;
      ok, working, ds, changed, phases := Phase(services, ProvisionCall, deletePlan,
        Diagnostic(DestroyPhaseFailed, "runtime.destroy.provisioning", Error), working, ds, changed,
        start, DestroyFailure, [], phases);
      TallyDecides(services, start, DestroyFailure, [], phases, working, ds, changed);
      NoErrorsYet();
      assert [] + AllDiagnostics(phases) == AllDiagnostics(phases);
      snapshot := working;
      return ApplyResult(fine && ok && !HasError(ds), snapshot, ds, changed), ops, phases;
    }

    method DeletePlan(s: RuntimeSnapshot) returns (ops: seq<PlannedOp>)
      ensures TearsDown(ops, s.entries)
    {
      ops := BuildPlan(map[], EntriesOf(s.entries, Provisioning), map[]);
      ghost var order, deletions :|
        PlansDomain(ops, order, deletions, map[], EntriesOf(s.entries, Provisioning), map[])
        && WellOrdered(order, deletions, map[], EntriesOf(s.entries, Provisioning));
      DistinctLength(order, {});
    }
  }

  lemma NothingAsked(
    services: Services, start: RuntimeSnapshot, failureOf: CallSite -> Diagnostic, sofar: seq<Diagnostic>)
    ensures Tallies(services, start, failureOf, sofar, [], start, sofar, [])
    ensures CallsOf([]) == [] && AllFine([])
  {
  }
}
