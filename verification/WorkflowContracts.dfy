/**
  The contract checker for workflow results: what an accepted workflow looks like, and the loops that
  collect diagnostics, proved to stay silent exactly on accepted snapshots.
 */
module WorkflowContracts {
  import opened Wrappers
  import opened RuntimeModels

  // ------------------------------------------------------------- step results

  datatype StepRule =
    | NegativeAttempts | OutcomeBeforeCompletion | PendingWithAttempts | RunningWithoutAttempt
    | CompletedWithoutOutcome | OutcomeNotAllowed | AttemptsNotFixed | AttemptsExceeded

  /** A step state that the shared step-result rules have no objection to. */
  predicate StepConforms(contract: StepContract, st: StepState) {
    && st.attempts >= 0
    && (!st.lifecycle.StepCompleted? ==> st.outcome.None?)
    && (st.lifecycle.StepPending? ==> st.attempts == 0)
    && (st.lifecycle.StepRunning? && contract.stateObservable ==> st.attempts >= 1)
    && (st.lifecycle.StepCompleted? && contract.stateObservable ==>
          st.outcome.Some? && st.outcome.value in contract.observableOutcomes)
    && (contract.fixedAttempts.Some? ==>
          if st.lifecycle.StepCompleted? then st.attempts == contract.fixedAttempts.value
          else st.attempts <= contract.fixedAttempts.value)
  }

  /** Each rule is reported exactly when it is broken. */
  predicate ReportsStepRules(errors: seq<StepRule>, contract: StepContract, st: StepState) {
    && (NegativeAttempts in errors <==> st.attempts < 0)
    && (OutcomeBeforeCompletion in errors <==> !st.lifecycle.StepCompleted? && st.outcome.Some?)
    && (PendingWithAttempts in errors <==> st.lifecycle.StepPending? && st.attempts != 0)
    && (RunningWithoutAttempt in errors <==>
        st.lifecycle.StepRunning? && contract.stateObservable && st.attempts < 1)
    && (CompletedWithoutOutcome in errors <==>
        st.lifecycle.StepCompleted? && contract.stateObservable && st.outcome.None?)
    && (OutcomeNotAllowed in errors <==>
        && st.lifecycle.StepCompleted? && contract.stateObservable
        && st.outcome.Some? && st.outcome.value !in contract.observableOutcomes)
    && (AttemptsNotFixed in errors <==>
        st.lifecycle.StepCompleted? && contract.fixedAttempts.Some? && st.attempts != contract.fixedAttempts.value)
    && (AttemptsExceeded in errors <==>
        !st.lifecycle.StepCompleted? && contract.fixedAttempts.Some? && contract.fixedAttempts.value < st.attempts)
  }

  method StepViolations(contract: StepContract, st: StepState) returns (errors: seq<StepRule>)
    ensures errors == [] <==> StepConforms(contract, st)
    ensures ReportsStepRules(errors, contract, st)
  {
    errors := [];
    if st.attempts < 0 {
      errors := errors + [NegativeAttempts];
    }
    if !st.lifecycle.StepCompleted? && st.outcome.Some? {
      errors := errors + [OutcomeBeforeCompletion];
    }
    if st.lifecycle.StepPending? && st.attempts != 0 {
      errors := errors + [PendingWithAttempts];
    }
    if st.lifecycle.StepRunning? && contract.stateObservable && st.attempts < 1 {
      errors := errors + [RunningWithoutAttempt];
    }
    if st.lifecycle.StepCompleted? && contract.stateObservable {
      if st.outcome.None? {
        errors := errors + [CompletedWithoutOutcome];
      } else if st.outcome.value !in contract.observableOutcomes {
        errors := errors + [OutcomeNotAllowed];
      }
    }
    if st.lifecycle.StepCompleted? && contract.fixedAttempts.Some? {
      if st.attempts != contract.fixedAttempts.value {
        errors := errors + [AttemptsNotFixed];
      }
    } else if contract.fixedAttempts.Some? && st.attempts > contract.fixedAttempts.value {
      errors := errors + [AttemptsExceeded];
    }
  }

  // ------------------------------------------------------------------ history

  predicate Monotone(stamps: seq<Stamp>) {
    && (forall i :: 0 <= i < |stamps| ==> stamps[i].instant.Some?)
    && (forall i, j :: 0 <= i < j < |stamps| ==> stamps[i].NotAfter(stamps[j]))
  }

  function Stamps(history: seq<WorkflowEvent>): seq<Stamp> {
    seq(|history|, i requires 0 <= i < |history| => history[i].timestamp)
  }

  /** One pass over a history, keeping the previous timestamp; an unreadable timestamp is reported and skipped. */
  method MonotoneDiagnostics(stamps: seq<Stamp>, address: string) returns (ds: seq<Diagnostic>)
    ensures ds == [] <==> Monotone(stamps)
    ensures forall d :: d in ds ==> d.IsError()
  {
    ds := [];
    var previous: Option<int> := None;
    for k := 0 to |stamps|
      invariant forall d :: d in ds ==> d.IsError()
      invariant ds == [] ==> Monotone(stamps[..k])
      invariant ds == [] ==> (if k == 0 then previous == None else previous == stamps[k - 1].instant)
      invariant ds != [] ==> !Monotone(stamps)
      invariant previous.Some? ==> exists i :: 0 <= i < k && stamps[i].instant == previous
    {
      var current := stamps[k].instant;
      if current.None? {
        ds := ds + [Objection(address)];
        continue;
      }
      if previous.Some? && current.value < previous.value {
        ds := ds + [Objection(address)];
        var i :| 0 <= i < k && stamps[i].instant == previous;
        assert !stamps[i].NotAfter(stamps[k]);
      }
      previous := current;
      assert stamps[..k + 1] == stamps[..k] + [stamps[k]];
    }
    assert stamps[..|stamps|] == stamps;
  }

  /** An event that the execution contract allows. */
  predicate EventConforms(xc: WorkflowExecutionContract, e: WorkflowEvent) {
    && (e.stepName.Some? && e.stepName.value != "" ==> e.stepName.value in xc.steps)
    && (e.eventType.SwitchCaseSelected? && e.stepName.Some? ==>
          e.stepName.value in xc.stepTypes && xc.stepTypes[e.stepName.value] == SwitchStep)
    && (e.eventType.CallStarted? || e.eventType.CallCompleted? ==>
          && e.stepName.Some? && e.stepName.value in xc.stepTypes && xc.stepTypes[e.stepName.value] == CallStep
          && (e.stepName.value in xc.callSteps && xc.callSteps[e.stepName.value] != "" ==>
                NamesWorkflow(e.details, xc.callSteps[e.stepName.value])))
    && (e.eventType.BranchConverged? ==> e.joinStep.Some? && e.joinStep.value in xc.joinOwners)
    && (e.eventType.CompensationRegistered? ==> e.stepName.Some? && e.stepName.value in xc.compensationTargets)
    && (IsCompensationWorkflow(e.eventType) ==>
          && e.stepName.Some? && e.stepName.value in xc.compensationTargets
          && NamesWorkflow(e.details, xc.compensationTargets[e.stepName.value]))
  }

  predicate IsCompensationWorkflow(t: WorkflowEventType) {
    t.CompensationWorkflowStarted? || t.CompensationWorkflowCompleted? || t.CompensationWorkflowFailed?
  }

  /** The event either leaves the workflow address out or names the expected one. */
  predicate NamesWorkflow(details: EventDetails, expected: string) {
    details.workflowAddress == "" || details.workflowAddress == expected
  }

  function TerminalEventOf(status: WorkflowStatus): Option<WorkflowEventType> {
    match status
    case Succeeded => Some(WorkflowCompleted)
    case Failed => Some(WorkflowFailed)
    case Cancelled => Some(WorkflowCancelled)
    case TimedOut => Some(WorkflowTimedOut)
    case _ => None
  }

  /** The history records the terminal status, and every compensation event comes after its last record. */
  predicate TerminalRecorded(status: WorkflowStatus, history: seq<WorkflowEvent>) {
    var expected := TerminalEventOf(status);
    expected.Some? ==>
      && (exists i :: 0 <= i < |history| && history[i].eventType == expected.value)
      && (forall i, j | 0 <= i < |history| && 0 <= j < |history| ::
            history[i].eventType == expected.value && history[j].eventType.IsCompensation() ==> i < j)
  }

  predicate IsLastCompensation(history: seq<WorkflowEvent>, j: int) {
    && 0 <= j < |history| && history[j].eventType.IsCompensation()
    && forall k :: j < k < |history| ==> !history[k].eventType.IsCompensation()
  }

  predicate CompensationRecorded(status: CompensationStatus, history: seq<WorkflowEvent>) {
    && (status.NotRequired? ==> forall e :: e in history ==> !e.eventType.IsCompensation())
    && (status.CompensationRunning? ==> exists e :: e in history && e.eventType.CompensationStarted?)
    && (status.CompensationSucceeded? ==>
          forall j | 0 <= j < |history| :: IsLastCompensation(history, j) ==>
              history[j].eventType.CompensationCompleted?)
    && (status.CompensationFailed? ==>
          forall j | 0 <= j < |history| :: IsLastCompensation(history, j) ==>
              history[j].eventType.CompensationFailedEvent?)
  }

  /** What a non-empty history must say about the state it leads to. */
  predicate HistoryConforms(xc: WorkflowExecutionContract, st: WorkflowState, history: seq<WorkflowEvent>) {
    history != [] ==>
      && history[0].eventType.WorkflowStarted?
      && (forall e :: e in history ==> EventConforms(xc, e))
      && TerminalRecorded(st.status, history)
      && (st.status.Running? ==> !history[|history| - 1].eventType.IsTerminal())
      && CompensationRecorded(st.compensation, history)
  }

  // ------------------------------------------------------------- whole result

  predicate OwesCompensation(xc: WorkflowExecutionContract, st: WorkflowState, step: string) {
    && step in xc.compensationTargets && xc.compensationTargets[step] != ""
    && step in st.steps && st.steps[step].HasSucceeded()
  }

  predicate Triggers(xc: WorkflowExecutionContract, status: WorkflowStatus) {
    xc.compensationMode.Automatic? && status in xc.compensationTriggers
  }

  predicate CompensationDue(xc: WorkflowExecutionContract, st: WorkflowState) {
    Triggers(xc, st.status) && exists step :: step in xc.compensationTargets && OwesCompensation(xc, st, step)
  }

  predicate StepsConform(rc: WorkflowResultContract, xc: WorkflowExecutionContract, steps: map<string, StepState>) {
    && steps.Keys == rc.observableSteps.Keys
    && (forall n :: n in steps ==> StepConforms(rc.observableSteps[n], steps[n]))
    && (forall n :: n in steps ==> n in xc.steps && StepInDomain(xc.steps[n], steps[n]))
  }

  predicate StepInDomain(contract: StepContract, st: StepState) {
    st.lifecycle.StepCompleted? && st.outcome.Some? && contract.stateObservable ==>
      st.outcome.value in contract.observableOutcomes
  }

  predicate StateConforms(rc: WorkflowResultContract, xc: WorkflowExecutionContract, st: WorkflowState) {
    && st.Valid()
    && st.schemaVersion == rc.schemaVersion && st.schemaVersion == xc.schemaVersion
    && (CompensationDue(xc, st) ==> !st.compensation.NotRequired?)
    && StepsConform(rc, xc, st.steps)
  }

  predicate RunConforms(
    rc: WorkflowResultContract, xc: WorkflowExecutionContract, st: WorkflowState, history: seq<WorkflowEvent>) {
    StateConforms(rc, xc, st) && Monotone(Stamps(history)) && HistoryConforms(xc, st, history)
  }

  /** The entry at the address is a workflow with two well-formed compiled contracts. */
  predicate HasWorkflowContracts(s: RuntimeSnapshot, address: string) {
    && address in s.entries && s.entries[address].IsWorkflow()
    && var payload := s.entries[address].payload;
    && payload.WorkflowPayload? && payload.result.Some? && payload.execution.Some?
    && payload.result.value.Valid() && payload.execution.value.Valid()
  }

  function ExecutionContractAt(s: RuntimeSnapshot, address: string): WorkflowExecutionContract
    requires HasWorkflowContracts(s, address)
  {
    s.entries[address].payload.execution.value
  }

  predicate WorkflowAccepted(s: RuntimeSnapshot, address: string) {
    && HasWorkflowContracts(s, address)
    && address in s.orchestrationResults
    && RunConforms(s.entries[address].payload.result.value, ExecutionContractAt(s, address),
                   s.orchestrationResults[address], HistoryAt(s.orchestrationHistory, address))
  }

  predicate WorkflowsAccepted(s: RuntimeSnapshot) {
    forall a :: a in s.orchestrationResults ==> WorkflowAccepted(s, a)
  }

  // ------------------------------------------------------ the checker's loops

  function Objection(address: string): Diagnostic {
    FailureDiagnostic(BackendContractInvalid, address)
  }

  function Objections(count: nat, address: string): (ds: seq<Diagnostic>)
    ensures |ds| == count && forall d :: d in ds ==> d.IsError()
  {
    if count == 0 then [] else Objections(count - 1, address) + [Objection(address)]
  }

  method StepDiagnostics(
    rc: WorkflowResultContract, xc: WorkflowExecutionContract, steps: map<string, StepState>, address: string)
    returns (ds: seq<Diagnostic>)
    ensures ds == [] <==> StepsConform(rc, xc, steps)
    ensures forall d :: d in ds ==> d.IsError()
  {
    hide ReportsStepRules;
    ds := [];
    var unexpected := steps.Keys - rc.observableSteps.Keys;
    if unexpected != {} {
      ds := ds + [Objection(address)];
    }
    var missing := rc.observableSteps.Keys - steps.Keys;
    if missing != {} {
      ds := ds + [Objection(address)];
    }
    assert ds == [] <==> steps.Keys == rc.observableSteps.Keys by {
      if unexpected == {} && missing == {} {
        forall n ensures n in steps.Keys <==> n in rc.observableSteps.Keys {
          assert n !in unexpected && n !in missing;
        }
      }
    }

    var todo := steps.Keys;
    while todo != {}
      invariant todo <= steps.Keys
      invariant forall d :: d in ds ==> d.IsError()
      invariant ds == [] <==>
        && steps.Keys == rc.observableSteps.Keys
        && (forall n :: n in steps.Keys - todo ==>
            n in rc.observableSteps && StepConforms(rc.observableSteps[n], steps[n]))
    {
      var n :| n in todo;
      todo := todo - {n};
      if n in rc.observableSteps {
        var violations := StepViolations(rc.observableSteps[n], steps[n]);
        ds := ds + Objections(|violations|, address + "." + n);
      }
    }

    var rest := steps.Keys;
    while rest != {}
      invariant rest <= steps.Keys
      invariant forall d :: d in ds ==> d.IsError()
      invariant ds == [] <==>
        && steps.Keys == rc.observableSteps.Keys
        && (forall n :: n in steps ==> n in rc.observableSteps && StepConforms(rc.observableSteps[n], steps[n]))
        && (forall n :: n in steps.Keys - rest ==> n in xc.steps && StepInDomain(xc.steps[n], steps[n]))
    {
      var n :| n in rest;
      rest := rest - {n};
      if n !in xc.steps {
        ds := ds + [Objection(address)];
        continue;
      }
      var st, contract := steps[n], xc.steps[n];
      if st.lifecycle.StepCompleted? {
        if st.outcome.Some? && contract.stateObservable && st.outcome.value !in contract.observableOutcomes {
          ds := ds + [Objection(address + "." + n)];
        }
      }
    }
  }

  method EventDiagnostics(xc: WorkflowExecutionContract, e: WorkflowEvent, address: string)
    returns (ds: seq<Diagnostic>)
    ensures ds == [] <==> EventConforms(xc, e)
    ensures forall d :: d in ds ==> d.IsError()
  {
    ds := [];
    if e.stepName.Some? && e.stepName.value != "" && e.stepName.value !in xc.steps {
      ds := ds + [Objection(address)];
    }
    if e.eventType.SwitchCaseSelected? && e.stepName.Some? &&
       !(e.stepName.value in xc.stepTypes && xc.stepTypes[e.stepName.value] == SwitchStep) {
      ds := ds + [Objection(address)];
    }
    if e.eventType.CallStarted? || e.eventType.CallCompleted? {
      if e.stepName.None? || e.stepName.value !in xc.stepTypes || xc.stepTypes[e.stepName.value] != CallStep {
        ds := ds + [Objection(address)];
      } else if e.stepName.value in xc.callSteps && xc.callSteps[e.stepName.value] != "" {
        var actual := e.details.workflowAddress;
        if actual != "" && actual != xc.callSteps[e.stepName.value] {
          ds := ds + [Objection(address)];
        }
      }
    }
    if e.eventType.BranchConverged? {
      if e.joinStep.None? || e.joinStep.value !in xc.joinOwners {
        ds := ds + [Objection(address)];
      }
    }
    if e.eventType.CompensationRegistered? {
      if e.stepName.None? || e.stepName.value !in xc.compensationTargets {
        ds := ds + [Objection(address)];
      }
    }
    if e.eventType.CompensationWorkflowStarted? || e.eventType.CompensationWorkflowCompleted?
        || e.eventType.CompensationWorkflowFailed? {
      if e.stepName.None? || e.stepName.value !in xc.compensationTargets {
        ds := ds + [Objection(address)];
      } else {
        var actual := e.details.workflowAddress;
        if actual != "" && actual != xc.compensationTargets[e.stepName.value] {
          ds := ds + [Objection(address)];
        }
      }
    }
  }

  /** The two ways in which the checker selects events. */
  datatype Selection = Exactly(t: WorkflowEventType) | Compensations
  {
    predicate Has(e: WorkflowEvent) {
      match this
      case Exactly(t) => e.eventType == t
      case Compensations => e.eventType.IsCompensation()
    }
  }

  /** The positions of the selected events, in order. */
  predicate Indexes(history: seq<WorkflowEvent>, p: Selection, at: seq<int>) {
    && (forall i, j :: 0 <= i < j < |at| ==> at[i] < at[j])
    && (forall i :: 0 <= i < |at| ==> 0 <= at[i] < |history| && p.Has(history[at[i]]))
    && (forall k :: 0 <= k < |history| && p.Has(history[k]) ==> k in at)
  }

  method CollectIndexes(history: seq<WorkflowEvent>, p: Selection) returns (at: seq<int>)
    ensures Indexes(history, p, at)
  {
    at := [];
    for k := 0 to |history|
      invariant Indexes(history[..k], p, at)
    {
      assert history[..k + 1] == history[..k] + [history[k]];
      if p.Has(history[k]) {
        var was := at;
        at := at + [k];
        forall m | 0 <= m < k + 1 && p.Has(history[..k + 1][m]) ensures m in at {
          if m < k {
            assert p.Has(history[..k][m]);
            assert m in was;
          } else {
            assert at[|at| - 1] == m;
          }
        }
      }
    }
    assert history[..|history|] == history;
  }

  method TerminalDiagnostics(st: WorkflowState, history: seq<WorkflowEvent>, address: string)
    returns (ds: seq<Diagnostic>)
    ensures ds == [] <==> TerminalRecorded(st.status, history)
    ensures forall d :: d in ds ==> d.IsError()
  {
    var expected := TerminalEventOf(st.status);
    if expected.None? {
      return [];
    }
    var terminal := CollectIndexes(history, Exactly(expected.value));
    var compensation := CollectIndexes(history, Compensations);
    if terminal == [] {
      ds := [Objection(address)];
    } else if compensation != [] && terminal[|terminal| - 1] > compensation[0] {
      ds := [Objection(address)];
    } else {
      ds := [];
    }
    IndexBounds(history, Exactly(expected.value), terminal);
    IndexBounds(history, Compensations, compensation);
    TerminalByIndexes(expected.value, history, terminal, compensation);
  }

  lemma IndexBounds(history: seq<WorkflowEvent>, p: Selection, at: seq<int>)
    requires Indexes(history, p, at)
    ensures forall k :: 0 <= k < |history| && p.Has(history[k]) ==> at != [] && at[0] <= k <= at[|at| - 1]
    ensures at != [] ==> 0 <= at[0] <= at[|at| - 1] < |history| && p.Has(history[at[0]]) && p.Has(history[at[|at| - 1]])
  {
  }

  /** The last terminal record and the first compensation record decide the order of all of them. */
  lemma TerminalByIndexes(
    expected: WorkflowEventType, history: seq<WorkflowEvent>, terminal: seq<int>, compensation: seq<int>)
    requires !expected.IsCompensation()
    requires terminal != [] ==>
        0 <= terminal[|terminal| - 1] < |history| && history[terminal[|terminal| - 1]].eventType == expected
    requires compensation != [] ==>
        0 <= compensation[0] < |history| && history[compensation[0]].eventType.IsCompensation()
    requires forall k :: 0 <= k < |history| && history[k].eventType == expected ==>
        terminal != [] && k <= terminal[|terminal| - 1]
    requires forall k :: 0 <= k < |history| && history[k].eventType.IsCompensation() ==>
        compensation != [] && compensation[0] <= k
    ensures (terminal != [] && (compensation == [] || terminal[|terminal| - 1] <= compensation[0])) <==>
            && (exists i :: 0 <= i < |history| && history[i].eventType == expected)
            && (forall i, j | 0 <= i < |history| && 0 <= j < |history| ::
                  history[i].eventType == expected && history[j].eventType.IsCompensation() ==> i < j)
  {
  }

  method CompensationDiagnostics(st: WorkflowState, history: seq<WorkflowEvent>, address: string)
    returns (ds: seq<Diagnostic>)
    ensures ds == [] <==> CompensationRecorded(st.compensation, history)
    ensures forall d :: d in ds ==> d.IsError()
  {
    ds := [];
    var at := CollectIndexes(history, Compensations);
    if at != [] {
      assert IsLastCompensation(history, at[|at| - 1]) by {
        forall k | at[|at| - 1] < k < |history| ensures !history[k].eventType.IsCompensation() {
          assert k !in at;
        }
      }
      assert forall j :: IsLastCompensation(history, j) ==> j == at[|at| - 1] by {
        forall j | IsLastCompensation(history, j) ensures j == at[|at| - 1] {
          assert j in at;
        }
      }
      assert history[at[0]] in history;
    } else {
      assert forall j :: !IsLastCompensation(history, j);
      assert forall e :: e in history ==> !e.eventType.IsCompensation();
    }
    if st.compensation.NotRequired? && at != [] {
      ds := ds + [Objection(address)];
    }
    if st.compensation.CompensationRunning?
        && !(exists k :: 0 <= k < |history| && history[k].eventType.CompensationStarted?) {
      ds := ds + [Objection(address)];
    }
    if st.compensation.CompensationSucceeded? && at != [] && !history[at[|at| - 1]].eventType.CompensationCompleted? {
      ds := ds + [Objection(address)];
    }
    if st.compensation.CompensationFailed? && at != [] && !history[at[|at| - 1]].eventType.CompensationFailedEvent? {
      ds := ds + [Objection(address)];
    }
  }

  method HistoryDiagnostics(
    xc: WorkflowExecutionContract, st: WorkflowState, history: seq<WorkflowEvent>, address: string)
    returns (ds: seq<Diagnostic>)
    ensures ds == [] <==> HistoryConforms(xc, st, history)
    ensures forall d :: d in ds ==> d.IsError()
  {
    ds := [];
    if history == [] {
      return;
    }
    if !history[0].eventType.WorkflowStarted? {
      ds := ds + [Objection(address)];
    }
    for k := 0 to |history|
      invariant forall d :: d in ds ==> d.IsError()
      invariant ds == [] <==> history[0].eventType.WorkflowStarted? && forall i :: 0 <= i < k ==>
          EventConforms(xc, history[i])
    {
      var more := EventDiagnostics(xc, history[k], address);
      ds := ds + more;
    }
    var terminal := TerminalDiagnostics(st, history, address);
    ds := ds + terminal;
    if st.status.Running? && history[|history| - 1].eventType.IsTerminal() {
      ds := ds + [Objection(address)];
    }
    var compensation := CompensationDiagnostics(st, history, address);
    ds := ds + compensation;
  }

  /** One workflow result, once its two contracts are known to be readable. */
  method RunDiagnostics(
    rc: WorkflowResultContract, xc: WorkflowExecutionContract, st: WorkflowState, history: seq<WorkflowEvent>,
    address: string)
    returns (ds: seq<Diagnostic>)
    ensures ds == [] <==> RunConforms(rc, xc, st, history)
    ensures forall d :: d in ds ==> d.IsError()
  {
    if !st.Valid() {
      return [Objection(address)];
    }
    ds := MonotoneDiagnostics(Stamps(history), address);
    if st.schemaVersion != rc.schemaVersion {
      ds := ds + [Objection(address)];
    }
    if st.schemaVersion != xc.schemaVersion {
      ds := ds + [Objection(address)];
    }
    var owed := set step | step in xc.compensationTargets.Keys && OwesCompensation(xc, st, step);
    assert owed != {} <==> exists step :: step in xc.compensationTargets && OwesCompensation(xc, st, step) by {
      if step :| step in xc.compensationTargets && OwesCompensation(xc, st, step) {
        assert step in owed;
      }
      if owed != {} {
        var step :| step in owed;
      }
    }
    if !st.status.IsTerminal() && !st.compensation.NotRequired? {
      ds := ds + [Objection(address)];
    }
    if xc.compensationMode.Automatic? && st.status in xc.compensationTriggers && owed != {}
        && st.compensation.NotRequired? {
      ds := ds + [Objection(address)];
    }
    var steps := StepDiagnostics(rc, xc, st.steps, address);
    ds := ds + steps;
    var events := HistoryDiagnostics(xc, st, history, address);
    ds := ds + events;
  }

  method AddressDiagnostics(s: RuntimeSnapshot, a: string) returns (ds: seq<Diagnostic>)
    requires a in s.orchestrationResults
    ensures ds == [] <==> WorkflowAccepted(s, a)
    ensures forall d :: d in ds ==> d.IsError()
  {
    if a !in s.entries || !s.entries[a].IsWorkflow() {
      return [Objection(a)];
    }
    var payload := s.entries[a].payload;
    if !payload.WorkflowPayload? || payload.result.None? {
      return [Objection(a)];
    }
    if payload.execution.None? {
      return [Objection(a)];
    }
    if !payload.result.value.Valid() {
      return [Objection(a)];
    }
    if !payload.execution.value.Valid() {
      return [Objection(a)];
    }
    ds := RunDiagnostics(payload.result.value, payload.execution.value, s.orchestrationResults[a],
                         HistoryAt(s.orchestrationHistory, a), a);
  }

  /** The whole checker: silent exactly when every reported workflow is accepted. */
  method WorkflowDiagnostics(s: RuntimeSnapshot) returns (ds: seq<Diagnostic>)
    ensures ds == [] <==> WorkflowsAccepted(s)
    ensures forall d :: d in ds ==> d.IsError()
  {
    ds := [];
    var todo := s.orchestrationResults.Keys;
    while todo != {}
      invariant todo <= s.orchestrationResults.Keys
      invariant forall d :: d in ds ==> d.IsError()
      invariant ds == [] <==> forall a :: a in s.orchestrationResults && a !in todo ==> WorkflowAccepted(s, a)
    {
      var a :| a in todo;
      var more := AddressDiagnostics(s, a);
      ds := ds + more;
      todo := todo - {a};
    }
  }
}
