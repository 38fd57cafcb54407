/** What applying and destroying promise: accepted snapshots, rollback in reverse order, and cleared domains. */
module ManagerSafety {
  import opened Wrappers
  import opened RuntimeModels
  import opened BackendBoundary
  import opened Plans
  import opened Planner
  import opened PlanConvergence
  import opened StubServices
  import opened StubContracts
  import opened RuntimeManager

  lemma CallAccepted(outcome: BackendOutcome, s: RuntimeSnapshot)
    requires Accepted(s)
    ensures Accepted(Call(outcome, s).1)
  {
  }

  /** Whatever the services do, an accepted snapshot is replaced by an accepted one. */
  lemma ApplyAdoptsAccepted(services: Services, plan: ExecutionPlan, s: RuntimeSnapshot)
    requires Accepted(s)
    ensures Accepted(ApplyTrace(services, plan, s).snapshot)
  {
  }

  lemma DestroyAdoptsAccepted(target: Target, services: Services, s: RuntimeSnapshot, ops: seq<PlannedOp>)
    requires Accepted(s)
    ensures var stopped := StoppedAll(target, services, s);
            Accepted(stopped) && Accepted(Call(services.provision(ops, stopped), stopped).1)
  {
  }

  // ------------------------------------------------------------- rollback order

  function StopFor(call: CallSite): CallSite {
    if call.StartEvaluator? then StopEvaluator else if call.StartOrchestrator? then StopOrchestrator else call
  }

  /** The services that were asked to start. */
  function StartsOf(calls: seq<CallSite>): seq<CallSite> {
    if calls == [] then []
    else
      var last := calls[|calls| - 1];
      StartsOf(calls[..|calls| - 1]) + (if last.StartEvaluator? || last.StartOrchestrator? then [last] else [])
  }

  function StopsOf(calls: seq<CallSite>): seq<CallSite> {
    if calls == [] then []
    else
      var last := calls[|calls| - 1];
      StopsOf(calls[..|calls| - 1]) + (if last.StopEvaluator? || last.StopOrchestrator? then [last] else [])
  }

  /** One stop for each start, in reverse. */
  predicate Undoes(stops: seq<CallSite>, starts: seq<CallSite>) {
    |stops| == |starts| && forall i :: 0 <= i < |starts| ==> stops[i] == StopFor(starts[|starts| - 1 - i])
  }

  lemma CallsAppend(calls: seq<CallSite>, call: CallSite)
    ensures StartsOf(calls + [call]) ==
        StartsOf(calls) + (if call.StartEvaluator? || call.StartOrchestrator? then [call] else [])
    ensures StopsOf(calls + [call]) ==
        StopsOf(calls) + (if call.StopEvaluator? || call.StopOrchestrator? then [call] else [])
  {
    assert (calls + [call])[..|calls|] == calls;
  }

  /**
    A plan that completes stops nothing. A plan that does not complete stops exactly the services it asked to
    start, in reverse order, whatever they answer.
   */
  lemma RollbackUndoesStarts(services: Services, plan: ExecutionPlan, s: RuntimeSnapshot)
    ensures var trace := ApplyTrace(services, plan, s);
            if trace.completed then StopsOf(trace.calls) == [] else Undoes(StopsOf(trace.calls), StartsOf(trace.calls))
  {
    hide Call, HasActionable, StartsOf, StopsOf, OrchestrationTrace;
    var p := [ProvisionCall];
    var q := p + [StartEvaluator];
    NothingYet();
    CallsAppend([], ProvisionCall);
    assert [] + p == p;
    CallsAppend(p, StartEvaluator);
    CallsAppend(q, StopEvaluator);
    assert StartsOf(q + [StopEvaluator]) == [StartEvaluator] && StopsOf(q + [StopEvaluator]) == [StopEvaluator];
    var s1 := Call(services.provision(plan.provisioning, s), s).1;
    var s2 := Call(services.startEvaluator(plan.evaluation, s1), s1).1;
    OrchestrationUndoes(services, plan, s1, p, false);
    OrchestrationUndoes(services, plan, s2, q, true);
  }

  lemma NothingYet()
    ensures StartsOf([]) == [] && StopsOf([]) == []
  {
  }

  lemma OrchestrationUndoes(
    services: Services, plan: ExecutionPlan, s: RuntimeSnapshot, calls: seq<CallSite>, startedEvaluator: bool)
    requires StopsOf(calls) == [] && StartsOf(calls) == if startedEvaluator then [StartEvaluator] else []
    ensures var trace := OrchestrationTrace(services, plan, s, calls, startedEvaluator);
            if trace.completed then StopsOf(trace.calls) == [] else Undoes(StopsOf(trace.calls), StartsOf(trace.calls))
  {
    hide Call, HasActionable, StartsOf, StopsOf;
    var asked := calls + [StartOrchestrator];
    var stopped := asked + [StopOrchestrator];
    CallsAppend(calls, StartOrchestrator);
    CallsAppend(asked, StopOrchestrator);
    CallsAppend(stopped, StopEvaluator);
    assert StopsOf(stopped) == [StopOrchestrator]
        && StopsOf(stopped + [StopEvaluator]) == [StopOrchestrator, StopEvaluator];
    assert StartsOf(stopped) == if startedEvaluator then [StartEvaluator, StartOrchestrator] else [StartOrchestrator];
  }

  // ------------------------------------------------------------ cleared domains

  /** Stopping succeeds, removes the service's own domain and leaves the rest. */
  ghost predicate StopsClear(services: Services) {
    && (forall s: RuntimeSnapshot :: Accepted(s) ==>
          var o := services.stopOrchestrator(s);
          o.Applies? && o.result.success && o.result.snapshot == WithoutOrchestration(s))
    && (forall s: RuntimeSnapshot :: Accepted(s) ==>
          var o := services.stopEvaluator(s);
          o.Applies? && o.result.success && o.result.snapshot == WithoutEvaluation(s))
  }

  lemma StopsPass(services: Services, s: RuntimeSnapshot)
    requires Accepted(s) && StopsClear(services)
    ensures Call(services.stopOrchestrator(s), s) == (true, WithoutOrchestration(s))
        && Accepted(WithoutOrchestration(s))
    ensures Call(services.stopEvaluator(s), s) == (true, WithoutEvaluation(s)) && Accepted(WithoutEvaluation(s))
  {
    hide Accepted, WithoutOrchestration, WithoutEvaluation;
    StopsKeepAccepted(s);
  }

  /**
    The adopted snapshot has lost everything of orchestration and evaluation, and is otherwise as the failed start
    left it.
   */
  predicate ClearedOf(failed: RuntimeSnapshot, adopted: RuntimeSnapshot) {
    && (forall a :: a in adopted.entries ==> a in failed.entries && adopted.entries[a] == failed.entries[a])
    && (forall a :: a in failed.entries ==>
          (a in adopted.entries <==> !failed.entries[a].domain.Orchestration? && !failed.entries[a].domain.Evaluation?))
    && adopted == failed.(entries := adopted.entries, orchestrationResults := map[], orchestrationHistory := map[],
                          evaluationResults := map[], evaluationHistory := map[])
  }

  lemma OrchestrationClears(services: Services, plan: ExecutionPlan, s: RuntimeSnapshot, calls: seq<CallSite>)
    requires Accepted(s) && StopsClear(services)
    requires HasActionable(plan.orchestration) && !Call(services.startOrchestrator(plan.orchestration, s), s).0
    ensures ClearedOf(Call(services.startOrchestrator(plan.orchestration, s), s).1,
        OrchestrationTrace(services, plan, s, calls, true).snapshot)
  {
    hide Accepted, HasActionable, StopsClear;
    CallAccepted(services.startOrchestrator(plan.orchestration, s), s);
    var failed := Call(services.startOrchestrator(plan.orchestration, s), s).1;
    StopsPass(services, failed);
    StopsPass(services, WithoutOrchestration(failed));
  }

  /**
    If the orchestrator fails to start after the evaluator was started in the same apply, then after rollback no
    orchestration or evaluation entry, result or history is left, from earlier applies neither, and every other
    entry is as the failed start left it.
   */
  lemma RollbackClears(services: Services, plan: ExecutionPlan, s: RuntimeSnapshot)
    requires Accepted(s) && StopsClear(services) && HasActionable(plan.evaluation) && HasActionable(plan.orchestration)
    requires Call(services.provision(plan.provisioning, s), s).0
    requires var provisioned := Call(services.provision(plan.provisioning, s), s).1;
             var (ok, evaluating) := Call(services.startEvaluator(plan.evaluation, provisioned), provisioned);
             ok && !Call(services.startOrchestrator(plan.orchestration, evaluating), evaluating).0
    ensures var provisioned := Call(services.provision(plan.provisioning, s), s).1;
            var evaluating := Call(services.startEvaluator(plan.evaluation, provisioned), provisioned).1;
            var failed := Call(services.startOrchestrator(plan.orchestration, evaluating), evaluating).1;
            ClearedOf(failed, ApplyTrace(services, plan, s).snapshot)
  {
    hide Accepted, HasActionable, StopsClear, ClearedOf;
    CallAccepted(services.provision(plan.provisioning, s), s);
    var provisioned := Call(services.provision(plan.provisioning, s), s).1;
    CallAccepted(services.startEvaluator(plan.evaluation, provisioned), provisioned);
    var evaluating := Call(services.startEvaluator(plan.evaluation, provisioned), provisioned).1;
    OrchestrationClears(services, plan, evaluating, [ProvisionCall] + [StartEvaluator]);
  }

  /** Nothing of orchestration or evaluation is there: no entry, no result, no history. */
  predicate NothingRuns(s: RuntimeSnapshot) {
    && (forall a :: a in s.entries ==> !s.entries[a].domain.Orchestration? && !s.entries[a].domain.Evaluation?)
    && s.orchestrationResults == map[] && s.orchestrationHistory == map[]
    && s.evaluationResults == map[] && s.evaluationHistory == map[]
  }

  function WithoutBoth(s: RuntimeSnapshot): RuntimeSnapshot {
    WithoutEvaluation(WithoutOrchestration(s))
  }

  lemma WithoutBothIff(s: RuntimeSnapshot)
    ensures WithoutBoth(s) == s <==> NothingRuns(s)
    ensures WithoutBoth(WithoutBoth(s)) == WithoutBoth(s)
  {
    var t := WithoutBoth(s);
    if NothingRuns(s) {
      assert t.entries == s.entries;
    }
    if t == s {
      assert forall a :: a in s.entries ==> a in t.entries;
    }
    assert WithoutBoth(t).entries == t.entries;
  }

  lemma ClearedIsWithoutBoth(failed: RuntimeSnapshot, adopted: RuntimeSnapshot)
    requires ClearedOf(failed, adopted)
    ensures adopted == WithoutBoth(failed)
  {
    assert adopted.entries == WithoutBoth(failed).entries;
  }

  /**
    Such a rollback restores the snapshot from before the apply exactly when nothing of orchestration or evaluation
    was there and the failed start left everything outside those domains as it was before the apply.
   */
  lemma RollbackRestoresIff(services: Services, plan: ExecutionPlan, s: RuntimeSnapshot)
    requires Accepted(s) && StopsClear(services) && HasActionable(plan.evaluation) && HasActionable(plan.orchestration)
    requires Call(services.provision(plan.provisioning, s), s).0
    requires var provisioned := Call(services.provision(plan.provisioning, s), s).1;
             var (ok, evaluating) := Call(services.startEvaluator(plan.evaluation, provisioned), provisioned);
             ok && !Call(services.startOrchestrator(plan.orchestration, evaluating), evaluating).0
    ensures var provisioned := Call(services.provision(plan.provisioning, s), s).1;
            var evaluating := Call(services.startEvaluator(plan.evaluation, provisioned), provisioned).1;
            var failed := Call(services.startOrchestrator(plan.orchestration, evaluating), evaluating).1;
            ApplyTrace(services, plan, s).snapshot == s <==> NothingRuns(s) && WithoutBoth(failed) == WithoutBoth(s)
  {
    hide Accepted, HasActionable, StopsClear, ClearedOf, WithoutBoth, NothingRuns, ApplyTrace, Call;
    var provisioned := Call(services.provision(plan.provisioning, s), s).1;
    var evaluating := Call(services.startEvaluator(plan.evaluation, provisioned), provisioned).1;
    var failed := Call(services.startOrchestrator(plan.orchestration, evaluating), evaluating).1;
    RollbackClears(services, plan, s);
    ClearedIsWithoutBoth(failed, ApplyTrace(services, plan, s).snapshot);
    WithoutBothIff(s);
    WithoutBothIff(failed);
  }

  /** Deleting in a plan means removing. */
  lemma {:induction false} DeletionsRemove(entries: map<string, SnapshotEntry>, ops: seq<PlannedOp>)
    requires forall op :: op in ops ==> op.action.Delete?
    ensures Executed(entries, Provisioning, ops) == entries - Touched(ops)
  {
    if ops != [] {
      var front, last := ops[..|ops| - 1], ops[|ops| - 1];
      assert ops == front + [last];
      DeletionsRemove(entries, front);
      assert Touched(ops) == Touched(front) + {last.address} by {
        assert forall i :: 0 <= i < |front| ==> ops[i] == front[i];
        assert ops[|front|] == last;
      }
    } else {
      assert Touched(ops) == {};
    }
  }

  lemma NoSetUp(ops: seq<PlannedOp>, order: seq<string>, deletions: seq<string>, deleted: Entries)
    requires PlansDomain(ops, order, deletions, map[], deleted, map[]) && order == []
    ensures |ops| == |deletions| && forall i :: 0 <= i < |ops| ==>
        ops[i].address == deletions[i] && ops[i].action.Delete?
    ensures NoDuplicates(deletions) && forall a :: a in deletions <==> a in deleted
  {
    forall i | 0 <= i < |ops| ensures ops[i].address == deletions[i] && ops[i].action.Delete? {
      assert ops[|order| + i] == OpFor(Delete, deletions[i], AsResources(deleted)[deletions[i]]);
    }
  }

  lemma TeardownTouchesProvisioning(ops: seq<PlannedOp>, entries: Entries)
    requires TearsDown(ops, entries)
    ensures (forall op :: op in ops ==> op.action.Delete?) && DistinctAddresses(ops)
    ensures Touched(ops) == EntriesOf(entries, Provisioning).Keys
  {
    hide PlansDomain, WellOrdered, NoDuplicates, DistinctAddresses, Touched, EntriesOf;
    var provisioning := EntriesOf(entries, Provisioning);
    var deletions :| PlansDomain(ops, [], deletions, map[], provisioning, map[])
        && WellOrdered([], deletions, map[], provisioning);
    NoSetUp(ops, [], deletions, provisioning);
    PlanAddresses(ops, [], deletions, map[], EntriesOf(entries, Provisioning));
  }

  /**
    On a full target whose services are the reference ones, destroying from an accepted snapshot leaves nothing
    but the participant domain.
   */
  lemma DestroyLeavesParticipants(target: Target, services: Services, s: RuntimeSnapshot, ops: seq<PlannedOp>)
    requires Accepted(s) && StopsClear(services) && target.hasOrchestrator && target.hasEvaluator
    requires var stopped := StoppedAll(target, services, s);
             && TearsDown(ops, stopped.entries)
             && services.provision(ops, stopped) ==
                 Applies(ApplyResult(true, Provisioned(stopped, ops), [], Changed(ops)))
    ensures var stopped := StoppedAll(target, services, s);
            var (ok, last) := Call(services.provision(ops, stopped), stopped);
            && ok && Accepted(last)
            && (forall a :: a in last.entries <==> a in s.entries && s.entries[a].domain.Participant?)
            && (forall a :: a in last.entries ==> last.entries[a] == s.entries[a])
            && last == s.(entries := last.entries, orchestrationResults := map[], orchestrationHistory := map[],
                          evaluationResults := map[], evaluationHistory := map[])
  {
    hide Accepted, StopsClear, TearsDown;
    StopsPass(services, s);
    StopsPass(services, WithoutOrchestration(s));
    var stopped := StoppedAll(target, services, s);
    assert stopped == WithoutEvaluation(WithoutOrchestration(s));
    TeardownTouchesProvisioning(ops, stopped.entries);
    DeletionsRemove(stopped.entries, ops);
    ProvisionerMeetsContractsIff(stopped, ops);
  }

  /**
    Destroying with stops that clear their domains and the reference provisioner: the three calls succeed, so the
    whole is reported as a success exactly if neither stop brings an error along, and the phases end on what is left.
   */
  lemma DestroySucceedsIff(target: Target, services: Services, s: RuntimeSnapshot, phases: seq<PhaseReport>)
    requires Accepted(s) && StopsClear(services) && target.hasOrchestrator && target.hasEvaluator
    requires IsAccount(services, s, phases, DestroyFailure)
    requires |phases| == 3 && CallsOf(phases) == [StopOrchestrator, StopEvaluator, ProvisionCall]
    requires TearsDown(phases[2].ops, phases[2].before.entries)
    requires forall ops, t: RuntimeSnapshot ::
      services.provision(ops, t) == Applies(ApplyResult(true, Provisioned(t, ops), [], Changed(ops)))
    ensures phases[0].answer == services.stopOrchestrator(s)
    ensures phases[1].answer == services.stopEvaluator(WithoutOrchestration(s))
    ensures AllFine(phases) <==> forall i :: 0 <= i < 2 ==> !HasError(phases[i].result.diagnostics)
    ensures var last := SnapshotAfter(s, phases);
            && Accepted(last)
            && (forall a :: a in last.entries <==> a in s.entries && s.entries[a].domain.Participant?)
            && (forall a :: a in last.entries ==> last.entries[a] == s.entries[a])
            && last == s.(entries := last.entries, orchestrationResults := map[], orchestrationHistory := map[],
                          evaluationResults := map[], evaluationHistory := map[])
  {
    hide Accepted, StopsClear, TearsDown, HasError, IsAccount, PhaseReport.IsScreened, Continues, Executed;
    assert CallsOf(phases)[0] == phases[0].call && CallsOf(phases)[1] == phases[1].call
        && CallsOf(phases)[2] == phases[2].call;
    var s1, s2, ops := WithoutOrchestration(s), WithoutEvaluation(WithoutOrchestration(s)), phases[2].ops;
    AccountAt(services, s, phases, DestroyFailure, 0);
    StopsPass(services, s);
    AccountAt(services, s, phases, DestroyFailure, 1);
    StopsPass(services, s1);
    AccountAt(services, s, phases, DestroyFailure, 2);
    DestroyLeavesParticipants(target, services, s, ops);
    NoErrorsYet();
    assert AllFine(phases) <==> phases[0].Fine() && phases[1].Fine() && phases[2].Fine();
  }

  /** A phase of an account gives the result of a call: the answer itself if it passes. */
  lemma AccountAt(
    services: Services, start: RuntimeSnapshot, phases: seq<PhaseReport>, failureOf: CallSite -> Diagnostic, i: nat)
    requires IsAccount(services, start, phases, failureOf) && i < |phases|
    ensures var ph := phases[i];
            && ph.before == SnapshotAfter(start, phases[..i])
            && ph.answer == Answer(services, ph.call, ph.ops, ph.before)
            && Call(ph.answer, ph.before) == (ph.result.success, ph.result.snapshot)
            && (Passes(ph.answer) ==> ph.result == ph.answer.result)
            && (ph.result.success ==> Passes(ph.answer))
  {
    assert Continues(services, start, phases[..i], phases[i], failureOf);
  }

  /** The calls of an apply, one after the other: whoever is asked to start and fails is stopped, in reverse order. */
  lemma ApplyAsks(services: Services, plan: ExecutionPlan, s: RuntimeSnapshot)
    ensures var trace := ApplyTrace(services, plan, s);
            var (provisioned, s1) := Call(services.provision(plan.provisioning, s), s);
            var evaluates := provisioned && exists op :: op in plan.evaluation && !op.action.Unchanged?;
            var (evaluating, s2) :=
              if evaluates then Call(services.startEvaluator(plan.evaluation, s1), s1) else (true, s1);
            var orchestrates :=
              provisioned && evaluating && exists op :: op in plan.orchestration && !op.action.Unchanged?;
            var orchestrating :=
              orchestrates ==> Call(services.startOrchestrator(plan.orchestration, s2), s2).0;
            && trace.calls == [ProvisionCall]
                 + (if evaluates then [StartEvaluator] else [])
                 + (if orchestrates then [StartOrchestrator] else [])
                 + (if orchestrating then [] else [StopOrchestrator])
                 + (if evaluates && !(evaluating && orchestrating) then [StopEvaluator] else [])
            && (trace.completed <==> provisioned && evaluating && orchestrating)
  {
    hide Call, HasActionable;
    ActionableIff(plan.evaluation);
    ActionableIff(plan.orchestration);
  }

  lemma ActionableIff(ops: seq<PlannedOp>)
    ensures HasActionable(ops) <==> exists op :: op in ops && !op.action.Unchanged?
  {
    if HasActionable(ops) {
      var op :| op in ops && op.IsActionable();
      assert op in ops && !op.action.Unchanged?;
    }
    if op :| op in ops && !op.action.Unchanged? {
      assert op.IsActionable();
    }
  }

  // ---------------------------------------------------------------- convergence

  /** The services are the reference ones, answering at whatever instants. */
  ghost predicate ReferenceServices(services: Services) {
    && (forall ops, s: RuntimeSnapshot ::
          services.provision(ops, s) == Applies(ApplyResult(true, Provisioned(s, ops), [], Changed(ops))))
    && (forall ops, s: RuntimeSnapshot :: exists now ::
          services.startEvaluator(ops, s) == Applies(ApplyResult(true, Evaluated(s, ops, now), [], Changed(ops))))
    && (forall ops, s: RuntimeSnapshot :: exists now ::
          services.startOrchestrator(ops, s) == Applies(ApplyResult(true, Started(s, ops, now), [], Changed(ops))))
  }

  lemma {:induction false} EvaluatedEntries(s: RuntimeSnapshot, ops: seq<PlannedOp>, now: Stamp)
    ensures Evaluated(s, ops, now).entries == Executed(s.entries, Evaluation, ops)
  {
    if ops != [] {
      EvaluatedEntries(s, ops[..|ops| - 1], now);
    }
  }

  lemma {:induction false} StartedEntries(s: RuntimeSnapshot, ops: seq<PlannedOp>, now: Stamp)
    ensures Started(s, ops, now).entries == Executed(s.entries, Orchestration, ops)
  {
    if ops != [] {
      StartedEntries(s, ops[..|ops| - 1], now);
    }
  }

  /** A call of a reference service that succeeds executes its operations on the entries. */
  lemma ReferenceCalls(services: Services, ops: seq<PlannedOp>, s: RuntimeSnapshot)
    requires ReferenceServices(services)
    ensures var (ok, next) := Call(services.provision(ops, s), s); ok ==>
        next.entries == Executed(s.entries, Provisioning, ops)
    ensures var (ok, next) := Call(services.startEvaluator(ops, s), s); ok ==>
        next.entries == Executed(s.entries, Evaluation, ops)
    ensures var (ok, next) := Call(services.startOrchestrator(ops, s), s); ok ==>
        next.entries == Executed(s.entries, Orchestration, ops)
  {
    hide Accepted, Executed, Evaluated, Started;
    assert services.provision(ops, s) == Applies(ApplyResult(true, Provisioned(s, ops), [], Changed(ops)));
    var e :| services.startEvaluator(ops, s) == Applies(ApplyResult(true, Evaluated(s, ops, e), [], Changed(ops)));
    var o :| services.startOrchestrator(ops, s) == Applies(ApplyResult(true, Started(s, ops, o), [], Changed(ops)));
    EvaluatedEntries(s, ops, e);
    StartedEntries(s, ops, o);
  }

  lemma CompletedApplyEntries(services: Services, plan: ExecutionPlan, s: RuntimeSnapshot)
    requires ReferenceServices(services) && ApplyTrace(services, plan, s).completed
    ensures ApplyTrace(services, plan, s).snapshot.entries
            == AfterApply(s.entries, plan.provisioning, plan.evaluation, plan.orchestration)
  {
    hide ReferenceServices, Call, HasActionable, Executed;
    ReferenceCalls(services, plan.provisioning, s);
    var provisioned := Call(services.provision(plan.provisioning, s), s).1;
    ReferenceCalls(services, plan.evaluation, provisioned);
    ReferenceCalls(services, plan.orchestration, provisioned);
    ReferenceCalls(services, plan.orchestration,
        Call(services.startEvaluator(plan.evaluation, provisioned), provisioned).1);
  }

  /**
    After an apply that completes with the reference services, and that skips whatever part has nothing to do, every
    resource has a matching entry and only participant entries are left besides; so of a second plan for the same
    resources no part has anything to do.
   */
  lemma PlanningTwiceFindsNothing(
    services: Services, plan: ExecutionPlan, s: RuntimeSnapshot, resources: Resources, actions: map<string,
    ChangeAction>)
    requires ReferenceServices(services) && ApplyTrace(services, plan, s).completed
    requires Decides(resources, s.entries, actions)
    requires forall a :: a in resources ==> !resources[a].domain.Participant?
    requires PlansPart(plan.provisioning, Provisioning, resources, s.entries, actions)
    requires PlansPart(plan.evaluation, Evaluation, resources, s.entries, actions)
    requires PlansPart(plan.orchestration, Orchestration, resources, s.entries, actions)
    ensures var after := ApplyTrace(services, plan, s).snapshot.entries;
            && Converged(resources, s.entries, after)
            && forall domain: RuntimeDomain, ops, next ::
                 !domain.Participant? && PlansPart(ops, domain, resources, after, next)
                     && Decides(resources, after, next)
                 ==> !HasActionable(ops)
  {
    hide ReferenceServices, ApplyTrace, Decides, PlansPart, Converged, HasActionable;
    CompletedApplyEntries(services, plan, s);
    ApplyingConverges(resources, s.entries, actions, plan.provisioning, plan.evaluation, plan.orchestration);
    var after := ApplyTrace(services, plan, s).snapshot.entries;
    forall domain: RuntimeDomain, ops, next |
      !domain.Participant? && PlansPart(ops, domain, resources, after, next) && Decides(resources, after, next)
      ensures !HasActionable(ops)
    {
      SecondPlanIsIdle(resources, s.entries, after, next, domain, ops);
    }
  }
}
