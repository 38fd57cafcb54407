/** What planning decides and what the reference services do with a plan, read off resources, operations and entries. */
module PlanOutcomes {
  import opened Wrappers
  import opened RuntimeModels
  import opened DependencyGraph
  import opened Plans
  import opened Planner
  import opened PlanConvergence
  import opened StubServices
  import opened StubContracts

  // ------------------------------------------------------------------- actions

  /** Each resource of the path refreshes with the next one. */
  ghost predicate RefreshPath(resources: Resources, path: seq<string>) {
    && (forall i :: 0 <= i < |path| ==> path[i] in resources)
    && (forall i :: 0 < i < |path| ==> path[i] in resources[path[i - 1]].refreshDependencies)
  }

  /** The resource has no entry, or one that differs from it. */
  predicate IsNewOrDiffers(resources: Resources, entries: Entries, a: string) {
    && a in resources
    && (a in entries ==>
          || entries[a].domain != resources[a].domain || entries[a].resourceType != resources[a].resourceType
          || entries[a].payload != resources[a].payload
          || entries[a].orderingDependencies != resources[a].orderingDependencies
          || entries[a].refreshDependencies != resources[a].refreshDependencies)
  }

  lemma {:induction false} StepsArePath(resources: Resources, from: string, to: string, k: nat)
    returns (path: seq<string>)
    requires Steps(RefreshGraph(resources), from, to, k)
    ensures RefreshPath(resources, path) && |path| == k + 1 && path[0] == from && path[k] == to
    decreases k
  {
    hide RefreshPath, Closed, RefreshGraph;
    if k == 0 {
      path := [from];
      OneIsPath(resources, from);
    } else {
      var d :| Edge(RefreshGraph(resources), from, d) && Steps(RefreshGraph(resources), d, to, k - 1);
      var rest := StepsArePath(resources, d, to, k - 1);
      path := [from] + rest;
      RefreshEdge(resources, from, d);
      PathGrows(resources, from, rest);
    }
  }

  lemma RefreshEdge(resources: Resources, a: string, d: string)
    ensures Edge(RefreshGraph(resources), a, d) <==>
      a in resources && d in resources && d in resources[a].refreshDependencies
  {
  }

  lemma OneIsPath(resources: Resources, a: string)
    requires a in resources
    ensures RefreshPath(resources, [a])
  {
  }

  lemma PathGrows(resources: Resources, from: string, rest: seq<string>)
    requires RefreshPath(resources, rest) && rest != [] && from in resources
    requires rest[0] in resources[from].refreshDependencies
    ensures RefreshPath(resources, [from] + rest)
  {
    var path := [from] + rest;
    forall i | 0 < i < |path| ensures path[i] in resources[path[i - 1]].refreshDependencies {
      assert path[i] == rest[i - 1] && (i > 1 ==> path[i - 1] == rest[i - 2]);
    }
  }

  lemma {:induction false} PathIsSteps(resources: Resources, path: seq<string>)
    requires RefreshPath(resources, path) && path != []
    ensures Steps(RefreshGraph(resources), path[0], path[|path| - 1], |path| - 1)
    decreases |path|
  {
    hide RefreshGraph, RefreshPath;
    PathBegins(resources, path);
    if |path| > 1 {
      PathIsSteps(resources, path[1..]);
      RefreshEdge(resources, path[0], path[1]);
    }
  }

  lemma PathBegins(resources: Resources, path: seq<string>)
    requires RefreshPath(resources, path) && path != []
    ensures path[0] in resources && RefreshPath(resources, path[1..])
    ensures |path| > 1 ==> path[1] in resources && path[1] in resources[path[0]].refreshDependencies
  {
  }

  lemma ImpactedIff(resources: Resources, entries: Entries, a: string)
    requires a in resources && !IsNewOrDiffers(resources, entries, a)
    ensures Impacted(RefreshGraph(resources), NewOrDifferent(resources, entries), a) <==>
      exists path :: RefreshPath(resources, path) && path != [] && path[0] == a
                     && IsNewOrDiffers(resources, entries, path[|path| - 1])
  {
    hide RefreshGraph;
    var g, changed := RefreshGraph(resources), NewOrDifferent(resources, entries);
    if Impacted(g, changed, a) {
      var m :| m in changed && Reaches(g, a, m);
      var k: nat :| Steps(g, a, m, k);
      var path := StepsArePath(resources, a, m, k);
      assert RefreshPath(resources, path) && path[0] == a && IsNewOrDiffers(resources, entries, path[|path| - 1]);
    }
    if path :| RefreshPath(resources, path) && path != [] && path[0] == a
               && IsNewOrDiffers(resources, entries, path[|path| - 1]) {
      PathIsSteps(resources, path);
      assert Reaches(g, a, path[|path| - 1]);
    }
  }

  /**
    The action for an address: deletion without a resource, creation without an entry, an update if the entry differs
    from the resource in domain, type, payload or dependencies, or if a path of refresh dependencies leads from the
    resource to one that is new or different, and otherwise nothing.
   */
  lemma ActionsTell(resources: Resources, entries: Entries, a: string)
    ensures var action := ActionFor(resources, entries, a);
            && (action.Delete? <==> a !in resources)
            && (action.Create? <==> a in resources && a !in entries)
            && (action.Update? <==>
                  && a in resources && a in entries
                  && exists path :: RefreshPath(resources, path) && path != [] && path[0] == a
                                    && IsNewOrDiffers(resources, entries, path[|path| - 1]))
            && (action.Unchanged? <==>
                  && a in resources
                  && forall path | RefreshPath(resources, path) && path != [] && path[0] == a ::
                       !IsNewOrDiffers(resources, entries, path[|path| - 1]))
  {
    hide RefreshGraph, Impacted;
    if a in resources {
      assert RefreshPath(resources, [a]) && [a][0] == a;
      if !IsNewOrDiffers(resources, entries, a) {
        ImpactedIff(resources, entries, a);
      }
    }
  }

  // --------------------------------------------------------------------- order

  /** Every dependency that is itself a resource ranks below the resource. */
  ghost predicate RanksOrdering(resources: Resources, rank: map<string, nat>) {
    && rank.Keys == resources.Keys
    && forall a, d | a in resources && d in resources[a].orderingDependencies && d in resources :: rank[d] < rank[a]
  }

  ghost predicate RanksTeardown(deleted: Entries, rank: map<string, nat>) {
    && rank.Keys == deleted.Keys
    && forall a, d | a in deleted && d in deleted[a].orderingDependencies && d in deleted :: rank[d] < rank[a]
  }

  lemma RankedOrdering(resources: Resources, rank: map<string, nat>)
    requires RanksOrdering(resources, rank)
    ensures Acyclic(OrderingGraph(resources))
  {
    AcyclicIffRanked(OrderingGraph(resources));
    assert Ranks(OrderingGraph(resources), rank);
  }

  lemma TeardownRanks(deleted: Entries, rank: map<string, nat>)
    requires RanksTeardown(deleted, rank)
    ensures RanksOrdering(AsResources(deleted), rank)
  {
  }

  /** One of the operations before the given place sets up the address. */
  predicate SetUpBefore(ops: seq<PlannedOp>, k: nat, address: string)
    requires k <= |ops|
  {
    exists j :: 0 <= j < k && ops[j].address == address && !ops[j].action.Delete?
  }

  predicate DeletedAfter(ops: seq<PlannedOp>, k: nat, address: string)
    requires k < |ops|
  {
    exists j :: k < j < |ops| && ops[j].address == address && ops[j].action.Delete?
  }

  /** The operation carries what the resource, or the entry to be deleted, says of itself. */
  predicate Carries(
    op: PlannedOp, resources: Resources, deleted: Entries, actions: map<string, ChangeAction>) {
    if op.address in resources then
      && op.address in actions && op.action == actions[op.address]
      && op.resourceType == resources[op.address].resourceType && op.payload == resources[op.address].payload
      && op.orderingDependencies == resources[op.address].orderingDependencies
      && op.refreshDependencies == resources[op.address].refreshDependencies
    else
      && op.address in deleted && op.action.Delete?
      && op.resourceType == deleted[op.address].resourceType && op.payload == deleted[op.address].payload
      && op.orderingDependencies == deleted[op.address].orderingDependencies
      && op.refreshDependencies == deleted[op.address].refreshDependencies
  }

  /** Whatever is set up comes after its dependencies. */
  predicate SetUpInOrder(ops: seq<PlannedOp>, resources: Resources) {
    forall k, d | 0 <= k < |ops| && !ops[k].action.Delete? && d in ops[k].orderingDependencies && d in resources ::
      SetUpBefore(ops, k, d)
  }

  /** Whatever is torn down comes before its dependencies. */
  predicate TornDownInOrder(ops: seq<PlannedOp>, deleted: Entries) {
    forall k, d | 0 <= k < |ops| && ops[k].action.Delete? && d in ops[k].orderingDependencies && d in deleted ::
      DeletedAfter(ops, k, d)
  }

  /**
    A plan has one operation for each resource and each deleted entry, which carries what that says. If the ordering
    dependencies can be ranked, each set up comes after those of all its dependencies; if those of the deleted entries
    can be ranked, each deletion comes before those of all its dependencies.
   */
  lemma PlanTells(
    ops: seq<PlannedOp>, order: seq<string>, deletions: seq<string>, resources: Resources, deleted: Entries,
    actions: map<string, ChangeAction>)
    requires PlansDomain(ops, order, deletions, resources, deleted, actions)
    requires WellOrdered(order, deletions, resources, deleted)
    requires resources.Keys !! deleted.Keys && forall a :: a in resources ==> !actions[a].Delete?
    ensures |ops| == |resources| + |deleted|
    ensures forall a :: a in resources || a in deleted ==> exists k :: 0 <= k < |ops| && ops[k].address == a
    ensures forall i, j :: 0 <= i < j < |ops| ==> ops[i].address != ops[j].address
    ensures forall k :: 0 <= k < |ops| ==> Carries(ops[k], resources, deleted, actions)
    ensures (exists rank :: RanksOrdering(resources, rank)) ==> SetUpInOrder(ops, resources)
    ensures (exists rank :: RanksTeardown(deleted, rank)) ==> TornDownInOrder(ops, deleted)
  {
    PlanCarries(ops, order, deletions, resources, deleted, actions);
    PlanIsDistinct(ops, order, deletions, resources, deleted, actions);
    PlanCounts(order, deletions, resources, deleted);
    PlanInOrder(ops, order, deletions, resources, deleted, actions);
    hide *;
  }

  lemma PlanInOrder(
    ops: seq<PlannedOp>, order: seq<string>, deletions: seq<string>, resources: Resources, deleted: Entries,
    actions: map<string, ChangeAction>)
    requires PlansDomain(ops, order, deletions, resources, deleted, actions)
    requires WellOrdered(order, deletions, resources, deleted) && forall a :: a in resources ==> !actions[a].Delete?
    ensures (exists rank :: RanksOrdering(resources, rank)) ==> SetUpInOrder(ops, resources)
    ensures (exists rank :: RanksTeardown(deleted, rank)) ==> TornDownInOrder(ops, deleted)
  {
    hide PlansDomain, Places, Acyclic, SetUpInOrder, TornDownInOrder, RanksOrdering, RanksTeardown, AllSettled,
    OrderingGraph,
    AsResources;
    PlanPlaces(ops, order, deletions, resources, deleted, actions);
    if rank :| RanksOrdering(resources, rank) {
      RankedOrdering(resources, rank);
      SetUpsAreOrdered(ops, order, deletions, resources, deleted);
    }
    if rank :| RanksTeardown(deleted, rank) {
      TeardownRanks(deleted, rank);
      RankedOrdering(AsResources(deleted), rank);
      DeletionsAreOrdered(ops, order, deletions, resources, deleted);
    }
  }

  lemma PlanCarries(
    ops: seq<PlannedOp>, order: seq<string>, deletions: seq<string>, resources: Resources, deleted: Entries,
    actions: map<string, ChangeAction>)
    requires PlansDomain(ops, order, deletions, resources, deleted, actions) && resources.Keys !! deleted.Keys
    ensures forall k :: 0 <= k < |ops| ==> Carries(ops[k], resources, deleted, actions)
  {
    hide NoDuplicates;
    forall k | 0 <= k < |ops| ensures Carries(ops[k], resources, deleted, actions) {
      if k < |order| {
        assert ops[k] == OpFor(actions[order[k]], order[k], resources[order[k]]);
      } else {
        var i := k - |order|;
        assert ops[|order| + i] == OpFor(Delete, deletions[i], AsResources(deleted)[deletions[i]]);
      }
    }
  }

  lemma PlanIsDistinct(
    ops: seq<PlannedOp>, order: seq<string>, deletions: seq<string>, resources: Resources, deleted: Entries,
    actions: map<string, ChangeAction>)
    requires PlansDomain(ops, order, deletions, resources, deleted, actions) && resources.Keys !! deleted.Keys
    ensures forall i, j :: 0 <= i < j < |ops| ==> ops[i].address != ops[j].address
    ensures forall a :: a in resources || a in deleted ==> exists k :: 0 <= k < |ops| && ops[k].address == a
  {
    assert forall i :: 0 <= i < |deletions| ==> ops[|order| + i].address == deletions[i];
    PlanAddresses(ops, order, deletions, resources, deleted);
    forall a | a in resources || a in deleted ensures exists k :: 0 <= k < |ops| && ops[k].address == a {
      assert a in Touched(ops);
    }
  }

  lemma PlanCounts(order: seq<string>, deletions: seq<string>, resources: Resources, deleted: Entries)
    requires ListsOnce(order, resources.Keys) && ListsOnce(deletions, deleted.Keys)
    ensures |order| == |resources| && |deletions| == |deleted|
  {
    DistinctLength(order, resources.Keys);
    DistinctLength(deletions, deleted.Keys);
    ElementsCount(order, resources.Keys);
    ElementsCount(deletions, deleted.Keys);
    assert |resources| == |resources.Keys| && |deleted| == |deleted.Keys|;
  }

  lemma {:induction false} ElementsCount(xs: seq<string>, s: set<string>)
    requires forall x :: x in s ==> x in xs
    ensures |s| <= |xs|
  {
    if xs != [] {
      var front, last := xs[..|xs| - 1], xs[|xs| - 1];
      assert xs == front + [last];
      ElementsCount(front, s - {last});
    } else {
      assert s == {};
    }
  }

  /** Which address and which dependencies the operation at each place has. */
  ghost predicate Places(
    ops: seq<PlannedOp>, order: seq<string>, deletions: seq<string>, resources: Resources, deleted: Entries)
  {
    && |ops| == |order| + |deletions|
    && (forall k :: 0 <= k < |order| ==>
          && order[k] in resources && ops[k].address == order[k] && !ops[k].action.Delete?
          && ops[k].orderingDependencies == resources[order[k]].orderingDependencies)
    && (forall k :: |order| <= k < |ops| ==>
          && deletions[k - |order|] in deleted && ops[k].address == deletions[k - |order|] && ops[k].action.Delete?
          && ops[k].orderingDependencies == deleted[deletions[k - |order|]].orderingDependencies)
  }

  lemma PlanPlaces(
    ops: seq<PlannedOp>, order: seq<string>, deletions: seq<string>, resources: Resources, deleted: Entries,
    actions: map<string, ChangeAction>)
    requires PlansDomain(ops, order, deletions, resources, deleted, actions)
    requires forall a :: a in resources ==> !actions[a].Delete?
    ensures Places(ops, order, deletions, resources, deleted)
  {
    hide ListsOnce;
    forall k | |order| <= k < |ops|
      ensures deletions[k - |order|] in deleted && ops[k].action.Delete? && ops[k].address == deletions[k - |order|]
      ensures ops[k].orderingDependencies == deleted[deletions[k - |order|]].orderingDependencies
    {
      var i := k - |order|;
      assert ops[|order| + i] == OpFor(Delete, deletions[i], AsResources(deleted)[deletions[i]]);
    }
  }

  lemma SetUpsAreOrdered(
    ops: seq<PlannedOp>, order: seq<string>, deletions: seq<string>, resources: Resources, deleted: Entries)
    requires Places(ops, order, deletions, resources, deleted) && AllSettled(OrderingGraph(resources), order)
    ensures SetUpInOrder(ops, resources)
  {
    forall k, d | 0 <= k < |ops| && !ops[k].action.Delete? && d in ops[k].orderingDependencies && d in resources
      ensures SetUpBefore(ops, k, d)
    {
      assert Settled(OrderingGraph(resources), order, k);
      assert d in OrderingGraph(resources)[order[k]];
      var j :| 0 <= j < k && order[..k][j] == d;
      assert ops[j].address == d && !ops[j].action.Delete?;
    }
  }

  lemma DeletionsAreOrdered(
    ops: seq<PlannedOp>, order: seq<string>, deletions: seq<string>, resources: Resources, deleted: Entries)
    requires Places(ops, order, deletions, resources, deleted)
    requires forall i, d | 0 <= i < |deletions| && Edge(OrderingGraph(AsResources(deleted)), deletions[i], d) ::
               d in deletions[i + 1..]
    ensures TornDownInOrder(ops, deleted)
  {
    forall k, d | 0 <= k < |ops| && ops[k].action.Delete? && d in ops[k].orderingDependencies && d in deleted
      ensures DeletedAfter(ops, k, d)
    {
      var i := k - |order|;
      assert Edge(OrderingGraph(AsResources(deleted)), deletions[i], d);
      var j :| 0 <= j < |deletions[i + 1..]| && deletions[i + 1..][j] == d;
      assert deletions[i + 1 + j] == d;
      assert ops[k + 1 + j].address == d && ops[k + 1 + j].action.Delete?;
    }
  }

  // ------------------------------------------------------------- the services

  /** The entry that an operation leaves, with the given status. */
  predicate Entered(entries: Entries, domain: RuntimeDomain, op: PlannedOp, status: string) {
    && op.address in entries
    && entries[op.address] == SnapshotEntry(op.address, domain, op.resourceType, op.payload, op.orderingDependencies,
                                            op.refreshDependencies, status)
  }

  /** The places, in order, of all operations that are not unchanged, with their addresses. */
  ghost predicate PlacesOfChanges(ops: seq<PlannedOp>, changed: seq<string>, places: seq<nat>) {
    && |places| == |changed|
    && (forall i, j :: 0 <= i < j < |places| ==> places[i] < places[j])
    && (forall i :: 0 <= i < |places| ==>
          places[i] < |ops| && !ops[places[i]].action.Unchanged? && ops[places[i]].address == changed[i])
    && (forall k :: 0 <= k < |ops| && !ops[k].action.Unchanged? ==> k in places)
  }

  /** Where each changed address comes from: the operations that are not unchanged, in their order. */
  lemma {:induction false} ChangedTells(ops: seq<PlannedOp>) returns (places: seq<nat>)
    ensures PlacesOfChanges(ops, Changed(ops), places)
  {
    hide PlacesOfChanges;
    if ops == [] {
      places := [];
      NoChanges();
    } else {
      var front, last := ops[..|ops| - 1], ops[|ops| - 1];
      var earlier := ChangedTells(front);
      assert ops == front + [last];
      OneMoreOp(front, last, Changed(front), earlier);
      assert Changed(front) + [] == Changed(front);
      places := if last.action.Unchanged? then earlier else earlier + [|front|];
    }
  }

  lemma NoChanges()
    ensures PlacesOfChanges([], [], [])
  {
  }

  lemma OneMoreOp(front: seq<PlannedOp>, last: PlannedOp, changed: seq<string>, places: seq<nat>)
    requires PlacesOfChanges(front, changed, places)
    ensures last.action.Unchanged? ==> PlacesOfChanges(front + [last], changed, places)
    ensures !last.action.Unchanged? ==>
      PlacesOfChanges(front + [last], changed + [last.address], places + [|front|])
  {
    var more := places + [|front|];
    assert more[|places|] == |front|;
    forall k | 0 <= k < |front| && !front[k].action.Unchanged? ensures k in more {
      assert k in places;
    }
  }

  /**
    The provisioner: an address keeps its entry unless an operation is on it; the last one removes the entry or leaves
    its own.
   */
  lemma ProvisionerTells(s: RuntimeSnapshot, ops: seq<PlannedOp>, k: nat)
    requires k < |ops| && forall j :: k < j < |ops| ==> ops[j].address != ops[k].address
    ensures var t, op := Provisioned(s, ops), ops[k];
            && t == s.(entries := t.entries)
            && (op.action.Delete? ==> op.address !in t.entries)
            && (!op.action.Delete? ==>
                  Entered(t.entries, Provisioning, op, if op.action.Unchanged? then "unchanged" else "applied"))
            && forall a | (forall j :: 0 <= j < |ops| ==> ops[j].address != a) ::
                 (a in t.entries <==> a in s.entries) && (a in s.entries ==> t.entries[a] == s.entries[a])
  {
    hide Executed;
    ExecutedAt(s.entries, Provisioning, ops, k);
    forall a | (forall j :: 0 <= j < |ops| ==> ops[j].address != a)
      ensures (a in Executed(s.entries, Provisioning, ops) <==> a in s.entries)
              && (a in s.entries ==> Executed(s.entries, Provisioning, ops)[a] == s.entries[a])
    {
      ExecutedElsewhere(s.entries, Provisioning, ops, a);
    }
  }

  /**
    The orchestrator: the last operation on an address removes entry, result and history, or leaves its own entry; and
    a workflow runs from its start, with every observable step pending and nothing but the start in its history.
   */
  lemma OrchestratorTells(s: RuntimeSnapshot, ops: seq<PlannedOp>, now: Stamp, k: nat)
    requires k < |ops| && forall j :: k < j < |ops| ==> ops[j].address != ops[k].address
    ensures var t, op := Started(s, ops, now), ops[k];
            && t == s.(entries := t.entries, orchestrationResults := t.orchestrationResults,
                       orchestrationHistory := t.orchestrationHistory)
            && (op.action.Delete? ==> op.address !in t.entries && op.address !in t.orchestrationResults)
            && (!op.action.Delete? ==>
                  Entered(t.entries, Orchestration, op,
                          if op.resourceType in {Event, Script, Story, Workflow} then "queued" else "bound"))
            && (!op.action.Delete? && op.resourceType.Workflow? && op.payload.WorkflowPayload?
                && op.payload.result.Some? && op.payload.execution.Some? ==>
                  var contract := op.payload.result.value;
                  && op.address in t.orchestrationResults
                  && t.orchestrationResults[op.address]
                     == WorkflowState(contract.schemaVersion, Running, op.address + "-run", now, now, None, NotRequired,
                          None, None, [], map step | step in contract.observableSteps ::
                              StepState(StepPending, None, 0))
                  && HistoryAt(t.orchestrationHistory, op.address)
                     == [WorkflowEvent(WorkflowStarted, now, Some(op.payload.execution.value.startStep), None, None,
                          EventDetails("", None, None, None, None))])
  {
    hide Started;
    StartedFrame(s, ops, now);
    StartedAt(s, ops, now, k);
  }

  /**
    The evaluator: the last operation on an address removes entry, result and history, or leaves its own entry, a
    ready result with a pass and the full score as far as the contract has them, and a history of start and readiness.
   */
  lemma EvaluatorTells(s: RuntimeSnapshot, ops: seq<PlannedOp>, now: Stamp, k: nat)
    requires k < |ops| && forall j :: k < j < |ops| ==> ops[j].address != ops[k].address
    ensures var t, op := Evaluated(s, ops, now), ops[k];
            && t == s.(entries := t.entries, evaluationResults := t.evaluationResults,
                       evaluationHistory := t.evaluationHistory)
            && (op.action.Delete? ==>
                  op.address !in t.entries && op.address !in t.evaluationResults
                  && op.address !in t.evaluationHistory)
            && (!op.action.Delete? ==> Entered(t.entries, Evaluation, op, "evaluating"))
            && (!op.action.Delete? && op.payload.EvaluationPayload? && op.payload.resultContract.Some? ==>
                  var contract := op.payload.resultContract.value;
                  var score := if contract.fixedMaxScore.Some? then contract.fixedMaxScore.value else 100;
                  var measured := Measurement(
                    if contract.supportsPassed then Some(true) else None,
                    if contract.supportsScore then Some(score as real) else None,
                    if contract.supportsScore then Some(score) else None);
                  var detail := Some("stub result for " + op.address);
                  && op.address in t.evaluationResults && op.address in t.evaluationHistory
                  && t.evaluationResults[op.address]
                     == EvaluationState(contract.schemaVersion, contract.resourceType, "evaluation-run",
                          EvaluationReady, now, now, measured, detail)
                  && t.evaluationHistory[op.address]
                     == [EvaluationEvent(EvaluationStartedEvent, now, EvaluationRunning, Measurement(None, None, None),
                          None),
                         EvaluationEvent(EvaluationReadyEvent, now, EvaluationReady, measured, detail)])
  {
    hide Evaluated;
    EvaluatedFrame(s, ops, now);
    EvaluatedAt(s, ops, now, k);
  }
}
