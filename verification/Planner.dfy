/**
  Planning: which resources to create, update, delete or leave, in which order, and why planning again finds nothing
  to do.
 */
module Planner {
  import opened Wrappers
  import opened RuntimeModels
  import opened DependencyGraph
  import opened Plans

  type Resources = map<string, PlannedResource>
  type Entries = map<string, SnapshotEntry>

  function OrderingGraph(resources: Resources): (g: Graph)
    ensures Closed(g) && g.Keys == resources.Keys
  {
    Normalized(map a | a in resources :: resources[a].orderingDependencies)
  }

  function RefreshGraph(resources: Resources): (g: Graph)
    ensures Closed(g) && g.Keys == resources.Keys
  {
    Normalized(map a | a in resources :: resources[a].refreshDependencies)
  }

  // -------------------------------------------------------------------- refresh

  /** Unchanged itself, the node depends on a changed one, perhaps through others. */
  ghost predicate Impacted(g: Graph, changed: set<string>, n: string) {
    n in g && n !in changed && exists m :: m in changed && Reaches(g, n, m)
  }

  /** Whoever depends on a member is a member. */
  predicate ClosedUnderDependents(g: Graph, s: set<string>) {
    forall n, d | n in g && d in g[n] :: d in s ==> n in s
  }

  lemma {:induction false} ClosureContains(g: Graph, s: set<string>, n: string, m: string, k: nat)
    requires ClosedUnderDependents(g, s) && m in s && Steps(g, n, m, k)
    ensures n in s
    decreases k
  {
    if k > 0 {
      var d :| Edge(g, n, d) && Steps(g, d, m, k - 1);
      ClosureContains(g, s, d, m, k - 1);
    }
  }

  lemma ImpactSpreads(g: Graph, changed: set<string>, n: string, d: string)
    requires Edge(g, n, d) && n !in changed && d in g && (d in changed || Impacted(g, changed, d))
    ensures Impacted(g, changed, n)
  {
    if d in changed {
      assert Steps(g, d, d, 0);
      assert Steps(g, n, d, 1);
      assert Reaches(g, n, d);
    } else {
      var m :| m in changed && Reaches(g, d, m);
      var k: nat :| Steps(g, d, m, k);
      assert Steps(g, n, m, k + 1);
      assert Reaches(g, n, m);
    }
  }

  /**
    What the search knows: all found nodes are impacted, and those no longer in the queue have no dependent outside.
   */
  ghost predicate Searching(g: Graph, changed: set<string>, found: set<string>, queue: seq<string>) {
    && (forall n :: n in found ==> Impacted(g, changed, n))
    && (forall d :: d in queue ==> d in changed || d in found)
    && (forall n, d | n in g && d in g[n] && (d in changed || d in found) && d !in queue :: n in changed || n in found)
  }

  method Discover(
    g: Graph, changed: set<string>, found: set<string>, queue: seq<string>, dependency: string, dependents: seq<string>)
    returns (found': set<string>, queue': seq<string>)
    requires Closed(g) && changed <= g.Keys && found <= g.Keys && Searching(g, changed, found, [dependency] + queue)
    requires forall n :: n in dependents <==> Edge(g, n, dependency)
    ensures found <= found' <= g.Keys && Searching(g, changed, found', queue')
    ensures found' == found ==> queue' == queue
  {
    hide Impacted;
    found', queue' := found, queue;
    assert dependency in [dependency] + queue;
    for k := 0 to |dependents|
      invariant found <= found' <= g.Keys && (found' == found ==> queue' == queue)
      invariant Searching(g, changed, found', [dependency] + queue')
      invariant forall i :: 0 <= i < k ==> dependents[i] in changed || dependents[i] in found'
    {
      var dependent := dependents[k];
      if dependent in changed || dependent in found' {
        continue;
      }
      assert Edge(g, dependent, dependency);
      ImpactSpreads(g, changed, dependent, dependency);
      var longer := queue' + [dependent];
      assert forall d :: d in [dependency] + longer <==> d in [dependency] + queue' || d == dependent;
      found' := found' + {dependent};
      queue' := longer;
    }
    forall n, d | n in g && d in g[n] && (d in changed || d in found') && d !in queue'
        ensures n in changed || n in found' {
      if d == dependency {
        assert Edge(g, n, dependency);
      }
    }
  }

  /** Breadth-first search over the reversed refresh edges. */
  method RefreshImpacted(g: Graph, changed: set<string>) returns (impacted: set<string>)
    requires Closed(g) && changed <= g.Keys
    ensures forall n :: n in impacted <==> Impacted(g, changed, n)
  {
    hide Impacted, Closed, Reversed, Steps, Searching;
    var dependents, _ := ReverseEdges(g);
    var queue := Listed(changed);
    impacted := {};
    SearchStarts(g, changed, queue);
    while queue != []
      invariant impacted <= g.Keys && Searching(g, changed, impacted, queue)
      decreases |g.Keys - impacted|, |queue|
    {
      var dependency := queue[0];
      assert queue == [dependency] + queue[1..];
      QueuedIsKnown(g, changed, impacted, queue);
      DependentsOf(g, dependents, dependency);
      var before := impacted;
      impacted, queue := Discover(g, changed, impacted, queue[1..], dependency, dependents[dependency]);
      if impacted != before {
        FewerLeft(g.Keys, before, impacted);
      }
    }
    SearchIsExact(g, changed, impacted);
  }

  lemma SearchStarts(g: Graph, changed: set<string>, queue: seq<string>)
    requires forall d :: d in queue <==> d in changed
    ensures Searching(g, changed, {}, queue)
  {
  }

  lemma QueuedIsKnown(g: Graph, changed: set<string>, found: set<string>, queue: seq<string>)
    requires Searching(g, changed, found, queue) && changed <= g.Keys && found <= g.Keys && queue != []
    ensures queue[0] in g
  {
  }

  lemma FewerLeft(all: set<string>, before: set<string>, after: set<string>)
    requires before <= after <= all && after != before
    ensures |all - after| < |all - before|
  {
    var x :| x in after && x !in before;
    assert all - after <= (all - before) - {x};
    SubsetSize(all - after, (all - before) - {x});
  }

  lemma {:induction false} SubsetSize(a: set<string>, b: set<string>)
    requires a <= b
    ensures |a| <= |b|
    decreases |a|
  {
    if a != {} {
      var x :| x in a;
      SubsetSize(a - {x}, b - {x});
    }
  }

  lemma DependentsOf(g: Graph, dependents: map<string, seq<string>>, d: string)
    requires Reversed(g, dependents) && d in g
    ensures d in dependents
    ensures forall n :: n in dependents[d] <==> Edge(g, n, d)
  {
  }

  lemma SearchIsExact(g: Graph, changed: set<string>, impacted: set<string>)
    requires Searching(g, changed, impacted, [])
    ensures forall n :: n in impacted <==> Impacted(g, changed, n)
  {
    forall n | Impacted(g, changed, n) ensures n in impacted {
      var m :| m in changed && Reaches(g, n, m);
      var k: nat :| Steps(g, n, m, k);
      ClosureContains(g, changed + impacted, n, m, k);
    }
  }

  // -------------------------------------------------------------------- actions

  predicate Matches(entry: SnapshotEntry, resource: PlannedResource) {
    && entry.domain == resource.domain && entry.resourceType == resource.resourceType
    && entry.payload == resource.payload
    && entry.orderingDependencies == resource.orderingDependencies
    && entry.refreshDependencies == resource.refreshDependencies
  }

  function NewOrDifferent(resources: Resources, entries: Entries): set<string> {
    set a | a in resources.Keys && (a !in entries || !Matches(entries[a], resources[a]))
  }

  ghost function ActionFor(resources: Resources, entries: Entries, a: string): ChangeAction {
    if a !in resources then Delete
    else if a !in entries then Create
    else if !Matches(entries[a], resources[a])
        || Impacted(RefreshGraph(resources), NewOrDifferent(resources, entries), a) then Update
    else Unchanged
  }

  /** The action by comparison alone. */
  function FirstAction(resources: Resources, entries: Entries, a: string): ChangeAction {
    if a !in resources then Delete
    else if a !in entries then Create
    else if Matches(entries[a], resources[a]) then Unchanged
    else Update
  }

  lemma FirstActions(resources: Resources, entries: Entries)
    ensures forall a :: a in NewOrDifferent(resources, entries) <==>
              FirstAction(resources, entries, a).Create? || FirstAction(resources, entries, a).Update?
    ensures forall a :: a in resources || a in entries ==>
              ActionFor(resources, entries, a) ==
                if FirstAction(resources, entries, a).Unchanged?
                    && Impacted(RefreshGraph(resources), NewOrDifferent(resources, entries), a)
                then Update else FirstAction(resources, entries, a)
  {
  }

  method ReconcileActions(resources: Resources, entries: Entries)
    returns (actions: map<string, ChangeAction>, deleted: Entries)
    ensures actions.Keys == resources.Keys + entries.Keys
    ensures forall a :: a in actions ==> actions[a] == ActionFor(resources, entries, a)
    ensures deleted == map a | a in entries && a !in resources :: entries[a]
  {
    hide Impacted, RefreshGraph, Matches, Closed, FirstAction;
    actions := map a | a in resources.Keys + entries.Keys :: FirstAction(resources, entries, a);
    deleted := map a | a in entries && a !in resources :: entries[a];
    var changed := set a | a in actions.Keys && (actions[a].Create? || actions[a].Update?);
    FirstActions(resources, entries);
    assert changed == NewOrDifferent(resources, entries);
    var impacted := RefreshImpacted(RefreshGraph(resources), changed);
    OnlyKnownImpacted(resources, changed);
    actions := map a | a in actions :: if a in impacted && actions[a].Unchanged? then Update else actions[a];
  }

  lemma OnlyKnownImpacted(resources: Resources, changed: set<string>)
    ensures forall a :: Impacted(RefreshGraph(resources), changed, a) ==> a in resources
  {
  }

  /**
    Whatever is left unchanged depends on unchanged resources only; and whatever matches but is updated depends on a
    real change.
   */
  lemma UnchangedIsClosed(resources: Resources, entries: Entries, a: string)
    requires a in resources && ActionFor(resources, entries, a).Unchanged?
    ensures forall m :: Reaches(RefreshGraph(resources), a, m) ==>
        m in resources && ActionFor(resources, entries, m).Unchanged?
  {
    hide RefreshGraph;
    var g := RefreshGraph(resources);
    var changed := NewOrDifferent(resources, entries);
    forall m | Reaches(g, a, m) ensures m in resources && ActionFor(resources, entries, m).Unchanged? {
      ReachesKnown(g, a, m);
      if x :| x in changed && Reaches(g, m, x) {
        ReachesTransitive(g, a, m, x);
        assert false;
      }
    }
  }

  lemma ReachesKnown(g: Graph, n: string, m: string)
    requires Closed(g) && Reaches(g, n, m)
    ensures m in g && Reaches(g, m, m)
  {
    var k: nat :| Steps(g, n, m, k);
    StepsEndKnown(g, n, m, k);
    assert Steps(g, m, m, 0);
  }

  lemma ReachesTransitive(g: Graph, a: string, b: string, c: string)
    requires Reaches(g, a, b) && Reaches(g, b, c)
    ensures Reaches(g, a, c)
  {
    var k: nat :| Steps(g, a, b, k);
    var l: nat :| Steps(g, b, c, l);
    StepsCompose(g, a, b, c, k, l);
  }

  lemma {:induction false} StepsEndKnown(g: Graph, n: string, m: string, k: nat)
    requires Closed(g) && Steps(g, n, m, k)
    ensures m in g
    decreases k
  {
    if k > 0 {
      var d :| Edge(g, n, d) && Steps(g, d, m, k - 1);
      StepsEndKnown(g, d, m, k - 1);
    }
  }

  lemma {:induction false} StepsCompose(g: Graph, a: string, b: string, c: string, k: nat, l: nat)
    requires Steps(g, a, b, k) && Steps(g, b, c, l)
    ensures Steps(g, a, c, k + l)
    decreases k
  {
    if k > 0 {
      var d :| Edge(g, a, d) && Steps(g, d, b, k - 1);
      StepsCompose(g, d, b, c, k - 1, l);
    }
  }

  /** Nothing is to be done for the resources exactly when every resource has a matching entry. */
  lemma NothingToDoIff(resources: Resources, entries: Entries)
    ensures (forall a :: a in resources ==> ActionFor(resources, entries, a).Unchanged?)
            <==> (forall a :: a in resources ==> a in entries && Matches(entries[a], resources[a]))
  {
  }

  // ---------------------------------------------------------------------- plans

  function OfDomain(resources: Resources, domain: RuntimeDomain): Resources {
    map a | a in resources && resources[a].domain == domain :: resources[a]
  }

  function EntriesOf(entries: Entries, domain: RuntimeDomain): Entries {
    map a | a in entries && entries[a].domain == domain :: entries[a]
  }

  function AsResources(entries: Entries): Resources {
    map a | a in entries ::
      var e := entries[a];
      PlannedResource(e.address, e.domain, e.resourceType, e.payload, e.orderingDependencies, e.refreshDependencies)
  }

  function OpFor(action: ChangeAction, a: string, r: PlannedResource): PlannedOp {
    PlannedOp(action, a, r.resourceType, r.payload, r.orderingDependencies, r.refreshDependencies)
  }

  ghost predicate ListsOnce(order: seq<string>, addresses: set<string>) {
    NoDuplicates(order) && forall a :: a in order <==> a in addresses
  }

  /** The plan's operations: one for each resource in the one order, then a deletion for each entry in the other. */
  ghost predicate PlansDomain(
    ops: seq<PlannedOp>, order: seq<string>, deletions: seq<string>,
    resources: Resources, deleted: Entries, actions: map<string, ChangeAction>)
  {
    && resources.Keys <= actions.Keys
    && ListsOnce(order, resources.Keys) && ListsOnce(deletions, deleted.Keys)
    && |ops| == |order| + |deletions|
    && (forall i :: 0 <= i < |order| ==>
        order[i] in resources && ops[i] == OpFor(actions[order[i]], order[i], resources[order[i]]))
    && (forall i :: 0 <= i < |deletions| ==>
          deletions[i] in deleted && ops[|order| + i] ==
              OpFor(Delete, deletions[i], AsResources(deleted)[deletions[i]]))
  }

  /** Dependencies first where something is set up, dependents first where it is torn down. */
  ghost predicate WellOrdered(order: seq<string>, deletions: seq<string>, resources: Resources, deleted: Entries) {
    && (Acyclic(OrderingGraph(resources)) ==> AllSettled(OrderingGraph(resources), order))
    && (Acyclic(OrderingGraph(AsResources(deleted))) ==>
          forall i, d | 0 <= i < |deletions| && Edge(OrderingGraph(AsResources(deleted)), deletions[i], d) ::
              d in deletions[i + 1..])
  }

  method ResourceDeleteOrder(resources: Resources) returns (deletions: seq<string>)
    ensures NoDuplicates(deletions) && forall a :: a in deletions <==> a in resources
    ensures Acyclic(OrderingGraph(resources)) ==>
              forall i, d | 0 <= i < |deletions| && Edge(OrderingGraph(resources), deletions[i], d) ::
                  d in deletions[i + 1..]
  {
    hide OrderingGraph;
    var g := OrderingGraph(resources);
    var order := TopologicalOrder(g);
    deletions := DeleteOrder(order);
    DeleteOrderMembers(order);
    if Acyclic(g) {
      DeleteOrderReverses(g, order);
    }
  }

  lemma DeleteOrderMembers(order: seq<string>)
    requires NoDuplicates(order)
    ensures NoDuplicates(DeleteOrder(order)) && forall a :: a in DeleteOrder(order) <==> a in order
  {
    forall a | a in order ensures a in DeleteOrder(order) {
      var i :| 0 <= i < |order| && order[i] == a;
      assert DeleteOrder(order)[|order| - 1 - i] == a;
    }
  }

  method SetUpOps(order: seq<string>, resources: Resources, actions: map<string, ChangeAction>)
    returns (ops: seq<PlannedOp>)
    requires resources.Keys <= actions.Keys && forall a :: a in order ==> a in resources
    ensures |ops| == |order|
    ensures forall i :: 0 <= i < |order| ==>
        order[i] in resources && ops[i] == OpFor(actions[order[i]], order[i], resources[order[i]])
  {
    ops := [];
    for k := 0 to |order|
      invariant |ops| == k
      invariant forall i :: 0 <= i < k ==>
          order[i] in resources && ops[i] == OpFor(actions[order[i]], order[i], resources[order[i]])
    {
      var address := order[k];
      ops := ops + [OpFor(actions[address], address, resources[address])];
    }
  }

  lemma PartsMakePlan(
    setUp: seq<PlannedOp>, tearDown: seq<PlannedOp>, order: seq<string>, deletions: seq<string>,
    resources: Resources, deleted: Entries, actions: map<string, ChangeAction>)
    requires resources.Keys <= actions.Keys
    requires ListsOnce(order, resources.Keys) && ListsOnce(deletions, deleted.Keys)
    requires |setUp| == |order| && forall i :: 0 <= i < |order| ==>
               order[i] in resources && setUp[i] == OpFor(actions[order[i]], order[i], resources[order[i]])
    requires |tearDown| == |deletions| && forall i :: 0 <= i < |deletions| ==>
               deletions[i] in deleted && tearDown[i] == OpFor(Delete, deletions[i], AsResources(deleted)[deletions[i]])
    ensures PlansDomain(setUp + tearDown, order, deletions, resources, deleted, actions)
  {
    hide ListsOnce, OpFor;
    var ops := setUp + tearDown;
    forall i | 0 <= i < |order|
      ensures order[i] in resources && ops[i] == OpFor(actions[order[i]], order[i], resources[order[i]])
    {
      assert ops[i] == setUp[i];
    }
    forall i | 0 <= i < |deletions|
      ensures deletions[i] in deleted
      ensures ops[|order| + i] == OpFor(Delete, deletions[i], AsResources(deleted)[deletions[i]])
    {
      assert ops[|order| + i] == tearDown[i];
    }
  }

  method BuildPlan(resources: Resources, deleted: Entries, actions: map<string, ChangeAction>)
    returns (ops: seq<PlannedOp>)
    requires resources.Keys <= actions.Keys
    ensures exists order, deletions ::
      PlansDomain(ops, order, deletions, resources, deleted, actions)
          && WellOrdered(order, deletions, resources, deleted)
  {
    hide OrderingGraph, NoDuplicates, Settled, TopologicalWithRest, Acyclic, PlansDomain, OpFor;
    var startup := TopologicalOrder(OrderingGraph(resources));
    var leftovers := AsResources(deleted);
    var teardown := ResourceDeleteOrder(leftovers);
    var setUp := SetUpOps(startup, resources, actions);
    var tearDown := SetUpOps(teardown, leftovers, map a | a in leftovers :: Delete);
    ops := setUp + tearDown;
    PartsMakePlan(setUp, tearDown, startup, teardown, resources, deleted, actions);
  }
}
