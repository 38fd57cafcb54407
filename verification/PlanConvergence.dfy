/** Executing a plan brings the snapshot to what was planned, so that planning again finds nothing to do. */
module PlanConvergence {
  import opened Wrappers
  import opened RuntimeModels
  import opened DependencyGraph
  import opened Plans
  import opened Planner

  /** The operations are a plan for one domain, in whichever order. */
  ghost predicate IsPlan(
    ops: seq<PlannedOp>, resources: Resources, deleted: Entries, actions: map<string, ChangeAction>) {
    exists order, deletions :: PlansDomain(ops, order, deletions, resources, deleted, actions)
  }

  /** What a plan holds: one operation for each resource and one deletion for each deleted entry, and nothing else. */
  lemma PlanHolds(ops: seq<PlannedOp>, resources: Resources, deleted: Entries, actions: map<string, ChangeAction>)
    requires IsPlan(ops, resources, deleted, actions) && resources.Keys !! deleted.Keys
    ensures resources.Keys <= actions.Keys && DistinctAddresses(ops) && Touched(ops) == resources.Keys + deleted.Keys
    ensures forall a :: a in resources ==> exists k :: 0 <= k < |ops| && ops[k] == OpFor(actions[a], a, resources[a])
    ensures forall a :: a in deleted ==> exists k :: 0 <= k < |ops| && ops[k].action.Delete? && ops[k].address == a
  {
    hide DistinctAddresses, Touched;
    var order, deletions :| PlansDomain(ops, order, deletions, resources, deleted, actions);
    forall a | a in resources ensures exists k :: 0 <= k < |ops| && ops[k] == OpFor(actions[a], a, resources[a]) {
      var i :| 0 <= i < |order| && order[i] == a;
      assert ops[i] == OpFor(actions[a], a, resources[a]);
    }
    forall a | a in deleted ensures exists k :: 0 <= k < |ops| && ops[k].action.Delete? && ops[k].address == a {
      var i :| 0 <= i < |deletions| && deletions[i] == a;
      assert ops[|order| + i].address == a;
    }
    PlanAddresses(ops, order, deletions, resources, deleted);
  }

  lemma PlanAddresses(
    ops: seq<PlannedOp>, order: seq<string>, deletions: seq<string>, resources: Resources, deleted: Entries)
    requires resources.Keys !! deleted.Keys
    requires NoDuplicates(order) && (forall a :: a in order <==> a in resources)
    requires NoDuplicates(deletions) && (forall a :: a in deletions <==> a in deleted)
    requires |ops| == |order| + |deletions|
    requires forall i :: 0 <= i < |order| ==> ops[i].address == order[i]
    requires forall i :: 0 <= i < |deletions| ==> ops[|order| + i].address == deletions[i]
    ensures DistinctAddresses(ops) && Touched(ops) == resources.Keys + deleted.Keys
  {
    var addresses := order + deletions;
    forall i | 0 <= i < |ops| ensures ops[i].address == addresses[i] {
      if i >= |order| {
        assert ops[|order| + (i - |order|)].address == deletions[i - |order|];
      }
    }
    assert forall i :: 0 <= i < |order| ==> addresses[i] in order;
    assert forall i :: |order| <= i < |ops| ==> addresses[i] in deletions;
    forall a | a in resources.Keys + deleted.Keys ensures a in Touched(ops) {
      assert a in addresses;
      var i :| 0 <= i < |addresses| && addresses[i] == a;
      assert ops[i].address == a;
    }
  }

  /**
    Executing a domain's plan makes its resources match, removes its deleted entries, and leaves every other entry
    alone.
   */
  lemma ExecutedPlan(
    entries: Entries, domain: RuntimeDomain, ops: seq<PlannedOp>,
    resources: Resources, deleted: Entries, actions: map<string, ChangeAction>)
    requires IsPlan(ops, resources, deleted, actions) && resources.Keys !! deleted.Keys
    requires forall a :: a in resources ==> resources[a].domain == domain && a in actions && !actions[a].Delete?
    ensures var after := Executed(entries, domain, ops);
            && (forall a :: a in resources ==> a in after && Matches(after[a], resources[a]))
            && (forall a :: a in deleted ==> a !in after)
            && (forall a :: a !in resources && a !in deleted ==>
                  (a in after <==> a in entries) && (a in entries ==> after[a] == entries[a]))
  {
    PlanHolds(ops, resources, deleted, actions);
    var after := Executed(entries, domain, ops);
    forall a | a in resources ensures a in after && Matches(after[a], resources[a]) {
      var k :| 0 <= k < |ops| && ops[k] == OpFor(actions[a], a, resources[a]);
      ExecutedAt(entries, domain, ops, k);
    }
    forall a | a in deleted ensures a !in after {
      var k :| 0 <= k < |ops| && ops[k].action.Delete? && ops[k].address == a;
      ExecutedAt(entries, domain, ops, k);
    }
    forall a | a !in resources && a !in deleted
      ensures (a in after <==> a in entries) && (a in entries ==> after[a] == entries[a])
    {
      ExecutedElsewhere(entries, domain, ops, a);
    }
  }

  /** The entries without a resource. */
  function Leftover(resources: Resources, entries: Entries): Entries {
    map a | a in entries && a !in resources :: entries[a]
  }

  /** A plan for one domain of the whole model. */
  ghost predicate PlansPart(
    ops: seq<PlannedOp>, domain: RuntimeDomain, resources: Resources, entries: Entries, actions: map<string,
    ChangeAction>)
  {
    IsPlan(ops, OfDomain(resources, domain), EntriesOf(Leftover(resources, entries), domain), actions)
  }

  /** The actions are those that reconciliation assigns to the resources. */
  ghost predicate Decides(resources: Resources, entries: Entries, actions: map<string, ChangeAction>) {
    forall a :: a in resources ==> a in actions && actions[a] == ActionFor(resources, entries, a)
  }

  /** The address belongs to a resource of the domain, or to an entry of the domain that is to be deleted. */
  predicate InPart(a: string, domain: RuntimeDomain, resources: Resources, entries: Entries) {
    if a in resources then resources[a].domain == domain else a in entries && entries[a].domain == domain
  }

  predicate SameEntryAt(a: string, before: Entries, after: Entries) {
    (a in after <==> a in before) && (a in before ==> after[a] == before[a])
  }

  /** The resources of the domain match, its deleted entries are gone, and the rest is as it was. */
  ghost predicate PartDone(
    start: Entries, after: Entries, domain: RuntimeDomain, resources: Resources, entries: Entries) {
    && (forall a :: a in resources && resources[a].domain == domain ==> a in after && Matches(after[a], resources[a]))
    && (forall a :: a !in resources && InPart(a, domain, resources, entries) ==> a !in after)
    && (forall a :: !InPart(a, domain, resources, entries) ==> SameEntryAt(a, start, after))
  }

  lemma ExecutedPart(
    start: Entries, domain: RuntimeDomain, ops: seq<PlannedOp>,
    resources: Resources, entries: Entries, actions: map<string, ChangeAction>)
    requires PlansPart(ops, domain, resources, entries, actions) && Decides(resources, entries, actions)
    ensures PartDone(start, Executed(start, domain, ops), domain, resources, entries)
  {
    hide Matches, IsPlan, Decides, OfDomain, EntriesOf, InPart;
    PartKeys(domain, resources, entries);
    ResourcesAreKept(resources, entries, actions);
    ExecutedPlan(start, domain, ops, OfDomain(resources, domain), EntriesOf(Leftover(resources, entries), domain),
        actions);
  }

  lemma PartKeys(domain: RuntimeDomain, resources: Resources, entries: Entries)
    ensures forall a :: a in OfDomain(resources, domain) <==> a in resources && InPart(a, domain, resources, entries)
    ensures forall a :: a in resources && resources[a].domain == domain <==> a in OfDomain(resources, domain)
    ensures forall a :: a in OfDomain(resources, domain) ==> OfDomain(resources, domain)[a] == resources[a]
    ensures forall a :: a in EntriesOf(Leftover(resources, entries), domain)
                        <==> a !in resources && InPart(a, domain, resources, entries)
  {
  }

  lemma ResourcesAreKept(resources: Resources, entries: Entries, actions: map<string, ChangeAction>)
    requires Decides(resources, entries, actions)
    ensures forall a :: a in resources ==> a in actions && !actions[a].Delete?
  {
    hide Matches, Impacted;
  }

  /** A part without actionable operations has only resources that match already, and no deletions. */
  lemma IdlePart(
    domain: RuntimeDomain, ops: seq<PlannedOp>, resources: Resources, entries: Entries, actions: map<string,
    ChangeAction>)
    requires PlansPart(ops, domain, resources, entries, actions) && Decides(resources, entries, actions)
    requires !HasActionable(ops)
    ensures forall a :: a in resources && resources[a].domain == domain ==>
        a in entries && Matches(entries[a], resources[a])
    ensures forall a :: InPart(a, domain, resources, entries) ==> a in resources
  {
    hide Matches, IsPlan, Impacted, HasActionable;
    var part, deleted := OfDomain(resources, domain), EntriesOf(Leftover(resources, entries), domain);
    PlanHolds(ops, part, deleted, actions);
    forall a | a in part ensures a in entries && Matches(entries[a], resources[a]) {
      var k :| 0 <= k < |ops| && ops[k] == OpFor(actions[a], a, part[a]);
      if ops[k].IsActionable() {
        OneIsEnough(ops, k);
      }
    }
    if a :| a in deleted {
      var k :| 0 <= k < |ops| && ops[k].action.Delete? && ops[k].address == a;
      OneIsEnough(ops, k);
    }
    assert forall a :: a in deleted <==> a !in resources && InPart(a, domain, resources, entries);
  }

  lemma OneIsEnough(ops: seq<PlannedOp>, k: nat)
    requires k < |ops| && ops[k].IsActionable()
    ensures HasActionable(ops)
  {
  }

  /** What becomes of the entries if a part is executed only when something in it is to be done. */
  function DonePart(entries: Entries, domain: RuntimeDomain, ops: seq<PlannedOp>): Entries {
    if HasActionable(ops) then Executed(entries, domain, ops) else entries
  }

  lemma PartIsDone(
    start: Entries, domain: RuntimeDomain, ops: seq<PlannedOp>,
    resources: Resources, entries: Entries, actions: map<string, ChangeAction>)
    requires PlansPart(ops, domain, resources, entries, actions) && Decides(resources, entries, actions)
    requires forall a :: InPart(a, domain, resources, entries) ==> SameEntryAt(a, entries, start)
    ensures PartDone(start, DonePart(start, domain, ops), domain, resources, entries)
  {
    hide Matches, PlansPart, Decides, HasActionable;
    if HasActionable(ops) {
      ExecutedPart(start, domain, ops, resources, entries, actions);
    } else {
      IdlePart(domain, ops, resources, entries, actions);
      assert forall a :: a in resources && resources[a].domain == domain ==> InPart(a, domain, resources, entries);
    }
  }

  /**
    The entries after an apply that goes through: provisioning always, the other parts only if there is something to
    do.
   */
  function AfterApply(
    entries: Entries, provisioning: seq<PlannedOp>, evaluation: seq<PlannedOp>, orchestration: seq<PlannedOp>): Entries
  {
    DonePart(DonePart(Executed(entries, Provisioning, provisioning), Evaluation, evaluation), Orchestration,
        orchestration)
  }

  /** Every resource is unchanged, and nothing else is left but what was there of the participant domain. */
  ghost predicate Converged(resources: Resources, entries: Entries, after: Entries) {
    && (forall a :: a in resources ==> ActionFor(resources, after, a).Unchanged?)
    && (forall a :: a in after && a !in resources <==>
        a in entries && a !in resources && entries[a].domain.Participant?)
    && (forall a :: a in after && a !in resources ==> after[a] == entries[a])
  }

  /**
    After a plan has been applied, every resource has a matching entry and nothing else is left but entries of the
    participant domain, for which no part is ever planned.
   */
  lemma ApplyingConverges(
    resources: Resources, entries: Entries, actions: map<string, ChangeAction>,
    provisioning: seq<PlannedOp>, evaluation: seq<PlannedOp>, orchestration: seq<PlannedOp>)
    requires Decides(resources, entries, actions)
    requires forall a :: a in resources ==> !resources[a].domain.Participant?
    requires PlansPart(provisioning, Provisioning, resources, entries, actions)
    requires PlansPart(evaluation, Evaluation, resources, entries, actions)
    requires PlansPart(orchestration, Orchestration, resources, entries, actions)
    ensures Converged(resources, entries, AfterApply(entries, provisioning, evaluation, orchestration))
  {
    hide Matches, PlansPart, Decides, HasActionable, ActionFor;
    var first := Executed(entries, Provisioning, provisioning);
    ExecutedPart(entries, Provisioning, provisioning, resources, entries, actions);
    var second := DonePart(first, Evaluation, evaluation);
    PartIsDone(first, Evaluation, evaluation, resources, entries, actions);
    forall a | InPart(a, Orchestration, resources, entries) ensures SameEntryAt(a, entries, second) {
      assert !InPart(a, Provisioning, resources, entries) && !InPart(a, Evaluation, resources, entries);
    }
    PartIsDone(second, Orchestration, orchestration, resources, entries, actions);
    var after := DonePart(second, Orchestration, orchestration);
    PartsCompose(resources, entries, first, second, after);
    NothingToDoIff(resources, after);
  }

  lemma PartsCompose(resources: Resources, entries: Entries, first: Entries, second: Entries, after: Entries)
    requires forall a :: a in resources ==> !resources[a].domain.Participant?
    requires PartDone(entries, first, Provisioning, resources, entries)
    requires PartDone(first, second, Evaluation, resources, entries)
    requires PartDone(second, after, Orchestration, resources, entries)
    ensures forall a :: a in resources ==> a in after && Matches(after[a], resources[a])
    ensures forall a :: a in after && a !in resources <==>
        a in entries && a !in resources && entries[a].domain.Participant?
    ensures forall a :: a in after && a !in resources ==> after[a] == entries[a]
  {
    hide Matches;
    forall a
      ensures a in resources ==> a in after && Matches(after[a], resources[a])
      ensures a in after && a !in resources <==> a in entries && a !in resources && entries[a].domain.Participant?
      ensures a in after && a !in resources ==> after[a] == entries[a]
    {
      var p, e, o := InPart(a, Provisioning, resources, entries), InPart(a, Evaluation, resources, entries),
      InPart(a, Orchestration, resources, entries);
      assert !p ==> SameEntryAt(a, entries, first);
      assert !e ==> SameEntryAt(a, first, second);
      assert !o ==> SameEntryAt(a, second, after);
    }
  }

  /** So in a second plan, whatever the part, nothing is actionable. */
  lemma SecondPlanIsIdle(
    resources: Resources, entries: Entries, after: Entries, actions: map<string, ChangeAction>,
    domain: RuntimeDomain, ops: seq<PlannedOp>)
    requires Converged(resources, entries, after) && !domain.Participant?
    requires PlansPart(ops, domain, resources, after, actions) && Decides(resources, after, actions)
    ensures !HasActionable(ops)
  {
    hide ActionFor;
    var deleted := EntriesOf(Leftover(resources, after), domain);
    var order, deletions :| PlansDomain(ops, order, deletions, OfDomain(resources, domain), deleted, actions);
    assert deletions == [] by {
      assert forall a :: a !in deleted;
      DistinctLength(deletions, {});
    }
    forall op | op in ops ensures !op.IsActionable() {
      var i :| 0 <= i < |ops| && ops[i] == op;
      assert order[i] in resources;
    }
  }
}
