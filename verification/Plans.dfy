/** Planned resources, the operations of a plan, and what executing operations does to the entries of a snapshot. */
module Plans {
  import opened RuntimeModels

  datatype ChangeAction = Create | Update | Delete | Unchanged

  datatype PlannedResource = PlannedResource(
    address: string,
    domain: RuntimeDomain,
    resourceType: ResourceType,
    payload: EntryPayload,
    orderingDependencies: seq<string>,
    refreshDependencies: seq<string>)

  datatype PlannedOp = PlannedOp(
    action: ChangeAction,
    address: string,
    resourceType: ResourceType,
    payload: EntryPayload,
    orderingDependencies: seq<string>,
    refreshDependencies: seq<string>)
  {
    predicate IsActionable() {
      !action.Unchanged?
    }
  }

  predicate HasActionable(ops: seq<PlannedOp>) {
    exists op :: op in ops && op.IsActionable()
  }

  function StatusOf(domain: RuntimeDomain, op: PlannedOp): string {
    match domain
    case Provisioning => if op.action.Unchanged? then "unchanged" else "applied"
    case Orchestration =>
      if op.resourceType.Event? || op.resourceType.Script? || op.resourceType.Story?
          || op.resourceType.Workflow? then "queued" else "bound"
    case Evaluation => "evaluating"
    case Participant => ""
  }

  function EntryFor(domain: RuntimeDomain, op: PlannedOp): SnapshotEntry {
    SnapshotEntry(op.address, domain, op.resourceType, op.payload, op.orderingDependencies, op.refreshDependencies,
        StatusOf(domain, op))
  }

  /** Deletions remove the entry; every other operation, an unchanged one too, writes it. */
  function ExecuteOp(
    entries: map<string, SnapshotEntry>, domain: RuntimeDomain, op: PlannedOp): map<string, SnapshotEntry> {
    if op.action.Delete? then entries - {op.address} else entries[op.address := EntryFor(domain, op)]
  }

  function Executed(
    entries: map<string, SnapshotEntry>, domain: RuntimeDomain, ops: seq<PlannedOp>): map<string, SnapshotEntry> {
    if ops == [] then entries
    else ExecuteOp(Executed(entries, domain, ops[..|ops| - 1]), domain, ops[|ops| - 1])
  }

  function Touched(ops: seq<PlannedOp>): set<string> {
    set i | 0 <= i < |ops| :: ops[i].address
  }

  /** The changed addresses of an execution: those of the operations that act. */
  function Changed(ops: seq<PlannedOp>): seq<string> {
    if ops == [] then []
    else
      var last := ops[|ops| - 1];
      Changed(ops[..|ops| - 1]) + (if last.IsActionable() then [last.address] else [])
  }

  predicate DistinctAddresses(ops: seq<PlannedOp>) {
    forall i, j :: 0 <= i < j < |ops| ==> ops[i].address != ops[j].address
  }

  /** No later operation is on the same address. */
  predicate LastAt(ops: seq<PlannedOp>, k: nat)
    requires k < |ops|
  {
    forall j :: k < j < |ops| ==> ops[j].address != ops[k].address
  }

  lemma {:induction false} LastOpExists(ops: seq<PlannedOp>, a: string) returns (k: nat)
    requires a in Touched(ops)
    ensures k < |ops| && ops[k].address == a && LastAt(ops, k)
  {
    var front, last := ops[..|ops| - 1], ops[|ops| - 1];
    if last.address == a {
      k := |ops| - 1;
    } else {
      var i :| 0 <= i < |ops| && ops[i].address == a;
      assert front[i].address == a;
      k := LastOpExists(front, a);
      assert forall j :: k < j < |front| ==> ops[j] == front[j];
    }
  }

  lemma {:induction false} ExecutedElsewhere(
    entries: map<string, SnapshotEntry>, domain: RuntimeDomain, ops: seq<PlannedOp>, a: string)
    requires a !in Touched(ops)
    ensures a in Executed(entries, domain, ops) <==> a in entries
    ensures a in entries ==> Executed(entries, domain, ops)[a] == entries[a]
  {
    if ops != [] {
      var front, last := ops[..|ops| - 1], ops[|ops| - 1];
      assert last.address in Touched(ops);
      assert forall i :: 0 <= i < |front| ==> ops[i] == front[i];
      ExecutedElsewhere(entries, domain, front, a);
    }
  }

  /** The last operation on an address has the last word on it. */
  lemma {:induction false} ExecutedAt(
    entries: map<string, SnapshotEntry>, domain: RuntimeDomain, ops: seq<PlannedOp>, k: nat)
    requires k < |ops| && LastAt(ops, k)
    ensures var a, after := ops[k].address, Executed(entries, domain, ops);
            if ops[k].action.Delete? then a !in after else a in after && after[a] == EntryFor(domain, ops[k])
  {
    var front, last := ops[..|ops| - 1], ops[|ops| - 1];
    if k < |front| {
      ExecutedAt(entries, domain, front, k);
      assert front[k] == ops[k] && last.address != ops[k].address;
    }
  }
}
