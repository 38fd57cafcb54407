/** Idempotency keys over interleaved runs: one operation for each key, replays, conflicts, and what breaks them. */
module Idempotency {
  import opened Wrappers
  import opened RuntimeModels
  import opened StorePayloads
  import opened OperationStore
  import opened WorkflowControl
  import opened BackendBoundary
  import opened ControlPlane
  import opened ControlPlaneRuns

  // ------------------------------------------------------------------ invariant

  /** Each non-empty key has at most one holder, and an index knows it. */
  predicate KeysBound(v: StoreView) {
    && (forall a, b | a in v.records && b in v.records ::
          v.records[a].idempotencyKey != "" && v.records[a].idempotencyKey == v.records[b].idempotencyKey ==> a == b)
    && (v.MemoryView? ==>
          && (forall key :: key in v.index ==>
              v.index[key] in v.records && v.records[v.index[key]].idempotencyKey == key)
          && (forall id :: id in v.records && v.records[id].idempotencyKey != "" ==>
              v.records[id].idempotencyKey in v.index))
  }

  /** The plane's copy of the log is the store's, under the operations' own ids. */
  predicate Mirrored(p: PlaneState) {
    p.operations == p.store.records && NamedRecords(p.operations)
  }

  /** The plane mirrors its store, and keys are bound. */
  predicate Coherent(p: PlaneState) {
    Mirrored(p) && KeysBound(p.store)
  }

  /** A key is bound to the operation that holds it, whichever store is asked. */
  lemma FoundIsTheHolder(v: StoreView, key: string)
    requires KeysBound(v) && key != ""
    ensures Find(v, key).None? <==> Holders(v.records, key) == {}
    ensures forall id :: id in Holders(v.records, key) ==> Find(v, key) == Some(v.records[id])
  {
    assert v.MemoryView? && key in v.index ==> v.index[key] in Holders(v.records, key);
    if id :| id in Holders(v.records, key) {
      assert forall other :: other in Holders(v.records, key) ==> other == id;
      assert Holders(v.records, key) == {id};
      OnlyHolderIsFound(v.records, key, id);
    } else {
      assert Holders(v.records, key) == {};
      ScanFinds(v.records, key);
    }
  }

  // -------------------------------------------------- one step, on every target

  lemma PerformKeepsMirrored(p: PlaneState, request: Request, findings: seq<Diagnostic>)
    requires Mirrored(p)
    ensures Mirrored(Perform(p, request, findings).1)
  {
    hide Cancellation, Reconciled, AllReadable, DueInOrder, RejectedAt, Screened;
  }

  /** Every step on every target, with whatever operation id, leaves the plane's copy equal to the store's records. */
  lemma StepKeepsMirrored(target: Target, p: PlaneState, request: Request, findings: seq<Diagnostic>)
    requires Mirrored(p)
    ensures Mirrored(Step(target, p, request, findings).1)
  {
    hide Perform, RulingOn, RejectedAt;
    ReplayChangesNothing(p, request.key, request.fingerprint);
    PerformKeepsMirrored(p, request, findings);
  }

  /** So the copy is the store's after every run. */
  lemma {:induction false} RunsStayMirrored(target: Target, p: PlaneState, turns: seq<Turn>)
    requires Mirrored(p)
    ensures Mirrored(Run(target, p, turns))
  {
    hide Mirrored, Step;
    if turns != [] {
      var front, last := turns[..|turns| - 1], turns[|turns| - 1];
      RunsStayMirrored(target, p, front);
      StepKeepsMirrored(target, Run(target, p, front), last.request, last.findings);
    }
  }

  // ---------------------------------------------- one step, with a fresh operation id

  /** A rejection for want of a participant runtime records its key without looking it up first. */
  predicate BypassesLookup(target: Target, p: PlaneState, request: Request) {
    request.action.Participate? && !target.hasParticipantRuntime && request.key != ""
        && Holders(p.operations, request.key) != {}
  }

  lemma SecondHolderUnbinds(v: StoreView, record: OperationRecord, other: string)
    requires record.idempotencyKey != "" && other in Holders(v.records, record.idempotencyKey)
        && other != record.receipt.operationId
    ensures !KeysBound(WithRecord(v, record))
  {
    var next, id := WithRecord(v, record).records, record.receipt.operationId;
    assert next[other].idempotencyKey == next[id].idempotencyKey;
  }

  lemma OnlyHolderStaysBound(v: StoreView, record: OperationRecord)
    requires KeysBound(v)
    requires var id := record.receipt.operationId;
             id in v.records ==> v.records[id].idempotencyKey == record.idempotencyKey
    requires record.idempotencyKey == "" || Holders(v.records, record.idempotencyKey) <= {record.receipt.operationId}
    ensures KeysBound(WithRecord(v, record))
  {
    var key := record.idempotencyKey;
    assert forall other :: other in v.records && v.records[other].idempotencyKey == key ==>
        other in Holders(v.records, key);
  }

  /** Saving a record keeps the plane coherent exactly when no other operation holds its key. */
  lemma PersistKeepsCoherentIff(p: PlaneState, record: OperationRecord)
    requires Coherent(p)
    requires var id := record.receipt.operationId;
             id in p.operations ==> p.operations[id].idempotencyKey == record.idempotencyKey
    ensures Coherent(Persist(p, record))
            <==> (record.idempotencyKey == ""
                || Holders(p.operations, record.idempotencyKey) <= {record.receipt.operationId})
  {
    hide KeysBound;
    var id, key := record.receipt.operationId, record.idempotencyKey;
    if key != "" && !(Holders(p.operations, key) <= {id}) {
      var other :| other in Holders(p.operations, key) && other != id;
      SecondHolderUnbinds(p.store, record, other);
    } else {
      OnlyHolderStaysBound(p.store, record);
    }
  }

  lemma AdoptKeepsCoherent(p: PlaneState, s: RuntimeSnapshot)
    ensures Coherent(Adopt(p, s)) <==> Coherent(p)
  {
  }

  /** What a step may do to the log: nothing, or one new finished record under the request's own id. */
  ghost predicate Logs(p: PlaneState, q: PlaneState, request: Request, outcome: Outcome<OperationReceipt>) {
    || (q.operations == p.operations && q.store == p.store && q.snapshot == p.snapshot)
    || (&& request.operationId in q.operations
        && q.operations == p.operations[request.operationId := q.operations[request.operationId]]
        && var record := q.operations[request.operationId];
        && outcome == Returned(record.receipt) && record.receipt.operationId == request.operationId
        && record.status.operationId == request.operationId
        && (record.status.state.OpSucceeded? || record.status.state.OpFailed?)
        && ((record.idempotencyKey == request.key && record.requestFingerprint == request.fingerprint)
            || record.idempotencyKey == ""))
  }

  lemma ExecuteLogs(p: PlaneState, request: Request, findings: seq<Diagnostic>)
    requires Coherent(p) && request.operationId !in p.operations && CallsBackend(request.action)
    requires request.key == "" || Holders(p.operations, request.key) == {}
    ensures var (outcome, q) := Perform(p, request, findings);
            && Coherent(q) && Logs(p, q, request, outcome)
            && request.operationId in q.operations
            && q.operations[request.operationId].idempotencyKey == request.key
            && q.operations[request.operationId].requestFingerprint == request.fingerprint
  {
    hide Coherent, Screened;
    var base := BaseOf(p, request.action);
    var result := Screened(request.action.outcome, base, findings);
    var diagnostics := Validation(request.action);
    var running, final := RunningRecord(request, diagnostics), FinalRecord(request, diagnostics, result);
    var p1 := Persist(p, running);
    PersistKeepsCoherentIff(p, running);
    var p2 := Adopt(p1, result.snapshot);
    AdoptKeepsCoherent(p1, result.snapshot);
    assert Holders(p2.operations, request.key) <= Holders(p.operations, request.key) + {request.operationId};
    PersistKeepsCoherentIff(p2, final);
    assert Persist(p2, final).operations == p.operations[request.operationId := final];
  }

  lemma DirectLogs(p: PlaneState, request: Request, findings: seq<Diagnostic>)
    requires Coherent(p) && request.operationId !in p.operations && !CallsBackend(request.action)
    requires request.key == "" || Holders(p.operations, request.key) == {}
    ensures var (outcome, q) := Perform(p, request, findings);
            && Coherent(q) && Logs(p, q, request, outcome)
            && (outcome.Raised? <==> q.operations == p.operations)
            && (outcome.Returned? ==> request.operationId in q.operations
                                      && q.operations[request.operationId].idempotencyKey == request.key
                                      && q.operations[request.operationId].requestFingerprint == request.fingerprint)
            && (outcome.Raised? ==> q == p)
  {
    hide Coherent, Cancellation, Reconciled, AllReadable, DueInOrder, RejectedAt;
    var rejection := RejectionRecord(request, request.key, request.fingerprint);
    PersistKeepsCoherentIff(p, rejection);
    if request.action.Cancel? {
      var verdict := Cancellation(p.snapshot, request.action.address, request.action.runId, request.action.reason,
          request.at);
      var p1 := if verdict.Cancels? then Adopt(p, verdict.next) else p;
      AdoptKeepsCoherent(p, p1.snapshot);
      PersistKeepsCoherentIff(p1,
          DoneRecord(request, request.at, if verdict.Cancels? then [request.action.address] else []));
    } else {
      var now := ReconcilesAt(request);
      var p1 := Adopt(p, Reconciled(p.snapshot, now));
      AdoptKeepsCoherent(p, p1.snapshot);
      PersistKeepsCoherentIff(p1, DoneRecord(request, now, DueInOrder(p.snapshot, now, request.action.order)));
    }
  }

  /** A replay leaves everything as it is: what was found sits under its own id already. */
  lemma ReplayChangesNothing(p: PlaneState, key: string, fingerprint: string)
    requires Mirrored(p)
    ensures Replayed(p, RulingOn(p.store, key, fingerprint)) == p
  {
  }

  lemma FoundIsStored(v: StoreView, key: string)
    requires NamedRecords(v.records) && Find(v, key).Some?
    ensures var record := Find(v, key).value;
            record.receipt.operationId in v.records && v.records[record.receipt.operationId] == record
  {
  }

  /**
    A step with a fresh operation id keeps the plane coherent exactly when it does not record a held key unseen.
   */
  lemma StepKeepsCoherentIff(target: Target, p: PlaneState, request: Request, findings: seq<Diagnostic>)
    requires Coherent(p) && request.operationId !in p.operations
    ensures var (outcome, q) := Step(target, p, request, findings);
            && Logs(p, q, request, outcome)
            && (Coherent(q) <==> !BypassesLookup(target, p, request))
  {
    hide Coherent, Perform, RejectedAt;
    if Unserved(target, request.action) {
      PersistKeepsCoherentIff(p, RejectionRecord(request, request.key, request.fingerprint));
      PersistKeepsCoherentIff(p, RejectionRecord(request, "", ""));
      assert forall ids: set<string> :: request.operationId !in ids && ids <= {request.operationId} ==> ids == {};
    } else {
      ActingStepLogs(target, p, request, findings);
    }
  }

  lemma ActingStepLogs(target: Target, p: PlaneState, request: Request, findings: seq<Diagnostic>)
    requires Coherent(p) && request.operationId !in p.operations && !Unserved(target, request.action)
    ensures var (outcome, q) := Step(target, p, request, findings);
            && Logs(p, q, request, outcome) && Coherent(q)
            && (outcome.Returned? && request.key != "" ==>
                  && Find(q.store, request.key).Some? && Find(q.store, request.key).value.receipt == outcome.value)
  {
    hide Coherent, Perform, Find, KeysBound;
    var ruling := RulingOn(p.store, request.key, request.fingerprint);
    CoherentParts(p);
    ReplayChangesNothing(p, request.key, request.fingerprint);
    if ruling.Proceeds? {
      if request.key != "" {
        FoundIsTheHolder(p.store, request.key);
      }
      if CallsBackend(request.action) {
        ExecuteLogs(p, request, findings);
      } else {
        DirectLogs(p, request, findings);
      }
      var (outcome, q) := Perform(p, request, findings);
      CoherentParts(q);
      if outcome.Returned? && request.key != "" {
        assert request.operationId in Holders(q.store.records, request.key);
        FoundIsTheHolder(q.store, request.key);
      }
    }
  }

  lemma CoherentParts(p: PlaneState)
    requires Coherent(p)
    ensures Mirrored(p) && p.operations == p.store.records && KeysBound(p.store) && NamedRecords(p.operations)
  {
  }

  // --------------------------------------------------------------------- runs

  /** Every request draws an operation id that no other request of the run draws and no earlier operation has. */
  predicate FreshIds(p: PlaneState, turns: seq<Turn>) {
    && (forall i :: 0 <= i < |turns| ==> turns[i].request.operationId !in p.operations)
    && (forall i, j :: 0 <= i < j < |turns| ==> turns[i].request.operationId != turns[j].request.operationId)
  }

  predicate Finished(record: OperationRecord) {
    record.status.state.OpSucceeded? || record.status.state.OpFailed?
  }

  function Drawn(turns: seq<Turn>): set<string> {
    set i | 0 <= i < |turns| :: turns[i].request.operationId
  }

  /** Recorded operations stay as they are, and new ones are finished and bear the ids that the run draws. */
  predicate LogGrows(p: PlaneState, q: PlaneState, drawn: set<string>) {
    && KeepsOperations(p, q)
    && (forall id :: id in q.operations && id !in p.operations ==> id in drawn && Finished(q.operations[id]))
  }

  lemma PerformGrows(p: PlaneState, request: Request, findings: seq<Diagnostic>)
    requires request.operationId !in p.operations
    ensures LogGrows(p, Perform(p, request, findings).1, {request.operationId})
  {
    hide Cancellation, Reconciled, AllReadable, DueInOrder, RejectedAt, Screened, WithRecord, WithSnapshot;
  }

  lemma StepGrows(target: Target, p: PlaneState, request: Request, findings: seq<Diagnostic>)
    requires Mirrored(p) && request.operationId !in p.operations
    ensures LogGrows(p, Step(target, p, request, findings).1, {request.operationId})
  {
    hide Perform, RulingOn, RejectedAt, WithRecord;
    ReplayChangesNothing(p, request.key, request.fingerprint);
    PerformGrows(p, request, findings);
  }

  /**
    What a caller reads of an operation stays what it is: over every run on every target recorded operations never
    change, and every new one is finished when its request returns.
   */
  lemma {:induction false} OperationsLast(target: Target, p: PlaneState, turns: seq<Turn>)
    requires Mirrored(p) && FreshIds(p, turns)
    ensures LogGrows(p, Run(target, p, turns), Drawn(turns))
  {
    hide Mirrored, Step;
    if turns != [] {
      var front, last := turns[..|turns| - 1], turns[|turns| - 1];
      OperationsLast(target, p, front);
      RunsStayMirrored(target, p, front);
      DrawnOneMore(front, last);
      assert turns == front + [last];
      StepGrows(target, Run(target, p, front), last.request, last.findings);
    }
  }

  lemma DrawnOneMore(front: seq<Turn>, last: Turn)
    ensures Drawn(front + [last]) == Drawn(front) + {last.request.operationId}
  {
    var turns := front + [last];
    assert forall i :: 0 <= i < |front| ==> turns[i] == front[i];
    assert turns[|front|] == last;
  }

  /** The plane before the turn with the given number. */
  ghost function Before(target: Target, p: PlaneState, turns: seq<Turn>, k: nat): PlaneState
    requires k < |turns|
  {
    Run(target, p, turns[..k])
  }

  /** No turn of the run records a held key unseen; on a target with a participant runtime none ever does. */
  ghost predicate NeverBypasses(target: Target, p: PlaneState, turns: seq<Turn>) {
    forall k | 0 <= k < |turns| :: !BypassesLookup(target, Before(target, p, turns, k), turns[k].request)
  }

  lemma PrefixNeverBypasses(target: Target, p: PlaneState, turns: seq<Turn>, k: nat)
    requires NeverBypasses(target, p, turns) && k <= |turns|
    ensures NeverBypasses(target, p, turns[..k])
  {
    hide BypassesLookup, Run;
    forall i | 0 <= i < k ensures !BypassesLookup(target, Before(target, p, turns[..k], i), turns[i].request) {
      assert turns[..k][..i] == turns[..i];
      assert Before(target, p, turns[..k], i) == Before(target, p, turns, i);
    }
  }

  lemma ServingParticipantsNeverBypasses(target: Target, p: PlaneState, turns: seq<Turn>)
    requires target.hasParticipantRuntime
    ensures NeverBypasses(target, p, turns)
  {
  }

  /** Over every interleaved run in which no held key is recorded unseen, each key stays bound to one operation. */
  lemma {:induction false} RunsStayCoherent(target: Target, p: PlaneState, turns: seq<Turn>)
    requires Coherent(p) && FreshIds(p, turns) && NeverBypasses(target, p, turns)
    ensures Coherent(Run(target, p, turns))
  {
    hide Coherent, Step, BypassesLookup, NeverBypasses;
    if turns != [] {
      var n := |turns| - 1;
      PrefixNeverBypasses(target, p, turns, n);
      RunsStayCoherent(target, p, turns[..n]);
      CoherentParts(p);
      FreshAt(target, p, turns, n);
      LastNeverBypasses(target, p, turns, n);
      StepKeepsCoherentIff(target, Run(target, p, turns[..n]), turns[n].request, turns[n].findings);
    }
  }

  lemma LastNeverBypasses(target: Target, p: PlaneState, turns: seq<Turn>, n: nat)
    requires NeverBypasses(target, p, turns) && n < |turns|
    ensures !BypassesLookup(target, Run(target, p, turns[..n]), turns[n].request)
  {
    assert !BypassesLookup(target, Before(target, p, turns, n), turns[n].request);
  }

  lemma {:induction false} RunSplits(target: Target, p: PlaneState, turns: seq<Turn>, k: nat)
    requires k <= |turns|
    ensures Run(target, p, turns) == Run(target, Run(target, p, turns[..k]), turns[k..])
    decreases |turns|
  {
    hide Step;
    if k == |turns| {
      assert turns[..k] == turns && turns[k..] == [];
    } else {
      var front := turns[..|turns| - 1];
      RunSplits(target, p, front, k);
      assert front[..k] == turns[..k] && front[k..] == turns[k..][..|turns| - k - 1];
      assert turns[k..][|turns| - k - 1] == turns[|turns| - 1];
    }
  }

  ghost function ReplyAt(target: Target, p: PlaneState, turns: seq<Turn>, k: nat): Outcome<OperationReceipt>
    requires k < |turns|
  {
    Step(target, Before(target, p, turns, k), turns[k].request, turns[k].findings).0
  }

  /** The target has what the action needs. */
  predicate Serves(target: Target, action: Action) {
    && (action.Orchestrate? ==> target.hasOrchestrator) && (action.Evaluate? ==> target.hasEvaluator)
    && (action.Participate? ==> target.hasParticipantRuntime)
  }

  /** The plane acts on a request exactly when the target serves it and no recorded operation holds its key. */
  lemma ActsIff(target: Target, p: PlaneState, request: Request)
    requires Coherent(p)
    ensures Acts(target, p, request) <==>
      && Serves(target, request.action)
      && (request.key == "" || forall id :: id in p.operations ==> p.operations[id].idempotencyKey != request.key)
  {
    hide KeysBound, Find;
    CoherentParts(p);
    if request.key != "" {
      FoundIsTheHolder(p.store, request.key);
      assert forall id :: id in p.operations && p.operations[id].idempotencyKey == request.key ==>
          id in Holders(p.store.records, request.key);
    }
  }

  /**
    A served request under a held key: the receipt of the operation that holds it, or an error if both bodies'
    fingerprints are known and differ, and no change in either case.
   */
  lemma HeldKeyAnswers(target: Target, p: PlaneState, request: Request, findings: seq<Diagnostic>, id: string)
    requires Coherent(p) && Serves(target, request.action) && request.key != ""
    requires id in p.operations && p.operations[id].idempotencyKey == request.key
    ensures !Acts(target, p, request)
    ensures var held := p.operations[id];
            Step(target, p, request, findings)
            == (if held.requestFingerprint != "" && request.fingerprint != ""
                   && held.requestFingerprint != request.fingerprint
                then Raised else Returned(held.receipt), p)
  {
    hide Coherent, Find, Perform;
    CoherentParts(p);
    FoundIsTheHolder(p.store, request.key);
    assert id in Holders(p.store.records, request.key);
    ReplayChangesNothing(p, request.key, request.fingerprint);
  }

  /** Recorded operations stay as they are. */
  predicate KeepsOperations(p: PlaneState, q: PlaneState) {
    forall id :: id in p.operations ==> id in q.operations && q.operations[id] == p.operations[id]
  }

  lemma BindingLasts(p: PlaneState, q: PlaneState, key: string, record: OperationRecord)
    requires Coherent(p) && Coherent(q) && key != "" && Find(p.store, key) == Some(record)
    requires KeepsOperations(p, q)
    ensures Find(q.store, key) == Some(record)
  {
    hide Find, KeysBound;
    FoundIsTheHolder(p.store, key);
    FoundHasKey(p.store, key);
    FoundIsStored(p.store, key);
    var id := record.receipt.operationId;
    assert id in Holders(q.store.records, key);
    FoundIsTheHolder(q.store, key);
  }

  lemma FoundHasKey(v: StoreView, key: string)
    requires KeysBound(v) && Find(v, key).Some?
    ensures Find(v, key).value.idempotencyKey == key
  {
  }

  /** The record was there from the beginning, or one of the turns drew its id and brought its key and fingerprint. */
  ghost predicate BroughtIn(p: PlaneState, turns: seq<Turn>, record: OperationRecord) {
    var id := record.receipt.operationId;
    || (id in p.operations && p.operations[id] == record)
    || exists r :: 0 <= r < |turns| && turns[r].request.operationId == id
                   && turns[r].request.key == record.idempotencyKey
                   && turns[r].request.fingerprint == record.requestFingerprint
  }

  /** Every record under a key bears the fingerprint of the request that was recorded under it. */
  lemma {:induction false} KeyedRecordsBroughtIn(target: Target, p: PlaneState, turns: seq<Turn>, id: string)
    requires Coherent(p) && FreshIds(p, turns) && NeverBypasses(target, p, turns)
    requires id in Run(target, p, turns).operations && Run(target, p, turns).operations[id].idempotencyKey != ""
    ensures BroughtIn(p, turns, Run(target, p, turns).operations[id])
  {
    hide Coherent, Step, BypassesLookup, NeverBypasses;
    if turns != [] {
      var n := |turns| - 1;
      var front, before, last := turns[..n], Run(target, p, turns[..n]), turns[n];
      PrefixNeverBypasses(target, p, turns, n);
      RunsStayCoherent(target, p, front);
      CoherentParts(p);
      FreshAt(target, p, turns, n);
      StepKeepsCoherentIff(target, before, last.request, last.findings);
      if id in before.operations && Run(target, p, turns).operations[id] == before.operations[id] {
        KeyedRecordsBroughtIn(target, p, front, id);
        BroughtInLater(p, front, last, before.operations[id]);
        assert turns == front + [last];
      } else {
        assert turns[n].request.operationId == id;
      }
    } else {
      CoherentParts(p);
    }
  }

  lemma BroughtInLater(p: PlaneState, front: seq<Turn>, last: Turn, record: OperationRecord)
    requires BroughtIn(p, front, record)
    ensures BroughtIn(p, front + [last], record)
  {
    var id := record.receipt.operationId;
    if !(id in p.operations && p.operations[id] == record) {
      var r :| 0 <= r < |front| && front[r].request.operationId == id
               && front[r].request.key == record.idempotencyKey
               && front[r].request.fingerprint == record.requestFingerprint;
      assert (front + [last])[r] == front[r];
    }
  }

  /**
    Once a served request with a key has been answered with a receipt, every later served request with that key is
    answered from the one record: with the same receipt, or with an error exactly if its body's fingerprint and that
    of the recorded request are both known and differ. The plane does not act, and nothing at all changes.
   */
  lemma ExactlyOnce(target: Target, p: PlaneState, turns: seq<Turn>, i: nat, j: nat) returns (record: OperationRecord)
    requires Coherent(p) && FreshIds(p, turns) && i < j < |turns| && NeverBypasses(target, p, turns[..j])
    requires turns[i].request.key == turns[j].request.key != ""
    requires Serves(target, turns[i].request.action) && Serves(target, turns[j].request.action)
    requires ReplyAt(target, p, turns, i).Returned?
    ensures record.receipt == ReplyAt(target, p, turns, i).value && record.idempotencyKey == turns[i].request.key
    ensures BroughtIn(p, turns[..i + 1], record)
    ensures record.receipt.operationId == turns[i].request.operationId ==>
              record.requestFingerprint == turns[i].request.fingerprint
    ensures var before, turn := Before(target, p, turns, j), turns[j];
            && !Acts(target, before, turn.request)
            && Step(target, before, turn.request, turn.findings).1 == before
            && ReplyAt(target, p, turns, j)
               == if record.requestFingerprint != "" && turn.request.fingerprint != ""
                     && record.requestFingerprint != turn.request.fingerprint
                  then Raised else ReplyAt(target, p, turns, i)
  {
    hide Coherent, Find, Step, Acts, NeverBypasses, FreshIds, KeepsOperations, BroughtIn;
    var id;
    record, id := AnsweredRecord(target, p, turns, i, j);
    PrefixNeverBypasses(target, p, turns[..j], i + 1);
    assert turns[..j][..i + 1] == turns[..i + 1];
    PrefixIsFresh(p, turns, i + 1);
    KeyedRecordsBroughtIn(target, p, turns[..i + 1], id);
    OwnRecord(p, turns, i, record);
    OperationsBetween(target, p, turns, i + 1, j);
    KeptAt(Run(target, p, turns[..i + 1]), Before(target, p, turns, j), id);
    CoherentBefore(target, p, turns, j, j);
    HeldKeyAnswers(target, Before(target, p, turns, j), turns[j].request, turns[j].findings, id);
  }

  lemma KeptAt(p: PlaneState, q: PlaneState, id: string)
    requires KeepsOperations(p, q) && id in p.operations
    ensures id in q.operations && q.operations[id] == p.operations[id]
  {
  }

  /** The record behind a receipt that was given under a key. */
  lemma AnsweredRecord(target: Target, p: PlaneState, turns: seq<Turn>, i: nat, j: nat)
    returns (record: OperationRecord, id: string)
    requires Coherent(p) && FreshIds(p, turns) && i < j < |turns| && NeverBypasses(target, p, turns[..j])
    requires turns[i].request.key != "" && Serves(target, turns[i].request.action)
    requires ReplyAt(target, p, turns, i).Returned?
    ensures record.receipt == ReplyAt(target, p, turns, i).value && record.idempotencyKey == turns[i].request.key
    ensures id == record.receipt.operationId && id in Run(target, p, turns[..i + 1]).operations
    ensures Run(target, p, turns[..i + 1]).operations[id] == record && Mirrored(p)
  {
    hide Coherent, Find, Step, NeverBypasses, FreshIds, KeysBound;
    var key, before := turns[i].request.key, Before(target, p, turns, i);
    CoherentBefore(target, p, turns, i, j);
    FreshAt(target, p, turns, i);
    ActingStepLogs(target, before, turns[i].request, turns[i].findings);
    var after := Step(target, before, turns[i].request, turns[i].findings).1;
    assert turns[..i + 1][..i] == turns[..i];
    assert after == Run(target, p, turns[..i + 1]);
    CoherentParts(after);
    record, id := Find(after.store, key).value, Find(after.store, key).value.receipt.operationId;
    FoundIsStored(after.store, key);
    FoundHasKey(after.store, key);
  }

  lemma PrefixIsFresh(p: PlaneState, turns: seq<Turn>, k: nat)
    requires FreshIds(p, turns) && k <= |turns|
    ensures FreshIds(p, turns[..k])
  {
  }

  /** The record that a turn itself brought in bears that turn's fingerprint. */
  lemma OwnRecord(p: PlaneState, turns: seq<Turn>, i: nat, record: OperationRecord)
    requires FreshIds(p, turns) && i < |turns| && BroughtIn(p, turns[..i + 1], record)
    ensures record.receipt.operationId == turns[i].request.operationId ==>
              record.requestFingerprint == turns[i].request.fingerprint
  {
  }

  lemma CoherentBefore(target: Target, p: PlaneState, turns: seq<Turn>, i: nat, j: nat)
    requires Coherent(p) && FreshIds(p, turns) && i <= j < |turns| && NeverBypasses(target, p, turns[..j])
    ensures Coherent(Before(target, p, turns, i)) && Mirrored(p)
  {
    hide Coherent, NeverBypasses, Run;
    PrefixNeverBypasses(target, p, turns[..j], i);
    assert turns[..j][..i] == turns[..i];
    RunsStayCoherent(target, p, turns[..i]);
    CoherentParts(p);
  }

  lemma FreshAt(target: Target, p: PlaneState, turns: seq<Turn>, k: nat)
    requires Mirrored(p) && FreshIds(p, turns) && k < |turns|
    ensures turns[k].request.operationId !in Before(target, p, turns, k).operations
  {
    hide Mirrored, Step;
    OperationsLast(target, p, turns[..k]);
    assert forall id :: id in Drawn(turns[..k]) ==> id != turns[k].request.operationId;
  }

  lemma RestIsFresh(target: Target, p: PlaneState, turns: seq<Turn>, k: nat)
    requires Mirrored(p) && FreshIds(p, turns) && k <= |turns|
    ensures FreshIds(Run(target, p, turns[..k]), turns[k..])
  {
    hide Mirrored, Step;
    OperationsLast(target, p, turns[..k]);
    assert forall id, n :: id in Drawn(turns[..k]) && k <= n < |turns| ==> id != turns[n].request.operationId;
  }

  /** Between two moments of a run no recorded operation changes. */
  lemma OperationsBetween(target: Target, p: PlaneState, turns: seq<Turn>, a: nat, b: nat)
    requires Mirrored(p) && FreshIds(p, turns) && a <= b <= |turns|
    ensures KeepsOperations(Run(target, p, turns[..a]), Run(target, p, turns[..b]))
  {
    hide Mirrored, Step;
    assert turns[..b][..a] == turns[..a];
    RunSplits(target, p, turns[..b], a);
    RestIsFresh(target, p, turns[..b], a);
    RunsStayMirrored(target, p, turns[..a]);
    OperationsLast(target, Run(target, p, turns[..a]), turns[..b][a..]);
  }

  // ----------------------------------------------- without a participant runtime

  /**
    On a target without a participant runtime a second participant request under a held key draws a second
    operation; the in-memory store then answers for the new one, although the key was bound to another.
   */
  lemma BypassRebinds(
    target: Target, p: PlaneState, request: Request, findings: seq<Diagnostic>, first: OperationRecord)
    requires Coherent(p) && p.store.MemoryView? && request.operationId !in p.operations
    requires BypassesLookup(target, p, request) && Find(p.store, request.key) == Some(first)
    ensures var (outcome, q) := Step(target, p, request, findings);
            && outcome.Returned? && outcome.value.operationId == request.operationId
            && Find(q.store, request.key).Some? && Find(q.store, request.key).value.receipt == outcome.value
            && outcome.value != first.receipt
            && Holders(q.operations, request.key) == Holders(p.operations, request.key) + {request.operationId}
            && |Holders(q.operations, request.key)| == 2
  {
    hide RejectedAt;
    FoundIsTheHolder(p.store, request.key);
    FoundIsStored(p.store, request.key);
    FoundHasKey(p.store, request.key);
    assert Holders(p.operations, request.key) == {first.receipt.operationId};
  }
}
