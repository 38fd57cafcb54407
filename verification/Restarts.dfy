/** Restarting a plane on its store, and exchanging the store behind it. */
module Restarts {
  import opened Wrappers
  import opened RuntimeModels
  import opened StorePayloads
  import opened OperationStore
  import opened WorkflowControl
  import opened BackendBoundary
  import opened ControlPlane
  import opened ControlPlaneRuns
  import opened Idempotency

  // ------------------------------------------------------------------- restarts

  /** A new plane on the store that an earlier one leaves behind. */
  function Reopened(p: PlaneState): PlaneState {
    Opened(p.store, None)
  }

  /** The step writes the snapshot to the store. */
  ghost predicate Saves(target: Target, p: PlaneState, request: Request) {
    && Acts(target, p, request)
    && (request.action.Cancel? ==>
          Cancellation(p.snapshot, request.action.address, request.action.runId, request.action.reason,
              request.at).Cancels?)
    && (request.action.Reconcile? ==> AllReadable(p.snapshot))
  }

  lemma ReopenedIff(p: PlaneState)
    requires Mirrored(p)
    ensures Reopened(p) == p <==> Loaded(p.store) == p.snapshot
  {
  }

  /**
    After a step a restart goes unnoticed exactly when the step saved the snapshot or a restart before it went
    unnoticed.
   */
  lemma StepRestartIff(target: Target, p: PlaneState, request: Request, findings: seq<Diagnostic>)
    requires Mirrored(p)
    ensures var q := Step(target, p, request, findings).1;
            Reopened(q) == q <==> Saves(target, p, request) || Reopened(p) == p
  {
    hide Mirrored, RulingOn, Perform, RejectedAt, Reopened;
    StepKeepsMirrored(target, p, request, findings);
    ReopenedIff(p);
    ReopenedIff(Step(target, p, request, findings).1);
    ReplayChangesNothing(p, request.key, request.fingerprint);
    PerformSaves(p, request, findings);
  }

  lemma PerformSaves(p: PlaneState, request: Request, findings: seq<Diagnostic>)
    ensures var q, action := Perform(p, request, findings).1, request.action;
            && (CallsBackend(action) ==> Loaded(q.store) == q.snapshot)
            && (action.Cancel? ==>
                  if Cancellation(p.snapshot, action.address, action.runId, action.reason, request.at).Cancels?
                  then Loaded(q.store) == q.snapshot
                  else q.snapshot == p.snapshot && Loaded(q.store) == Loaded(p.store))
            && (action.Reconcile? ==>
                  if AllReadable(p.snapshot) then Loaded(q.store) == q.snapshot else q == p)
  {
  }

  /** A run that restarts the plane after the turns that are marked. */
  ghost function RunWithRestarts(target: Target, p: PlaneState, turns: seq<Turn>, marks: seq<bool>): PlaneState
    requires |marks| == |turns|
  {
    if turns == [] then p
    else
      var n := |turns| - 1;
      var q := Step(target, RunWithRestarts(target, p, turns[..n], marks[..n]), turns[n].request, turns[n].findings).1;
      if marks[n] then Reopened(q) else q
  }

  /**
    On a plane that a restart leaves as it is, restarts after any turns of any run are invisible: the same snapshot,
    the same records, and hence the same reads and the same replies.
   */
  lemma {:induction false} RestartsAreInvisible(target: Target, p: PlaneState, turns: seq<Turn>, marks: seq<bool>)
    requires |marks| == |turns| && Mirrored(p) && Reopened(p) == p
    ensures RunWithRestarts(target, p, turns, marks) == Run(target, p, turns)
    ensures Reopened(Run(target, p, turns)) == Run(target, p, turns)
    decreases |turns|
  {
    hide Mirrored, Step, Reopened;
    if turns != [] {
      var n := |turns| - 1;
      RestartsAreInvisible(target, p, turns[..n], marks[..n]);
      RunsStayMirrored(target, p, turns[..n]);
      StepRestartIff(target, Run(target, p, turns[..n]), turns[n].request, turns[n].findings);
    }
  }

  /** The turn with the given number writes the snapshot to the store. */
  ghost predicate SavesAt(target: Target, p: PlaneState, turns: seq<Turn>, k: nat)
    requires k < |turns|
  {
    Saves(target, Before(target, p, turns, k), turns[k].request)
  }

  /** A restart after a run goes unnoticed exactly when it went unnoticed before the run or some turn saved. */
  lemma {:induction false} RunRestartIff(target: Target, p: PlaneState, turns: seq<Turn>)
    requires Mirrored(p)
    ensures Reopened(Run(target, p, turns)) == Run(target, p, turns)
            <==> Reopened(p) == p || exists k :: 0 <= k < |turns| && SavesAt(target, p, turns, k)
  {
    hide Mirrored, Step, Reopened, Saves;
    if turns != [] {
      var n := |turns| - 1;
      var front := turns[..n];
      RunRestartIff(target, p, front);
      RunsStayMirrored(target, p, front);
      StepRestartIff(target, Run(target, p, front), turns[n].request, turns[n].findings);
      forall k | 0 <= k < n ensures SavesAt(target, p, front, k) <==> SavesAt(target, p, turns, k) {
        assert front[..k] == turns[..k];
      }
      assert SavesAt(target, p, turns, n) <==> Saves(target, Run(target, p, front), turns[n].request);
    }
  }

  /**
    A snapshot handed in at the start is not stored: before the first save a restart forgets it, unless it is the
    stored one.
   */
  lemma InitialSnapshotIsForgotten(v: StoreView, initial: RuntimeSnapshot)
    ensures var p := Opened(v, Some(initial));
            && p.snapshot == initial && Reopened(p).snapshot == Loaded(v)
            && (Reopened(p) == p <==> initial == Loaded(v))
  {
  }

  /** A plane that starts from its store mirrors it, and a restart leaves it as it is. */
  lemma OpenedFromStore(v: StoreView)
    requires NamedRecords(v.records)
    ensures Mirrored(Opened(v, None)) && Reopened(Opened(v, None)) == Opened(v, None)
  {
  }

  // ---------------------------------------------------- one store for the other

  /** Two planes that differ in the kind of their store only. */
  predicate Alike(m: PlaneState, f: PlaneState) {
    && m.snapshot == f.snapshot && m.operations == f.operations
    && m.store.MemoryView? && f.store.FileView?
  }

  lemma SameFind(m: PlaneState, f: PlaneState, key: string)
    requires Alike(m, f) && Coherent(m) && Coherent(f) && key != ""
    ensures Find(m.store, key) == Find(f.store, key)
  {
    hide Find;
    FoundIsTheHolder(m.store, key);
    FoundIsTheHolder(f.store, key);
    if Holders(m.operations, key) != {} {
      var id :| id in Holders(m.operations, key);
    }
  }

  lemma AlikePersist(m: PlaneState, f: PlaneState, record: OperationRecord)
    requires Alike(m, f)
    ensures Alike(Persist(m, record), Persist(f, record))
  {
  }

  lemma AlikePerform(m: PlaneState, f: PlaneState, request: Request, findings: seq<Diagnostic>)
    requires Alike(m, f)
    ensures Perform(m, request, findings).0 == Perform(f, request, findings).0
    ensures Alike(Perform(m, request, findings).1, Perform(f, request, findings).1)
  {
    hide Perform, PerformCancel, PerformReconcile;
    if CallsBackend(request.action) {
      AlikeExecute(m, f, request, findings);
    } else {
      AlikeDirect(m, f, request, findings);
    }
  }

  lemma AlikeExecute(m: PlaneState, f: PlaneState, request: Request, findings: seq<Diagnostic>)
    requires Alike(m, f) && CallsBackend(request.action)
    ensures Perform(m, request, findings).0 == Perform(f, request, findings).0
    ensures Alike(Perform(m, request, findings).1, Perform(f, request, findings).1)
  {
    hide Screened;
  }

  lemma AlikeDirect(m: PlaneState, f: PlaneState, request: Request, findings: seq<Diagnostic>)
    requires Alike(m, f) && !CallsBackend(request.action)
    ensures Perform(m, request, findings).0 == Perform(f, request, findings).0
    ensures Alike(Perform(m, request, findings).1, Perform(f, request, findings).1)
  {
    hide Cancellation, Reconciled, AllReadable, DueInOrder, RejectedAt;
  }

  lemma AlikeStep(target: Target, m: PlaneState, f: PlaneState, request: Request, findings: seq<Diagnostic>)
    requires Alike(m, f) && Coherent(m) && Coherent(f)
    ensures Step(target, m, request, findings).0 == Step(target, f, request, findings).0
    ensures Alike(Step(target, m, request, findings).1, Step(target, f, request, findings).1)
  {
    hide Coherent, Perform, Find, RejectedAt;
    if request.key != "" {
      SameFind(m, f, request.key);
    }
    AlikePerform(m, f, request, findings);
    AlikePersist(m, f, RejectionRecord(request, request.key, request.fingerprint));
    AlikePersist(m, f, RejectionRecord(request, "", ""));
  }

  /**
    Over every run in which no held key is recorded unseen, a plane on the indexed store and one on the file store give
    the same replies and hold the same state.
   */
  lemma {:induction false} StoresAreInterchangeable(target: Target, m: PlaneState, f: PlaneState, turns: seq<Turn>)
    requires FreshIds(m, turns) && NeverBypasses(target, m, turns)
    requires Alike(m, f) && Coherent(m) && Coherent(f)
    ensures Alike(Run(target, m, turns), Run(target, f, turns))
    ensures Coherent(Run(target, m, turns)) && Coherent(Run(target, f, turns))
    ensures forall k :: 0 <= k < |turns| ==> ReplyAt(target, m, turns, k) == ReplyAt(target, f, turns, k)
    decreases |turns|
  {
    hide Coherent, Step, Alike, NeverBypasses, BypassesLookup;
    if turns != [] {
      var front, last := turns[..|turns| - 1], turns[|turns| - 1];
      assert FreshIds(f, turns) by {
        AlikeOperations(m, f);
      }
      PrefixNeverBypasses(target, m, turns, |front|);
      StoresAreInterchangeable(target, m, f, front);
      var q, r := Run(target, m, front), Run(target, f, front);
      LastNeverBypasses(target, m, turns, |front|);
      SameBypass(target, q, r, last.request);
      CoherentParts(m);
      CoherentParts(f);
      FreshAt(target, m, turns, |front|);
      FreshAt(target, f, turns, |front|);
      StepKeepsCoherentIff(target, q, last.request, last.findings);
      StepKeepsCoherentIff(target, r, last.request, last.findings);
      AlikeStep(target, q, r, last.request, last.findings);
      forall k | 0 <= k < |turns| ensures ReplyAt(target, m, turns, k) == ReplyAt(target, f, turns, k) {
        if k < |front| {
          assert ReplyAt(target, m, front, k) == ReplyAt(target, f, front, k);
          assert front[..k] == turns[..k];
        } else {
          assert turns[..k] == front;
        }
      }
    }
  }

  lemma SameBypass(target: Target, m: PlaneState, f: PlaneState, request: Request)
    requires Alike(m, f)
    ensures BypassesLookup(target, m, request) <==> BypassesLookup(target, f, request)
  {
  }

  lemma AlikeOperations(m: PlaneState, f: PlaneState)
    requires Alike(m, f)
    ensures m.operations == f.operations
  {
  }

  /** Fresh planes on empty stores are such a pair. */
  lemma EmptyPlanesAlike()
    ensures var m, f := Opened(EMPTY_MEMORY, None), Opened(EMPTY_FILE, None);
            Alike(m, f) && Coherent(m) && Coherent(f) && Reopened(m) == m && Reopened(f) == f
  {
  }
}
