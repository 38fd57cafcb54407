/**
  Cancellation and timeout reconciliation. Both write the snapshot without running the checkers; this module
  says what they write and exactly when the checkers would have accepted it.
 */
module WorkflowControl {
  import opened Wrappers
  import opened RuntimeModels
  import opened WorkflowContracts
  import opened EvaluationContracts
  import opened Compensation
  import opened BackendBoundary

  // ------------------------------------------------------- closing a workflow

  /** The contract as the control plane reads it: absent when it is missing or malformed. */
  function CompiledContract(s: RuntimeSnapshot, address: string): Option<WorkflowExecutionContract> {
    if address in s.entries && s.entries[address].payload.WorkflowPayload? && s.entries[address].payload.execution.Some?
       && s.entries[address].payload.execution.value.Valid()
    then s.entries[address].payload.execution
    else None
  }

  function EndedState(st: WorkflowState, status: WorkflowStatus, reason: string, at: Stamp): WorkflowState {
    st.(status := status, updatedAt := at, terminalReason := Some(reason), compensation := NotRequired,
        compensationStartedAt := None, compensationUpdatedAt := None, compensationFailures := [])
  }

  /** The state and the history of a workflow that ends now, compensation included. */
  function Closed(
    contract: Option<WorkflowExecutionContract>, st: WorkflowState, history: seq<WorkflowEvent>,
    status: WorkflowStatus, reason: string, record: WorkflowEvent, at: Stamp): (WorkflowState, seq<WorkflowEvent>)
  {
    Compensate(contract, EndedState(st, status, reason, at), history + [record], at)
  }

  /** The record of an operator's or the clock's intervention: a terminal event that names no step. */
  predicate ClosesWith(status: WorkflowStatus, record: WorkflowEvent, at: Stamp) {
    && (status.Cancelled? || status.TimedOut?)
    && TerminalEventOf(status) == Some(record.eventType)
    && record.timestamp == at && record.stepName.None?
  }

  /**
    What a caller can look up before closing a workflow: its history has begun, the clock has not run behind it,
    and if completed steps will have to be compensated, the history shows such a completion.
   */
  predicate SafeToClose(
    xc: WorkflowExecutionContract, st: WorkflowState, history: seq<WorkflowEvent>, status: WorkflowStatus, at: Stamp) {
    && history != []
    && history[|history| - 1].timestamp.NotAfter(at)
    && (CompensationDue(xc, st.(status := status)) ==> Compensable(history, xc.compensationTargets) != [])
  }

  lemma CompensableIgnoresRecord(history: seq<WorkflowEvent>, record: WorkflowEvent, targets: map<string, string>)
    requires !record.eventType.StepCompletedEvent?
    ensures Compensable(history + [record], targets) == Compensable(history, targets)
  {
  }

  lemma {:induction false} TriplesConform(xc: WorkflowExecutionContract, ordered: seq<WorkflowEvent>, at: Stamp)
    requires forall e :: e in ordered ==> IsCompensable(e, xc.compensationTargets) && EventConforms(xc, e)
    ensures forall e :: e in Triples(ordered, xc.compensationTargets, at) ==>
              EventConforms(xc, e) && e.eventType.IsCompensation() && e.timestamp == at
  {
    if ordered != [] {
      TriplesConform(xc, ordered[..|ordered| - 1], at);
      var last := ordered[|ordered| - 1];
      assert last in ordered;
      var triple := Triple(last, xc.compensationTargets, at);
      forall e | e in triple ensures EventConforms(xc, e) && e.eventType.IsCompensation() && e.timestamp == at {
        assert e == triple[0] || e == triple[1] || e == triple[2];
      }
    }
  }

  lemma BlockConforms(xc: WorkflowExecutionContract, status: WorkflowStatus, ordered: seq<WorkflowEvent>, at: Stamp)
    requires forall e :: e in ordered ==> IsCompensable(e, xc.compensationTargets) && EventConforms(xc, e)
    ensures forall e :: e in Block(status, ordered, xc.compensationTargets, at) ==>
              EventConforms(xc, e) && e.eventType.IsCompensation() && e.timestamp == at
  {
    TriplesConform(xc, ordered, at);
  }

  /** What closing appends: a terminal record, then compensation events only, all stamped now. */
  predicate Appendix(xc: WorkflowExecutionContract, st: WorkflowState, more: seq<WorkflowEvent>, at: Stamp) {
    && more != []
    && TerminalEventOf(st.status) == Some(more[0].eventType)
    && (forall e :: e in more ==> EventConforms(xc, e) && e.timestamp == at)
    && (forall k :: 0 < k < |more| ==> more[k].eventType.IsCompensation())
    && (|more| > 1 ==> st.compensation.CompensationSucceeded? && more[|more| - 1].eventType.CompensationCompleted?)
    && (|more| == 1 ==> st.compensation.NotRequired?)
  }

  lemma RecordThenBlock(
    xc: WorkflowExecutionContract, ended: WorkflowState, record: WorkflowEvent, ordered: seq<WorkflowEvent>, at: Stamp)
    requires ClosesWith(ended.status, record, at) && ended.compensation.CompensationSucceeded?
    requires forall e :: e in ordered ==> IsCompensable(e, xc.compensationTargets) && EventConforms(xc, e)
    ensures Appendix(xc, ended, [record] + Block(ended.status, ordered, xc.compensationTargets, at), at)
  {
    BlockConforms(xc, ended.status, ordered, at);
    var block := Block(ended.status, ordered, xc.compensationTargets, at);
    var more := [record] + block;
    forall k | 0 < k < |more| ensures more[k].eventType.IsCompensation() {
      assert more[k] == block[k - 1];
      assert block[k - 1] in block;
    }
    assert more[|more| - 1] == block[|block| - 1];
  }

  lemma ClosedWithCompensation(
    xc: WorkflowExecutionContract, st: WorkflowState, history: seq<WorkflowEvent>,
    status: WorkflowStatus, reason: string, record: WorkflowEvent, at: Stamp)
    returns (more: seq<WorkflowEvent>)
    requires ClosesWith(status, record, at)
    requires forall e :: e in history ==> EventConforms(xc, e)
    requires Triggers(xc, status) && Compensable(history, xc.compensationTargets) != []
    ensures var ended := CompensatedState(EndedState(st, status, reason, at), at);
            && Closed(Some(xc), st, history, status, reason, record, at) == (ended, history + more)
            && Appendix(xc, ended, more, at)
  {
    hide EventConforms, Compensable, LatestFirst, Block, Appendix;
    var targets := xc.compensationTargets;
    CompensableIgnoresRecord(history, record, targets);
    var ordered := LatestFirst(Compensable(history, targets));
    SameMembers(ordered, Compensable(history, targets));
    var block := Block(status, ordered, targets, at);
    more := [record] + block;
    assert history + [record] + block == history + more;
    RecordThenBlock(xc, CompensatedState(EndedState(st, status, reason, at), at), record, ordered, at);
  }

  /** Closing appends exactly such a list, and compensates exactly when a completed compensable step is on record. */
  lemma ClosedAppends(
    xc: WorkflowExecutionContract, st: WorkflowState, history: seq<WorkflowEvent>,
    status: WorkflowStatus, reason: string, record: WorkflowEvent, at: Stamp)
    returns (ended: WorkflowState, more: seq<WorkflowEvent>)
    requires ClosesWith(status, record, at)
    requires forall e :: e in history ==> EventConforms(xc, e)
    ensures Closed(Some(xc), st, history, status, reason, record, at) == (ended, history + more)
    ensures Appendix(xc, ended, more, at)
    ensures ended == if Triggers(xc, status) && Compensable(history, xc.compensationTargets) != []
                     then CompensatedState(EndedState(st, status, reason, at), at)
                     else EndedState(st, status, reason, at)
  {
    if Triggers(xc, status) && Compensable(history, xc.compensationTargets) != [] {
      ended := CompensatedState(EndedState(st, status, reason, at), at);
      more := ClosedWithCompensation(xc, st, history, status, reason, record, at);
    } else {
      CompensableIgnoresRecord(history, record, xc.compensationTargets);
      ended := EndedState(st, status, reason, at);
      more := [record];
    }
  }

  lemma AppendedStampsMonotone(history: seq<WorkflowEvent>, more: seq<WorkflowEvent>, at: Stamp)
    requires Monotone(Stamps(history)) && at.instant.Some?
    requires more != [] && forall e :: e in more ==> e.timestamp == at
    ensures Monotone(Stamps(history + more)) <==> (history == [] || history[|history| - 1].timestamp.NotAfter(at))
  {
    var all, n := history + more, |history|;
    assert forall i :: 0 <= i < |all| ==> Stamps(all)[i] == if i < n then Stamps(history)[i] else at by {
      forall i | 0 <= i < |all| ensures Stamps(all)[i] == if i < n then Stamps(history)[i] else at {
        assert i >= n ==> all[i] in more;
      }
    }
    if history != [] {
      var last := Stamps(history)[n - 1];
      assert last == history[n - 1].timestamp;
      if last.NotAfter(at) {
        forall i, j | 0 <= i < j < |all| ensures Stamps(all)[i].NotAfter(Stamps(all)[j]) {
          assert i < n - 1 ==> Stamps(history)[i].NotAfter(last);
        }
      } else {
        assert !Stamps(all)[n - 1].NotAfter(Stamps(all)[n]);
      }
    }
  }

  lemma AppendedHistoryConforms(
    xc: WorkflowExecutionContract, st: WorkflowState, ended: WorkflowState,
    history: seq<WorkflowEvent>, more: seq<WorkflowEvent>, at: Stamp)
    requires HistoryConforms(xc, st, history) && st.compensation.NotRequired?
    requires Appendix(xc, ended, more, at) && ended.status.IsTerminal()
    ensures HistoryConforms(xc, ended, history + more) <==> history != []
  {
    var all, n := history + more, |history|;
    if history != [] {
      assert all[0] == history[0];
      assert forall i :: 0 <= i < n ==> all[i] in history;
      assert forall i :: n <= i < |all| ==> all[i] == more[i - n];
      assert all[n].eventType == more[0].eventType;
      assert forall e :: e in all ==> e in history || e in more;
      assert TerminalRecorded(ended.status, all) by {
        forall i, j | 0 <= i < |all| && 0 <= j < |all| && all[i].eventType == more[0].eventType
            && all[j].eventType.IsCompensation()
          ensures i < j
        {
          assert j > n;
          assert i <= n;
        }
      }
      assert CompensationRecorded(ended.compensation, all) by {
        if |more| > 1 {
          assert IsLastCompensation(all, |all| - 1);
        } else {
          forall e | e in all ensures !e.eventType.IsCompensation() {
          }
        }
      }
    } else {
      assert all == more;
    }
  }

  lemma EndedStateConforms(
    rc: WorkflowResultContract, xc: WorkflowExecutionContract, st: WorkflowState,
    status: WorkflowStatus, reason: string, at: Stamp, ended: WorkflowState)
    requires StateConforms(rc, xc, st)
    requires (status.Cancelled? || status.TimedOut?) && at.text != ""
    requires ended == EndedState(st, status, reason, at)
        || ended == CompensatedState(EndedState(st, status, reason, at), at)
    ensures StateConforms(rc, xc, ended) <==>
            (CompensationDue(xc, st.(status := status)) ==> ended.compensation.CompensationSucceeded?)
  {
  }

  /** What closing an accepted, unfinished workflow writes is accepted exactly when it was safe to close it. */
  lemma ClosedConformsIff(
    rc: WorkflowResultContract, xc: WorkflowExecutionContract, st: WorkflowState, history: seq<WorkflowEvent>,
    status: WorkflowStatus, reason: string, record: WorkflowEvent, at: Stamp)
    requires RunConforms(rc, xc, st, history) && !st.status.IsTerminal()
    requires ClosesWith(status, record, at) && at.IsClock()
    ensures var (ended, events) := Closed(Some(xc), st, history, status, reason, record, at);
            RunConforms(rc, xc, ended, events) <==> SafeToClose(xc, st, history, status, at)
  {
    var ended, more := ClosedAppends(xc, st, history, status, reason, record, at);
    AppendedStampsMonotone(history, more, at);
    AppendedHistoryConforms(xc, st, ended, history, more, at);
    EndedStateConforms(rc, xc, st, status, reason, at, ended);
  }

  // ------------------------------------------------------------- cancellation

  function CancelRecord(reason: string, at: Stamp): WorkflowEvent {
    Mark(WorkflowCancelled, at, None, NO_DETAILS.(reason := Some(reason)))
  }

  function CancelledRun(
    s: RuntimeSnapshot, address: string, reason: string, at: Stamp): (WorkflowState, seq<WorkflowEvent>)
    requires address in s.orchestrationResults
  {
    Closed(CompiledContract(s, address), s.orchestrationResults[address], HistoryAt(s.orchestrationHistory, address),
           Cancelled, reason, CancelRecord(reason, at), at)
  }

  function WithRun(s: RuntimeSnapshot, address: string, run: (WorkflowState, seq<WorkflowEvent>)): RuntimeSnapshot {
    s.(orchestrationResults := s.orchestrationResults[address := run.0],
       orchestrationHistory := s.orchestrationHistory[address := run.1])
  }

  /**
    How a cancellation request ends: refused, raised on an unreadable state, accepted without effect, or carried out.
   */
  datatype CancelVerdict = UnknownRun | UnreadableRun | OtherRun | AlreadyTerminal | Cancels(next: RuntimeSnapshot)

  /** An empty run id stands for a request that names no run. */
  function Cancellation(s: RuntimeSnapshot, address: string, runId: string, reason: string, at: Stamp): CancelVerdict {
    if address !in s.orchestrationResults then UnknownRun
    else
      var st := s.orchestrationResults[address];
      if !st.Valid() then UnreadableRun
      else if runId != "" && st.runId != runId then OtherRun
      else if st.status.IsTerminal() then AlreadyTerminal
      else Cancels(WithRun(s, address, CancelledRun(s, address, reason, at)))
  }

  predicate SafeToCloseAt(s: RuntimeSnapshot, address: string, status: WorkflowStatus, at: Stamp)
    requires HasWorkflowContracts(s, address) && address in s.orchestrationResults
  {
    SafeToClose(ExecutionContractAt(s, address), s.orchestrationResults[address],
                HistoryAt(s.orchestrationHistory, address), status, at)
  }

  /** The snapshot that a cancellation writes passes the checkers exactly when the workflow was safe to close. */
  lemma CancelAcceptedIff(s: RuntimeSnapshot, address: string, runId: string, reason: string, at: Stamp)
    requires Accepted(s) && at.IsClock()
    requires Cancellation(s, address, runId, reason, at).Cancels?
    ensures Accepted(Cancellation(s, address, runId, reason, at).next) <==> SafeToCloseAt(s, address, Cancelled, at)
  {
    hide RunConforms, SafeToClose, Closed, EvaluationsAccepted;
    assert WorkflowAccepted(s, address);
    var rc, xc := s.entries[address].payload.result.value, ExecutionContractAt(s, address);
    ClosedConformsIff(rc, xc, s.orchestrationResults[address], HistoryAt(s.orchestrationHistory, address),
                      Cancelled, reason, CancelRecord(reason, at), at);
    WithRunAcceptedIff(s, address, CancelledRun(s, address, reason, at));
  }

  lemma WithRunAcceptedIff(s: RuntimeSnapshot, address: string, run: (WorkflowState, seq<WorkflowEvent>))
    requires Accepted(s) && address in s.orchestrationResults
    ensures HasWorkflowContracts(s, address)
    ensures Accepted(WithRun(s, address, run)) <==>
            RunConforms(s.entries[address].payload.result.value, ExecutionContractAt(s, address), run.0, run.1)
  {
    hide RunConforms, EvaluationConforms, EvaluationsAccepted;
    var next := WithRun(s, address, run);
    assert WorkflowAccepted(s, address);
    OtherDomainsUntouched(s, next);
    forall a | a in next.orchestrationResults && a != address ensures WorkflowAccepted(next, a) {
      assert WorkflowAccepted(s, a);
    }
    assert address in next.orchestrationResults;
  }

  lemma OtherDomainsUntouched(s: RuntimeSnapshot, next: RuntimeSnapshot)
    requires next == s.(orchestrationResults := next.orchestrationResults,
        orchestrationHistory := next.orchestrationHistory)
    requires Accepted(s)
    ensures Accepted(next) <==> WorkflowsAccepted(next)
  {
  }

  // ----------------------------------------------------------------- timeouts

  const TIMED_OUT_REASON := "workflow timed out"

  function TimeoutRecord(seconds: int, at: Stamp): WorkflowEvent {
    Mark(WorkflowTimedOut, at, None, NO_DETAILS.(number := Some(seconds)))
  }

  /** A workflow entry with a timeout to watch and a result to watch it on. */
  predicate Watched(s: RuntimeSnapshot, address: string) {
    && address in s.entries && s.entries[address].IsWorkflow()
    && var payload := s.entries[address].payload;
    && payload.WorkflowPayload? && payload.execution.Some?
    && payload.execution.value.timeoutSeconds.Some? && payload.execution.value.timeoutSeconds.value != 0
    && address in s.orchestrationResults
  }

  function TimeoutOf(s: RuntimeSnapshot, address: string): int
    requires Watched(s, address)
  {
    s.entries[address].payload.execution.value.timeoutSeconds.value
  }

  /** Running, with readable timestamps, and the deadline is not after now. */
  predicate Due(s: RuntimeSnapshot, address: string, now: Stamp) {
    && Watched(s, address)
    && var st := s.orchestrationResults[address];
    && st.status.Running? && st.startedAt.instant.Some? && now.instant.Some?
    && st.startedAt.instant.value + 1_000_000 * TimeoutOf(s, address) <= now.instant.value
  }

  predicate AllReadable(s: RuntimeSnapshot) {
    forall a :: a in s.entries && Watched(s, a) ==> s.orchestrationResults[a].Valid()
  }

  function TimedOutRun(s: RuntimeSnapshot, address: string, now: Stamp): (WorkflowState, seq<WorkflowEvent>)
    requires Watched(s, address)
  {
    Closed(CompiledContract(s, address), s.orchestrationResults[address], HistoryAt(s.orchestrationHistory, address),
           TimedOut, TIMED_OUT_REASON, TimeoutRecord(TimeoutOf(s, address), now), now)
  }

  function DueSet(s: RuntimeSnapshot, now: Stamp): set<string> {
    set a | a in s.entries.Keys && Due(s, a, now)
  }

  /** The snapshot with the given due workflows timed out. */
  function TimeOut(s: RuntimeSnapshot, due: set<string>, now: Stamp): RuntimeSnapshot
    requires forall a :: a in due ==> Watched(s, a)
  {
    s.(orchestrationResults :=
         map a | a in s.orchestrationResults.Keys :: if a in due then TimedOutRun(s, a, now).0
             else s.orchestrationResults[a],
       orchestrationHistory :=
         map a | a in s.orchestrationHistory.Keys + due :: if a in due then TimedOutRun(s, a, now).1
             else s.orchestrationHistory[a])
  }

  function Reconciled(s: RuntimeSnapshot, now: Stamp): RuntimeSnapshot {
    TimeOut(s, DueSet(s, now), now)
  }

  function DueInOrder(s: RuntimeSnapshot, now: Stamp, order: seq<string>): (r: seq<string>)
    ensures forall a :: a in r <==> a in order && Due(s, a, now)
  {
    if order == [] then []
    else
      var last := order[|order| - 1];
      var earlier := DueInOrder(s, now, order[..|order| - 1]);
      assert order == order[..|order| - 1] + [last];
      if Due(s, last, now) then earlier + [last] else earlier
  }

  function Members(xs: seq<string>): set<string> {
    set x | x in xs
  }

  /** The entries of a snapshot in the order in which its dictionary yields them. */
  predicate Enumerates(order: seq<string>, s: RuntimeSnapshot) {
    NoDuplicates(order) && Members(order) == s.entries.Keys
  }

  /** One entry of the loop: skipped, timed out, or raised on an unreadable state. */
  method TimeOutIfDue(
    s: RuntimeSnapshot, address: string, entry: SnapshotEntry,
    results: map<string, WorkflowState>, history: map<string, seq<WorkflowEvent>>, now: Stamp)
    returns (outcome: Outcome<Option<(WorkflowState, seq<WorkflowEvent>)>>)
    requires address in s.entries && entry == s.entries[address]
    requires address in results <==> address in s.orchestrationResults
    requires address in results ==> results[address] == s.orchestrationResults[address]
    requires HistoryAt(history, address) == HistoryAt(s.orchestrationHistory, address)
    ensures outcome == if Watched(s, address) && !s.orchestrationResults[address].Valid() then Raised
                       else Returned(if Due(s, address, now) then Some(TimedOutRun(s, address, now)) else None)
  {
    if !entry.IsWorkflow() {
      return Returned(None);
    }
    if !entry.payload.WorkflowPayload? || entry.payload.execution.None? {
      return Returned(None);
    }
    var timeout := entry.payload.execution.value.timeoutSeconds;
    if timeout.None? || timeout.value == 0 {
      return Returned(None);
    }
    if address !in results {
      return Returned(None);
    }
    var st := results[address];
    if !st.Valid() {
      return Raised;
    }
    if !st.status.Running? {
      return Returned(None);
    }
    if st.startedAt.instant.None? || now.instant.None? {
      return Returned(None);
    }
    if now.instant.value < st.startedAt.instant.value + 1_000_000 * timeout.value {
      return Returned(None);
    }
    var timedOut := EndedState(st, TimedOut, TIMED_OUT_REASON, now);
    var events := HistoryAt(history, address) + [TimeoutRecord(timeout.value, now)];
    var payload, updated := MaybeApplyCompensation(CompiledContract(s, address), timedOut, events, now);
    return Returned(Some((payload, updated)));
  }

  lemma TimeOutOneMore(s: RuntimeSnapshot, due: set<string>, address: string, now: Stamp)
    requires forall a :: a in due ==> Watched(s, a)
    requires Watched(s, address) && address !in due
    ensures TimeOut(s, due + {address}, now) == WithRun(TimeOut(s, due, now), address, TimedOutRun(s, address, now))
  {
  }

  /** The snapshot after the loop has passed the given entries. */
  function TimedOutSoFar(s: RuntimeSnapshot, order: seq<string>, now: Stamp): RuntimeSnapshot {
    if order == [] then s
    else
      var earlier := TimedOutSoFar(s, order[..|order| - 1], now);
      var last := order[|order| - 1];
      if Due(s, last, now) then WithRun(earlier, last, TimedOutRun(s, last, now)) else earlier
  }

  lemma {:induction false} SoFarIsTimeOut(s: RuntimeSnapshot, order: seq<string>, now: Stamp)
    requires NoDuplicates(order)
    ensures TimedOutSoFar(s, order, now) == TimeOut(s, Members(DueInOrder(s, now, order)), now)
  {
    if order == [] {
      assert TimeOut(s, {}, now) == s;
    } else {
      var front, last := order[..|order| - 1], order[|order| - 1];
      SoFarIsTimeOut(s, front, now);
      if Due(s, last, now) {
        var due := DueInOrder(s, now, front);
        assert last !in front;
        TimeOutOneMore(s, Members(due), last, now);
        assert Members(due + [last]) == Members(due) + {last};
      }
    }
  }

  lemma SoFarLeavesOthers(s: RuntimeSnapshot, order: seq<string>, address: string, now: Stamp)
    requires NoDuplicates(order) && address !in order
    ensures var next := TimedOutSoFar(s, order, now);
            && (address in next.orchestrationResults <==> address in s.orchestrationResults)
            && (address in s.orchestrationResults ==>
                next.orchestrationResults[address] == s.orchestrationResults[address])
            && HistoryAt(next.orchestrationHistory, address) == HistoryAt(s.orchestrationHistory, address)
  {
  }

  lemma SoFarIsReconciled(s: RuntimeSnapshot, order: seq<string>, now: Stamp)
    requires Enumerates(order, s)
    ensures TimedOutSoFar(s, order, now) == Reconciled(s, now)
    ensures AllReadable(s) <==> forall a :: a in order && Watched(s, a) ==> s.orchestrationResults[a].Valid()
  {
    SoFarIsTimeOut(s, order, now);
    assert forall a :: a in order <==> a in Members(order);
    assert Members(DueInOrder(s, now, order)) == DueSet(s, now);
  }

  /** The loop over the snapshot's entries; it works on copies, so a raised exception leaves nothing behind. */
  method ReconcileTimeouts(s: RuntimeSnapshot, now: Stamp, order: seq<string>)
    returns (outcome: Outcome<(RuntimeSnapshot, seq<string>)>)
    requires Enumerates(order, s)
    ensures outcome == if AllReadable(s) then Returned((Reconciled(s, now), DueInOrder(s, now, order))) else Raised
  {
    hide Reconciled, TimedOutRun, WorkflowState.Valid, Due;
    var next, changed := s, [];
    SoFarIsReconciled(s, order, now);
    for k := 0 to |order|
      invariant forall a :: a in order[..k] && Watched(s, a) ==> s.orchestrationResults[a].Valid()
      invariant changed == DueInOrder(s, now, order[..k])
      invariant next == TimedOutSoFar(s, order[..k], now)
    {
      var address := order[k];
      assert order[..k + 1][..k] == order[..k];
      assert address in Members(order);
      SoFarLeavesOthers(s, order[..k], address, now);
      var one := TimeOutIfDue(s, address, s.entries[address], next.orchestrationResults, next.orchestrationHistory,
          now);
      if one.Raised? {
        return Raised;
      }
      if one.value.Some? {
        next := WithRun(next, address, one.value.value);
        changed := changed + [address];
      }
    }
    assert order[..|order|] == order;
    return Returned((next, changed));
  }
}
