/** Whether what is written when a workflow is closed compensates in strict reverse completion order. */
module CompensationOrder {
  import opened Wrappers
  import opened RuntimeModels
  import opened Text
  import opened WorkflowContracts
  import opened Compensation
  import opened BackendBoundary
  import opened WorkflowControl
  import opened WorkflowSafety

  /** Of any two registered compensations the later one is of a step that did not complete later. */
  predicate RegisteredInReverse(events: seq<WorkflowEvent>) {
    forall i, j | 0 <= i < j < |events| ::
      events[i].eventType.CompensationRegistered? && events[j].eventType.CompensationRegistered? ==>
        && events[i].details.completedAt.Some? && events[j].details.completedAt.Some?
        && events[j].details.completedAt.value.NotAfter(events[i].details.completedAt.value)
  }

  predicate NothingRegistered(history: seq<WorkflowEvent>) {
    forall e :: e in history ==> !e.eventType.CompensationRegistered?
  }

  lemma ThirdsOf(x: nat, m: nat)
    requires x < 3 * m
    ensures x / 3 < m && x == 3 * (x / 3) + x % 3 && x % 3 < 3
  {
  }

  lemma OldAreNotRegistered(history: seq<WorkflowEvent>, block: seq<WorkflowEvent>, p: nat)
    requires NothingRegistered(history) && p < |history|
    ensures !(history + block)[p].eventType.CompensationRegistered?
  {
    assert history[p] in history;
  }

  /** Which compensation is registered at a place of the history. */
  lemma RegisteredAt(
    history: seq<WorkflowEvent>, status: WorkflowStatus, ordered: seq<WorkflowEvent>, targets: map<string, string>,
    at: Stamp, p: nat)
    returns (k: nat)
    requires NothingRegistered(history) && forall e :: e in ordered ==> IsCompensable(e, targets)
    requires p < |history + Block(status, ordered, targets, at)|
    requires (history + Block(status, ordered, targets, at))[p].eventType.CompensationRegistered?
    ensures k < |ordered| && p == |history| + 1 + 3 * k
    ensures (history + Block(status, ordered, targets, at))[p].details.completedAt == Some(ordered[k].timestamp)
  {
    hide Block, IsCompensable;
    var block := Block(status, ordered, targets, at);
    var n, events := |history|, history + block;
    BlockIsRecorded(history, status, ordered, targets, at);
    if p < n {
      OldAreNotRegistered(history, block, p);
    }
    assert n < p < n + 1 + 3 * |ordered|;
    var x := p - n - 1;
    ThirdsOf(x, |ordered|);
    k := x / 3;
    assert Compensates(events, n + 1 + 3 * k, ordered[k], targets);
  }

  lemma RegistersEach(
    history: seq<WorkflowEvent>, status: WorkflowStatus, ordered: seq<WorkflowEvent>, targets: map<string, string>,
    at: Stamp, k: nat)
    requires k < |ordered| && forall e :: e in ordered ==> IsCompensable(e, targets)
    ensures var events, p := history + Block(status, ordered, targets, at), |history| + 1 + 3 * k;
            && p < |events| && events[p].eventType.CompensationRegistered?
            && events[p].details.completedAt == Some(ordered[k].timestamp)
  {
    var n, events := |history|, history + Block(status, ordered, targets, at);
    BlockIsRecorded(history, status, ordered, targets, at);
    assert Compensates(events, n + 1 + 3 * k, ordered[k], targets);
  }

  lemma RegisteredInReverseIff(
    history: seq<WorkflowEvent>, status: WorkflowStatus, ordered: seq<WorkflowEvent>, targets: map<string, string>,
    at: Stamp)
    requires NothingRegistered(history) && forall e :: e in ordered ==> IsCompensable(e, targets)
    ensures RegisteredInReverse(history + Block(status, ordered, targets, at)) <==> ReverseCompletion(ordered)
  {
    hide Block, IsCompensable, NothingRegistered;
    var n, events := |history|, history + Block(status, ordered, targets, at);
    if ReverseCompletion(ordered) {
      forall i, j | 0 <= i < j < |events|
        && events[i].eventType.CompensationRegistered? && events[j].eventType.CompensationRegistered?
        ensures events[i].details.completedAt.Some? && events[j].details.completedAt.Some?
        ensures events[j].details.completedAt.value.NotAfter(events[i].details.completedAt.value)
      {
        var k := RegisteredAt(history, status, ordered, targets, at, i);
        var m := RegisteredAt(history, status, ordered, targets, at, j);
      }
    } else {
      var k, m :| 0 <= k < m < |ordered| && !ordered[m].timestamp.NotAfter(ordered[k].timestamp);
      RegistersEach(history, status, ordered, targets, at, k);
      RegistersEach(history, status, ordered, targets, at, m);
      assert n + 1 + 3 * k < n + 1 + 3 * m;
    }
  }

  /** One text, one instant. */
  predicate ParsesAlike(history: seq<WorkflowEvent>) {
    forall e, f :: e in history && f in history && e.timestamp.text == f.timestamp.text ==> e.timestamp == f.timestamp
  }

  lemma CompensateInReverseIff(
    contract: Option<WorkflowExecutionContract>, st: WorkflowState, history: seq<WorkflowEvent>, at: Stamp)
    requires NothingRegistered(history)
    requires contract.Some? ==> ReadableStamps(Compensable(history, contract.value.compensationTargets))
    ensures RegisteredInReverse(Compensate(contract, st, history, at).1)
            <==> (Fires(contract, st.status, history) ==>
                TextsAgree(Compensable(history, contract.value.compensationTargets)))
  {
    if Fires(contract, st.status, history) {
      var targets := contract.value.compensationTargets;
      var chosen := Compensable(history, targets);
      SameMembers(LatestFirst(chosen), chosen);
      RegisteredInReverseIff(history, st.status, LatestFirst(chosen), targets, at);
      ReverseCompletionIff(chosen);
    } else {
      forall i | 0 <= i < |history| ensures !history[i].eventType.CompensationRegistered? {
        assert history[i] in history;
      }
    }
  }

  /**
    Cancelling an accepted unfinished workflow compensates in strict reverse completion order exactly when
    cancellation triggers no compensation, or no completed compensable step has a timestamp with a smaller text
    and a later instant than another.
   */
  lemma CancelInReverseIff(s: RuntimeSnapshot, address: string, runId: string, reason: string, at: Stamp)
    requires Accepted(s) && Cancellation(s, address, runId, reason, at).Cancels?
    requires ParsesAlike(HistoryAt(s.orchestrationHistory, address))
    ensures HasWorkflowContracts(s, address)
    ensures var xc, history := ExecutionContractAt(s, address), HistoryAt(s.orchestrationHistory, address);
            RegisteredInReverse(Cancellation(s, address, runId, reason, at).next.orchestrationHistory[address])
            <==> (Triggers(xc, Cancelled) ==> TextsAgree(Compensable(history, xc.compensationTargets)))
  {
    hide RunConforms, RegisteredInReverse, TextsAgree, Compensate, Compensable, ReadableStamps;
    assert WorkflowAccepted(s, address);
    var xc, history := ExecutionContractAt(s, address), HistoryAt(s.orchestrationHistory, address);
    var record := CancelRecord(reason, at);
    AcceptedRunIsPlain(s, address);
    CompensableIgnoresRecord(history, record, xc.compensationTargets);
    PlainStamps(history, xc.compensationTargets);
    PlainWithRecord(history, record);
    CompensateInReverseIff(Some(xc), EndedState(s.orchestrationResults[address], Cancelled, reason, at),
        history + [record], at);
    NothingChosen(xc, history);
  }

  lemma NothingChosen(xc: WorkflowExecutionContract, history: seq<WorkflowEvent>)
    ensures Compensable(history, xc.compensationTargets) == [] ==>
        TextsAgree(Compensable(history, xc.compensationTargets))
  {
  }

  /** No compensation event yet, and every timestamp parses. */
  predicate Plain(history: seq<WorkflowEvent>) {
    && (forall e :: e in history ==> !e.eventType.IsCompensation() && e.timestamp.instant.Some?)
    && ParsesAlike(history)
  }

  lemma AcceptedRunIsPlain(s: RuntimeSnapshot, address: string)
    requires WorkflowAccepted(s, address) && !s.orchestrationResults[address].status.IsTerminal()
    requires ParsesAlike(HistoryAt(s.orchestrationHistory, address))
    ensures Plain(HistoryAt(s.orchestrationHistory, address))
  {
    var history := HistoryAt(s.orchestrationHistory, address);
    forall e | e in history ensures e.timestamp.instant.Some? {
      var i :| 0 <= i < |history| && history[i] == e;
      assert Stamps(history)[i].instant.Some?;
    }
  }

  lemma PlainStamps(history: seq<WorkflowEvent>, targets: map<string, string>)
    requires Plain(history)
    ensures ReadableStamps(Compensable(history, targets))
  {
    forall e | e in Compensable(history, targets) ensures e in history {
      CompensableCounts(history, targets, e);
      assert e in multiset(Compensable(history, targets));
      assert e in multiset(history);
    }
  }

  lemma PlainWithRecord(history: seq<WorkflowEvent>, record: WorkflowEvent)
    requires Plain(history) && !record.eventType.IsCompensation()
    ensures NothingRegistered(history + [record])
  {
  }

  // -------------------------------------------------- two steps within one second

  const SECOND := "2026-01-01T00:00:00"

  /** The clock writes the fraction with six digits and leaves it out when it is zero. */
  function OnTheSecond(): Stamp {
    Stamp(SECOND + "Z", Some(0))
  }

  function HalfASecondLater(): Stamp {
    Stamp(SECOND + ".500000Z", Some(500_000))
  }

  const OBSERVED := StepContract(true, [StepSucceeded], None)
  const DONE := StepState(StepCompleted, Some(StepSucceeded), 1)

  const TWO_STEPS := map["a" := OBSERVED, "b" := OBSERVED]

  const COMPENSATED := WorkflowExecutionContract(
    "v1", "a", None, TWO_STEPS, map[], map[], map[], Automatic, [Cancelled], map["a" := "u", "b" := "v"])

  function Completion(step: string, at: Stamp): WorkflowEvent {
    WorkflowEvent(StepCompletedEvent, at, Some(step), None, Some(StepSucceeded), NO_DETAILS)
  }

  function TwoStepHistory(): seq<WorkflowEvent> {
    [ WorkflowEvent(WorkflowStarted, OnTheSecond(), Some("a"), None, None, NO_DETAILS),
      Completion("a", OnTheSecond()), Completion("b", HalfASecondLater()) ]
  }

  function TwoStepState(): WorkflowState {
    WorkflowState("v1", Running, "r", OnTheSecond(), HalfASecondLater(), None, NotRequired, None, None, [],
                  map["a" := DONE, "b" := DONE])
  }

  /** A running workflow whose two compensable steps have succeeded half a second apart. */
  function TwoStepRun(): RuntimeSnapshot {
    EMPTY_SNAPSHOT.(
      entries := map["w" := SnapshotEntry(
        "w", Orchestration, ResourceType.Workflow,
        WorkflowPayload(Some(WorkflowResultContract("v1", TWO_STEPS)), Some(COMPENSATED)), [], [], "queued")],
      orchestrationResults := map["w" := TwoStepState()],
      orchestrationHistory := map["w" := TwoStepHistory()])
  }

  lemma TwoStepStateConforms()
    ensures StateConforms(WorkflowResultContract("v1", TWO_STEPS), COMPENSATED, TwoStepState())
  {
    hide SECOND;
  }

  lemma TwoStepRunConforms()
    ensures RunConforms(WorkflowResultContract("v1", TWO_STEPS), COMPENSATED, TwoStepState(), TwoStepHistory())
  {
    hide StateConforms, HistoryConforms;
    TwoStepStateConforms();
    TwoStepHistoryConforms();
    assert Stamps(TwoStepHistory()) == [OnTheSecond(), OnTheSecond(), HalfASecondLater()];
  }

  lemma TwoStepHistoryConforms()
    ensures HistoryConforms(COMPENSATED, TwoStepState(), TwoStepHistory())
  {
    hide OnTheSecond, HalfASecondLater;
    var history := TwoStepHistory();
    assert forall e :: e in history ==> e == history[0] || e == history[1] || e == history[2];
  }

  lemma TwoStepRunAccepted()
    ensures Accepted(TwoStepRun()) && AllWellLogged(TwoStepRun(), 500_000)
  {
    hide RunConforms, OnTheSecond, HalfASecondLater;
    TwoStepRunConforms();
    assert WorkflowAccepted(TwoStepRun(), "w");
    TwoStepRunWellLogged();
  }

  lemma TwoStepRunWellLogged()
    ensures WellLogged(COMPENSATED, TwoStepState(), TwoStepHistory(), 500_000)
  {
    BothChosen();
    var history := TwoStepHistory();
    assert forall e :: e in history ==> e == history[0] || e == history[1] || e == history[2];
  }

  lemma BothChosen()
    ensures Compensable(TwoStepHistory(), COMPENSATED.compensationTargets)
            == [Completion("a", OnTheSecond()), Completion("b", HalfASecondLater())]
  {
    hide SECOND;
    var history, targets := TwoStepHistory(), COMPENSATED.compensationTargets;
    assert history[..2][..1] == history[..1] && history[..1][..0] == [] && history[..2][1] == history[1];
    assert Compensable(history[..1], targets) == [];
    assert Compensable(history[..2], targets) == [history[1]];
  }

  /**
    Cancelling this accepted, well-logged run compensates the step that completed first before the one that
    completed last: the text of the later timestamp is the smaller one.
   */
  lemma FractionalSecondsBreakReverseCompletion(reason: string, at: Stamp)
    requires at.IsClock() && at.instant.value >= 500_000
    ensures var s := TwoStepRun();
            && Accepted(s) && AllWellLogged(s, at.instant.value)
            && Cancellation(s, "w", "", reason, at).Cancels? && Accepted(Cancellation(s, "w", "", reason, at).next)
            && !RegisteredInReverse(Cancellation(s, "w", "", reason, at).next.orchestrationHistory["w"])
  {
    hide Accepted, AllWellLogged, RegisteredInReverse, Compensable, CancelledRun;
    var s := TwoStepRun();
    TwoStepRunAccepted();
    WellLoggedLater(s, 500_000, at.instant.value);
    CancelStaysAccepted(s, "w", "", reason, at);
    TwoStepTextsParse();
    CancelInReverseIff(s, "w", "", reason, at);
    TextsDisagree();
  }

  lemma TwoStepTextsParse()
    ensures ParsesAlike(TwoStepHistory())
    ensures !TwoStepState().status.IsTerminal() && TwoStepState().Valid()
  {
    var history := TwoStepHistory();
    assert (SECOND + "Z")[|SECOND|] != (SECOND + ".500000Z")[|SECOND|];
    assert forall e :: e in history ==> e == history[0] || e == history[1] || e == history[2];
  }

  lemma TextsDisagree()
    ensures !TextsAgree(Compensable(TwoStepHistory(), COMPENSATED.compensationTargets))
  {
    BothChosen();
    var chosen := Compensable(TwoStepHistory(), COMPENSATED.compensationTargets);
    assert chosen[0] in chosen && chosen[1] in chosen;
    LexCommonPrefix(SECOND, ".500000Z", "Z");
    assert (SECOND + "Z")[|SECOND|] != (SECOND + ".500000Z")[|SECOND|];
    assert LexLess(chosen[1].timestamp.text, chosen[0].timestamp.text);
  }
}
