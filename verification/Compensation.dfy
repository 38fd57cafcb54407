/**
  Automatic compensation: which completed steps are compensated, in which order, and the block of
  events that records it.
 */
module Compensation {
  import opened Wrappers
  import opened Text
  import opened RuntimeModels
  import opened WorkflowContracts

  /** A successful completion of a step that has a compensation target. */
  predicate IsCompensable(e: WorkflowEvent, targets: map<string, string>) {
    && e.eventType.StepCompletedEvent? && e.stepName.Some?
    && e.outcome == Some(StepSucceeded) && e.stepName.value in targets
  }

  function Compensable(history: seq<WorkflowEvent>, targets: map<string, string>): (r: seq<WorkflowEvent>)
    ensures forall e :: e in r <==> e in history && IsCompensable(e, targets)
  {
    if history == [] then []
    else
      var last := history[|history| - 1];
      var earlier := Compensable(history[..|history| - 1], targets);
      assert history == history[..|history| - 1] + [last];
      if IsCompensable(last, targets) then earlier + [last] else earlier
  }

  // --------------------------------------------- latest first, ties in order

  predicate NotBefore(e: WorkflowEvent, f: WorkflowEvent) {
    LexLe(f.timestamp.text, e.timestamp.text)
  }

  predicate Descending(events: seq<WorkflowEvent>) {
    forall i, j :: 0 <= i < j < |events| ==> NotBefore(events[i], events[j])
  }

  /** Puts an event behind every event of a descending list whose text is not smaller. */
  function Insert(sorted: seq<WorkflowEvent>, e: WorkflowEvent): (r: seq<WorkflowEvent>)
    ensures multiset(r) == multiset(sorted) + multiset{e}
  {
    if sorted == [] then [e]
    else
      var front, last := sorted[..|sorted| - 1], sorted[|sorted| - 1];
      assert sorted == front + [last];
      if NotBefore(last, e) then sorted + [e] else Insert(front, e) + [last]
  }

  /** The stable descending sort by timestamp text. */
  function LatestFirst(events: seq<WorkflowEvent>): (r: seq<WorkflowEvent>)
    ensures multiset(r) == multiset(events)
  {
    if events == [] then []
    else
      assert events == events[..|events| - 1] + [events[|events| - 1]];
      Insert(LatestFirst(events[..|events| - 1]), events[|events| - 1])
  }

  /** The events that carry one timestamp text, in the order in which they stand. */
  function WithText(events: seq<WorkflowEvent>, text: string): seq<WorkflowEvent> {
    if events == [] then []
    else
      var rest := WithText(events[..|events| - 1], text);
      if events[|events| - 1].timestamp.text == text then rest + [events[|events| - 1]] else rest
  }

  lemma {:induction false} InsertKeepsOrder(sorted: seq<WorkflowEvent>, e: WorkflowEvent)
    requires Descending(sorted)
    ensures Descending(Insert(sorted, e))
  {
    if sorted != [] {
      var front, last := sorted[..|sorted| - 1], sorted[|sorted| - 1];
      var r := Insert(sorted, e);
      if NotBefore(last, e) {
        forall i | 0 <= i < |sorted| ensures NotBefore(sorted[i], e) {
          if i < |sorted| - 1 {
            LexTransitive(e.timestamp.text, last.timestamp.text, sorted[i].timestamp.text);
          }
        }
      } else {
        LexTotal(last.timestamp.text, e.timestamp.text);
        InsertKeepsOrder(front, e);
        forall i | 0 <= i < |r| - 1 ensures NotBefore(r[i], last) {
          assert r[i] in Insert(front, e);
          assert r[i] in multiset(front) + multiset{e};
        }
      }
    }
  }

  lemma {:induction false} InsertKeepsTies(sorted: seq<WorkflowEvent>, e: WorkflowEvent, text: string)
    requires Descending(sorted)
    ensures WithText(Insert(sorted, e), text) == WithText(sorted + [e], text)
  {
    assert (sorted + [e])[..|sorted|] == sorted;
    if sorted != [] {
      var front, last := sorted[..|sorted| - 1], sorted[|sorted| - 1];
      if !NotBefore(last, e) {
        InsertKeepsTies(front, e, text);
        assert (front + [e])[..|front|] == front;
        assert (Insert(front, e) + [last])[..|Insert(front, e)|] == Insert(front, e);
        LexTotal(last.timestamp.text, e.timestamp.text);
      }
    }
  }

  /** Sorting puts later texts first and leaves equal texts in history order. */
  lemma {:induction false} LatestFirstIsStable(events: seq<WorkflowEvent>)
    ensures Descending(LatestFirst(events))
    ensures forall text :: WithText(LatestFirst(events), text) == WithText(events, text)
  {
    if events != [] {
      var front, last := events[..|events| - 1], events[|events| - 1];
      LatestFirstIsStable(front);
      InsertKeepsOrder(LatestFirst(front), last);
      forall text ensures WithText(LatestFirst(events), text) == WithText(events, text) {
        InsertKeepsTies(LatestFirst(front), last, text);
        assert (LatestFirst(front) + [last])[..|LatestFirst(front)|] == LatestFirst(front);
      }
    }
  }

  // ---------------------------------------------------------------- the block

  function Mark(t: WorkflowEventType, at: Stamp, step: Option<string>, details: EventDetails): WorkflowEvent {
    WorkflowEvent(t, at, step, None, None, details)
  }

  /** The three events that record the compensation of one completed step. */
  function Triple(e: WorkflowEvent, targets: map<string, string>, at: Stamp): seq<WorkflowEvent>
    requires IsCompensable(e, targets)
  {
    var target := NO_DETAILS.(workflowAddress := targets[e.stepName.value]);
    [ Mark(CompensationRegistered, at, e.stepName, target.(completedAt := Some(e.timestamp))),
      Mark(CompensationWorkflowStarted, at, e.stepName, target),
      Mark(CompensationWorkflowCompleted, at, e.stepName, target) ]
  }

  function Triples(ordered: seq<WorkflowEvent>, targets: map<string, string>, at: Stamp): (r: seq<WorkflowEvent>)
    requires forall e :: e in ordered ==> IsCompensable(e, targets)
    ensures |r| == 3 * |ordered|
  {
    if ordered == [] then []
    else Triples(ordered[..|ordered| - 1], targets, at) + Triple(ordered[|ordered| - 1], targets, at)
  }

  function Block(
    status: WorkflowStatus, ordered: seq<WorkflowEvent>, targets: map<string, string>,
    at: Stamp): (r: seq<WorkflowEvent>)
    requires forall e :: e in ordered ==> IsCompensable(e, targets)
    ensures |r| == 3 * |ordered| + 2
  {
    [Mark(CompensationStarted, at, None, NO_DETAILS.(trigger := Some(status)))]
    + Triples(ordered, targets, at)
    + [Mark(CompensationCompleted, at, None, NO_DETAILS.(number := Some(|ordered|)))]
  }

  predicate Fires(contract: Option<WorkflowExecutionContract>, status: WorkflowStatus, history: seq<WorkflowEvent>) {
    && contract.Some? && Triggers(contract.value, status)
    && Compensable(history, contract.value.compensationTargets) != []
  }

  function CompensatedState(st: WorkflowState, at: Stamp): WorkflowState {
    st.(updatedAt := at, compensation := CompensationSucceeded, compensationStartedAt := Some(at),
        compensationUpdatedAt := Some(at), compensationFailures := [])
  }

  function Compensate(
    contract: Option<WorkflowExecutionContract>, st: WorkflowState, history: seq<WorkflowEvent>, at: Stamp)
    : (r: (WorkflowState, seq<WorkflowEvent>))
  {
    if Fires(contract, st.status, history) then
      var targets := contract.value.compensationTargets;
      var ordered := LatestFirst(Compensable(history, targets));
      SameMembers(ordered, Compensable(history, targets));
      (CompensatedState(st, at), history + Block(st.status, ordered, targets, at))
    else (st, history)
  }

  lemma SameMembers<T>(a: seq<T>, b: seq<T>)
    requires multiset(a) == multiset(b)
    ensures |a| == |b|
    ensures forall x :: x in a <==> x in b
  {
    assert |multiset(a)| == |multiset(b)|;
    forall x ensures x in a <==> x in b {
      assert x in a <==> x in multiset(a);
    }
  }

  method CollectCompensable(history: seq<WorkflowEvent>, targets: map<string, string>)
    returns (completed: seq<WorkflowEvent>)
    ensures completed == Compensable(history, targets)
  {
    completed := [];
    for k := 0 to |history|
      invariant completed == Compensable(history[..k], targets)
    {
      assert history[..k + 1][..k] == history[..k];
      var event := history[k];
      if !event.eventType.StepCompletedEvent? {
        continue;
      }
      if event.stepName.None? || event.outcome.None? {
        continue;
      }
      if !event.outcome.value.StepSucceeded? {
        continue;
      }
      if event.stepName.value !in targets {
        continue;
      }
      completed := completed + [event];
    }
    assert history[..|history|] == history;
  }

  method AppendBlock(
    history: seq<WorkflowEvent>, status: WorkflowStatus, ordered: seq<WorkflowEvent>, targets: map<string, string>,
    at: Stamp)
    returns (mutated: seq<WorkflowEvent>)
    requires forall e :: e in ordered ==> IsCompensable(e, targets)
    ensures mutated == history + Block(status, ordered, targets, at)
  {
    ghost var opening := [Mark(CompensationStarted, at, None, NO_DETAILS.(trigger := Some(status)))];
    mutated := history + [Mark(CompensationStarted, at, None, NO_DETAILS.(trigger := Some(status)))];
    for k := 0 to |ordered|
      invariant forall e :: e in ordered[..k] ==> IsCompensable(e, targets)
      invariant mutated == history + (opening + Triples(ordered[..k], targets, at))
    {
      var event := ordered[k];
      assert event in ordered;
      assert ordered[..k + 1][..k] == ordered[..k] && ordered[..k + 1][k] == event;
      var target := NO_DETAILS.(workflowAddress := targets[event.stepName.value]);
      ghost var before := mutated;
      mutated := mutated + [Mark(CompensationRegistered, at, event.stepName,
          target.(completedAt := Some(event.timestamp)))];
      mutated := mutated + [Mark(CompensationWorkflowStarted, at, event.stepName, target)];
      mutated := mutated + [Mark(CompensationWorkflowCompleted, at, event.stepName, target)];
      assert mutated == before + Triple(event, targets, at);
    }
    assert ordered[..|ordered|] == ordered;
    mutated := mutated + [Mark(CompensationCompleted, at, None, NO_DETAILS.(number := Some(|ordered|)))];
  }

  /** The procedure as it runs: collect, sort, append. */
  method MaybeApplyCompensation(
    contract: Option<WorkflowExecutionContract>, result: WorkflowState, history: seq<WorkflowEvent>, submittedAt: Stamp)
    returns (state: WorkflowState, events: seq<WorkflowEvent>)
    ensures (state, events) == Compensate(contract, result, history, submittedAt)
  {
    if contract.None? {
      return result, history;
    }
    var xc := contract.value;
    if !xc.compensationMode.Automatic? {
      return result, history;
    }
    if result.status !in xc.compensationTriggers {
      return result, history;
    }
    var completed := CollectCompensable(history, xc.compensationTargets);
    if completed == [] {
      return result, history;
    }
    var ordered := LatestFirst(completed);
    SameMembers(ordered, completed);
    events := AppendBlock(history, result.status, ordered, xc.compensationTargets, submittedAt);
    state := result.(updatedAt := submittedAt, compensation := CompensationSucceeded,
                     compensationStartedAt := Some(submittedAt), compensationUpdatedAt := Some(submittedAt),
                     compensationFailures := []);
  }

  // ------------------------------------------------------------- the schedule

  /**
    How often an event occurs in the selection: as often as in the history if it is compensable, and never otherwise.
   */
  lemma {:induction false} CompensableCounts(
    history: seq<WorkflowEvent>, targets: map<string, string>, e: WorkflowEvent)
    ensures multiset(Compensable(history, targets))[e] == if IsCompensable(e, targets) then multiset(history)[e] else 0
  {
    if history != [] {
      assert history == history[..|history| - 1] + [history[|history| - 1]];
      CompensableCounts(history[..|history| - 1], targets, e);
    }
  }

  lemma {:induction false} TripleAt(ordered: seq<WorkflowEvent>, targets: map<string, string>, at: Stamp, k: nat)
    requires forall e :: e in ordered ==> IsCompensable(e, targets)
    requires k < |ordered|
    ensures Triples(ordered, targets, at)[3 * k..3 * k + 3] == Triple(ordered[k], targets, at)
  {
    var front := ordered[..|ordered| - 1];
    if k < |front| {
      TripleAt(front, targets, at, k);
      assert Triples(ordered, targets, at)[3 * k..3 * k + 3] == Triples(front, targets, at)[3 * k..3 * k + 3];
    }
  }

  /**
    Three events from the given place on record the compensation of one completed step: registered with the time of
    its completion, started, and completed, all three for the step and for the workflow that compensates it.
   */
  predicate Compensates(events: seq<WorkflowEvent>, i: nat, completed: WorkflowEvent, targets: map<string, string>) {
    && i + 2 < |events| && completed.stepName.Some? && completed.stepName.value in targets
    && var target := targets[completed.stepName.value];
    && events[i].eventType.CompensationRegistered? && events[i].stepName == completed.stepName
    && events[i].details == EventDetails(target, Some(completed.timestamp), None, None, None)
    && events[i + 1].eventType.CompensationWorkflowStarted? && events[i + 1].stepName == completed.stepName
    && events[i + 1].details == EventDetails(target, None, None, None, None)
    && events[i + 2].eventType.CompensationWorkflowCompleted? && events[i + 2].stepName == completed.stepName
    && events[i + 2].details == EventDetails(target, None, None, None, None)
  }

  /**
    What lies where in the history once a block is appended: an opening that names the trigger, three events for each
    completed step and nothing between them, and a closing that counts them, all stamped with the same time.
   */
  predicate RecordsBlock(
    events: seq<WorkflowEvent>, history: seq<WorkflowEvent>, status: WorkflowStatus,
    ordered: seq<WorkflowEvent>, targets: map<string, string>, at: Stamp)
  {
    var n, last := |history|, |events| - 1;
    && |events| == n + 3 * |ordered| + 2
    && events[..n] == history
    && (forall i :: n <= i < |events| ==>
          events[i].timestamp == at && events[i].outcome.None? && events[i].joinStep.None?)
    && events[n].eventType.CompensationStarted? && events[n].stepName.None?
    && events[n].details == EventDetails("", None, Some(status), None, None)
    && events[last].eventType.CompensationCompleted? && events[last].stepName.None?
    && events[last].details == EventDetails("", None, None, None, Some(|ordered|))
    && forall k :: 0 <= k < |ordered| ==> Compensates(events, n + 1 + 3 * k, ordered[k], targets)
  }

  lemma {:induction false} TriplesStamped(ordered: seq<WorkflowEvent>, targets: map<string, string>, at: Stamp)
    requires forall e :: e in ordered ==> IsCompensable(e, targets)
    ensures forall e :: e in Triples(ordered, targets, at) ==>
        e.timestamp == at && e.outcome.None? && e.joinStep.None?
  {
    if ordered != [] {
      TriplesStamped(ordered[..|ordered| - 1], targets, at);
    }
  }

  lemma BlockIsRecorded(
    history: seq<WorkflowEvent>, status: WorkflowStatus, ordered: seq<WorkflowEvent>, targets: map<string, string>,
    at: Stamp)
    requires forall e :: e in ordered ==> IsCompensable(e, targets)
    ensures RecordsBlock(history + Block(status, ordered, targets, at), history, status, ordered, targets, at)
  {
    hide Triples, Compensates, IsCompensable;
    var n, triples := |history|, Triples(ordered, targets, at);
    var events := history + Block(status, ordered, targets, at);
    TriplesStamped(ordered, targets, at);
    forall i | n <= i < |events|
        ensures events[i].timestamp == at && events[i].outcome.None? && events[i].joinStep.None? {
      if n < i < |events| - 1 {
        assert events[i] == triples[i - n - 1];
      }
    }
    forall k | 0 <= k < |ordered| ensures Compensates(events, n + 1 + 3 * k, ordered[k], targets) {
      TripleAt(ordered, targets, at, k);
      var place := n + 1 + 3 * k;
      assert events[place] == triples[3 * k] && events[place + 1] == triples[3 * k + 1]
          && events[place + 2] == triples[3 * k + 2];
      TripleCompensates(events, place, ordered[k], targets, at);
    }
  }

  lemma TripleCompensates(
    events: seq<WorkflowEvent>, i: nat, completed: WorkflowEvent, targets: map<string, string>, at: Stamp)
    requires IsCompensable(completed, targets) && i + 2 < |events|
    requires [events[i], events[i + 1], events[i + 2]] == Triple(completed, targets, at)
    ensures Compensates(events, i, completed, targets)
  {
    var triple := Triple(completed, targets, at);
    assert events[i] == triple[0] && events[i + 1] == triple[1] && events[i + 2] == triple[2];
  }

  /** The successful completions of compensable steps that carry one timestamp text, in history order. */
  ghost function CompletionsWithText(
    history: seq<WorkflowEvent>, targets: map<string, string>, text: string): seq<WorkflowEvent> {
    if history == [] then []
    else
      var last := history[|history| - 1];
      var earlier := CompletionsWithText(history[..|history| - 1], targets, text);
      if last.eventType.StepCompletedEvent? && last.outcome == Some(StepSucceeded)
         && last.stepName.Some? && last.stepName.value in targets && last.timestamp.text == text
      then earlier + [last] else earlier
  }

  lemma {:induction false} SelectedWithText(history: seq<WorkflowEvent>, targets: map<string, string>, text: string)
    ensures WithText(Compensable(history, targets), text) == CompletionsWithText(history, targets, text)
  {
    if history != [] {
      var front, last := history[..|history| - 1], history[|history| - 1];
      SelectedWithText(front, targets, text);
      var earlier := Compensable(front, targets);
      assert (earlier + [last])[..|earlier|] == earlier;
    }
  }

  /**
    The order of compensation: exactly the successful completions of compensable steps, as often as they are in the
    history, those with a larger timestamp text first, and those with one text in history order.
   */
  ghost predicate Schedule(ordered: seq<WorkflowEvent>, history: seq<WorkflowEvent>, targets: map<string, string>) {
    && (forall e :: multiset(ordered)[e] ==
          if e.eventType.StepCompletedEvent? && e.outcome == Some(StepSucceeded)
             && e.stepName.Some? && e.stepName.value in targets then multiset(history)[e] else 0)
    && (forall i, j :: 0 <= i < j < |ordered| ==> LexLe(ordered[j].timestamp.text, ordered[i].timestamp.text))
    && (forall text :: WithText(ordered, text) == CompletionsWithText(history, targets, text))
  }

  lemma ScheduleOf(history: seq<WorkflowEvent>, targets: map<string, string>)
    ensures Schedule(LatestFirst(Compensable(history, targets)), history, targets)
  {
    hide LatestFirst, Compensable, WithText, CompletionsWithText, LexLe;
    var chosen := Compensable(history, targets);
    var ordered := LatestFirst(chosen);
    LatestFirstIsStable(chosen);
    forall e ensures multiset(ordered)[e] == if IsCompensable(e, targets) then multiset(history)[e] else 0 {
      CompensableCounts(history, targets, e);
    }
    forall i, j | 0 <= i < j < |ordered| ensures LexLe(ordered[j].timestamp.text, ordered[i].timestamp.text) {
      assert NotBefore(ordered[i], ordered[j]);
    }
    forall text ensures WithText(ordered, text) == CompletionsWithText(history, targets, text) {
      SelectedWithText(history, targets, text);
    }
  }

  /**
    Compensation happens exactly when the contract compensates automatically, the workflow's status triggers it, and
    some compensable step is on record as succeeded. Then the history is the old one plus a block of 3n+2 events, the
    state reports success now, and all else stays; otherwise nothing changes.
   */
  lemma CompensationSchedule(
    contract: Option<WorkflowExecutionContract>, st: WorkflowState, history: seq<WorkflowEvent>, at: Stamp)
    returns (fires: bool, ordered: seq<WorkflowEvent>)
    ensures fires <==>
      && contract.Some? && contract.value.compensationMode.Automatic?
      && st.status in contract.value.compensationTriggers
      && exists e :: e in history && e.eventType.StepCompletedEvent? && e.outcome == Some(StepSucceeded)
                     && e.stepName.Some? && e.stepName.value in contract.value.compensationTargets
    ensures !fires ==> Compensate(contract, st, history, at) == (st, history)
    ensures fires ==>
      && ordered != [] && Schedule(ordered, history, contract.value.compensationTargets)
      && RecordsBlock(Compensate(contract, st, history, at).1, history, st.status, ordered,
                      contract.value.compensationTargets, at)
      && Compensate(contract, st, history, at).0
         == st.(updatedAt := at, compensation := CompensationSucceeded, compensationStartedAt := Some(at),
                compensationUpdatedAt := Some(at), compensationFailures := [])
  {
    hide LatestFirst, Compensable, Block, Schedule, RecordsBlock;
    fires, ordered := Fires(contract, st.status, history), [];
    if contract.Some? {
      var targets := contract.value.compensationTargets;
      var chosen := Compensable(history, targets);
      assert chosen != [] <==> exists e :: e in history && IsCompensable(e, targets) by {
        if chosen != [] {
          assert chosen[0] in chosen;
        }
      }
      if fires {
        ordered := LatestFirst(chosen);
        SameMembers(ordered, chosen);
        ScheduleOf(history, targets);
        BlockIsRecorded(history, st.status, ordered, targets, at);
      }
    }
  }

  // ------------------------------------------- reverse completion, by instant

  predicate ReverseCompletion(ordered: seq<WorkflowEvent>) {
    forall i, j :: 0 <= i < j < |ordered| ==> ordered[j].timestamp.NotAfter(ordered[i].timestamp)
  }

  /** Timestamps that parse, one text to one instant. */
  predicate ReadableStamps(events: seq<WorkflowEvent>) {
    && (forall e :: e in events ==> e.timestamp.instant.Some?)
    && (forall e, f :: e in events && f in events && e.timestamp.text == f.timestamp.text ==>
        e.timestamp == f.timestamp)
  }

  /** A smaller text never stands for a later instant. */
  predicate TextsAgree(events: seq<WorkflowEvent>) {
    forall e, f :: e in events && f in events && LexLess(e.timestamp.text, f.timestamp.text) ==>
        e.timestamp.NotAfter(f.timestamp)
  }

  /**
    The promised order is strict reverse completion order. The code sorts the texts, so it keeps the promise
    exactly when a smaller text never stands for a later instant.
   */
  lemma ReverseCompletionIff(chosen: seq<WorkflowEvent>)
    requires ReadableStamps(chosen)
    ensures ReverseCompletion(LatestFirst(chosen)) <==> TextsAgree(chosen)
  {
    var ordered := LatestFirst(chosen);
    SameMembers(ordered, chosen);
    LatestFirstIsStable(chosen);
    if ReverseCompletion(ordered) {
      forall e, f | e in chosen && f in chosen && LexLess(e.timestamp.text, f.timestamp.text)
        ensures e.timestamp.NotAfter(f.timestamp)
      {
        LaterTextFirst(ordered, e, f);
      }
    } else {
      var i, j :| 0 <= i < j < |ordered| && !ordered[j].timestamp.NotAfter(ordered[i].timestamp);
      assert NotBefore(ordered[i], ordered[j]);
      assert ordered[i] in chosen && ordered[j] in chosen;
    }
  }

  lemma LaterTextFirst(ordered: seq<WorkflowEvent>, e: WorkflowEvent, f: WorkflowEvent)
    requires Descending(ordered) && ReverseCompletion(ordered)
    requires e in ordered && f in ordered && LexLess(e.timestamp.text, f.timestamp.text)
    ensures e.timestamp.NotAfter(f.timestamp)
  {
    var p :| 0 <= p < |ordered| && ordered[p] == e;
    var q :| 0 <= q < |ordered| && ordered[q] == f;
    if p < q {
      assert NotBefore(ordered[p], ordered[q]);
      LexAntisymmetric(e.timestamp.text, f.timestamp.text);
    }
  }
}
