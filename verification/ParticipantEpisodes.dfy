/**
  The invariants of participant episodes in a snapshot, and the iterator that reports their violations,
  proved to report nothing exactly when they hold.
 */
module ParticipantEpisodes {
  import opened Wrappers
  import opened RuntimeModels

  datatype Violation = Violation(address: string, rule: Rule)

  datatype Rule =
    | EmptyKey | InvalidPayload | KeyMismatch
    | SequenceWentBackward | TransitionNotOpened | EpisodeIdChanged
    | StaleResult | TerminatedWithoutTerminalEvent | TerminalReasonDiffers | LiveAfterTerminalEvent

  // -------------------------------------------------------------- one stream

  /**
    What the stream rules mean for every pair of events: sequence numbers never go back, a sequence number
    has one episode id, and whatever raises the sequence number is a reset or a restart.
   */
  predicate OrderedStream(events: seq<EpisodeEvent>) {
    && (forall i, j :: 0 <= i < j < |events| ==> events[i].sequenceNumber <= events[j].sequenceNumber)
    && (forall i, j :: 0 <= i < j < |events| && events[i].sequenceNumber == events[j].sequenceNumber ==>
          events[i].episodeId == events[j].episodeId)
    && (forall j :: 0 < j < |events| && events[j - 1].sequenceNumber < events[j].sequenceNumber ==>
          events[j].eventType.OpensEpisode())
  }

  /** What the pass remembers: the last sequence number kept, and the latest episode id seen for each number. */
  ghost predicate Remembers(events: seq<EpisodeEvent>, lastSequence: int, episodeOf: map<int, string>) {
    && (events == [] ==> lastSequence == -1)
    && (events != [] ==> lastSequence == events[|events| - 1].sequenceNumber)
    && (forall n :: n in episodeOf ==> exists i :: 0 <= i < |events| && events[i].sequenceNumber == n)
    && (forall i :: 0 <= i < |events| ==>
          events[i].sequenceNumber in episodeOf && episodeOf[events[i].sequenceNumber] == events[i].episodeId)
  }

  lemma NumbersCount(events: seq<EpisodeEvent>)
    requires forall e :: e in events ==> e.Valid()
    ensures forall i :: 0 <= i < |events| ==> events[i].sequenceNumber >= 0
  {
    assert forall i :: 0 <= i < |events| ==> events[i] in events;
  }

  /** The single pass over one participant's events. */
  method StreamViolations(address: string, events: seq<EpisodeEvent>) returns (found: seq<Violation>)
    requires forall e :: e in events ==> e.Valid()
    ensures found == [] <==> OrderedStream(events)
  {
    hide EpisodeEvent.Valid;
    NumbersCount(events);
    found := [];
    var lastSequence := -1;
    var episodeOf: map<int, string> := map[];
    for k := 0 to |events|
      invariant found == [] ==> OrderedStream(events[..k]) && Remembers(events[..k], lastSequence, episodeOf)
      invariant found != [] ==> !OrderedStream(events)
    {
      var event := events[k];
      ghost var clean := found == [];
      ghost var past := events[..k];
      assert events[..k + 1] == past + [event];
      if event.sequenceNumber < lastSequence {
        found := found + [Violation(address, SequenceWentBackward)];
        assert clean ==> events[k - 1] == past[k - 1];
        continue;
      }
      if event.sequenceNumber > lastSequence && lastSequence != -1 && !event.eventType.OpensEpisode() {
        found := found + [Violation(address, TransitionNotOpened)];
        assert clean ==> events[k - 1] == past[k - 1];
      }
      if event.sequenceNumber in episodeOf && episodeOf[event.sequenceNumber] != event.episodeId {
        found := found + [Violation(address, EpisodeIdChanged)];
        if clean {
          var i :| 0 <= i < k && past[i].sequenceNumber == event.sequenceNumber;
          assert events[i] == past[i];
        }
      }
      if found == [] {
        assert past != [] ==> events[k - 1] in events;
        ExtendStream(past, event, lastSequence, episodeOf);
      }
      episodeOf := episodeOf[event.sequenceNumber := event.episodeId];
      lastSequence := event.sequenceNumber;
    }
    assert events[..|events|] == events;
  }

  lemma ExtendStream(past: seq<EpisodeEvent>, event: EpisodeEvent, lastSequence: int, episodeOf: map<int, string>)
    requires OrderedStream(past) && Remembers(past, lastSequence, episodeOf)
    requires event.sequenceNumber >= 0 && event.sequenceNumber >= lastSequence
    requires past != [] ==> lastSequence != -1
    requires event.sequenceNumber > lastSequence && lastSequence != -1 ==> event.eventType.OpensEpisode()
    requires event.sequenceNumber in episodeOf ==> episodeOf[event.sequenceNumber] == event.episodeId
    ensures OrderedStream(past + [event])
    ensures Remembers(past + [event], event.sequenceNumber, episodeOf[event.sequenceNumber := event.episodeId])
  {
    ExtendOrdered(past, event);
    ExtendMemory(past, event, lastSequence, episodeOf);
  }

  lemma ExtendOrdered(past: seq<EpisodeEvent>, event: EpisodeEvent)
    requires OrderedStream(past)
    requires past != [] ==>
      && past[|past| - 1].sequenceNumber <= event.sequenceNumber
      && (past[|past| - 1].sequenceNumber < event.sequenceNumber ==> event.eventType.OpensEpisode())
    requires forall i :: 0 <= i < |past| && past[i].sequenceNumber == event.sequenceNumber ==>
        past[i].episodeId == event.episodeId
    ensures OrderedStream(past + [event])
  {
  }

  lemma ExtendMemory(past: seq<EpisodeEvent>, event: EpisodeEvent, lastSequence: int, episodeOf: map<int, string>)
    requires Remembers(past, lastSequence, episodeOf)
    requires event.sequenceNumber in episodeOf ==> episodeOf[event.sequenceNumber] == event.episodeId
    ensures Remembers(past + [event], event.sequenceNumber, episodeOf[event.sequenceNumber := event.episodeId])
  {
    var all := past + [event];
    var next := episodeOf[event.sequenceNumber := event.episodeId];
    forall n | n in next ensures exists i :: 0 <= i < |all| && all[i].sequenceNumber == n {
      if n == event.sequenceNumber {
        assert all[|past|].sequenceNumber == n;
      } else {
        var i :| 0 <= i < |past| && past[i].sequenceNumber == n;
        assert all[i].sequenceNumber == n;
      }
    }
  }

  // ------------------------------------------------------- the whole snapshot

  predicate ResultAccepted(address: string, result: EpisodeState) {
    address != "" && result.Valid() && result.participant == address
  }

  predicate HistoryAccepted(address: string, history: seq<EpisodeEvent>) {
    && address != ""
    && (forall e :: e in history ==> e.Valid() && e.participant == address)
    && OrderedStream(history)
  }

  /** The current result is the head of the history chain. */
  predicate MatchesHead(result: EpisodeState, head: EpisodeEvent) {
    && head.episodeId == result.episodeId && head.sequenceNumber == result.sequenceNumber
    && (if result.status.EpisodeTerminated? then
          head.eventType.Reason().Some? && result.terminalReason == head.terminalReason
        else head.eventType.Reason().None?)
  }

  predicate EpisodesAccepted(results: map<string, EpisodeState>, history: map<string, seq<EpisodeEvent>>) {
    && (forall a :: a in results ==> ResultAccepted(a, results[a]))
    && (forall a :: a in history ==> HistoryAccepted(a, history[a]))
    && (forall a :: a in results && a in history && history[a] != [] ==>
          MatchesHead(results[a], history[a][|history[a]| - 1]))
  }

  method ResultViolations(address: string, result: EpisodeState) returns (found: seq<Violation>)
    ensures found == [] <==> ResultAccepted(address, result)
  {
    found := [];
    if address == "" {
      return [Violation(address, EmptyKey)];
    }
    if !result.Valid() {
      return [Violation(address, InvalidPayload)];
    }
    if result.participant != address {
      found := [Violation(address, KeyMismatch)];
    }
  }

  method HistoryViolations(address: string, history: seq<EpisodeEvent>) returns (found: seq<Violation>)
    ensures found == [] <==> HistoryAccepted(address, history)
  {
    found := [];
    if address == "" {
      return [Violation(address, EmptyKey)];
    }
    for k := 0 to |history|
      invariant found == [] <==> forall i :: 0 <= i < k ==> history[i].Valid() && history[i].participant == address
    {
      if !history[k].Valid() {
        found := found + [Violation(address, InvalidPayload)];
      } else if history[k].participant != address {
        found := found + [Violation(address, KeyMismatch)];
      }
    }
    if found != [] {
      return;
    }
    found := StreamViolations(address, history);
  }

  /** The cross-check looks at the last event that normalizes under its own key. */
  method HeadViolations(address: string, result: EpisodeState, history: seq<EpisodeEvent>)
    returns (found: seq<Violation>)
    ensures ResultAccepted(address, result) && HistoryAccepted(address, history) && history != [] ==>
              (found == [] <==> MatchesHead(result, history[|history| - 1]))
    ensures history == [] ==> found == []
  {
    found := [];
    if address == "" || history == [] || !result.Valid() {
      return;
    }
    var last: Option<EpisodeEvent> := None;
    for k := 0 to |history|
      invariant k > 0 && HistoryAccepted(address, history) ==> last == Some(history[k - 1])
    {
      if history[k].Valid() && history[k].participant == address {
        last := Some(history[k]);
      }
    }
    if last.None? {
      return;
    }
    var head := last.value;
    if head.episodeId != result.episodeId || head.sequenceNumber != result.sequenceNumber {
      return [Violation(address, StaleResult)];
    }
    if result.status.EpisodeTerminated? {
      if head.eventType.Reason().None? {
        found := [Violation(address, TerminatedWithoutTerminalEvent)];
      } else if result.terminalReason != head.terminalReason {
        found := [Violation(address, TerminalReasonDiffers)];
      }
    } else if head.eventType.Reason().Some? {
      found := [Violation(address, LiveAfterTerminalEvent)];
    }
  }

  method ResultsViolations(results: map<string, EpisodeState>) returns (found: seq<Violation>)
    ensures found == [] <==> forall a :: a in results ==> ResultAccepted(a, results[a])
  {
    hide ResultAccepted;
    found := [];
    var todo := results.Keys;
    while todo != {}
      invariant todo <= results.Keys
      invariant found == [] <==> forall a :: a in results && a !in todo ==> ResultAccepted(a, results[a])
    {
      var a :| a in todo;
      var more := ResultViolations(a, results[a]);
      found := found + more;
      todo := todo - {a};
    }
  }

  method HistoriesViolations(history: map<string, seq<EpisodeEvent>>) returns (found: seq<Violation>)
    ensures found == [] <==> forall a :: a in history ==> HistoryAccepted(a, history[a])
  {
    hide HistoryAccepted;
    found := [];
    var todo := history.Keys;
    while todo != {}
      invariant todo <= history.Keys
      invariant found == [] <==> forall a :: a in history && a !in todo ==> HistoryAccepted(a, history[a])
    {
      var a :| a in todo;
      var more := HistoryViolations(a, history[a]);
      found := found + more;
      todo := todo - {a};
    }
  }

  /** The result is the head of the history, as far as there is one. */
  predicate FitsHistory(a: string, result: EpisodeState, history: map<string, seq<EpisodeEvent>>) {
    a in history && history[a] != [] ==> MatchesHead(result, history[a][|history[a]| - 1])
  }

  /** The cross-check; on maps that are not accepted one by one it may report anything. */
  method HeadsViolations(results: map<string, EpisodeState>, history: map<string, seq<EpisodeEvent>>)
    returns (found: seq<Violation>)
    ensures (forall a :: a in results ==> ResultAccepted(a, results[a]))
            && (forall a :: a in history ==> HistoryAccepted(a, history[a])) ==>
              (found == [] <==> forall a :: a in results ==> FitsHistory(a, results[a], history))
  {
    hide ResultAccepted, HistoryAccepted, MatchesHead;
    found := [];
    ghost var clean :=
      (forall a :: a in results ==> ResultAccepted(a, results[a]))
      && (forall a :: a in history ==> HistoryAccepted(a, history[a]));
    var todo := results.Keys;
    while todo != {}
      invariant todo <= results.Keys
      invariant clean ==> (found == [] <==> forall a :: a in results && a !in todo ==>
          FitsHistory(a, results[a], history))
    {
      var a :| a in todo;
      if a in history {
        var more := HeadViolations(a, results[a], history[a]);
        found := found + more;
      }
      todo := todo - {a};
    }
  }

  /** Every violation in the two participant maps of a snapshot; nothing exactly when they are accepted. */
  method SnapshotViolations(results: map<string, EpisodeState>, history: map<string, seq<EpisodeEvent>>)
    returns (found: seq<Violation>)
    ensures found == [] <==> EpisodesAccepted(results, history)
  {
    hide ResultAccepted, HistoryAccepted, MatchesHead;
    found := ResultsViolations(results);
    var streams := HistoriesViolations(history);
    var heads := HeadsViolations(results, history);
    found := found + streams + heads;
  }
}
