/** What each participant action does, read off the results, histories and counters before and after it. */
module ParticipantOutcomes {
  import opened Wrappers
  import opened RuntimeModels
  import opened Text
  import opened BackendBoundary
  import opened ParticipantRuntime
  import opened ParticipantLogs
  import opened ParticipantRuns

  /** The action failed: the snapshot is as it was, and there is one error, at the participant if one was named. */
  predicate Refused(s: RuntimeSnapshot, address: string, result: ApplyResult) {
    && !result.success && result.snapshot == s && result.changedAddresses == []
    && |result.diagnostics| == 1 && result.diagnostics[0].severity.Error?
    && result.diagnostics[0].address == if address == "" then "runtime.participant-runtime" else address
  }

  /** The participant has the given result now, the given events at the end of its history, and nothing else changed. */
  predicate Served(
    s: RuntimeSnapshot, address: string, result: ApplyResult, state: EpisodeState, events: seq<EpisodeEvent>)
  {
    && result.success && result.diagnostics == [] && result.changedAddresses == [address]
    && result.snapshot == s.(
         participantResults := s.participantResults[address := state],
         participantHistory := s.participantHistory[address := HistoryAt(s.participantHistory, address) + events])
  }

  /**
    The id that the caller brought, or the address with the number of ids allocated to it so far, this one included.
   */
  predicate BearsId(id: string, address: string, episodeId: string, counter: map<string, nat>) {
    var given := if address in counter then counter[address] else 0;
    id == if episodeId != "" then episodeId else address + "-episode-" + Decimal(given + 1)
  }

  predicate CountsAllocation(
    address: string, episodeId: string, before: map<string, nat>, after: map<string, nat>) {
    after == if episodeId != "" then before
             else before[address := (if address in before then before[address] else 0) + 1]
  }

  function Events(
    address: string, id: string, number: int, action: ControlAction, previous: Option<string>, reason: Option<string>,
    now: Stamp): seq<EpisodeEvent>
  {
    var opening := match action
      case Initialize => EpisodeInitialized
      case Reset => EpisodeReset
      case Restart => EpisodeRestarted;
    [ EpisodeEvent(opening, now, address, id, number, None, Some(action), EpisodeDetails(previous, reason, None)),
      EpisodeEvent(EpisodeRunning, now, address, id, number, None, None, EpisodeDetails(None, None, None)) ]
  }

  /** An episode has been opened: a running state, and one event for the action and one for the start. */
  predicate Opened(
    s: RuntimeSnapshot, address: string, result: ApplyResult, id: string, number: int, action: ControlAction,
    previous: Option<string>, reason: Option<string>, now: Stamp)
  {
    Served(s, address, result,
           EpisodeState("participant-episode-state/v1", address, id, number, EpisodeLive, None, now, now, None, action,
                        previous),
           Events(address, id, number, action, previous, reason, now))
  }

  // -------------------------------------------------------------- initialize

  /**
    Initializing succeeds exactly for a named participant that has no episode yet, and opens episode 0, without a
    predecessor. Ids that are allocated are counted.
   */
  lemma InitializeTells(w: World, address: string, episodeId: string, now: Stamp)
    returns (id: string)
    requires Sound(w) && now.text != ""
    ensures var s, next := w.snapshot, Serve(w, Call(InitializeRequest(address, episodeId), now));
            var reply := Reply(InitializeRequest(address, episodeId), s, w.stub, now);
            && reply.Returned? && next.snapshot == reply.value.snapshot
            && (if address == "" || address in s.participantResults then
                  Refused(s, address, reply.value) && next.stub == w.stub
                else
                  && BearsId(id, address, episodeId, w.stub.counter)
                  && Opened(s, address, reply.value, id, 0, Initialize, None, None, now)
                  && CountsAllocation(address, episodeId, w.stub.counter, next.stub.counter))
  {
    hide Accepted, Faithful, Decimal, IdFor, EpisodeName;
    var request := InitializeRequest(address, episodeId);
    id := IdFor(address, episodeId, w.stub.counter);
    IdText(address, episodeId, w.stub.counter);
    RaisesIff(request, w.snapshot, w.stub, now);
    ServeKeepsSound(w, Call(request, now));
    if address != "" && address !in w.snapshot.participantResults {
      var move := Chosen(request, w.snapshot, w.stub, now);
      assert HistoryAt(w.snapshot.participantHistory, address) + move.events == move.events;
      assert move.events == Events(address, id, 0, Initialize, None, None, now);
    }
  }

  lemma NameText(address: string, index: nat)
    ensures EpisodeName(address, index) == address + "-episode-" + Decimal(index)
  {
    assert address + "-episode" + "-" == address + "-episode-";
  }

  // -------------------------------------------------------- reset and restart

  /**
    A reset of a running episode, and a restart of an ended one, opens the next episode of the participant: the
    number is one higher, the predecessor is the current episode, and the reason is on record. It raises exactly when
    the id is the current one; an id allocated for it is counted even then.
   */
  lemma ReopeningTells(w: World, address: string, episodeId: string, reason: string, restart: bool, now: Stamp)
    returns (id: string)
    requires Sound(w) && now.text != ""
    ensures var request := Reopening(address, episodeId, reason, restart);
            var s, next, reply := w.snapshot, Serve(w, Call(request, now)), Reply(request, w.snapshot, w.stub, now);
            && (reply.Returned? ==> next.snapshot == reply.value.snapshot)
            && (if address !in s.participantResults
                   || s.participantResults[address].status.EpisodeTerminated? != restart then
                  reply.Returned? && Refused(s, address, reply.value) && next.stub == w.stub
                else
                  var current := s.participantResults[address];
                  && BearsId(id, address, episodeId, w.stub.counter)
                  && CountsAllocation(address, episodeId, w.stub.counter, next.stub.counter)
                  && (reply.Raised? <==> id == current.episodeId)
                  && (reply.Raised? ==> next.snapshot == s)
                  && (reply.Returned? ==>
                        Opened(s, address, reply.value, id, current.sequenceNumber + 1,
                               if restart then Restart else Reset, Some(current.episodeId), Some(reason), now)))
  {
    hide Accepted, Faithful, Decimal, IdFor, EpisodeName, EpisodeState.Valid, Chosen, Move.Constructs, Served, Refused,
    Reply, Memory, BearsId, CountsAllocation, Screened;
    var request := Reopening(address, episodeId, reason, restart);
    id := IdFor(address, episodeId, w.stub.counter);
    IdText(address, episodeId, w.stub.counter);
    if address in w.snapshot.participantResults {
      OnlyNamed(w, address);
    }
    ReopeningMoves(address, episodeId, reason, restart, w.snapshot, w.stub, now);
    RaisesIff(request, w.snapshot, w.stub, now);
    ServeKeepsSound(w, Call(request, now));
    ReopeningReplies(address, episodeId, reason, restart, w.snapshot, w.stub, now);
    if Reply(request, w.snapshot, w.stub, now).Raised? {
      RaisedStays(w, Call(request, now));
    }
  }

  /** What the move means for the reply and for the runtime's counter. */
  lemma ReopeningReplies(
    address: string, episodeId: string, reason: string, restart: bool, s: RuntimeSnapshot, stub: StubState, now: Stamp)
    ensures var request := Reopening(address, episodeId, reason, restart);
            var move, reply := Chosen(request, s, stub, now), Reply(request, s, stub, now);
            && (move.Rejects? ==>
                  reply.Returned? && Refused(s, address, reply.value) && Memory(request, s, stub, now) == stub)
            && (move.Moves? ==>
                  CountsAllocation(address, episodeId, stub.counter, Memory(request, s, stub, now).counter))
            && (move.Moves? && reply.Returned? ==> Served(s, address, reply.value, move.state, move.events))
  {
    hide Chosen, Move.Constructs;
  }

  lemma RaisedStays(w: World, call: Call)
    requires Reply(call.request, w.snapshot, w.stub, call.now).Raised?
    ensures Serve(w, call).snapshot == w.snapshot
  {
  }

  function Reopening(address: string, episodeId: string, reason: string, restart: bool): EpisodeRequest {
    if restart then RestartRequest(address, episodeId, reason) else ResetRequest(address, episodeId, reason)
  }

  /** The move behind a reset or restart. */
  lemma ReopeningMoves(
    address: string, episodeId: string, reason: string, restart: bool, s: RuntimeSnapshot, stub: StubState, now: Stamp)
    requires address in s.participantResults ==> address != "" && s.participantResults[address].Valid()
    ensures var move := Chosen(Reopening(address, episodeId, reason, restart), s, stub, now);
            if address !in s.participantResults
               || s.participantResults[address].status.EpisodeTerminated? != restart then move.Rejects?
            else
              var current, id := s.participantResults[address], IdFor(address, episodeId, stub.counter);
              var action := if restart then Restart else Reset;
              && move.Moves?
              && move.state == EpisodeState("participant-episode-state/v1", address, id, current.sequenceNumber + 1,
                                 EpisodeLive, None, now, now, None, action, Some(current.episodeId))
              && move.events == Events(address, id, current.sequenceNumber + 1, action, Some(current.episodeId),
                                  Some(reason), now)
  {
    hide IdFor, EpisodeState.Valid;
  }

  lemma IdText(address: string, episodeId: string, counter: map<string, nat>)
    ensures BearsId(IdFor(address, episodeId, counter), address, episodeId, counter)
  {
    NameText(address, NextIndex(counter, address));
  }

  lemma OnlyNamed(w: World, address: string)
    requires Sound(w) && address in w.snapshot.participantResults
    ensures address != "" && w.snapshot.participantResults[address].Valid()
  {
  }

  // --------------------------------------------------------------- terminate

  /** The event that records the reason. */
  predicate RecordsReason(e: EpisodeEventType, reason: TerminalReason) {
    && (e.EpisodeCompleted? <==> reason.Completed?) && (e.EpisodeTimedOut? <==> reason.TimedOutReason?)
    && (e.EpisodeTruncated? <==> reason.Truncated?) && (e.EpisodeInterrupted? <==> reason.Interrupted?)
  }

  /** The same episode, ended now for the given reason. */
  function EndedBy(address: string, current: EpisodeState, reason: TerminalReason, now: Stamp): EpisodeState {
    EpisodeState("participant-episode-state/v1", address, current.episodeId, current.sequenceNumber,
                 EpisodeTerminated, Some(reason), current.initializedAt, now, Some(now),
                 current.lastAction, current.previousEpisodeId)
  }

  /**
    Terminating succeeds exactly for a participant whose episode has not ended. The result keeps its episode and has
    the reason that was given, and the history gains one event, which records that reason and the detail.
   */
  lemma TerminateTells(w: World, address: string, reason: TerminalReason, detail: string, now: Stamp)
    returns (e: EpisodeEventType)
    requires Sound(w) && now.text != ""
    ensures var request := TerminateRequest(address, reason, detail);
            var s, next, reply := w.snapshot, Serve(w, Call(request, now)), Reply(request, w.snapshot, w.stub, now);
            && reply.Returned? && next.snapshot == reply.value.snapshot && next.stub.counter == w.stub.counter
            && (if address !in s.participantResults || s.participantResults[address].status.EpisodeTerminated? then
                  Refused(s, address, reply.value)
                else
                  var current := s.participantResults[address];
                  && RecordsReason(e, reason)
                  && Served(s, address, reply.value, EndedBy(address, current, reason, now),
                            [EpisodeEvent(e, now, address, current.episodeId, current.sequenceNumber, Some(reason),
                                          None, EpisodeDetails(None, None, Some(detail)))]))
  {
    hide Accepted, Faithful, Decimal, EpisodeState.Valid;
    var request := TerminateRequest(address, reason, detail);
    e := TerminalEventFor(reason);
    RaisesIff(request, w.snapshot, w.stub, now);
    ServeKeepsSound(w, Call(request, now));
    if address in w.snapshot.participantResults {
      OnlyNamed(w, address);
      var current, move := w.snapshot.participantResults[address], Chosen(request, w.snapshot, w.stub, now);
      assert move.Moves? ==> move.state == EndedBy(address, current, reason, now);
    }
  }
}
