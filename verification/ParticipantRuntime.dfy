/** The reference participant runtime: it drives episodes through initialize, reset, restart and terminate. */
module ParticipantRuntime {
  import opened Wrappers
  import opened RuntimeModels
  import opened Text

  function EpisodeSchema(): (r: string)
    ensures r != ""
  {
    "participant-episode-state/v1"
  }

  /** A control request; an empty episode id stands for one that the runtime is to allocate. */
  datatype EpisodeRequest =
    | InitializeRequest(participant: string, episodeId: string)
    | ResetRequest(participant: string, episodeId: string, reason: string)
    | RestartRequest(participant: string, episodeId: string, reason: string)
    | TerminateRequest(participant: string, terminalReason: TerminalReason, detail: string)

  /** The runtime's own memory. */
  datatype StubState = StubState(
    results: map<string, EpisodeState>,
    history: map<string, seq<EpisodeEvent>>,
    counter: map<string, nat>)

  const EMPTY_STUB := StubState(map[], map[], map[])

  function NextIndex(counter: map<string, nat>, address: string): nat {
    (if address in counter then counter[address] else 0) + 1
  }

  function EpisodeName(address: string, index: nat): (r: string)
    ensures r != ""
  {
    address + "-episode" + "-" + Decimal(index)
  }

  /** The caller's id, or else the next free number's. */
  function IdFor(address: string, episodeId: string, counter: map<string, nat>): string {
    if episodeId == "" then EpisodeName(address, NextIndex(counter, address)) else episodeId
  }

  /** An allocation counts even if a constructor raises afterwards. */
  function CounterAfter(address: string, episodeId: string, counter: map<string, nat>): map<string, nat> {
    if episodeId == "" then counter[address := NextIndex(counter, address)] else counter
  }

  // ----------------------------------------------------- one participant's move

  function FirstEpisode(address: string, id: string, now: Stamp): EpisodeState {
    EpisodeState(EpisodeSchema(), address, id, 0, EpisodeLive, None, now, now, None, ControlAction.Initialize, None)
  }

  function NextEpisode(
    address: string, current: EpisodeState, id: string, action: ControlAction, now: Stamp): EpisodeState {
    EpisodeState(EpisodeSchema(), address, id, current.sequenceNumber + 1, EpisodeLive, None, now, now, None, action,
        Some(current.episodeId))
  }

  function FinishedEpisode(address: string, current: EpisodeState, reason: TerminalReason, now: Stamp): EpisodeState {
    current.(schemaVersion := EpisodeSchema(), participant := address, status := EpisodeTerminated,
             terminalReason := Some(reason), updatedAt := now, terminatedAt := Some(now))
  }

  const NO_EPISODE_DETAILS := EpisodeDetails(None, None, None)

  function EventOf(t: EpisodeEventType, st: EpisodeState, details: EpisodeDetails, now: Stamp): EpisodeEvent {
    EpisodeEvent(t, now, st.participant, st.episodeId, st.sequenceNumber, t.Reason(), t.Action(), details)
  }

  function Opening(t: EpisodeEventType, st: EpisodeState, details: EpisodeDetails, now: Stamp): seq<EpisodeEvent> {
    [EventOf(t, st, details, now), EventOf(EpisodeRunning, st, NO_EPISODE_DETAILS, now)]
  }

  function TerminalEventFor(reason: TerminalReason): EpisodeEventType {
    match reason
    case Completed => EpisodeCompleted
    case TimedOutReason => EpisodeTimedOut
    case Truncated => EpisodeTruncated
    case Interrupted => EpisodeInterrupted
  }

  /** What a request leads to: a rejection, or a new episode state with the events that record it. */
  datatype Move = Rejects | Moves(state: EpisodeState, events: seq<EpisodeEvent>)
  {
    /** The constructors of the state and of the events raise otherwise. */
    predicate Constructs() {
      Moves? ==> state.Valid() && forall e :: e in events ==> e.Valid()
    }
  }

  function MoveFor(
    request: EpisodeRequest, current: Option<EpisodeState>, counter: map<string, nat>, now: Stamp): Move {
    var address := request.participant;
    if address == "" then Rejects
    else match request
      case InitializeRequest(_, episodeId) =>
        if current.Some? then Rejects
        else
          var st := FirstEpisode(address, IdFor(address, episodeId, counter), now);
          Moves(st, Opening(EpisodeInitialized, st, NO_EPISODE_DETAILS, now))
      case ResetRequest(_, episodeId, reason) =>
        if current.None? || !current.value.Valid() || current.value.status.EpisodeTerminated? then Rejects
        else
          var st := NextEpisode(address, current.value, IdFor(address, episodeId, counter), Reset, now);
          Moves(st, Opening(EpisodeReset, st, EpisodeDetails(Some(current.value.episodeId), Some(reason), None), now))
      case RestartRequest(_, episodeId, reason) =>
        if current.None? || !current.value.Valid() || !current.value.status.EpisodeTerminated? then Rejects
        else
          var st := NextEpisode(address, current.value, IdFor(address, episodeId, counter), Restart, now);
          Moves(st, Opening(EpisodeRestarted, st, EpisodeDetails(Some(current.value.episodeId), Some(reason), None),
              now))
      case TerminateRequest(_, reason, detail) =>
        if current.None? || !current.value.Valid() || current.value.status.EpisodeTerminated? then Rejects
        else
          var st := FinishedEpisode(address, current.value, reason, now);
          Moves(st, [EventOf(TerminalEventFor(reason), st, NO_EPISODE_DETAILS.(detail := Some(detail)), now)])
  }

  // ------------------------------------------------------- the whole snapshot

  function Current(s: RuntimeSnapshot, address: string): Option<EpisodeState> {
    if address in s.participantResults then Some(s.participantResults[address]) else None
  }

  /** Initializing starts the participant's history anew; every other move extends it. */
  function Recorded(request: EpisodeRequest, s: RuntimeSnapshot, events: seq<EpisodeEvent>): seq<EpisodeEvent> {
    if request.InitializeRequest? then events else HistoryAt(s.participantHistory, request.participant) + events
  }

  function WithEpisode(request: EpisodeRequest, s: RuntimeSnapshot, move: Move): RuntimeSnapshot
    requires move.Moves?
  {
    s.(participantResults := s.participantResults[request.participant := move.state],
       participantHistory := s.participantHistory[request.participant := Recorded(request, s, move.events)])
  }

  /** The move that the runtime makes of a request. */
  function Chosen(request: EpisodeRequest, s: RuntimeSnapshot, stub: StubState, now: Stamp): Move {
    MoveFor(request, Current(s, request.participant), stub.counter, now)
  }

  /** The memory's counter after a request that is not rejected. */
  function Counted(request: EpisodeRequest, stub: StubState): StubState {
    if request.TerminateRequest? then stub
    else stub.(counter := CounterAfter(request.participant, request.episodeId, stub.counter))
  }

  function Rejection(s: RuntimeSnapshot, address: string): ApplyResult {
    ApplyResult(false, s, [FailureDiagnostic(ParticipantRejected, if address == "" then "runtime.participant-runtime"
        else address)], [])
  }

  /** What the caller gets, or nothing if the call raises. */
  function Reply(request: EpisodeRequest, s: RuntimeSnapshot, stub: StubState, now: Stamp): Outcome<ApplyResult> {
    var move := Chosen(request, s, stub, now);
    if move.Rejects? then Returned(Rejection(s, request.participant))
    else if move.Constructs() then Returned(ApplyResult(true, WithEpisode(request, s, move), [], [request.participant]))
    else Raised
  }

  function Memory(request: EpisodeRequest, s: RuntimeSnapshot, stub: StubState, now: Stamp): StubState {
    var move := Chosen(request, s, stub, now);
    if move.Rejects? then stub
    else if move.Constructs() then
      var next := WithEpisode(request, s, move);
      StubState(next.participantResults, next.participantHistory, Counted(request, stub).counter)
    else Counted(request, stub)
  }

  /** A call and what it leaves behind. */
  predicate Answers(
    request: EpisodeRequest, s: RuntimeSnapshot, stub: StubState, now: Stamp, outcome: Outcome<ApplyResult>,
    stub': StubState)
  {
    outcome == Reply(request, s, stub, now) && stub' == Memory(request, s, stub, now)
  }

  // --------------------------------------------------------------- the object

  class StubParticipantRuntime {
    var results: map<string, EpisodeState>
    var history: map<string, seq<EpisodeEvent>>
    var episodeCounter: map<string, nat>

    function State(): StubState
      reads this
    {
      StubState(results, history, episodeCounter)
    }

    constructor ()
      ensures State() == EMPTY_STUB
    {
      results, history, episodeCounter := map[], map[], map[];
    }

    method AllocateEpisodeId(address: string) returns (id: string)
      modifies this`episodeCounter
      ensures id == EpisodeName(address, NextIndex(old(episodeCounter), address))
      ensures episodeCounter == old(episodeCounter)[address := NextIndex(old(episodeCounter), address)]
    {
      var nextIndex := NextIndex(episodeCounter, address);
      episodeCounter := episodeCounter[address := nextIndex];
      id := EpisodeName(address, nextIndex);
    }

    method ChooseEpisodeId(address: string, episodeId: string) returns (id: string)
      modifies this`episodeCounter
      ensures id == IdFor(address, episodeId, old(episodeCounter))
      ensures episodeCounter == CounterAfter(address, episodeId, old(episodeCounter))
    {
      if episodeId != "" {
        return episodeId;
      }
      id := AllocateEpisodeId(address);
    }

    method Apply(
      snapshot: RuntimeSnapshot, address: string, state: EpisodeState, newEvents: seq<EpisodeEvent>,
      replaceHistory: bool)
      returns (result: ApplyResult)
      modifies this`results, this`history
      ensures results == snapshot.participantResults[address := state]
      ensures history == snapshot.participantHistory[
                address := if replaceHistory then newEvents
                    else HistoryAt(snapshot.participantHistory, address) + newEvents]
      ensures result == ApplyResult(true, snapshot.(participantResults := results, participantHistory := history), [],
          [address])
    {
      var updated, streams := snapshot.participantResults, snapshot.participantHistory;
      updated := updated[address := state];
      if replaceHistory {
        streams := streams[address := newEvents];
      } else {
        if address !in streams {
          streams := streams[address := []];
        }
        streams := streams[address := streams[address] + newEvents];
      }
      results, history := updated, streams;
      result := ApplyResult(true, snapshot.(participantResults := updated, participantHistory := streams), [],
          [address]);
    }

    /** The constructors have the last word: if one raises, nothing is applied. */
    method Commit(
      snapshot: RuntimeSnapshot, address: string, state: EpisodeState, newEvents: seq<EpisodeEvent>,
      replaceHistory: bool)
      returns (outcome: Outcome<ApplyResult>)
      modifies this`results, this`history
      ensures !Moves(state, newEvents).Constructs() ==>
          outcome == Raised && results == old(results) && history == old(history)
      ensures Moves(state, newEvents).Constructs() ==>
        && results == snapshot.participantResults[address := state]
        && history == snapshot.participantHistory[
             address := if replaceHistory then newEvents
                 else HistoryAt(snapshot.participantHistory, address) + newEvents]
        && outcome == Returned(ApplyResult(true,
            snapshot.(participantResults := results, participantHistory := history), [], [address]))
    {
      if !state.Valid() {
        return Raised;
      }
      for k := 0 to |newEvents|
        invariant forall i :: 0 <= i < k ==> newEvents[i].Valid()
        invariant results == old(results) && history == old(history)
      {
        if !newEvents[k].Valid() {
          return Raised;
        }
      }
      var result := Apply(snapshot, address, state, newEvents, replaceHistory);
      return Returned(result);
    }

    method Initialize(address: string, episodeId: string, snapshot: RuntimeSnapshot, now: Stamp)
      returns (outcome: Outcome<ApplyResult>)
      modifies this
      ensures Answers(InitializeRequest(address, episodeId), snapshot, old(State()), now, outcome, State())
    {
      ghost var request, before := InitializeRequest(address, episodeId), State();
      hide IdFor, CounterAfter, EpisodeSchema, EpisodeState.Valid, Move.Constructs;
      if address == "" || address in snapshot.participantResults {
        return Returned(Rejection(snapshot, address));
      }
      var id := ChooseEpisodeId(address, episodeId);
      var state := EpisodeState(EpisodeSchema(), address, id, 0, EpisodeLive, None, now, now, None,
          ControlAction.Initialize, None);
      var events := Opening(EpisodeInitialized, state, NO_EPISODE_DETAILS, now);
      assert Chosen(request, snapshot, before, now) == Moves(state, events);
      outcome := Commit(snapshot, address, state, events, true);
    }

    method Reset(address: string, episodeId: string, reason: string, snapshot: RuntimeSnapshot, now: Stamp)
      returns (outcome: Outcome<ApplyResult>)
      modifies this
      ensures Answers(ResetRequest(address, episodeId, reason), snapshot, old(State()), now, outcome, State())
    {
      ghost var request, before := ResetRequest(address, episodeId, reason), State();
      hide IdFor, CounterAfter, EpisodeSchema, EpisodeState.Valid, Move.Constructs;
      if address == "" || address !in snapshot.participantResults {
        return Returned(Rejection(snapshot, address));
      }
      var current := snapshot.participantResults[address];
      if !current.Valid() || current.status.EpisodeTerminated? {
        return Returned(Rejection(snapshot, address));
      }
      var id := ChooseEpisodeId(address, episodeId);
      var number := current.sequenceNumber + 1;
      var state := EpisodeState(
        EpisodeSchema(), address, id, number, EpisodeLive, None, now, now, None, ControlAction.Reset,
        Some(current.episodeId));
      var details := EpisodeDetails(Some(current.episodeId), Some(reason), None);
      var events := Opening(EpisodeReset, state, details, now);
      assert Chosen(request, snapshot, before, now) == Moves(state, events);
      outcome := Commit(snapshot, address, state, events, false);
    }

    method Restart(address: string, episodeId: string, reason: string, snapshot: RuntimeSnapshot, now: Stamp)
      returns (outcome: Outcome<ApplyResult>)
      modifies this
      ensures Answers(RestartRequest(address, episodeId, reason), snapshot, old(State()), now, outcome, State())
    {
      ghost var request, before := RestartRequest(address, episodeId, reason), State();
      hide IdFor, CounterAfter, EpisodeSchema, EpisodeState.Valid, Move.Constructs;
      if address == "" || address !in snapshot.participantResults {
        return Returned(Rejection(snapshot, address));
      }
      var current := snapshot.participantResults[address];
      if !current.Valid() || !current.status.EpisodeTerminated? {
        return Returned(Rejection(snapshot, address));
      }
      var id := ChooseEpisodeId(address, episodeId);
      var number := current.sequenceNumber + 1;
      var state := EpisodeState(
        EpisodeSchema(), address, id, number, EpisodeLive, None, now, now, None, ControlAction.Restart,
        Some(current.episodeId));
      var details := EpisodeDetails(Some(current.episodeId), Some(reason), None);
      var events := Opening(EpisodeRestarted, state, details, now);
      assert Chosen(request, snapshot, before, now) == Moves(state, events);
      outcome := Commit(snapshot, address, state, events, false);
    }

    method Terminate(
      address: string, terminalReason: TerminalReason, detail: string, snapshot: RuntimeSnapshot, now: Stamp)
      returns (outcome: Outcome<ApplyResult>)
      modifies this
      ensures Answers(TerminateRequest(address, terminalReason, detail), snapshot, old(State()), now, outcome, State())
    {
      ghost var request, before := TerminateRequest(address, terminalReason, detail), State();
      hide IdFor, CounterAfter, EpisodeSchema, EpisodeState.Valid, Move.Constructs;
      if address == "" || address !in snapshot.participantResults {
        return Returned(Rejection(snapshot, address));
      }
      var current := snapshot.participantResults[address];
      if !current.Valid() || current.status.EpisodeTerminated? {
        return Returned(Rejection(snapshot, address));
      }
      var eventType := TerminalEventFor(terminalReason);
      var state := EpisodeState(
        EpisodeSchema(), address, current.episodeId, current.sequenceNumber, EpisodeTerminated, Some(terminalReason),
        current.initializedAt, now, Some(now), current.lastAction, current.previousEpisodeId);
      var event := EpisodeEvent(
        eventType, now, address, current.episodeId, current.sequenceNumber, Some(terminalReason), None,
        NO_EPISODE_DETAILS.(detail := Some(detail)));
      assert Chosen(request, snapshot, before, now) == Moves(state, [event]);
      outcome := Commit(snapshot, address, state, [event], false);
    }
  }
}
