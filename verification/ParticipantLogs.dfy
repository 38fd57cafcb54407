/** Participant histories as logs: which event may follow which, and the state that a log leads to. */
module ParticipantLogs {
  import opened Wrappers
  import opened RuntimeModels
  import opened ParticipantEpisodes
  import opened ParticipantRuntime

  // ----------------------------------------------------------- reading a log

  /** What one event does to the state of its participant. */
  function Replay(current: Option<EpisodeState>, e: EpisodeEvent): Option<EpisodeState> {
    if e.eventType.Action().Some? then
      Some(EpisodeState(EpisodeSchema(), e.participant, e.episodeId, e.sequenceNumber, EpisodeInitializing, None,
                        e.timestamp, e.timestamp, None, e.eventType.Action().value, e.details.previousEpisodeId))
    else if current.None? then None
    else if e.eventType.Reason().Some? then
      Some(current.value.(status := EpisodeTerminated, terminalReason := e.eventType.Reason(),
                          updatedAt := e.timestamp, terminatedAt := Some(e.timestamp)))
    else Some(current.value.(status := EpisodeLive, updatedAt := e.timestamp))
  }

  /** The state that a whole log leads to. */
  function Rebuild(history: seq<EpisodeEvent>): Option<EpisodeState> {
    if history == [] then None
    else Replay(Rebuild(history[..|history| - 1]), history[|history| - 1])
  }

  lemma RebuildOneMore(history: seq<EpisodeEvent>, e: EpisodeEvent)
    ensures Rebuild(history + [e]) == Replay(Rebuild(history), e)
  {
  }

  // ----------------------------------------------------- which event follows which

  predicate SameEpisode(a: EpisodeEvent, b: EpisodeEvent) {
    a.episodeId == b.episodeId && a.sequenceNumber == b.sequenceNumber
  }

  predicate NextEpisodeOf(prev: EpisodeEvent, e: EpisodeEvent) {
    && e.sequenceNumber == prev.sequenceNumber + 1 && e.episodeId != prev.episodeId
    && e.details.previousEpisodeId == Some(prev.episodeId)
  }

  /** Opened episodes run; a running episode ends or is reset; only an ended one is restarted. */
  predicate Follows(prev: EpisodeEvent, e: EpisodeEvent) {
    match e.eventType
    case EpisodeInitialized => false
    case EpisodeRunning => prev.eventType.Action().Some? && SameEpisode(prev, e)
    case EpisodeReset => prev.eventType.EpisodeRunning? && NextEpisodeOf(prev, e)
    case EpisodeRestarted => prev.eventType.Reason().Some? && NextEpisodeOf(prev, e)
    case _ => prev.eventType.EpisodeRunning? && SameEpisode(prev, e)
  }

  predicate Begins(e: EpisodeEvent) {
    e.eventType.EpisodeInitialized? && e.sequenceNumber == 0 && e.details.previousEpisodeId.None?
  }

  predicate Chain(address: string, history: seq<EpisodeEvent>) {
    && (forall i :: 0 <= i < |history| ==> history[i].Valid() && history[i].participant == address)
    && (history != [] ==> Begins(history[0]))
    && (forall i :: 0 < i < |history| ==> Follows(history[i - 1], history[i]))
  }

  /**
    A complete log of the result: it starts at the beginning, no move is cut short, and replaying it gives the result.
   */
  predicate Faithful(address: string, history: seq<EpisodeEvent>, result: EpisodeState) {
    && history != [] && Chain(address, history)
    && history[|history| - 1].eventType.Action().None?
    && Rebuild(history) == Some(result)
    && ResultAccepted(address, result)
  }

  lemma ChainOneMore(address: string, history: seq<EpisodeEvent>, e: EpisodeEvent)
    requires Chain(address, history) && e.Valid() && e.participant == address
    requires if history == [] then Begins(e) else Follows(history[|history| - 1], e)
    ensures Chain(address, history + [e])
  {
  }

  // -------------------------------------------------- what a chain implies

  lemma ChainPrefix(address: string, history: seq<EpisodeEvent>)
    requires Chain(address, history) && history != []
    ensures Chain(address, history[..|history| - 1])
  {
  }

  /** Numbers start at zero, never skip one, and a chain has as many openings as numbers. */
  lemma {:induction false} ChainIsOrdered(address: string, history: seq<EpisodeEvent>)
    requires Chain(address, history)
    ensures OrderedStream(history)
    ensures history != [] ==> forall n :: 0 <= n <= history[|history| - 1].sequenceNumber ==> n in Numbers(history)
    decreases |history|
  {
    hide Numbers, EpisodeEvent.Valid;
    if |history| > 1 {
      var front, last := history[..|history| - 1], history[|history| - 1];
      var prev := front[|front| - 1];
      ChainPrefix(address, history);
      ChainIsOrdered(address, front);
      assert Follows(prev, last);
      assert forall i :: 0 <= i < |front| ==> front[i].sequenceNumber <= prev.sequenceNumber;
      assert forall i :: 0 <= i < |front| && front[i].sequenceNumber == prev.sequenceNumber ==>
          front[i].episodeId == prev.episodeId;
      ExtendOrdered(front, last);
      assert history == front + [last];
      NumbersGrow(front, last);
    } else if history != [] {
      NumbersGrow([], history[0]);
      assert history == [] + [history[0]];
    }
  }

  function Numbers(history: seq<EpisodeEvent>): set<int> {
    set i | 0 <= i < |history| :: history[i].sequenceNumber
  }

  lemma NumbersGrow(front: seq<EpisodeEvent>, last: EpisodeEvent)
    ensures Numbers(front + [last]) == Numbers(front) + {last.sequenceNumber}
  {
    var history := front + [last];
    assert history[|front|] == last;
    forall i | 0 <= i < |front| ensures front[i].sequenceNumber in Numbers(history) {
      assert history[i] == front[i];
    }
  }

  /** The rebuilt state stands where the last event stands. */
  lemma {:induction false} RebuiltHead(address: string, history: seq<EpisodeEvent>)
    requires Chain(address, history) && history != []
    ensures Rebuild(history).Some?
    ensures var last, st := history[|history| - 1], Rebuild(history).value;
            && st.episodeId == last.episodeId && st.sequenceNumber == last.sequenceNumber
            && st.terminalReason == last.eventType.Reason()
            && (st.status.EpisodeTerminated? <==> last.eventType.Reason().Some?)
            && (st.status.EpisodeLive? <==> last.eventType.EpisodeRunning?)
    decreases |history|
  {
    if |history| > 1 {
      ChainPrefix(address, history);
      RebuiltHead(address, history[..|history| - 1]);
      assert Follows(history[|history| - 2], history[|history| - 1]);
    }
  }

  /** A faithful log passes the snapshot invariants, and its result is the head of the history. */
  lemma FaithfulAccepted(address: string, history: seq<EpisodeEvent>, result: EpisodeState)
    requires Faithful(address, history, result)
    ensures HistoryAccepted(address, history) && MatchesHead(result, history[|history| - 1])
  {
    ChainIsOrdered(address, history);
    RebuiltHead(address, history);
  }

  // --------------------------------------------------------- moves extend logs

  /** A move's first event may come next in the log. */
  predicate Continues(history: seq<EpisodeEvent>, e: EpisodeEvent) {
    if history == [] then Begins(e) else Follows(history[|history| - 1], e)
  }

  lemma OpeningKeepsFaithful(
    address: string, history: seq<EpisodeEvent>, t: EpisodeEventType, st: EpisodeState, details: EpisodeDetails,
    now: Stamp)
    requires Chain(address, history) && t.Action().Some?
    requires var events := Opening(t, st, details, now);
             Moves(st, events).Constructs() && Continues(history, events[0])
    requires st.participant == address && st.schemaVersion == EpisodeSchema() && st.status.EpisodeLive?
    requires st.initializedAt == now && st.updatedAt == now && st.lastAction == t.Action().value
    requires details.previousEpisodeId == st.previousEpisodeId
    ensures Faithful(address, history + Opening(t, st, details, now), st)
  {
  }

  lemma EndingKeepsFaithful(
    address: string, history: seq<EpisodeEvent>, current: EpisodeState, reason: TerminalReason,
    details: EpisodeDetails, now: Stamp)
    requires Faithful(address, history, current) && !current.status.EpisodeTerminated?
    requires var st := FinishedEpisode(address, current, reason, now);
             Moves(st, [EventOf(TerminalEventFor(reason), st, details, now)]).Constructs()
    requires current.schemaVersion == EpisodeSchema()
    ensures var st := FinishedEpisode(address, current, reason, now);
            Faithful(address, history + [EventOf(TerminalEventFor(reason), st, details, now)], st)
  {
    var st := FinishedEpisode(address, current, reason, now);
    var event := EventOf(TerminalEventFor(reason), st, details, now);
    assert event in [event];
    RebuiltHead(address, history);
    ChainOneMore(address, history, event);
    RebuildOneMore(history, event);
  }

  lemma {:induction false} RebuiltSchema(address: string, history: seq<EpisodeEvent>)
    requires Chain(address, history) && history != []
    ensures Rebuild(history).Some? && Rebuild(history).value.schemaVersion == EpisodeSchema()
    decreases |history|
  {
    if |history| > 1 {
      ChainPrefix(address, history);
      RebuiltSchema(address, history[..|history| - 1]);
    }
  }

  /** The log and the result after a move; initializing is only ever chosen when there is no log yet. */
  lemma MoveKeepsFaithful(
    request: EpisodeRequest, current: Option<EpisodeState>, history: seq<EpisodeEvent>, counter: map<string, nat>,
    now: Stamp)
    requires if current.None? then history == [] else Faithful(request.participant, history, current.value)
    requires var move := MoveFor(request, current, counter, now); move.Moves? && move.Constructs()
    ensures var move := MoveFor(request, current, counter, now);
            Faithful(request.participant, history + move.events, move.state)
  {
    var address := request.participant;
    var move := MoveFor(request, current, counter, now);
    if current.Some? {
      RebuiltHead(address, history);
      RebuiltSchema(address, history);
    }
    match request
    case InitializeRequest(_, _) =>
      OpeningKeepsFaithful(address, history, EpisodeInitialized, move.state, NO_EPISODE_DETAILS, now);
    case ResetRequest(_, _, reason) =>
      OpeningKeepsFaithful(address, history, EpisodeReset, move.state,
          EpisodeDetails(Some(current.value.episodeId), Some(reason), None), now);
    case RestartRequest(_, _, reason) =>
      OpeningKeepsFaithful(address, history, EpisodeRestarted, move.state,
          EpisodeDetails(Some(current.value.episodeId), Some(reason), None), now);
    case TerminateRequest(_, reason, detail) =>
      EndingKeepsFaithful(address, history, current.value, reason, NO_EPISODE_DETAILS.(detail := Some(detail)), now);
  }
}
