/** Whole runs of the participant runtime behind the backend boundary. */
module ParticipantRuns {
  import opened Wrappers
  import opened RuntimeModels
  import opened Text
  import opened ParticipantEpisodes
  import opened BackendBoundary
  import opened ParticipantRuntime
  import opened ParticipantLogs

  datatype World = World(snapshot: RuntimeSnapshot, stub: StubState)

  datatype Call = Call(request: EpisodeRequest, now: Stamp)

  function AsBackend(outcome: Outcome<ApplyResult>): BackendOutcome {
    if outcome.Returned? then Applies(outcome.value) else RaisesError
  }

  /**
    One call as its caller sees it: what passes the boundary is adopted, and anything else leaves the snapshot alone.
   */
  function Serve(w: World, call: Call): World {
    var reply := AsBackend(Reply(call.request, w.snapshot, w.stub, call.now));
    World(Screened(reply, w.snapshot, []).snapshot, Memory(call.request, w.snapshot, w.stub, call.now))
  }

  function ServeAll(w: World, calls: seq<Call>): World {
    if calls == [] then w else Serve(ServeAll(w, calls[..|calls| - 1]), calls[|calls| - 1])
  }

  predicate AllFaithful(s: RuntimeSnapshot) {
    && s.participantResults.Keys == s.participantHistory.Keys
    && forall a :: a in s.participantResults ==> Faithful(a, s.participantHistory[a], s.participantResults[a])
  }

  /** The runtime's memory is the snapshot's participant side. */
  predicate Mirrors(w: World) {
    w.stub.results == w.snapshot.participantResults && w.stub.history == w.snapshot.participantHistory
  }

  predicate Sound(w: World) {
    Accepted(w.snapshot) && AllFaithful(w.snapshot) && Mirrors(w)
  }

  /** Every participant's history is a prefix of its later history, and nothing else in the snapshot moves. */
  ghost predicate Extends(s: RuntimeSnapshot, t: RuntimeSnapshot) {
    && t == s.(participantResults := t.participantResults, participantHistory := t.participantHistory)
    && forall a :: HistoryAt(s.participantHistory, a) <= HistoryAt(t.participantHistory, a)
  }

  lemma FaithfulSnapshotAccepted(s: RuntimeSnapshot)
    requires AllFaithful(s)
    ensures EpisodesAccepted(s.participantResults, s.participantHistory)
  {
    hide Faithful, HistoryAccepted, MatchesHead;
    forall a | a in s.participantResults
      ensures ResultAccepted(a, s.participantResults[a]) && HistoryAccepted(a, s.participantHistory[a])
      ensures s.participantHistory[a] != []
          && MatchesHead(s.participantResults[a], s.participantHistory[a][|s.participantHistory[a]| - 1])
    {
      FaithfulResult(a, s.participantHistory[a], s.participantResults[a]);
      FaithfulAccepted(a, s.participantHistory[a], s.participantResults[a]);
    }
  }

  lemma FaithfulResult(address: string, history: seq<EpisodeEvent>, result: EpisodeState)
    requires Faithful(address, history, result)
    ensures history != [] && ResultAccepted(address, result)
  {
  }

  /** The adopted snapshot of an accepted request. */
  lemma MoveKeepsSnapshot(request: EpisodeRequest, s: RuntimeSnapshot, stub: StubState, now: Stamp)
    requires AllFaithful(s) && Accepted(s)
    requires var move := Chosen(request, s, stub, now); move.Moves? && move.Constructs()
    ensures var t := WithEpisode(request, s, Chosen(request, s, stub, now));
            AllFaithful(t) && Accepted(t) && Extends(s, t)
  {
    hide AllFaithful, Accepted, Extends, EpisodesAccepted, Chosen, Move.Constructs;
    MoveKeepsLogs(request, s, stub, now);
    var t := WithEpisode(request, s, Chosen(request, s, stub, now));
    FaithfulSnapshotAccepted(t);
    OtherCheckersUntouched(s, t);
  }

  lemma MoveKeepsLogs(request: EpisodeRequest, s: RuntimeSnapshot, stub: StubState, now: Stamp)
    requires AllFaithful(s)
    requires var move := Chosen(request, s, stub, now); move.Moves? && move.Constructs()
    ensures var t := WithEpisode(request, s, Chosen(request, s, stub, now));
            AllFaithful(t) && Extends(s, t)
  {
    hide Faithful, MoveFor, Move.Constructs;
    FirstMoveIsFirst(request, s, stub, now);
    var address, events := request.participant, Chosen(request, s, stub, now).events;
    var t := WithEpisode(request, s, Chosen(request, s, stub, now));
    MoveKeepsFaithful(request, Current(s, address), HistoryAt(s.participantHistory, address), stub.counter, now);
    assert request.InitializeRequest? ==> HistoryAt(s.participantHistory, address) == [] && [] + events == events;
    assert t.participantHistory[address] == HistoryAt(s.participantHistory, address) + events;
  }

  lemma FirstMoveIsFirst(request: EpisodeRequest, s: RuntimeSnapshot, stub: StubState, now: Stamp)
    requires Chosen(request, s, stub, now).Moves?
    ensures request.InitializeRequest? ==> request.participant !in s.participantResults
  {
  }

  lemma OtherCheckersUntouched(s: RuntimeSnapshot, t: RuntimeSnapshot)
    requires t == s.(participantResults := t.participantResults, participantHistory := t.participantHistory)
    requires Accepted(s) && EpisodesAccepted(t.participantResults, t.participantHistory)
    ensures Accepted(t)
  {
  }

  /**
    On a sound world every call either raises or returns a result that the boundary lets through unchanged,
    and the world stays sound.
   */
  lemma ServeKeepsSound(w: World, call: Call)
    requires Sound(w)
    ensures Sound(Serve(w, call)) && Extends(w.snapshot, Serve(w, call).snapshot)
    ensures var reply := Reply(call.request, w.snapshot, w.stub, call.now);
            reply.Raised? || (Passes(AsBackend(reply)) && Serve(w, call).snapshot == reply.value.snapshot)
  {
    hide Accepted, AllFaithful, Extends, Move.Constructs, MoveFor;
    var move := Chosen(call.request, w.snapshot, w.stub, call.now);
    StaysPut(w.snapshot);
    if move.Moves? && move.Constructs() {
      MoveKeepsSnapshot(call.request, w.snapshot, w.stub, call.now);
    }
  }

  lemma StaysPut(s: RuntimeSnapshot)
    ensures Extends(s, s)
  {
  }

  /**
    Over every run, whatever addresses and episode ids the callers supply and whichever calls raise: the snapshot
    stays accepted, every log is complete and rebuilds its result, and logs are only ever extended.
   */
  lemma {:induction false} RunsStaySound(w: World, calls: seq<Call>)
    requires Sound(w)
    ensures Sound(ServeAll(w, calls)) && Extends(w.snapshot, ServeAll(w, calls).snapshot)
  {
    hide Sound, Serve;
    if calls != [] {
      var front := calls[..|calls| - 1];
      RunsStaySound(w, front);
      ServeKeepsSound(ServeAll(w, front), calls[|calls| - 1]);
    } else {
      StaysPut(w.snapshot);
    }
  }

  lemma EmptyWorldIsSound()
    ensures Sound(World(EMPTY_SNAPSHOT, EMPTY_STUB))
  {
  }

  // ----------------------------------------------------------------- liveness

  /**
    On a live participant a reset raises exactly when the id it takes is the current one; one that raised
    without a caller's id has moved the counter, so the same request succeeds the next time.
   */
  lemma RaisedResetSucceedsNextTime(
    w: World, address: string, episodeId: string, reason: string, now: Stamp, later: Stamp)
    requires Sound(w) && address in w.snapshot.participantResults && now.text != "" && later.text != ""
    requires !w.snapshot.participantResults[address].status.EpisodeTerminated?
    ensures var request := ResetRequest(address, episodeId, reason);
            var current := w.snapshot.participantResults[address].episodeId;
            var next := Serve(w, Call(request, now));
            && (Reply(request, w.snapshot, w.stub, now).Raised? <==>
                IdFor(address, episodeId, w.stub.counter) == current)
            && (Reply(request, w.snapshot, w.stub, now).Raised? && episodeId == "" ==>
                  && next.snapshot == w.snapshot
                  && Reply(request, next.snapshot, next.stub, later).Returned?
                  && Reply(request, next.snapshot, next.stub, later).value.success)
  {
    hide Faithful, Accepted, EpisodeSchema, EpisodeName;
    var request := ResetRequest(address, episodeId, reason);
    ResetMoves(address, episodeId, reason, w.snapshot, w.stub, now);
    RaisesIff(request, w.snapshot, w.stub, now);
    if episodeId == "" && Reply(request, w.snapshot, w.stub, now).Raised? {
      var next := Serve(w, Call(request, now));
      var index := NextIndex(w.stub.counter, address);
      assert next.stub == Counted(request, w.stub);
      assert NextIndex(next.stub.counter, address) == index + 1;
      NamesDiffer(address, index);
      ResetMoves(address, episodeId, reason, next.snapshot, next.stub, later);
      RaisesIff(request, next.snapshot, next.stub, later);
    }
  }

  lemma NamesDiffer(address: string, index: nat)
    ensures EpisodeName(address, index) != EpisodeName(address, index + 1)
  {
    if EpisodeName(address, index) == EpisodeName(address, index + 1) {
      EpisodeNamesInjective(address, index, address, index + 1);
    }
  }

  /** Allocated names determine the participant and the number. */
  lemma EpisodeNamesInjective(a: string, m: nat, b: string, n: nat)
    requires EpisodeName(a, m) == EpisodeName(b, n)
    ensures a == b && m == n
  {
    DecimalHasNoDash(m);
    DecimalHasNoDash(n);
    SplitAtLastDash(a + "-episode", b + "-episode", Decimal(m), Decimal(n));
    DecimalInjective(m, n);
    assert a == (a + "-episode")[..|a + "-episode"| - 8];
    assert b == (b + "-episode")[..|b + "-episode"| - 8];
  }

  /**
    A call raises exactly when it gets past the guards of a reset or restart and takes the id of the current episode.
   */
  lemma RaisesIff(request: EpisodeRequest, s: RuntimeSnapshot, stub: StubState, now: Stamp)
    requires AllFaithful(s) && now.text != ""
    ensures Reply(request, s, stub, now).Raised? <==>
            && Chosen(request, s, stub, now).Moves? && (request.ResetRequest? || request.RestartRequest?)
            && request.participant in s.participantResults
            && IdFor(request.participant, request.episodeId, stub.counter) ==
                s.participantResults[request.participant].episodeId
  {
    hide EpisodeSchema, EpisodeName, Chain, Rebuild;
    var address, move := request.participant, Chosen(request, s, stub, now);
    if move.Moves? && address in s.participantResults {
      assert ResultAccepted(address, s.participantResults[address]);
    }
    if move.Moves? && !request.TerminateRequest? {
      assert move.events[0].Valid() && move.events[1].Valid();
    }
  }

  /** A live participant can be reset, and an ended one restarted: nothing but the id can stand in the way. */
  lemma ResetMoves(address: string, episodeId: string, reason: string, s: RuntimeSnapshot, stub: StubState, now: Stamp)
    requires AllFaithful(s) && address in s.participantResults
    ensures var ended := s.participantResults[address].status.EpisodeTerminated?;
            && (Chosen(ResetRequest(address, episodeId, reason), s, stub, now).Moves? <==> !ended)
            && (Chosen(RestartRequest(address, episodeId, reason), s, stub, now).Moves? <==> ended)
  {
  }

  // ------------------------------------------------------------- episode ids

  /** One episode id never stands for two sequence numbers. */
  predicate DistinctIds(history: seq<EpisodeEvent>) {
    forall i, j :: 0 <= i < |history| && 0 <= j < |history| && history[i].episodeId == history[j].episodeId ==>
      history[i].sequenceNumber == history[j].sequenceNumber
  }

  predicate Used(history: seq<EpisodeEvent>, id: string) {
    exists i :: 0 <= i < |history| && history[i].episodeId == id
  }

  /** An accepted reset or restart keeps episode ids distinct exactly when its id was not used before. */
  lemma NewEpisodeKeepsIdsDistinctIff(
    request: EpisodeRequest, current: EpisodeState, history: seq<EpisodeEvent>, counter: map<string, nat>, now: Stamp)
    requires request.ResetRequest? || request.RestartRequest?
    requires Faithful(request.participant, history, current) && DistinctIds(history)
    requires var move := MoveFor(request, Some(current), counter, now); move.Moves? && move.Constructs()
    ensures DistinctIds(history + MoveFor(request, Some(current), counter, now).events)
            <==> !Used(history, IdFor(request.participant, request.episodeId, counter))
  {
    var id := IdFor(request.participant, request.episodeId, counter);
    var events := MoveFor(request, Some(current), counter, now).events;
    var all, n := history + events, |history|;
    ChainIsOrdered(request.participant, history);
    RebuiltHead(request.participant, history);
    assert all[n] == events[0] && all[n + 1] == events[1];
    assert all[n].episodeId == id && all[n].sequenceNumber == current.sequenceNumber + 1;
    assert history[n - 1].sequenceNumber == current.sequenceNumber;
    assert forall i :: 0 <= i < n ==> all[i] == history[i] && all[i].sequenceNumber <= history[n - 1].sequenceNumber;
    if Used(history, id) {
      var i :| 0 <= i < n && history[i].episodeId == id;
      assert all[i].episodeId == all[n].episodeId && all[i].sequenceNumber != all[n].sequenceNumber;
    }
  }

  /** A caller can bring any earlier id of a live participant back, as long as it is not the current one. */
  lemma CallersCanReuseIds(w: World, address: string, episodeId: string, reason: string, now: Stamp)
    requires Sound(w) && address in w.snapshot.participantResults && now.text != "" && episodeId != ""
    requires !w.snapshot.participantResults[address].status.EpisodeTerminated?
    requires Used(w.snapshot.participantHistory[address], episodeId)
    requires episodeId != w.snapshot.participantResults[address].episodeId
    ensures var next := Serve(w, Call(ResetRequest(address, episodeId, reason), now));
            Sound(next) && address in next.snapshot.participantHistory
                && !DistinctIds(next.snapshot.participantHistory[address])
  {
    hide Accepted, EpisodeSchema, Faithful, Chain, Rebuild, DistinctIds;
    var request := ResetRequest(address, episodeId, reason);
    var history, current := w.snapshot.participantHistory[address], w.snapshot.participantResults[address];
    ServeKeepsSound(w, Call(request, now));
    ResetMoves(address, episodeId, reason, w.snapshot, w.stub, now);
    RaisesIff(request, w.snapshot, w.stub, now);
    var events := Chosen(request, w.snapshot, w.stub, now).events;
    if DistinctIds(history) {
      NewEpisodeKeepsIdsDistinctIff(request, current, history, w.stub.counter, now);
    } else {
      StayMixed(history, events);
    }
  }

  lemma StayMixed(history: seq<EpisodeEvent>, events: seq<EpisodeEvent>)
    requires !DistinctIds(history)
    ensures !DistinctIds(history + events)
  {
    var i, j :| 0 <= i < |history| && 0 <= j < |history| && history[i].episodeId == history[j].episodeId
                && history[i].sequenceNumber != history[j].sequenceNumber;
    var all := history + events;
    assert all[i] == history[i] && all[j] == history[j];
  }

  // ------------------------------------------------------------ allocated ids

  predicate OwnName(address: string, e: EpisodeEvent) {
    e.sequenceNumber >= 0 && e.episodeId == EpisodeName(address, e.sequenceNumber + 1)
  }

  /** Every episode bears the name of its own number, and the counter has moved once for each episode. */
  predicate OwnNames(w: World) {
    && w.stub.counter.Keys == w.snapshot.participantResults.Keys == w.snapshot.participantHistory.Keys
    && (forall a :: a in w.snapshot.participantResults ==>
          && w.stub.counter[a] == w.snapshot.participantResults[a].sequenceNumber + 1
          && w.snapshot.participantResults[a].episodeId == EpisodeName(a, w.stub.counter[a]))
    && (forall a :: a in w.snapshot.participantHistory ==> forall e :: e in w.snapshot.participantHistory[a] ==>
        OwnName(a, e))
  }

  /** A request that leaves the choice of the id to the runtime. */
  predicate LeavesIdOpen(request: EpisodeRequest) {
    request.TerminateRequest? || request.episodeId == ""
  }

  lemma MoveKeepsOwnName(request: EpisodeRequest, s: RuntimeSnapshot, stub: StubState, now: Stamp)
    requires Chosen(request, s, stub, now).Moves? && LeavesIdOpen(request)
    requires OwnNames(World(s, stub))
    ensures var move, a, counter := Chosen(request, s, stub, now), request.participant, Counted(request, stub).counter;
            && a in counter && counter[a] == move.state.sequenceNumber + 1
            && counter.Keys == stub.counter.Keys + {a}
            && (forall b :: b in stub.counter && b != a ==> counter[b] == stub.counter[b])
            && move.state.episodeId == EpisodeName(a, counter[a])
            && forall e :: e in move.events ==> OwnName(a, e)
  {
    hide EpisodeSchema, EpisodeName;
  }

  lemma OpenIdsNeverRaise(w: World, call: Call)
    requires Sound(w) && OwnNames(w) && LeavesIdOpen(call.request) && call.now.text != ""
    ensures Reply(call.request, w.snapshot, w.stub, call.now).Returned?
  {
    hide EpisodeSchema, EpisodeName, Faithful, Accepted, MoveFor;
    RaisesIff(call.request, w.snapshot, w.stub, call.now);
    var a := call.request.participant;
    if a in w.snapshot.participantResults {
      NamesDiffer(a, w.stub.counter[a]);
    }
  }

  lemma ServeKeepsOwnNames(w: World, call: Call)
    requires Sound(w) && OwnNames(w) && LeavesIdOpen(call.request) && call.now.text != ""
    ensures OwnNames(Serve(w, call))
  {
    hide EpisodeSchema, EpisodeName, Sound, Extends, MoveFor, Counted, OwnName, Passes, Screened;
    OpenIdsNeverRaise(w, call);
    ServeKeepsSound(w, call);
    var move := Chosen(call.request, w.snapshot, w.stub, call.now);
    if move.Moves? {
      MoveKeepsOwnName(call.request, w.snapshot, w.stub, call.now);
    }
  }

  /**
    As long as no caller brings ids along, no call of a run raises, and no two episodes of a participant share an id.
   */
  lemma {:induction false} OpenRunsNeverRaise(calls: seq<Call>, k: nat)
    requires forall i :: 0 <= i < |calls| ==> LeavesIdOpen(calls[i].request) && calls[i].now.text != ""
    requires k < |calls|
    ensures var w := ServeAll(World(EMPTY_SNAPSHOT, EMPTY_STUB), calls[..k]);
            && Reply(calls[k].request, w.snapshot, w.stub, calls[k].now).Returned?
            && forall a :: a in w.snapshot.participantHistory ==> DistinctIds(w.snapshot.participantHistory[a])
  {
    hide Sound, OwnNames, Serve, Reply;
    var empty := World(EMPTY_SNAPSHOT, EMPTY_STUB);
    EmptyWorldIsSound();
    OpenRunsKeepOwnNames(calls[..k]);
    RunsStaySound(empty, calls[..k]);
    var w := ServeAll(empty, calls[..k]);
    OpenIdsNeverRaise(w, calls[k]);
    OwnNamesAreDistinct(w);
  }

  lemma {:induction false} OpenRunsKeepOwnNames(calls: seq<Call>)
    requires forall i :: 0 <= i < |calls| ==> LeavesIdOpen(calls[i].request) && calls[i].now.text != ""
    ensures OwnNames(ServeAll(World(EMPTY_SNAPSHOT, EMPTY_STUB), calls))
  {
    hide Sound, Serve;
    var empty := World(EMPTY_SNAPSHOT, EMPTY_STUB);
    if calls != [] {
      var front := calls[..|calls| - 1];
      EmptyWorldIsSound();
      RunsStaySound(empty, front);
      OpenRunsKeepOwnNames(front);
      ServeKeepsOwnNames(ServeAll(empty, front), calls[|calls| - 1]);
    }
  }

  lemma OwnNamesAreDistinct(w: World)
    requires OwnNames(w)
    ensures forall a :: a in w.snapshot.participantHistory ==> DistinctIds(w.snapshot.participantHistory[a])
  {
    hide EpisodeName;
    forall a, i, j | a in w.snapshot.participantHistory && 0 <= i < |w.snapshot.participantHistory[a]|
        && 0 <= j < |w.snapshot.participantHistory[a]|
                     && w.snapshot.participantHistory[a][i].episodeId == w.snapshot.participantHistory[a][j].episodeId
      ensures w.snapshot.participantHistory[a][i].sequenceNumber == w.snapshot.participantHistory[a][j].sequenceNumber
    {
      var e, f := w.snapshot.participantHistory[a][i], w.snapshot.participantHistory[a][j];
      assert OwnName(a, e) && OwnName(a, f);
      EpisodeNamesInjective(a, e.sequenceNumber + 1, a, f.sequenceNumber + 1);
    }
  }
}
