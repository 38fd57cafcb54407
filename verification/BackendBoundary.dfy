/** The boundary that every backend call passes: what a call may come back with, and what is let through. */
module BackendBoundary {
  import opened RuntimeModels
  import opened WorkflowContracts
  import opened EvaluationContracts
  import opened ParticipantEpisodes

  /** A snapshot that all three checkers accept. */
  predicate Accepted(s: RuntimeSnapshot) {
    && WorkflowsAccepted(s)
    && EvaluationsAccepted(s)
    && EpisodesAccepted(s.participantResults, s.participantHistory)
  }

  /** A backend method is arbitrary: it may raise, return something of the wrong shape, or return any result at all. */
  datatype BackendOutcome = RaisesError | MalformedResult | Applies(result: ApplyResult)

  predicate Passes(outcome: BackendOutcome) {
    outcome.Applies? && Accepted(outcome.result.snapshot)
  }

  /** What the caller sees: the result itself if it passes, and otherwise a failure on the snapshot it started from. */
  function Screened(outcome: BackendOutcome, fallback: RuntimeSnapshot, findings: seq<Diagnostic>): ApplyResult {
    if Passes(outcome) then outcome.result else ApplyResult(false, fallback, findings, [])
  }

  lemma ScreenedAcceptedIff(outcome: BackendOutcome, fallback: RuntimeSnapshot, findings: seq<Diagnostic>)
    ensures Accepted(Screened(outcome, fallback, findings).snapshot) <==> Passes(outcome) || Accepted(fallback)
  {
  }

  method EpisodeDiagnostics(s: RuntimeSnapshot) returns (ds: seq<Diagnostic>)
    ensures ds == [] <==> EpisodesAccepted(s.participantResults, s.participantHistory)
    ensures forall d :: d in ds ==> d.IsError()
  {
    var found := SnapshotViolations(s.participantResults, s.participantHistory);
    ds := [];
    for k := 0 to |found|
      invariant |ds| == k && forall d :: d in ds ==> d.IsError()
    {
      ds := ds + [FailureDiagnostic(BackendContractInvalid, found[k].address)];
    }
  }

  method CallBackendApply(outcome: BackendOutcome, fallback: RuntimeSnapshot, address: string) returns (r: ApplyResult)
    ensures r == Screened(outcome, fallback, r.diagnostics)
    ensures !Passes(outcome) ==> HasError(r.diagnostics)
    ensures outcome.RaisesError? ==> r.diagnostics == [Diagnostic(BackendCallFailed, address, Error)]
    ensures outcome.MalformedResult? ==> r.diagnostics == [Diagnostic(BackendContractInvalid, address, Error)]
    ensures outcome.Applies? && !Accepted(outcome.result.snapshot) ==>
      forall d :: d in r.diagnostics ==> d.severity.Error?
  {
    match outcome
    case RaisesError =>
      r := ApplyResult(false, fallback, [FailureDiagnostic(BackendCallFailed, address)], []);
      assert r.diagnostics[0] in r.diagnostics;
    case MalformedResult =>
      r := ApplyResult(false, fallback, [FailureDiagnostic(BackendContractInvalid, address)], []);
      assert r.diagnostics[0] in r.diagnostics;
    case Applies(result) =>
      var workflows := WorkflowDiagnostics(result.snapshot);
      if workflows != [] {
        assert workflows[0] in workflows;
        return ApplyResult(false, fallback, workflows, []);
      }
      var evaluations := EvaluationDiagnostics(result.snapshot);
      if evaluations != [] {
        assert evaluations[0] in evaluations;
        return ApplyResult(false, fallback, evaluations, []);
      }
      var episodes := EpisodeDiagnostics(result.snapshot);
      if episodes != [] {
        assert episodes[0] in episodes;
        return ApplyResult(false, fallback, episodes, []);
      }
      r := result;
  }
}
