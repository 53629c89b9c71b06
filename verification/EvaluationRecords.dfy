/**
  A completed evaluation spelled out: the content of every record it stands on, down to what is
  digested, and what a passing receipt says.
 */
module EvaluationRecords {
  import opened Options
  import opened EvaluationStore
  import opened EvaluationChain
  import opened EvaluationCommits
  import C = EvaluationController

  function GraderBody(h: Hash): Wire { GraderWire(h(FixtureSource(Fixed))) }

  function CaseBody(h: Hash, repository: RepositoryId): Wire {
    CaseWire(repository, BoundedFix, h(SetupText(Fixed, BoundedFix)), h(FixtureCommand), h(HistoricalContract), h(WireBody(GraderBody(h))))
  }

  function TasksetBody(h: Hash, repository: RepositoryId): Wire { TasksetWire([h(WireBody(CaseBody(h, repository)))]) }

  predicate Holds(t: Tables, h: Hash, id: RevisionId, wire: Wire) {
    id in t.revisions && t.revisions[id] == Revision(wire, h(WireBody(wire)), h(WirePayload(wire)))
  }

  /** The two commits, one repository. */
  predicate RunsOf(t: Tables, repository: RepositoryId) {
    && ControllerRun(Historical) in t.runs && t.runs[ControllerRun(Historical)] == Run(repository, HistoricalBase)
    && ControllerRun(Fixed) in t.runs && t.runs[ControllerRun(Fixed)] == Run(repository, BoundedFix)
  }

  /** The sample, bound to the wires and to the pins of the launch. */
  predicate SampleOf(t: Tables, h: Hash, repository: RepositoryId) {
    && FixedSample in t.samples
    && var s := t.samples[FixedSample];
    && s.evaluation == FixedEvaluation && s.arm == Champion && s.caseRevision == CaseRevision && s.digest == h(SampleBody(s.wire))
    && s.wire == SampleWire(h(WireBody(CaseBody(h, repository))), h(WirePayload(TasksetBody(h, repository))), h(WirePayload(GraderBody(h))),
                            h(ChampionPolicyText), BoundedFix, h(FixtureSource(Fixed)), h(SetupText(Fixed, BoundedFix)), h(RuntimeText),
                            h(CandidateCommandWire), Pass, s.wire.evidence, s.wire.artifact)
  }

  /** An attempt of an arm whose two pieces of evidence stand on successful validations and commands of its run and base. */
  ghost predicate Proven(h: Hash, c: Custody, arm: Arm, base: Sha) {
    exists attempt ::
      var run, mine, graded := ControllerRun(arm), AttemptId(arm, attempt, ControllerEvidence), AttemptId(arm, attempt, GraderEvidence);
      && Joined(c, mine, run, base) && CommandOf(c, mine) == h(CandidateCommandWire) && Joined(c, graded, run, base)
      && c.evidence[graded].artifact in c.artifacts
      && (c.artifacts[c.evidence[graded].artifact].run == run || (c.evidence[graded].artifact, run) in c.bindings)
  }

  /** Everything a Completed status stands on. */
  lemma CompletedSpelled(h: Hash, t: Tables, c: Custody, repository: RepositoryId)
    requires FullChain(h, t, c, repository)
    ensures RunsOf(t, repository)
    ensures Holds(t, h, GraderRevision, GraderBody(h)) && Holds(t, h, CaseRevision, CaseBody(h, repository))
    ensures Holds(t, h, TasksetRevision, TasksetBody(h, repository))
    ensures TasksetRevision in t.memberships && t.memberships[TasksetRevision] == [Member(CaseRevision, 0)]
    ensures FixedEvaluation in t.evaluations
            && t.evaluations[FixedEvaluation] == Evaluation(ControllerRun(Fixed), TasksetRevision, GraderRevision, BoundedFix, h(FixtureSource(Fixed)),
                                                            h(RuntimeText), h(SeedPolicyText), h(ChampionPolicyText))
    ensures SampleOf(t, h, repository)
    ensures FixedEvaluation in t.statuses
            && t.statuses[FixedEvaluation] == [StatusRow(Recording, h(RuntimeText)), StatusRow(Completed, t.samples[FixedSample].digest)]
    ensures Proven(h, c, Historical, HistoricalBase) && Proven(h, c, Fixed, BoundedFix)
  {
    ArmProven(h, c, Historical);
    ArmProven(h, c, Fixed);
    hide Trusted, Proven, SampleEvidence;
  }

  lemma ArmProven(h: Hash, c: Custody, arm: Arm)
    ensures Trusted(h, c, arm) ==> Proven(h, c, arm, if arm == Historical then HistoricalBase else BoundedFix)
  {
    if attempt :| AttemptTrusted(h, c, arm, attempt) {
      CandidateJoined(c, AttemptId(arm, attempt, ControllerEvidence), ControllerRun(arm), PinnedBase(arm), h(CandidateCommandWire));
      assert Joined(c, AttemptId(arm, attempt, GraderEvidence), ControllerRun(arm), PinnedBase(arm));
    }
  }

  /** The evidence of the sample itself. */
  lemma SampleProven(h: Hash, t: Tables, c: Custody, repository: RepositoryId)
    requires FullChain(h, t, c, repository)
    ensures var s, run := t.samples[FixedSample], ControllerRun(Fixed);
            && s.controllerEvidence != s.graderEvidence
            && Joined(c, s.controllerEvidence, run, BoundedFix) && CommandOf(c, s.controllerEvidence) == h(CandidateCommandWire)
            && Joined(c, s.graderEvidence, run, BoundedFix)
            && c.evidence[s.graderEvidence].digest == s.wire.evidence && c.evidence[s.graderEvidence].artifact == s.wire.artifact
            && s.wire.artifact in c.artifacts && (c.artifacts[s.wire.artifact].run == run || (s.wire.artifact, run) in c.bindings)
  {
    var s := t.samples[FixedSample];
    CandidateJoined(c, s.controllerEvidence, ControllerRun(Fixed), BoundedFix, s.wire.command);
    GraderJoined(c, s.graderEvidence, ControllerRun(Fixed), BoundedFix, s.wire.evidence, s.wire.artifact);
    hide Trusted, CandidateChain, GraderChain, Joined;
  }

  /**
    A receipt passes exactly when it is the one its arm must give: its own signal, overlay and
    base, the fixture, setup and command digests of that arm, well-formed pins, an available
    sandbox, a successful exit, and failure for the historical arm and success for the fixed one.
   */
  lemma GradePassExactly(h: Hash, r: C.Receipt)
    ensures C.GradeReceipt(h, r) == C.GradePass <==>
              && r.materializedArm == r.arm && r.fixture == h(FixtureSource(r.arm)) && r.command == h(FixtureCommand)
              && r.pinsValid && r.available && r.exitSuccess
              && (r.arm == Historical ==>
                    && r.signal == C.HistoricalBugReproduced && r.materializedBase == HistoricalBase
                    && r.setup == h(SetupText(Historical, HistoricalBase)) && r.classification == Fail)
              && (r.arm == Fixed ==>
                    && r.signal == C.FixedBoundEnforced && r.materializedBase == BoundedFix
                    && r.setup == h(SetupText(Fixed, BoundedFix)) && r.classification == Pass)
  {}

  /** What the controller puts into a receipt: its arm, what it observed, and success only when both commands ended with code zero in time. */
  lemma ReceiptExact(h: Hash, arm: Arm, base: Sha, o: C.Observation)
    ensures var r := C.BuildReceipt(h, arm, base, o);
            && r.arm == r.materializedArm == arm && r.materializedBase == base && r.available == o.available && r.pinsValid == o.pinsValid
            && r.signal == (if arm == Historical then C.HistoricalBugReproduced else C.FixedBoundEnforced)
            && r.fixture == h(FixtureSource(arm)) && r.setup == h(SetupText(arm, base)) && r.command == h(FixtureCommand)
            && r.digest == h(ReceiptBody(arm, o.manifests, r.classification))
            && (r.exitSuccess <==>
                  && o.candidate.Some? && !o.candidate.value.timedOut && o.candidate.value.exitCode == Some(0)
                  && o.grader.Some? && !o.grader.value.timedOut && o.grader.value.exitCode == Some(0))
            && r.classification == if !o.available then InfrastructureUnavailable
                                   else if !r.exitSuccess then Invalidated
                                   else if arm == Historical then Fail else Pass
  {}
}
