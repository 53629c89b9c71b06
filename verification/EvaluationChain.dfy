/**
  The chain of authority records: what each fixed-identifier record must rest on, and
  that every transaction the controller issues keeps the chain.
 */
module EvaluationChain {
  import opened Options
  import opened EvaluationStore

  function PinnedBase(arm: Arm): Sha {
    match arm case Historical => HistoricalBase case Fixed => BoundedFix
  }

  // ------------------------------------------- the closed contents of each record

  function FixtureDigest(h: Hash, arm: Arm): Digest { h(FixtureSource(arm)) }
  function SetupDigest(h: Hash, arm: Arm, base: Sha): Digest { h(SetupText(arm, base)) }
  function RuntimeDigest(h: Hash): Digest { h(RuntimeText) }
  function ChampionPolicy(h: Hash): Digest { h(ChampionPolicyText) }
  function SeedPolicy(h: Hash): Digest { h(SeedPolicyText) }

  function Sealed(h: Hash, wire: Wire): Revision { Revision(wire, h(WireBody(wire)), h(WirePayload(wire))) }

  function TheGrader(h: Hash): Revision { Sealed(h, GraderWire(FixtureDigest(h, Fixed))) }

  function TheCase(h: Hash, repository: RepositoryId): Revision {
    Sealed(h, CaseWire(repository, BoundedFix, SetupDigest(h, Fixed, BoundedFix), h(FixtureCommand),
                       h(HistoricalContract), TheGrader(h).wireDigest))
  }

  function TheTaskset(h: Hash, repository: RepositoryId): Revision {
    Sealed(h, TasksetWire([TheCase(h, repository).wireDigest]))
  }

  function TheEvaluation(h: Hash): Evaluation {
    Evaluation(ControllerRun(Fixed), TasksetRevision, GraderRevision, BoundedFix,
               FixtureDigest(h, Fixed), RuntimeDigest(h), SeedPolicy(h), ChampionPolicy(h))
  }

  function TheSampleWire(h: Hash, repository: RepositoryId, evidence: Digest, artifact: Digest): SampleWire {
    SampleWire(TheCase(h, repository).wireDigest, TheTaskset(h, repository).payloadDigest, TheGrader(h).payloadDigest,
               ChampionPolicy(h), BoundedFix, FixtureDigest(h, Fixed), SetupDigest(h, Fixed, BoundedFix),
               RuntimeDigest(h), h(CandidateCommandWire), Pass, evidence, artifact)
  }

  // ------------------------------------------------------------------ the chain

  function BoundRepository(runs: map<RunId, Run>): Option<RepositoryId> {
    if ControllerRun(Historical) in runs then Some(runs[ControllerRun(Historical)].repository) else None
  }

  /** Both evidence joins of one attempt of an arm, for the arm's run and pinned base. */
  ghost predicate AttemptTrusted(h: Hash, c: Custody, arm: Arm, attempt: Attempt) {
    var controller := AttemptId(arm, attempt, ControllerEvidence);
    var grader := AttemptId(arm, attempt, GraderEvidence);
    && CandidateChain(c, controller, ControllerRun(arm), PinnedBase(arm), h(CandidateCommandWire))
    && EvidenceSucceeded(c, grader, ControllerRun(arm), PinnedBase(arm))
    && BoundTo(c, c.evidence[grader].artifact, ControllerRun(arm))
  }

  ghost predicate Trusted(h: Hash, c: Custody, arm: Arm) {
    exists attempt :: AttemptTrusted(h, c, arm, attempt)
  }

  ghost predicate RunsPinned(runs: map<RunId, Run>, launchable: bool) {
    && (forall arm :: ControllerRun(arm) in runs ==> runs[ControllerRun(arm)].base == PinnedBase(arm))
    && (ControllerRun(Fixed) in runs ==>
          && ControllerRun(Historical) in runs
          && runs[ControllerRun(Fixed)].repository == runs[ControllerRun(Historical)].repository
          && launchable)
  }

  ghost predicate WiresPinned(h: Hash, revisions: map<RevisionId, Revision>, bound: Option<RepositoryId>, trusted: bool) {
    && (GraderRevision in revisions ==> bound.Some? && trusted && revisions[GraderRevision] == TheGrader(h))
    && (CaseRevision in revisions ==>
          GraderRevision in revisions && revisions[CaseRevision] == TheCase(h, bound.value))
    && (TasksetRevision in revisions ==>
          CaseRevision in revisions && revisions[TasksetRevision] == TheTaskset(h, bound.value))
  }

  ghost predicate MembershipPinned(memberships: map<RevisionId, seq<Member>>, pinned: bool) {
    forall id :: id in memberships ==>
      id == TasksetRevision && pinned && memberships[id] == [Member(CaseRevision, 0)]
  }

  ghost predicate EvaluationPinned(
    h: Hash, evaluations: map<EvaluationId, Evaluation>, statuses: map<EvaluationId, seq<StatusRow>>,
    launched: bool, trusted: bool)
  {
    && (FixedEvaluation in evaluations ==>
          launched && trusted && evaluations[FixedEvaluation] == TheEvaluation(h))
    && (FixedEvaluation in evaluations <==> FixedEvaluation in statuses)
  }

  ghost predicate SampleEvidence(c: Custody, s: Sample) {
    && s.controllerEvidence != s.graderEvidence
    && CandidateChain(c, s.controllerEvidence, ControllerRun(Fixed), BoundedFix, s.wire.command)
    && GraderChain(c, s.graderEvidence, ControllerRun(Fixed), BoundedFix, s.wire.evidence, s.wire.artifact)
  }

  ghost predicate SampleContent(h: Hash, repository: RepositoryId, s: Sample) {
    && s.evaluation == FixedEvaluation && s.arm == Champion && s.caseRevision == CaseRevision
    && s.wire == TheSampleWire(h, repository, s.wire.evidence, s.wire.artifact)
    && s.digest == h(SampleBody(s.wire))
  }

  ghost predicate SamplePinned(h: Hash, samples: map<SampleId, Sample>, bound: Option<RepositoryId>, launched: bool, c: Custody) {
    FixedSample in samples ==>
      launched && bound.Some? && SampleContent(h, bound.value, samples[FixedSample]) && SampleEvidence(c, samples[FixedSample])
  }

  ghost predicate StatusPinned(h: Hash, statuses: map<EvaluationId, seq<StatusRow>>, samples: map<SampleId, Sample>) {
    FixedEvaluation in statuses ==>
      var rows := statuses[FixedEvaluation];
      || rows == [StatusRow(Recording, RuntimeDigest(h))]
      || (&& FixedSample in samples
          && rows == [StatusRow(Recording, RuntimeDigest(h)), StatusRow(Completed, samples[FixedSample].digest)])
  }

  /** Every registered artifact has its bytes in custody, and every owner's bytes are registered. */
  ghost predicate BytesHeld(c: Custody) {
    c.artifacts.Keys <= c.blobs && c.artifactIds.Values <= c.artifacts.Keys
  }

  /** The invariant of every reachable store: each record rests on all the records before it. */
  ghost predicate Chain(h: Hash, t: Tables, c: Custody) {
    && RunsPinned(t.runs, TasksetRevision in t.memberships)
    && WiresPinned(h, t.revisions, BoundRepository(t.runs), Trusted(h, c, Historical))
    && MembershipPinned(t.memberships, TasksetRevision in t.revisions)
    && EvaluationPinned(h, t.evaluations, t.statuses, ControllerRun(Fixed) in t.runs, Trusted(h, c, Fixed))
    && SamplePinned(h, t.samples, BoundRepository(t.runs), FixedEvaluation in t.evaluations, c)
    && StatusPinned(h, t.statuses, t.samples)
    && BytesHeld(c)
  }

  /** The evaluation is recorded as completed. */
  predicate IsCompleted(t: Tables) {
    FixedEvaluation in t.statuses && exists i :: 0 <= i < |t.statuses[FixedEvaluation]| && t.statuses[FixedEvaluation][i].status == Completed
  }

  /** What a Completed status stands on, spelled out record by record. */
  ghost predicate FullChain(h: Hash, t: Tables, c: Custody, repository: RepositoryId) {
    && ControllerRun(Historical) in t.runs && t.runs[ControllerRun(Historical)] == Run(repository, HistoricalBase)
    && ControllerRun(Fixed) in t.runs && t.runs[ControllerRun(Fixed)] == Run(repository, BoundedFix)
    && GraderRevision in t.revisions && t.revisions[GraderRevision] == TheGrader(h)
    && CaseRevision in t.revisions && t.revisions[CaseRevision] == TheCase(h, repository)
    && TasksetRevision in t.revisions && t.revisions[TasksetRevision] == TheTaskset(h, repository)
    && TasksetRevision in t.memberships && t.memberships[TasksetRevision] == [Member(CaseRevision, 0)]
    && FixedEvaluation in t.evaluations && t.evaluations[FixedEvaluation] == TheEvaluation(h)
    && FixedSample in t.samples
    && SampleContent(h, repository, t.samples[FixedSample])
    && t.samples[FixedSample].wire.classification == Pass && t.samples[FixedSample].arm == Champion
    && SampleEvidence(c, t.samples[FixedSample])
    && FixedEvaluation in t.statuses
    && t.statuses[FixedEvaluation]
         == [StatusRow(Recording, RuntimeDigest(h)), StatusRow(Completed, t.samples[FixedSample].digest)]
    && Trusted(h, c, Historical)
    && Trusted(h, c, Fixed)
  }

  lemma {:induction false} CompletedMeansFullChain(h: Hash, t: Tables, c: Custody)
    requires Chain(h, t, c) && IsCompleted(t)
    ensures BoundRepository(t.runs).Some? && FullChain(h, t, c, BoundRepository(t.runs).value)
  {
    assert FixedSample in t.samples;
  }

  // ------------------------------------------------------------ append-only growth

  ghost predicate MapGrows<K, V>(m: map<K, V>, n: map<K, V>) {
    forall k :: k in m ==> k in n && n[k] == m[k]
  }

  ghost predicate CustodyGrows(c: Custody, d: Custody) {
    && c.worktrees.Keys <= d.worktrees.Keys
    && c.blobs <= d.blobs
    && MapGrows(c.artifacts, d.artifacts)
    && MapGrows(c.artifactIds, d.artifactIds)
    && c.bindings <= d.bindings
    && MapGrows(c.commands, d.commands)
    && MapGrows(c.validations, d.validations)
    && MapGrows(c.evidence, d.evidence)
  }

  ghost predicate StatusGrows(m: map<EvaluationId, seq<StatusRow>>, n: map<EvaluationId, seq<StatusRow>>) {
    forall id :: id in m ==> id in n && m[id] <= n[id]
  }

  /** No record is ever changed or removed; statuses only get longer. */
  ghost predicate Grows(t: Tables, u: Tables) {
    && MapGrows(t.runs, u.runs)
    && MapGrows(t.revisions, u.revisions)
    && MapGrows(t.memberships, u.memberships)
    && MapGrows(t.evaluations, u.evaluations)
    && StatusGrows(t.statuses, u.statuses)
    && MapGrows(t.samples, u.samples)
    && t.invalidEvaluations == u.invalidEvaluations && t.invalidSamples == u.invalidSamples
  }

  lemma MapGrowsTransitive<K, V>(m: map<K, V>, n: map<K, V>, o: map<K, V>)
    requires MapGrows(m, n) && MapGrows(n, o)
    ensures MapGrows(m, o)
  {}

  lemma CustodyGrowsTransitive(c: Custody, d: Custody, e: Custody)
    requires CustodyGrows(c, d) && CustodyGrows(d, e)
    ensures CustodyGrows(c, e)
  {
    MapGrowsTransitive(c.artifacts, d.artifacts, e.artifacts);
    MapGrowsTransitive(c.artifactIds, d.artifactIds, e.artifactIds);
    MapGrowsTransitive(c.commands, d.commands, e.commands);
    MapGrowsTransitive(c.validations, d.validations, e.validations);
    MapGrowsTransitive(c.evidence, d.evidence, e.evidence);
  }

  lemma StatusGrowsTransitive(
    m: map<EvaluationId, seq<StatusRow>>, n: map<EvaluationId, seq<StatusRow>>, o: map<EvaluationId, seq<StatusRow>>)
    requires StatusGrows(m, n) && StatusGrows(n, o)
    ensures StatusGrows(m, o)
  {}

  lemma GrowsRefl(t: Tables)
    ensures Grows(t, t)
  {}

  lemma GrowsTransitive(t: Tables, u: Tables, v: Tables)
    requires Grows(t, u) && Grows(u, v)
    ensures Grows(t, v)
  {
    MapGrowsTransitive(t.runs, u.runs, v.runs);
    MapGrowsTransitive(t.revisions, u.revisions, v.revisions);
    MapGrowsTransitive(t.memberships, u.memberships, v.memberships);
    MapGrowsTransitive(t.evaluations, u.evaluations, v.evaluations);
    StatusGrowsTransitive(t.statuses, u.statuses, v.statuses);
    MapGrowsTransitive(t.samples, u.samples, v.samples);
  }

  lemma TrustedGrows(h: Hash, c: Custody, d: Custody, arm: Arm)
    requires CustodyGrows(c, d)
    ensures Trusted(h, c, arm) ==> Trusted(h, d, arm)
  {
    if attempt :| AttemptTrusted(h, c, arm, attempt) {
      assert AttemptTrusted(h, d, arm, attempt);
    }
  }

  /** Writing attempt-scoped records never disturbs the chain of authority records. */
  lemma CustodyKeepsChain(h: Hash, t: Tables, c: Custody, d: Custody)
    requires Chain(h, t, c) && CustodyGrows(c, d) && BytesHeld(d)
    ensures Chain(h, t, d)
  {
    TrustedGrows(h, c, d, Historical);
    TrustedGrows(h, c, d, Fixed);
  }

  // -------------------------------------------------- each authority write in order

  lemma {:induction false} CreateRunKeepsChain(h: Hash, t: Tables, c: Custody, arm: Arm, repository: RepositoryId)
    requires Chain(h, t, c) && ControllerRun(arm) !in t.runs
    requires arm == Fixed ==> BoundRepository(t.runs) == Some(repository) && TasksetRevision in t.memberships
    ensures var r := CreateRun(t, ControllerRun(arm), Run(repository, PinnedBase(arm)));
            r.Commit? && Chain(h, r.state, c) && Grows(t, r.state) && BoundRepository(r.state.runs) == Some(repository)
  {}

  function WireOf(h: Hash, id: RevisionId, repository: RepositoryId): Revision {
    match id
    case GraderRevision => TheGrader(h)
    case CaseRevision => TheCase(h, repository)
    case TasksetRevision => TheTaskset(h, repository)
  }

  ghost predicate WireReady(h: Hash, t: Tables, c: Custody, id: RevisionId) {
    match id
    case GraderRevision => Trusted(h, c, Historical)
    case CaseRevision => GraderRevision in t.revisions
    case TasksetRevision => CaseRevision in t.revisions
  }

  /** A replayed wire is accepted because its content depends on nothing but the repository. */
  lemma {:induction false} AppendWireKeepsChain(h: Hash, t: Tables, c: Custody, id: RevisionId, repository: RepositoryId)
    requires Chain(h, t, c) && BoundRepository(t.runs) == Some(repository) && WireReady(h, t, c, id)
    ensures var r := AppendRevision(t, id, WireOf(h, id, repository));
            && r.Commit? && Chain(h, r.state, c) && Grows(t, r.state)
            && BoundRepository(r.state.runs) == Some(repository)
            && id in r.state.revisions
  {}

  /** The one membership row is inserted once, and afterwards replayed without change. */
  lemma AppendMembershipOutcome(h: Hash, t: Tables, c: Custody)
    requires Chain(h, t, c) && TasksetRevision in t.revisions
    ensures AppendMembership(t, TasksetRevision, CaseRevision, 0)
         == Commit(t.(memberships := t.memberships[TasksetRevision := [Member(CaseRevision, 0)]]), ())
  {
    var rows := Members(t, TasksetRevision);
    if TasksetRevision !in t.memberships {
      assert MemberOrdinal(rows, CaseRevision) == None;
      assert InsertMember(rows, Member(CaseRevision, 0)) == [Member(CaseRevision, 0)];
      forall id: EvaluationId ensures id !in t.evaluations { assert id == FixedEvaluation; }
    } else {
      assert MemberOrdinal(rows, CaseRevision) == Some(0);
      assert t.memberships[TasksetRevision := [Member(CaseRevision, 0)]] == t.memberships;
    }
  }

  lemma AppendMembershipKeepsChain(h: Hash, t: Tables, c: Custody)
    requires Chain(h, t, c) && TasksetRevision in t.revisions
    ensures var u := t.(memberships := t.memberships[TasksetRevision := [Member(CaseRevision, 0)]]);
            Chain(h, u, c) && Grows(t, u)
  {}

  lemma LaunchPinsHold(h: Hash, t: Tables, c: Custody)
    requires Chain(h, t, c) && ControllerRun(Fixed) in t.runs
    ensures LaunchPinsAgree(t, TasksetRevision, GraderRevision)
    ensures CasesBelongTo(t, TasksetRevision, t.runs[ControllerRun(Fixed)].repository, BoundedFix)
  {
    assert Members(t, TasksetRevision) == [Member(CaseRevision, 0)];
  }

  lemma {:induction false} StartEvaluationKeepsChain(h: Hash, t: Tables, c: Custody)
    requires Chain(h, t, c) && ControllerRun(Fixed) in t.runs && Trusted(h, c, Fixed)
    ensures var r := StartEvaluation(t, FixedEvaluation, TheEvaluation(h));
            && r.Commit? && Chain(h, r.state, c) && Grows(t, r.state)
            && BoundRepository(r.state.runs) == BoundRepository(t.runs)
            && FixedEvaluation in r.state.evaluations
            && r.state.samples == t.samples
  {
    LaunchPinsHold(h, t, c);
  }

  /** A sample that binds the chain's own records is accepted by every store check. */
  lemma {:induction false} RecordSampleOutcome(h: Hash, t: Tables, c: Custody, s: Sample)
    requires Chain(h, t, c) && FixedEvaluation in t.evaluations && FixedSample !in t.samples
    requires FixedEvaluation !in t.invalidEvaluations
    requires BoundRepository(t.runs).Some? && SampleContent(h, BoundRepository(t.runs).value, s)
    requires s.wire.artifact in c.blobs && SampleEvidence(c, s)
    ensures RecordSample(t, c, FixedSample, s) == Commit(t.(samples := t.samples[FixedSample := s]), s)
  {
    LaunchPinsHold(h, t, c);
    assert Members(t, TasksetRevision) == [Member(CaseRevision, 0)];
    assert MemberOrdinal(Members(t, TasksetRevision), CaseRevision) == Some(0);
  }

  lemma RecordSampleKeepsChain(h: Hash, t: Tables, c: Custody, s: Sample)
    requires Chain(h, t, c) && FixedEvaluation in t.evaluations && FixedSample !in t.samples
    requires BoundRepository(t.runs).Some? && SampleContent(h, BoundRepository(t.runs).value, s)
    requires SampleEvidence(c, s)
    ensures var u := t.(samples := t.samples[FixedSample := s]);
            Chain(h, u, c) && Grows(t, u)
  {}

  lemma AppendCompletedKeepsChain(h: Hash, t: Tables, c: Custody)
    requires Chain(h, t, c) && FixedSample in t.samples && FixedEvaluation !in t.invalidEvaluations
    ensures var r := AppendStatus(t, FixedEvaluation, StatusRow(Completed, t.samples[FixedSample].digest));
            && r.Commit? && Chain(h, r.state, c) && Grows(t, r.state)
            && BoundRepository(r.state.runs) == BoundRepository(t.runs)
            && IsCompleted(r.state)
  {
    var rows := t.statuses[FixedEvaluation];
    var row := StatusRow(Completed, t.samples[FixedSample].digest);
    if |rows| == 1 {
      var r := AppendStatus(t, FixedEvaluation, row);
      assert r.state.statuses[FixedEvaluation][1] == row;
    } else {
      assert rows[1..] == [row];
      assert rows[1].status == Completed;
    }
  }

  // -------------------------------------------------------------------------- retention

  /** Evidence that stands rests on a command that a committed sweep keeps. */
  lemma SweptEvidence(c: Custody, cutoff: int, id: AttemptId, run: RunId, base: Sha)
    requires SweepCommands(c, cutoff).Commit? && EvidenceSucceeded(c, id, run, base)
    ensures var d, command := SweepCommands(c, cutoff).state, c.validations[c.evidence[id].validation].command;
            && EvidenceSucceeded(d, id, run, base) && d.evidence == c.evidence && d.validations == c.validations
            && command in d.commands && d.commands[command] == c.commands[command]
            && c.commands[command].completedAt >= cutoff
  {
    var v := c.evidence[id].validation;
    assert v in c.validations && Named(c, c.validations[v].command);
  }

  lemma SweptAttempt(h: Hash, c: Custody, cutoff: int, arm: Arm, attempt: Attempt)
    requires SweepCommands(c, cutoff).Commit? && AttemptTrusted(h, c, arm, attempt)
    ensures AttemptTrusted(h, SweepCommands(c, cutoff).state, arm, attempt)
  {
    SweptEvidence(c, cutoff, AttemptId(arm, attempt, ControllerEvidence), ControllerRun(arm), PinnedBase(arm));
    SweptEvidence(c, cutoff, AttemptId(arm, attempt, GraderEvidence), ControllerRun(arm), PinnedBase(arm));
    hide EvidenceSucceeded, SweepCommands;
  }

  lemma SweptTrust(h: Hash, c: Custody, cutoff: int, arm: Arm)
    requires SweepCommands(c, cutoff).Commit? && Trusted(h, c, arm)
    ensures Trusted(h, SweepCommands(c, cutoff).state, arm)
  {
    hide AttemptTrusted, SweepCommands;
    var attempt :| AttemptTrusted(h, c, arm, attempt);
    SweptAttempt(h, c, cutoff, arm, attempt);
  }

  lemma SweptSample(c: Custody, cutoff: int, s: Sample)
    requires SweepCommands(c, cutoff).Commit? && SampleEvidence(c, s)
    ensures SampleEvidence(SweepCommands(c, cutoff).state, s)
  {
    SweptEvidence(c, cutoff, s.controllerEvidence, ControllerRun(Fixed), BoundedFix);
    SweptEvidence(c, cutoff, s.graderEvidence, ControllerRun(Fixed), BoundedFix);
    hide EvidenceSucceeded, SweepCommands;
  }

  /** A sweep that commits leaves the whole chain standing. */
  lemma SweepKeepsChain(h: Hash, t: Tables, c: Custody, cutoff: int)
    requires Chain(h, t, c) && SweepCommands(c, cutoff).Commit?
    ensures Chain(h, t, SweepCommands(c, cutoff).state)
  {
    var d := SweepCommands(c, cutoff).state;
    assert BytesHeld(d);
    hide SweepCommands, Trusted, SampleEvidence;
    if Trusted(h, c, Historical) { SweptTrust(h, c, cutoff, Historical); }
    if Trusted(h, c, Fixed) { SweptTrust(h, c, cutoff, Fixed); }
    if FixedSample in t.samples { SweptSample(c, cutoff, t.samples[FixedSample]); }
  }

  /**
    Once a command that a completed evaluation rests on has aged out, no sweep commits: the
    evaluation's evidence outlives the retention window, and so does everything else the sweep
    would have removed.
   */
  lemma {:induction false} AgedEvidenceStopsSweeps(h: Hash, t: Tables, c: Custody, repository: RepositoryId, cutoff: int)
    requires FullChain(h, t, c, repository)
    ensures var s := t.samples[FixedSample];
            forall id :: id in {s.controllerEvidence, s.graderEvidence} ==>
              (Aged(c, c.validations[c.evidence[id].validation].command, cutoff) ==> SweepCommands(c, cutoff).Abort?)
  {
    var s := t.samples[FixedSample];
    if SweepCommands(c, cutoff).Commit? {
      SweptEvidence(c, cutoff, s.controllerEvidence, ControllerRun(Fixed), BoundedFix);
      SweptEvidence(c, cutoff, s.graderEvidence, ControllerRun(Fixed), BoundedFix);
      hide SweepCommands;
    }
  }
}
