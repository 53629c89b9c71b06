/**
  The durable records of the one-shot observer-snapshot evaluation and the store
  transactions that write them.

  A transaction is a function from the committed tables to either the tables after
  its commit or an error with no change: SQLite commits all of a transaction or none
  of it.  Every transaction makes the checks of its counterpart in the store crate.
  Fixed identifiers and attempt-scoped identifiers are constructors here; module
  `Identifiers` gives their text and shows that no two of them collide.
 */
module EvaluationStore {
  import opened Options

  /** A SHA-256 digest as the number its 32 bytes spell. */
  type Digest = nat
  type RepositoryId(==, !new)
  /** The ULID of an attempt as a number. */
  type Attempt = nat

  datatype Arm = Historical | Fixed

  /** Commit identifiers: the two pinned bases and any other. */
  datatype Sha = HistoricalBase | BoundedFix | OtherSha(text: string)

  // ---------------------------------------------------------------- identifiers

  datatype RunId = ControllerRun(arm: Arm)
  datatype RevisionId = GraderRevision | CaseRevision | TasksetRevision
  datatype EvaluationId = FixedEvaluation
  datatype SampleId = FixedSample

  datatype RecordKind =
    | Worktree
    | CandidateStdout | CandidateStderr | GraderStdout | GraderStderr | Materialization
    | CandidateCommand | GraderCommand
    | CandidateValidation | GraderValidation
    | ControllerEvidence | GraderEvidence

  datatype AttemptId = AttemptId(arm: Arm, attempt: Attempt, kind: RecordKind)

  // -------------------------------------------------------------------- records

  datatype Run = Run(repository: RepositoryId, base: Sha)

  /** The three immutable controller wires, with the fields that vary or are compared. */
  datatype Wire =
    | GraderWire(definition: Digest)
    | CaseWire(repository: RepositoryId, base: Sha, setup: Digest, command: Digest, source: Digest, grader: Digest)
    | TasksetWire(cases: seq<Digest>)

  datatype Revision = Revision(payload: Wire, wireDigest: Digest, payloadDigest: Digest)

  datatype Member = Member(caseRevision: RevisionId, ordinal: nat)

  datatype Evaluation = Evaluation(
    controller: RunId, taskset: RevisionId, grader: RevisionId, base: Sha,
    fixture: Digest, runtime: Digest, seedPolicy: Digest, championPolicy: Digest)

  datatype Status = Recording | Completed
  datatype StatusRow = StatusRow(status: Status, receipt: Digest)

  datatype Classification = Pass | Fail | InfrastructureUnavailable | Invalidated
  datatype EvaluationArm = Champion | Challenger

  datatype SampleWire = SampleWire(
    caseDigest: Digest, tasksetDigest: Digest, graderDigest: Digest, policy: Digest, base: Sha,
    fixture: Digest, setup: Digest, runtime: Digest, command: Digest,
    classification: Classification, evidence: Digest, artifact: Digest)

  datatype Sample = Sample(
    evaluation: EvaluationId, controllerEvidence: AttemptId, graderEvidence: AttemptId,
    caseRevision: RevisionId, arm: EvaluationArm, wire: SampleWire, digest: Digest)

  datatype WorktreeRow = WorktreeRow(run: RunId, base: Sha, head: Sha, active: bool)
  datatype Media = PlainText | Json
  /** Artifact identity is content-addressed: the row of some bytes is keyed by their digest. */
  datatype ArtifactRow = ArtifactRow(owner: AttemptId, run: RunId, media: Media)
  datatype ResultClass = Success | SourceFailure | ResultUnavailable
  datatype CommandRow = CommandRow(
    run: RunId, worktree: AttemptId, source: Sha, command: Digest, startedAt: int, completedAt: int,
    result: ResultClass, stdout: Digest, stderr: Digest)
  datatype ValidationRow = ValidationRow(
    run: RunId, worktree: AttemptId, source: Sha, result: ResultClass, command: AttemptId)
  datatype EvidenceRow = EvidenceRow(
    run: RunId, validation: AttemptId, source: Sha, result: ResultClass, digest: Digest, artifact: Digest)

  /** Everything a SHA-256 digest is taken of. The hash itself is a parameter. */
  datatype Document =
    | RuntimeText
    | SeedPolicyText
    | ChampionPolicyText
    | FixtureSource(arm: Arm)
    | SetupText(arm: Arm, base: Sha)
    | FixtureCommand
    | CandidateCommandWire
    | GraderCommandWire
    | HistoricalContract
    | WireBody(wire: Wire)
    | WirePayload(wire: Wire)
    | SampleBody(sample: SampleWire)
    | ControllerDetails(receipt: Digest, artifact: Digest)
    | GraderDetails(receipt: Digest, artifact: Digest)
    | ReceiptBody(arm: Arm, manifests: Digest, classification: Classification)

  type Hash = Document -> Digest

  datatype Tables = Tables(
    runs: map<RunId, Run>,
    revisions: map<RevisionId, Revision>,
    memberships: map<RevisionId, seq<Member>>,
    evaluations: map<EvaluationId, Evaluation>,
    statuses: map<EvaluationId, seq<StatusRow>>,
    samples: map<SampleId, Sample>,
    invalidEvaluations: set<EvaluationId>,
    invalidSamples: set<SampleId>)

  /** The attempt-scoped part: command, validation, evidence and artifact records. */
  datatype Custody = Custody(
    worktrees: map<AttemptId, WorktreeRow>,
    blobs: set<Digest>,
    artifacts: map<Digest, ArtifactRow>,
    artifactIds: map<AttemptId, Digest>,
    bindings: set<(Digest, RunId)>,
    commands: map<AttemptId, CommandRow>,
    validations: map<AttemptId, ValidationRow>,
    evidence: map<AttemptId, EvidenceRow>)

  const EMPTY_CUSTODY: Custody := Custody(map[], {}, map[], map[], {}, map[], map[], map[])
  const EMPTY: Tables := Tables(map[], map[], map[], map[], map[], map[], {}, {})

  // ------------------------------------------------------------------- outcomes

  /** Why a transaction itself aborts. */
  datatype Rejection = NotFound | Conflict

  /** Why the controller stops: a failed store call, a store rejection, its own check, or an arm. */
  datatype Error = Unavailable | Rejected(reason: Rejection) | Refused | ArmFailed

  datatype Result<+T> = Ok(value: T) | Err(error: Error)

  /** What a transaction does to the part of the store it writes. */
  datatype Outcome<+S, +T> = Commit(state: S, value: T) | Abort(reason: Rejection)

  // --------------------------------------------------------- authority records

  function FindRun(t: Tables, id: RunId): Result<Run> {
    if id in t.runs then Ok(t.runs[id]) else Err(Rejected(NotFound))
  }

  function CreateRun(t: Tables, id: RunId, row: Run): Outcome<Tables, ()> {
    if id in t.runs then Abort(Conflict) else Commit(t.(runs := t.runs[id := row]), ())
  }

  predicate KindMatches(id: RevisionId, wire: Wire) {
    match id
    case GraderRevision => wire.GraderWire?
    case CaseRevision => wire.CaseWire?
    case TasksetRevision => wire.TasksetWire?
  }

  /** Revision id, aggregate and idempotency key are in one-to-one correspondence here. */
  function AppendRevision(t: Tables, id: RevisionId, row: Revision): Outcome<Tables, ()> {
    if id in t.revisions then
      if t.revisions[id].payloadDigest == row.payloadDigest then Commit(t, ()) else Abort(Conflict)
    else
      Commit(t.(revisions := t.revisions[id := row]), ())
  }

  predicate RevisionOfKind(t: Tables, id: RevisionId) {
    id in t.revisions && KindMatches(id, t.revisions[id].payload)
  }

  function Members(t: Tables, taskset: RevisionId): seq<Member> {
    if taskset in t.memberships then t.memberships[taskset] else []
  }

  function InsertMember(rows: seq<Member>, row: Member): seq<Member> {
    if rows == [] || row.ordinal < rows[0].ordinal then [row] + rows
    else [rows[0]] + InsertMember(rows[1..], row)
  }

  function MemberOrdinal(rows: seq<Member>, caseRevision: RevisionId): Option<nat> {
    if rows == [] then None
    else if rows[0].caseRevision == caseRevision then Some(rows[0].ordinal)
    else MemberOrdinal(rows[1..], caseRevision)
  }

  function AppendMembership(t: Tables, taskset: RevisionId, caseRevision: RevisionId, ordinal: nat): Outcome<Tables, ()> {
    if !RevisionOfKind(t, taskset) || !RevisionOfKind(t, caseRevision)
       || !taskset.TasksetRevision? || !caseRevision.CaseRevision? then Abort(NotFound)
    else if t.revisions[caseRevision].wireDigest !in t.revisions[taskset].payload.cases then Abort(Conflict)
    else
      var rows := Members(t, taskset);
      match MemberOrdinal(rows, caseRevision)
      case Some(existing) => if existing == ordinal then Commit(t, ()) else Abort(Conflict)
      case None =>
        if (exists row :: row in rows && row.ordinal == ordinal) then Abort(Conflict)
        else if (exists id :: id in t.evaluations && t.evaluations[id].taskset == taskset) then Abort(Conflict)
        else Commit(t.(memberships := t.memberships[taskset := InsertMember(rows, Member(caseRevision, ordinal))]), ())
  }

  /** Every member agrees with its pin in the immutable manifest and with its grading bundle. */
  predicate LaunchPinsAgree(t: Tables, taskset: RevisionId, grader: RevisionId) {
    && RevisionOfKind(t, taskset) && taskset.TasksetRevision?
    && RevisionOfKind(t, grader) && grader.GraderRevision?
    && var rows := Members(t, taskset);
       var pins := t.revisions[taskset].payload.cases;
       && |rows| == |pins| && |rows| > 0
       && forall i | 0 <= i < |rows| ::
            && rows[i].caseRevision.CaseRevision?
            && RevisionOfKind(t, rows[i].caseRevision)
            && t.revisions[rows[i].caseRevision].wireDigest == pins[i]
            && t.revisions[rows[i].caseRevision].payload.grader == t.revisions[grader].wireDigest
  }

  predicate CasesBelongTo(t: Tables, taskset: RevisionId, repository: RepositoryId, base: Sha) {
    forall i | 0 <= i < |Members(t, taskset)| ::
      var id := Members(t, taskset)[i].caseRevision;
      id in t.revisions && t.revisions[id].payload.CaseWire?
      && t.revisions[id].payload.repository == repository && t.revisions[id].payload.base == base
  }

  function StartEvaluation(t: Tables, id: EvaluationId, row: Evaluation): Outcome<Tables, ()> {
    if row.controller !in t.runs || t.runs[row.controller].base != row.base then Abort(Conflict)
    else if !LaunchPinsAgree(t, row.taskset, row.grader) then Abort(Conflict)
    else if !CasesBelongTo(t, row.taskset, t.runs[row.controller].repository, row.base) then Abort(Conflict)
    else if id in t.evaluations then
      if t.evaluations[id] == row then Commit(t, ()) else Abort(Conflict)
    else
      Commit(t.(evaluations := t.evaluations[id := row],
                statuses := t.statuses[id := [StatusRow(Recording, row.runtime)]]), ())
  }

  /** `evaluation_launch_pins`: the revisions an evaluation of this taskset and grader is pinned to. */
  datatype LaunchPins = LaunchPins(taskset: Revision, grader: Revision, cases: map<RevisionId, Revision>)

  function FindLaunchPins(t: Tables, taskset: RevisionId, grader: RevisionId): Result<LaunchPins> {
    if !LaunchPinsAgree(t, taskset, grader) then Err(Rejected(Conflict))
    else
      var rows := Members(t, taskset);
      Ok(LaunchPins(t.revisions[taskset], t.revisions[grader],
                    map id | id in t.revisions && MemberOrdinal(rows, id).Some? :: t.revisions[id]))
  }

  function CurrentStatus(t: Tables, id: EvaluationId): Option<Status> {
    if id in t.statuses && t.statuses[id] != [] then Some(t.statuses[id][|t.statuses[id]| - 1].status) else None
  }

  datatype EvaluationReceipt = EvaluationReceipt(controller: RunId, status: Status, invalidated: bool)

  function FindEvaluation(t: Tables, id: EvaluationId): Result<EvaluationReceipt> {
    if id !in t.evaluations || CurrentStatus(t, id).None? then Err(Rejected(NotFound))
    else Ok(EvaluationReceipt(t.evaluations[id].controller, CurrentStatus(t, id).value, id in t.invalidEvaluations))
  }

  function AppendStatus(t: Tables, id: EvaluationId, row: StatusRow): Outcome<Tables, ()> {
    if id !in t.evaluations || id !in t.statuses then Abort(NotFound)
    else if id in t.invalidEvaluations then Abort(Conflict)
    else if (exists i :: 0 < i < |t.statuses[id]| && t.statuses[id][i].status == row.status) then
      // the completed status has one idempotency key: a replay must carry the same receipt
      if row in t.statuses[id][1..] then Commit(t, ()) else Abort(Conflict)
    else if CurrentStatus(t, id) != Some(Recording) || row.status != Completed then Abort(Conflict)
    else Commit(t.(statuses := t.statuses[id := t.statuses[id] + [row]]), ())
  }

  // ---------------------------------------------------------- evidence chains

  predicate CommandSucceeded(c: Custody, id: AttemptId, run: RunId, base: Sha) {
    id in c.commands && c.commands[id].run == run && c.commands[id].source == base && c.commands[id].result == Success
  }

  predicate ValidationSucceeded(c: Custody, id: AttemptId, run: RunId, base: Sha) {
    && id in c.validations && c.validations[id].run == run && c.validations[id].source == base
    && c.validations[id].result == Success
    && CommandSucceeded(c, c.validations[id].command, run, base)
  }

  predicate EvidenceSucceeded(c: Custody, id: AttemptId, run: RunId, base: Sha) {
    && id in c.evidence && c.evidence[id].run == run && c.evidence[id].source == base
    && c.evidence[id].result == Success
    && ValidationSucceeded(c, c.evidence[id].validation, run, base)
  }

  predicate BoundTo(c: Custody, artifact: Digest, run: RunId) {
    artifact in c.artifacts && (c.artifacts[artifact].run == run || (artifact, run) in c.bindings)
  }

  /** The candidate join: evidence, validation and command of one run, all successful. */
  predicate CandidateChain(c: Custody, id: AttemptId, run: RunId, base: Sha, command: Digest) {
    && EvidenceSucceeded(c, id, run, base)
    && c.commands[c.validations[c.evidence[id].validation].command].command == command
  }

  /** A grading join: the same, with the evidence digest and a verified artifact of the run. */
  predicate GraderChain(c: Custody, id: AttemptId, run: RunId, base: Sha, evidence: Digest, artifact: Digest) {
    && EvidenceSucceeded(c, id, run, base)
    && c.evidence[id].digest == evidence
    && BoundTo(c, c.evidence[id].artifact, run)
    && c.evidence[id].artifact == artifact
  }

  /** `evaluation_sample`: an invalidated sample is a conflict, not a receipt. */
  function FindSample(t: Tables, id: SampleId): Result<Sample> {
    if id !in t.samples then Err(Rejected(NotFound))
    else if id in t.invalidSamples || t.samples[id].evaluation in t.invalidEvaluations then Err(Rejected(Conflict))
    else Ok(t.samples[id])
  }

  function RecordSample(t: Tables, custody: Custody, id: SampleId, row: Sample): Outcome<Tables, Sample> {
    var w := row.wire;
    if (w.classification.Pass? || w.classification.Fail?) && w.artifact !in custody.blobs then Abort(NotFound)
    else if row.evaluation !in t.evaluations then Abort(NotFound)
    else if row.evaluation in t.invalidEvaluations then Abort(Conflict)
    else if CurrentStatus(t, row.evaluation) != Some(Recording) then Abort(Conflict)
    else if !row.caseRevision.CaseRevision? || !RevisionOfKind(t, row.caseRevision) then Abort(NotFound)
    else
      var e := t.evaluations[row.evaluation];
      var c := t.revisions[row.caseRevision];
      if w.caseDigest != c.wireDigest || w.setup != c.payload.setup then Abort(Conflict)
      else if MemberOrdinal(Members(t, e.taskset), row.caseRevision).None? then Abort(Conflict)
      else if e.taskset !in t.revisions || e.grader !in t.revisions then Abort(NotFound)
      else if w.tasksetDigest != t.revisions[e.taskset].payloadDigest
              || w.graderDigest != t.revisions[e.grader].payloadDigest
              || w.base != e.base || w.fixture != e.fixture || w.runtime != e.runtime then Abort(Conflict)
      else if row.arm != Champion || w.policy != e.championPolicy then Abort(Conflict)
      else if row.controllerEvidence == row.graderEvidence then Abort(Conflict)
      else if w.classification != Pass && w.classification != Fail then Abort(Conflict)
      else if !CandidateChain(custody, row.controllerEvidence, e.controller, w.base, w.command)
              || !GraderChain(custody, row.graderEvidence, e.controller, w.base, w.evidence, w.artifact) then
        Abort(Conflict)
      else if id in t.samples then
        if t.samples[id] == row then Commit(t, t.samples[id]) else Abort(Conflict)
      else Commit(t.(samples := t.samples[id := row]), row)
  }

  // ------------------------------------------------------ attempt-scoped writes

  function CreateWorktree(c: Custody, id: AttemptId, row: WorktreeRow): Outcome<Custody, ()> {
    if id !in c.worktrees || (c.worktrees[id].(active := row.active) == row && row.active) then
      Commit(c.(worktrees := c.worktrees[id := row]), ())
    else if c.worktrees[id] == row then Commit(c, ())
    else Abort(Conflict)
  }

  function MarkWorktreeRemoved(c: Custody, id: AttemptId): Outcome<Custody, ()> {
    if id !in c.worktrees then Abort(NotFound)
    else Commit(c.(worktrees := c.worktrees[id := c.worktrees[id].(active := false)]), ())
  }

  /** `ArtifactStore::put_file`: the bytes enter content-addressed custody. */
  function PutBlob(c: Custody, digest: Digest): Outcome<Custody, ()> {
    Commit(c.(blobs := c.blobs + {digest}), ())
  }

  /** Content-addressed registration: bytes already held keep their first row and gain a binding. */
  function RegisterArtifact(c: Custody, digest: Digest, row: ArtifactRow): Outcome<Custody, ()> {
    var bound := c.bindings + {(digest, row.run)};
    if digest !in c.blobs then Abort(NotFound)
    else if row.owner in c.artifactIds && (c.artifactIds[row.owner] != digest || digest !in c.artifacts || c.artifacts[digest] != row) then
      Abort(Conflict)
    else if digest in c.artifacts then
      if c.artifacts[digest].media == row.media then Commit(c.(bindings := bound), ()) else Abort(Conflict)
    else
      Commit(c.(artifacts := c.artifacts[digest := row], artifactIds := c.artifactIds[row.owner := digest], bindings := bound), ())
  }

  function RecordCommand(c: Custody, id: AttemptId, row: CommandRow): Outcome<Custody, ()> {
    if id in c.commands then (if c.commands[id] == row then Commit(c, ()) else Abort(Conflict))
    else Commit(c.(commands := c.commands[id := row]), ())
  }

  function RecordValidation(c: Custody, id: AttemptId, row: ValidationRow): Outcome<Custody, ()> {
    if id in c.validations then (if c.validations[id] == row then Commit(c, ()) else Abort(Conflict))
    else Commit(c.(validations := c.validations[id := row]), ())
  }

  function RecordEvidence(c: Custody, id: AttemptId, row: EvidenceRow): Outcome<Custody, ()> {
    if id in c.evidence then (if c.evidence[id] == row then Commit(c, ()) else Abort(Conflict))
    else if !BoundTo(c, row.artifact, row.run) then Abort(NotFound)
    else Commit(c.(evidence := c.evidence[id := row]), ())
  }

  // ------------------------------------------------------------------ retention

  predicate Aged(c: Custody, id: AttemptId, cutoff: int) { id in c.commands && c.commands[id].completedAt < cutoff }

  /** A validation names its command by a foreign key without a deletion rule. */
  predicate Named(c: Custody, id: AttemptId) { exists v :: v in c.validations && c.validations[v].command == id }

  /** The retention sweep of commands: a named one in the way aborts all of it. */
  function SweepCommands(c: Custody, cutoff: int): Outcome<Custody, ()> {
    if exists id :: id in c.commands && Aged(c, id, cutoff) && Named(c, id) then Abort(Conflict)
    else Commit(c.(commands := map id | id in c.commands && !Aged(c, id, cutoff) :: c.commands[id]), ())
  }
}
