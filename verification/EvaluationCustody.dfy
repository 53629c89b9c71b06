/**
  What one attempt may add to the attempt-scoped tables: every identifier it makes is its
  own, nothing recorded before changes, and shared bytes keep their media type.
 */
module EvaluationCustody {
  import opened Options
  import opened EvaluationStore
  import opened EvaluationChain

  // ------------------------------------------------------------ frames of attempts

  function Used(c: Custody): set<AttemptId> {
    c.worktrees.Keys + c.artifactIds.Keys + c.commands.Keys + c.validations.Keys + c.evidence.Keys
  }

  predicate FreshAttempt(c: Custody, arm: Arm, attempt: Attempt) {
    forall id :: id in Used(c) ==> id.arm != arm || id.attempt != attempt
  }

  predicate MediaAllowed(c: Custody, digest: Digest, media: Media) {
    digest in c.artifacts ==> c.artifacts[digest].media == media
  }

  /** The records and bytes one stretch of an attempt may add. */
  datatype Scope = Scope(arm: Arm, attempt: Attempt, kinds: set<RecordKind>, texts: set<Digest>, jsons: set<Digest>) {
    function Id(kind: RecordKind): AttemptId { AttemptId(arm, attempt, kind) }
  }

  function One(arm: Arm, attempt: Attempt, kind: RecordKind): Scope { Scope(arm, attempt, {kind}, {}, {}) }

  /** New identifiers all belong to the scope. */
  ghost predicate UsedWithin(c: Custody, d: Custody, arm: Arm, attempt: Attempt, kinds: set<RecordKind>) {
    forall id :: id in Used(d) && id !in Used(c) ==> id.arm == arm && id.attempt == attempt && id.kind in kinds
  }

  /** Bytes outside the scope may be registered under exactly the media types they could before. */
  ghost predicate MediaWithin(c: Custody, d: Custody, s: Scope) {
    forall x, m :: MediaAllowed(c, x, m) && (x in s.texts ==> m == PlainText) && (x in s.jsons ==> m == Json) ==> MediaAllowed(d, x, m)
  }

  ghost predicate Progress(c: Custody, d: Custody, s: Scope) {
    CustodyGrows(c, d) && BytesHeld(d) && UsedWithin(c, d, s.arm, s.attempt, s.kinds) && MediaWithin(c, d, s)
  }

  lemma ProgressHeld(c: Custody, d: Custody, s: Scope)
    requires Progress(c, d, s)
    ensures CustodyGrows(c, d) && BytesHeld(d)
  {}

  /** A stretch of work that makes only `id` used. */
  ghost predicate Uses(c: Custody, d: Custody, id: AttemptId) { Used(d) <= Used(c) + {id} }

  function StreamKinds(): set<RecordKind> { {CandidateStdout, CandidateStderr, GraderStdout, GraderStderr} }
  function CommandKinds(): set<RecordKind> { {CandidateCommand, GraderCommand, CandidateValidation, GraderValidation} }
  function EvidenceKinds(): set<RecordKind> { {Materialization, ControllerEvidence, GraderEvidence} }
  function AllKinds(): set<RecordKind> { {Worktree} + StreamKinds() + CommandKinds() + EvidenceKinds() }

  lemma KindsApart()
    ensures StreamKinds() !! CommandKinds() && StreamKinds() !! EvidenceKinds() && CommandKinds() !! EvidenceKinds()
    ensures {Worktree} !! StreamKinds() && {Worktree} !! CommandKinds() && {Worktree} !! EvidenceKinds()
    ensures StreamKinds() <= AllKinds() && CommandKinds() <= AllKinds() && EvidenceKinds() <= AllKinds() && Worktree in AllKinds()
  {}

  /** No identifier of these kinds is taken in the scope's attempt. */
  predicate Unused(c: Custody, s: Scope, kinds: set<RecordKind>) {
    forall k :: k in kinds ==> s.Id(k) !in Used(c)
  }

  lemma UnusedAfter(c: Custody, d: Custody, s: Scope, taken: set<RecordKind>, kinds: set<RecordKind>)
    requires UsedWithin(c, d, s.arm, s.attempt, taken) && taken !! kinds && Unused(c, s, kinds)
    ensures Unused(d, s, kinds)
  {
    hide Used;
  }

  lemma UnusedCommands(c: Custody, s: Scope)
    ensures Unused(c, s, CommandKinds()) ==>
              s.Id(CandidateCommand) !in Used(c) && s.Id(GraderCommand) !in Used(c)
              && s.Id(CandidateValidation) !in Used(c) && s.Id(GraderValidation) !in Used(c)
  {
    hide Used;
  }

  predicate Covers(s: Scope, arm: Arm, attempt: Attempt, kind: RecordKind) {
    s.arm == arm && s.attempt == attempt && kind in s.kinds
  }

  /** The attempt's streams and materialisation can be registered side by side. */
  predicate Separable(c: Custody, s: Scope) {
    && s.texts !! s.jsons
    && (forall x :: x in s.texts ==> MediaAllowed(c, x, PlainText))
    && (forall x :: x in s.jsons ==> MediaAllowed(c, x, Json))
  }

  lemma GrowsNone(c: Custody)
    ensures CustodyGrows(c, c)
  {}

  lemma ProgressNone(c: Custody, s: Scope)
    requires BytesHeld(c)
    ensures Progress(c, c, s)
  {}

  /** A step inside a scope extends what has been done inside that scope. */
  lemma ProgressThen(c: Custody, d: Custody, e: Custody, s: Scope, step: Scope)
    requires Progress(c, d, s) && Progress(d, e, step)
    requires s.arm == step.arm && s.attempt == step.attempt
    requires step.kinds <= s.kinds && step.texts <= s.texts && step.jsons <= s.jsons
    ensures Progress(c, e, s)
  {
    CustodyGrowsTransitive(c, d, e);
    hide CustodyGrows, BytesHeld, MediaAllowed, Used;
  }

  lemma WorktreeStands(c: Custody, d: Custody, id: AttemptId)
    requires CustodyGrows(c, d) && id in c.worktrees
    ensures id in d.worktrees
  {}

  lemma CommandStands(c: Custody, d: Custody, id: AttemptId, run: RunId, base: Sha)
    requires CustodyGrows(c, d) && CommandSucceeded(c, id, run, base)
    ensures CommandSucceeded(d, id, run, base) && d.commands[id] == c.commands[id]
  {}

  lemma ValidationStands(c: Custody, d: Custody, id: AttemptId, run: RunId, base: Sha)
    requires CustodyGrows(c, d) && ValidationSucceeded(c, id, run, base)
    ensures ValidationSucceeded(d, id, run, base) && d.validations[id] == c.validations[id]
    ensures d.commands[d.validations[id].command] == c.commands[c.validations[id].command]
  {}

  lemma EvidenceStands(c: Custody, d: Custody, id: AttemptId, run: RunId, base: Sha)
    requires CustodyGrows(c, d) && EvidenceSucceeded(c, id, run, base)
    ensures EvidenceSucceeded(d, id, run, base) && d.evidence[id] == c.evidence[id]
    ensures d.validations[d.evidence[id].validation] == c.validations[c.evidence[id].validation]
    ensures d.commands[d.validations[d.evidence[id].validation].command] == c.commands[c.validations[c.evidence[id].validation].command]
  {}

  lemma BoundStands(c: Custody, d: Custody, artifact: Digest, run: RunId)
    requires CustodyGrows(c, d) && BoundTo(c, artifact, run)
    ensures BoundTo(d, artifact, run)
  {}

  /** An attempt of one arm leaves fresh attempts of the other arm fresh. */
  lemma {:induction false} OtherArmFresh(c: Custody, d: Custody, s: Scope, arm: Arm, attempt: Attempt)
    requires Progress(c, d, s) && FreshAttempt(c, arm, attempt) && s.arm != arm
    ensures FreshAttempt(d, arm, attempt)
  {
    hide CustodyGrows, BytesHeld, MediaAllowed, Used;
  }

  lemma StillSeparable(c: Custody, d: Custody, s: Scope, u: Scope)
    requires Progress(c, d, s) && Separable(c, u)
    requires u.texts !! s.jsons && u.jsons !! s.texts
    ensures Separable(d, u)
  {
    hide CustodyGrows, BytesHeld, MediaAllowed, Used;
  }

  lemma StillAllowed(c: Custody, d: Custody, s: Scope, digest: Digest, media: Media)
    requires Progress(c, d, s) && MediaAllowed(c, digest, media)
    requires (digest in s.texts ==> media == PlainText) && (digest in s.jsons ==> media == Json)
    ensures MediaAllowed(d, digest, media)
  {
    hide CustodyGrows, BytesHeld, MediaAllowed, Used;
  }

  // -------------------------------------------------- single attempt-scoped writes

  function MediaScope(arm: Arm, attempt: Attempt, kind: RecordKind, digest: Digest, media: Media): Scope {
    match media
    case PlainText => Scope(arm, attempt, {kind}, {digest}, {})
    case Json => Scope(arm, attempt, {kind}, {}, {digest})
  }

  /** A write of one record that leaves registered bytes alone. */
  lemma OneProgress(c: Custody, d: Custody, id: AttemptId)
    requires CustodyGrows(c, d) && BytesHeld(d) && Used(d) <= Used(c) + {id} && d.artifacts == c.artifacts
    ensures Progress(c, d, One(id.arm, id.attempt, id.kind)) && Uses(c, d, id)
  {
    hide CustodyGrows, BytesHeld, Used;
  }

  lemma WorktreeProgress(c: Custody, id: AttemptId, row: WorktreeRow)
    requires BytesHeld(c)
    ensures CreateWorktree(c, id, row).Commit? ==>
              Progress(c, CreateWorktree(c, id, row).state, One(id.arm, id.attempt, id.kind))
              && Uses(c, CreateWorktree(c, id, row).state, id)
              && id in CreateWorktree(c, id, row).state.worktrees
    ensures id !in Used(c) ==> CreateWorktree(c, id, row).Commit?
  {
    hide Progress;
    if CreateWorktree(c, id, row).Commit? { OneProgress(c, CreateWorktree(c, id, row).state, id); }
  }

  lemma RemovedProgress(c: Custody, id: AttemptId)
    requires BytesHeld(c) && id in c.worktrees
    ensures MarkWorktreeRemoved(c, id).Commit?
    ensures Progress(c, MarkWorktreeRemoved(c, id).state, One(id.arm, id.attempt, id.kind))
  {}

  lemma BlobProgress(c: Custody, digest: Digest, s: Scope)
    requires BytesHeld(c)
    ensures Progress(c, PutBlob(c, digest).state, s)
  {}

  lemma PutBlobFacts(c: Custody, digest: Digest)
    requires BytesHeld(c)
    ensures var d := PutBlob(c, digest).state;
            BytesHeld(d) && Used(d) == Used(c) && digest in d.blobs && forall x, m :: MediaAllowed(d, x, m) == MediaAllowed(c, x, m)
  {}

  lemma RegisterGrows(c: Custody, digest: Digest, row: ArtifactRow)
    requires BytesHeld(c) && RegisterArtifact(c, digest, row).Commit?
    ensures var d := RegisterArtifact(c, digest, row).state;
            CustodyGrows(c, d) && BytesHeld(d) && BoundTo(d, digest, row.run)
  {
    RegisterKeepsRest(c, digest, row);
    RegisterKeepsBytes(c, digest, row);
    hide RegisterArtifact;
  }

  lemma RegisterKeepsRest(c: Custody, digest: Digest, row: ArtifactRow)
    requires RegisterArtifact(c, digest, row).Commit?
    ensures CustodyGrows(c, RegisterArtifact(c, digest, row).state)
  {}

  lemma RegisterKeepsBytes(c: Custody, digest: Digest, row: ArtifactRow)
    requires BytesHeld(c) && RegisterArtifact(c, digest, row).Commit?
    ensures BytesHeld(RegisterArtifact(c, digest, row).state) && BoundTo(RegisterArtifact(c, digest, row).state, digest, row.run)
  {}

  lemma RegisterUses(c: Custody, digest: Digest, row: ArtifactRow)
    requires RegisterArtifact(c, digest, row).Commit?
    ensures Used(RegisterArtifact(c, digest, row).state) <= Used(c) + {row.owner}
  {}

  lemma RegisterMedia(c: Custody, digest: Digest, row: ArtifactRow, x: Digest, m: Media)
    requires RegisterArtifact(c, digest, row).Commit? && MediaAllowed(c, x, m) && (x == digest ==> m == row.media)
    ensures MediaAllowed(RegisterArtifact(c, digest, row).state, x, m)
  {}

  lemma {:induction false} RegisterProgress(c: Custody, digest: Digest, row: ArtifactRow)
    requires BytesHeld(c) && RegisterArtifact(c, digest, row).Commit?
    ensures var d := RegisterArtifact(c, digest, row).state;
            Progress(c, d, MediaScope(row.owner.arm, row.owner.attempt, row.owner.kind, digest, row.media))
            && BoundTo(d, digest, row.run) && Uses(c, d, row.owner)
  {
    hide RegisterArtifact, CustodyGrows, BytesHeld, MediaAllowed, Used;
    RegisterGrows(c, digest, row);
    RegisterUses(c, digest, row);
    forall x, m | MediaAllowed(c, x, m) && (x == digest ==> m == row.media)
      ensures MediaAllowed(RegisterArtifact(c, digest, row).state, x, m)
    {
      RegisterMedia(c, digest, row, x, m);
    }
  }

  lemma RegisterOutcome(c: Custody, digest: Digest, row: ArtifactRow)
    requires digest in c.blobs && row.owner !in Used(c) && MediaAllowed(c, digest, row.media)
    ensures RegisterArtifact(c, digest, row).Commit?
  {}

  lemma {:induction false} CommandProgress(c: Custody, id: AttemptId, row: CommandRow)
    requires BytesHeld(c)
    ensures RecordCommand(c, id, row).Commit? ==>
              Progress(c, RecordCommand(c, id, row).state, One(id.arm, id.attempt, id.kind))
              && Uses(c, RecordCommand(c, id, row).state, id)
              && id in RecordCommand(c, id, row).state.commands && RecordCommand(c, id, row).state.commands[id] == row
    ensures id !in Used(c) ==> RecordCommand(c, id, row).Commit?
  {
    hide Progress;
    if RecordCommand(c, id, row).Commit? { OneProgress(c, RecordCommand(c, id, row).state, id); }
  }

  lemma {:induction false} ValidationProgress(c: Custody, id: AttemptId, row: ValidationRow)
    requires BytesHeld(c)
    ensures RecordValidation(c, id, row).Commit? ==>
              Progress(c, RecordValidation(c, id, row).state, One(id.arm, id.attempt, id.kind))
              && Uses(c, RecordValidation(c, id, row).state, id)
              && id in RecordValidation(c, id, row).state.validations && RecordValidation(c, id, row).state.validations[id] == row
    ensures id !in Used(c) ==> RecordValidation(c, id, row).Commit?
  {
    hide Progress;
    if RecordValidation(c, id, row).Commit? { OneProgress(c, RecordValidation(c, id, row).state, id); }
  }

  lemma {:induction false} EvidenceProgress(c: Custody, id: AttemptId, row: EvidenceRow)
    requires BytesHeld(c)
    ensures RecordEvidence(c, id, row).Commit? ==>
              Progress(c, RecordEvidence(c, id, row).state, One(id.arm, id.attempt, id.kind))
              && Uses(c, RecordEvidence(c, id, row).state, id)
              && id in RecordEvidence(c, id, row).state.evidence && RecordEvidence(c, id, row).state.evidence[id] == row
    ensures id !in Used(c) && BoundTo(c, row.artifact, row.run) ==> RecordEvidence(c, id, row).Commit?
  {
    hide Progress;
    if RecordEvidence(c, id, row).Commit? { OneProgress(c, RecordEvidence(c, id, row).state, id); }
  }
}
