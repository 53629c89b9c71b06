/**
  What a commit of each store transaction guarantees, record by record, whatever the tables
  hold: it commits exactly when these facts hold of them, and then writes exactly this.
 */
module EvaluationCommits {
  import opened Options
  import opened EvaluationStore

  // ------------------------------------------------------------------- membership

  /** The case's first row in a taskset. */
  ghost predicate ListedAt(rows: seq<Member>, id: RevisionId, ordinal: nat) {
    exists i :: 0 <= i < |rows| && rows[i] == Member(id, ordinal) && forall j :: 0 <= j < i ==> rows[j].caseRevision != id
  }

  ghost predicate Listed(rows: seq<Member>, id: RevisionId) { exists i :: 0 <= i < |rows| && rows[i].caseRevision == id }

  predicate InOrder(rows: seq<Member>) { forall i, j :: 0 <= i < j < |rows| ==> rows[i].ordinal < rows[j].ordinal }

  lemma ListedStep(rows: seq<Member>, id: RevisionId, n: nat)
    requires rows != []
    ensures ListedAt(rows, id, n) <==> if rows[0].caseRevision == id then rows[0].ordinal == n else ListedAt(rows[1..], id, n)
  {
    var rest := rows[1..];
    if i :| 0 <= i < |rows| && rows[i] == Member(id, n) && forall j :: 0 <= j < i ==> rows[j].caseRevision != id {
      if i > 0 {
        assert rest[i - 1] == rows[i] && forall j :: 0 <= j < i - 1 ==> rest[j] == rows[j + 1];
      }
    }
    if rows[0] == Member(id, n) { assert ListedAt(rows, id, n); }
    if rows[0].caseRevision != id && ListedAt(rest, id, n) {
      var i :| 0 <= i < |rest| && rest[i] == Member(id, n) && forall j :: 0 <= j < i ==> rest[j].caseRevision != id;
      assert rows[i + 1] == rest[i] && forall j :: 1 <= j < i + 1 ==> rows[j] == rest[j - 1];
    }
  }

  lemma {:induction false} OrdinalAt(rows: seq<Member>, id: RevisionId, n: nat)
    ensures MemberOrdinal(rows, id) == Some(n) <==> ListedAt(rows, id, n)
  {
    if rows != [] {
      ListedStep(rows, id, n);
      hide ListedAt;
      OrdinalAt(rows[1..], id, n);
    }
  }

  lemma {:induction false} OrdinalFound(rows: seq<Member>, id: RevisionId)
    ensures MemberOrdinal(rows, id).Some? <==> Listed(rows, id)
  {
    if rows != [] {
      OrdinalFound(rows[1..], id);
      assert forall i :: 1 <= i < |rows| ==> rows[i] == rows[1..][i - 1];
    }
  }

  lemma OrdinalExact(rows: seq<Member>, id: RevisionId)
    ensures forall n: nat :: MemberOrdinal(rows, id) == Some(n) <==> ListedAt(rows, id, n)
    ensures MemberOrdinal(rows, id).Some? <==> Listed(rows, id)
  {
    hide MemberOrdinal, ListedAt, Listed;
    OrdinalFound(rows, id);
    forall n: nat ensures MemberOrdinal(rows, id) == Some(n) <==> ListedAt(rows, id, n) { OrdinalAt(rows, id, n); }
  }

  lemma {:induction false} InsertedOnce(rows: seq<Member>, row: Member)
    ensures multiset(InsertMember(rows, row)) == multiset(rows) + multiset{row}
  {
    if rows != [] {
      InsertedOnce(rows[1..], row);
      assert rows == [rows[0]] + rows[1..];
    }
  }

  /** A new row goes where its ordinal belongs. */
  lemma {:induction false} InsertedInOrder(rows: seq<Member>, row: Member)
    requires InOrder(rows) && forall i :: 0 <= i < |rows| ==> rows[i].ordinal != row.ordinal
    ensures InOrder(InsertMember(rows, row)) && multiset(InsertMember(rows, row)) == multiset(rows) + multiset{row}
  {
    InsertedOnce(rows, row);
    if rows != [] && row.ordinal >= rows[0].ordinal {
      var rest := InsertMember(rows[1..], row);
      InsertedInOrder(rows[1..], row);
      forall i | 0 <= i < |rest| ensures rows[0].ordinal < rest[i].ordinal {
        assert rest[i] in multiset(rest);
        assert rest[i] == row || rest[i] in rows[1..];
      }
      hide InsertMember;
      assert InOrder([rows[0]] + rest);
    }
  }

  /**
    A case joins a taskset exactly when both revisions are there, the taskset's manifest pins the
    case, and it is a member at that place already, or is none, the place is free and no
    evaluation of the taskset has been launched.
   */
  lemma MembershipCommits(t: Tables, taskset: RevisionId, id: RevisionId, ordinal: nat)
    ensures var rows := if taskset in t.memberships then t.memberships[taskset] else [];
            var r := AppendMembership(t, taskset, id, ordinal);
            && (r.Commit? <==>
                  && taskset == TasksetRevision && taskset in t.revisions && t.revisions[taskset].payload.TasksetWire?
                  && id == CaseRevision && id in t.revisions && t.revisions[id].payload.CaseWire?
                  && t.revisions[id].wireDigest in t.revisions[taskset].payload.cases
                  && (|| ListedAt(rows, id, ordinal)
                      || (&& !Listed(rows, id) && (forall row :: row in rows ==> row.ordinal != ordinal)
                          && forall e :: e in t.evaluations ==> t.evaluations[e].taskset != taskset)))
            && (r.Commit? && Listed(rows, id) ==> r.state == t)
            && (r.Commit? && !Listed(rows, id) ==> r.state == t.(memberships := t.memberships[taskset := InsertMember(rows, Member(id, ordinal))]))
  {
    var rows := if taskset in t.memberships then t.memberships[taskset] else [];
    OrdinalExact(rows, id);
    hide MemberOrdinal, InsertMember, ListedAt, Listed;
  }

  // --------------------------------------------------------------------- the launch

  /** One member of a taskset: a case of this repository and base, pinned by the manifest and graded by this bundle. */
  predicate CasePinned(t: Tables, id: RevisionId, pin: Digest, grader: Digest, repository: RepositoryId, base: Sha) {
    && id == CaseRevision && id in t.revisions && t.revisions[id].payload.CaseWire? && t.revisions[id].wireDigest == pin
    && t.revisions[id].payload.grader == grader && t.revisions[id].payload.repository == repository && t.revisions[id].payload.base == base
  }

  /** What a launch needs of the tables. */
  ghost predicate Launchable(t: Tables, e: Evaluation) {
    && e.controller in t.runs && t.runs[e.controller].base == e.base
    && e.taskset == TasksetRevision && e.taskset in t.revisions && t.revisions[e.taskset].payload.TasksetWire?
    && e.grader == GraderRevision && e.grader in t.revisions && t.revisions[e.grader].payload.GraderWire?
    && e.taskset in t.memberships
    && var rows, pins := t.memberships[e.taskset], t.revisions[e.taskset].payload.cases;
       && |rows| == |pins| && rows != []
       && forall i :: 0 <= i < |rows| ==>
            CasePinned(t, rows[i].caseRevision, pins[i], t.revisions[e.grader].wireDigest, t.runs[e.controller].repository, e.base)
  }

  /** An evaluation starts, recording, exactly when it can be launched and is new or the same. */
  lemma StartCommits(t: Tables, id: EvaluationId, e: Evaluation)
    ensures var r := StartEvaluation(t, id, e);
            && (r.Commit? <==> Launchable(t, e) && (id in t.evaluations ==> t.evaluations[id] == e))
            && (r.Commit? && id in t.evaluations ==> r.state == t)
            && (r.Commit? && id !in t.evaluations ==>
                  r.state == t.(evaluations := t.evaluations[id := e], statuses := t.statuses[id := [StatusRow(Recording, e.runtime)]]))
  {}

  // --------------------------------------------------------------------- the statuses

  predicate LatestIs(t: Tables, id: EvaluationId, s: Status) {
    id in t.statuses && t.statuses[id] != [] && t.statuses[id][|t.statuses[id]| - 1].status == s
  }

  /** A status is appended to an evaluation that is valid: once, from Recording to Completed; or it is a replay of that very row. */
  lemma StatusCommits(t: Tables, id: EvaluationId, row: StatusRow)
    ensures var r := AppendStatus(t, id, row);
            var later := if id in t.statuses && t.statuses[id] != [] then t.statuses[id][1..] else [];
            var said := exists x :: x in later && x.status == row.status;
            && (r.Commit? <==>
                  && id in t.evaluations && id in t.statuses && id !in t.invalidEvaluations
                  && if said then row in later else LatestIs(t, id, Recording) && row.status == Completed)
            && (r.Commit? && said ==> r.state == t)
            && (r.Commit? && !said ==> r.state == t.(statuses := t.statuses[id := t.statuses[id] + [row]]))
  {
    if id in t.statuses && t.statuses[id] != [] {
      var rows := t.statuses[id];
      assert forall i :: 0 < i < |rows| ==> rows[i] == rows[1..][i - 1];
      if x :| x in rows[1..] && x.status == row.status {
        var i :| 0 <= i < |rows[1..]| && rows[1..][i] == x;
        assert rows[i + 1] == x;
      }
    }
  }

  // ----------------------------------------------------------------------- the sample

  /** Evidence of a run at a base: it, the validation it names and the command that names, all of that run and base, all successful. */
  predicate Joined(c: Custody, id: AttemptId, run: RunId, base: Sha) {
    && id in c.evidence
    && var e := c.evidence[id];
    && e.run == run && e.source == base && e.result == Success && e.validation in c.validations
    && var v := c.validations[e.validation];
    && v.run == run && v.source == base && v.result == Success && v.command in c.commands
    && var m := c.commands[v.command];
       m.run == run && m.source == base && m.result == Success
  }

  function CommandOf(c: Custody, id: AttemptId): Digest
    requires id in c.evidence && c.evidence[id].validation in c.validations && c.validations[c.evidence[id].validation].command in c.commands
  {
    c.commands[c.validations[c.evidence[id].validation].command].command
  }

  /** Everything a recorded sample is bound to. */
  ghost predicate SampleBound(t: Tables, c: Custody, s: Sample) {
    && s.evaluation in t.evaluations && s.evaluation !in t.invalidEvaluations && LatestIs(t, s.evaluation, Recording)
    && s.caseRevision == CaseRevision && s.caseRevision in t.revisions && t.revisions[s.caseRevision].payload.CaseWire?
    && var e, w, k := t.evaluations[s.evaluation], s.wire, t.revisions[s.caseRevision];
    && Listed(if e.taskset in t.memberships then t.memberships[e.taskset] else [], s.caseRevision)
    && e.taskset in t.revisions && e.grader in t.revisions
    && w.caseDigest == k.wireDigest && w.setup == k.payload.setup
    && w.tasksetDigest == t.revisions[e.taskset].payloadDigest && w.graderDigest == t.revisions[e.grader].payloadDigest
    && w.base == e.base && w.fixture == e.fixture && w.runtime == e.runtime && w.policy == e.championPolicy && s.arm == Champion
    && w.classification in {Pass, Fail} && w.artifact in c.blobs
    && s.controllerEvidence != s.graderEvidence
    && Joined(c, s.controllerEvidence, e.controller, e.base) && CommandOf(c, s.controllerEvidence) == w.command
    && Joined(c, s.graderEvidence, e.controller, e.base)
    && c.evidence[s.graderEvidence].digest == w.evidence && c.evidence[s.graderEvidence].artifact == w.artifact
    && w.artifact in c.artifacts && (c.artifacts[w.artifact].run == e.controller || (w.artifact, e.controller) in c.bindings)
  }

  /** A sample is recorded exactly when it agrees with every record it rests on, and is new or the same. */
  lemma SampleCommits(t: Tables, c: Custody, id: SampleId, s: Sample)
    ensures var r := RecordSample(t, c, id, s);
            && (r.Commit? <==> SampleBound(t, c, s) && (id in t.samples ==> t.samples[id] == s))
            && (r.Commit? ==> r.value == s && r.state == t.(samples := t.samples[id := s]))
  {
    if s.evaluation in t.evaluations {
      var e := t.evaluations[s.evaluation];
      OrdinalExact(if e.taskset in t.memberships then t.memberships[e.taskset] else [], s.caseRevision);
      CandidateJoined(c, s.controllerEvidence, e.controller, s.wire.base, s.wire.command);
      GraderJoined(c, s.graderEvidence, e.controller, s.wire.base, s.wire.evidence, s.wire.artifact);
    }
    if id in t.samples && t.samples[id] == s { assert t.samples[id := s] == t.samples; }
    hide MemberOrdinal, Listed, ListedAt, CandidateChain, GraderChain, Joined;
  }

  lemma CandidateJoined(c: Custody, id: AttemptId, run: RunId, base: Sha, command: Digest)
    ensures CandidateChain(c, id, run, base, command) <==> Joined(c, id, run, base) && CommandOf(c, id) == command
    ensures Joined(c, id, run, base) ==>
              id in c.evidence && c.evidence[id].validation in c.validations && c.validations[c.evidence[id].validation].command in c.commands
  {}

  lemma GraderJoined(c: Custody, id: AttemptId, run: RunId, base: Sha, evidence: Digest, artifact: Digest)
    ensures GraderChain(c, id, run, base, evidence, artifact) <==>
              && Joined(c, id, run, base) && c.evidence[id].digest == evidence && c.evidence[id].artifact == artifact
              && artifact in c.artifacts && (c.artifacts[artifact].run == run || (artifact, run) in c.bindings)
    ensures Joined(c, id, run, base) ==> id in c.evidence
  {}

  // ------------------------------------------------------------------ plain records

  /** Runs are new; wires are new or replayed with the same payload; commands and validations are new or the same. */
  lemma RecordsCommit(t: Tables, c: Custody, run: RunId, runRow: Run, id: RevisionId, wire: Revision,
                      command: AttemptId, commandRow: CommandRow, validation: AttemptId, validationRow: ValidationRow)
    ensures CreateRun(t, run, runRow)
         == if run in t.runs then Abort(Conflict) else Commit(t.(runs := t.runs[run := runRow]), ())
    ensures id !in t.revisions ==> AppendRevision(t, id, wire) == Commit(t.(revisions := t.revisions[id := wire]), ())
    ensures id in t.revisions ==>
              AppendRevision(t, id, wire) == if t.revisions[id].payloadDigest == wire.payloadDigest then Commit(t, ()) else Abort(Conflict)
    ensures RecordCommand(c, command, commandRow).Commit? <==> (command in c.commands ==> c.commands[command] == commandRow)
    ensures RecordCommand(c, command, commandRow).Commit? ==>
              RecordCommand(c, command, commandRow).state == c.(commands := c.commands[command := commandRow])
    ensures RecordValidation(c, validation, validationRow).Commit? <==> (validation in c.validations ==> c.validations[validation] == validationRow)
    ensures RecordValidation(c, validation, validationRow).Commit? ==>
              RecordValidation(c, validation, validationRow).state == c.(validations := c.validations[validation := validationRow])
  {
    if command in c.commands && c.commands[command] == commandRow { assert c.commands[command := commandRow] == c.commands; }
    if validation in c.validations && c.validations[validation] == validationRow { assert c.validations[validation := validationRow] == c.validations; }
  }

  /** A worktree record is new, the same, or the same but active again; removing it needs it there and only ends its activity. */
  lemma WorktreeCommits(c: Custody, id: AttemptId, row: WorktreeRow)
    ensures CreateWorktree(c, id, row).Commit? <==>
              (id in c.worktrees ==> c.worktrees[id].(active := row.active) == row && (row.active || !c.worktrees[id].active))
    ensures CreateWorktree(c, id, row).Commit? ==> CreateWorktree(c, id, row).state == c.(worktrees := c.worktrees[id := row])
    ensures MarkWorktreeRemoved(c, id).Commit? <==> id in c.worktrees
    ensures MarkWorktreeRemoved(c, id).Commit? ==>
              MarkWorktreeRemoved(c, id).state == c.(worktrees := c.worktrees[id := c.worktrees[id].(active := false)])
  {
    if id in c.worktrees && c.worktrees[id] == row { assert c.worktrees[id := row] == c.worktrees; }
  }

  /** Evidence is the same as before, or new and about bytes that are bound to its run. */
  lemma EvidenceCommits(c: Custody, id: AttemptId, row: EvidenceRow)
    ensures RecordEvidence(c, id, row).Commit? <==>
              if id in c.evidence then c.evidence[id] == row
              else row.artifact in c.artifacts && (c.artifacts[row.artifact].run == row.run || (row.artifact, row.run) in c.bindings)
    ensures RecordEvidence(c, id, row).Commit? ==> RecordEvidence(c, id, row).state == c.(evidence := c.evidence[id := row])
  {
    if id in c.evidence && c.evidence[id] == row { assert c.evidence[id := row] == c.evidence; }
  }

  /** Bytes in custody are registered once, by their first owner; later owners only bind them to their run, under the same media type. */
  lemma ArtifactCommits(c: Custody, digest: Digest, row: ArtifactRow)
    ensures var r := RegisterArtifact(c, digest, row);
            && (r.Commit? <==>
                  && digest in c.blobs
                  && (row.owner in c.artifactIds ==> c.artifactIds[row.owner] == digest && digest in c.artifacts && c.artifacts[digest] == row)
                  && (digest in c.artifacts ==> c.artifacts[digest].media == row.media))
            && (r.Commit? ==> (digest, row.run) in r.state.bindings && digest in r.state.artifacts)
            && (r.Commit? && digest in c.artifacts ==> r.state == c.(bindings := c.bindings + {(digest, row.run)}))
            && (r.Commit? && digest !in c.artifacts ==>
                  r.state == c.(artifacts := c.artifacts[digest := row], artifactIds := c.artifactIds[row.owner := digest],
                                bindings := c.bindings + {(digest, row.run)}))
  {}

  /** A sweep takes exactly the commands older than the cutoff, all of them or, if a validation names one, none. */
  lemma SweepCommits(c: Custody, cutoff: int)
    ensures var r := SweepCommands(c, cutoff);
            && (r.Commit? <==> forall v :: v in c.validations && c.validations[v].command in c.commands ==>
                                 c.commands[c.validations[v].command].completedAt >= cutoff)
            && (r.Commit? ==> r.state == c.(commands := r.state.commands))
            && (r.Commit? ==> forall id :: id in r.state.commands <==> id in c.commands && c.commands[id].completedAt >= cutoff)
            && (r.Commit? ==> forall id :: id in r.state.commands ==> r.state.commands[id] == c.commands[id])
  {
    if v :| v in c.validations && c.validations[v].command in c.commands && c.commands[c.validations[v].command].completedAt < cutoff {
      assert Named(c, c.validations[v].command) && Aged(c, c.validations[v].command, cutoff);
    }
  }

  /** What the reads return: an invalidated sample is a conflict, and an evaluation has its newest status. */
  lemma ReadsExact(t: Tables, sample: SampleId, evaluation: EvaluationId)
    ensures forall s :: FindSample(t, sample) == Ok(s) <==>
              sample in t.samples && t.samples[sample] == s && sample !in t.invalidSamples && s.evaluation !in t.invalidEvaluations
    ensures FindSample(t, sample) == Err(Rejected(NotFound)) <==> sample !in t.samples
    ensures forall e :: FindEvaluation(t, evaluation) == Ok(e) <==>
              && evaluation in t.evaluations && LatestIs(t, evaluation, e.status)
              && e.controller == t.evaluations[evaluation].controller && (e.invalidated <==> evaluation in t.invalidEvaluations)
  {}
}
