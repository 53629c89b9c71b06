/**
  The one-shot evaluation controller.  Every store call consults a fault schedule, so a
  stop after any durable write (all later calls fail) and any isolated store error are
  both covered.  What git, the sandbox and the commands do is an arbitrary script.
 */
module EvaluationController {
  import opened Options
  import opened EvaluationStore
  import opened EvaluationChain
  import opened EvaluationCustody

  // ------------------------------------------------- what an arm's run can produce

  datatype Command = Command(timedOut: bool, exitCode: Option<int>, stdout: Digest, stderr: Digest, startedAt: int, duration: nat) {
    predicate Succeeded() { !timedOut && exitCode == Some(0) }

    function Class(): ResultClass {
      if timedOut then ResultUnavailable else if exitCode == Some(0) then Success else SourceFailure
    }
  }

  /** One sandboxed run of candidate and grader; `pinsValid` is the shape of isolation pins and manifests. */
  datatype Observation = Observation(
    available: bool, candidate: Option<Command>, grader: Option<Command>, pinsValid: bool,
    manifests: Digest, materialization: Digest)

  datatype ArmScript = ArmScript(
    attempt: Attempt, created: bool, head: Sha, observed: Option<Observation>, discarded: bool, removed: bool)

  datatype Signal = HistoricalBugReproduced | FixedBoundEnforced

  datatype Receipt = Receipt(
    arm: Arm, signal: Signal, materializedArm: Arm, materializedBase: Sha,
    fixture: Digest, setup: Digest, command: Digest, pinsValid: bool,
    available: bool, classification: Classification, exitSuccess: bool, digest: Digest)

  datatype Grade = GradePass | GradeFail | GradeUnavailable | GradeInvalid

  function ExpectedSignal(arm: Arm): Signal {
    match arm case Historical => HistoricalBugReproduced case Fixed => FixedBoundEnforced
  }

  function ExpectedClass(arm: Arm): Classification {
    match arm case Historical => Fail case Fixed => Pass
  }

  predicate ReceiptVerifies(h: Hash, r: Receipt) {
    && r.signal == ExpectedSignal(r.arm)
    && r.materializedArm == r.arm && r.materializedBase == PinnedBase(r.arm)
    && r.fixture == FixtureDigest(h, r.arm)
    && r.setup == SetupDigest(h, r.arm, PinnedBase(r.arm))
    && r.command == h(FixtureCommand)
    && r.pinsValid
  }

  function GradeReceipt(h: Hash, r: Receipt): Grade {
    if !ReceiptVerifies(h, r) then GradeInvalid
    else if !r.available || r.classification == InfrastructureUnavailable then GradeUnavailable
    else if r.classification == ExpectedClass(r.arm) && r.exitSuccess then GradePass
    else GradeFail
  }

  /** The receipt the controller builds from what it observed. */
  function BuildReceipt(h: Hash, arm: Arm, base: Sha, o: Observation): Receipt {
    var success := o.candidate.Some? && o.candidate.value.Succeeded() && o.grader.Some? && o.grader.value.Succeeded();
    var classification :=
      if !o.available then InfrastructureUnavailable else if success then ExpectedClass(arm) else Invalidated;
    Receipt(arm, ExpectedSignal(arm), arm, base, FixtureDigest(h, arm), SetupDigest(h, arm, base), h(FixtureCommand),
            o.pinsValid, o.available, classification, success, h(ReceiptBody(arm, o.manifests, classification)))
  }

  function StreamsOf(command: Option<Command>): set<Digest> {
    if command.Some? then {command.value.stdout, command.value.stderr} else {}
  }

  /** All that one attempt of an arm may write. */
  function ArmScope(arm: Arm, script: ArmScript): Scope {
    match script.observed
    case None => Scope(arm, script.attempt, AllKinds(), {}, {})
    case Some(o) => Scope(arm, script.attempt, AllKinds(), StreamsOf(o.candidate) + StreamsOf(o.grader), {o.materialization})
  }

  /** Git, sandbox, candidate, grader and clean-up all do what they should. */
  predicate WellBehaved(arm: Arm, script: ArmScript) {
    && script.created && script.head == PinnedBase(arm) && script.discarded && script.removed
    && script.observed.Some?
    && var o := script.observed.value;
       && o.available && o.pinsValid
       && o.candidate.Some? && o.candidate.value.Succeeded()
       && o.grader.Some? && o.grader.value.Succeeded()
  }

  lemma PassingReceipt(h: Hash, arm: Arm, o: Observation)
    ensures var r := BuildReceipt(h, arm, PinnedBase(arm), o);
            GradeReceipt(h, r) == GradePass <==>
              && o.available && o.pinsValid
              && o.candidate.Some? && o.candidate.value.Succeeded() && o.grader.Some? && o.grader.value.Succeeded()
  {}

  datatype PersistedArm = PersistedArm(
    receipt: Receipt, controllerEvidence: AttemptId, graderEvidence: AttemptId,
    evidenceDigest: Digest, artifactDigest: Digest, commandDigest: Digest)

  // ------------------------------------------------------------------- the store

  class Store {
    var tables: Tables
    var custody: Custody
    var repositories: seq<(RepositoryId, string)>
    var calls: nat
    var faults: nat -> bool

    constructor ()
      ensures tables == EMPTY && custody == EMPTY_CUSTODY && repositories == []
    {
      tables := EMPTY;
      custody := EMPTY_CUSTODY;
      repositories := [];
      calls := 0;
      faults := n => false;
    }

    ghost predicate Quiet()
      reads this
    {
      forall n :: calls <= n ==> !faults(n)
    }

    /** Commit a transaction on the authority tables, unless this call is scheduled to fail. */
    method Authorize<T>(outcome: Outcome<Tables, T>) returns (r: Result<T>)
      modifies this`tables, this`calls
      ensures r == if old(faults(calls)) then Err(Unavailable)
                   else if outcome.Commit? then Ok(outcome.value) else Err(Rejected(outcome.reason))
      ensures tables == if r.Ok? then outcome.state else old(tables)
      ensures old(Quiet()) ==> Quiet() && !old(faults(calls))
    {
      r := if faults(calls) then Err(Unavailable) else if outcome.Commit? then Ok(outcome.value) else Err(Rejected(outcome.reason));
      if r.Ok? {
        tables := outcome.state;
      }
      calls := calls + 1;
    }

    /** Commit a transaction on the attempt-scoped tables, unless this call is scheduled to fail. */
    method Keep(outcome: Outcome<Custody, ()>) returns (r: Result<()>)
      modifies this`custody, this`calls
      ensures r == if old(faults(calls)) then Err(Unavailable)
                   else if outcome.Commit? then Ok(()) else Err(Rejected(outcome.reason))
      ensures custody == if r.Ok? then outcome.state else old(custody)
      ensures old(Quiet()) ==> Quiet() && !old(faults(calls))
    {
      r := if faults(calls) then Err(Unavailable) else if outcome.Commit? then Ok(()) else Err(Rejected(outcome.reason));
      if r.Ok? {
        custody := outcome.state;
      }
      calls := calls + 1;
    }

    method Ask<T>(answer: Result<T>) returns (r: Result<T>)
      modifies this`calls
      ensures r == if old(faults(calls)) then Err(Unavailable) else answer
      ensures old(Quiet()) ==> Quiet() && !old(faults(calls))
    {
      r := if faults(calls) then Err(Unavailable) else answer;
      calls := calls + 1;
    }
  }

  /** The records of a persisted arm, as the later steps rely on them. */
  ghost predicate PersistedFrom(h: Hash, c: Custody, arm: Arm, attempt: Attempt, p: PersistedArm) {
    && AttemptTrusted(h, c, arm, attempt)
    && GradeReceipt(h, p.receipt) == GradePass && p.receipt.arm == arm
    && p.controllerEvidence == AttemptId(arm, attempt, ControllerEvidence)
    && p.graderEvidence == AttemptId(arm, attempt, GraderEvidence)
    && p.commandDigest == h(CandidateCommandWire)
    && GraderChain(c, p.graderEvidence, ControllerRun(arm), PinnedBase(arm), p.evidenceDigest, p.artifactDigest)
  }

  ghost predicate OnlyWorktreeUsed(c: Custody, s: Scope) {
    Unused(c, s, StreamKinds()) && Unused(c, s, CommandKinds()) && Unused(c, s, EvidenceKinds())
  }

  lemma FreshWorktree(c: Custody, s: Scope)
    requires FreshAttempt(c, s.arm, s.attempt)
    ensures AttemptId(s.arm, s.attempt, Worktree) !in Used(c)
  {}

  lemma RestUnused(c: Custody, d: Custody, s: Scope)
    requires FreshAttempt(c, s.arm, s.attempt) && Progress(c, d, One(s.arm, s.attempt, Worktree))
    ensures OnlyWorktreeUsed(d, s)
  {
    hide CustodyGrows, BytesHeld, Used, MediaWithin;
  }

  lemma PersistedStands(h: Hash, c: Custody, d: Custody, arm: Arm, attempt: Attempt, p: PersistedArm)
    requires CustodyGrows(c, d) && PersistedFrom(h, c, arm, attempt, p)
    ensures PersistedFrom(h, d, arm, attempt, p)
  {
    hide GradeReceipt, CustodyGrows;
    EvidenceStands(c, d, p.controllerEvidence, ControllerRun(arm), PinnedBase(arm));
    EvidenceStands(c, d, p.graderEvidence, ControllerRun(arm), PinnedBase(arm));
    BoundStands(c, d, p.artifactDigest, ControllerRun(arm));
  }

  lemma ChainBytes(h: Hash, t: Tables, c: Custody)
    requires Chain(h, t, c)
    ensures BytesHeld(c)
  {}

  /** What a persisted passing arm contributes to the records that follow is attempt-independent. */
  lemma PersistedPins(h: Hash, c: Custody, arm: Arm, attempt: Attempt, p: PersistedArm)
    requires PersistedFrom(h, c, arm, attempt, p)
    ensures Trusted(h, c, arm) && GradeReceipt(h, p.receipt) == GradePass
    ensures p.receipt.fixture == FixtureDigest(h, arm) && p.receipt.setup == SetupDigest(h, arm, PinnedBase(arm))
  {}

  lemma PinsFound(h: Hash, t: Tables, c: Custody, repository: RepositoryId)
    requires Chain(h, t, c) && BoundRepository(t.runs) == Some(repository) && FixedEvaluation in t.evaluations
    ensures var pins := FindLaunchPins(t, TasksetRevision, GraderRevision);
            && pins.Ok? && CaseRevision in pins.value.cases
            && pins.value.cases[CaseRevision] == TheCase(h, repository)
            && pins.value.taskset == TheTaskset(h, repository) && pins.value.grader == TheGrader(h)
  {
    LaunchPinsHold(h, t, c);
    assert Members(t, TasksetRevision) == [Member(CaseRevision, 0)];
    assert MemberOrdinal(Members(t, TasksetRevision), CaseRevision) == Some(0);
  }

  lemma SampleBinds(h: Hash, t: Tables, c: Custody, repository: RepositoryId, attempt: Attempt, p: PersistedArm, s: Sample)
    requires Chain(h, t, c) && PersistedFrom(h, c, Fixed, attempt, p)
    requires s.controllerEvidence == p.controllerEvidence && s.graderEvidence == p.graderEvidence
    requires s.wire == TheSampleWire(h, repository, p.evidenceDigest, p.artifactDigest)
    ensures SampleEvidence(c, s) && s.wire.artifact in c.blobs
  {}

  lemma InvalidSampleRejected(t: Tables, c: Custody, s: Sample)
    requires s.evaluation in t.invalidEvaluations
    ensures RecordSample(t, c, FixedSample, s).Abort?
  {}

  /** What the reads of the completion step return, whenever a sample is recorded. */
  lemma SampleFacts(h: Hash, t: Tables, c: Custody)
    requires Chain(h, t, c) && FixedSample in t.samples
    ensures var s := t.samples[FixedSample];
            && s.evaluation == FixedEvaluation && s.arm == Champion && s.wire.classification == Pass
            && s.caseRevision == CaseRevision
            && FindEvaluation(t, FixedEvaluation).Ok?
            && FindEvaluation(t, FixedEvaluation).value.controller == ControllerRun(Fixed)
            && (FindEvaluation(t, FixedEvaluation).value.invalidated <==> FixedEvaluation in t.invalidEvaluations)
            && ControllerRun(Fixed) in t.runs && t.runs[ControllerRun(Fixed)].base == BoundedFix
            && BoundRepository(t.runs) == Some(t.runs[ControllerRun(Fixed)].repository)
  {}

  lemma StatusOnly(t: Tables, id: EvaluationId, row: StatusRow)
    ensures AppendStatus(t, id, row).Commit? ==> AppendStatus(t, id, row).state.(statuses := t.statuses) == t
  {}

  // ------------------------------------------------------------------ invocations

  datatype Completion = Completion(evaluation: EvaluationId, sample: SampleId)

  /** Registrations whose root resolves to the requested path. */
  function Matching(repositories: seq<(RepositoryId, string)>, canonical: string -> Option<string>, path: string): seq<RepositoryId> {
    if repositories == [] then []
    else
      (if canonical(repositories[0].1) == Some(path) then [repositories[0].0] else []) + Matching(repositories[1..], canonical, path)
  }

  /** The root of this one registration, and of no other, is the place that the path names. */
  ghost predicate OnlyAt(repositories: seq<(RepositoryId, string)>, canonical: string -> Option<string>, path: string, i: int) {
    && 0 <= i < |repositories| && canonical(path).Some? && canonical(repositories[i].1) == canonical(path)
    && forall j :: 0 <= j < |repositories| && j != i ==> canonical(repositories[j].1) != canonical(path)
  }

  /** The repository that a path names among the registrations. */
  ghost predicate Registered(repositories: seq<(RepositoryId, string)>, canonical: string -> Option<string>, path: string, id: RepositoryId) {
    exists i :: OnlyAt(repositories, canonical, path, i) && repositories[i].0 == id
  }

  lemma {:induction false} MatchingNone(repositories: seq<(RepositoryId, string)>, canonical: string -> Option<string>, path: string)
    ensures Matching(repositories, canonical, path) == [] <==>
              forall j :: 0 <= j < |repositories| ==> canonical(repositories[j].1) != Some(path)
  {
    if repositories != [] {
      MatchingNone(repositories[1..], canonical, path);
      assert forall j :: 1 <= j < |repositories| ==> repositories[j] == repositories[1..][j - 1];
    }
  }

  /** One registration is left exactly when one root alone is the place that the path names. */
  lemma {:induction false} MatchingOne(repositories: seq<(RepositoryId, string)>, canonical: string -> Option<string>, path: string, requested: string)
    requires canonical(path) == Some(requested)
    ensures var found := Matching(repositories, canonical, requested);
            && (|found| == 1 ==> Registered(repositories, canonical, path, found[0]))
            && (|found| != 1 ==> forall i :: !OnlyAt(repositories, canonical, path, i))
  {
    if repositories != [] {
      var rest := repositories[1..];
      MatchingNone(rest, canonical, requested);
      MatchingOne(rest, canonical, path, requested);
      assert forall j :: 1 <= j < |repositories| ==> repositories[j] == rest[j - 1];
      if canonical(repositories[0].1) == Some(requested) {
        assert Matching(rest, canonical, requested) == [] ==> OnlyAt(repositories, canonical, path, 0);
      } else {
        forall i | OnlyAt(repositories, canonical, path, i) ensures OnlyAt(rest, canonical, path, i - 1) {}
        if i :| OnlyAt(rest, canonical, path, i) && rest[i].0 == Matching(rest, canonical, requested)[0] {
          assert OnlyAt(repositories, canonical, path, i + 1);
        }
      }
    }
  }

  datatype Invocation = Invocation(path: string, canonical: string -> Option<string>, historical: ArmScript, fixed: ArmScript) {
    /** The repository this invocation is for. */
    ghost predicate For(repositories: seq<(RepositoryId, string)>, id: RepositoryId) { Registered(repositories, canonical, path, id) }

    predicate ArmsBehave() { WellBehaved(Historical, historical) && WellBehaved(Fixed, fixed) }
  }

  /** The caller's side: not another's store, no invalidation, new attempts. */
  predicate Ready(t: Tables, c: Custody, repository: RepositoryId, inv: Invocation) {
    && BoundRepository(t.runs) in {None, Some(repository)}
    && FixedEvaluation !in t.invalidEvaluations && FixedSample !in t.invalidSamples
    && FreshAttempt(c, Historical, inv.historical.attempt) && FreshAttempt(c, Fixed, inv.fixed.attempt)
    && Separable(c, ArmScope(Historical, inv.historical)) && Separable(c, ArmScope(Fixed, inv.fixed))
    && ArmScope(Fixed, inv.fixed).texts !! ArmScope(Historical, inv.historical).jsons
    && ArmScope(Fixed, inv.fixed).jsons !! ArmScope(Historical, inv.historical).texts
  }

  lemma StillReadyForFixed(t: Tables, c: Custody, u: Tables, d: Custody, repository: RepositoryId, inv: Invocation)
    requires Ready(t, c, repository, inv) && Grows(t, u) && Progress(c, d, ArmScope(Historical, inv.historical))
    ensures FreshAttempt(d, Fixed, inv.fixed.attempt) && Separable(d, ArmScope(Fixed, inv.fixed))
    ensures FixedEvaluation !in u.invalidEvaluations
  {
    hide Progress, FreshAttempt, Separable;
    OtherArmFresh(c, d, ArmScope(Historical, inv.historical), Fixed, inv.fixed.attempt);
    StillSeparable(c, d, ArmScope(Historical, inv.historical), ArmScope(Fixed, inv.fixed));
  }

  // ------------------------------------------------------------------ the service

  /** Every method keeps the chain and only ever adds records. */
  class EvaluationService {
    const store: Store
    const h: Hash

    constructor (store: Store, h: Hash)
      ensures this.store == store && this.h == h
    {
      this.store := store;
      this.h := h;
    }

    ghost predicate Valid()
      reads this, store
    {
      Chain(h, store.tables, store.custody)
    }

    /** Bytes into content custody, then an artifact row, possibly a shared one. */
    method RegisterCapture(ghost c: Custody, ghost s: Scope, kind: RecordKind, digest: Digest, media: Media, arm: Arm, attempt: Attempt)
      returns (r: Result<Digest>)
      requires Progress(c, store.custody, s) && Covers(s, arm, attempt, kind)
      requires match media case PlainText => digest in s.texts case Json => digest in s.jsons
      modifies store`custody, store`calls
      ensures Progress(c, store.custody, s) && CustodyGrows(old(store.custody), store.custody)
      ensures Uses(old(store.custody), store.custody, AttemptId(arm, attempt, kind))
      ensures r.Ok? ==> r.value == digest && BoundTo(store.custody, digest, ControllerRun(arm))
      ensures AttemptId(arm, attempt, kind) !in Used(old(store.custody)) && Separable(c, s)
              ==> r.Ok? || r == Err(Unavailable)
      ensures old(store.Quiet()) ==> store.Quiet() && r != Err(Unavailable)
    {
      hide Progress, RegisterArtifact, BoundTo, Used, MediaAllowed, CustodyGrows;
      var d := store.custody;
      ProgressHeld(c, d, s);
      GrowsNone(d);
      BlobProgress(d, digest, s);
      PutBlobFacts(d, digest);
      var put := store.Keep(PutBlob(d, digest));
      if put.Err? {
        return Err(put.error);
      }
      var e := store.custody;
      ProgressThen(c, d, e, s, s);
      ProgressHeld(d, e, s);
      var row := ArtifactRow(AttemptId(arm, attempt, kind), ControllerRun(arm), media);
      if row.owner !in Used(d) && Separable(c, s) {
        StillAllowed(c, e, s, digest, media);
        RegisterOutcome(e, digest, row);
      }
      var registered := store.Keep(RegisterArtifact(e, digest, row));
      if registered.Err? {
        return Err(registered.error);
      }
      RegisterProgress(e, digest, row);
      ProgressThen(c, e, store.custody, s, MediaScope(arm, attempt, kind, digest, media));
      ProgressHeld(e, store.custody, MediaScope(arm, attempt, kind, digest, media));
      CustodyGrowsTransitive(d, e, store.custody);
      return Ok(digest);
    }

    method KeepCommand(ghost c: Custody, ghost s: Scope, id: AttemptId, row: CommandRow) returns (r: Result<()>)
      requires Progress(c, store.custody, s) && Covers(s, id.arm, id.attempt, id.kind)
      modifies store`custody, store`calls
      ensures Progress(c, store.custody, s) && CustodyGrows(old(store.custody), store.custody)
      ensures Uses(old(store.custody), store.custody, id)
      ensures r.Ok? ==> id in store.custody.commands && store.custody.commands[id] == row
      ensures id !in Used(old(store.custody)) ==> r.Ok? || r == Err(Unavailable)
      ensures old(store.Quiet()) ==> store.Quiet() && r != Err(Unavailable)
    {
      hide Progress, RecordCommand, Used, CustodyGrows;
      var d := store.custody;
      ProgressHeld(c, d, s);
      GrowsNone(d);
      CommandProgress(d, id, row);
      r := store.Keep(RecordCommand(d, id, row));
      if r.Ok? {
        ProgressThen(c, d, store.custody, s, One(id.arm, id.attempt, id.kind));
        ProgressHeld(d, store.custody, One(id.arm, id.attempt, id.kind));
      }
    }

    method KeepValidation(ghost c: Custody, ghost s: Scope, id: AttemptId, row: ValidationRow) returns (r: Result<()>)
      requires Progress(c, store.custody, s) && Covers(s, id.arm, id.attempt, id.kind)
      modifies store`custody, store`calls
      ensures Progress(c, store.custody, s) && CustodyGrows(old(store.custody), store.custody)
      ensures Uses(old(store.custody), store.custody, id)
      ensures r.Ok? ==> id in store.custody.validations && store.custody.validations[id] == row
      ensures id !in Used(old(store.custody)) ==> r.Ok? || r == Err(Unavailable)
      ensures old(store.Quiet()) ==> store.Quiet() && r != Err(Unavailable)
    {
      hide Progress, RecordValidation, Used, CustodyGrows;
      var d := store.custody;
      ProgressHeld(c, d, s);
      GrowsNone(d);
      ValidationProgress(d, id, row);
      r := store.Keep(RecordValidation(d, id, row));
      if r.Ok? {
        ProgressThen(c, d, store.custody, s, One(id.arm, id.attempt, id.kind));
        ProgressHeld(d, store.custody, One(id.arm, id.attempt, id.kind));
      }
    }

    method KeepEvidence(ghost c: Custody, ghost s: Scope, id: AttemptId, row: EvidenceRow) returns (r: Result<()>)
      requires Progress(c, store.custody, s) && Covers(s, id.arm, id.attempt, id.kind)
      requires BoundTo(store.custody, row.artifact, row.run)
      modifies store`custody, store`calls
      ensures Progress(c, store.custody, s) && CustodyGrows(old(store.custody), store.custody)
      ensures Uses(old(store.custody), store.custody, id)
      ensures r.Ok? ==> id in store.custody.evidence && store.custody.evidence[id] == row
      ensures id !in Used(old(store.custody)) ==> r.Ok? || r == Err(Unavailable)
      ensures old(store.Quiet()) ==> store.Quiet() && r != Err(Unavailable)
    {
      hide Progress, RecordEvidence, Used, CustodyGrows;
      var d := store.custody;
      ProgressHeld(c, d, s);
      GrowsNone(d);
      EvidenceProgress(d, id, row);
      r := store.Keep(RecordEvidence(d, id, row));
      if r.Ok? {
        ProgressThen(c, d, store.custody, s, One(id.arm, id.attempt, id.kind));
        ProgressHeld(d, store.custody, One(id.arm, id.attempt, id.kind));
      }
    }

    /** The four command streams, in order. */
    method PersistStreams(ghost c: Custody, ghost s: Scope, arm: Arm, attempt: Attempt, candidate: Command, grader: Command)
      returns (r: Result<()>)
      requires Progress(c, store.custody, s) && s.arm == arm && s.attempt == attempt
      requires StreamKinds() <= s.kinds
      requires {candidate.stdout, candidate.stderr, grader.stdout, grader.stderr} <= s.texts
      modifies store`custody, store`calls
      ensures Progress(c, store.custody, s)
      ensures UsedWithin(old(store.custody), store.custody, arm, attempt, StreamKinds())
      ensures Separable(c, s) && Unused(old(store.custody), s, StreamKinds()) ==> r.Ok? || r == Err(Unavailable)
      ensures old(store.Quiet()) ==> store.Quiet() && r != Err(Unavailable)
    {
      hide Progress, Used, CustodyGrows, Separable, BoundTo;
      var a := RegisterCapture(c, s, CandidateStdout, candidate.stdout, PlainText, arm, attempt);
      if a.Err? { return Err(a.error); }
      a := RegisterCapture(c, s, CandidateStderr, candidate.stderr, PlainText, arm, attempt);
      if a.Err? { return Err(a.error); }
      a := RegisterCapture(c, s, GraderStdout, grader.stdout, PlainText, arm, attempt);
      if a.Err? { return Err(a.error); }
      a := RegisterCapture(c, s, GraderStderr, grader.stderr, PlainText, arm, attempt);
      if a.Err? { return Err(a.error); }
      return Ok(());
    }

    /** Both command records, then both validations. */
    method PersistCommands(ghost c: Custody, ghost s: Scope, arm: Arm, attempt: Attempt, candidate: Command, grader: Command)
      returns (r: Result<()>)
      requires Progress(c, store.custody, s) && s.arm == arm && s.attempt == attempt
      requires CommandKinds() <= s.kinds
      requires candidate.Class() == Success && grader.Class() == Success
      modifies store`custody, store`calls
      ensures Progress(c, store.custody, s)
      ensures UsedWithin(old(store.custody), store.custody, arm, attempt, CommandKinds())
      ensures r.Ok? ==>
                && ValidationSucceeded(store.custody, AttemptId(arm, attempt, CandidateValidation), ControllerRun(arm), PinnedBase(arm))
                && ValidationSucceeded(store.custody, AttemptId(arm, attempt, GraderValidation), ControllerRun(arm), PinnedBase(arm))
                && store.custody.commands[store.custody.validations[AttemptId(arm, attempt, CandidateValidation)].command].command
                   == h(CandidateCommandWire)
      ensures Unused(old(store.custody), s, CommandKinds()) ==> r.Ok? || r == Err(Unavailable)
      ensures old(store.Quiet()) ==> store.Quiet() && r != Err(Unavailable)
    {
      hide Progress, Used, CustodyGrows, PinnedBase, Unused;
      UnusedCommands(store.custody, s);
      var run, base := ControllerRun(arm), PinnedBase(arm);
      var worktree := AttemptId(arm, attempt, Worktree);
      var candidateId, graderId := AttemptId(arm, attempt, CandidateCommand), AttemptId(arm, attempt, GraderCommand);
      r := KeepCommand(c, s, candidateId, CommandRow(run, worktree, base, h(CandidateCommandWire), candidate.startedAt,
                                                     candidate.startedAt + candidate.duration, candidate.Class(), candidate.stdout, candidate.stderr));
      if r.Err? { return; }
      ghost var c1 := store.custody;
      r := KeepCommand(c, s, graderId, CommandRow(run, worktree, base, h(GraderCommandWire), grader.startedAt,
                                                  grader.startedAt + grader.duration, grader.Class(), grader.stdout, grader.stderr));
      if r.Err? { return; }
      ghost var c2 := store.custody;
      CommandStands(c1, c2, candidateId, run, base);
      r := KeepValidation(c, s, AttemptId(arm, attempt, CandidateValidation), ValidationRow(run, worktree, base, Success, candidateId));
      if r.Err? { return; }
      ghost var c3 := store.custody;
      CommandStands(c2, c3, candidateId, run, base);
      CommandStands(c2, c3, graderId, run, base);
      r := KeepValidation(c, s, AttemptId(arm, attempt, GraderValidation), ValidationRow(run, worktree, base, Success, graderId));
      if r.Err? { return; }
      ValidationStands(c3, store.custody, AttemptId(arm, attempt, CandidateValidation), run, base);
      CommandStands(c3, store.custody, graderId, run, base);
    }

    /** The materialisation artifact and the two evidence records that complete an attempt. */
    method PersistEvidence(ghost c: Custody, ghost s: Scope, arm: Arm, attempt: Attempt, receipt: Receipt, materialization: Digest)
      returns (r: Result<Digest>)
      requires Progress(c, store.custody, s) && s.arm == arm && s.attempt == attempt
      requires EvidenceKinds() <= s.kinds && materialization in s.jsons
      requires ValidationSucceeded(store.custody, AttemptId(arm, attempt, CandidateValidation), ControllerRun(arm), PinnedBase(arm))
      requires ValidationSucceeded(store.custody, AttemptId(arm, attempt, GraderValidation), ControllerRun(arm), PinnedBase(arm))
      requires store.custody.commands[store.custody.validations[AttemptId(arm, attempt, CandidateValidation)].command].command
               == h(CandidateCommandWire)
      modifies store`custody, store`calls
      ensures Progress(c, store.custody, s)
      ensures r.Ok? ==> AttemptTrusted(h, store.custody, arm, attempt)
      ensures r.Ok? ==> GraderChain(store.custody, AttemptId(arm, attempt, GraderEvidence), ControllerRun(arm), PinnedBase(arm),
                                    r.value, materialization)
      ensures Separable(c, s) && Unused(old(store.custody), s, EvidenceKinds()) ==> r.Ok? || r == Err(Unavailable)
      ensures old(store.Quiet()) ==> store.Quiet() && r != Err(Unavailable)
    {
      hide Progress, Used, CustodyGrows, Separable, BoundTo;
      var run, base := ControllerRun(arm), PinnedBase(arm);
      var candidateId, graderId := AttemptId(arm, attempt, CandidateValidation), AttemptId(arm, attempt, GraderValidation);
      ghost var c0 := store.custody;
      var artifact := RegisterCapture(c, s, Materialization, materialization, Json, arm, attempt);
      if artifact.Err? { return Err(artifact.error); }
      ghost var c1 := store.custody;
      ValidationStands(c0, c1, candidateId, run, base);
      ValidationStands(c0, c1, graderId, run, base);
      var read := store.Ask(Ok(materialization));
      if read.Err? { return Err(read.error); }
      var kept := KeepEvidence(c, s, AttemptId(arm, attempt, ControllerEvidence),
        EvidenceRow(run, candidateId, base, Success, h(ControllerDetails(receipt.digest, materialization)), materialization));
      if kept.Err? { return Err(kept.error); }
      ghost var c2 := store.custody;
      ValidationStands(c1, c2, candidateId, run, base);
      ValidationStands(c1, c2, graderId, run, base);
      BoundStands(c1, c2, materialization, run);
      var evidence := h(GraderDetails(receipt.digest, materialization));
      kept := KeepEvidence(c, s, AttemptId(arm, attempt, GraderEvidence), EvidenceRow(run, graderId, base, Success, evidence, materialization));
      if kept.Err? { return Err(kept.error); }
      EvidenceStands(c2, store.custody, AttemptId(arm, attempt, ControllerEvidence), run, base);
      ValidationStands(c2, store.custody, graderId, run, base);
      BoundStands(c2, store.custody, materialization, run);
      return Ok(evidence);
    }

    method PersistArm(ghost c: Custody, arm: Arm, script: ArmScript, receipt: Receipt) returns (r: Result<PersistedArm>)
      requires Progress(c, store.custody, ArmScope(arm, script))
      requires script.observed.Some? && receipt == BuildReceipt(h, arm, PinnedBase(arm), script.observed.value)
      requires GradeReceipt(h, receipt) == GradePass
      modifies store`custody, store`calls
      ensures Progress(c, store.custody, ArmScope(arm, script))
      ensures r.Ok? ==> PersistedFrom(h, store.custody, arm, script.attempt, r.value)
      ensures Separable(c, ArmScope(arm, script)) && OnlyWorktreeUsed(old(store.custody), ArmScope(arm, script))
              ==> r.Ok? || r == Err(Unavailable)
      ensures old(store.Quiet()) ==> store.Quiet() && r != Err(Unavailable)
    {
      assert receipt.arm == arm;
      hide Progress, Used, CustodyGrows, Separable, AttemptTrusted, GraderChain, ValidationSucceeded, BuildReceipt, GradeReceipt,
           UsedWithin, Unused, StreamKinds, CommandKinds, EvidenceKinds, AllKinds;
      PassingReceipt(h, arm, script.observed.value);
      var attempt := script.attempt;
      ghost var s := ArmScope(arm, script);
      ghost var prepared := OnlyWorktreeUsed(store.custody, s);
      KindsApart();
      ghost var c0 := store.custody;
      var candidate, grader := script.observed.value.candidate.value, script.observed.value.grader.value;
      var streams := PersistStreams(c, s, arm, attempt, candidate, grader);
      if streams.Err? { return Err(streams.error); }
      ghost var c1 := store.custody;
      if prepared {
        UnusedAfter(c0, c1, s, StreamKinds(), CommandKinds());
        UnusedAfter(c0, c1, s, StreamKinds(), EvidenceKinds());
      }
      var commands := PersistCommands(c, s, arm, attempt, candidate, grader);
      if commands.Err? { return Err(commands.error); }
      if prepared {
        UnusedAfter(c1, store.custody, s, CommandKinds(), EvidenceKinds());
      }
      var evidence := PersistEvidence(c, s, arm, attempt, receipt, script.observed.value.materialization);
      if evidence.Err? { return Err(evidence.error); }
      return Ok(PersistedArm(receipt, AttemptId(arm, attempt, ControllerEvidence), AttemptId(arm, attempt, GraderEvidence),
                             evidence.value, script.observed.value.materialization, h(CandidateCommandWire)));
    }

    /** Grade what the sandbox produced, persist it if it passes, and discard the spools. */
    method RunMaterialized(ghost c: Custody, arm: Arm, script: ArmScript) returns (r: Result<PersistedArm>)
      requires Progress(c, store.custody, ArmScope(arm, script))
      modifies store`custody, store`calls
      ensures Progress(c, store.custody, ArmScope(arm, script))
      ensures r.Ok? ==> PersistedFrom(h, store.custody, arm, script.attempt, r.value)
      ensures Separable(c, ArmScope(arm, script)) && OnlyWorktreeUsed(old(store.custody), ArmScope(arm, script))
              ==> r.Ok? || r == Err(Unavailable) || (r == Err(ArmFailed) && !WellBehaved(arm, script))
      ensures old(store.Quiet()) ==> store.Quiet() && r != Err(Unavailable)
    {
      hide Progress, Separable, OnlyWorktreeUsed, PersistedFrom, BuildReceipt, GradeReceipt;
      if script.observed.None? {
        return Err(ArmFailed);
      }
      PassingReceipt(h, arm, script.observed.value);
      var receipt := BuildReceipt(h, arm, PinnedBase(arm), script.observed.value);
      if GradeReceipt(h, receipt) != GradePass {
        return Err(ArmFailed);
      }
      r := PersistArm(c, arm, script, receipt);
      if r.Ok? && !script.discarded {
        return Err(ArmFailed);
      }
    }

    /** Worktree, sandboxed run, persistence, clean-up: success needs all four. */
    method RunArm(arm: Arm, script: ArmScript) returns (r: Result<PersistedArm>)
      requires BytesHeld(store.custody)
      modifies store`custody, store`calls
      ensures Progress(old(store.custody), store.custody, ArmScope(arm, script))
      ensures r.Ok? ==> PersistedFrom(h, store.custody, arm, script.attempt, r.value)
      ensures FreshAttempt(old(store.custody), arm, script.attempt) && Separable(old(store.custody), ArmScope(arm, script))
              ==> r.Ok? || r == Err(Unavailable) || (r == Err(ArmFailed) && !WellBehaved(arm, script))
      ensures old(store.Quiet()) ==> store.Quiet() && r != Err(Unavailable)
    {
      hide Progress, CustodyGrows, Separable, CreateWorktree, Used, FreshAttempt, PersistedFrom, OnlyWorktreeUsed, AllKinds;
      ghost var s, step := ArmScope(arm, script), One(arm, script.attempt, Worktree);
      KindsApart();
      var c := store.custody;
      ProgressNone(c, s);
      if !script.created || script.head != PinnedBase(arm) {
        return Err(ArmFailed);
      }
      var worktree := AttemptId(arm, script.attempt, Worktree);
      var row := WorktreeRow(ControllerRun(arm), PinnedBase(arm), script.head, true);
      WorktreeProgress(c, worktree, row);
      if FreshAttempt(c, arm, script.attempt) {
        FreshWorktree(c, s);
      }
      var created := store.Keep(CreateWorktree(c, worktree, row));
      if created.Err? {
        return Err(created.error);
      }
      var e := store.custody;
      ProgressHeld(c, e, step);
      ProgressNone(e, s);
      if FreshAttempt(c, arm, script.attempt) && Separable(c, s) {
        StillSeparable(c, e, step, s);
        RestUnused(c, e, s);
      }
      r := RunMaterialized(e, arm, script);
      ghost var d := store.custody;
      ProgressHeld(e, d, s);
      ProgressThen(c, c, e, s, step);
      ProgressThen(c, e, d, s, s);
      if !script.removed {
        return Err(ArmFailed);
      }
      WorktreeStands(e, d, worktree);
      RemovedProgress(d, worktree);
      var marked := store.Keep(MarkWorktreeRemoved(store.custody, worktree));
      if marked.Err? {
        return Err(marked.error);
      }
      ProgressThen(c, d, store.custody, s, step);
      ProgressHeld(d, store.custody, step);
      if r.Ok? {
        PersistedStands(h, d, store.custody, arm, script.attempt, r.value);
      }
    }

    /** Reuse the arm's fixed run if it is this repository's at the pinned base, create it if absent. */
    method EnsureControllerRun(repository: RepositoryId, arm: Arm) returns (r: Result<RunId>)
      requires Valid()
      requires arm == Fixed ==> BoundRepository(store.tables.runs) == Some(repository) && TasksetRevision in store.tables.memberships
      modifies store`tables, store`calls
      ensures Valid() && Grows(old(store.tables), store.tables)
      ensures r.Ok? ==> r.value == ControllerRun(arm) && ControllerRun(arm) in store.tables.runs
                        && BoundRepository(store.tables.runs) == Some(repository)
      ensures !old(BoundRepository(store.tables.runs)).None? && old(BoundRepository(store.tables.runs)) != Some(repository)
              ==> r.Err? && store.tables == old(store.tables)
      ensures old(BoundRepository(store.tables.runs)) in {None, Some(repository)} ==> r.Ok? || r == Err(Unavailable)
      ensures store.tables.(runs := old(store.tables).runs) == old(store.tables)
      ensures old(store.Quiet()) ==> store.Quiet() && r != Err(Unavailable)
    {
      GrowsRefl(store.tables);
      assert RunsPinned(store.tables.runs, TasksetRevision in store.tables.memberships);
      hide Chain, Grows;
      var id := ControllerRun(arm);
      var existing := store.Ask(FindRun(store.tables, id));
      match existing {
        case Ok(run) =>
          if run.repository == repository && run.base == PinnedBase(arm) {
            return Ok(id);
          }
          return Err(Refused);
        case Err(error) =>
          if error != Rejected(NotFound) {
            return Err(error);
          }
      }
      CreateRunKeepsChain(h, store.tables, store.custody, arm, repository);
      var created := store.Authorize(CreateRun(store.tables, id, Run(repository, PinnedBase(arm))));
      if created.Err? {
        return Err(created.error);
      }
      return Ok(id);
    }

    /** One closed wire: its content is fixed by the repository alone, so a replay is accepted. */
    method AppendWire(id: RevisionId, repository: RepositoryId) returns (r: Result<()>)
      requires Valid() && BoundRepository(store.tables.runs) == Some(repository) && WireReady(h, store.tables, store.custody, id)
      modifies store`tables, store`calls
      ensures Valid() && Grows(old(store.tables), store.tables)
      ensures r.Ok? ==> id in store.tables.revisions
      ensures r.Ok? || r == Err(Unavailable)
      ensures store.tables.(revisions := old(store.tables).revisions) == old(store.tables)
      ensures old(store.Quiet()) ==> store.Quiet() && r != Err(Unavailable)
    {
      GrowsRefl(store.tables);
      AppendWireKeepsChain(h, store.tables, store.custody, id, repository);
      hide Chain, Grows, WireOf, WireReady;
      r := store.Authorize(AppendRevision(store.tables, id, WireOf(h, id, repository)));
    }

    /** Append the three closed wires in dependency order. */
    method EnsureFixedEvalWires(repository: RepositoryId) returns (r: Result<()>)
      requires Valid() && BoundRepository(store.tables.runs) == Some(repository) && Trusted(h, store.custody, Historical)
      modifies store`tables, store`calls
      ensures Valid() && Grows(old(store.tables), store.tables)
      ensures r.Ok? ==> TasksetRevision in store.tables.revisions
      ensures r.Ok? || r == Err(Unavailable)
      ensures store.tables.(revisions := old(store.tables).revisions) == old(store.tables)
      ensures old(store.Quiet()) ==> store.Quiet() && r != Err(Unavailable)
    {
      hide Chain, Grows, Trusted;
      var t0 := store.tables;
      r := AppendWire(GraderRevision, repository);
      if r.Err? { return; }
      var t1 := store.tables;
      r := AppendWire(CaseRevision, repository);
      GrowsTransitive(t0, t1, store.tables);
      if r.Err? { return; }
      var t2 := store.tables;
      r := AppendWire(TasksetRevision, repository);
      GrowsTransitive(t0, t2, store.tables);
    }

    /** Complete the evaluation from its recorded sample, for the repository it belongs to. */
    method CompleteFromSample(sample: Sample, repository: RepositoryId) returns (r: Result<()>)
      requires Valid() && FixedSample in store.tables.samples && store.tables.samples[FixedSample] == sample
      modifies store`tables, store`calls
      ensures Valid() && Grows(old(store.tables), store.tables)
      ensures store.tables.(statuses := old(store.tables).statuses) == old(store.tables)
      ensures r.Ok? ==> IsCompleted(store.tables) && BoundRepository(store.tables.runs) == Some(repository)
      ensures BoundRepository(store.tables.runs) != Some(repository) ==> r.Err? && store.tables == old(store.tables)
      ensures BoundRepository(store.tables.runs) == Some(repository) && FixedEvaluation !in store.tables.invalidEvaluations
              ==> r.Ok? || r == Err(Unavailable)
      ensures old(store.Quiet()) ==> store.Quiet() && r != Err(Unavailable)
    {
      hide Chain, Grows, FindEvaluation, AppendStatus, IsCompleted, BoundRepository;
      GrowsRefl(store.tables);
      SampleFacts(h, store.tables, store.custody);
      if sample.evaluation != FixedEvaluation || sample.arm != Champion || sample.wire.classification != Pass {
        return Err(Refused);
      }
      var evaluation := store.Ask(FindEvaluation(store.tables, sample.evaluation));
      if evaluation.Err? { return Err(evaluation.error); }
      if evaluation.value.invalidated || evaluation.value.controller != ControllerRun(Fixed) {
        return Err(Refused);
      }
      var run := store.Ask(FindRun(store.tables, evaluation.value.controller));
      if run.Err? { return Err(run.error); }
      if run.value.repository != repository || run.value.base != BoundedFix {
        return Err(Refused);
      }
      AppendCompletedKeepsChain(h, store.tables, store.custody);
      StatusOnly(store.tables, sample.evaluation, StatusRow(Completed, sample.digest));
      r := store.Authorize(AppendStatus(store.tables, sample.evaluation, StatusRow(Completed, sample.digest)));
    }

    /** Read the launch pins back, bind the sample to them, record it and complete. */
    method RecordFixedSample(repository: RepositoryId, attempt: Attempt, fixed: PersistedArm) returns (r: Result<()>)
      requires Valid() && BoundRepository(store.tables.runs) == Some(repository)
      requires FixedEvaluation in store.tables.evaluations && FixedSample !in store.tables.samples
      requires PersistedFrom(h, store.custody, Fixed, attempt, fixed)
      modifies store`tables, store`calls
      ensures Valid() && Grows(old(store.tables), store.tables)
      ensures r.Ok? ==> IsCompleted(store.tables) && BoundRepository(store.tables.runs) == Some(repository)
      ensures FixedEvaluation !in old(store.tables).invalidEvaluations ==> r.Ok? || r == Err(Unavailable)
      ensures old(store.Quiet()) ==> store.Quiet() && r != Err(Unavailable)
    {
      var t0 := store.tables;
      GrowsRefl(t0);
      PinsFound(h, t0, store.custody, repository);
      PersistedPins(h, store.custody, Fixed, attempt, fixed);
      hide Chain, Grows, FindLaunchPins, RecordSample, SampleEvidence, AttemptTrusted, GraderChain, GradeReceipt, Trusted, IsCompleted;
      var pins := store.Ask(FindLaunchPins(t0, TasksetRevision, GraderRevision));
      if pins.Err? { return Err(pins.error); }
      if CaseRevision !in pins.value.cases {
        return Err(Refused);
      }
      var wire := SampleWire(
        pins.value.cases[CaseRevision].wireDigest, pins.value.taskset.payloadDigest, pins.value.grader.payloadDigest,
        ChampionPolicy(h), BoundedFix, fixed.receipt.fixture, fixed.receipt.setup, RuntimeDigest(h), fixed.commandDigest,
        Pass, fixed.evidenceDigest, fixed.artifactDigest);
      var sample := Sample(FixedEvaluation, fixed.controllerEvidence, fixed.graderEvidence, CaseRevision, Champion,
                           wire, h(SampleBody(wire)));
      SampleBinds(h, t0, store.custody, repository, attempt, fixed, sample);
      if FixedEvaluation in t0.invalidEvaluations {
        InvalidSampleRejected(t0, store.custody, sample);
      } else {
        RecordSampleOutcome(h, t0, store.custody, sample);
      }
      var recorded := store.Authorize(RecordSample(t0, store.custody, FixedSample, sample));
      if recorded.Err? {
        return Err(recorded.error);
      }
      RecordSampleKeepsChain(h, t0, store.custody, sample);
      var t1 := store.tables;
      r := CompleteFromSample(recorded.value, repository);
      GrowsTransitive(t0, t1, store.tables);
    }

    /** The fixed arm, the evaluation run, its sample, and completion. */
    method LaunchFixed(repository: RepositoryId, script: ArmScript) returns (r: Result<()>)
      requires Valid() && BoundRepository(store.tables.runs) == Some(repository)
      requires TasksetRevision in store.tables.memberships && FixedSample !in store.tables.samples
      modifies store`tables, store`custody, store`calls
      ensures Valid() && Grows(old(store.tables), store.tables) && CustodyGrows(old(store.custody), store.custody)
      ensures r.Ok? ==> IsCompleted(store.tables) && BoundRepository(store.tables.runs) == Some(repository)
      ensures FreshAttempt(old(store.custody), Fixed, script.attempt) && Separable(old(store.custody), ArmScope(Fixed, script))
              && FixedEvaluation !in old(store.tables).invalidEvaluations
              ==> r.Ok? || r == Err(Unavailable) || (r == Err(ArmFailed) && !WellBehaved(Fixed, script))
      ensures old(store.Quiet()) ==> store.Quiet() && r != Err(Unavailable)
    {
      hide Chain, Grows, Progress, FreshAttempt, Separable, ArmScope, WellBehaved, CustodyGrows, PersistedFrom;
      var t0, c0 := store.tables, store.custody;
      GrowsNone(c0);
      var run := EnsureControllerRun(repository, Fixed);
      if run.Err? { return Err(run.error); }
      var t1 := store.tables;
      ChainBytes(h, t1, c0);
      var fixed := RunArm(Fixed, script);
      ProgressHeld(c0, store.custody, ArmScope(Fixed, script));
      CustodyKeepsChain(h, t1, c0, store.custody);
      if fixed.Err? { return Err(fixed.error); }
      PersistedPins(h, store.custody, Fixed, script.attempt, fixed.value);
      if GradeReceipt(h, fixed.value.receipt) != GradePass {
        return Err(Refused);
      }
      StartEvaluationKeepsChain(h, t1, store.custody);
      var launched := store.Authorize(StartEvaluation(t1, FixedEvaluation,
        Evaluation(run.value, TasksetRevision, GraderRevision, BoundedFix, fixed.value.receipt.fixture,
                   RuntimeDigest(h), SeedPolicy(h), ChampionPolicy(h))));
      if launched.Err? { return Err(launched.error); }
      var t2 := store.tables;
      GrowsTransitive(t0, t1, t2);
      r := RecordFixedSample(repository, script.attempt, fixed.value);
      GrowsTransitive(t0, t2, store.tables);
    }

    /** The registered repository at a path: exactly one registration may resolve to it. */
    method ResolveRegistered(path: string, canonical: string -> Option<string>) returns (r: Result<RepositoryId>)
      modifies store`calls
      ensures r.Ok? ==> Registered(store.repositories, canonical, path, r.value)
      ensures forall id :: Registered(store.repositories, canonical, path, id) ==> r == Ok(id) || r == Err(Unavailable)
      ensures old(store.Quiet()) ==> store.Quiet() && r != Err(Unavailable)
    {
      var requested := canonical(path);
      if requested.None? { return Err(Refused); }
      var listed := store.Ask(Ok(store.repositories));
      if listed.Err? { return Err(listed.error); }
      var found := Matching(listed.value, canonical, requested.value);
      MatchingOne(store.repositories, canonical, path, requested.value);
      return if |found| == 1 then Ok(found[0]) else Err(Refused);
    }

    method AppendFixedMembership() returns (r: Result<()>)
      requires Valid() && TasksetRevision in store.tables.revisions
      modifies store`tables, store`calls
      ensures Valid() && Grows(old(store.tables), store.tables)
      ensures store.tables.(memberships := old(store.tables).memberships) == old(store.tables)
      ensures r.Ok? ==> TasksetRevision in store.tables.memberships
      ensures r.Ok? || r == Err(Unavailable)
      ensures old(store.Quiet()) ==> store.Quiet() && r != Err(Unavailable)
    {
      hide Chain, Grows, AppendMembership;
      GrowsRefl(store.tables);
      AppendMembershipOutcome(h, store.tables, store.custody);
      AppendMembershipKeepsChain(h, store.tables, store.custody);
      r := store.Authorize(AppendMembership(store.tables, TasksetRevision, CaseRevision, 0));
    }

    /** Historical arm, closed wires and membership, in order. */
    method PrepareHistorical(repository: RepositoryId, script: ArmScript) returns (r: Result<()>)
      requires Valid() && FixedSample !in store.tables.samples
      modifies store`tables, store`custody, store`calls
      ensures Valid() && Grows(old(store.tables), store.tables) && CustodyGrows(old(store.custody), store.custody)
      ensures store.tables.samples == old(store.tables).samples
      ensures Progress(old(store.custody), store.custody, ArmScope(Historical, script))
      ensures r.Ok? ==> BoundRepository(store.tables.runs) == Some(repository) && TasksetRevision in store.tables.memberships
      ensures old(BoundRepository(store.tables.runs)) !in {None, Some(repository)}
              ==> r.Err? && store.tables == old(store.tables) && store.custody == old(store.custody)
      ensures FreshAttempt(old(store.custody), Historical, script.attempt)
              && Separable(old(store.custody), ArmScope(Historical, script))
              && old(BoundRepository(store.tables.runs)) in {None, Some(repository)}
              ==> r.Ok? || r == Err(Unavailable) || (r == Err(ArmFailed) && !WellBehaved(Historical, script))
      ensures old(store.Quiet()) ==> store.Quiet() && r != Err(Unavailable)
    {
      hide Chain, Grows, Progress, FreshAttempt, Separable, ArmScope, WellBehaved, CustodyGrows, PersistedFrom, Trusted, GradeReceipt;
      var t0, c0 := store.tables, store.custody;
      ChainBytes(h, t0, c0);
      GrowsNone(c0);
      ProgressNone(c0, ArmScope(Historical, script));
      var run := EnsureControllerRun(repository, Historical);
      if run.Err? { return Err(run.error); }
      var t1 := store.tables;
      var historical := RunArm(Historical, script);
      ProgressHeld(c0, store.custody, ArmScope(Historical, script));
      CustodyKeepsChain(h, t1, c0, store.custody);
      if historical.Err? { return Err(historical.error); }
      PersistedPins(h, store.custody, Historical, script.attempt, historical.value);
      if GradeReceipt(h, historical.value.receipt) != GradePass {
        return Err(Refused);
      }
      r := EnsureFixedEvalWires(repository);
      var t2 := store.tables;
      GrowsTransitive(t0, t1, t2);
      if r.Err? { return; }
      r := AppendFixedMembership();
      GrowsTransitive(t0, t2, store.tables);
    }

    /** One invocation, its repository found: complete what is recorded, or run both arms and record. */
    method RunFor(repository: RepositoryId, inv: Invocation) returns (r: Result<Completion>)
      requires Valid()
      modifies store`tables, store`custody, store`calls
      ensures Valid() && Grows(old(store.tables), store.tables) && CustodyGrows(old(store.custody), store.custody)
      ensures r.Ok? ==> && IsCompleted(store.tables) && BoundRepository(store.tables.runs) == Some(repository)
                        && r.value == Completion(FixedEvaluation, FixedSample)
      ensures FixedSample in old(store.tables).samples
              ==> store.custody == old(store.custody) && store.tables.(statuses := old(store.tables).statuses) == old(store.tables)
      ensures old(BoundRepository(store.tables.runs)) !in {None, Some(repository)}
              ==> r.Err? && store.tables == old(store.tables) && store.custody == old(store.custody)
      ensures old(Ready(store.tables, store.custody, repository, inv))
              ==> r.Ok? || r == Err(Unavailable) || (r == Err(ArmFailed) && !inv.ArmsBehave())
      ensures old(store.Quiet()) ==> store.Quiet() && r != Err(Unavailable)
    {
      hide Chain, Grows, Progress, FreshAttempt, Separable, ArmScope, WellBehaved, CustodyGrows, IsCompleted;
      var t0, c0 := store.tables, store.custody;
      GrowsRefl(t0);
      GrowsNone(c0);
      if FixedSample in t0.samples {
        SampleFacts(h, t0, c0);
      }
      var existing := store.Ask(FindSample(t0, FixedSample));
      match existing {
        case Ok(sample) =>
          if sample.evaluation == FixedEvaluation && sample.arm == Champion && sample.caseRevision == CaseRevision
             && sample.wire.classification == Pass {
            var completed := CompleteFromSample(sample, repository);
            return if completed.Ok? then Ok(Completion(FixedEvaluation, FixedSample)) else Err(completed.error);
          }
          return Err(Refused);
        case Err(error) =>
          if error != Rejected(NotFound) {
            return Err(error);
          }
      }
      var prepared := PrepareHistorical(repository, inv.historical);
      var t1, c1 := store.tables, store.custody;
      if prepared.Err? { return Err(prepared.error); }
      if Ready(t0, c0, repository, inv) {
        StillReadyForFixed(t0, c0, t1, c1, repository, inv);
      }
      var launched := LaunchFixed(repository, inv.fixed);
      GrowsTransitive(t0, t1, store.tables);
      CustodyGrowsTransitive(c0, c1, store.custody);
      return if launched.Ok? then Ok(Completion(FixedEvaluation, FixedSample)) else Err(launched.error);
    }

    /**
      One invocation.  From any store the chain holds of, whatever fails:
      the chain still holds and no record is lost; success means completed for the
      repository whose root, alone of all registrations, is the place the path names; without
      such a repository, or when the store is bound to another, nothing changes; a recorded
      sample stops all further attempt records; and with fresh attempts the only ways to
      fail are a failed store call or a misbehaving arm, so a quiet invocation with
      well-behaved arms completes.
     */
    method RunObserverSnapshotOnce(inv: Invocation) returns (r: Result<Completion>)
      requires Valid()
      modifies store`tables, store`custody, store`calls
      ensures Valid() && Grows(old(store.tables), store.tables) && CustodyGrows(old(store.custody), store.custody)
      ensures r.Ok? ==> && IsCompleted(store.tables)
                        && BoundRepository(store.tables.runs).Some?
                        && inv.For(store.repositories, BoundRepository(store.tables.runs).value)
                        && r.value == Completion(FixedEvaluation, FixedSample)
      ensures FixedSample in old(store.tables).samples
              ==> store.custody == old(store.custody) && store.tables.(statuses := old(store.tables).statuses) == old(store.tables)
      ensures (forall id :: inv.For(store.repositories, id) ==> old(BoundRepository(store.tables.runs)) !in {None, Some(id)})
              ==> r.Err? && store.tables == old(store.tables) && store.custody == old(store.custody)
      ensures forall id :: inv.For(store.repositories, id) && old(Ready(store.tables, store.custody, id, inv))
                           ==> r.Ok? || r == Err(Unavailable) || (r == Err(ArmFailed) && !inv.ArmsBehave())
      ensures old(store.Quiet()) ==> store.Quiet() && r != Err(Unavailable)
    {
      hide Chain, Grows, CustodyGrows, IsCompleted, Registered, Ready;
      GrowsRefl(store.tables);
      GrowsNone(store.custody);
      var repository := ResolveRegistered(inv.path, inv.canonical);
      if repository.Err? { return Err(repository.error); }
      assert inv.For(store.repositories, repository.value);
      r := RunFor(repository.value, inv);
    }
  }

  // -------------------------------------------------------------------- whole runs

  datatype Event =
    | Invoke(inv: Invocation, faults: nat -> bool)
    | Register(id: RepositoryId, root: string)
    | InvalidateEvaluation
    | InvalidateSample
    | Sweep(cutoff: int)

  lemma EmptyChain(h: Hash)
    ensures Chain(h, EMPTY, EMPTY_CUSTODY)
  {}

  lemma InvalidationKeepsChain(h: Hash, t: Tables, c: Custody, evaluations: set<EvaluationId>, samples: set<SampleId>)
    requires Chain(h, t, c)
    ensures Chain(h, t.(invalidEvaluations := evaluations, invalidSamples := samples), c)
  {}

  /**
    Every history from an empty store: invocations for any repositories with any faults,
    registrations, invalidations and retention sweeps in any order.  The chain holds at the end, so a
    Completed status stands on the full chain of one repository.
   */
  method RunHistory(h: Hash, history: seq<Event>) returns (store: Store)
    ensures fresh(store) && Chain(h, store.tables, store.custody)
    ensures IsCompleted(store.tables) ==>
              BoundRepository(store.tables.runs).Some?
              && FullChain(h, store.tables, store.custody, BoundRepository(store.tables.runs).value)
  {
    hide Chain, Grows, FullChain, CustodyGrows, SweepCommands;
    store := new Store();
    EmptyChain(h);
    var service := new EvaluationService(store, h);
    for i := 0 to |history|
      invariant Chain(h, store.tables, store.custody)
      invariant fresh(store) && service.store == store && service.h == h
    {
      match history[i] {
        case Invoke(inv, faults) =>
          store.calls, store.faults := 0, faults;
          var _ := service.RunObserverSnapshotOnce(inv);
        case Register(id, root) =>
          store.repositories := store.repositories + [(id, root)];
        case InvalidateEvaluation =>
          InvalidationKeepsChain(h, store.tables, store.custody, {FixedEvaluation}, store.tables.invalidSamples);
          store.tables := store.tables.(invalidEvaluations := {FixedEvaluation});
        case InvalidateSample =>
          InvalidationKeepsChain(h, store.tables, store.custody, store.tables.invalidEvaluations, {FixedSample});
          store.tables := store.tables.(invalidSamples := {FixedSample});
        case Sweep(cutoff) =>
          var swept := SweepCommands(store.custody, cutoff);
          if swept.Commit? {
            SweepKeepsChain(h, store.tables, store.custody, cutoff);
            store.custody := swept.state;
          }
      }
    }
    if IsCompleted(store.tables) {
      CompletedMeansFullChain(h, store.tables, store.custody);
    }
  }

  /**
    From every store a history can leave behind, one undisturbed invocation for its repository,
    with new attempts and well-behaved arms, completes with the one result over the full chain.
   */
  method UndisturbedRetry(h: Hash, store: Store, inv: Invocation) returns (r: Result<Completion>)
    requires Chain(h, store.tables, store.custody)
    modifies store
    ensures store.repositories == old(store.repositories)
    ensures Grows(old(store.tables), store.tables) && CustodyGrows(old(store.custody), store.custody)
    ensures forall id :: inv.For(store.repositories, id) && old(Ready(store.tables, store.custody, id, inv)) && inv.ArmsBehave() ==>
              && r == Ok(Completion(FixedEvaluation, FixedSample))
              && IsCompleted(store.tables)
              && FullChain(h, store.tables, store.custody, id)
  {
    hide Chain, Grows, FullChain, CustodyGrows, IsCompleted, Ready;
    store.calls, store.faults := 0, n => false;
    var service := new EvaluationService(store, h);
    r := service.RunObserverSnapshotOnce(inv);
    if r.Ok? {
      CompletedMeansFullChain(h, store.tables, store.custody);
    }
  }
}
