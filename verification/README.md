# BILDR control plane: a verified model

BILDR is a local control plane that evaluates, observes and streams agent runs. This
project models its hardest logic in Dafny and proves what each part promises over every
input, every run and every interleaving of failures.

| file | what it models |
|---|---|
| `EvaluationStore.dfy`, `EvaluationCommits.dfy`, `EvaluationChain.dfy`, `EvaluationRecords.dfy`, `EvaluationCustody.dfy`, `EvaluationController.dfy` | the one-shot evaluation: store transactions, the chain of immutable records, attempt-scoped custody, and the crash-restartable controller, whose every store call may fail |
| `Identifiers.dfy` | the text of fixed and attempt-scoped identifiers |
| `SnapshotTree.dfy`, `SnapshotManifest.dfy`, `SnapshotPaths.dfy`, `Texts.dfy` | the bounded tree walk, the manifest digest, and which files and places they stand for |
| `FileSystem.dfy`, `SealedCopy.dfy`, `SealedPlaces.dfy` | a file system with modes and failing calls, removal of a tree, and the sealed copy that undoes itself |
| `CargoRegistry.dfy`, `RegistrySeal.dfy`, `RegistryManifest.dfy`, `RegistryRows.dfy` | resolving a lockfile against an offline registry, sealing the result on the file system, reading its manifest back, and all of it in terms of the lockfile's rows |
| `Custody.dfy` | clean-up of transient paths, and the admission of all sealed inputs |
| `Materializer.dfy`, `SplicedFile.dfy` | splicing an overlay in Rust (bytes) and re-checking it in Python (characters) |
| `Observer.dfy` | the incremental trace observer |
| `FaultTranscript.dfy`, `TranscriptOutcomes.dfy` | printing a test run as a transcript and reading its outcome back |
| `Json.dfy`, `Discriminator.dfy`, `SchemaChain.dfy` | JSON normalisation, and the search for a schema's string constant |
| `EventFeed.dfy` | the server-sent event stream with lost tails and reconnects |
| `Simulator.dfy`, `SimulatorLines.dfy` | the fake App Server, and what it does in terms of the lines it reads |
| `RateLimits.dfy`, `RateReadings.dfy` | rate-limit history and forecast, and both in terms of what was observed |
| `Chunked.dfy`, `ChunkedLines.dfy`, `Utf8.dfy` | the chunked-transfer decoder, and strict and lossy UTF-8 |
| `Options.dfy` | optional values |

Conventions. State that the program updates in place is a class (`Store`,
`EvaluationService`, `FileSystem`, `SnapshotBudget`, `CustodyCleanup`, `ObservationService`,
`Stream`) whose methods are proved against functions of the old state; values are
datatypes. System and store calls that can fail take their failures from a fault schedule
that is arbitrary, so "stopped after any durable write" is one of the schedules. Clocks,
random identifiers, digests and foreign parsers are parameters. SHA-256 is an arbitrary
function; where a statement needs it to have no collisions, that is stated
(`CollisionFree` in `Observer` and `Materializer`, the `requires` of `Json.CanonicalDigest`),
together with what the JSON texts must tell apart; `Printable` says that digests contain no NUL.

Findings. Five promises do not hold of the code as it stands; each is kept as the code has
it, shown false, and given its exact condition.

- Reconnecting to the event stream before any identified event has arrived, with no cursor
  in the query, starts again at the present and loses what was appended in between
  (`EventFeed.UnnamedLoses`); delivery is exact in every run if and only if the client
  names a starting place (`EventFeed.ExactIffNamed`).
- The observer takes an unmoved watermark for an unchanged run. It agrees with the log after
  every history if and only if no version of the log has the watermark of an earlier
  observable one and a different projection (`Observer.AgreesExactly`). Three writers break
  that: attaching a thread whose rows are already logged, re-attaching a thread that some agent
  already holds (the attachment is an upsert), and the retention sweep. For any change of
  attachments the change goes unseen exactly when a logged row changes hands and the newest
  claimed id stays (`Observer.ThreadChangeUnseen`), for a sweep exactly when it reaches the run
  and the newest claimed id stays (`Observer.SweepUnseen`); a settled observer then keeps the old
  log's revision however often it looks (`Observer.ChangeStaysUnseen`, and at a concrete log for
  each of the three: `LateThreadStaysUnseen`, `MovedThreadStaysUnseen`, `SweptRowStaysUnseen`).
  While the log is only appended to and no logged row changes
  hands, the observer agrees (`Observer.ObserverAgreesWithLog`).
- A captured text that itself prints a control line makes the re-reader report Held for a
  run that was not (`FaultTranscript.ForgedExample`); the two agree exactly when no such
  text is present (`FaultTranscript.ReadersAgree`).
- The chunk decoder does not return every valid response. The response is read lossily first,
  so a chunk that ends k bytes into a longer character ends in one replacement character of three
  bytes: for k = 1 or 2 the size ends inside it and the decoder panics, for k = 3 it is silently
  returned in place of the character (`Chunked.CutShort`; `Chunked.SplitCharacterExample` panics,
  `Chunked.SilentCorruptionExample` does not). A valid body sent in non-empty chunks comes back
  if and only if every chunk is well-formed (`Chunked.BytesRoundTripExactly`); on any text the
  decoder panics exactly when a size ends inside a character (`Chunked.PanicsExactly`).
- An interrupt announces a held turn as completed but leaves it held, so the turn is
  announced again when its approval is answered (`Simulator.AnnouncedOnceUnlessInterrupted`,
  `Simulator.AnnouncedTwice`).

Also: a deferred run loses its deferral when the marker itself cannot be read, not only when
a projection fails (`Observer.DeferredTick`). Sealing a registry over an existing target
directory is refused by removing that directory (`RegistrySeal.SealRegistry`). A registry can be
sealed and still be refused when its manifest is read, because the copy measures each tree from
its own top and the manifest from the registry's (`RegistryManifest.SealableReadBack` says exactly
when, `RegistryManifest.DeepIndexExample` shows a tree). Commands that validations name cannot be
deleted, so once one of them is older than the retention window the sweep fails as a whole
(`EvaluationChain.AgedEvidenceStopsSweeps`).

## Model

| member | source | states |
|---|---|---|
| `EvaluationController.EvaluationService.RunObserverSnapshotOnce` | bins/harnessd/src/evaluation.rs:165-294 | From every store on which the record chain holds, whatever calls fail: the chain still holds and no record changes; success means Completed for the repository whose root, alone of all registrations, resolves to the place the path resolves to; without such a repository, or with the store bound to another, nothing changes; a recorded sample stops further attempts; only a failed call or a misbehaving arm stops a ready invocation |
| `EvaluationController.RunHistory` | bins/harnessd/src/evaluation.rs:165-409 | After every sequence of invocations (any repositories, any faults), registrations, invalidations and retention sweeps from an empty store, the chain holds, and a Completed status stands on the full chain of one repository |
| `EvaluationController.UndisturbedRetry` | bins/harnessd/src/evaluation.rs:165-335 | From every store on which the chain holds, hence every store such a history leaves, one undisturbed invocation for the bound repository, the one the path alone resolves to, with fresh attempts and well-behaved arms completes with the one result over the full chain |
| `EvaluationChain.CompletedMeansFullChain` | bins/harnessd/src/evaluation.rs:296-335 | Completed implies: both runs at the pinned bases of one repository, three wires with fixed content, the membership, the evaluation, the passing Champion sample with its evidence, trusted historical and fixed arms, and exactly two status rows |
| `EvaluationRecords.CompletedSpelled` | bins/harnessd/src/evaluation.rs:240-576 | The content of every record under a completed evaluation, down to what is digested: both runs, three wires, membership, launch, sample, two statuses, and an attempt of each arm proven by its own evidence |
| `EvaluationRecords.SampleProven` | crates/harness-store/src/queries.rs:520-580 | The sample's two pieces of evidence stand on successful validations and commands of the fixed run at its base, with the sample's digest and artifact |
| `EvaluationController.EvaluationService.CompleteFromSample` | bins/harnessd/src/evaluation.rs:296-335 | Completing from the recorded sample only adds a status, succeeds for the bound repository unless a call fails or the evaluation was invalidated, and is refused without change for any other repository |
| `EvaluationController.EvaluationService.ResolveRegistered` | bins/harnessd/src/evaluation.rs:337-361 | Returns a registration exactly when its root and no other registration's resolves to the place the path resolves to; nothing else is ever returned, and undisturbed that one always is |
| `EvaluationController.MatchingOne` | bins/harnessd/src/evaluation.rs:344-356 | One registration is left exactly when one root alone resolves to the requested place |
| `EvaluationController.EvaluationService.RunFor` | bins/harnessd/src/evaluation.rs:171-294 | The invocation for a repository already found: the sample short-cut, or both arms and the sample in order |
| `EvaluationController.EvaluationService.EnsureControllerRun` | bins/harnessd/src/evaluation.rs:363-409 | The arm's fixed run ends up bound to this repository and the pinned base, or nothing changes when another repository holds it; a retry never conflicts |
| `EvaluationController.EvaluationService.AppendWire` | bins/harnessd/src/evaluation.rs:1973-2001 | A wire write or its replay fails only when the call fails, and only adds a revision |
| `EvaluationController.EvaluationService.EnsureFixedEvalWires` | bins/harnessd/src/evaluation.rs:435-576 | The three closed wires are appended in dependency order after a trusted historical arm; a retry never presents different content |
| `EvaluationController.EvaluationService.AppendFixedMembership` | bins/harnessd/src/evaluation.rs:204-209 | The membership is added once and replayed without change |
| `EvaluationController.EvaluationService.PrepareHistorical` | bins/harnessd/src/evaluation.rs:191-209 | Historical arm, wires and membership in order; a foreign repository writes nothing; only a failed call or misbehaving arm stops it |
| `EvaluationController.EvaluationService.LaunchFixed` | bins/harnessd/src/evaluation.rs:212-239 | Fixed run, fixed arm, launch, sample and completion in order, keeping the chain at every stop |
| `EvaluationController.EvaluationService.RecordFixedSample` | bins/harnessd/src/evaluation.rs:240-294 | The sample bound to the re-read launch pins is accepted by every store check and completes the evaluation |
| `EvaluationController.EvaluationService.RunArm` | bins/harnessd/src/evaluation.rs:578-710 | An arm only adds records of its own attempt, changes none, and on success leaves a trusted attempt; with a fresh attempt it fails only by a failed call or misbehaviour |
| `EvaluationController.EvaluationService.RunMaterialized` | bins/harnessd/src/evaluation.rs:712-895 | Only a passing receipt is persisted, and persisted evidence counts only if the spools were discarded |
| `EvaluationController.EvaluationService.PersistArm` | bins/harnessd/src/evaluation.rs:897-1052 | Streams, commands, validations, materialisation and evidence form a complete trusted attempt, all under identifiers of that attempt |
| `EvaluationController.EvaluationService.PersistStreams` | bins/harnessd/src/evaluation.rs:920-927 | The four streams are registered within the attempt's scope |
| `EvaluationController.EvaluationService.PersistCommands` | bins/harnessd/src/evaluation.rs:928-1017 | Both commands and both validations succeed for the run at its pinned base, with the candidate's own command digest |
| `EvaluationController.EvaluationService.PersistEvidence` | bins/harnessd/src/evaluation.rs:1019-1052 | Controller and grading evidence rest on those validations and on the materialisation bound to the run |
| `EvaluationController.EvaluationService.RegisterCapture` | bins/harnessd/src/evaluation.rs:1054-1108 | Bytes then artifact row; shared bytes keep their media type |
| `EvaluationController.PassingReceipt` | bins/harnessd/src/evaluation.rs:1283-1285 | A receipt built from well-behaved observations grades as a pass, and a passing receipt has two successful commands |
| `EvaluationRecords.ReceiptExact` | bins/harnessd/src/evaluation.rs:829-878 | What the controller puts into a receipt from its arm and what it observed |
| `EvaluationRecords.GradePassExactly` | crates/harness-eval/src/observer_snapshot_bound.rs:196-262 | A receipt passes exactly when it is the one its arm must give: failure on the historical base, success on the fixed one, each with its own signal, fixture, setup and command |
| `EvaluationChain.CreateRunKeepsChain` | crates/harness-store/src/queries.rs:2822-2850 | Creating an absent controller run in order keeps the chain |
| `EvaluationChain.AppendWireKeepsChain` | crates/harness-store/src/queries.rs:2284-2400 | A wire whose content depends only on the repository is accepted new or replayed, and keeps the chain |
| `EvaluationChain.AppendMembershipOutcome` | crates/harness-store/src/queries.rs:301-355 | Exactly one membership row results from the first append and from every replay |
| `EvaluationChain.StartEvaluationKeepsChain` | crates/harness-store/src/queries.rs:357-427 | The launch passes the store's pin checks, new or replayed, and keeps the chain |
| `EvaluationChain.RecordSampleOutcome` | crates/harness-store/src/queries.rs:479-580 | A sample bound to the chain's own records passes every store check |
| `EvaluationChain.AppendCompletedKeepsChain` | crates/harness-store/src/queries.rs:429-477 | Completing over a recorded sample commits, new or replayed, and keeps the chain |
| `EvaluationChain.CustodyKeepsChain` | crates/harness-store/src/queries.rs:5487-5810 | Growing attempt-scoped tables never disturbs the chain |
| `EvaluationCommits.MembershipCommits` | crates/harness-store/src/queries.rs:301-355 | Whatever the tables hold, a case joins a taskset exactly when the manifest pins it and it is a member at that place already, or none, the place free and nothing launched |
| `EvaluationCommits.InsertedInOrder` | crates/harness-store/src/queries.rs:301-355 | A new member goes where its ordinal belongs |
| `EvaluationCommits.StartCommits` | crates/harness-store/src/queries.rs:357-427 | An evaluation starts exactly when run, wires, manifest and members all agree with it, new or the same |
| `EvaluationCommits.StatusCommits` | crates/harness-store/src/queries.rs:429-477 | A status is appended exactly to a valid evaluation, once, from Recording to Completed, or replayed as that very row |
| `EvaluationCommits.SampleCommits` | crates/harness-store/src/queries.rs:479-580 | A sample is recorded exactly when it agrees with every record it rests on, field by field and join by join, new or the same |
| `EvaluationCommits.ReadsExact` | crates/harness-store/src/queries.rs:1000-1010 | A sample is read exactly when it and its evaluation are not invalidated, and an evaluation is read with its newest status |
| `EvaluationCommits.ArtifactCommits` | crates/harness-store/src/queries.rs:5487-5560 | Bytes in custody are registered once, by their first owner; later owners bind them to their run under the same media type |
| `EvaluationCommits.EvidenceCommits` | crates/harness-store/src/queries.rs:5725-5809 | Evidence is recorded exactly when it is the same as before, or new and about bytes bound to its run |
| `EvaluationCommits.RecordsCommit` | crates/harness-store/src/queries.rs:5616-5723 | Commands and validations are recorded exactly when new or the same; runs only when new; wires when new or replayed with the same payload |
| `EvaluationCommits.WorktreeCommits` | crates/harness-store/src/queries.rs:3324-3394 | A worktree record is new, the same, or the same but active again; removal needs it there and only ends its activity |
| `EvaluationCommits.SweepCommits` | crates/harness-store/src/queries.rs:3159-3200 | A sweep takes exactly the commands older than the cutoff, or none if a validation names one of them |
| `EvaluationChain.SweepKeepsChain` | crates/harness-store/src/queries.rs:3159-3200 | A retention sweep that commits leaves the whole chain standing: no command that evidence rests on is gone |
| `EvaluationChain.AgedEvidenceStopsSweeps` | migrations/0001_initial.sql:482-482 | Once a command behind a completed evaluation's evidence is older than the cutoff, no sweep commits |
| `EvaluationCustody.RegisterProgress` | crates/harness-store/src/queries.rs:5487-5560 | Registering an artifact uses only its own identifier, binds the bytes to the run and keeps media types |
| `EvaluationCustody.CommandProgress` | crates/harness-store/src/queries.rs:5616-5667 | Recording a command adds that record only; under an unused identifier it succeeds |
| `EvaluationCustody.ValidationProgress` | crates/harness-store/src/queries.rs:5669-5723 | Recording a validation adds that record only; under an unused identifier it succeeds |
| `EvaluationCustody.EvidenceProgress` | crates/harness-store/src/queries.rs:5725-5809 | Recording evidence adds that record only; under an unused identifier with bound bytes it succeeds |
| `EvaluationCustody.OtherArmFresh` | bins/harnessd/src/evaluation.rs:1244-1254 | An attempt of one arm leaves the other arm's fresh attempts fresh |
| `Identifiers.AttemptIdsDiffer` | bins/harnessd/src/evaluation.rs:1244-1246 | Two attempt-scoped identifiers read alike exactly when arm, attempt and record agree |
| `Identifiers.AttemptIsNeverFixed` | bins/harnessd/src/evaluation.rs:1871-1873 | No attempt-scoped identifier is a fixed identifier |
| `SnapshotTree.SnapshotBudget.Admit` | bins/harnessd/src/evaluation.rs:1332-1356 | One entry is admitted against the path, entry, file and total bounds, with the running totals |
| `SnapshotTree.Collect` | bins/harnessd/src/evaluation.rs:1359-1397 | The recursive walk gives the same rows, budget or refusal as the specification |
| `SnapshotTree.WalkExact` | bins/harnessd/src/evaluation.rs:1358-1417 | A walk succeeds exactly when every entry is a plain UTF-8 file or directory within the path and depth bounds and the global counts fit; its rows and budget are then given by the tree; overflow is unreachable |
| `SnapshotTree.WalkIsOrderFree` | bins/harnessd/src/evaluation.rs:1358-1417 | Acceptance, budget and the collected rows do not depend on enumeration order at any level |
| `SnapshotPaths.RowsExact` | bins/harnessd/src/evaluation.rs:1372-1402 | In an accepted tree a row with this path, length and content is collected exactly when the parts of the path between slashes lead from the root, name by name, to a file with that content, and that is its length |
| `SnapshotPaths.AcceptedExactly` | bins/harnessd/src/evaluation.rs:1332-1397 | A tree is accepted exactly when everything in it fits where it lies (text name, 1024 bytes of path, one gibibyte, 64 levels, files and directories only) and the totals are within bounds |
| `SnapshotManifest.ContentManifestDigest` | bins/harnessd/src/evaluation.rs:1358-1417 | The digest exists exactly on acceptable trees |
| `SnapshotManifest.ManifestFields` | bins/harnessd/src/evaluation.rs:1398-1416 | The digested text field by field between NULs: its name, then path, decimal length and digest of every file, in the order of those texts |
| `SnapshotManifest.ManifestOrderFree` | bins/harnessd/src/evaluation.rs:1398-1416 | The digest is the same for every enumeration order |
| `SnapshotManifest.ManifestDetermines` | bins/harnessd/src/evaluation.rs:1398-1416 | Equal manifest texts over NUL-free paths mean equal sets of path, length and content digest |
| `SnapshotPaths.DigestExact` | bins/harnessd/src/evaluation.rs:1358-1417 | Without collisions two accepted trees have the same digest exactly when the same lists of names lead to the same contents in both |
| `SnapshotManifest.SealKeepsRows` | bins/harnessd/src/evaluation.rs:1419-1485 | Sealing changes no path, length, content or count at any depth |
| `SnapshotManifest.SealIsReadOnly` | bins/harnessd/src/evaluation.rs:1465-1480 | Sealed files have all read bits, exactly the execute bits they had and no other bit; sealed directories have exactly 0o555 |
| `SealedCopies.CopyTree` | bins/harnessd/src/evaluation.rs:1425-1485 | Whatever fails, only new files and directories at or under the target are written; success means the target is exactly the sealed tree and the budget the walk's; undisturbed it succeeds exactly when the target can be created and the walk does |
| `SealedCopies.CopyFile` | bins/harnessd/src/evaluation.rs:1458-1475 | A new file with the content and sealed mode, or at most an unfinished new file |
| `SealedCopies.Undo` | bins/harnessd/src/evaluation.rs:1494-1502 | Removing the target touches nothing else, and undisturbed it succeeds on what a copy can have written |
| `SealedCopies.SealedCopyTree` | bins/harnessd/src/evaluation.rs:1488-1503 | Undisturbed and into a creatable target it succeeds exactly on the acceptable trees, with an equal manifest and read-only modes, and its clean-up cannot fail; a refusal leaves the target absent; nothing outside the target changes |
| `SealedPlaces.SealedIsCopied` | bins/harnessd/src/evaluation.rs:1425-1485 | Below the target stand exactly the places of the copied tree, every file with its own bytes, every mode read-only |
| `Texts.JoinedRowsInjective` | bins/harnessd/src/evaluation.rs:1398-1416 | NUL-joined rows of equal width are equal only if the lists are |
| `Texts.DecimalInjective` | bins/harnessd/src/evaluation.rs:1398-1416 | Decimal lengths are unambiguous |
| `Texts.TerminatedInjective` | bins/harnessd/src/observation.rs:251-262 | NUL-terminated digest preimages of NUL-free parts determine their parts |
| `FileSystems.FileSystem.RemoveCustodyTree` | bins/harnessd/src/evaluation.rs:1842-1862 | Terminates on every file system; removes nothing outside the named subtree, never through a link; success means the whole subtree is gone; undisturbed it succeeds, read-only directories included, when no special file is inside and the parent is writable |
| `FileSystems.FileSystem.Unlink` | bins/harnessd/src/evaluation.rs:1850-1860 | A name goes only from a writable directory, and a directory only when empty |
| `Custody.CustodyCleanup.Cleanup` | bins/harnessd/src/evaluation.rs:125-138 | Every path is tried; success means all are absent and disarms; nothing outside them changes; undisturbed it succeeds when nothing special stands in the way |
| `Custody.CustodyCleanup.Drop` | bins/harnessd/src/evaluation.rs:141-149 | A clean-up still armed tries once more; one that is disarmed changes nothing |
| `Custody.CargoCacheAdmission` | bins/harnessd/src/evaluation.rs:1183-1240 | Undisturbed, admission succeeds exactly when the snapshot root and the target can be made, registry and toolchain can be sealed, and both sealed trees can be read back; a failure after the root exists leaves neither when clean-up succeeds, which undisturbed it does unless something at the target beforehand stands in its way; everything else is untouched |
| `Custody.AdmitInputs` | bins/harnessd/src/evaluation.rs:1192-1201 | Sealing the inputs, making the target and reading the manifests succeed, undisturbed, exactly on admissible inputs; they write only inside the two custody trees and the directory of targets, and nothing that could hinder their removal |
| `Custody.SealInputs` | bins/harnessd/src/evaluation.rs:1193-1195 | Registry, git cache and toolchain are sealed beside one another, none disturbing another, and lie there as the trees their manifests are read from |
| `Custody.MakeTarget` | bins/harnessd/src/evaluation.rs:1196-1197 | Undisturbed it succeeds exactly when the directory of targets is writable or can be made and holds no such target; nothing that was there changes |
| `Custody.ReadManifests` | bins/harnessd/src/evaluation.rs:1198-1200 | Undisturbed the three manifests are read exactly when the sealed registry and the sealed toolchain are acceptable trees |
| `Custody.SealToolchain` | bins/harnessd/src/evaluation.rs:1505-1542 | Undisturbed and into a creatable target it succeeds exactly when the components are directories within one budget that hold the required programs; success means the target is exactly their sealed tree, a refusal that it is absent; nothing else changes |
| `Custody.SealEmptyGit` | bins/harnessd/src/evaluation.rs:1828-1840 | Undisturbed it succeeds exactly when the target can be made; success means exactly two empty sealed directories in a sealed one, a failure leaves at most new directories there |
| `CargoRegistry.LockedPackages` | bins/harnessd/src/evaluation.rs:1641-1682 | Refused exactly when a sourced row is inadmissible or none exists; otherwise the locked packages |
| `CargoRegistry.PackagesExact` | bins/harnessd/src/evaluation.rs:1648-1679 | The locked packages are exactly those of the sourced rows, each once |
| `CargoRegistry.ResolveOne` | bins/harnessd/src/evaluation.rs:1705-1732 | A package resolves exactly when one cache directory holds its archive with the locked checksum and its source is unpacked there |
| `CargoRegistry.Resolve` | bins/harnessd/src/evaluation.rs:1703-1740 | All packages resolve, each to its one directory, or the seal is refused |
| `CargoRegistry.HomesUnique` | bins/harnessd/src/evaluation.rs:1703-1740 | There is only one way to resolve |
| `RegistryRows.ResolutionExact` | bins/harnessd/src/evaluation.rs:1703-1740 | Resolution succeeds exactly when every row with a source has exactly one cache directory with its archive (name, version, `.crate`) under the row's digest, and its source is unpacked there |
| `RegistryRows.SealableExactly` | bins/harnessd/src/evaluation.rs:1641-1810 | Lockfile and registry can be sealed exactly when all rows are well made, some row has a source, the cache can be searched, every such row has its one directory, rows spelled alike are the same package, and the budget has room |
| `RegistrySeal.SealOneRegistry` | bins/harnessd/src/evaluation.rs:1744-1767 | A registry in use gets its sealed index and two directories, exactly when the budget admits them |
| `RegistrySeal.SealRegistries` | bins/harnessd/src/evaluation.rs:1743-1768 | All registries in use, exactly when the budget admits them all |
| `RegistrySeal.SealHome` | bins/harnessd/src/evaluation.rs:1769-1795 | One package adds its sealed archive and source and nothing else, exactly when the budget admits them and the names are free |
| `RegistrySeal.SealHomes` | bins/harnessd/src/evaluation.rs:1769-1795 | All packages, exactly when the budget admits them and no two clash |
| `RegistrySeal.SealRegistry` | bins/harnessd/src/evaluation.rs:1632-1810 | Undisturbed and into a creatable target it succeeds exactly when lockfile and registry are sealable, and otherwise leaves nothing; success means exactly the plan is at the target, path by path; a refusal means the target is absent; an existing target is never sealed over; nothing else changes |
| `RegistrySeal.CacheExact` | bins/harnessd/src/evaluation.rs:1769-1783 | A registry's sealed cache lists exactly the archives of the locked packages that live there |
| `RegistrySeal.SourcesExact` | bins/harnessd/src/evaluation.rs:1784-1795 | A registry's sealed sources are exactly those of the locked packages that live there |
| `RegistrySeal.RegistriesSealed` | bins/harnessd/src/evaluation.rs:1743-1768 | The sealed indexes and caches are exactly those of the registries in use |
| `RegistrySeal.PackageSealed` | bins/harnessd/src/evaluation.rs:1769-1795 | Every locked package is there whole: its archive with the locked checksum and the sealed mode, and its sealed source at every path |
| `RegistryRows.RowSealed` | bins/harnessd/src/evaluation.rs:1672-1795 | After a successful seal every row has its one directory d, the file cache/d/name-version.crate with the row's digest, read-only, and below src/d/name-version its unpacked source place by place and nothing else |
| `RegistryRows.OnlyRowsSealed` | bins/harnessd/src/evaluation.rs:1769-1795 | Every archive and source in the sealed registry is that of a row that comes from there |
| `RegistrySeal.AffordableExactly` | bins/harnessd/src/evaluation.rs:1742-1795 | The budget suffices exactly when every index and source is plain, every archive is small enough and the totals are within bounds |
| `RegistryManifest.SealedIsTree` | bins/harnessd/src/evaluation.rs:1742-1800 | What the seal wrote path by path is one directory tree |
| `RegistryManifest.TreeTotals` | bins/harnessd/src/evaluation.rs:1332-1356 | Walking that tree from its root counts three entries more than the seal admitted, and the same bytes |
| `RegistryManifest.ReadBackExactly` | bins/harnessd/src/evaluation.rs:1198-1198 | Its manifest can be read exactly when every index and source is plain where it lies in the tree and the totals leave room for three more entries |
| `RegistryManifest.SealableReadBack` | bins/harnessd/src/evaluation.rs:1192-1198 | Of a sealable registry, exactly when every index leaves two levels and every source three, their longest paths fit behind their place, and three more entries fit |
| `RegistryManifest.PlainExactly` | bins/harnessd/src/evaluation.rs:1358-1397 | At a given place a tree is plain exactly when its entries are ordinary and its height and longest path fit |
| `RegistryManifest.DeepIndexExample` | bins/harnessd/src/evaluation.rs:1358-1369 | Sixty-three nested directories are accepted by the copy and refused where an index lies |
| `Utf8.Utf8RoundTrip` | bins/harnessd/evaluation-assets/observer_snapshot_grader.py:31-35 | Strict decoding inverts encoding for every text |
| `Materializer.HexRoundTrip` | bins/harnessd/src/evaluation.rs:1930-1940 | Reading hexadecimal back gives the bytes |
| `SplicedFile.HexReadsOnly` | bins/harnessd/evaluation-assets/observer_snapshot_grader.py:31-32 | Whatever is read as bytes is their hexadecimal form, in either case, apart from blanks |
| `SplicedFile.HexReadsApart` | bins/harnessd/evaluation-assets/observer_snapshot_grader.py:31-32 | Blanks may stand between two texts that can be read |
| `Materializer.RFindAgrees` | bins/harnessd/evaluation-assets/observer_snapshot_grader.py:40-43 | Searching bytes from the right and searching characters from the right find the same place |
| `Materializer.SplicesAgree` | bins/harnessd/src/evaluation.rs:1916-1930 | The byte splice of the controller and the character splice of the validator give the same file |
| `SplicedFile.SpliceExact` | bins/harnessd/src/evaluation.rs:1917-1930 | The spliced text is everything before the last line that starts with a closing brace, the overlay between blank line and brace; without such a line there is none |
| `SplicedFile.BuiltExact` | bins/harnessd/src/evaluation.rs:1910-1944 | The file that is written and every field of its record, from the text of the file and the overlay |
| `SplicedFile.NotText` | bins/harnessd/src/evaluation.rs:1917-1917 | A file that is not text is refused |
| `Materializer.BuiltIsAccepted` | bins/harnessd/src/evaluation.rs:1910-1964 | What the controller builds is accepted if and only if base, original and overlay are the pinned ones |
| `SplicedFile.AcceptedExactly` | bins/harnessd/evaluation-assets/observer_snapshot_grader.py:5-44 | A record is accepted exactly when schema and target are right, it holds two texts pinned for the arm it names, and it reports the digest of the one spliced into the other |
| `Materializer.AcceptedIsSpliced` | bins/harnessd/evaluation-assets/observer_snapshot_grader.py:20-44 | Every accepted artifact's resulting digest is that of a pinned overlay spliced before the last closing brace of a pinned original |
| `Materializer.AcceptedIsBuilt` | bins/harnessd/evaluation-assets/observer_snapshot_grader.py:20-44 | Without collisions every accepted artifact reports the file the controller writes for that arm |
| `Observer.ObservationService.Observe` | bins/harnessd/src/observation.rs:46-115 | One run's observation, call by call, touches that run alone |
| `Observer.ObservationService.ProjectSnapshot` | bins/harnessd/src/observation.rs:77-115 | Snapshot, clear, project, append, write cursor, with a stop possible between any two |
| `Observer.ObservationService.ObserveAndMark` | bins/harnessd/src/observation.rs:34-43 | A failure becomes that run's marker and nothing more |
| `Observer.ObservationService.ObserveOnce` | bins/harnessd/src/observation.rs:26-44 | A tick takes every run exactly where its own observation takes it, whatever happens to the others |
| `Observer.ObserveKeepsOrder` | bins/harnessd/src/observation.rs:46-115 | Whatever fails, one revision per cursor, a stored cursor names an appended revision, and none is lost |
| `Observer.HistoryIsOrderly` | bins/harnessd/src/observation.rs:26-115 | The same over every history of ticks, appends and failures |
| `Observer.HistoryIsRecorded` | bins/harnessd/src/observation.rs:26-115 | Over every such history each revision was made from a version of the log that was passed |
| `Observer.AgreesExactly` | bins/harnessd/src/observation.rs:61-115 | The observer agrees with the log after every history of given versions, whatever fails, if and only if no version has the watermark of an observable earlier one and a different projection |
| `Observer.HistoryAgrees` | bins/harnessd/src/observation.rs:61-115 | The same condition on the versions of one history makes it agree |
| `Observer.ObserverAgreesWithLog` | bins/harnessd/src/observation.rs:46-115 | After any history of an append-only log in which no logged row changes hands, a current cursor names the projection of the whole log |
| `Observer.CursorIsWatermark` | crates/harness-store/src/queries.rs:2081-2131 | The watermark computed without payloads is the cursor the snapshot would have |
| `Observer.CursorsDiffer` | bins/harnessd/src/observation.rs:152-168 | Equal cursor digests mean equal cursors, from the hash, the JSON text and the NUL-terminated preimage |
| `Observer.ReplayNeverConflicts` | bins/harnessd/src/observation.rs:95-115 | An append repeated after a stop before the cursor write never conflicts |
| `Observer.QuietTickSettles` | bins/harnessd/src/observation.rs:61-115 | An error-free tick on a quiet log leaves a current cursor, and the next tick adds nothing |
| `Observer.FaultFreeTickSucceeds` | bins/harnessd/src/observation.rs:46-115 | Without failing calls or an oversized snapshot a tick does succeed |
| `Observer.BecomesDeferred` | bins/harnessd/src/observation.rs:46-135 | A run becomes deferred exactly when every call up to the snapshot and the marker write succeed, its cursor is behind and its visible rows exceed 10,000 raw, 10,000 domain or 33,554,432 bytes; the marker has the counts taken by then |
| `Observer.OversizedRunRests` | bins/harnessd/src/observation.rs:52-60 | After that tick it takes no further snapshot and gains no revision over all later ticks, whatever becomes of its log, while its projections go on |
| `Observer.ProjectsExactly` | bins/harnessd/src/observation.rs:77-115 | A look at a run that is behind and not oversized: when every call works and nothing contradicts it, the marker is cleared, the projection appended unless present, and the cursor moved to it; otherwise the cursor stays and the failure is marked |
| `Observer.CountsAdd` | crates/harness-store/src/queries.rs:8585-8628 | The counts behind the bounds: payload bytes and own rows add up row by row |
| `Observer.DigestsSpelled` | bins/harnessd/src/observation.rs:144-168 | The preimages of the runtime and the cursor digest, part by part |
| `Observer.VisibleExact` | crates/harness-store/src/queries.rs:2133-2160 | A run sees, in order, exactly the rows in its own name and those of threads that its agents hold |
| `Observer.DeferredTick` | bins/harnessd/src/observation.rs:118-141 | A deferred run takes no snapshot and no revision, its projections run, and it stays deferred exactly when they and the marker read succeed or the new marker is not written |
| `Observer.DeferredRunStays` | bins/harnessd/src/observation.rs:46-60 | Over any number of such ticks only the two projections advance |
| `Observer.UnseenExactly` | crates/harness-store/src/queries.rs:2133-2282 | On an append-only log an unmoved watermark hides a change exactly when a logged row changes hands |
| `Observer.ThreadChangeUnseen` | crates/harness-store/src/queries.rs:3518-3534 | Any change of thread attachments goes unseen exactly when a logged row changes hands and the newest claimed id stays |
| `Observer.SweepUnseen` | crates/harness-store/src/queries.rs:3159-3200 | A retention sweep goes unseen exactly when it reaches the run and the newest claimed id stays |
| `Observer.SweepExact` | crates/harness-store/src/queries.rs:3159-3200 | A sweep leaves the raw rows not older than the cutoff and every domain row, its pointer cleared exactly if it led to one that went |
| `Observer.SettledStays` | bins/harnessd/src/observation.rs:61-76 | A settled observer stays as it is while the watermark does, however often it looks |
| `Observer.ChangeStaysUnseen` | bins/harnessd/src/observation.rs:61-115 | After any change that leaves the watermark, however often it looks, the settled observer's current revision is the old log's, and it agrees with the log exactly when the projections are equal |
| `Observer.MovedThreadStaysUnseen` | crates/harness-store/src/queries.rs:3518-3534 | The same at a concrete log when a thread passes to another run |
| `Observer.LateThreadStaysUnseen` | crates/harness-store/src/queries.rs:3518-3534 | The same when a thread is attached after its rows were logged |
| `Observer.SweptRowStaysUnseen` | crates/harness-store/src/queries.rs:3159-3200 | The same when a retention sweep removes an old row |
| `FaultTranscript.HeaderOccurs` | xtask/src/main.rs:556-622 | The success header occurs in a transcript exactly when the run exited with zero or free text contains it |
| `FaultTranscript.CaptureOccurs` | xtask/src/main.rs:556-622 | The capture line occurs exactly when the capture was complete or free text contains it |
| `FaultTranscript.ReadersAgree` | xtask/src/main.rs:672-684 | Reading a transcript gives the recorded outcome exactly when nothing in it is forged, and Held is always read as Held |
| `TranscriptOutcomes.PrintedForms` | xtask/src/main.rs:556-622 | The lines of the transcript for every kind of run |
| `TranscriptOutcomes.StatusForms` | xtask/src/main.rs:556-570 | Exit codes are printed in decimal, other endings as their text |
| `TranscriptOutcomes.OutcomeExact` | xtask/src/main.rs:759-769 | The recorded outcome from the run: Held exactly for exit code zero with complete capture and a text of the run that says one test passed, else Violated exactly if one says FAILED |
| `TranscriptOutcomes.ReadOutcomeExact` | xtask/src/main.rs:672-684 | The outcome read back from the run: Held also exactly when forged, Violated exactly if not Held and a text says FAILED |
| `FaultTranscript.CleanTextAgrees` | xtask/src/main.rs:672-684 | Captured and diagnostic text without control-line text makes both classifiers agree |
| `FaultTranscript.ForgedExample` | xtask/src/main.rs:759-769 | A concrete run that is not Held but is read as Held |
| `FaultTranscript.VerifyEvidence` | xtask/src/main.rs:654-670 | The verifier's loop accepts exactly when every file is present, has the recorded digest and command, and reads as the recorded outcome |
| `FaultTranscript.RecordedEvidenceVerifies` | xtask/src/main.rs:636-670 | What the runner records passes the verifier exactly when nothing is forged |
| `Json.NormalFormsDecideEquality` | xtask/src/main.rs:1934-1949 | Two documents have equal normal forms if and only if they are equal up to field order at every depth |
| `Json.NormalizeIdempotent` | xtask/src/main.rs:1934-1949 | Normalising twice is normalising once, and exactly the canonical documents are unchanged |
| `Json.LookupKept` | xtask/src/main.rs:1934-1949 | Every field lookup leads to the normalised value it led to before |
| `Json.CanonicalUnique` | xtask/src/main.rs:1934-1949 | A meaning has one canonical document |
| `Json.CanonicalDigest` | xtask/src/main.rs:1929-1932 | Without collisions canonical digests are equal exactly for documents that mean the same |
| `Discriminator.SchemaDiscriminator` | xtask/src/main.rs:1021-1067 | Ends on every document; says Cyclic exactly when the reference chain has no end, naming a reference followed twice; otherwise returns the constant or the rejection at which the chain settles |
| `SchemaChain.SettlesExactly` | xtask/src/main.rs:1021-1067 | From the document alone: the search settles on a constant, or on each rejection, exactly when the definition at properties.schema says so through its references |
| `SchemaChain.PointerExact` | xtask/src/main.rs:1057-1064 | A pointer leads where its tokens lead step by step, by field name or decimal position, with `~1` and `~0` read as slash and tilde (RFC 6901) |
| `Discriminator.SettlesOneWay` | xtask/src/main.rs:1021-1067 | A chain settles at most one way, and not when it is endless |
| `Discriminator.RepeatIsEndless` | xtask/src/main.rs:1051-1056 | A reference followed twice means the chain never ends |
| `EventFeed.Stream.constructor` | crates/harness-api/src/lib.rs:2468-2479 | A stream opens at the header's identifier, else at the query's, negative ones read as zero, else at the present |
| `EventFeed.Stream.Turn` | crates/harness-api/src/lib.rs:2487-2511 | One turn sends the batch above the cursor and moves to its last row, or a heartbeat, or an error |
| `EventFeed.PrefixIsWindow` | crates/harness-store/src/queries.rs:5030-5050 | The first rows of a query are everything owed between the cursor and the last of them |
| `EventFeed.RunDelivers` | crates/harness-api/src/lib.rs:2462-2515 | Over every interleaving, what was received and is under way is the window of the log since the base, in order |
| `EventFeed.DeliveryExact` | crates/harness-api/src/lib.rs:2462-2515 | Delivery since the first connection has no gap and no duplicate exactly when nothing owed lies before the base, and always when the client named a place |
| `EventFeed.DeliveredAsAsked` | crates/harness-api/src/lib.rs:2467-2512 | In every run a client that names identifier c, in the header or else in the query, gets in order and once each exactly the serialisable rows of its run above c up to the server's cursor; one that names none starts at the newest row there is for it |
| `EventFeed.HeartbeatIsCurrent` | crates/harness-api/src/lib.rs:2485-2512 | A heartbeat carries the cursor, and nothing beyond it is owed |
| `EventFeed.QuietTurn` | crates/harness-api/src/lib.rs:2485-2512 | A turn that finds nothing owed sends a heartbeat when one is due and else nothing, and reports an unreadable log |
| `EventFeed.ReceivedExact` | crates/harness-api/src/lib.rs:2468-2479 | What a client holds is complete up to the identifier it would reconnect with |
| `EventFeed.UnnamedLoses` | crates/harness-api/src/lib.rs:2473-2479 | For every log, a client that names no place loses a row appended before its first identifier |
| `EventFeed.LostBeforeFirstIdentifier` | crates/harness-api/src/lib.rs:2473-2479 | The smallest such run |
| `EventFeed.ExactIffNamed` | crates/harness-api/src/lib.rs:2462-2515 | Every run delivers exactly what is owed if and only if the client names a place |
| `EventFeed.BacklogDrains` | crates/harness-api/src/lib.rs:2487-2500 | Each turn takes a full batch off the backlog, so enough turns leave none |
| `Simulator.Serve` | bins/fake-app-server/src/main.rs:82-331 | The loop handles each line as the step function does and leaves when the process ends |
| `Simulator.HandleTurn` | bins/fake-app-server/src/main.rs:229-300 | A turn start answers, announces, and holds or finishes the turn as the scenario says |
| `Simulator.HandleReply` | bins/fake-app-server/src/main.rs:97-118 | A reply settles the held turn it names, if any |
| `Simulator.OneResponseEach` | bins/fake-app-server/src/main.rs:119-331 | The responses are the handled requests' identifiers, one each and in order |
| `Simulator.TurnsConserved` | bins/fake-app-server/src/main.rs:229-300 | In every run with fresh identifiers, started turns are the finished, the held, and the one a dying process abandons |
| `Simulator.TurnFate` | bins/fake-app-server/src/main.rs:97-118 | A turn ends once, by the first reply to its own approval, with the status and the single file edit that reply decides, and is held until then; outside the approval scenario it completes at once |
| `SimulatorLines.EndsAsAnswered` | bins/fake-app-server/src/main.rs:97-119 | The first line that answers a turn's approval ends it for good: completed with its one edit exactly if its decision is one of three texts, else failed with no edit |
| `SimulatorLines.DecisionDecides` | bins/fake-app-server/src/main.rs:101-117 | For every text d, a turn answered with decision d completes and edits exactly when d is accept, approved or approve |
| `SimulatorLines.AnswerShapes` | bins/fake-app-server/src/main.rs:101-104 | An answer with no result, no decision or a decision that is no text does not agree |
| `SimulatorLines.HeldUntilAnswered` | bins/fake-app-server/src/main.rs:260-287 | While no line answers its approval a turn shows no end and no edit |
| `SimulatorLines.AnswerEffects` | bins/fake-app-server/src/main.rs:97-119 | The lines that an answer to a held turn sends, and no others |
| `SimulatorLines.BeginEffects` | bins/fake-app-server/src/main.rs:229-300 | The lines that beginning a turn sends in each scenario, and what is held |
| `SimulatorLines.RequestEffects` | bins/fake-app-server/src/main.rs:123-307 | The answer to each plain request by its name |
| `SimulatorLines.InterruptEffects` | bins/fake-app-server/src/main.rs:308-320 | An interrupt announces the turn it names, if it names its thread too, and leaves it held |
| `SimulatorLines.GoalEffects` | bins/fake-app-server/src/main.rs:216-228 | A goal is kept for the thread it names |
| `SimulatorLines.OtherNames` | bins/fake-app-server/src/main.rs:321-328 | Any other name is refused with -32601 |
| `SimulatorLines.IgnoredLines` | bins/fake-app-server/src/main.rs:89-122 | A line that is no message, names no identifier or answers nothing held changes nothing |
| `Simulator.UnstartedStays` | bins/fake-app-server/src/main.rs:97-118 | A turn nobody started never finishes and edits nothing |
| `Simulator.AnnouncedOnceUnlessInterrupted` | bins/fake-app-server/src/main.rs:308-322 | A turn is announced completed once for its decision and once per interrupt naming it |
| `Simulator.InterruptedThenApproved` | bins/fake-app-server/src/main.rs:308-322 | Every held turn that is interrupted and then approved is announced twice |
| `Simulator.AnnouncedTwice` | bins/fake-app-server/src/main.rs:308-322 | Three concrete lines that do it |
| `RateLimits.RecordWindow` | ui/src/App.tsx:2003-2026 | One window is skipped or appended exactly as specified |
| `RateLimits.RecordRateLimitHistory` | ui/src/App.tsx:1990-2030 | The three loops apply every observation of the snapshot in order |
| `RateLimits.ApplyKeeps` | ui/src/App.tsx:2003-2026 | An update keeps all lists well kept, touches one list, and extends it by the observation after the newest of its base |
| `RateReadings.RecordedExactly` | ui/src/App.tsx:2003-2026 | An observation is recorded exactly when it is news (newer than the last recent sample and five minutes newer within its cycle); its list is then the recent samples of the cycle, at most 639, and the observation |
| `RateReadings.ObservationsExact` | ui/src/App.tsx:1996-2003 | Exactly the windows of ready, observed accounts are observations |
| `RateLimits.AlwaysKept` | ui/src/App.tsx:1990-2030 | Over every sequence of updates each list has at most 640 samples, five minutes apart, one reset time and non-increasing remaining |
| `RateLimits.SortIsIdentity` | ui/src/App.tsx:2045-2053 | Sorting such a list changes nothing |
| `RateLimits.ComponentsPositive` | ui/src/App.tsx:2054-2106 | Every component has a positive rate and weight, and the filtered list is already sorted |
| `RateReadings.TrendsExact` | ui/src/App.tsx:2045-2076 | The two trends are what was drained between the first and the last sample of the cycle within a day and within four hours, per hour, from two hours and one hour on and one percent |
| `RateReadings.AverageExact` | ui/src/App.tsx:2077-2087 | The window's average is what was used over the time since the window began, from a quarter of an hour on and until its reset |
| `RateLimits.ForecastIsBlended` | ui/src/App.tsx:2103-2130 | A forecast is made exactly when something remains and a component exists; its rate is positive and within every bounds of the component rates |
| `RateReadings.ForecastExact` | ui/src/App.tsx:2032-2140 | The rate is the mean of the day's trend (weight 4), the recent trend where it covers less (2) and the window's average (1, 2 or 4); exhaustion is when the remainder is used up at it |
| `RateLimits.LastsMeansEnough` | ui/src/App.tsx:2128-2132 | "Lasts past reset" means that burning at that rate until the reset uses no more than remains |
| `Chunked.DecodeChunked` | bins/harness-desktop/src/notify.rs:186-209 | The loop terminates and equals the recursive decoding, panics included |
| `Chunked.RoundTrip` | bins/harness-desktop/src/notify.rs:186-209 | Decoding undoes the chunked coding (section 7.1 of RFC 9112) for every list of non-empty chunks of text |
| `Chunked.BytesRoundTrip` | bins/harness-desktop/src/notify.rs:149-209 | Through the lossy reading of the response, byte chunks that are each well-formed come back as their text |
| `Chunked.BytesRoundTripExactly` | bins/harness-desktop/src/notify.rs:149-209 | A valid body in non-empty chunks comes back as its text if and only if every chunk is well-formed |
| `Chunked.BytesExact` | bins/harness-desktop/src/notify.rs:149-209 | The same for every text and every way to cut its bytes into chunks |
| `Chunked.CutShort` | bins/harness-desktop/src/notify.rs:149-209 | A chunk that ends one or two bytes into a longer character panics; one that ends three bytes into it is read with a replacement character, whatever follows |
| `Chunked.SilentCorruptionExample` | bins/harness-desktop/src/notify.rs:149-209 | A valid two-chunk response that does not panic and comes back as other text, given in full |
| `Chunked.LoneBytePanics` | bins/harness-desktop/src/notify.rs:149-209 | A chunk that is one byte of a longer character panics, whatever follows |
| `Chunked.SplitCharacterExample` | bins/harness-desktop/src/notify.rs:149-209 | A valid response, one character in two chunks, that panics |
| `Utf8.LossyKeeps` | bins/harness-desktop/src/notify.rs:150-150 | Lossy reading loses nothing of well-formed bytes |
| `Utf8.LossyPart` | bins/harness-desktop/src/notify.rs:150-150 | The beginning of a character before an ASCII byte is read as one replacement character |
| `Chunked.DecodeFrames` | bins/harness-desktop/src/notify.rs:186-209 | Any valid frames, however their size lines and breaks are written, are taken off in order |
| `Chunked.NeverLonger` | bins/harness-desktop/src/notify.rs:186-209 | Output is never longer than input |
| `Chunked.AsciiNeverPanics` | bins/harness-desktop/src/notify.rs:186-209 | No ASCII body panics |
| `Chunked.PanicsExactly` | bins/harness-desktop/src/notify.rs:204-206 | The decoder panics exactly when, after whole frames, a size splits a character |
| `Chunked.PanicExample` | bins/harness-desktop/src/notify.rs:204-206 | A concrete body that panics |
| `ChunkedLines.SizeExact` | bins/harness-desktop/src/notify.rs:194-197 | A line is read as size n exactly when it is hexadecimal digits of n below two to the sixty-fourth, perhaps after a plus sign, with white space around |
| `ChunkedLines.DecodesAsIs` | bins/harness-desktop/src/notify.rs:190-197 | A text without a line break, or whose first line is no size, is returned as it is |
| `ChunkedLines.DecodesBySize` | bins/harness-desktop/src/notify.rs:198-207 | What a size line of n leads to: the end, the rest as it is, a panic, or the characters of n bytes and the decoding of what follows them and the line breaks |

## Left out

- Time-of-check checks: the device and inode comparisons and no-follow opens around sealed copies are not modelled; a tree does not change while it is walked.
- Purging a whole run: not modelled. The retention sweep is modelled for the observer's log and for the commands an evaluation rests on, each by itself.
- Truncated digests: identifiers that carry only a prefix of a digest are modelled with the whole digest.
- The legacy branch of `run_arm` that meets an existing worktree path, and worktree creation by git: an arm's script says whether creation, removal and the sandboxed commands worked.
- Samples classified infrastructure-unavailable: the controller never records one, so that branch of the store's sample check is not modelled.
- Real processes, pipes, signals, clocks and sleeping, including `read_child_pipe` and the event stream's poll interval: operating-system behaviour.
- TOML, YAML and JSON parsing and printing, SHA-256, and the scripted response texts: parameters or plain datatypes.
- A failing request when an event stream is opened: the client then holds no stream.
- The history key of a rate limit is a tuple of its parts rather than their text joined by colons.
- Floating-point rounding in the forecast: rates are real numbers.
- Links as the top of an archive, an index or an unpacked source in the offline registry: these are given as files and directories; links inside them are refused.
- Lockfile packages are taken in lockfile order, where the program takes them sorted; no result depends on the order.
- HTTP head parsing, `list_failure_overview`, `yaml_pointer`, `normalize_path_parameters`: they would only add easy members.
- React components, the desktop shell, authentication, origin checks, routing, command-line handling, provider switching: not decided by the modelled logic.
- EvaluationController.EvaluationService.RunArm: does not say what the sandboxed commands do, because their results are inputs of the arm's script.
- SnapshotTree.WalkExact: does not model directory listing errors, because the tree is given as listed.
- EvaluationController.EvaluationService.RunMaterialized: does not repeat the admission of sealed inputs and its clean-up, because they are modelled in `Custody`; their results, and those of the drift checks on the sealed manifests, are inputs of the arm's script.
- Custody.MakeTarget: does not model a link to a directory at the place of the directory of targets, because paths are not resolved through links; the model refuses it.
