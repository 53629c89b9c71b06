/**
  The trace observer: per run, a cursor over the run's event log and one trace revision per
  cursor.  The log may grow between the observer's store calls, and any call may fail, so a
  stop between appending a revision and writing its cursor is among the cases.
 */
module Observer {
  import opened Options
  import opened Texts

  type RunId = string
  type ThreadId = string
  type AgentId = string
  type Body(==, !new)
  type Structure(==, !new)
  type Payload(==, !new)
  type Digest = Text

  // ------------------------------------------------------------------------ the log

  /** A row names its run, or only a thread that some agent of a run may hold. */
  datatype Owner = OfRun(run: RunId) | OfThread(thread: ThreadId)

  /** `source` is the raw row a domain row was derived from. */
  datatype Row = Row(id: nat, owner: Owner, received: int, source: Option<nat>, bytes: nat, body: Body)

  /** Who holds a thread: an agent, and through it a run. */
  datatype Attachment = Attachment(agent: AgentId, run: RunId)

  type Threads = map<ThreadId, Attachment>

  datatype Pins = Pins(base: Text, authority: Text, profile: Text)

  /** A run's own pins and its structural receipts. */
  datatype Fabric = Fabric(pins: Pins, receipts: Structure)

  datatype Log = Log(raw: seq<Row>, domain: seq<Row>, threads: Threads, runs: map<RunId, Fabric>)

  /** How a run comes by a row: in its own name, or through the agent that holds the thread. */
  datatype Claim = Direct | Through(agent: AgentId)

  function ClaimOf(row: Row, threads: Threads, run: RunId): Option<Claim> {
    match row.owner
    case OfRun(r) => if r == run then Some(Direct) else None
    case OfThread(t) => if t in threads && threads[t].run == run then Some(Through(threads[t].agent)) else None
  }

  datatype Receipt = Receipt(row: Row, claim: Claim)

  /** The rows a run can claim, in order, each with how it is claimed. */
  function Visible(rows: seq<Row>, threads: Threads, run: RunId): seq<Receipt> {
    if rows == [] then []
    else
      var rest, last := Visible(rows[..|rows| - 1], threads, run), rows[|rows| - 1];
      match ClaimOf(last, threads, run) case None => rest case Some(claim) => rest + [Receipt(last, claim)]
  }

  predicate Increasing(rows: seq<Row>) {
    && (forall i :: 0 <= i < |rows| ==> rows[i].id > 0)
    && (forall i, j :: 0 <= i < j < |rows| ==> rows[i].id < rows[j].id)
  }

  /** Ids are positive and ascend; domain rows always name their run. */
  predicate ValidLog(l: Log) {
    Increasing(l.raw) && Increasing(l.domain) && forall i :: 0 <= i < |l.domain| ==> l.domain[i].owner.OfRun?
  }

  // ---------------------------------------------------------- snapshots and cursors

  datatype Snapshot = Snapshot(raw: seq<Receipt>, domain: seq<Receipt>, fabric: Option<Fabric>)

  function FabricOf(l: Log, run: RunId): Option<Fabric> { if run in l.runs then Some(l.runs[run]) else None }

  function TakeSnapshot(l: Log, run: RunId): Snapshot {
    Snapshot(Visible(l.raw, l.threads, run), Visible(l.domain, l.threads, run), FabricOf(l, run))
  }

  datatype Cursor = Cursor(raw: nat, domain: nat, structural: Digest, runtime: Digest)

  /** The hash, the JSON texts and the projection are parameters: nothing is assumed of them unless said. */
  datatype Env = Env(
    hash: Text -> Text,
    cursorJson: Cursor -> Text,
    structureJson: Option<Fabric> -> Text,
    payloadJson: Payload -> Text,
    project: Snapshot -> Option<Payload>)

  /** `digest`: every part followed by a NUL. */
  function DigestOf(env: Env, parts: seq<Text>): Digest { env.hash(Terminated(parts)) }

  function RuntimeDigest(env: Env, fabric: Option<Fabric>): Digest {
    match fabric
    case None => []
    case Some(f) => DigestOf(env, [Codes("harness.trace.runtime.v1"), f.pins.base, f.pins.authority, f.pins.profile])
  }

  function CursorDigest(env: Env, c: Cursor): Digest {
    DigestOf(env, [Codes("harness.trace.cursor.v2"), env.cursorJson(c)])
  }

  /** `max(id)` over the rows a run can claim, or 0. */
  function MaxClaimed(rows: seq<Row>, threads: Threads, run: RunId): nat {
    if rows == [] then 0
    else
      var rest, last := MaxClaimed(rows[..|rows| - 1], threads, run), rows[|rows| - 1];
      if ClaimOf(last, threads, run).Some? && last.id > rest then last.id else rest
  }

  /** The cursor computed without reading payloads. */
  function Watermark(env: Env, l: Log, run: RunId): Cursor {
    Cursor(MaxClaimed(l.raw, l.threads, run), MaxClaimed(l.domain, l.threads, run),
           env.hash(env.structureJson(FabricOf(l, run))), RuntimeDigest(env, FabricOf(l, run)))
  }

  function LastId(receipts: seq<Receipt>): nat { if receipts == [] then 0 else receipts[|receipts| - 1].row.id }

  /** The cursor of a snapshot that was read. */
  function CursorOf(env: Env, s: Snapshot): Cursor {
    Cursor(LastId(s.raw), LastId(s.domain), env.hash(env.structureJson(s.fabric)), RuntimeDigest(env, s.fabric))
  }

  const MAX_RECEIPTS: nat := 10_000
  const MAX_PAYLOAD_BYTES: nat := 33_554_432

  function TotalBytes(rows: seq<Receipt>): nat {
    if rows == [] then 0 else rows[0].row.bytes + TotalBytes(rows[1..])
  }

  predicate TooLarge(s: Snapshot) {
    || |s.raw| > MAX_RECEIPTS || |s.domain| > MAX_RECEIPTS
    || TotalBytes(s.raw) + TotalBytes(s.domain) > MAX_PAYLOAD_BYTES
  }

  // ------------------------------------------------------------- what is kept per run

  /** The counts as far as they were taken when the bound was met. */
  datatype Marker = SnapshotLimit(raw: nat, domain: nat, bytes: Option<nat>) | ProjectionFailed

  datatype Revision = Revision(key: Digest, payload: Payload)

  datatype Part = Part(
    cursor: Option<Digest>, error: Option<Marker>, revisions: seq<Revision>,
    outcomes: nat, failures: nat, snapshots: nat)

  const EMPTY_PART: Part := Part(None, None, [], 0, 0, 0)

  datatype Failure = Bound(raw: nat, domain: nat, bytes: Option<nat>) | Other

  function MarkerOf(e: Failure): Marker {
    match e case Bound(raw, domain, bytes) => SnapshotLimit(raw, domain, bytes) case Other => ProjectionFailed
  }

  function DirectCount(rows: seq<Receipt>): (n: nat)
    ensures n <= |rows|
  {
    if rows == [] then 0 else (if rows[0].claim.Direct? then 1 else 0) + DirectCount(rows[1..])
  }

  /** The bounds in the order they are met: rows of the run's own, then all rows, then their bytes. */
  function BoundMet(s: Snapshot): Failure
    requires TooLarge(s)
  {
    if DirectCount(s.raw) > MAX_RECEIPTS || |s.domain| > MAX_RECEIPTS then Bound(DirectCount(s.raw), |s.domain|, None)
    else if |s.raw| > MAX_RECEIPTS then Bound(|s.raw|, |s.domain|, None)
    else Bound(|s.raw|, |s.domain|, Some(TotalBytes(s.raw) + TotalBytes(s.domain)))
  }

  predicate Deferred(p: Part) { p.error.Some? && p.error.value.SnapshotLimit? }

  function Find(revisions: seq<Revision>, key: Digest): Option<Revision> {
    if revisions == [] then None
    else if revisions[0].key == key then Some(revisions[0])
    else Find(revisions[1..], key)
  }

  /** Append under an idempotency key: a replay must carry the same payload digest. */
  function Append(env: Env, revisions: seq<Revision>, row: Revision): Option<seq<Revision>> {
    match Find(revisions, row.key)
    case None => Some(revisions + [row])
    case Some(existing) => if env.hash(env.payloadJson(existing.payload)) == env.hash(env.payloadJson(row.payload)) then Some(revisions) else None
  }

  /** Which of the store calls of one observation fail. */
  datatype Faults = Faults(
    outcomes: bool, failures: bool, readError: bool, watermark: bool, readCursor: bool,
    snapshot: bool, reread: bool, clear: bool, append: bool, write: bool, mark: bool)

  const NO_FAULTS: Faults := Faults(false, false, false, false, false, false, false, false, false, false, false)

  datatype Observed = Observed(part: Part, failure: Option<Failure>)

  /** One run, with the log as it is at the watermark and as it is at the snapshot. */
  function ObserveRun(env: Env, run: RunId, before: Log, after: Log, p0: Part, f: Faults): Observed {
    if f.outcomes then Observed(p0, Some(Other))
    else
      var p1 := p0.(outcomes := p0.outcomes + 1);
      if f.failures then Observed(p1, Some(Other))
      else
        var p2 := p1.(failures := p1.failures + 1);
        if f.readError then Observed(p2, Some(Other))
        else if Deferred(p2) then Observed(p2, None)
        else if f.watermark || f.readCursor then Observed(p2, Some(Other))
        else if p2.cursor == Some(CursorDigest(env, Watermark(env, before, run))) then Observed(p2, None)
        else Project(env, run, after, p2, f)
  }

  /** From the snapshot on: clear the marker, project, append, move the cursor. */
  function Project(env: Env, run: RunId, l: Log, p: Part, f: Faults): Observed {
    var s := TakeSnapshot(l, run);
    if f.snapshot then Observed(p, Some(Other))
    else if TooLarge(s) then Observed(p, Some(BoundMet(s)))
    else
      var p1 := p.(snapshots := p.snapshots + 1);
      if f.reread || (p1.error.Some? && f.clear) then Observed(p1, Some(Other))
      else
        var p2 := p1.(error := None);
        match env.project(s)
        case None => Observed(p2, Some(Other))
        case Some(payload) =>
          var key := CursorDigest(env, CursorOf(env, s));
          match if f.append then None else Append(env, p2.revisions, Revision(key, payload))
          case None => Observed(p2, Some(Other))
          case Some(revisions) =>
            var p3 := p2.(revisions := revisions);
            if f.write then Observed(p3, Some(Other)) else Observed(p3.(cursor := Some(key)), None)
  }

  /** A failure leaves a marker on its own run, unless that write fails too. */
  function Marked(o: Observed, f: Faults): Part {
    if o.failure.None? || f.mark then o.part else o.part.(error := Some(MarkerOf(o.failure.value)))
  }

  // ------------------------------------------------------------------- the service

  class ObservationService {
    const env: Env
    var parts: map<RunId, Part>

    constructor (env: Env)
      ensures this.env == env && parts == map[]
    {
      this.env := env;
      parts := map[];
    }

    function PartOf(run: RunId): Part
      reads this
    {
      if run in parts then parts[run] else EMPTY_PART
    }

    /** One observation, call by call. */
    method Observe(run: RunId, before: Log, after: Log, f: Faults) returns (failure: Option<Failure>)
      modifies this
      ensures PartOf(run) == ObserveRun(env, run, before, after, old(PartOf(run)), f).part
      ensures failure == ObserveRun(env, run, before, after, old(PartOf(run)), f).failure
      ensures forall r :: r != run ==> PartOf(r) == old(PartOf(r))
    {
      hide Project;
      var p := PartOf(run);
      if f.outcomes { return Some(Other); }
      p := p.(outcomes := p.outcomes + 1);
      parts := parts[run := p];
      if f.failures { return Some(Other); }
      p := p.(failures := p.failures + 1);
      parts := parts[run := p];
      if f.readError { return Some(Other); }
      if Deferred(p) { return None; }
      if f.watermark || f.readCursor { return Some(Other); }
      if p.cursor == Some(CursorDigest(env, Watermark(env, before, run))) { return None; }
      failure := ProjectSnapshot(run, after, f);
    }

    method ProjectSnapshot(run: RunId, l: Log, f: Faults) returns (failure: Option<Failure>)
      modifies this
      ensures PartOf(run) == Project(env, run, l, old(PartOf(run)), f).part
      ensures failure == Project(env, run, l, old(PartOf(run)), f).failure
      ensures forall r :: r != run ==> PartOf(r) == old(PartOf(r))
    {
      hide TooLarge, BoundMet, TakeSnapshot, CursorOf, CursorDigest, Append;
      if f.snapshot { return Some(Other); }
      var p := PartOf(run);
      var s := TakeSnapshot(l, run);
      if TooLarge(s) { return Some(BoundMet(s)); }
      p := p.(snapshots := p.snapshots + 1);
      parts := parts[run := p];
      if f.reread { return Some(Other); }
      if p.error.Some? {
        if f.clear { return Some(Other); }
        p := p.(error := None);
        parts := parts[run := p];
      }
      var payload := env.project(s);
      if payload.None? { return Some(Other); }
      var key := CursorDigest(env, CursorOf(env, s));
      if f.append { return Some(Other); }
      var appended := Append(env, p.revisions, Revision(key, payload.value));
      if appended.None? { return Some(Other); }
      p := p.(revisions := appended.value);
      parts := parts[run := p];
      if f.write { return Some(Other); }
      parts := parts[run := p.(cursor := Some(key))];
      return None;
    }

    /** One run of a tick: a failure is recorded as that run's marker and goes no further. */
    method ObserveAndMark(run: RunId, before: Log, after: Log, f: Faults)
      modifies this
      ensures PartOf(run) == Marked(ObserveRun(env, run, before, after, old(PartOf(run)), f), f)
      ensures forall r :: r != run ==> PartOf(r) == old(PartOf(r))
    {
      hide ObserveRun;
      var failure := Observe(run, before, after, f);
      if failure.Some? {
        var marker := MarkerOf(failure.value);
        if PartOf(run).error != Some(marker) && !f.mark {
          parts := parts[run := PartOf(run).(error := Some(marker))];
        }
      }
    }

    /**
      A tick over distinct runs: each run ends exactly where its own observation takes it,
      whatever happens to the others.
     */
    method ObserveOnce(runs: seq<RunId>, views: map<RunId, (Log, Log)>, faults: map<RunId, Faults>)
      requires forall i, j :: 0 <= i < j < |runs| ==> runs[i] != runs[j]
      requires forall r :: r in runs ==> r in views && r in faults
      modifies this
      ensures forall r :: r in runs ==>
                PartOf(r) == Marked(ObserveRun(env, r, views[r].0, views[r].1, old(PartOf(r)), faults[r]), faults[r])
      ensures forall r :: r !in runs ==> PartOf(r) == old(PartOf(r))
    {
      hide Marked, ObserveRun, PartOf;
      for i := 0 to |runs|
        invariant forall j :: 0 <= j < i ==>
                    PartOf(runs[j]) == Marked(ObserveRun(env, runs[j], views[runs[j]].0, views[runs[j]].1, old(PartOf(runs[j])), faults[runs[j]]), faults[runs[j]])
        invariant forall r :: (forall j :: 0 <= j < i ==> runs[j] != r) ==> PartOf(r) == old(PartOf(r))
      {
        var run := runs[i];
        ObserveAndMark(run, views[run].0, views[run].1, faults[run]);
      }
    }
  }

  // ------------------------------------------------- one revision per cursor, always

  ghost predicate DistinctKeys(revisions: seq<Revision>) {
    forall i, j :: 0 <= i < j < |revisions| ==> revisions[i].key != revisions[j].key
  }

  /** At most one revision per cursor, and a stored cursor names one of them. */
  ghost predicate Orderly(p: Part) {
    DistinctKeys(p.revisions) && (p.cursor.Some? ==> Find(p.revisions, p.cursor.value).Some?)
  }

  lemma {:induction false} FindFacts(revisions: seq<Revision>, key: Digest)
    ensures Find(revisions, key).None? <==> forall i :: 0 <= i < |revisions| ==> revisions[i].key != key
    ensures Find(revisions, key).Some? ==> Find(revisions, key).value in revisions && Find(revisions, key).value.key == key
  {
    if revisions != [] {
      FindFacts(revisions[1..], key);
      assert revisions == [revisions[0]] + revisions[1..];
      assert Find(revisions[1..], key).None? ==>
               forall i :: 0 < i < |revisions| ==> revisions[i] == revisions[1..][i - 1] && revisions[i].key != key;
    }
  }

  lemma {:induction false} AppendFacts(env: Env, revisions: seq<Revision>, row: Revision, key: Digest)
    requires DistinctKeys(revisions) && Append(env, revisions, row).Some?
    ensures var after := Append(env, revisions, row).value;
            && DistinctKeys(after) && revisions <= after
            && Find(after, row.key).Some?
            && (Find(revisions, key).Some? ==> Find(after, key) == Find(revisions, key))
  {
    var after := Append(env, revisions, row).value;
    FindFacts(revisions, row.key);
    FindFacts(after, row.key);
    FindGrows(revisions, row, key);
    FindGrows(revisions, row, row.key);
  }

  lemma {:induction false} FindGrows(revisions: seq<Revision>, row: Revision, key: Digest)
    ensures Find(revisions, key).Some? ==> Find(revisions + [row], key) == Find(revisions, key)
    ensures Find(revisions, key).None? && row.key == key ==> Find(revisions + [row], key) == Some(row)
  {
    if revisions == [] {
      assert revisions + [row] == [row];
    } else {
      assert (revisions + [row])[1..] == revisions[1..] + [row];
      FindGrows(revisions[1..], row, key);
    }
  }

  /** Whatever fails and however the log moves, order is kept and no revision is lost. */
  lemma {:induction false} ObserveKeepsOrder(env: Env, run: RunId, before: Log, after: Log, p: Part, f: Faults)
    requires Orderly(p)
    ensures var q := Marked(ObserveRun(env, run, before, after, p, f), f); Orderly(q) && p.revisions <= q.revisions
  {
    hide TakeSnapshot, Watermark, CursorOf, TooLarge, Append;
    var s := TakeSnapshot(after, run);
    if env.project(s).Some? {
      var row := Revision(CursorDigest(env, CursorOf(env, s)), env.project(s).value);
      if Append(env, p.revisions, row).Some? {
        AppendFacts(env, p.revisions, row, if p.cursor.Some? then p.cursor.value else row.key);
      }
    }
  }

  // -------------------------------------------------------------- claims and snapshots

  lemma {:induction false} VisibleMember(rows: seq<Row>, threads: Threads, run: RunId, r: Receipt)
    ensures r in Visible(rows, threads, run) <==> r.row in rows && ClaimOf(r.row, threads, run) == Some(r.claim)
  {
    hide ClaimOf;
    if rows != [] {
      assert rows == rows[..|rows| - 1] + [rows[|rows| - 1]];
      VisibleMember(rows[..|rows| - 1], threads, run, r);
    }
  }

  predicate Ascending(receipts: seq<Receipt>) {
    forall i, j :: 0 <= i < j < |receipts| ==> receipts[i].row.id < receipts[j].row.id
  }

  lemma {:induction false} VisibleAscending(rows: seq<Row>, threads: Threads, run: RunId)
    requires Increasing(rows)
    ensures Ascending(Visible(rows, threads, run))
    ensures LastId(Visible(rows, threads, run)) == MaxClaimed(rows, threads, run)
  {
    hide ClaimOf;
    if rows != [] {
      var init, last := rows[..|rows| - 1], rows[|rows| - 1];
      VisibleAscending(init, threads, run);
      forall r | r in Visible(init, threads, run) ensures r.row.id < last.id {
        VisibleMember(init, threads, run, r);
        var i :| 0 <= i < |init| && init[i] == r.row;
        assert rows[i] == r.row;
      }
      var v := Visible(init, threads, run);
      assert v != [] ==> v[|v| - 1] in v;
    }
  }

  /** The watermark is the cursor the snapshot would have. */
  lemma {:induction false} CursorIsWatermark(env: Env, l: Log, run: RunId)
    requires ValidLog(l)
    ensures CursorOf(env, TakeSnapshot(l, run)) == Watermark(env, l, run)
  {
    VisibleAscending(l.raw, l.threads, run);
    VisibleAscending(l.domain, l.threads, run);
  }

  /** Ascending receipts are determined by which they are. */
  lemma {:induction false} SameReceipts(a: seq<Receipt>, b: seq<Receipt>)
    requires Ascending(a) && Ascending(b) && forall r :: r in a <==> r in b
    ensures a == b
  {
    assert (a != [] ==> a[0] in a) && (b != [] ==> b[0] in b);
    if a != [] {
      var x, y := a[1..], b[1..];
      assert a == [a[0]] + x && b == [b[0]] + y;
      FirstIsLeast(a, b[0]);
      FirstIsLeast(b, a[0]);
      forall r ensures r in x <==> r in y { NotAgain(a, r); NotAgain(b, r); }
      SameReceipts(x, y);
    }
  }

  lemma {:induction false} FirstIsLeast(a: seq<Receipt>, r: Receipt)
    requires Ascending(a) && r in a
    ensures a[0].row.id <= r.row.id && (a[0].row.id == r.row.id ==> r == a[0])
  {
    var i :| 0 <= i < |a| && a[i] == r;
  }

  lemma {:induction false} NotAgain(a: seq<Receipt>, r: Receipt)
    requires Ascending(a) && a != []
    ensures r in a[1..] <==> r in a && r != a[0]
  {
    assert a == [a[0]] + a[1..];
    if r in a[1..] {
      var i :| 0 <= i < |a[1..]| && a[1..][i] == r;
      assert a[i + 1] == r;
    }
  }

  // ----------------------------------------------------- what revisions were made from

  /** No two hash inputs share a digest, and the JSON texts are free of NUL and tell values apart. */
  ghost predicate CollisionFree(env: Env) {
    && (forall x, y :: env.hash(x) == env.hash(y) ==> x == y)
    && (forall c :: NulFree(env.cursorJson(c)))
    && (forall c, d :: env.cursorJson(c) == env.cursorJson(d) ==> c == d)
    && (forall a, b :: env.structureJson(a) == env.structureJson(b) ==> a == b)
  }

  /** Equal cursor digests mean equal cursors: the parts of the preimage can be told apart. */
  lemma {:induction false} CursorsDiffer(env: Env, c: Cursor, d: Cursor)
    requires CollisionFree(env) && CursorDigest(env, c) == CursorDigest(env, d)
    ensures c == d
  {
    var tag := Codes("harness.trace.cursor.v2");
    var x, y := [tag, env.cursorJson(c)], [tag, env.cursorJson(d)];
    assert NulFree(tag);
    TerminatedInjective(x, y);
    assert x[1] == y[1];
  }

  /** A run whose snapshot can be recorded. */
  predicate Observable(env: Env, l: Log, run: RunId) {
    !TooLarge(TakeSnapshot(l, run)) && env.project(TakeSnapshot(l, run)).Some?
  }

  /** A revision made from this version of the log. */
  predicate Records(env: Env, l: Log, run: RunId, r: Revision) {
    && Observable(env, l, run)
    && env.project(TakeSnapshot(l, run)) == Some(r.payload)
    && r.key == CursorDigest(env, CursorOf(env, TakeSnapshot(l, run)))
  }

  ghost predicate MadeFrom(env: Env, versions: seq<Log>, run: RunId, r: Revision) {
    exists k :: 0 <= k < |versions| && Records(env, versions[k], run, r)
  }

  ghost predicate Recorded(env: Env, versions: seq<Log>, run: RunId, p: Part) {
    forall r :: r in p.revisions ==> MadeFrom(env, versions, run, r)
  }

  /** The only revision an observation can add is made from the log it snapshots. */
  lemma {:induction false} ObserveAppends(env: Env, run: RunId, before: Log, after: Log, p: Part, f: Faults)
    ensures var q := Marked(ObserveRun(env, run, before, after, p, f), f).revisions;
            q == p.revisions || exists r :: q == p.revisions + [r] && Records(env, after, run, r)
  {
    hide TakeSnapshot, Watermark, TooLarge, CursorOf, Find, CursorDigest;
    var q := Marked(ObserveRun(env, run, before, after, p, f), f).revisions;
    if q != p.revisions {
      var s := TakeSnapshot(after, run);
      var r := Revision(CursorDigest(env, CursorOf(env, s)), env.project(s).value);
      assert q == p.revisions + [r] && Records(env, after, run, r);
    }
  }

  // ----------------------------------------------------------------- whole histories

  datatype Event = Grow(log: Log) | Look(run: RunId, log: Log, faults: Faults)

  datatype World = World(log: Log, parts: map<RunId, Part>)

  function PartIn(w: World, run: RunId): Part { if run in w.parts then w.parts[run] else EMPTY_PART }

  function Step(env: Env, w: World, e: Event): World {
    match e
    case Grow(log) => w.(log := log)
    case Look(run, log, f) =>
      World(log, w.parts[run := Marked(ObserveRun(env, run, w.log, log, PartIn(w, run), f), f)])
  }

  function History(env: Env, w: World, events: seq<Event>): World {
    if events == [] then w else Step(env, History(env, w, events[..|events| - 1]), events[|events| - 1])
  }

  /** The versions of the log that a history passes through. */
  function Versions(l: Log, events: seq<Event>): (versions: seq<Log>)
    ensures |versions| == |events| + 1
    ensures versions[0] == l && forall k :: 0 <= k < |events| ==> versions[k + 1] == events[k].log
  {
    [l] + seq(|events|, k requires 0 <= k < |events| => events[k].log)
  }

  lemma {:induction false} HistoryIsOrderly(env: Env, l: Log, events: seq<Event>, run: RunId)
    ensures Orderly(PartIn(History(env, World(l, map[]), events), run))
  {
    if events != [] {
      var init, e := events[..|events| - 1], events[|events| - 1];
      HistoryIsOrderly(env, l, init, run);
      if e.Look? {
        var w := History(env, World(l, map[]), init);
        HistoryIsOrderly(env, l, init, e.run);
        ObserveKeepsOrder(env, e.run, w.log, e.log, PartIn(w, e.run), e.faults);
      }
    }
  }

  lemma {:induction false} HistoryLog(env: Env, l: Log, events: seq<Event>)
    ensures History(env, World(l, map[]), events).log == Versions(l, events)[|events|]
  {
    hide ObserveRun;
    if events != [] { HistoryLog(env, l, events[..|events| - 1]); }
  }

  lemma {:induction false} MadeFromMore(env: Env, versions: seq<Log>, l: Log, run: RunId, r: Revision)
    ensures MadeFrom(env, versions, run, r) || Records(env, l, run, r) ==> MadeFrom(env, versions + [l], run, r)
  {
    hide Records;
    var all := versions + [l];
    assert all[|versions|] == l;
    if k :| 0 <= k < |versions| && Records(env, versions[k], run, r) {
      assert all[k] == versions[k];
    }
  }

  lemma {:induction false} ObserveKeepsRecorded(env: Env, versions: seq<Log>, run: RunId, before: Log, after: Log, p: Part, f: Faults)
    requires Recorded(env, versions, run, p)
    ensures Recorded(env, versions + [after], run, p)
    ensures Recorded(env, versions + [after], run, Marked(ObserveRun(env, run, before, after, p, f), f))
  {
    ObserveAppends(env, run, before, after, p, f);
    hide Records, ObserveRun, MadeFrom;
    var q := Marked(ObserveRun(env, run, before, after, p, f), f);
    forall r ensures r in p.revisions || r in q.revisions ==> MadeFrom(env, versions + [after], run, r) {
      MadeFromMore(env, versions, after, run, r);
    }
  }

  /** Over every interleaving of log changes, ticks and failed calls, each revision was made from a version passed. */
  lemma {:induction false} HistoryIsRecorded(env: Env, l: Log, events: seq<Event>, run: RunId)
    ensures Recorded(env, Versions(l, events), run, PartIn(History(env, World(l, map[]), events), run))
  {
    if events != [] {
      var init, e := events[..|events| - 1], events[|events| - 1];
      var w := History(env, World(l, map[]), init);
      HistoryIsRecorded(env, l, init, run);
      assert Versions(l, events) == Versions(l, init) + [e.log];
      hide Recorded, ObserveRun;
      ObserveKeepsRecorded(env, Versions(l, init), run, w.log, e.log, PartIn(w, run), if e.Look? then e.faults else NO_FAULTS);
    }
  }

  // ---------------------------------------------------------- when the observer agrees

  ghost predicate Current(env: Env, l: Log, run: RunId, p: Part) {
    p.cursor == Some(CursorDigest(env, Watermark(env, l, run)))
  }

  /** A current cursor names the projection of the whole log. */
  ghost predicate Agrees(env: Env, l: Log, run: RunId, p: Part) {
    Current(env, l, run, p) ==>
      && Find(p.revisions, p.cursor.value).Some?
      && env.project(TakeSnapshot(l, run)) == Some(Find(p.revisions, p.cursor.value).value.payload)
  }

  /** A later version with the watermark of an observable earlier one projects alike. */
  ghost predicate Tells(env: Env, versions: seq<Log>, run: RunId) {
    forall i, j ::
      (0 <= i < j < |versions| && Observable(env, versions[i], run)
       && Watermark(env, versions[i], run) == Watermark(env, versions[j], run)) ==>
      env.project(TakeSnapshot(versions[i], run)) == env.project(TakeSnapshot(versions[j], run))
  }

  ghost predicate AllValid(versions: seq<Log>) { forall k :: 0 <= k < |versions| ==> ValidLog(versions[k]) }

  /** Revisions of versions that can be told apart agree with the last of them whenever its key is theirs. */
  lemma {:induction false} KeyMeansPayload(env: Env, versions: seq<Log>, run: RunId, p: Part, r: Revision)
    requires CollisionFree(env) && versions != [] && AllValid(versions) && Tells(env, versions, run)
    requires Recorded(env, versions, run, p) && r in p.revisions
    requires r.key == CursorDigest(env, Watermark(env, versions[|versions| - 1], run))
    ensures env.project(TakeSnapshot(versions[|versions| - 1], run)) == Some(r.payload)
  {
    hide CursorDigest, CollisionFree, ValidLog, Watermark, TakeSnapshot, TooLarge, CursorOf;
    assert MadeFrom(env, versions, run, r);
    var k :| 0 <= k < |versions| && Records(env, versions[k], run, r);
    CursorIsWatermark(env, versions[k], run);
    CursorsDiffer(env, Watermark(env, versions[k], run), Watermark(env, versions[|versions| - 1], run));
  }

  lemma {:induction false} HistoryAgrees(env: Env, l: Log, events: seq<Event>, run: RunId)
    requires CollisionFree(env) && AllValid(Versions(l, events)) && Tells(env, Versions(l, events), run)
    ensures var w := History(env, World(l, map[]), events); Agrees(env, w.log, run, PartIn(w, run))
  {
    var w := History(env, World(l, map[]), events);
    var p := PartIn(w, run);
    HistoryIsOrderly(env, l, events, run);
    HistoryIsRecorded(env, l, events, run);
    HistoryLog(env, l, events);
    hide CollisionFree, AllValid, Tells, Recorded, History, Watermark, TakeSnapshot, CursorDigest;
    if Current(env, w.log, run, p) {
      FindFacts(p.revisions, p.cursor.value);
      KeyMeansPayload(env, Versions(l, events), run, p, Find(p.revisions, p.cursor.value).value);
    }
  }

  /** A history that meets the versions in order, each at any number of events. */
  ghost predicate InOrder(versions: seq<Log>, events: seq<Event>, at: seq<nat>) {
    && |at| == |events|
    && (forall k :: 0 <= k < |at| ==> at[k] < |versions| && events[k].log == versions[at[k]])
    && (forall j, k :: 0 <= j < k < |at| ==> at[j] <= at[k])
  }

  /** Two met versions, the later from no earlier a version. */
  lemma {:induction false} TellsPair(env: Env, versions: seq<Log>, i: nat, j: nat, run: RunId)
    requires Tells(env, versions, run) && i <= j < |versions| && Observable(env, versions[i], run)
    requires Watermark(env, versions[i], run) == Watermark(env, versions[j], run)
    ensures env.project(TakeSnapshot(versions[i], run)) == env.project(TakeSnapshot(versions[j], run))
  {
    hide Watermark, TakeSnapshot, Observable;
  }

  /** Where a history's k-th version comes from. */
  function Source(at: seq<nat>, k: nat): nat
    requires k <= |at|
  {
    if k == 0 then 0 else at[k - 1]
  }

  lemma {:induction false} MetVersion(versions: seq<Log>, events: seq<Event>, at: seq<nat>, k: nat)
    requires versions != [] && InOrder(versions, events, at) && k <= |events|
    ensures |at| == |events| && Source(at, k) < |versions| && Versions(versions[0], events)[k] == versions[Source(at, k)]
    ensures forall j: nat :: j <= k ==> Source(at, j) <= Source(at, k)
  {}

  lemma {:induction false} TellsInOrder(env: Env, versions: seq<Log>, events: seq<Event>, at: seq<nat>, run: RunId)
    requires versions != [] && AllValid(versions) && Tells(env, versions, run) && InOrder(versions, events, at)
    ensures AllValid(Versions(versions[0], events)) && Tells(env, Versions(versions[0], events), run)
  {
    assert |at| == |events|;
    hide ValidLog, Watermark, TakeSnapshot, Observable, InOrder, Source;
    var met := Versions(versions[0], events);
    forall k | 0 <= k < |met| ensures ValidLog(met[k]) { MetVersion(versions, events, at, k); }
    forall i, j | 0 <= i < j < |met| && Observable(env, met[i], run) && Watermark(env, met[i], run) == Watermark(env, met[j], run)
      ensures env.project(TakeSnapshot(met[i], run)) == env.project(TakeSnapshot(met[j], run))
    {
      MetVersion(versions, events, at, i);
      MetVersion(versions, events, at, j);
      TellsPair(env, versions, Source(at, i), Source(at, j), run);
    }
  }

  /** A first look at an observable version records it and settles. */
  lemma {:induction false} FirstLook(env: Env, before: Log, l: Log, run: RunId)
    requires Observable(env, l, run)
    ensures var s := TakeSnapshot(l, run);
            var key := CursorDigest(env, CursorOf(env, s));
            Marked(ObserveRun(env, run, before, l, EMPTY_PART, NO_FAULTS), NO_FAULTS)
            == Part(Some(key), None, [Revision(key, env.project(s).value)], 1, 1, 1)
  {
    hide TakeSnapshot, Watermark, TooLarge, CursorOf, CursorDigest;
  }

  /** Look at one version, then let the log become another with the same watermark. */
  lemma {:induction false} LookThenChange(env: Env, start: Log, l: Log, m: Log, run: RunId)
    requires ValidLog(l) && Observable(env, l, run) && Watermark(env, l, run) == Watermark(env, m, run)
    ensures var w := History(env, World(start, map[]), [Look(run, l, NO_FAULTS), Grow(m)]);
            var p := PartIn(w, run);
            && w.log == m && Current(env, m, run, p) && !Deferred(p)
            && Find(p.revisions, p.cursor.value).Some?
            && Some(Find(p.revisions, p.cursor.value).value.payload) == env.project(TakeSnapshot(l, run))
  {
    CursorIsWatermark(env, l, run);
    FirstLook(env, start, l, run);
    var look, grow := Look(run, l, NO_FAULTS), Grow(m);
    hide TakeSnapshot, Watermark, TooLarge, CursorOf, CursorDigest, ObserveRun;
    var w0 := World(start, map[]);
    assert [look, grow][..1] == [look] && [look][..0] == [];
    assert History(env, w0, []) == w0;
    var w1 := Step(env, w0, look);
    assert History(env, w0, [look]) == w1;
    assert History(env, w0, [look, grow]) == Step(env, w1, grow);
  }

  /**
    The exact condition: the observer agrees with the log after every history of these
    versions, whatever fails and whenever it looks, if and only if no version has the
    watermark of an observable earlier one and a different projection.
   */
  lemma {:induction false} AgreesExactly(env: Env, versions: seq<Log>, run: RunId)
    requires CollisionFree(env) && versions != [] && AllValid(versions)
    ensures (forall events, at :: InOrder(versions, events, at) ==>
               var w := History(env, World(versions[0], map[]), events); Agrees(env, w.log, run, PartIn(w, run)))
            <==> Tells(env, versions, run)
  {
    hide CollisionFree, ValidLog, Watermark, TakeSnapshot, Observable, History;
    if Tells(env, versions, run) {
      forall events, at | InOrder(versions, events, at)
        ensures var w := History(env, World(versions[0], map[]), events); Agrees(env, w.log, run, PartIn(w, run))
      {
        TellsInOrder(env, versions, events, at, run);
        HistoryAgrees(env, versions[0], events, run);
      }
    } else {
      var i, j :| 0 <= i < j < |versions| && Observable(env, versions[i], run)
                  && Watermark(env, versions[i], run) == Watermark(env, versions[j], run)
                  && env.project(TakeSnapshot(versions[i], run)) != env.project(TakeSnapshot(versions[j], run));
      var events := [Look(run, versions[i], NO_FAULTS), Grow(versions[j])];
      LookThenChange(env, versions[0], versions[i], versions[j], run);
      assert InOrder(versions, events, [i, j]);
    }
  }

  /** A settled observer stays as it is for as long as the watermark does, however often it looks. */
  lemma {:induction false} SettledStays(env: Env, run: RunId, l: Log, p: Part, ticks: seq<Tick>)
    requires Current(env, l, run, p) && forall i :: 0 <= i < |ticks| ==> ticks[i].before == l
    ensures var q := Ticks(env, run, p, ticks); q.revisions == p.revisions && q.cursor == p.cursor && q.snapshots == p.snapshots
  {
    hide Watermark, CursorDigest, Project;
    if ticks != [] { SettledStays(env, run, l, p, ticks[..|ticks| - 1]); }
  }

  // --------------------------------------------------------------- settling down

  /** An error-free tick on a quiet log leaves a current cursor; later ticks add nothing. */
  lemma {:induction false} QuietTickSettles(env: Env, run: RunId, l: Log, p: Part, f: Faults, g: Faults)
    requires ValidLog(l) && !Deferred(p) && ObserveRun(env, run, l, l, p, f).failure.None?
    ensures var q := ObserveRun(env, run, l, l, p, f).part;
            && Current(env, l, run, q)
            && (var n := ObserveRun(env, run, l, l, q, g).part; n.revisions == q.revisions && n.snapshots == q.snapshots && n.cursor == q.cursor)
  {
    CursorIsWatermark(env, l, run);
    hide TooLarge, Append, TakeSnapshot, Watermark, CursorOf, CursorDigest;
  }

  /** A replayed append, after a stop before the cursor was written, never conflicts. */
  lemma {:induction false} ReplayNeverConflicts(env: Env, versions: seq<Log>, run: RunId, p: Part)
    requires CollisionFree(env) && versions != [] && AllValid(versions) && Tells(env, versions, run) && Recorded(env, versions, run, p)
    requires Observable(env, versions[|versions| - 1], run)
    ensures var s := TakeSnapshot(versions[|versions| - 1], run);
            Append(env, p.revisions, Revision(CursorDigest(env, CursorOf(env, s)), env.project(s).value)).Some?
  {
    var l := versions[|versions| - 1];
    CursorIsWatermark(env, l, run);
    var key := CursorDigest(env, Watermark(env, l, run));
    hide CollisionFree, AllValid, Tells, Recorded, TakeSnapshot, Watermark, CursorOf, CursorDigest, TooLarge;
    FindFacts(p.revisions, key);
    if Find(p.revisions, key).Some? {
      KeyMeansPayload(env, versions, run, p, Find(p.revisions, key).value);
    }
  }

  /** With no failing call, an acceptable snapshot and no collision, a tick does succeed. */
  lemma {:induction false} FaultFreeTickSucceeds(env: Env, versions: seq<Log>, run: RunId, p: Part)
    requires CollisionFree(env) && versions != [] && AllValid(versions) && Tells(env, versions, run) && Recorded(env, versions, run, p)
    requires Observable(env, versions[|versions| - 1], run)
    ensures var l := versions[|versions| - 1]; ObserveRun(env, run, l, l, p, NO_FAULTS).failure.None?
  {
    ReplayNeverConflicts(env, versions, run, p);
    hide TooLarge, Append, TakeSnapshot, Watermark, CursorOf, CursorDigest;
  }

  // -------------------------------------------------------------------- deferral

  /**
    A deferred run takes no snapshot and gains no revision, its projections still run, and it
    stays deferred exactly when the projections and the marker read succeed, or the new
    marker cannot be written.
   */
  lemma {:induction false} DeferredTick(env: Env, run: RunId, before: Log, after: Log, p: Part, f: Faults)
    requires Deferred(p)
    ensures var q := Marked(ObserveRun(env, run, before, after, p, f), f);
            && q.revisions == p.revisions && q.snapshots == p.snapshots && q.cursor == p.cursor
            && (!f.outcomes ==> q.outcomes == p.outcomes + 1)
            && (!f.outcomes && !f.failures ==> q.failures == p.failures + 1)
            && (Deferred(q) <==> (!f.outcomes && !f.failures && !f.readError) || f.mark)
  {}

  /** The rows of a log that a run sees are those in its own name and those of threads its agents hold, in order. */
  lemma {:induction false} VisibleExact(rows: seq<Row>, threads: Threads, run: RunId)
    requires Increasing(rows)
    ensures Ascending(Visible(rows, threads, run))
    ensures forall row :: Receipt(row, Direct) in Visible(rows, threads, run) <==> row in rows && row.owner == OfRun(run)
    ensures forall row, agent :: Receipt(row, Through(agent)) in Visible(rows, threads, run) <==>
              row in rows && row.owner.OfThread? && row.owner.thread in threads && threads[row.owner.thread] == Attachment(agent, run)
  {
    VisibleAscending(rows, threads, run);
    forall row, claim ensures Receipt(row, claim) in Visible(rows, threads, run) <==> row in rows && ClaimOf(row, threads, run) == Some(claim) {
      VisibleMember(rows, threads, run, Receipt(row, claim));
    }
  }

  /** The payload bytes of a list, and how many of its rows are in the run's own name, row by row. */
  lemma {:induction false} CountsAdd(a: seq<Receipt>, b: seq<Receipt>, r: Receipt)
    ensures TotalBytes([]) == 0 && TotalBytes([r]) == r.row.bytes && TotalBytes(a + b) == TotalBytes(a) + TotalBytes(b)
    ensures DirectCount([]) == 0 && DirectCount([r]) == (if r.claim == Direct then 1 else 0) && DirectCount(a + b) == DirectCount(a) + DirectCount(b)
  {
    assert [r][1..] == [];
    if a == [] {
      assert a + b == b;
    } else {
      assert (a + b)[0] == a[0] && (a + b)[1..] == a[1..] + b;
      CountsAdd(a[1..], b, r);
    }
  }

  /** The digests' preimages: every part, and the name of what is digested, followed by a NUL. */
  lemma {:induction false} DigestsSpelled(env: Env, f: Fabric, c: Cursor)
    ensures RuntimeDigest(env, Some(f))
         == env.hash(Codes("harness.trace.runtime.v1") + [0] + (f.pins.base + [0] + (f.pins.authority + [0] + (f.pins.profile + [0]))))
    ensures CursorDigest(env, c) == env.hash(Codes("harness.trace.cursor.v2") + [0] + (env.cursorJson(c) + [0]))
  {
    hide Codes;
    var a, b := [Codes("harness.trace.runtime.v1"), f.pins.base, f.pins.authority, f.pins.profile], [Codes("harness.trace.cursor.v2"), env.cursorJson(c)];
    TerminatedFour(a[0], a[1], a[2], a[3]);
    TerminatedTwo(b[0], b[1]);
  }

  lemma {:induction false} TerminatedTwo(x: Text, y: Text)
    ensures Terminated([x, y]) == x + [0] + (y + [0])
  {
    assert [x, y][1..] == [y] && [y][1..] == [];
    assert Terminated([y]) == y + [0] + [] == y + [0];
  }

  lemma {:induction false} TerminatedFour(w: Text, x: Text, y: Text, z: Text)
    ensures Terminated([w, x, y, z]) == w + [0] + (x + [0] + (y + [0] + (z + [0])))
  {
    assert [w, x, y, z][1..] == [x, y, z] && [x, y, z][1..] == [y, z];
    TerminatedTwo(y, z);
  }

  /** A snapshot beyond the bounds: rows of either kind, or their payloads in all. */
  predicate Oversized(l: Log, run: RunId) {
    var raw, domain := Visible(l.raw, l.threads, run), Visible(l.domain, l.threads, run);
    |raw| > 10_000 || |domain| > 10_000 || TotalBytes(raw) + TotalBytes(domain) > 33_554_432
  }

  /**
    A run becomes deferred exactly when everything up to the snapshot works, its cursor is behind,
    the snapshot would be oversized and the marker can be written; then nothing else
    has changed but its two projections.
   */
  lemma {:induction false} BecomesDeferred(env: Env, run: RunId, before: Log, after: Log, p: Part, f: Faults)
    requires p.error.None? || p.error.value.ProjectionFailed?
    ensures var q := Marked(ObserveRun(env, run, before, after, p, f), f);
            var raw, domain := Visible(after.raw, after.threads, run), Visible(after.domain, after.threads, run);
            && (q.error.Some? && q.error.value.SnapshotLimit? <==>
                  && !f.outcomes && !f.failures && !f.readError && !f.watermark && !f.readCursor && !f.snapshot && !f.mark
                  && p.cursor != Some(CursorDigest(env, Watermark(env, before, run))) && Oversized(after, run))
            && (q.error.Some? && q.error.value.SnapshotLimit? ==>
                  && q == p.(outcomes := p.outcomes + 1, failures := p.failures + 1, error := q.error)
                  && q.error.value.domain == |domain|
                  && q.error.value.raw == (if DirectCount(raw) > 10_000 || |domain| > 10_000 then DirectCount(raw) else |raw|)
                  && q.error.value.bytes == if |raw| > 10_000 || |domain| > 10_000 then None else Some(TotalBytes(raw) + TotalBytes(domain)))
  {
    hide Visible, Watermark, CursorDigest, CursorOf, Append, TotalBytes, DirectCount;
  }

  /**
    A look at a run that is behind and not oversized: if every call works, the projection succeeds and
    no revision of the same cursor says otherwise, the marker is cleared, the projection is
    appended unless it is there already, and the cursor moves to it; else the cursor stays and
    the failure is marked.
   */
  lemma {:induction false} ProjectsExactly(env: Env, run: RunId, before: Log, after: Log, p: Part, f: Faults)
    requires p.error.None? || p.error.value.ProjectionFailed?
    requires !f.outcomes && !f.failures && !f.readError && !f.watermark && !f.readCursor && !f.snapshot
    requires p.cursor != Some(CursorDigest(env, Watermark(env, before, run))) && !Oversized(after, run)
    ensures var q, s := Marked(ObserveRun(env, run, before, after, p, f), f), TakeSnapshot(after, run);
            var key, payload := CursorDigest(env, CursorOf(env, s)), env.project(s);
            var there := Find(p.revisions, key);
            var fits := payload.Some? && (there.Some? ==> env.hash(env.payloadJson(there.value.payload)) == env.hash(env.payloadJson(payload.value)));
            var works := fits && !f.reread && (p.error.Some? ==> !f.clear) && !f.append && !f.write;
            && (works ==>
                  q == Part(Some(key), None, if there.Some? then p.revisions else p.revisions + [Revision(key, payload.value)],
                            p.outcomes + 1, p.failures + 1, p.snapshots + 1))
            && (!works ==> q.cursor == p.cursor && q.snapshots == p.snapshots + 1 && (!f.mark ==> q.error == Some(ProjectionFailed)))
  {
    hide Visible, Watermark, CursorDigest, CursorOf, TotalBytes, DirectCount, Find;
  }

  datatype Tick = Tick(before: Log, after: Log, faults: Faults)

  function Ticks(env: Env, run: RunId, p: Part, ticks: seq<Tick>): Part {
    if ticks == [] then p
    else
      var t := ticks[|ticks| - 1];
      Marked(ObserveRun(env, run, t.before, t.after, Ticks(env, run, p, ticks[..|ticks| - 1]), t.faults), t.faults)
  }

  /** Over any number of ticks whose reads succeed, a deferred run only projects outcomes and failures. */
  lemma {:induction false} DeferredRunStays(env: Env, run: RunId, p: Part, ticks: seq<Tick>)
    requires Deferred(p)
    requires forall i :: 0 <= i < |ticks| ==> !ticks[i].faults.outcomes && !ticks[i].faults.failures && !ticks[i].faults.readError
    ensures Ticks(env, run, p, ticks) == p.(outcomes := p.outcomes + |ticks|, failures := p.failures + |ticks|)
  {
    if ticks != [] {
      DeferredRunStays(env, run, p, ticks[..|ticks| - 1]);
    }
  }

  /**
    An oversized run is looked at once: after the tick that meets the bound it takes no further
    snapshot and gains no revision, whatever becomes of its log, while its projections go on.
   */
  lemma {:induction false} OversizedRunRests(env: Env, run: RunId, p: Part, first: Tick, ticks: seq<Tick>)
    requires p.error.None? || p.error.value.ProjectionFailed?
    requires p.cursor != Some(CursorDigest(env, Watermark(env, first.before, run))) && Oversized(first.after, run)
    requires var f := first.faults; !f.outcomes && !f.failures && !f.readError && !f.watermark && !f.readCursor && !f.snapshot && !f.mark
    requires forall i :: 0 <= i < |ticks| ==> !ticks[i].faults.outcomes && !ticks[i].faults.failures && !ticks[i].faults.readError
    ensures var q := Ticks(env, run, Ticks(env, run, p, [first]), ticks);
            && q.snapshots == p.snapshots && q.revisions == p.revisions && q.cursor == p.cursor
            && q.outcomes == p.outcomes + 1 + |ticks| && q.failures == p.failures + 1 + |ticks|
  {
    BecomesDeferred(env, run, first.before, first.after, p, first.faults);
    hide ObserveRun, Marked, Oversized, Watermark, CursorDigest;
    assert [first][..0] == [] && Ticks(env, run, p, []) == p;
    DeferredRunStays(env, run, Ticks(env, run, p, [first]), ticks);
  }

  // ------------------------------------------------------- logs that are only appended to

  /** Rows are only appended, with larger ids; threads and structure may change at will. */
  ghost predicate Grows(l: Log, m: Log) {
    ValidLog(l) && ValidLog(m) && l.raw <= m.raw && l.domain <= m.domain
  }

  /** Some logged row is claimed differently: by another agent, by this run no longer, or only now. */
  ghost predicate ChangesHands(l: Log, m: Log, run: RunId) {
    exists row :: row in l.raw && ClaimOf(row, l.threads, run) != ClaimOf(row, m.threads, run)
  }

  /** A row beyond the earlier log is newer than all of it. */
  lemma {:induction false} BeyondIsNewer(a: seq<Row>, b: seq<Row>, row: Row, earlier: Row)
    requires Increasing(b) && a <= b && row in b && row !in a && earlier in a
    ensures earlier.id < row.id
  {
    var i :| 0 <= i < |a| && a[i] == earlier;
    var j :| 0 <= j < |b| && b[j] == row;
    assert b[i] == a[i] && b[..|a|] == a;
    assert j >= |a|;
  }

  lemma {:induction false} MaxIsClaimed(rows: seq<Row>, threads: Threads, run: RunId)
    ensures forall row :: row in rows && ClaimOf(row, threads, run).Some? ==> row.id <= MaxClaimed(rows, threads, run)
    ensures MaxClaimed(rows, threads, run) > 0 ==>
              exists row :: row in rows && ClaimOf(row, threads, run).Some? && row.id == MaxClaimed(rows, threads, run)
  {
    hide ClaimOf;
    if rows != [] {
      assert rows == rows[..|rows| - 1] + [rows[|rows| - 1]];
      MaxIsClaimed(rows[..|rows| - 1], threads, run);
    }
  }

  /** While the newest claimed id stays, no row beyond the earlier log is claimed. */
  lemma {:induction false} NothingNewClaimed(a: seq<Row>, b: seq<Row>, before: Threads, after: Threads, run: RunId, row: Row)
    requires Increasing(a) && Increasing(b) && a <= b
    requires MaxClaimed(a, before, run) == MaxClaimed(b, after, run)
    ensures row in b && ClaimOf(row, after, run).Some? ==> row in a
  {
    hide ClaimOf;
    MaxIsClaimed(a, before, run);
    MaxIsClaimed(b, after, run);
    if row in b && ClaimOf(row, after, run).Some? && row !in a {
      var i :| 0 <= i < |b| && b[i] == row;
      var top :| top in a && top.id == MaxClaimed(a, before, run);
      BeyondIsNewer(a, b, row, top);
    }
  }

  /** What both logs list, claimed the same way in both. */
  lemma {:induction false} SameClaimsSameReceipts(a: seq<Row>, b: seq<Row>, before: Threads, after: Threads, run: RunId)
    requires Increasing(a) && Increasing(b) && a <= b
    requires MaxClaimed(a, before, run) == MaxClaimed(b, after, run)
    ensures Visible(a, before, run) == Visible(b, after, run)
            <==> forall row :: row in a ==> ClaimOf(row, before, run) == ClaimOf(row, after, run)
  {
    hide ClaimOf;
    var x, y := Visible(a, before, run), Visible(b, after, run);
    forall r ensures r in x <==> r.row in a && ClaimOf(r.row, before, run) == Some(r.claim) { VisibleMember(a, before, run, r); }
    forall r ensures r in y <==> r.row in b && ClaimOf(r.row, after, run) == Some(r.claim) { VisibleMember(b, after, run, r); }
    assert forall row :: row in a ==> row in b;
    forall row ensures row in b && ClaimOf(row, after, run).Some? ==> row in a { NothingNewClaimed(a, b, before, after, run, row); }
    if forall row :: row in a ==> ClaimOf(row, before, run) == ClaimOf(row, after, run) {
      VisibleAscending(a, before, run);
      VisibleAscending(b, after, run);
      SameReceipts(x, y);
    }
    if row :| row in a && ClaimOf(row, before, run) != ClaimOf(row, after, run) {
      ClaimSeen(x, y, a, b, before, after, run, row);
    }
  }

  lemma {:induction false} ClaimSeen(x: seq<Receipt>, y: seq<Receipt>, a: seq<Row>, b: seq<Row>, before: Threads, after: Threads, run: RunId, row: Row)
    requires forall r :: r in x <==> r.row in a && ClaimOf(r.row, before, run) == Some(r.claim)
    requires forall r :: r in y <==> r.row in b && ClaimOf(r.row, after, run) == Some(r.claim)
    requires row in a && row in b && ClaimOf(row, before, run) != ClaimOf(row, after, run)
    ensures x != y
  {
    hide ClaimOf;
    match ClaimOf(row, before, run) {
      case Some(claim) => assert Receipt(row, claim) in x && Receipt(row, claim) !in y;
      case None =>
        var claim := ClaimOf(row, after, run).value;
        assert Receipt(row, claim) in y && Receipt(row, claim) !in x;
    }
  }

  lemma {:induction false} DomainClaims(l: Log, m: Log, run: RunId)
    requires Grows(l, m)
    ensures forall row :: row in l.domain ==> ClaimOf(row, l.threads, run) == ClaimOf(row, m.threads, run)
  {
    forall row | row in l.domain ensures row.owner.OfRun? {
      var i :| 0 <= i < |l.domain| && l.domain[i] == row;
    }
  }

  /** On a log that is only appended to, an unmoved watermark hides a change exactly when a logged row changes hands. */
  lemma {:induction false} UnseenExactly(env: Env, l: Log, m: Log, run: RunId)
    requires CollisionFree(env) && Grows(l, m) && Watermark(env, l, run) == Watermark(env, m, run)
    ensures TakeSnapshot(l, run) != TakeSnapshot(m, run) <==> ChangesHands(l, m, run)
  {
    DomainClaims(l, m, run);
    SameClaimsSameReceipts(l.raw, m.raw, l.threads, m.threads, run);
    SameClaimsSameReceipts(l.domain, m.domain, l.threads, m.threads, run);
    hide ClaimOf, Visible, MaxClaimed, RuntimeDigest;
  }

  /** Each version extends the one before it, and no logged row changes hands for the run. */
  ghost predicate Steady(versions: seq<Log>, run: RunId) {
    forall k :: 0 <= k < |versions| - 1 ==> Grows(versions[k], versions[k + 1]) && !ChangesHands(versions[k], versions[k + 1], run)
  }

  lemma {:induction false} SteadyStep(l: Log, m: Log, n: Log, run: RunId)
    requires Grows(l, m) && !ChangesHands(l, m, run) && Grows(m, n) && !ChangesHands(m, n, run)
    ensures Grows(l, n) && !ChangesHands(l, n, run)
  {
    hide ClaimOf, ValidLog;
    forall row | row in l.raw ensures ClaimOf(row, l.threads, run) == ClaimOf(row, n.threads, run) {
      var i :| 0 <= i < |l.raw| && l.raw[i] == row;
      assert m.raw[i] == row;
    }
  }

  lemma {:induction false} SteadyAcross(versions: seq<Log>, run: RunId, i: nat, j: nat)
    requires Steady(versions, run) && i < j < |versions|
    ensures Grows(versions[i], versions[j]) && !ChangesHands(versions[i], versions[j], run)
    decreases j
  {
    hide Grows, ChangesHands;
    assert Grows(versions[j - 1], versions[j - 1 + 1]) && !ChangesHands(versions[j - 1], versions[j - 1 + 1], run);
    if i < j - 1 {
      SteadyAcross(versions, run, i, j - 1);
      SteadyStep(versions[i], versions[j - 1], versions[j], run);
    }
  }

  /** After any history of an append-only log in which no logged row changes hands, a current cursor names the projection of the whole log. */
  lemma {:induction false} ObserverAgreesWithLog(env: Env, l: Log, events: seq<Event>, run: RunId)
    requires CollisionFree(env) && ValidLog(l) && Steady(Versions(l, events), run)
    ensures var w := History(env, World(l, map[]), events); Agrees(env, w.log, run, PartIn(w, run))
  {
    var versions := Versions(l, events);
    hide ValidLog, Watermark, TakeSnapshot, Observable, History, ChangesHands, CollisionFree, Agrees;
    forall i, j | 0 <= i < j < |versions| && Watermark(env, versions[i], run) == Watermark(env, versions[j], run)
      ensures TakeSnapshot(versions[i], run) == TakeSnapshot(versions[j], run)
    {
      SteadyAcross(versions, run, i, j);
      UnseenExactly(env, versions[i], versions[j], run);
    }
    forall k | 0 <= k < |versions| ensures ValidLog(versions[k]) {
      if k > 0 { SteadyAcross(versions, run, 0, k); }
    }
    HistoryAgrees(env, l, events, run);
  }

  // ------------------------------------------------------ changes that are not appends

  /** Attaching a thread to an agent, new or in place of another. */
  function Attach(l: Log, t: ThreadId, a: Attachment): Log { l.(threads := l.threads[t := a]) }

  /**
    Any change of who holds which threads alters what the run's trace should show without
    moving its watermark exactly when some logged row changes hands and the newest claimed id
    is the same.
   */
  lemma {:induction false} ThreadChangeUnseen(env: Env, l: Log, threads: Threads, run: RunId)
    requires ValidLog(l)
    ensures var m := l.(threads := threads);
            TakeSnapshot(m, run) != TakeSnapshot(l, run) && Watermark(env, m, run) == Watermark(env, l, run)
            <==> ChangesHands(l, m, run) && MaxClaimed(l.raw, threads, run) == MaxClaimed(l.raw, l.threads, run)
  {
    var m := l.(threads := threads);
    DomainClaims(l, m, run);
    DomainUnmoved(l.domain, l.threads, threads, run);
    if MaxClaimed(l.raw, threads, run) == MaxClaimed(l.raw, l.threads, run) {
      SameClaimsSameReceipts(l.raw, l.raw, l.threads, threads, run);
    }
    hide ClaimOf, Visible, MaxClaimed, RuntimeDigest;
  }

  lemma {:induction false} DomainUnmoved(rows: seq<Row>, before: Threads, after: Threads, run: RunId)
    requires forall row :: row in rows ==> ClaimOf(row, before, run) == ClaimOf(row, after, run)
    ensures Visible(rows, before, run) == Visible(rows, after, run) && MaxClaimed(rows, before, run) == MaxClaimed(rows, after, run)
  {
    hide ClaimOf;
    if rows != [] {
      assert rows[|rows| - 1] in rows && forall row :: row in rows[..|rows| - 1] ==> row in rows;
      DomainUnmoved(rows[..|rows| - 1], before, after, run);
    }
  }

  /** Rows still kept by a retention sweep. */
  function Kept(rows: seq<Row>, cutoff: int): seq<Row> {
    if rows == [] then []
    else
      var rest, last := Kept(rows[..|rows| - 1], cutoff), rows[|rows| - 1];
      if last.received >= cutoff then rest + [last] else rest
  }

  predicate Swept(raw: seq<Row>, cutoff: int, id: nat) {
    exists i :: 0 <= i < |raw| && raw[i].id == id && raw[i].received < cutoff
  }

  /** A domain row loses its pointer to a row that was swept. */
  function Unpointed(row: Row, raw: seq<Row>, cutoff: int): Row {
    if row.source.Some? && Swept(raw, cutoff, row.source.value) then row.(source := None) else row
  }

  function UnpointedAll(rows: seq<Row>, raw: seq<Row>, cutoff: int): seq<Row> {
    seq(|rows|, i requires 0 <= i < |rows| => Unpointed(rows[i], raw, cutoff))
  }

  /** The retention sweep: aged raw rows are deleted and pointers to them cleared. */
  function Sweep(l: Log, cutoff: int): Log {
    l.(raw := Kept(l.raw, cutoff), domain := UnpointedAll(l.domain, l.raw, cutoff))
  }

  /** The sweep reaches the run: a claimed row goes, or a row of its domain loses its pointer. */
  ghost predicate SweepReaches(l: Log, cutoff: int, run: RunId) {
    || (exists row :: row in l.raw && ClaimOf(row, l.threads, run).Some? && row.received < cutoff)
    || (exists row :: row in l.domain && ClaimOf(row, l.threads, run).Some? && Unpointed(row, l.raw, cutoff) != row)
  }

  lemma {:induction false} KeptMember(rows: seq<Row>, cutoff: int, row: Row)
    ensures row in Kept(rows, cutoff) <==> row in rows && row.received >= cutoff
  {
    if rows != [] {
      assert rows == rows[..|rows| - 1] + [rows[|rows| - 1]];
      KeptMember(rows[..|rows| - 1], cutoff, row);
    }
  }

  /** What a sweep leaves: the raw rows that are not older than the cutoff, and every domain row, its pointer cleared exactly if it led to one that went. */
  lemma {:induction false} SweepExact(l: Log, cutoff: int)
    ensures forall row :: row in Sweep(l, cutoff).raw <==> row in l.raw && row.received >= cutoff
    ensures var domain := Sweep(l, cutoff).domain;
            && |domain| == |l.domain|
            && forall i :: 0 <= i < |domain| ==>
                 var gone := exists row :: row in l.raw && l.domain[i].source == Some(row.id) && row.received < cutoff;
                 domain[i] == l.domain[i].(source := if gone then None else l.domain[i].source)
    ensures Sweep(l, cutoff).threads == l.threads && Sweep(l, cutoff).runs == l.runs
  {
    forall row ensures row in Sweep(l, cutoff).raw <==> row in l.raw && row.received >= cutoff { KeptMember(l.raw, cutoff, row); }
    forall i | 0 <= i < |l.domain| && l.domain[i].source.Some?
      ensures Swept(l.raw, cutoff, l.domain[i].source.value) <==>
                exists row :: row in l.raw && l.domain[i].source == Some(row.id) && row.received < cutoff
    {
      if row :| row in l.raw && l.domain[i].source == Some(row.id) && row.received < cutoff {
        var j :| 0 <= j < |l.raw| && l.raw[j] == row;
      }
      if Swept(l.raw, cutoff, l.domain[i].source.value) {
        var j :| 0 <= j < |l.raw| && l.raw[j].id == l.domain[i].source.value && l.raw[j].received < cutoff;
        assert l.raw[j] in l.raw;
      }
    }
  }

  /** The raw receipts change exactly when a claimed row is swept. */
  lemma {:induction false} KeptVisible(rows: seq<Row>, threads: Threads, run: RunId, cutoff: int)
    ensures |Visible(Kept(rows, cutoff), threads, run)| <= |Visible(rows, threads, run)|
    ensures Visible(Kept(rows, cutoff), threads, run) == Visible(rows, threads, run)
            <==> forall row :: row in rows && ClaimOf(row, threads, run).Some? ==> row.received >= cutoff
    ensures (exists row :: row in rows && ClaimOf(row, threads, run).Some? && row.received < cutoff)
            ==> |Visible(Kept(rows, cutoff), threads, run)| < |Visible(rows, threads, run)|
  {
    hide ClaimOf;
    if rows != [] {
      var init, last := rows[..|rows| - 1], rows[|rows| - 1];
      assert rows == init + [last];
      KeptVisible(init, threads, run, cutoff);
      var k := Kept(init, cutoff);
      assert (k + [last])[..|k|] == k;
    }
  }

  lemma {:induction false} UnpointedVisible(rows: seq<Row>, raw: seq<Row>, cutoff: int, threads: Threads, run: RunId)
    ensures var u := UnpointedAll(rows, raw, cutoff);
            && MaxClaimed(u, threads, run) == MaxClaimed(rows, threads, run)
            && |Visible(u, threads, run)| == |Visible(rows, threads, run)|
            && (Visible(u, threads, run) == Visible(rows, threads, run)
                <==> forall row :: row in rows && ClaimOf(row, threads, run).Some? ==> Unpointed(row, raw, cutoff) == row)
  {
    if rows != [] {
      var init, last := rows[..|rows| - 1], rows[|rows| - 1];
      assert rows == init + [last];
      var u := UnpointedAll(rows, raw, cutoff);
      assert u[..|u| - 1] == UnpointedAll(init, raw, cutoff);
      UnpointedVisible(init, raw, cutoff, threads, run);
      var moved := Unpointed(last, raw, cutoff);
      assert u[|u| - 1] == moved && moved.id == last.id && ClaimOf(moved, threads, run) == ClaimOf(last, threads, run);
      hide ClaimOf, Unpointed, UnpointedAll;
      LastDecides(Visible(UnpointedAll(init, raw, cutoff), threads, run), Visible(init, threads, run), moved, last, ClaimOf(last, threads, run));
    }
  }

  lemma {:induction false} LastDecides(x: seq<Receipt>, y: seq<Receipt>, a: Row, b: Row, claim: Option<Claim>)
    requires |x| == |y|
    ensures claim.Some? ==> (x + [Receipt(a, claim.value)] == y + [Receipt(b, claim.value)] <==> x == y && a == b)
  {
    if claim.Some? {
      var s, t := x + [Receipt(a, claim.value)], y + [Receipt(b, claim.value)];
      assert s[..|x|] == x && t[..|y|] == y && s[|x|] == Receipt(a, claim.value) && t[|y|] == Receipt(b, claim.value);
    }
  }

  /**
    A retention sweep alters what the run's trace should show without moving its watermark
    exactly when it reaches the run and the newest claimed id is the same.
   */
  lemma {:induction false} SweepUnseen(env: Env, l: Log, cutoff: int, run: RunId)
    ensures var m := Sweep(l, cutoff);
            TakeSnapshot(m, run) != TakeSnapshot(l, run) && Watermark(env, m, run) == Watermark(env, l, run)
            <==> SweepReaches(l, cutoff, run) && MaxClaimed(m.raw, l.threads, run) == MaxClaimed(l.raw, l.threads, run)
  {
    KeptVisible(l.raw, l.threads, run, cutoff);
    UnpointedVisible(l.domain, l.raw, cutoff, l.threads, run);
    hide ClaimOf, Visible, MaxClaimed, RuntimeDigest, Kept, UnpointedAll, Unpointed;
  }

  // -------------------------------------------------------- three changes that stay unseen

  /** What the observer of a run has kept after one look at a log that then becomes another, and then any ticks. */
  function AfterChange(env: Env, l: Log, m: Log, run: RunId, ticks: seq<Tick>): Part {
    Ticks(env, run, PartIn(History(env, World(l, map[]), [Look(run, l, NO_FAULTS), Grow(m)]), run), ticks)
  }

  /** The change is real, and no number of looks notices it. */
  ghost predicate StaysUnseen(env: Env, l: Log, m: Log, run: RunId, ticks: seq<Tick>) {
    var q := AfterChange(env, l, m, run, ticks);
    && TakeSnapshot(m, run) != TakeSnapshot(l, run)
    && Current(env, m, run, q) && Find(q.revisions, q.cursor.value).Some?
    && Some(Find(q.revisions, q.cursor.value).value.payload) == env.project(TakeSnapshot(l, run))
    && (Agrees(env, m, run, q) <==> env.project(TakeSnapshot(m, run)) == env.project(TakeSnapshot(l, run)))
  }

  /**
    A settled observer stays wrong about every change that leaves the watermark: however often it
    looks, its current revision is that of the old log, so it disagrees with the log exactly
    when the projections differ.
   */
  lemma {:induction false} ChangeStaysUnseen(env: Env, l: Log, m: Log, run: RunId, ticks: seq<Tick>)
    requires ValidLog(l) && Observable(env, l, run) && Watermark(env, l, run) == Watermark(env, m, run)
    requires TakeSnapshot(m, run) != TakeSnapshot(l, run)
    requires forall i :: 0 <= i < |ticks| ==> ticks[i].before == m
    ensures StaysUnseen(env, l, m, run, ticks)
  {
    hide Watermark, TakeSnapshot, History, Ticks, CursorDigest, ValidLog, Observable;
    LookThenChange(env, l, l, m, run);
    SettledStays(env, run, m, PartIn(History(env, World(l, map[]), [Look(run, l, NO_FAULTS), Grow(m)]), run), ticks);
  }

  function TwoRows(first: Owner, received: int, body: Body): seq<Row> {
    [Row(1, first, received, None, 0, body), Row(2, OfRun("a"), 10, None, 0, body)]
  }

  lemma {:induction false} NewestDirect(rows: seq<Row>, threads: Threads)
    requires |rows| == 2 && rows[0].id == 1 && rows[1].id == 2 && rows[1].owner == OfRun("a")
    ensures MaxClaimed(rows, threads, "a") == 2
  {
    var one := rows[..1];
    assert one[..0] == [] && MaxClaimed([], threads, "a") == 0;
    assert MaxClaimed(one, threads, "a") <= 1;
    assert ClaimOf(rows[1], threads, "a") == Some(Direct);
  }

  lemma {:induction false} ThreadExample(env: Env, l: Log, m: Log, ticks: seq<Tick>)
    requires ValidLog(l) && m == l.(threads := m.threads) && Observable(env, l, "a")
    requires |l.raw| == 2 && l.raw[0].id == 1 && l.raw[1].id == 2 && l.raw[1].owner == OfRun("a")
    requires ClaimOf(l.raw[0], l.threads, "a") != ClaimOf(l.raw[0], m.threads, "a")
    requires forall i :: 0 <= i < |ticks| ==> ticks[i].before == m
    ensures StaysUnseen(env, l, m, "a", ticks)
  {
    assert l.raw[0] in l.raw;
    NewestDirect(l.raw, l.threads);
    NewestDirect(l.raw, m.threads);
    ThreadChangeUnseen(env, l, m.threads, "a");
    hide Watermark, TakeSnapshot, ClaimOf, MaxClaimed, StaysUnseen, Observable, ValidLog;
    ChangeStaysUnseen(env, l, m, "a", ticks);
  }

  /** Row 1 came by thread "t", held by agent "x" of run "a"; row 2 is run "a"'s own. */
  function HeldLog(body: Body): Log {
    Log(TwoRows(OfThread("t"), 10, body), [], map["t" := Attachment("x", "a")], map[])
  }

  /** The thread passes to run "b": run "a"'s trace should lose row 1. */
  lemma {:induction false} MovedThreadStaysUnseen(env: Env, body: Body, ticks: seq<Tick>)
    requires Observable(env, HeldLog(body), "a")
    requires forall i :: 0 <= i < |ticks| ==> ticks[i].before == Attach(HeldLog(body), "t", Attachment("y", "b"))
    ensures StaysUnseen(env, HeldLog(body), Attach(HeldLog(body), "t", Attachment("y", "b")), "a", ticks)
  {
    var l := HeldLog(body);
    hide Observable, StaysUnseen;
    ThreadExample(env, l, Attach(l, "t", Attachment("y", "b")), ticks);
  }

  /** Nobody holds thread "t" yet. */
  function UnheldLog(body: Body): Log { Log(TwoRows(OfThread("t"), 10, body), [], map[], map[]) }

  /** The thread is attached late: run "a"'s trace should gain row 1. */
  lemma {:induction false} LateThreadStaysUnseen(env: Env, body: Body, ticks: seq<Tick>)
    requires Observable(env, UnheldLog(body), "a")
    requires forall i :: 0 <= i < |ticks| ==> ticks[i].before == Attach(UnheldLog(body), "t", Attachment("x", "a"))
    ensures StaysUnseen(env, UnheldLog(body), Attach(UnheldLog(body), "t", Attachment("x", "a")), "a", ticks)
  {
    var l := UnheldLog(body);
    hide Observable, StaysUnseen;
    ThreadExample(env, l, Attach(l, "t", Attachment("x", "a")), ticks);
  }

  /** Both rows are run "a"'s own; the first is old. */
  function AgedLog(body: Body): Log { Log(TwoRows(OfRun("a"), 0, body), [], map[], map[]) }

  /** A retention sweep removes the old row: run "a"'s trace should lose it. */
  lemma {:induction false} SweptRowStaysUnseen(env: Env, body: Body, ticks: seq<Tick>)
    requires Observable(env, AgedLog(body), "a")
    requires forall i :: 0 <= i < |ticks| ==> ticks[i].before == Sweep(AgedLog(body), 5)
    ensures StaysUnseen(env, AgedLog(body), Sweep(AgedLog(body), 5), "a", ticks)
  {
    var l := AgedLog(body);
    SweptNewest(l.raw);
    assert l.raw[0] in l.raw && ClaimOf(l.raw[0], l.threads, "a").Some? && l.raw[0].received < 5;
    SweepUnseen(env, l, 5, "a");
    hide Watermark, TakeSnapshot, MaxClaimed, StaysUnseen, Observable, Sweep;
    ChangeStaysUnseen(env, l, Sweep(l, 5), "a", ticks);
  }

  lemma {:induction false} SweptNewest(rows: seq<Row>)
    requires |rows| == 2 && rows[0].id == 1 && rows[1].id == 2 && rows[1].owner == OfRun("a")
    requires rows[0].received < 5 && rows[1].received >= 5
    ensures MaxClaimed(Kept(rows, 5), map[], "a") == MaxClaimed(rows, map[], "a")
  {
    NewestDirect(rows, map[]);
    var one := rows[..1];
    assert one[..0] == [] && Kept([], 5) == [] && Kept(one, 5) == [];
    assert Kept(rows, 5) == [rows[1]];
    var kept := [rows[1]];
    assert kept[..0] == [] && MaxClaimed([], map[], "a") == 0;
    assert ClaimOf(rows[1], map[], "a") == Some(Direct);
  }
}
