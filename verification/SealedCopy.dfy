/**
  Sealed copies on the file system: a bounded walk of the source writes new files and
  directories under a target, makes them read-only, and on any failure the target is removed.
 */
module SealedCopies {
  import opened SnapshotTree
  import opened SnapshotManifest
  import opened FileSystems

  // ------------------------------------------------------------------- rendered trees

  /** A node and all below it, as paths. */
  function Rendered(p: Path, n: Node): Nodes
    decreases n
  {
    match n
    case File(content, mode) => map[p := FileNode(content, mode)]
    case Dir(entries, mode) => map[p := DirNode(mode)] + RenderedEntries(p, entries)
    case Link(target) => map[p := LinkNode(target)]
    case Special => map[p := SpecialNode]
  }

  function RenderedEntries(p: Path, entries: seq<Entry>): Nodes
    decreases entries
  {
    if entries == [] then map[] else RenderedEntry(p, entries[0]) + RenderedEntries(p, entries[1..])
  }

  function RenderedEntry(p: Path, e: Entry): Nodes
    decreases e
  {
    Rendered(p + [e.name.bytes], e.node)
  }

  function SealedDir(entries: seq<Entry>): Node { Dir(SealEntries(entries), SEALED_DIR) }

  /** Only new files and directories, all at or under `root`. */
  ghost predicate Wrote(before: Nodes, after: Nodes, root: Path) {
    && (forall p :: p in before ==> p in after && after[p] == before[p])
    && (forall p :: p in after && p !in before ==> Under(root, p) && (after[p].FileNode? || after[p].DirNode?))
  }

  lemma WroteNone(nodes: Nodes, root: Path)
    ensures Wrote(nodes, nodes, root)
  {}

  lemma WroteThen(a: Nodes, b: Nodes, c: Nodes, root: Path, inner: Path)
    requires Wrote(a, b, root) && Wrote(b, c, inner) && Under(root, inner)
    ensures Wrote(a, c, root)
  {
    forall p | p in c && p !in b ensures Under(root, p) { UnderTransitive(root, inner, p); }
  }

  /** A new name, later rewritten or not. */
  lemma WroteNew(nodes: Nodes, p: Path, kind: Kind, root: Path)
    requires p !in nodes && (kind.FileNode? || kind.DirNode?) && Under(root, p)
    ensures Wrote(nodes, nodes[p := kind], root)
  {}

  /** Changing the mode of what was written is still writing. */
  lemma WroteMode(before: Nodes, after: Nodes, root: Path, p: Path, mode: bv16)
    requires Wrote(before, after, root) && p !in before && p in after && (after[p].FileNode? || after[p].DirNode?)
    ensures Wrote(before, after[p := after[p].(mode := mode)], root)
  {}

  lemma WroteOutside(before: Nodes, after: Nodes, root: Path)
    requires Wrote(before, after, root)
    ensures SameOutside(before, after, root)
  {}

  /** Files and directories written under an absent path are no obstacle to removing it. */
  lemma WrotePlain(before: Nodes, after: Nodes, root: Path)
    requires Wrote(before, after, root) && NoSpecialUnder(before, root)
    ensures NoSpecialUnder(after, root)
  {}

  lemma PlusAssociative(a: Nodes, b: Nodes, c: Nodes)
    ensures (a + b) + c == a + (b + c)
  {}

  // ------------------------------------------------------------------------- copying

  /** The names still to be created are free. */
  ghost predicate FreeNames(nodes: Nodes, p: Path, entries: seq<Entry>) {
    forall k :: 0 <= k < |entries| && entries[k].name.Utf8? ==> p + [entries[k].name.bytes] !in nodes
  }

  lemma FreeAfter(before: Nodes, after: Nodes, p: Path, entries: seq<Entry>)
    requires entries != [] && entries[0].name.Utf8? && FreshName(entries[0].name, entries[1..])
    requires FreeNames(before, p, entries) && Wrote(before, after, p + [entries[0].name.bytes])
    ensures FreeNames(after, p, entries[1..])
  {
    var rest, mine := entries[1..], p + [entries[0].name.bytes];
    forall k | 0 <= k < |rest| && rest[k].name.Utf8? ensures p + [rest[k].name.bytes] !in after {
      var other := p + [rest[k].name.bytes];
      assert rest[k] == entries[k + 1] && rest[k].name != entries[0].name;
      assert other[|p|] == rest[k].name.bytes && mine[|p|] == entries[0].name.bytes;
      assert other[..|mine|] == other;
    }
  }

  lemma FreshTarget(nodes: Nodes, p: Path, entries: seq<Entry>)
    requires WellFormed(nodes) && p !in nodes
    ensures FreeNames(nodes[p := DirNode(NEW_DIR)], p, entries)
  {
    MissingIsAbsent(nodes, p);
    forall k | 0 <= k < |entries| ensures p + [entries[k].name.bytes] !in nodes[p := DirNode(NEW_DIR)] {
      var q := p + [entries[k].name.bytes];
      assert q[..|p|] == p && |q| != |p|;
    }
  }

  lemma ChildPath(p: Path, name: Bytes, nodes: Nodes)
    ensures Under(p, p + [name]) && p + [name] != [] && Parent(p + [name]) == p
    ensures p in nodes && nodes[p] == DirNode(NEW_DIR) ==> ParentOpen(nodes, p + [name])
  {
    NewIsWritable();
  }

  /** Where a step of a copy may have got to: the walk so far, and what a whole walk would come to. */
  ghost predicate Onward(whole: Result<Walk>, rest: Result<Walk>) {
    (whole.Ok? <==> rest.Ok?) && (whole.Ok? ==> whole.value.budget == rest.value.budget)
  }

  /** Copy a directory's entries into a new directory at `target`, then seal it. */
  method CopyTree(fs: FileSystem, entries: seq<Entry>, target: Path, prefix: Bytes, depth: nat, budget: SnapshotBudget) returns (ok: bool)
    requires WellFormed(fs.nodes) && DistinctNames(entries)
    modifies fs`nodes, fs`calls, budget
    ensures WellFormed(fs.nodes) && Wrote(old(fs.nodes), fs.nodes, target)
    ensures ok ==>
              var w := WalkDir(entries, prefix, depth, old(budget.Value()));
              && w.Ok? && budget.Value() == w.value.budget
              && CanCreate(old(fs.nodes), target)
              && fs.nodes == old(fs.nodes) + Rendered(target, SealedDir(entries))
    ensures old(fs.Quiet()) ==>
              fs.Quiet() && (ok <==> CanCreate(old(fs.nodes), target) && WalkDir(entries, prefix, depth, old(budget.Value())).Ok?)
    decreases entries, 2
  {
    hide WellFormed, CanCreate, Under, Wrote, WalkEntries, SealEntries, DistinctNames, RenderedEntries, ParentOpen;
    ghost var n0 := fs.nodes;
    WroteNone(n0, target);
    if depth > MAX_DEPTH { return false; }
    var made := fs.CreateDir(target);
    if made.Failed? { return false; }
    DirCreated(n0, target, entries);
    ghost var n1, b := fs.nodes, budget.Value();
    ok := CopyEntries(fs, entries, target, prefix, depth, budget);
    WroteThen(n0, n1, fs.nodes, target, target);
    if !ok { return; }
    ghost var n2 := fs.nodes;
    TargetThere(n1, n2, target);
    WroteMode(n0, n2, target, target, SEALED_DIR);
    var sealed := fs.Chmod(target, SEALED_DIR);
    if sealed.Failed? { return false; }
    Assembled(n0, target, entries);
  }

  lemma DirCreated(nodes: Nodes, target: Path, entries: seq<Entry>)
    requires WellFormed(nodes) && CanCreate(nodes, target)
    ensures var n := nodes[target := DirNode(NEW_DIR)];
            target !in nodes && Under(target, target) && Wrote(nodes, n, target) && FreeNames(n, target, entries)
  {
    FreshTarget(nodes, target, entries);
    WroteNew(nodes, target, DirNode(NEW_DIR), target);
  }

  lemma TargetThere(before: Nodes, after: Nodes, target: Path)
    requires target in before && Wrote(before, after, target)
    ensures target in after && after[target] == before[target]
  {}

  /** Everything an entry list renders lies strictly below its directory. */
  lemma {:induction false} RenderedBelow(p: Path, entries: seq<Entry>, q: Path)
    requires q in RenderedEntries(p, entries)
    ensures Under(p, q) && |q| > |p|
    decreases entries
  {
    if q in RenderedEntry(p, entries[0]) {
      RenderedEntryBelow(p, entries[0], q);
    } else {
      RenderedBelow(p, entries[1..], q);
    }
  }

  lemma {:induction false} RenderedEntryBelow(p: Path, e: Entry, q: Path)
    requires q in RenderedEntry(p, e)
    ensures Under(p, q) && |q| > |p|
    decreases e
  {
    var child := p + [e.name.bytes];
    if e.node.Dir? && q in RenderedEntries(child, e.node.entries) { RenderedBelow(child, e.node.entries, q); }
    UnderTransitive(p, child, q);
  }

  lemma RenderedUnder(p: Path, n: Node, q: Path)
    requires q in Rendered(p, n)
    ensures Under(p, q)
  {
    if n.Dir? && q in RenderedEntries(p, n.entries) { RenderedBelow(p, n.entries, q); }
  }

  lemma Assembled(n0: Nodes, target: Path, entries: seq<Entry>)
    ensures var n1 := n0[target := DirNode(NEW_DIR)] + RenderedEntries(target, SealEntries(entries));
            n1[target := DirNode(SEALED_DIR)] == n0 + Rendered(target, SealedDir(entries))
  {
    var r := RenderedEntries(target, SealEntries(entries));
    assert target !in r by {
      if target in r { RenderedBelow(target, SealEntries(entries), target); }
    }
  }

  method CopyEntries(fs: FileSystem, entries: seq<Entry>, target: Path, prefix: Bytes, depth: nat, budget: SnapshotBudget) returns (ok: bool)
    requires WellFormed(fs.nodes) && DistinctNames(entries) && FreeNames(fs.nodes, target, entries)
    requires target in fs.nodes && fs.nodes[target] == DirNode(NEW_DIR)
    modifies fs`nodes, fs`calls, budget
    ensures WellFormed(fs.nodes) && Wrote(old(fs.nodes), fs.nodes, target)
    ensures ok ==>
              var w := WalkEntries(entries, prefix, depth, old(budget.Value()));
              && w.Ok? && budget.Value() == w.value.budget
              && fs.nodes == old(fs.nodes) + RenderedEntries(target, SealEntries(entries))
    ensures old(fs.Quiet()) ==> fs.Quiet() && (ok <==> WalkEntries(entries, prefix, depth, old(budget.Value())).Ok?)
    decreases entries, 1
  {
    hide WellFormed, Under, Wrote, WalkEntry, SealEntry, DistinctWithin, FreeNames, Rendered, FreshName,
         WalkEntries, SealEntries, DistinctNames, RenderedEntries, Onward;
    ghost var n0, whole := fs.nodes, WalkEntries(entries, prefix, depth, budget.Value());
    ghost var all := n0 + RenderedEntries(target, SealEntries(entries));
    WroteNone(n0, target);
    assert entries[0..] == entries;
    OnwardNone(whole);
    var i := 0;
    while i < |entries|
      invariant 0 <= i <= |entries|
      invariant WellFormed(fs.nodes) && Wrote(n0, fs.nodes, target)
      invariant DistinctNames(entries[i..]) && FreeNames(fs.nodes, target, entries[i..])
      invariant all == fs.nodes + RenderedEntries(target, SealEntries(entries[i..]))
      invariant Onward(whole, WalkEntries(entries[i..], prefix, depth, budget.Value()))
      invariant old(fs.Quiet()) ==> fs.Quiet()
    {
      assert entries[i..][0] == entries[i] && entries[i..][1..] == entries[i + 1..];
      ghost var was, rest := fs.nodes, entries[i..];
      var e := entries[i];
      TargetThere(n0, was, target);
      FirstFree(was, target, rest);
      ChildPath(target, e.name.bytes, was);
      DistinctTail(rest);
      OneWalked(whole, rest, prefix, depth, budget.Value());
      ok := CopyEntry(fs, e, target, prefix, depth, budget);
      WroteThen(n0, was, fs.nodes, target, target + [e.name.bytes]);
      if !ok { return; }
      FreeAfter(was, fs.nodes, target, rest);
      OneRendered(was, fs.nodes, target, rest);
      i := i + 1;
    }
    assert entries[i..] == [];
    AllWalked(whole, target, prefix, depth, budget.Value());
    return true;
  }

  lemma OnwardNone(whole: Result<Walk>)
    ensures Onward(whole, whole)
  {}

  lemma DistinctTail(entries: seq<Entry>)
    requires entries != [] && DistinctNames(entries)
    ensures DistinctWithin(entries[0]) && FreshName(entries[0].name, entries[1..]) && DistinctNames(entries[1..])
  {}

  lemma OneWalked(whole: Result<Walk>, entries: seq<Entry>, prefix: Bytes, depth: nat, b: Budget)
    requires entries != [] && Onward(whole, WalkEntries(entries, prefix, depth, b))
    ensures var first := WalkEntry(entries[0], prefix, depth, b);
            && (first.Err? ==> whole.Err?)
            && (first.Ok? ==> Onward(whole, WalkEntries(entries[1..], prefix, depth, first.value.budget)))
  {
    hide WalkEntry;
  }

  lemma AllWalked(whole: Result<Walk>, target: Path, prefix: Bytes, depth: nat, b: Budget)
    ensures SealEntries([]) == [] && RenderedEntries(target, []) == map[]
    ensures Onward(whole, WalkEntries([], prefix, depth, b)) ==> whole.Ok? && whole.value.budget == b
  {}

  lemma FirstFree(nodes: Nodes, p: Path, entries: seq<Entry>)
    requires entries != [] && FreeNames(nodes, p, entries)
    ensures entries[0].name.Utf8? ==> p + [entries[0].name.bytes] !in nodes
  {}

  lemma OneRendered(was: Nodes, now: Nodes, p: Path, entries: seq<Entry>)
    requires entries != [] && now == was + Rendered(p + [entries[0].name.bytes], SealEntry(entries[0]).node)
    ensures was + RenderedEntries(p, SealEntries(entries)) == now + RenderedEntries(p, SealEntries(entries[1..]))
  {
    var s := SealEntries(entries);
    assert s[0] == SealEntry(entries[0]) && s[1..] == SealEntries(entries[1..]);
    PlusAssociative(was, RenderedEntry(p, s[0]), RenderedEntries(p, s[1..]));
  }

  /** One entry: refused unless plain, admitted to the budget, then created under its own name. */
  method CopyEntry(fs: FileSystem, e: Entry, target: Path, prefix: Bytes, depth: nat, budget: SnapshotBudget) returns (ok: bool)
    requires WellFormed(fs.nodes) && DistinctWithin(e)
    requires target in fs.nodes && fs.nodes[target] == DirNode(NEW_DIR)
    requires e.name.Utf8? ==> target + [e.name.bytes] !in fs.nodes
    modifies fs`nodes, fs`calls, budget
    ensures WellFormed(fs.nodes) && Wrote(old(fs.nodes), fs.nodes, target + [e.name.bytes])
    ensures ok ==>
              var w := WalkEntry(e, prefix, depth, old(budget.Value()));
              && w.Ok? && e.name.Utf8? && budget.Value() == w.value.budget
              && fs.nodes == old(fs.nodes) + Rendered(target + [e.name.bytes], SealEntry(e).node)
    ensures old(fs.Quiet()) ==> fs.Quiet() && (ok <==> WalkEntry(e, prefix, depth, old(budget.Value())).Ok?)
    decreases e, 0
  {
    hide WellFormed, Under, Wrote, ParentOpen, WalkDir, DistinctNames;
    var to := target + [e.name.bytes];
    ChildPath(target, e.name.bytes, fs.nodes);
    WroteNone(fs.nodes, to);
    if e.name.NotUtf8? { return false; }
    var path := Join(prefix, e.name.bytes);
    match e.node {
      case Link(_) => return false;
      case Special => return false;
      case Dir(sub, _) =>
        var admitted := budget.Admit(|path|, 0);
        if admitted.Err? { return false; }
        ok := CopyTree(fs, sub, to, path, depth + 1, budget);
      case File(content, mode) =>
        var admitted := budget.Admit(|path|, |content|);
        if admitted.Err? { return false; }
        ok := CopyFile(fs, to, content, mode);
    }
  }

  /** `create_new`, copy, seal the mode. */
  method CopyFile(fs: FileSystem, to: Path, content: Bytes, mode: bv16) returns (ok: bool)
    requires WellFormed(fs.nodes)
    modifies fs`nodes, fs`calls
    ensures WellFormed(fs.nodes) && Wrote(old(fs.nodes), fs.nodes, to)
    ensures ok ==> CanCreate(old(fs.nodes), to) && fs.nodes == old(fs.nodes) + map[to := FileNode(content, SealMode(mode))]
    ensures old(fs.Quiet()) ==> fs.Quiet() && (ok <==> CanCreate(old(fs.nodes), to))
  {
    hide WellFormed, CanCreate, Under, SealMode, Wrote;
    ghost var n0 := fs.nodes;
    FileWritten(n0, to);
    var written := fs.WriteNew(to, content);
    if written.Failed? { return false; }
    ghost var n1 := fs.nodes;
    assert n1 == n0[to := FileNode(content, NEW_FILE)];
    var sealed := fs.Chmod(to, SealMode(mode));
    assert n1[to := FileNode(content, SealMode(mode))] == n0[to := FileNode(content, SealMode(mode))];
    return sealed.Done?;
  }

  lemma FileWritten(nodes: Nodes, to: Path)
    ensures Wrote(nodes, nodes, to)
    ensures CanCreate(nodes, to) ==> forall c: Bytes, m: bv16 :: Wrote(nodes, nodes[to := FileNode(c, m)], to)
  {
    assert Under(to, to);
  }

  // -------------------------------------------------------------- a whole sealed copy

  datatype Seal = Sealed | Refused | CleanupFailed

  /** The failure path of every sealing step: whatever was written at the target is removed. */
  method Undo(fs: FileSystem, target: Path) returns (r: Seal)
    requires WellFormed(fs.nodes)
    modifies fs`nodes, fs`calls
    ensures WellFormed(fs.nodes) && SameOutside(old(fs.nodes), fs.nodes, target) && !r.Sealed?
    ensures r.Refused? ==> Absent(fs.nodes, target)
    ensures NoSpecialUnder(old(fs.nodes), target) ==> NoSpecialUnder(fs.nodes, target)
    ensures old(fs.Quiet()) ==> fs.Quiet()
    ensures old(fs.Quiet()) && NoSpecialUnder(old(fs.nodes), target) && (target !in old(fs.nodes) || ParentOpen(old(fs.nodes), target)) ==> r.Refused?
  {
    var removed := fs.RemoveCustodyTree(target);
    return if removed.Done? then Refused else CleanupFailed;
  }

  /**
    A sealed copy or nothing: it succeeds, undisturbed, exactly when the target can be created and
    the tree is acceptable, and the copy is read-only with an equal manifest; after a failure
    with successful clean-up nothing is left at the target; nothing else is ever touched.
   */
  method SealedCopyTree(h: Hash, fs: FileSystem, source: Node, target: Path) returns (r: Seal)
    requires WellFormed(fs.nodes) && (source.Dir? ==> DistinctNames(source.entries))
    modifies fs`nodes, fs`calls
    ensures WellFormed(fs.nodes) && SameOutside(old(fs.nodes), fs.nodes, target)
    ensures r.Sealed? ==>
              && source.Dir? && Acceptable(source.entries)
              && fs.nodes == old(fs.nodes) + Rendered(target, SealedDir(source.entries))
              && ReadOnly(SealEntries(source.entries), source.entries)
              && ManifestDigest(h, SealEntries(source.entries)).Ok?
              && ManifestDigest(h, SealEntries(source.entries)) == ManifestDigest(h, source.entries)
    ensures r.Refused? ==> Absent(fs.nodes, target)
    ensures old(fs.Quiet()) && CanCreate(old(fs.nodes), target) ==>
              (r.Sealed? <==> source.Dir? && Acceptable(source.entries)) && !r.CleanupFailed?
  {
    hide WellFormed, Wrote, SameOutside, Absent, NoSpecialUnder, ParentOpen, ReadOnly, SealEntries, DistinctNames, ManifestDigest;
    ghost var n0 := fs.nodes;
    WroteNone(n0, target);
    var ok := false;
    if source.Dir? {
      WalkExact(source.entries, [], 0, EMPTY_BUDGET);
      var budget := new SnapshotBudget();
      ok := CopyTree(fs, source.entries, target, [], 0, budget);
    }
    WroteOutside(n0, fs.nodes, target);
    if ok {
      SameManifest(h, source.entries);
      SealIsReadOnly(source.entries);
      return Sealed;
    }
    ghost var n1 := fs.nodes;
    if CanCreate(n0, target) {
      MissingIsAbsent(n0, target);
      WrotePlain(n0, n1, target);
      OutsideParent(n0, n1, target);
    }
    r := Undo(fs, target);
    OutsideThen(n0, n1, fs.nodes, target);
  }

  lemma SameManifest(h: Hash, entries: seq<Entry>)
    requires Acceptable(entries)
    ensures ManifestDigest(h, SealEntries(entries)).Ok?
    ensures ManifestDigest(h, SealEntries(entries)) == ManifestDigest(h, entries)
  {
    SealKeepsRows(entries, [], 0);
    WalkExact(entries, [], 0, EMPTY_BUDGET);
    WalkExact(SealEntries(entries), [], 0, EMPTY_BUDGET);
    hide SealEntries, RowsOf, Plain, Count, Total;
  }
}
