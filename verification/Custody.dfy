/**
  Custody of transient directories: clean-up of a list of paths, and the admission of sealed
  Cargo inputs, which undoes itself on failure.
 */
module Custody {
  import opened Options
  import opened Texts
  import opened SnapshotTree
  import M = SnapshotManifest
  import opened FileSystems
  import opened SealedCopies
  import opened CargoRegistry
  import opened RegistrySeal
  import opened RegistryManifest

  // ------------------------------------------------------------------------- clean-up

  /** Removal will succeed if no call fails. */
  ghost predicate CanClear(nodes: Nodes, p: Path) {
    NoSpecialUnder(nodes, p) && (p !in nodes || ParentOpen(nodes, p))
  }

  ghost predicate RemovedUnderAny(before: Nodes, after: Nodes, roots: seq<Path>) {
    && (forall p :: p in after ==> p in before && (after[p] == before[p] || (before[p].DirNode? && after[p] == DirNode(OWNER_ONLY))))
    && (forall p :: (forall i :: 0 <= i < |roots| ==> !Under(roots[i], p)) ==>
          (p in after <==> p in before) && (p in before ==> after[p] == before[p]))
  }

  lemma RemovedNone(nodes: Nodes, roots: seq<Path>)
    ensures RemovedUnderAny(nodes, nodes, roots)
  {}

  lemma RemovedThen(before: Nodes, was: Nodes, now: Nodes, roots: seq<Path>, i: nat)
    requires i < |roots| && RemovedUnderAny(before, was, roots) && OnlyRemovedUnder(was, now, roots[i])
    ensures RemovedUnderAny(before, now, roots)
    ensures forall p :: Absent(was, p) ==> Absent(now, p)
  {
    hide Under;
  }

  /** Removing one tree is no obstacle to removing another. */
  lemma StillClear(was: Nodes, now: Nodes, root: Path, p: Path)
    requires WellFormed(now) && OnlyRemovedUnder(was, now, root) && CanClear(was, p)
    ensures CanClear(now, p)
  {
    NewIsWritable();
  }

  ghost predicate AllClear(nodes: Nodes, paths: seq<Path>) { forall i :: 0 <= i < |paths| ==> CanClear(nodes, paths[i]) }

  ghost predicate AllAbsent(nodes: Nodes, paths: seq<Path>) { forall i :: 0 <= i < |paths| ==> Absent(nodes, paths[i]) }

  /** Try to remove every path; count the failures. */
  method RemoveAll(fs: FileSystem, paths: seq<Path>) returns (errors: nat)
    requires WellFormed(fs.nodes)
    modifies fs`nodes, fs`calls
    ensures WellFormed(fs.nodes) && RemovedUnderAny(old(fs.nodes), fs.nodes, paths)
    ensures errors == 0 ==> AllAbsent(fs.nodes, paths)
    ensures old(fs.Quiet()) ==> fs.Quiet() && (AllClear(old(fs.nodes), paths) ==> errors == 0)
  {
    hide Absent, CanClear, Under, WellFormed, RemovedUnderAny, OnlyRemovedUnder, NoSpecialUnder;
    errors := 0;
    ghost var before := fs.nodes;
    RemovedNone(before, paths);
    for i := 0 to |paths|
      invariant WellFormed(fs.nodes) && RemovedUnderAny(before, fs.nodes, paths)
      invariant errors == 0 ==> forall j :: 0 <= j < i ==> Absent(fs.nodes, paths[j])
      invariant old(fs.Quiet()) ==> fs.Quiet()
      invariant AllClear(before, paths) ==> AllClear(fs.nodes, paths)
      invariant old(fs.Quiet()) && AllClear(before, paths) ==> errors == 0
    {
      ghost var was := fs.nodes;
      ClearMeans(was, paths[i]);
      var removed := fs.RemoveCustodyTree(paths[i]);
      RemovedThen(before, was, fs.nodes, paths, i);
      if AllClear(was, paths) {
        forall j | 0 <= j < |paths| ensures CanClear(fs.nodes, paths[j]) { StillClear(was, fs.nodes, paths[i], paths[j]); }
      }
      if removed.Failed? { errors := errors + 1; }
    }
  }

  lemma ClearMeans(nodes: Nodes, p: Path)
    ensures CanClear(nodes, p) <==> NoSpecialUnder(nodes, p) && (p !in nodes || ParentOpen(nodes, p))
  {}

  /** Paths to clean up, disarmed once a clean-up has removed them all. */
  class CustodyCleanup {
    const paths: seq<Path>
    var armed: bool

    constructor (paths: seq<Path>)
      ensures this.paths == paths && armed
    {
      this.paths := paths;
      armed := true;
    }

    method Cleanup(fs: FileSystem) returns (r: Outcome)
      requires WellFormed(fs.nodes)
      modifies this`armed, fs`nodes, fs`calls
      ensures WellFormed(fs.nodes) && RemovedUnderAny(old(fs.nodes), fs.nodes, paths)
      ensures r.Done? ==> !armed && AllAbsent(fs.nodes, paths)
      ensures r.Failed? ==> armed == old(armed)
      ensures old(fs.Quiet()) ==> fs.Quiet() && (AllClear(old(fs.nodes), paths) ==> r.Done?)
    {
      hide RemovedUnderAny, AllAbsent, AllClear, WellFormed;
      var errors := RemoveAll(fs, paths);
      if errors == 0 {
        armed := false;
        return Done;
      }
      return Failed;
    }

    /** `drop`: while still armed, try once more and say nothing. */
    method Drop(fs: FileSystem)
      requires WellFormed(fs.nodes)
      modifies fs`nodes, fs`calls
      ensures WellFormed(fs.nodes) && RemovedUnderAny(old(fs.nodes), fs.nodes, paths)
      ensures !armed ==> fs.nodes == old(fs.nodes)
      ensures old(fs.Quiet()) ==> fs.Quiet() && (armed && AllClear(old(fs.nodes), paths) ==> AllAbsent(fs.nodes, paths))
    {
      hide AllAbsent, AllClear, WellFormed;
      RemovedNone(fs.nodes, paths);
      hide RemovedUnderAny;
      if armed {
        var _ := RemoveAll(fs, paths);
      }
    }
  }

  // ----------------------------------------------------------- the other sealed inputs

  function GitNodes(root: Path, mode: bv16): Nodes {
    map[root := DirNode(mode)] + map[root + [Codes("db")] := DirNode(M.SEALED_DIR)]
    + map[root + [Codes("checkouts")] := DirNode(M.SEALED_DIR)]
  }

  /** A new sealed directory. */
  method MakeSealedDir(fs: FileSystem, p: Path, ghost n0: Nodes, ghost root: Path) returns (ok: bool)
    requires WellFormed(fs.nodes) && Wrote(n0, fs.nodes, root) && Under(root, p)
    modifies fs`nodes, fs`calls
    ensures WellFormed(fs.nodes) && Wrote(n0, fs.nodes, root)
    ensures ok ==> p !in old(fs.nodes) && fs.nodes == old(fs.nodes) + map[p := DirNode(M.SEALED_DIR)]
    ensures old(fs.Quiet()) ==> fs.Quiet() && (ok <==> CanCreate(old(fs.nodes), p))
  {
    hide WellFormed, Wrote, Under, CanCreate;
    ghost var was := fs.nodes;
    UnderSelf(root);
    ok := MakeDir(fs, p, root);
    WroteThen(n0, was, fs.nodes, root, root);
    if !ok { return; }
    FreshChild(n0, was, root, p);
    ghost var made := fs.nodes;
    WroteMode(n0, made, root, p, M.SEALED_DIR);
    var sealed := fs.Chmod(p, M.SEALED_DIR);
    return sealed.Done?;
  }

  /** An empty git cache: two sealed directories in a sealed directory. */
  method SealEmptyGit(fs: FileSystem, root: Path) returns (ok: bool)
    requires WellFormed(fs.nodes)
    modifies fs`nodes, fs`calls
    ensures WellFormed(fs.nodes) && Wrote(old(fs.nodes), fs.nodes, root)
    ensures old(fs.Quiet()) ==> fs.Quiet() && (ok <==> CanCreate(old(fs.nodes), root))
    ensures ok ==> root !in old(fs.nodes) && fs.nodes == old(fs.nodes) + GitNodes(root, M.SEALED_DIR)
  {
    hide WellFormed, Wrote, Under, CanCreate, Codes, GitNodes;
    ghost var n0 := fs.nodes;
    UnderSelf(root);
    GitPaths(root);
    ok := MakeDir(fs, root, root);
    if !ok { return; }
    Creatable(n0, root);
    GitSteps(n0, root);
    ghost var n1 := fs.nodes;
    ok := MakeSealedDir(fs, root + [Codes("db")], n0, root);
    if !ok { return; }
    ghost var n2 := fs.nodes;
    ok := MakeSealedDir(fs, root + [Codes("checkouts")], n0, root);
    if !ok { return; }
    ghost var last := fs.nodes;
    assert last[root] == n2[root] == n1[root] == DirNode(NEW_DIR);
    WroteMode(n0, last, root, root, M.SEALED_DIR);
    var sealed := fs.Chmod(root, M.SEALED_DIR);
    GitWritten(n0, root);
    ok := sealed.Done?;
  }

  lemma GitWritten(n0: Nodes, root: Path)
    ensures (n0 + map[root := DirNode(NEW_DIR)] + map[root + [Codes("db")] := DirNode(M.SEALED_DIR)]
             + map[root + [Codes("checkouts")] := DirNode(M.SEALED_DIR)])[root := DirNode(M.SEALED_DIR)]
         == n0 + GitNodes(root, M.SEALED_DIR)
  {
    hide Codes;
    GitPaths(root);
  }

  lemma GitSteps(n0: Nodes, root: Path)
    requires WellFormed(n0) && root !in n0
    ensures var n1 := n0 + map[root := DirNode(NEW_DIR)];
            && CanCreate(n1, root + [Codes("db")])
            && CanCreate(n1 + map[root + [Codes("db")] := DirNode(M.SEALED_DIR)], root + [Codes("checkouts")])
  {
    var n1 := n0 + map[root := DirNode(NEW_DIR)];
    TopFree(n0, root);
    TopCreatable(n1, root, Codes("db"));
    assert Codes("db")[0] == 'd' as nat && Codes("checkouts")[0] == 'c' as nat;
    assert (root + [Codes("db")])[|root|] == Codes("db") && (root + [Codes("checkouts")])[|root|] == Codes("checkouts");
    TopCreatable(n1 + map[root + [Codes("db")] := DirNode(M.SEALED_DIR)], root, Codes("checkouts"));
  }

  lemma GitPaths(root: Path)
    ensures forall name: Bytes :: Under(root, root + [name]) && root + [name] != root
  {
    forall name: Bytes ensures Under(root, root + [name]) && root + [name] != root {
      assert (root + [name])[..|root|] == root && |root + [name]| != |root|;
    }
  }

  lemma Creatable(nodes: Nodes, p: Path)
    ensures CanCreate(nodes, p) ==> p !in nodes
  {}

  lemma FreshChild(n0: Nodes, was: Nodes, root: Path, child: Path)
    requires Wrote(n0, was, root) && CanCreate(was, child)
    ensures child !in n0 && child !in was
  {}

  /** The toolchain's runtime components; a missing one is None. */
  datatype Component = Component(name: string, node: Option<Node>)

  /** The components are four different names, and their directories list each name once. */
  predicate ComponentsDistinct(components: seq<Component>) {
    && (forall i, j :: 0 <= i < j < |components| ==> components[i].name != components[j].name)
    && ComponentsListed(components)
  }

  predicate ComponentsListed(components: seq<Component>) {
    forall i :: 0 <= i < |components| && components[i].node.Some? && components[i].node.value.Dir? ==>
      M.DistinctNames(components[i].node.value.entries)
  }

  predicate AllDirs(components: seq<Component>) {
    forall i :: 0 <= i < |components| ==> components[i].node.Some? && components[i].node.value.Dir?
  }

  /** The sealed components, path by path. */
  function ComponentsNodes(root: Path, components: seq<Component>): Nodes
    requires AllDirs(components)
  {
    if components == [] then map[]
    else
      var last := components[|components| - 1];
      ComponentsNodes(root, components[..|components| - 1]) + Rendered(root + [Codes(last.name)], SealedDir(last.node.value.entries))
  }

  function AdmitComponents(components: seq<Component>, b: Budget): Result<Budget>
    requires AllDirs(components)
  {
    if components == [] then Ok(b)
    else
      var last := components[|components| - 1];
      var b1 :- AdmitComponents(components[..|components| - 1], b);
      var b2 :- Admitted(b1, |last.name|, 0);
      var w :- WalkDir(last.node.value.entries, [], 0, b2);
      Ok(w.budget)
  }

  lemma {:induction false} AdmitComponentsPrefix(components: seq<Component>, n: nat, b: Budget)
    requires n <= |components| && AllDirs(components)
    ensures AdmitComponents(components[..n], b).Err? ==> AdmitComponents(components, b).Err?
    decreases |components| - n
  {
    hide WalkDir, Admitted;
    if n < |components| {
      assert components[..n + 1][..n] == components[..n];
      AdmitComponentsPrefix(components, n + 1, b);
    } else {
      assert components[..n] == components;
    }
  }

  lemma OneMoreComponent(n: Nodes, root: Path, components: seq<Component>, i: nat, b0: Budget, b: Budget)
    requires i < |components| && AllDirs(components[..i]) && components[i].node.Some? && components[i].node.value.Dir?
    requires AdmitComponents(components[..i], b0) == Ok(b)
    ensures AllDirs(components[..i + 1])
    ensures n + ComponentsNodes(root, components[..i]) + Rendered(root + [Codes(components[i].name)], SealedDir(components[i].node.value.entries))
         == n + ComponentsNodes(root, components[..i + 1])
    ensures var b1 := Admitted(b, |components[i].name|, 0);
            && (b1.Err? ==> AdmitComponents(components[..i + 1], b0).Err?)
            && (b1.Ok? ==>
                  var w := WalkDir(components[i].node.value.entries, [], 0, b1.value);
                  AdmitComponents(components[..i + 1], b0) == if w.Ok? then Ok(w.value.budget) else Err(w.refusal))
    ensures AllDirs(components) && AdmitComponents(components[..i + 1], b0).Err? ==> AdmitComponents(components, b0).Err?
  {
    hide Rendered, WalkDir, Admitted;
    assert components[..i + 1][..i] == components[..i];
    PlusAssociative(n, ComponentsNodes(root, components[..i]), Rendered(root + [Codes(components[i].name)], SealedDir(components[i].node.value.entries)));
    if AllDirs(components) { AdmitComponentsPrefix(components, i + 1, b0); }
  }

  ghost predicate FreeComponents(nodes: Nodes, root: Path, components: seq<Component>, from: nat) {
    forall k :: from <= k < |components| ==> root + [Codes(components[k].name)] !in nodes
  }

  lemma ComponentsStillFree(was: Nodes, now: Nodes, root: Path, components: seq<Component>, i: nat)
    requires i < |components| && ComponentsDistinct(components) && FreeComponents(was, root, components, i)
    requires Wrote(was, now, root + [Codes(components[i].name)])
    ensures FreeComponents(now, root, components, i + 1)
  {
    var mine := root + [Codes(components[i].name)];
    forall k | i + 1 <= k < |components| ensures root + [Codes(components[k].name)] !in now {
      var other := root + [Codes(components[k].name)];
      if Codes(components[i].name) == Codes(components[k].name) { CodesInjective(components[i].name, components[k].name); }
      assert mine[|root|] == Codes(components[i].name) && other[|root|] == Codes(components[k].name);
      Diverge(mine, other, |root|);
    }
  }

  method CopyComponents(fs: FileSystem, components: seq<Component>, root: Path, ghost n0: Nodes) returns (ok: bool)
    requires WellFormed(fs.nodes) && Wrote(n0, fs.nodes, root) && ComponentsDistinct(components)
    requires root in fs.nodes && fs.nodes[root] == DirNode(NEW_DIR) && FreeComponents(fs.nodes, root, components, 0)
    modifies fs`nodes, fs`calls
    ensures WellFormed(fs.nodes) && Wrote(n0, fs.nodes, root) && Wrote(old(fs.nodes), fs.nodes, root)
    ensures ok ==> AllDirs(components) && AdmitComponents(components, EMPTY_BUDGET).Ok?
    ensures ok ==> fs.nodes == old(fs.nodes) + ComponentsNodes(root, components)
    ensures old(fs.Quiet()) ==> fs.Quiet() && (ok <==> AllDirs(components) && AdmitComponents(components, EMPTY_BUDGET).Ok?)
  {
    hide WellFormed, Wrote, Under, CanCreate, Rendered, WalkDir, FreeComponents, Admitted, AdmitComponents;
    ghost var n1 := fs.nodes;
    WroteNone(n1, root);
    GitPaths(root);
    NoComponents();
    assert components[..0] == [];
    var budget := new SnapshotBudget();
    for i := 0 to |components|
      invariant WellFormed(fs.nodes) && Wrote(n0, fs.nodes, root) && Wrote(n1, fs.nodes, root)
      invariant old(fs.Quiet()) ==> fs.Quiet()
      invariant AllDirs(components[..i]) && fs.nodes == n1 + ComponentsNodes(root, components[..i])
      invariant AdmitComponents(components[..i], EMPTY_BUDGET) == Ok(budget.Value())
      invariant FreeComponents(fs.nodes, root, components, i)
    {
      var node := components[i].node;
      if node.None? || !node.value.Dir? { return false; }
      ghost var was, b := fs.nodes, budget.Value();
      OneMoreComponent(n1, root, components, i, EMPTY_BUDGET, b);
      var admitted := budget.Admit(|components[i].name|, 0);
      if admitted.Err? { return false; }
      var target := root + [Codes(components[i].name)];
      TargetThere(n1, was, root);
      ComponentCreatable(was, root, components, i);
      ok := CopyTree(fs, node.value.entries, target, [], 0, budget);
      WroteThen(n0, was, fs.nodes, root, target);
      WroteThen(n1, was, fs.nodes, root, target);
      if !ok { return; }
      ComponentsStillFree(was, fs.nodes, root, components, i);
    }
    assert components[..|components|] == components;
    return true;
  }

  lemma NoComponents()
    ensures AdmitComponents([], EMPTY_BUDGET) == Ok(EMPTY_BUDGET)
  {}

  lemma ComponentCreatable(nodes: Nodes, root: Path, components: seq<Component>, i: nat)
    requires i < |components| && FreeComponents(nodes, root, components, i) && root in nodes && nodes[root] == DirNode(NEW_DIR)
    ensures CanCreate(nodes, root + [Codes(components[i].name)])
  {
    ChildPath(root, Codes(components[i].name), nodes);
  }

  /** The programs a sealed toolchain must have. */
  function Required(root: Path): set<Path> {
    {root + [Codes("bin"), Codes("cargo")], root + [Codes("bin"), Codes("rustc")], root + [Codes("lib"), Codes("rustlib")]}
  }

  predicate Complete(nodes: Nodes, root: Path) {
    forall p :: p in Required(root) ==> p in nodes && (nodes[p].FileNode? || nodes[p].DirNode?)
  }

  /** What a toolchain needs to be sealed. */
  predicate ToolchainSealable(components: seq<Component>, root: Path) {
    AllDirs(components) && AdmitComponents(components, EMPTY_BUDGET).Ok? && Complete(ComponentsNodes(root, components), root)
  }

  /** The sealed toolchain as one tree. */
  function ComponentsTree(components: seq<Component>): seq<Entry>
    requires AllDirs(components)
  {
    if components == [] then []
    else
      var last := components[|components| - 1];
      ComponentsTree(components[..|components| - 1]) + [Entry(Utf8(Codes(last.name)), SealedDir(last.node.value.entries))]
  }

  lemma {:induction false} ComponentsAreTree(root: Path, components: seq<Component>)
    requires AllDirs(components)
    ensures ComponentsNodes(root, components) == RenderedEntries(root, ComponentsTree(components))
  {
    hide Rendered, RenderedEntries;
    if components == [] {
      NothingRendered(root);
    } else {
      var last := components[|components| - 1];
      ComponentsAreTree(root, components[..|components| - 1]);
      RenderedAppend(root, ComponentsTree(components[..|components| - 1]), Entry(Utf8(Codes(last.name)), SealedDir(last.node.value.entries)));
    }
  }

  lemma NothingRendered(root: Path)
    ensures RenderedEntries(root, []) == map[]
  {}

  /** The runtime components of the toolchain, sealed under one budget, or nothing. */
  method SealToolchain(fs: FileSystem, components: seq<Component>, root: Path) returns (r: Seal)
    requires WellFormed(fs.nodes) && ComponentsDistinct(components)
    modifies fs`nodes, fs`calls
    ensures WellFormed(fs.nodes) && SameOutside(old(fs.nodes), fs.nodes, root)
    ensures NoSpecialUnder(old(fs.nodes), root) ==> NoSpecialUnder(fs.nodes, root)
    ensures r.Refused? ==> Absent(fs.nodes, root)
    ensures r.Sealed? ==> && root !in old(fs.nodes) && ToolchainSealable(components, root)
                          && fs.nodes == old(fs.nodes) + Rendered(root, Folder(ComponentsTree(components)))
    ensures old(fs.Quiet()) ==> fs.Quiet()
    ensures old(fs.Quiet()) && CanCreate(old(fs.nodes), root) ==> !r.CleanupFailed? && (r.Sealed? <==> ToolchainSealable(components, root))
  {
    hide WellFormed, Wrote, SameOutside, Absent, NoSpecialUnder, ParentOpen, Under, Required, ComponentsNodes, ComponentsTree, AllDirs, AdmitComponents,
         ComponentsDistinct, Complete, Rendered;
    ghost var n0 := fs.nodes;
    UnderSelf(root);
    var ok := MakeDir(fs, root, root);
    ghost var n1 := fs.nodes;
    if ok {
      ComponentsFree(n0, root, components);
      ok := CopyComponents(fs, components, root, n0);
      TargetThere(n1, fs.nodes, root);
      ghost var n2 := fs.nodes;
      if ok {
        CompleteThere(n0, root, components);
        ok := Complete(fs.nodes, root);
        if ok {
          WroteMode(n0, n2, root, root, M.SEALED_DIR);
          ToolchainWritten(n0, root, components);
          var sealed := fs.Chmod(root, M.SEALED_DIR);
          ok := sealed.Done?;
        }
      }
    }
    ghost var n3 := fs.nodes;
    WroteOutside(n0, n3, root);
    if NoSpecialUnder(n0, root) { WrotePlain(n0, n3, root); }
    if ok { return Sealed; }
    if root !in n0 { MissingIsAbsent(n0, root); WrotePlain(n0, n3, root); }
    OutsideParent(n0, n3, root);
    r := Undo(fs, root);
    OutsideThen(n0, n3, fs.nodes, root);
  }

  lemma ComponentsFree(n0: Nodes, root: Path, components: seq<Component>)
    requires WellFormed(n0) && root !in n0
    ensures FreeComponents(n0 + map[root := DirNode(NEW_DIR)], root, components, 0)
  {
    TopFree(n0, root);
  }

  /** The required programs are looked for among what was just written. */
  lemma CompleteThere(n0: Nodes, root: Path, components: seq<Component>)
    requires WellFormed(n0) && root !in n0 && AllDirs(components)
    ensures Complete(n0 + map[root := DirNode(NEW_DIR)] + ComponentsNodes(root, components), root)
            <==> Complete(ComponentsNodes(root, components), root)
  {
    MissingIsAbsent(n0, root);
    hide ComponentsNodes, WellFormed, Codes;
    forall p | p in Required(root) ensures p !in n0 && p != root {
      assert p[..|root|] == root && |p| == |root| + 2;
    }
  }

  lemma ToolchainWritten(n0: Nodes, root: Path, components: seq<Component>)
    requires AllDirs(components)
    ensures (n0 + map[root := DirNode(NEW_DIR)] + ComponentsNodes(root, components))[root := DirNode(M.SEALED_DIR)]
         == n0 + Rendered(root, Folder(ComponentsTree(components)))
  {
    ComponentsAreTree(root, components);
    var r := RenderedEntries(root, ComponentsTree(components));
    if root in r { RenderedBelow(root, ComponentsTree(components), root); }
    hide RenderedEntries, ComponentsNodes, ComponentsTree;
  }

  // ------------------------------------------------------------------------- admission

  /** Nothing but the two custody trees and the directory holding the targets differs. */
  ghost predicate SameElsewhere(before: Nodes, after: Nodes, snapshot: Path, target: Path, targets: Path) {
    forall p :: !Under(snapshot, p) && !Under(target, p) && p != targets ==>
      (p in after <==> p in before) && (p in before ==> after[p] == before[p])
  }

  lemma ElsewhereNone(nodes: Nodes, snapshot: Path, target: Path, targets: Path)
    ensures SameElsewhere(nodes, nodes, snapshot, target, targets)
  {}

  lemma ElsewhereThen(a: Nodes, b: Nodes, c: Nodes, snapshot: Path, target: Path, targets: Path)
    requires SameElsewhere(a, b, snapshot, target, targets) && SameElsewhere(b, c, snapshot, target, targets)
    ensures SameElsewhere(a, c, snapshot, target, targets)
  {
    hide Under;
  }

  lemma OutsideIsElsewhere(a: Nodes, b: Nodes, snapshot: Path, target: Path, targets: Path)
    requires SameOutside(a, b, snapshot)
    ensures SameElsewhere(a, b, snapshot, target, targets)
  {
    hide Under;
  }

  lemma CreatedElsewhere(nodes: Nodes, p: Path, kind: Kind, snapshot: Path, target: Path, targets: Path)
    requires Under(snapshot, p) || Under(target, p) || p == targets
    ensures SameElsewhere(nodes, nodes[p := kind], snapshot, target, targets)
  {}

  lemma CleanedElsewhere(before: Nodes, after: Nodes, snapshot: Path, target: Path, targets: Path)
    requires RemovedUnderAny(before, after, [target, snapshot])
    ensures SameElsewhere(before, after, snapshot, target, targets)
  {
    assert forall p :: !Under(target, p) && !Under(snapshot, p) ==>
             forall i :: 0 <= i < |[target, snapshot]| ==> !Under([target, snapshot][i], p);
  }

  /** The three paths as they lie: the target in its directory, neither inside the snapshot root nor around it. */
  predicate Laid(snapshot: Path, target: Path, targets: Path) {
    && snapshot != [] && target != [] && Parent(target) == targets
    && !Under(snapshot, target) && !Under(target, snapshot) && !Under(snapshot, targets)
    && snapshot != targets && Parent(snapshot) != target
  }

  /** Work inside the snapshot root is no obstacle to clearing it or the target. */
  lemma ClearAfterInside(before: Nodes, after: Nodes, snapshot: Path, target: Path, targets: Path, inner: Path)
    requires Laid(snapshot, target, targets) && Under(snapshot, inner) && SameOutside(before, after, inner)
    requires NoSpecialUnder(before, inner) ==> NoSpecialUnder(after, inner)
    requires AllClear(before, [target, snapshot]) && snapshot in before && inner != snapshot
    ensures AllClear(after, [target, snapshot]) && snapshot in after && after[snapshot] == before[snapshot]
  {
    OutsideWider(before, after, snapshot, inner);
    OutsideParent(before, after, snapshot);
    assert CanClear(before, [target, snapshot][0]) && CanClear(before, [target, snapshot][1]);
    assert CanClear(after, snapshot) by { InsidePlain(before, after, snapshot, inner); }
    assert CanClear(after, target) by { ElsewhereClear(before, after, snapshot, target); }
  }

  lemma InsidePlain(before: Nodes, after: Nodes, snapshot: Path, inner: Path)
    requires Under(snapshot, inner) && inner != snapshot && SameOutside(before, after, inner)
    requires NoSpecialUnder(before, inner) ==> NoSpecialUnder(after, inner)
    requires NoSpecialUnder(before, snapshot) && snapshot in before
    ensures NoSpecialUnder(after, snapshot) && snapshot in after && after[snapshot] == before[snapshot]
  {
    forall p | Under(inner, p) ensures Under(snapshot, p) { UnderTransitive(snapshot, inner, p); }
    ProperlyInside(snapshot, inner);
  }

  lemma ProperlyInside(outer: Path, inner: Path)
    requires Under(outer, inner)
    ensures inner != outer ==> !Under(inner, outer)
  {
    assert outer[..|outer|] == outer && inner[..|inner|] == inner;
  }

  /** Paths of which neither lies under the other have nothing below in common. */
  lemma Unrelated(a: Path, b: Path, p: Path)
    requires !Under(a, b) && !Under(b, a)
    ensures !(Under(a, p) && Under(b, p))
  {
    assert |a| <= |b| <= |p| ==> p[..|b|][..|a|] == p[..|a|];
    assert |b| <= |a| <= |p| ==> p[..|a|][..|b|] == p[..|b|];
  }

  lemma ElsewhereClear(before: Nodes, after: Nodes, snapshot: Path, target: Path)
    requires SameOutside(before, after, snapshot) && !Under(snapshot, target) && !Under(target, snapshot)
    requires target != [] && !Under(snapshot, Parent(target)) && CanClear(before, target)
    ensures CanClear(after, target)
  {
    forall p | Under(target, p) ensures !Under(snapshot, p) {
      Unrelated(snapshot, target, p);
    }
  }

  datatype Admission = Completed | NotStarted | RolledBack | CleanupFailed

  /** What is sealed: the lockfile and registry, and the toolchain components. */
  datatype Inputs = Inputs(rows: seq<LockRow>, registry: Registry, components: seq<Component>)

  ghost predicate InputsListed(inputs: Inputs) { ListingsDistinct(inputs.registry) && ComponentsDistinct(inputs.components) }

  function GitTree(): seq<Entry> { [Entry(Utf8(Codes("db")), Folder([])), Entry(Utf8(Codes("checkouts")), Folder([]))] }

  lemma GitIsTree(root: Path)
    ensures GitNodes(root, M.SEALED_DIR) == Rendered(root, Folder(GitTree()))
  {
    hide Codes;
    var t := GitTree();
    assert t == [t[0]] + [t[1]] && [t[0]] == [] + [t[0]];
    RenderedAppend(root, [t[0]], t[1]);
    RenderedAppend(root, [], t[0]);
    NothingRendered(root);
    NothingRendered(root + [Codes("db")]);
    NothingRendered(root + [Codes("checkouts")]);
    hide RenderedEntries;
  }

  lemma GitAcceptable()
    ensures Acceptable(GitTree())
  {
    var t := GitTree();
    assert t == [t[0]] + [t[1]] && [t[0]] == [] + [t[0]];
    PlainNone([], 0);
    PlainMore([t[0]], t[1], [], 0);
    PlainMore([], t[0], [], 0);
    PlainNone(Codes("db"), 1);
    PlainNone(Codes("checkouts"), 1);
    CountMore([t[0]], t[1]);
    CountOne(t[0]);
    EmptyCounts();
    hide Plain, Count, SnapshotTree.Total;
  }

  /** A lockfile and registry that can be sealed and whose sealed tree can be read back. */
  ghost predicate Readable(h: Hash, rows: seq<LockRow>, source: Registry, homes: seq<Home>) {
    && Sealable(h, rows, source, homes)
    && AllHoused(source, homes) && AllIndexed(source, RegistriesOf(homes))
    && Acceptable(RegistryTree(source, RegistriesOf(homes), homes))
  }

  /** What admission needs of its inputs. */
  ghost predicate Admissible(h: Hash, inputs: Inputs, toolchain: Path) {
    && (exists homes :: Readable(h, inputs.rows, inputs.registry, homes))
    && ToolchainSealable(inputs.components, toolchain) && AllDirs(inputs.components) && Acceptable(ComponentsTree(inputs.components))
  }

  /** The directory of targets is writable, or can be made, and has no such target yet. */
  predicate TargetReady(nodes: Nodes, targets: Path, target: Path) {
    target !in nodes && if targets in nodes then nodes[targets].DirNode? && Writable(nodes[targets].mode) else CanCreate(nodes, targets)
  }

  /** The manifest of a tree that is on disk: read unless a call fails, and accepted within the bounds. */
  method ReadManifest(fs: FileSystem, entries: seq<Entry>, ghost p: Path) returns (ok: bool)
    requires Holds(fs.nodes, Rendered(p, Folder(entries)))
    modifies fs`calls
    ensures ok ==> Acceptable(entries)
    ensures old(fs.Quiet()) ==> fs.Quiet() && (ok <==> Acceptable(entries))
  {
    hide Rendered;
    var called := fs.Call();
    if !called { return false; }
    var digest := M.ContentManifestDigest((t: Text) => t, entries);
    return digest.Ok?;
  }

  function RegistryAt(snapshot: Path): Path { snapshot + [Codes("registry")] }
  function GitAt(snapshot: Path): Path { snapshot + [Codes("git")] }
  function ToolchainAt(snapshot: Path): Path { snapshot + [Codes("toolchain")] }

  lemma InputsApart(snapshot: Path)
    ensures var r, g, t := RegistryAt(snapshot), GitAt(snapshot), ToolchainAt(snapshot);
            && Under(snapshot, r) && Under(snapshot, g) && Under(snapshot, t) && r != snapshot && g != snapshot && t != snapshot
            && !Under(r, g) && !Under(r, t) && !Under(g, t) && !Under(g, r) && !Under(t, r) && !Under(t, g)
  {
    GitPaths(snapshot);
    var r, g, t := RegistryAt(snapshot), GitAt(snapshot), ToolchainAt(snapshot);
    assert Codes("registry")[0] == 'r' as nat && Codes("git")[0] == 'g' as nat && Codes("toolchain")[0] == 't' as nat;
    assert r[|snapshot|] == Codes("registry") && g[|snapshot|] == Codes("git") && t[|snapshot|] == Codes("toolchain");
    Diverge(r, g, |snapshot|);
    Diverge(r, t, |snapshot|);
    Diverge(g, t, |snapshot|);
  }

  ghost predicate Untouched(nodes: Nodes, snapshot: Path, p: Path) {
    snapshot in nodes && nodes[snapshot] == DirNode(NEW_DIR) && p !in nodes
  }

  lemma UntouchedCreatable(nodes: Nodes, snapshot: Path, name: Bytes)
    requires Untouched(nodes, snapshot, snapshot + [name])
    ensures CanCreate(nodes, snapshot + [name])
  {
    ChildPath(snapshot, name, nodes);
  }

  /** Work on one input leaves the next untouched, and the one before in place. */
  lemma NextInput(was: Nodes, now: Nodes, snapshot: Path, done: Path, other: Path, part: Nodes)
    requires SameOutside(was, now, done) && !Under(done, snapshot) && !Under(done, other) && !Under(other, done)
    ensures Untouched(was, snapshot, other) ==> Untouched(now, snapshot, other)
    ensures Holds(was, part) && (forall q :: q in part ==> Under(other, q)) ==> Holds(now, part)
  {
    forall q | Under(other, q) ensures !Under(done, q) { Unrelated(done, other, q); }
  }

  lemma RenderedAllUnder(p: Path, n: Node)
    ensures forall q :: q in Rendered(p, n) ==> Under(p, q)
  {
    forall q | q in Rendered(p, n) ensures Under(p, q) { RenderedUnder(p, n, q); }
  }

  lemma HoldsAdded(before: Nodes, part: Nodes)
    ensures Holds(before + part, part)
  {}

  /** The three sealed inputs are in place. */
  ghost predicate InPlace(nodes: Nodes, snapshot: Path, inputs: Inputs, homes: seq<Home>)
    requires AllHoused(inputs.registry, homes) && AllIndexed(inputs.registry, RegistriesOf(homes)) && AllDirs(inputs.components)
  {
    && Holds(nodes, Rendered(RegistryAt(snapshot), Folder(RegistryTree(inputs.registry, RegistriesOf(homes), homes))))
    && Holds(nodes, Rendered(GitAt(snapshot), Folder(GitTree())))
    && Holds(nodes, Rendered(ToolchainAt(snapshot), Folder(ComponentsTree(inputs.components))))
  }

  /** Seal the registry, an empty git cache and the toolchain, in this order. */
  method SealInputs(h: Hash, fs: FileSystem, snapshot: Path, ghost targets: Path, ghost target: Path, inputs: Inputs) returns (ok: bool, homes: seq<Home>)
    requires WellFormed(fs.nodes) && Laid(snapshot, target, targets) && InputsListed(inputs)
    requires Untouched(fs.nodes, snapshot, RegistryAt(snapshot)) && Untouched(fs.nodes, snapshot, GitAt(snapshot))
    requires Untouched(fs.nodes, snapshot, ToolchainAt(snapshot))
    modifies fs`nodes, fs`calls
    ensures WellFormed(fs.nodes) && SameOutside(old(fs.nodes), fs.nodes, snapshot)
    ensures snapshot in fs.nodes && fs.nodes[snapshot] == old(fs.nodes)[snapshot]
    ensures AllClear(old(fs.nodes), [target, snapshot]) ==> AllClear(fs.nodes, [target, snapshot])
    ensures ok ==> && Sealable(h, inputs.rows, inputs.registry, homes) && ToolchainSealable(inputs.components, ToolchainAt(snapshot))
                   && AllHoused(inputs.registry, homes) && AllIndexed(inputs.registry, RegistriesOf(homes)) && AllDirs(inputs.components)
                   && InPlace(fs.nodes, snapshot, inputs, homes)
    ensures old(fs.Quiet()) ==> fs.Quiet()
    ensures old(fs.Quiet()) && ToolchainSealable(inputs.components, ToolchainAt(snapshot)) ==>
              (ok <==> exists plan :: Sealable(h, inputs.rows, inputs.registry, plan))
  {
    hide WellFormed, SameElsewhere, SameOutside, Under, AllClear, NoSpecialUnder, Absent, Wrote, CanCreate, Laid, ListingsDistinct, Sealable, SealedNodes,
         ComponentsDistinct, Rendered, Holds, ToolchainSealable, Untouched, RegistryTree, ComponentsTree, GitTree,
         RegistryAt, GitAt, ToolchainAt;
    ghost var n0 := fs.nodes;
    ElsewhereNone(n0, snapshot, target, targets);
    OutsideNone(n0, snapshot);
    var registry, git, toolchain := RegistryAt(snapshot), GitAt(snapshot), ToolchainAt(snapshot);
    InputsApart(snapshot);
    InputsCreatable(n0, snapshot);
    var sealed;
    sealed, homes := SealRegistry(h, fs, inputs.rows, inputs.registry, registry);
    ghost var n1 := fs.nodes;
    InsideStep(n0, n0, n1, snapshot, target, targets, registry);
    if !sealed.Sealed? { return false, homes; }
    RegistrySealedTree(h, inputs.rows, inputs.registry, registry, n0, n1, homes);
    SealedInside(n0, n1, snapshot, registry, git);
    SealedInside(n0, n1, snapshot, registry, toolchain);
    UntouchedGit(n1, snapshot);
    ok := SealEmptyGit(fs, git);
    ghost var n2 := fs.nodes;
    WroteOutside(n1, n2, git);
    if NoSpecialUnder(n1, git) { WrotePlain(n1, n2, git); }
    InsideStep(n0, n1, n2, snapshot, target, targets, git);
    if !ok { return; }
    SealedInside(n1, n2, snapshot, git, toolchain);
    KeepsTree(n1, n2, snapshot, git, registry, Folder(RegistryTree(inputs.registry, RegistriesOf(homes), homes)));
    GitIsTree(git);
    HoldsAdded(n1, GitNodes(git, M.SEALED_DIR));
    UntouchedToolchain(n2, snapshot);
    sealed := SealToolchain(fs, inputs.components, toolchain);
    ghost var n3 := fs.nodes;
    InsideStep(n0, n2, n3, snapshot, target, targets, toolchain);
    if !sealed.Sealed? { return false, homes; }
    ToolchainDirs(inputs.components, toolchain);
    KeepsTree(n2, n3, snapshot, toolchain, registry, Folder(RegistryTree(inputs.registry, RegistriesOf(homes), homes)));
    KeepsTree(n2, n3, snapshot, toolchain, git, Folder(GitTree()));
    HoldsAdded(n2, Rendered(toolchain, Folder(ComponentsTree(inputs.components))));
  }

  /** Read the three manifests. */
  method ReadManifests(fs: FileSystem, ghost snapshot: Path, inputs: Inputs, homes: seq<Home>) returns (ok: bool)
    requires AllHoused(inputs.registry, homes) && AllIndexed(inputs.registry, RegistriesOf(homes)) && AllDirs(inputs.components)
    requires InPlace(fs.nodes, snapshot, inputs, homes)
    modifies fs`calls
    ensures ok ==> Acceptable(RegistryTree(inputs.registry, RegistriesOf(homes), homes)) && Acceptable(ComponentsTree(inputs.components))
    ensures old(fs.Quiet()) ==>
              fs.Quiet() && (ok <==> Acceptable(RegistryTree(inputs.registry, RegistriesOf(homes), homes)) && Acceptable(ComponentsTree(inputs.components)))
  {
    hide Rendered, Holds, Acceptable, RegistryTree, ComponentsTree, GitTree, RegistryAt, GitAt, ToolchainAt;
    GitAcceptable();
    var used := UsedRegistries(homes);
    ok := ReadManifest(fs, RegistryTree(inputs.registry, used, homes), RegistryAt(snapshot));
    if !ok { return; }
    ok := ReadManifest(fs, GitTree(), GitAt(snapshot));
    if !ok { return; }
    ok := ReadManifest(fs, ComponentsTree(inputs.components), ToolchainAt(snapshot));
  }

  /** The part of admission that is rolled back: seal the inputs, make the target directory, read the manifests. */
  method AdmitInputs(h: Hash, fs: FileSystem, snapshot: Path, targets: Path, target: Path, inputs: Inputs) returns (ok: bool)
    requires WellFormed(fs.nodes) && Laid(snapshot, target, targets) && InputsListed(inputs)
    requires Untouched(fs.nodes, snapshot, RegistryAt(snapshot)) && Untouched(fs.nodes, snapshot, GitAt(snapshot))
    requires Untouched(fs.nodes, snapshot, ToolchainAt(snapshot))
    modifies fs`nodes, fs`calls
    ensures WellFormed(fs.nodes) && SameElsewhere(old(fs.nodes), fs.nodes, snapshot, target, targets)
    ensures AllClear(old(fs.nodes), [target, snapshot]) ==> AllClear(fs.nodes, [target, snapshot])
    ensures ok ==> Admissible(h, inputs, ToolchainAt(snapshot)) && TargetReady(old(fs.nodes), targets, target)
    ensures ok ==> snapshot in fs.nodes && fs.nodes[snapshot].DirNode? && target in fs.nodes && fs.nodes[target].DirNode?
    ensures old(fs.Quiet()) ==>
              fs.Quiet() && (ok <==> Admissible(h, inputs, ToolchainAt(snapshot)) && TargetReady(old(fs.nodes), targets, target))
  {
    hide WellFormed, SameElsewhere, SameOutside, Under, AllClear, Laid, InputsListed, Sealable, AllHoused, AllIndexed, RegistriesOf, AllDirs,
         ToolchainSealable, Acceptable, RegistryTree, ComponentsTree, TargetReady, Readable, InPlace, RegistryAt, GitAt, ToolchainAt, Admissible;
    ghost var n0 := fs.nodes;
    UntouchedRoot(n0, snapshot, RegistryAt(snapshot));
    var homes;
    ok, homes := SealInputs(h, fs, snapshot, targets, target, inputs);
    ghost var n1 := fs.nodes;
    OutsideIsElsewhere(n0, n1, snapshot, target, targets);
    AdmissibleMeans(h, inputs, ToolchainAt(snapshot), homes);
    if !ok { return; }
    ReadyElsewhere(n0, n1, snapshot, target, targets);
    ok := MakeTarget(fs, snapshot, targets, target);
    ElsewhereThen(n0, n1, fs.nodes, snapshot, target, targets);
    if !ok { return; }
    PlaceKept(n1, fs.nodes, snapshot, inputs, homes);
    ok := ReadManifests(fs, snapshot, inputs, homes);
  }

  lemma UntouchedRoot(nodes: Nodes, snapshot: Path, p: Path)
    requires Untouched(nodes, snapshot, p)
    ensures snapshot in nodes && nodes[snapshot].DirNode?
  {}

  /** One plan is as good as any: there is at most one. */
  lemma AdmissibleMeans(h: Hash, inputs: Inputs, toolchain: Path, homes: seq<Home>)
    ensures Admissible(h, inputs, toolchain) ==>
              ToolchainSealable(inputs.components, toolchain) && exists plan :: Sealable(h, inputs.rows, inputs.registry, plan)
    ensures Sealable(h, inputs.rows, inputs.registry, homes) && ToolchainSealable(inputs.components, toolchain)
            && AllHoused(inputs.registry, homes) && AllIndexed(inputs.registry, RegistriesOf(homes)) && AllDirs(inputs.components) ==>
              (Admissible(h, inputs, toolchain)
               <==> Acceptable(RegistryTree(inputs.registry, RegistriesOf(homes), homes)) && Acceptable(ComponentsTree(inputs.components)))
  {
    hide Sealable, ToolchainSealable, Acceptable, RegistryTree, ComponentsTree;
    if Admissible(h, inputs, toolchain) {
      var plan :| Readable(h, inputs.rows, inputs.registry, plan);
      if Sealable(h, inputs.rows, inputs.registry, homes) { PlanUnique(h, inputs.rows, inputs.registry, plan, homes); }
    }
    assert Readable(h, inputs.rows, inputs.registry, homes) ==> exists plan :: Readable(h, inputs.rows, inputs.registry, plan);
  }

  lemma PlaceKept(was: Nodes, now: Nodes, snapshot: Path, inputs: Inputs, homes: seq<Home>)
    requires AllHoused(inputs.registry, homes) && AllIndexed(inputs.registry, RegistriesOf(homes)) && AllDirs(inputs.components)
    requires InPlace(was, snapshot, inputs, homes) && forall p :: p in was ==> p in now && now[p] == was[p]
    ensures InPlace(now, snapshot, inputs, homes)
  {
    hide Rendered;
  }

  lemma OutsideNone(nodes: Nodes, root: Path)
    ensures SameOutside(nodes, nodes, root)
  {}

  lemma InputsCreatable(nodes: Nodes, snapshot: Path)
    ensures Untouched(nodes, snapshot, RegistryAt(snapshot)) ==> CanCreate(nodes, RegistryAt(snapshot)) && snapshot in nodes
  {
    if Untouched(nodes, snapshot, RegistryAt(snapshot)) { UntouchedCreatable(nodes, snapshot, Codes("registry")); }
  }

  lemma UntouchedGit(nodes: Nodes, snapshot: Path)
    ensures Untouched(nodes, snapshot, GitAt(snapshot)) ==> CanCreate(nodes, GitAt(snapshot))
  {
    if Untouched(nodes, snapshot, GitAt(snapshot)) { UntouchedCreatable(nodes, snapshot, Codes("git")); }
  }

  lemma UntouchedToolchain(nodes: Nodes, snapshot: Path)
    ensures Untouched(nodes, snapshot, ToolchainAt(snapshot)) ==> CanCreate(nodes, ToolchainAt(snapshot))
  {
    if Untouched(nodes, snapshot, ToolchainAt(snapshot)) { UntouchedCreatable(nodes, snapshot, Codes("toolchain")); }
  }

  lemma RegistrySealedTree(h: Hash, rows: seq<LockRow>, source: Registry, root: Path, before: Nodes, after: Nodes, homes: seq<Home>)
    requires SealedAt(h, rows, source, root, before, after, homes)
    ensures Sealable(h, rows, source, homes) && AllHoused(source, homes) && AllIndexed(source, RegistriesOf(homes))
    ensures Readable(h, rows, source, homes) <==> Acceptable(RegistryTree(source, RegistriesOf(homes), homes))
    ensures Holds(after, Rendered(root, Folder(RegistryTree(source, RegistriesOf(homes), homes))))
  {
    SealedIsTree(root, source, RegistriesOf(homes), homes);
    HoldsAdded(before, SealedNodes(root, source, RegistriesOf(homes), homes));
    hide SealedNodes, Rendered, RegistryTree, Acceptable, RegistriesOf, Holds, HomesFor, Listable, PackagesOf;
  }

  lemma SealedInside(was: Nodes, now: Nodes, snapshot: Path, done: Path, other: Path)
    requires SameOutside(was, now, done) && Under(snapshot, done) && done != snapshot && !Under(done, other) && !Under(other, done)
    ensures Untouched(was, snapshot, other) ==> Untouched(now, snapshot, other)
  {
    ProperlyInside(snapshot, done);
    NextInput(was, now, snapshot, done, other, map[]);
  }

  lemma KeepsTree(was: Nodes, now: Nodes, snapshot: Path, done: Path, other: Path, n: Node)
    requires SameOutside(was, now, done) && Under(snapshot, done) && done != snapshot && !Under(done, other) && !Under(other, done)
    requires Holds(was, Rendered(other, n))
    ensures Holds(now, Rendered(other, n))
  {
    ProperlyInside(snapshot, done);
    RenderedAllUnder(other, n);
    hide Rendered;
    NextInput(was, now, snapshot, done, other, Rendered(other, n));
  }

  lemma ToolchainDirs(components: seq<Component>, root: Path)
    requires ToolchainSealable(components, root)
    ensures AllDirs(components)
  {}

  /** Sealing inside the snapshot root changes nothing about the target. */
  lemma ReadyElsewhere(n0: Nodes, now: Nodes, snapshot: Path, target: Path, targets: Path)
    requires Laid(snapshot, target, targets) && SameOutside(n0, now, snapshot)
    ensures TargetReady(n0, targets, target) <==> TargetReady(now, targets, target)
  {
    if targets != [] { OutsideTargets(snapshot, targets); }
  }

  lemma OutsideTargets(snapshot: Path, targets: Path)
    requires targets != [] && !Under(snapshot, targets)
    ensures !Under(snapshot, Parent(targets))
  {
    assert |snapshot| <= |Parent(targets)| ==> targets[..|snapshot|] == Parent(targets)[..|snapshot|];
  }

  /** One step inside the snapshot root, after others. */
  lemma InsideStep(n0: Nodes, was: Nodes, now: Nodes, snapshot: Path, target: Path, targets: Path, inner: Path)
    requires Laid(snapshot, target, targets) && Under(snapshot, inner) && inner != snapshot && SameOutside(was, now, inner)
    requires NoSpecialUnder(was, inner) ==> NoSpecialUnder(now, inner)
    requires snapshot in was && SameElsewhere(n0, was, snapshot, target, targets)
    ensures SameElsewhere(n0, now, snapshot, target, targets)
    ensures SameOutside(n0, was, snapshot) ==> SameOutside(n0, now, snapshot)
    ensures snapshot in now && now[snapshot] == was[snapshot] && (target in now <==> target in was)
    ensures AllClear(was, [target, snapshot]) ==> AllClear(now, [target, snapshot])
  {
    OutsideWider(was, now, snapshot, inner);
    OutsideIsElsewhere(was, now, snapshot, target, targets);
    ElsewhereThen(n0, was, now, snapshot, target, targets);
    if SameOutside(n0, was, snapshot) { OutsideThen(n0, was, now, snapshot); }
    if AllClear(was, [target, snapshot]) { ClearAfterInside(was, now, snapshot, target, targets, inner); }
    ProperlyInside(snapshot, inner);
  }

  /** `create_dir_all` on the directory of targets, whose parent exists, then a new directory in it. */
  method MakeTarget(fs: FileSystem, snapshot: Path, targets: Path, target: Path) returns (ok: bool)
    requires WellFormed(fs.nodes) && Laid(snapshot, target, targets) && snapshot in fs.nodes
    modifies fs`nodes, fs`calls
    ensures WellFormed(fs.nodes) && SameElsewhere(old(fs.nodes), fs.nodes, snapshot, target, targets)
    ensures snapshot in fs.nodes && fs.nodes[snapshot] == old(fs.nodes)[snapshot]
    ensures AllClear(old(fs.nodes), [target, snapshot]) ==> AllClear(fs.nodes, [target, snapshot])
    ensures forall p :: p in old(fs.nodes) ==> p in fs.nodes && fs.nodes[p] == old(fs.nodes)[p]
    ensures ok ==> TargetReady(old(fs.nodes), targets, target) && target in fs.nodes && fs.nodes[target].DirNode?
    ensures old(fs.Quiet()) ==> fs.Quiet() && (ok <==> TargetReady(old(fs.nodes), targets, target))
  {
    hide WellFormed, SameElsewhere, Under, AllClear, CanCreate, TargetReady;
    ghost var n0 := fs.nodes;
    ElsewhereNone(n0, snapshot, target, targets);
    ReadyMeans(n0, snapshot, targets, target);
    Creatable(n0, targets);
    if targets !in fs.nodes {
      DirAdded(n0, targets, snapshot, target, targets);
      var made := fs.CreateDir(targets);
      if made.Failed? { return false; }
    } else if !fs.nodes[targets].DirNode? {
      return false;
    }
    ghost var n1 := fs.nodes;
    DirAdded(n1, target, snapshot, target, targets);
    Creatable(n1, target);
    var made := fs.CreateDir(target);
    if made.Done? { ElsewhereThen(n0, n1, fs.nodes, snapshot, target, targets); }
    return made.Done?;
  }

  lemma ReadyMeans(nodes: Nodes, snapshot: Path, targets: Path, target: Path)
    requires Laid(snapshot, target, targets) && WellFormed(nodes)
    ensures TargetReady(nodes, targets, target)
            <==> if targets in nodes then nodes[targets].DirNode? && CanCreate(nodes, target)
                 else CanCreate(nodes, targets) && CanCreate(nodes[targets := DirNode(NEW_DIR)], target)
  {
    NewIsWritable();
    assert Parent(target) == targets && target != targets;
  }

  /** A new directory at the target, or at the one that holds it. */
  lemma DirAdded(nodes: Nodes, p: Path, snapshot: Path, target: Path, targets: Path)
    requires WellFormed(nodes) && Laid(snapshot, target, targets) && p in {target, targets} && snapshot in nodes
    ensures var now := nodes[p := DirNode(NEW_DIR)];
            CanCreate(nodes, p) ==>
              && SameElsewhere(nodes, now, snapshot, target, targets)
              && snapshot in now && now[snapshot] == nodes[snapshot]
              && (AllClear(nodes, [target, snapshot]) ==> AllClear(now, [target, snapshot]))
              && (target in now <==> target in nodes || p == target)
  {
    assert Under(target, target);
    CreatedElsewhere(nodes, p, DirNode(NEW_DIR), snapshot, target, targets);
    if CanCreate(nodes, p) {
      NewIsWritable();
      if AllClear(nodes, [target, snapshot]) { StillClearAfterNew(nodes, p, snapshot, target, targets); }
    }
  }

  lemma StillClearAfterNew(nodes: Nodes, p: Path, snapshot: Path, target: Path, targets: Path)
    requires WellFormed(nodes) && Laid(snapshot, target, targets) && p in {target, targets} && snapshot in nodes
    requires CanCreate(nodes, p) && AllClear(nodes, [target, snapshot])
    ensures AllClear(nodes[p := DirNode(NEW_DIR)], [target, snapshot])
  {
    var now := nodes[p := DirNode(NEW_DIR)];
    assert CanClear(nodes, [target, snapshot][0]) && CanClear(nodes, [target, snapshot][1]);
    assert Parent(target) == targets;
    NewIsWritable();
    assert CanClear(now, target) && CanClear(now, snapshot);
  }

  /**
    Admission of sealed inputs: create the snapshot root, seal the registry, an empty git cache
    and the toolchain into it, then make a fresh target directory.  A failure after the root
    exists removes target and root again; undisturbed, that clean-up succeeds whenever nothing
    that was at the target before stands in its way, and admission succeeds exactly when the root
    and the target can be made, the inputs can be sealed, and the sealed trees can be read back.
   */
  method CargoCacheAdmission(h: Hash, fs: FileSystem, snapshot: Path, targets: Path, target: Path, inputs: Inputs) returns (r: Admission)
    requires WellFormed(fs.nodes) && Laid(snapshot, target, targets) && InputsListed(inputs)
    modifies fs`nodes, fs`calls
    ensures WellFormed(fs.nodes) && SameElsewhere(old(fs.nodes), fs.nodes, snapshot, target, targets)
    ensures r.Completed? ==> && snapshot !in old(fs.nodes) && TargetReady(old(fs.nodes), targets, target)
                             && Admissible(h, inputs, ToolchainAt(snapshot))
                             && snapshot in fs.nodes && target in fs.nodes && fs.nodes[snapshot].DirNode? && fs.nodes[target].DirNode?
    ensures r.NotStarted? ==> fs.nodes == old(fs.nodes)
    ensures r.RolledBack? ==> Absent(fs.nodes, snapshot) && Absent(fs.nodes, target)
    ensures old(fs.Quiet()) && CanClear(old(fs.nodes), target) ==> !r.CleanupFailed?
    ensures old(fs.Quiet()) ==>
              (r.Completed? <==> CanCreate(old(fs.nodes), snapshot) && TargetReady(old(fs.nodes), targets, target)
                                 && Admissible(h, inputs, ToolchainAt(snapshot)))
  {
    hide SameElsewhere, RemovedUnderAny, WellFormed, Under, Absent, AllClear, CanClear, InputsListed, Laid, CanCreate, Admissible, TargetReady, Untouched;
    ghost var n0 := fs.nodes;
    ElsewhereNone(n0, snapshot, target, targets);
    RootAdded(n0, snapshot, target, targets);
    var root := fs.CreateDir(snapshot);
    if root.Failed? { return NotStarted; }
    ghost var n1 := fs.nodes;
    var sealed := AdmitInputs(h, fs, snapshot, targets, target, inputs);
    ElsewhereThen(n0, n1, fs.nodes, snapshot, target, targets);
    if sealed { return Completed; }
    ghost var dirty := fs.nodes;
    var cleanup := new CustodyCleanup([target, snapshot]);
    var cleaned := cleanup.Cleanup(fs);
    CleanedElsewhere(dirty, fs.nodes, snapshot, target, targets);
    ElsewhereThen(n0, dirty, fs.nodes, snapshot, target, targets);
    if cleaned.Done? {
      BothAbsent(fs.nodes, target, snapshot);
      return RolledBack;
    }
    ghost var left := fs.nodes;
    cleanup.Drop(fs);
    CleanedElsewhere(left, fs.nodes, snapshot, target, targets);
    ElsewhereThen(n0, left, fs.nodes, snapshot, target, targets);
    return Admission.CleanupFailed;
  }

  lemma BothAbsent(nodes: Nodes, target: Path, snapshot: Path)
    requires AllAbsent(nodes, [target, snapshot])
    ensures Absent(nodes, target) && Absent(nodes, snapshot)
  {
    assert [target, snapshot][0] == target && [target, snapshot][1] == snapshot;
  }

  lemma RootAdded(nodes: Nodes, snapshot: Path, target: Path, targets: Path)
    requires WellFormed(nodes) && Laid(snapshot, target, targets)
    ensures var now := nodes[snapshot := DirNode(NEW_DIR)];
            CanCreate(nodes, snapshot) ==>
              && snapshot !in nodes && snapshot in now && now[snapshot].DirNode?
              && SameElsewhere(nodes, now, snapshot, target, targets)
              && (TargetReady(now, targets, target) <==> TargetReady(nodes, targets, target))
              && Untouched(now, snapshot, RegistryAt(snapshot)) && Untouched(now, snapshot, GitAt(snapshot)) && Untouched(now, snapshot, ToolchainAt(snapshot))
              && (CanClear(nodes, target) ==> AllClear(now, [target, snapshot]))
  {
    var now := nodes[snapshot := DirNode(NEW_DIR)];
    assert Under(snapshot, snapshot) && Under(target, target);
    CreatedElsewhere(nodes, snapshot, DirNode(NEW_DIR), snapshot, target, targets);
    if CanCreate(nodes, snapshot) {
      MissingIsAbsent(nodes, snapshot);
      RootReady(nodes, snapshot, target, targets);
      if CanClear(nodes, target) { RootClear(nodes, snapshot, target, targets); }
    }
  }

  lemma RootReady(nodes: Nodes, snapshot: Path, target: Path, targets: Path)
    requires WellFormed(nodes) && Laid(snapshot, target, targets) && snapshot !in nodes
    ensures var now := nodes[snapshot := DirNode(NEW_DIR)];
            && (TargetReady(now, targets, target) <==> TargetReady(nodes, targets, target))
            && Untouched(now, snapshot, RegistryAt(snapshot)) && Untouched(now, snapshot, GitAt(snapshot)) && Untouched(now, snapshot, ToolchainAt(snapshot))
  {
    var now := nodes[snapshot := DirNode(NEW_DIR)];
    assert Under(snapshot, snapshot);
    TopFree(nodes, snapshot);
    assert SameOutside(nodes, now, snapshot);
    ReadyElsewhere(nodes, now, snapshot, target, targets);
  }

  lemma RootClear(nodes: Nodes, snapshot: Path, target: Path, targets: Path)
    requires WellFormed(nodes) && Laid(snapshot, target, targets) && CanCreate(nodes, snapshot) && CanClear(nodes, target)
    ensures AllClear(nodes[snapshot := DirNode(NEW_DIR)], [target, snapshot])
  {
    var now := nodes[snapshot := DirNode(NEW_DIR)];
    MissingIsAbsent(nodes, snapshot);
    assert !Under(snapshot, Parent(snapshot));
    hide Writable;
    assert CanClear(now, target);
    assert CanClear(now, snapshot);
  }
}
