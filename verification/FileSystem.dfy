/**
  A file system as a map from every existing path to what is there.  A fault schedule decides
  which system calls fail; a directory must be writable for names in it to come and go.
 */
module FileSystems {
  import opened SnapshotTree

  type Path = seq<Bytes>

  datatype Kind = FileNode(content: Bytes, mode: bv16) | DirNode(mode: bv16) | LinkNode(target: Bytes) | SpecialNode

  type Nodes = map<Path, Kind>

  datatype Outcome = Done | Failed

  const NEW_DIR: bv16 := 0x1ED
  const NEW_FILE: bv16 := 0x1A4
  const OWNER_ONLY: bv16 := 0x1C0

  /** The owner may add and remove names. */
  predicate Writable(mode: bv16) { mode & 0xC0 == 0xC0 }

  lemma NewIsWritable()
    ensures Writable(NEW_DIR) && Writable(OWNER_ONLY)
  {}

  predicate Under(root: Path, p: Path) { |root| <= |p| && p[..|root|] == root }

  function Parent(p: Path): Path
    requires p != []
  {
    p[..|p| - 1]
  }

  /** Every path but the root lies in a directory. */
  ghost predicate WellFormed(nodes: Nodes) {
    forall p :: p in nodes && p != [] ==> Parent(p) in nodes && nodes[Parent(p)].DirNode?
  }

  predicate Absent(nodes: Nodes, root: Path) { forall p :: p in nodes ==> !Under(root, p) }

  /** The directory that would hold a path is there and writable. */
  predicate ParentOpen(nodes: Nodes, p: Path) {
    p == [] || (Parent(p) in nodes && nodes[Parent(p)].DirNode? && Writable(nodes[Parent(p)].mode))
  }

  predicate CanCreate(nodes: Nodes, p: Path) { p !in nodes && ParentOpen(nodes, p) }

  ghost predicate NoSpecialUnder(nodes: Nodes, root: Path) {
    forall p :: p in nodes && Under(root, p) ==> nodes[p] != SpecialNode
  }

  /** Nothing outside a path differs. */
  ghost predicate SameOutside(before: Nodes, after: Nodes, root: Path) {
    forall p :: !Under(root, p) ==> (p in after <==> p in before) && (p in before ==> after[p] == before[p])
  }

  function ChildrenOf(nodes: Nodes, root: Path): set<Path> {
    set p | p in nodes && |p| == |root| + 1 && Under(root, p)
  }

  ghost function Subtree(nodes: Nodes, root: Path): set<Path> { set p | p in nodes && Under(root, p) }

  // --------------------------------------------------------------- paths and subtrees

  lemma {:induction false} AncestorsExist(nodes: Nodes, p: Path, n: nat)
    requires WellFormed(nodes) && p in nodes && n <= |p|
    ensures p[..n] in nodes && (n < |p| ==> nodes[p[..n]].DirNode?)
    decreases |p| - n
  {
    if n < |p| {
      AncestorsExist(nodes, p, n + 1);
      assert Parent(p[..n + 1]) == p[..n];
    } else {
      assert p[..n] == p;
    }
  }

  lemma UnderTransitive(a: Path, b: Path, c: Path)
    requires Under(a, b) && Under(b, c)
    ensures Under(a, c)
  {
    assert c[..|b|][..|a|] == c[..|a|];
  }

  /** Siblings have disjoint subtrees. */
  lemma SiblingsApart(root: Path, a: Path, b: Path, p: Path)
    requires |a| == |root| + 1 == |b| && a != b && Under(a, p)
    ensures !Under(b, p)
  {}

  lemma MissingIsAbsent(nodes: Nodes, root: Path)
    requires WellFormed(nodes) && root !in nodes
    ensures Absent(nodes, root) && NoSpecialUnder(nodes, root)
  {
    forall p | p in nodes ensures !Under(root, p) {
      if Under(root, p) { AncestorsExist(nodes, p, |root|); }
    }
  }

  /** A path properly under a directory lies under one of its children. */
  lemma ChildAbove(nodes: Nodes, root: Path, p: Path)
    requires WellFormed(nodes) && p in nodes && Under(root, p) && p != root
    ensures p[..|root| + 1] in ChildrenOf(nodes, root) && Under(p[..|root| + 1], p)
  {
    assert p[..|p|] == p;
    AncestorsExist(nodes, p, |root| + 1);
    assert p[..|root| + 1][..|root|] == p[..|root|];
  }

  /** A new name under a directory. */
  lemma Created(nodes: Nodes, p: Path, kind: Kind)
    requires WellFormed(nodes) && CanCreate(nodes, p)
    ensures WellFormed(nodes[p := kind])
  {}

  lemma OutsideThen(a: Nodes, b: Nodes, c: Nodes, root: Path)
    requires SameOutside(a, b, root) && SameOutside(b, c, root)
    ensures SameOutside(a, c, root)
  {
    hide Under;
  }

  lemma OutsideWider(a: Nodes, b: Nodes, root: Path, inner: Path)
    requires Under(root, inner) && SameOutside(a, b, inner)
    ensures SameOutside(a, b, root)
  {
    forall p | !Under(root, p) ensures !Under(inner, p) {
      if Under(inner, p) { UnderTransitive(root, inner, p); }
    }
  }

  /** What lies outside a removed or written path keeps its parent as it was. */
  lemma OutsideParent(a: Nodes, b: Nodes, root: Path)
    requires SameOutside(a, b, root)
    ensures ParentOpen(a, root) <==> ParentOpen(b, root)
  {
    if root != [] { assert !Under(root, Parent(root)); }
  }

  // -------------------------------------------------------------------------- removal

  /** `after` is `before` with nodes removed, all under `root`; directories left there may have been opened. */
  ghost predicate OnlyRemovedUnder(before: Nodes, after: Nodes, root: Path) {
    && SameOutside(before, after, root)
    && forall p :: p in after ==> p in before && (after[p] == before[p] || (before[p].DirNode? && after[p] == DirNode(OWNER_ONLY)))
  }

  lemma NothingRemoved(nodes: Nodes, root: Path)
    ensures OnlyRemovedUnder(nodes, nodes, root)
  {}

  lemma Opened(nodes: Nodes, root: Path)
    requires WellFormed(nodes) && root in nodes && nodes[root].DirNode?
    ensures var unlocked := nodes[root := DirNode(OWNER_ONLY)];
            && WellFormed(unlocked) && OnlyRemovedUnder(nodes, unlocked, root) && ChildrenOf(unlocked, root) == ChildrenOf(nodes, root)
            && (NoSpecialUnder(unlocked, root) <==> NoSpecialUnder(nodes, root))
            && Subtree(unlocked, root) == Subtree(nodes, root)
  {
    assert Under(root, root);
  }

  lemma ChildShrinks(now: Nodes, before: Nodes, root: Path, child: Path)
    requires child in ChildrenOf(before, root) && root in before
    requires forall p :: p in now ==> p in before
    ensures Subtree(now, child) < Subtree(before, root)
  {
    forall p | p in Subtree(now, child) ensures p in Subtree(before, root) {
      UnderTransitive(root, child, p);
    }
    assert root in Subtree(before, root) && root !in Subtree(now, child);
  }

  /** Removing a child's subtree stays within the parent's and touches no sibling. */
  lemma ChildRemoved(before: Nodes, was: Nodes, now: Nodes, root: Path, child: Path)
    requires OnlyRemovedUnder(before, was, root) && OnlyRemovedUnder(was, now, child)
    requires child in ChildrenOf(before, root)
    ensures OnlyRemovedUnder(before, now, root)
    ensures root in was ==> root in now && now[root] == was[root]
    ensures forall p, q :: p in ChildrenOf(before, root) && p != child && q in was && Under(p, q) ==> q in now && now[q] == was[q]
    ensures forall p :: Absent(was, p) ==> Absent(now, p)
  {
    OutsideWider(was, now, root, child);
    OutsideThen(before, was, now, root);
    forall p, q | p in ChildrenOf(before, root) && p != child && q in was && Under(p, q) ensures q in now && now[q] == was[q] {
      SiblingsApart(root, p, child, q);
    }
  }

  lemma ChildSpecials(before: Nodes, was: Nodes, root: Path, child: Path)
    requires child in ChildrenOf(before, root)
    requires forall p :: p in was ==> p in before
    requires forall q :: q in before && Under(child, q) ==> q in was && was[q] == before[q]
    ensures NoSpecialUnder(was, child) <==> NoSpecialUnder(before, child)
    ensures NoSpecialUnder(before, root) ==> NoSpecialUnder(before, child)
  {
    forall p | p in before && Under(child, p) ensures Under(root, p) { UnderTransitive(root, child, p); }
  }

  lemma AllChildrenGone(before: Nodes, now: Nodes, root: Path)
    requires WellFormed(before) && root in before && before[root].DirNode?
    requires forall p :: p in now ==> p in before
    requires forall p :: p in ChildrenOf(before, root) ==> Absent(now, p) && NoSpecialUnder(before, p)
    ensures Subtree(now, root) <= {root} && ChildrenOf(now, root) == {} && NoSpecialUnder(before, root)
  {
    forall p | p in before && Under(root, p) && p != root ensures p !in now && before[p] != SpecialNode {
      ChildAbove(before, root, p);
    }
  }

  lemma RemovedIsThere(before: Nodes, now: Nodes, root: Path)
    requires OnlyRemovedUnder(before, now, root)
    ensures forall p :: p in now ==> p in before
  {}

  lemma RemovedTwice(a: Nodes, b: Nodes, c: Nodes, root: Path)
    requires OnlyRemovedUnder(a, b, root) && OnlyRemovedUnder(b, c, root)
    ensures OnlyRemovedUnder(a, c, root)
  {
    OutsideThen(a, b, c, root);
  }

  /** Nothing lies below a file or a link. */
  lemma LeafAlone(nodes: Nodes, root: Path)
    requires WellFormed(nodes) && root in nodes && (nodes[root].LinkNode? || nodes[root].FileNode?)
    ensures ChildrenOf(nodes, root) == {} && Subtree(nodes, root) <= {root} && NoSpecialUnder(nodes, root)
  {
    forall p | p in nodes && Under(root, p) ensures p == root {
      if p != root { ChildAbove(nodes, root, p); AncestorsExist(nodes, p, |root|); }
    }
  }

  lemma SpecialHere(nodes: Nodes, root: Path)
    requires root in nodes && nodes[root].SpecialNode?
    ensures !NoSpecialUnder(nodes, root)
  {
    assert Under(root, root);
  }

  /** Removing a root with nothing left below it. */
  lemma RootRemoved(before: Nodes, emptied: Nodes, root: Path)
    requires OnlyRemovedUnder(before, emptied, root) && Subtree(emptied, root) <= {root}
    ensures OnlyRemovedUnder(before, emptied - {root}, root) && Absent(emptied - {root}, root)
  {
    assert Under(root, root);
    assert forall p :: p in emptied && Under(root, p) ==> p in Subtree(emptied, root);
  }

  class FileSystem {
    var nodes: Nodes
    var calls: nat
    var faults: nat -> bool

    constructor (nodes: Nodes, faults: nat -> bool)
      ensures this.nodes == nodes && this.faults == faults
    {
      this.nodes, this.calls, this.faults := nodes, 0, faults;
    }

    /** No call from now on fails for reasons of its own. */
    ghost predicate Quiet()
      reads this
    {
      forall n :: calls <= n ==> !faults(n)
    }

    method Call() returns (ok: bool)
      modifies this`calls
      ensures old(Quiet()) ==> Quiet() && ok
    {
      ok := !faults(calls);
      calls := calls + 1;
    }

    /** `remove_file`, and `remove_dir`, which refuses a directory that is not empty. */
    method Unlink(p: Path) returns (r: Outcome)
      requires p in nodes && WellFormed(nodes)
      modifies this`nodes, this`calls
      ensures r.Done? ==> nodes == old(nodes) - {p} && WellFormed(nodes)
      ensures r.Failed? ==> nodes == old(nodes)
      ensures old(Quiet()) ==> Quiet() && (r.Done? <==> ChildrenOf(old(nodes), p) == {} && ParentOpen(old(nodes), p))
    {
      var ok := Call();
      if !ok || ChildrenOf(nodes, p) != {} || !ParentOpen(nodes, p) {
        return Failed;
      }
      forall q | q in nodes && q != [] ensures Parent(q) != p {
        assert Parent(q) == p ==> q in ChildrenOf(nodes, p);
      }
      nodes := nodes - {p};
      return Done;
    }

    /** `set_permissions`. */
    method Chmod(p: Path, mode: bv16) returns (r: Outcome)
      requires p in nodes && (nodes[p].DirNode? || nodes[p].FileNode?) && WellFormed(nodes)
      modifies this`nodes, this`calls
      ensures WellFormed(nodes)
      ensures r.Done? ==> nodes == old(nodes)[p := old(nodes)[p].(mode := mode)]
      ensures r.Failed? ==> nodes == old(nodes)
      ensures old(Quiet()) ==> Quiet() && r.Done?
    {
      var ok := Call();
      if !ok { return Failed; }
      nodes := nodes[p := nodes[p].(mode := mode)];
      return Done;
    }

    /** `create_dir`. */
    method CreateDir(p: Path) returns (r: Outcome)
      requires WellFormed(nodes)
      modifies this`nodes, this`calls
      ensures WellFormed(nodes)
      ensures r.Done? ==> CanCreate(old(nodes), p) && nodes == old(nodes)[p := DirNode(NEW_DIR)]
      ensures r.Failed? ==> nodes == old(nodes)
      ensures old(Quiet()) ==> Quiet() && (r.Done? <==> CanCreate(old(nodes), p))
    {
      var ok := Call();
      if !ok || !CanCreate(nodes, p) { return Failed; }
      Created(nodes, p, DirNode(NEW_DIR));
      nodes := nodes[p := DirNode(NEW_DIR)];
      return Done;
    }

    /** `create_new` and the copy into it; a failing copy leaves a file that is not whole. */
    method WriteNew(p: Path, content: Bytes) returns (r: Outcome)
      requires WellFormed(nodes)
      modifies this`nodes, this`calls
      ensures WellFormed(nodes)
      ensures r.Done? ==> CanCreate(old(nodes), p) && nodes == old(nodes)[p := FileNode(content, NEW_FILE)]
      ensures r.Failed? ==> nodes == old(nodes) || (CanCreate(old(nodes), p) && nodes == old(nodes)[p := FileNode([], NEW_FILE)])
      ensures old(Quiet()) ==> Quiet() && (r.Done? <==> CanCreate(old(nodes), p))
    {
      hide WellFormed, CanCreate;
      ghost var n0 := nodes;
      var ok := Call();
      if !ok || !CanCreate(nodes, p) { return Failed; }
      Created(n0, p, FileNode([], NEW_FILE));
      Created(n0, p, FileNode(content, NEW_FILE));
      nodes := nodes[p := FileNode([], NEW_FILE)];
      ok := Call();
      if !ok { return Failed; }
      nodes := nodes[p := FileNode(content, NEW_FILE)];
      assert nodes == n0[p := FileNode(content, NEW_FILE)];
      return Done;
    }

    /** Remove a path and all below it, links as links; a special file is refused. */
    method RemoveCustodyTree(root: Path) returns (r: Outcome)
      requires WellFormed(nodes)
      modifies this`nodes, this`calls
      ensures WellFormed(nodes) && OnlyRemovedUnder(old(nodes), nodes, root)
      ensures r.Done? ==> Absent(nodes, root) && NoSpecialUnder(old(nodes), root)
      ensures old(Quiet()) ==> Quiet()
      ensures old(Quiet()) && NoSpecialUnder(old(nodes), root) && (root !in old(nodes) || ParentOpen(old(nodes), root)) ==> r.Done?
      decreases Subtree(nodes, root)
    {
      hide WellFormed, Under, Absent, NoSpecialUnder, OnlyRemovedUnder, ParentOpen, Subtree, Writable;
      ghost var n0 := nodes;
      NothingRemoved(n0, root);
      var ok := Call();
      if !ok { return Failed; }
      if root !in nodes {
        MissingIsAbsent(nodes, root);
        return Done;
      }
      if nodes[root].LinkNode? || nodes[root].FileNode? {
        LeafAlone(nodes, root);
        r := Unlink(root);
        if r.Done? { RootRemoved(n0, n0, root); }
        return;
      }
      if nodes[root].SpecialNode? {
        SpecialHere(nodes, root);
        return Failed;
      }
      Opened(n0, root);
      var unlocked := Chmod(root, OWNER_ONLY);
      if unlocked.Failed? { return Failed; }
      ok := Call();
      if !ok { return Failed; }
      ghost var before := nodes;
      NothingRemoved(before, root);
      var todo := ChildrenOf(nodes, root);
      while todo != {}
        invariant WellFormed(nodes) && root in nodes && nodes[root] == DirNode(OWNER_ONLY)
        invariant OnlyRemovedUnder(before, nodes, root)
        invariant todo <= ChildrenOf(before, root)
        invariant forall p :: p in ChildrenOf(before, root) && p !in todo ==> Absent(nodes, p) && NoSpecialUnder(before, p)
        invariant forall p, q :: p in todo && q in before && Under(p, q) ==> q in nodes && nodes[q] == before[q]
        invariant old(Quiet()) ==> Quiet()
      {
        var child :| child in todo;
        ghost var was := nodes;
        RemovedIsThere(before, was, root);
        ChildShrinks(was, before, root, child);
        ChildSpecials(before, was, root, child);
        ChildOpen(was, root, child);
        var removed := RemoveCustodyTree(child);
        ChildRemoved(before, was, nodes, root, child);
        RemovedTwice(n0, before, nodes, root);
        if removed.Failed? {
          return Failed;
        }
        todo := todo - {child};
      }
      RemovedIsThere(before, nodes, root);
      AllChildrenGone(before, nodes, root);
      ghost var emptied := nodes;
      RemovedTwice(n0, before, emptied, root);
      RemovedParent(n0, emptied, root);
      r := Unlink(root);
      if r.Done? { RootRemoved(n0, emptied, root); }
    }
  }

  lemma ChildOpen(nodes: Nodes, root: Path, child: Path)
    requires root in nodes && nodes[root] == DirNode(OWNER_ONLY) && |child| == |root| + 1 && Under(root, child)
    ensures ParentOpen(nodes, child)
  {
    assert Parent(child) == root;
    NewIsWritable();
  }

  lemma RemovedParent(before: Nodes, after: Nodes, root: Path)
    requires OnlyRemovedUnder(before, after, root)
    ensures ParentOpen(before, root) <==> ParentOpen(after, root)
  {
    OutsideParent(before, after, root);
  }
}
