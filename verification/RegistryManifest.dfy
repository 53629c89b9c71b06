/**
  Reading a sealed registry back: what was written path by path is one directory tree, and its
  manifest can be computed exactly when that tree, walked from its own root, is acceptable.
 */
module RegistryManifest {
  import opened Texts
  import opened SnapshotTree
  import M = SnapshotManifest
  import opened FileSystems
  import opened SealedCopies
  import opened CargoRegistry
  import opened RegistrySeal

  // -------------------------------------------------------------------- the sealed tree

  function Folder(entries: seq<Entry>): Node { Dir(entries, M.SEALED_DIR) }

  function IndexEntry(source: Registry, r: string): Entry
    requires Indexed(source, r)
  {
    Entry(Utf8(Codes(r)), SealedDir(source.index[r].entries))
  }

  function ArchiveEntry(source: Registry, home: Home): Entry
    requires Housed(source, home)
  {
    Entry(Utf8(Codes(ArchiveName(home.package))), File(ArchiveOf(source, home).content, M.SealMode(ArchiveOf(source, home).mode)))
  }

  function SourceEntry(source: Registry, home: Home): Entry
    requires Housed(source, home)
  {
    Entry(Utf8(Codes(SourceName(home.package))), SealedDir(SourceOf(source, home)))
  }

  function IndexTree(source: Registry, used: seq<string>): seq<Entry>
    requires AllIndexed(source, used)
  {
    if used == [] then [] else IndexTree(source, used[..|used| - 1]) + [IndexEntry(source, used[|used| - 1])]
  }

  /** The archives, and the sources, of the packages that live in one registry. */
  function ArchivesIn(source: Registry, homes: seq<Home>, r: string): seq<Entry>
    requires AllHoused(source, homes)
  {
    if homes == [] then []
    else
      var rest, last := ArchivesIn(source, homes[..|homes| - 1], r), homes[|homes| - 1];
      if last.registry == r then rest + [ArchiveEntry(source, last)] else rest
  }

  function SourcesIn(source: Registry, homes: seq<Home>, r: string): seq<Entry>
    requires AllHoused(source, homes)
  {
    if homes == [] then []
    else
      var rest, last := SourcesIn(source, homes[..|homes| - 1], r), homes[|homes| - 1];
      if last.registry == r then rest + [SourceEntry(source, last)] else rest
  }

  function CacheEntry(source: Registry, homes: seq<Home>, r: string): Entry
    requires AllHoused(source, homes)
  {
    Entry(Utf8(Codes(r)), Folder(ArchivesIn(source, homes, r)))
  }

  function SrcEntry(source: Registry, homes: seq<Home>, r: string): Entry
    requires AllHoused(source, homes)
  {
    Entry(Utf8(Codes(r)), Folder(SourcesIn(source, homes, r)))
  }

  function CacheTree(source: Registry, used: seq<string>, homes: seq<Home>): seq<Entry>
    requires AllHoused(source, homes)
  {
    if used == [] then [] else CacheTree(source, used[..|used| - 1], homes) + [CacheEntry(source, homes, used[|used| - 1])]
  }

  function SrcTree(source: Registry, used: seq<string>, homes: seq<Home>): seq<Entry>
    requires AllHoused(source, homes)
  {
    if used == [] then [] else SrcTree(source, used[..|used| - 1], homes) + [SrcEntry(source, homes, used[|used| - 1])]
  }

  function RegistryTree(source: Registry, used: seq<string>, homes: seq<Home>): seq<Entry>
    requires AllIndexed(source, used) && AllHoused(source, homes)
  {
    [Entry(Utf8(IndexName()), Folder(IndexTree(source, used))),
     Entry(Utf8(CacheName()), Folder(CacheTree(source, used, homes))),
     Entry(Utf8(SrcName()), Folder(SrcTree(source, used, homes)))]
  }

  // -------------------------------------------------------------- it is what was written

  lemma HoldsPlus(nodes: Nodes, a: Nodes, b: Nodes)
    requires Holds(nodes, a) && Holds(nodes, b)
    ensures Holds(nodes, a + b)
  {}

  lemma {:induction false} RenderedAppend(p: Path, entries: seq<Entry>, e: Entry)
    ensures RenderedEntries(p, entries + [e]) == RenderedEntries(p, entries) + RenderedEntry(p, e)
  {
    hide RenderedEntry;
    var all := entries + [e];
    if entries == [] {
      assert all == [e] && all[1..] == [];
      assert RenderedEntries(p, all) == RenderedEntry(p, e) + RenderedEntries(p, []);
    } else {
      assert all[0] == entries[0] && all[1..] == entries[1..] + [e];
      RenderedAppend(p, entries[1..], e);
      PlusAssociative(RenderedEntry(p, entries[0]), RenderedEntries(p, entries[1..]), RenderedEntry(p, e));
    }
  }

  lemma FolderHolds(nodes: Nodes, p: Path, entries: seq<Entry>)
    requires p in nodes && nodes[p] == DirNode(M.SEALED_DIR) && Holds(nodes, RenderedEntries(p, entries))
    ensures Holds(nodes, Rendered(p, Folder(entries)))
  {
    hide RenderedEntries;
  }

  lemma {:induction false} IndexHeld(nodes: Nodes, root: Path, source: Registry, used: seq<string>)
    requires AllIndexed(source, used)
    requires forall i :: 0 <= i < |used| ==> Holds(nodes, Rendered(IndexPath(root, used[i]), SealedDir(source.index[used[i]].entries)))
    ensures Holds(nodes, RenderedEntries(root + [IndexName()], IndexTree(source, used)))
  {
    hide Rendered, RenderedEntries, Indexed, Holds;
    if used == [] {
      NothingHeld(nodes, root + [IndexName()]);
    } else {
      var init, last := used[..|used| - 1], used[|used| - 1];
      IndexHeld(nodes, root, source, init);
      RenderedAppend(root + [IndexName()], IndexTree(source, init), IndexEntry(source, last));
      assert root + [IndexName()] + [Codes(last)] == IndexPath(root, last);
      HoldsPlus(nodes, RenderedEntries(root + [IndexName()], IndexTree(source, init)), RenderedEntry(root + [IndexName()], IndexEntry(source, last)));
    }
  }

  lemma NothingHeld(nodes: Nodes, p: Path)
    ensures Holds(nodes, RenderedEntries(p, []))
  {}

  /** Nodes that hold everything one package writes. */
  ghost predicate HoldsHome(nodes: Nodes, root: Path, source: Registry, home: Home)
    requires Housed(source, home)
  {
    Holds(nodes, HomeNodes(root, source, home))
  }

  ghost predicate HoldsHomes(nodes: Nodes, root: Path, source: Registry, homes: seq<Home>)
    requires AllHoused(source, homes)
  {
    forall i :: 0 <= i < |homes| ==> HoldsHome(nodes, root, source, homes[i])
  }

  lemma HomeParts(nodes: Nodes, root: Path, source: Registry, home: Home)
    requires Housed(source, home) && HoldsHome(nodes, root, source, home)
    ensures Holds(nodes, RenderedEntry(CachePath(root, home.registry), ArchiveEntry(source, home)))
    ensures Holds(nodes, RenderedEntry(SrcPath(root, home.registry), SourceEntry(source, home)))
  {
    OwnPieces(root, source, home);
    hide HomeNodes, RenderedEntries, Housed;
  }

  lemma {:induction false} PackagesHeld(nodes: Nodes, root: Path, source: Registry, homes: seq<Home>, r: string)
    requires AllHoused(source, homes) && HoldsHomes(nodes, root, source, homes)
    ensures Holds(nodes, RenderedEntries(CachePath(root, r), ArchivesIn(source, homes, r)))
    ensures Holds(nodes, RenderedEntries(SrcPath(root, r), SourcesIn(source, homes, r)))
  {
    hide Rendered, RenderedEntries, RenderedEntry, Housed, Holds, HoldsHome, CachePath, SrcPath, ArchiveEntry, SourceEntry;
    if homes == [] {
      NothingHeld(nodes, CachePath(root, r));
      NothingHeld(nodes, SrcPath(root, r));
    } else {
      var init, last := homes[..|homes| - 1], homes[|homes| - 1];
      PackagesHeld(nodes, root, source, init, r);
      if last.registry == r {
        HomeParts(nodes, root, source, last);
        RenderedAppend(CachePath(root, r), ArchivesIn(source, init, r), ArchiveEntry(source, last));
        RenderedAppend(SrcPath(root, r), SourcesIn(source, init, r), SourceEntry(source, last));
        HoldsPlus(nodes, RenderedEntries(CachePath(root, r), ArchivesIn(source, init, r)), RenderedEntry(CachePath(root, r), ArchiveEntry(source, last)));
        HoldsPlus(nodes, RenderedEntries(SrcPath(root, r), SourcesIn(source, init, r)), RenderedEntry(SrcPath(root, r), SourceEntry(source, last)));
      }
    }
  }

  /** A sealed directory for the archives and one for the sources of every registry in use. */
  ghost predicate DirsSealed(nodes: Nodes, root: Path, used: seq<string>) {
    forall i :: 0 <= i < |used| ==>
      && CachePath(root, used[i]) in nodes && nodes[CachePath(root, used[i])] == DirNode(M.SEALED_DIR)
      && SrcPath(root, used[i]) in nodes && nodes[SrcPath(root, used[i])] == DirNode(M.SEALED_DIR)
  }

  lemma {:induction false} TreesHeld(nodes: Nodes, root: Path, source: Registry, used: seq<string>, homes: seq<Home>)
    requires AllHoused(source, homes) && HoldsHomes(nodes, root, source, homes) && DirsSealed(nodes, root, used)
    ensures Holds(nodes, RenderedEntries(root + [CacheName()], CacheTree(source, used, homes)))
    ensures Holds(nodes, RenderedEntries(root + [SrcName()], SrcTree(source, used, homes)))
  {
    hide Rendered, RenderedEntries, AllHoused, Holds, HoldsHomes, ArchivesIn, SourcesIn;
    if used == [] {
      NothingHeld(nodes, root + [CacheName()]);
      NothingHeld(nodes, root + [SrcName()]);
    } else {
      var init, last := used[..|used| - 1], used[|used| - 1];
      TreesHeld(nodes, root, source, init, homes);
      PackagesHeld(nodes, root, source, homes, last);
      FolderHolds(nodes, CachePath(root, last), ArchivesIn(source, homes, last));
      FolderHolds(nodes, SrcPath(root, last), SourcesIn(source, homes, last));
      assert root + [CacheName()] + [Codes(last)] == CachePath(root, last) && root + [SrcName()] + [Codes(last)] == SrcPath(root, last);
      var c, s := root + [CacheName()], root + [SrcName()];
      RenderedAppend(c, CacheTree(source, init, homes), CacheEntry(source, homes, last));
      RenderedAppend(s, SrcTree(source, init, homes), SrcEntry(source, homes, last));
      HoldsPlus(nodes, RenderedEntries(c, CacheTree(source, init, homes)), RenderedEntry(c, CacheEntry(source, homes, last)));
      HoldsPlus(nodes, RenderedEntries(s, SrcTree(source, init, homes)), RenderedEntry(s, SrcEntry(source, homes, last)));
    }
  }

  ghost predicate TopSealed(nodes: Nodes, root: Path) {
    forall p :: p in {root, root + [IndexName()], root + [CacheName()], root + [SrcName()]} ==> p in nodes && nodes[p] == DirNode(M.SEALED_DIR)
  }

  lemma ThreeEntries(p: Path, a: Entry, b: Entry, c: Entry)
    ensures RenderedEntries(p, [a, b, c]) == RenderedEntry(p, a) + RenderedEntry(p, b) + RenderedEntry(p, c)
  {
    hide RenderedEntry;
    assert [a, b, c] == [a, b] + [c] && [a, b] == [a] + [b] && [a] == [] + [a];
    RenderedAppend(p, [a, b], c);
    RenderedAppend(p, [a], b);
    RenderedAppend(p, [], a);
    assert RenderedEntries(p, []) == map[];
    assert map[] + RenderedEntry(p, a) == RenderedEntry(p, a);
  }

  lemma TreeHeld(nodes: Nodes, root: Path, source: Registry, used: seq<string>, homes: seq<Home>)
    requires AllIndexed(source, used) && AllHoused(source, homes)
    requires TopSealed(nodes, root) && DirsSealed(nodes, root, used) && HoldsHomes(nodes, root, source, homes)
    requires forall i :: 0 <= i < |used| ==> Holds(nodes, Rendered(IndexPath(root, used[i]), SealedDir(source.index[used[i]].entries)))
    ensures Holds(nodes, Rendered(root, Folder(RegistryTree(source, used, homes))))
  {
    IndexHeld(nodes, root, source, used);
    TreesHeld(nodes, root, source, used, homes);
    hide Rendered, RenderedEntries, Holds, HoldsHomes, IndexTree, CacheTree, SrcTree, AllIndexed, AllHoused, DirsSealed, IndexName, CacheName, SrcName;
    FolderHolds(nodes, root + [IndexName()], IndexTree(source, used));
    FolderHolds(nodes, root + [CacheName()], CacheTree(source, used, homes));
    FolderHolds(nodes, root + [SrcName()], SrcTree(source, used, homes));
    var t := RegistryTree(source, used, homes);
    ThreeEntries(root, t[0], t[1], t[2]);
    HoldsPlus(nodes, RenderedEntry(root, t[0]), RenderedEntry(root, t[1]));
    HoldsPlus(nodes, RenderedEntry(root, t[0]) + RenderedEntry(root, t[1]), RenderedEntry(root, t[2]));
    FolderHolds(nodes, root, t);
  }

  // ------------------------------------------------------------- and nothing besides it

  lemma {:induction false} InEntries(p: Path, entries: seq<Entry>, e: Entry, q: Path)
    requires e in entries && q in RenderedEntry(p, e)
    ensures q in RenderedEntries(p, entries)
  {
    hide RenderedEntry;
    if entries[0] != e {
      assert entries == [entries[0]] + entries[1..];
      InEntries(p, entries[1..], e, q);
    }
  }

  lemma InFolder(p: Path, entries: seq<Entry>, e: Entry, q: Path)
    requires e in entries && q in RenderedEntry(p, e)
    ensures q in Rendered(p, Folder(entries))
  {
    InEntries(p, entries, e, q);
    hide RenderedEntries, RenderedEntry;
  }

  lemma {:induction false} RegistriesListed(source: Registry, used: seq<string>, homes: seq<Home>, r: string)
    requires AllIndexed(source, used) && AllHoused(source, homes) && r in used
    ensures Indexed(source, r) && IndexEntry(source, r) in IndexTree(source, used)
    ensures CacheEntry(source, homes, r) in CacheTree(source, used, homes) && SrcEntry(source, homes, r) in SrcTree(source, used, homes)
  {
    hide Indexed, ArchivesIn, SourcesIn, AllHoused;
    var init, last := used[..|used| - 1], used[|used| - 1];
    assert used == init + [last];
    if r != last { RegistriesListed(source, init, homes, r); }
  }

  lemma {:induction false} PackagesListed(source: Registry, homes: seq<Home>, home: Home)
    requires AllHoused(source, homes) && home in homes && Housed(source, home)
    ensures ArchiveEntry(source, home) in ArchivesIn(source, homes, home.registry)
    ensures SourceEntry(source, home) in SourcesIn(source, homes, home.registry)
  {
    hide Housed, ArchiveEntry, SourceEntry;
    var init, last := homes[..|homes| - 1], homes[|homes| - 1];
    assert homes == init + [last];
    if home != last { PackagesListed(source, init, home); }
  }

  /** The three parts of the tree, from the root. */
  lemma InPart(root: Path, source: Registry, used: seq<string>, homes: seq<Home>, q: Path)
    requires AllIndexed(source, used) && AllHoused(source, homes)
    requires || q in Rendered(root + [IndexName()], Folder(IndexTree(source, used)))
             || q in Rendered(root + [CacheName()], Folder(CacheTree(source, used, homes)))
             || q in Rendered(root + [SrcName()], Folder(SrcTree(source, used, homes)))
    ensures q in Rendered(root, Folder(RegistryTree(source, used, homes)))
  {
    hide Rendered, IndexTree, CacheTree, SrcTree, IndexName, CacheName, SrcName, AllIndexed, AllHoused;
    var t := RegistryTree(source, used, homes);
    assert t[0] in t && t[1] in t && t[2] in t;
    if q in RenderedEntry(root, t[0]) { InFolder(root, t, t[0], q); }
    else if q in RenderedEntry(root, t[1]) { InFolder(root, t, t[1], q); }
    else { InFolder(root, t, t[2], q); }
  }

  lemma FolderItself(p: Path, entries: seq<Entry>)
    ensures p in Rendered(p, Folder(entries))
  {
    hide RenderedEntries;
  }

  /** Everything of one registry is in the tree. */
  lemma RegistryInTree(root: Path, source: Registry, used: seq<string>, homes: seq<Home>, r: string, q: Path)
    requires AllIndexed(source, used) && AllHoused(source, homes) && r in used && Indexed(source, r)
    requires || q in Rendered(IndexPath(root, r), SealedDir(source.index[r].entries))
             || q in Rendered(CachePath(root, r), Folder(ArchivesIn(source, homes, r)))
             || q in Rendered(SrcPath(root, r), Folder(SourcesIn(source, homes, r)))
    ensures q in Rendered(root, Folder(RegistryTree(source, used, homes)))
  {
    RegistriesListed(source, used, homes, r);
    hide Rendered, RegistryTree, IndexTree, CacheTree, SrcTree, ArchivesIn, SourcesIn, IndexName, CacheName, SrcName, AllIndexed, AllHoused;
    assert root + [IndexName()] + [Codes(r)] == IndexPath(root, r);
    assert root + [CacheName()] + [Codes(r)] == CachePath(root, r);
    assert root + [SrcName()] + [Codes(r)] == SrcPath(root, r);
    if q in Rendered(IndexPath(root, r), SealedDir(source.index[r].entries)) {
      InFolder(root + [IndexName()], IndexTree(source, used), IndexEntry(source, r), q);
    } else if q in Rendered(CachePath(root, r), Folder(ArchivesIn(source, homes, r))) {
      InFolder(root + [CacheName()], CacheTree(source, used, homes), CacheEntry(source, homes, r), q);
    } else {
      InFolder(root + [SrcName()], SrcTree(source, used, homes), SrcEntry(source, homes, r), q);
    }
    InPart(root, source, used, homes, q);
  }

  lemma PackageInTree(root: Path, source: Registry, used: seq<string>, homes: seq<Home>, home: Home, q: Path)
    requires AllIndexed(source, used) && AllHoused(source, homes) && home in homes && home.registry in used && Housed(source, home)
    requires q in HomeNodes(root, source, home)
    ensures q in Rendered(root, Folder(RegistryTree(source, used, homes)))
  {
    var r := home.registry;
    PackagesListed(source, homes, home);
    RegistriesListed(source, used, homes, r);
    hide RenderedEntries, RegistryTree, IndexTree, CacheTree, SrcTree, ArchivesIn, SourcesIn, AllIndexed, AllHoused, Housed, CachePath, SrcPath,
         ArchiveName, SourceName, Indexed;
    if q == ArchivePath(root, home) {
      InFolder(CachePath(root, r), ArchivesIn(source, homes, r), ArchiveEntry(source, home), q);
    } else {
      InFolder(SrcPath(root, r), SourcesIn(source, homes, r), SourceEntry(source, home), q);
    }
    RegistryInTree(root, source, used, homes, r, q);
  }

  lemma {:induction false} RegistriesMember(root: Path, source: Registry, used: seq<string>, q: Path)
    requires AllIndexed(source, used)
    ensures q in RegistriesNodes(root, source, used) ==> exists r :: r in used && Indexed(source, r) && q in RegistryNodes(root, source, r)
  {
    hide RegistryNodes, Indexed;
    if used != [] {
      assert used == used[..|used| - 1] + [used[|used| - 1]];
      RegistriesMember(root, source, used[..|used| - 1], q);
    }
  }

  /** Nothing was written that is not in the tree. */
  lemma WrittenInTree(root: Path, source: Registry, used: seq<string>, homes: seq<Home>, q: Path)
    requires AllIndexed(source, used) && AllHoused(source, homes)
    requires forall i :: 0 <= i < |homes| ==> homes[i].registry in used
    requires q in SealedNodes(root, source, used, homes)
    ensures q in Rendered(root, Folder(RegistryTree(source, used, homes)))
  {
    var tree := Rendered(root, Folder(RegistryTree(source, used, homes)));
    hide Rendered, RegistryTree, RegistriesNodes, HomesNodes, AllIndexed, Housed, Indexed, RegistryNodes, HomeNodes;
    if q in HomesNodes(root, source, homes) {
      HomesMember(root, source, homes, q);
      var home :| home in homes && Housed(source, home) && q in HomeNodes(root, source, home);
      var i :| 0 <= i < |homes| && homes[i] == home;
      PackageInTree(root, source, used, homes, home, q);
    } else if q in RegistriesNodes(root, source, used) {
      RegistriesMember(root, source, used, q);
      var r :| r in used && Indexed(source, r) && q in RegistryNodes(root, source, r);
      OneRegistryInTree(root, source, used, homes, r, q);
    } else if i :| 0 <= i < |used| && (q == CachePath(root, used[i]) || q == SrcPath(root, used[i])) {
      RegistriesListed(source, used, homes, used[i]);
      OneRegistryInTree(root, source, used, homes, used[i], q);
    } else {
      assert q in Top(root) || q in Skeleton(root, used);
      FrameInTree(root, source, used, homes, q);
    }
  }

  lemma OneRegistryInTree(root: Path, source: Registry, used: seq<string>, homes: seq<Home>, r: string, q: Path)
    requires AllIndexed(source, used) && AllHoused(source, homes) && r in used && Indexed(source, r)
    requires q in RegistryNodes(root, source, r) || q == CachePath(root, r) || q == SrcPath(root, r)
    ensures q in Rendered(root, Folder(RegistryTree(source, used, homes)))
  {
    FolderItself(CachePath(root, r), ArchivesIn(source, homes, r));
    FolderItself(SrcPath(root, r), SourcesIn(source, homes, r));
    hide Rendered, RegistryTree, AllIndexed, AllHoused, ArchivesIn, SourcesIn, CachePath, SrcPath, IndexPath;
    RegistryInTree(root, source, used, homes, r, q);
  }

  lemma FrameInTree(root: Path, source: Registry, used: seq<string>, homes: seq<Home>, q: Path)
    requires AllIndexed(source, used) && AllHoused(source, homes)
    requires q in {root, root + [IndexName()], root + [CacheName()], root + [SrcName()]}
    ensures q in Rendered(root, Folder(RegistryTree(source, used, homes)))
  {
    FolderItself(root, RegistryTree(source, used, homes));
    FolderItself(root + [IndexName()], IndexTree(source, used));
    FolderItself(root + [CacheName()], CacheTree(source, used, homes));
    FolderItself(root + [SrcName()], SrcTree(source, used, homes));
    hide Rendered, RegistryTree, IndexTree, CacheTree, SrcTree, AllIndexed, AllHoused, IndexName, CacheName, SrcName;
    if q != root { InPart(root, source, used, homes, q); }
  }

  // ---------------------------------------------------------------- the two are the same

  /** A registry's index: it lies under "index" and its own name. */
  lemma IndexSteps(root: Path, source: Registry, r: string, q: Path)
    requires Indexed(source, r) && q in Rendered(IndexPath(root, r), SealedDir(source.index[r].entries))
    ensures |q| >= |root| + 2 && q[|root|] == IndexName() && q[|root| + 1] == Codes(r)
  {
    hide Rendered;
    var p, k := IndexPath(root, r), |root|;
    RenderedUnder(p, SealedDir(source.index[r].entries), q);
    assert p[k] == IndexName() && p[k + 1] == Codes(r) && |p| == k + 2;
    assert q[..|p|][k] == q[k] && q[..|p|][k + 1] == q[k + 1];
  }

  lemma RegistrySteps(root: Path, source: Registry, r: string, q: Path)
    requires Indexed(source, r) && q in RegistryNodes(root, source, r)
    ensures |q| >= |root| + 2 && q[|root| + 1] == Codes(r)
  {
    hide Rendered;
    if q in Rendered(IndexPath(root, r), SealedDir(source.index[r].entries)) { IndexSteps(root, source, r, q); }
  }

  lemma {:induction false} IndexKept(root: Path, source: Registry, used: seq<string>, r: string)
    requires AllIndexed(source, used) && Distinct(used) && r in used && Indexed(source, r)
    ensures Holds(RegistriesNodes(root, source, used), Rendered(IndexPath(root, r), SealedDir(source.index[r].entries)))
  {
    hide Rendered, RegistryNodes;
    var init, last := used[..|used| - 1], used[|used| - 1];
    assert used == init + [last];
    if r == last {
      OwnIndex(root, source, r);
    } else {
      IndexKept(root, source, init, r);
      forall q | q in Rendered(IndexPath(root, r), SealedDir(source.index[r].entries)) ensures q !in RegistryNodes(root, source, last) {
        IndexSteps(root, source, r, q);
        if Codes(r) == Codes(last) { CodesInjective(r, last); }
        if q in RegistryNodes(root, source, last) { RegistrySteps(root, source, last, q); }
      }
    }
  }

  lemma OwnIndex(root: Path, source: Registry, r: string)
    requires Indexed(source, r)
    ensures Holds(RegistryNodes(root, source, r), Rendered(IndexPath(root, r), SealedDir(source.index[r].entries)))
  {
    hide Rendered;
    NamesDiffer();
    forall q | q in Rendered(IndexPath(root, r), SealedDir(source.index[r].entries)) ensures q != CachePath(root, r) && q != SrcPath(root, r) {
      IndexSteps(root, source, r, q);
      assert CachePath(root, r)[|root|] == CacheName() && SrcPath(root, r)[|root|] == SrcName();
    }
  }

  lemma IndexSealed(root: Path, source: Registry, used: seq<string>, homes: seq<Home>, r: string)
    requires AllIndexed(source, used) && AllHoused(source, homes) && Distinct(used) && r in used && Indexed(source, r)
    ensures Holds(SealedNodes(root, source, used, homes), Rendered(IndexPath(root, r), SealedDir(source.index[r].entries)))
  {
    hide Rendered, RegistriesNodes, HomesNodes, Housed, Top;
    IndexKept(root, source, used, r);
    forall q | q in Rendered(IndexPath(root, r), SealedDir(source.index[r].entries))
      ensures q !in HomesNodes(root, source, homes) && q !in Skeleton(root, used)
    {
      IndexSteps(root, source, r, q);
      NotAPackage(root, source, homes, q);
      NotInSkeleton(root, used, q);
    }
  }

  lemma NotAPackage(root: Path, source: Registry, homes: seq<Home>, q: Path)
    requires AllHoused(source, homes) && |q| > |root| && q[|root|] == IndexName()
    ensures q !in HomesNodes(root, source, homes)
  {
    hide HomesNodes, HomeNodes, Housed;
    NamesDiffer();
    HomesMember(root, source, homes, q);
    hide IndexName, CacheName, SrcName;
    if home :| home in homes && Housed(source, home) && q in HomeNodes(root, source, home) {
      HomeSteps(root, source, home, q);
    }
  }

  lemma NotInSkeleton(root: Path, used: seq<string>, q: Path)
    requires |q| >= |root| + 2 && q[|root|] == IndexName()
    ensures q !in Skeleton(root, used)
  {
    NamesDiffer();
    hide IndexName, CacheName, SrcName;
    forall i | 0 <= i < |used| ensures q != CachePath(root, used[i]) && q != SrcPath(root, used[i]) {
      assert CachePath(root, used[i])[|root|] == CacheName() && SrcPath(root, used[i])[|root|] == SrcName();
    }
  }

  lemma SkeletonSealed(root: Path, source: Registry, used: seq<string>, homes: seq<Home>)
    requires AllIndexed(source, used) && AllHoused(source, homes)
    ensures TopSealed(SealedNodes(root, source, used, homes), root) && DirsSealed(SealedNodes(root, source, used, homes), root, used)
  {
    hide RegistriesNodes, HomesNodes, Top, IndexName, CacheName, SrcName, Indexed, Housed;
    var nodes := SealedNodes(root, source, used, homes);
    assert forall q :: q in Skeleton(root, used) ==> q in nodes && nodes[q] == DirNode(M.SEALED_DIR);
    forall i | 0 <= i < |used| ensures CachePath(root, used[i]) in Skeleton(root, used) && SrcPath(root, used[i]) in Skeleton(root, used) {}
  }

  /** The sealed registry, written path by path, is one directory tree. */
  lemma SealedIsTree(root: Path, source: Registry, used: seq<string>, homes: seq<Home>)
    requires AllIndexed(source, used) && AllHoused(source, homes) && used == RegistriesOf(homes) && NamesApart(homes)
    ensures SealedNodes(root, source, used, homes) == Rendered(root, Folder(RegistryTree(source, used, homes)))
  {
    var nodes, tree := SealedNodes(root, source, used, homes), Rendered(root, Folder(RegistryTree(source, used, homes)));
    RegistriesExact(homes);
    SkeletonSealed(root, source, used, homes);
    hide SealedNodes, Rendered, RegistryTree, RegistriesOf, NamesApart, Distinct, TopSealed, DirsSealed;
    forall i | 0 <= i < |used| ensures Holds(nodes, Rendered(IndexPath(root, used[i]), SealedDir(source.index[used[i]].entries))) {
      IndexSealed(root, source, used, homes, used[i]);
    }
    forall i | 0 <= i < |homes| ensures HoldsHome(nodes, root, source, homes[i]) {
      SealedHolds(root, source, used, homes, homes[i]);
    }
    TreeHeld(nodes, root, source, used, homes);
    forall q | q in nodes ensures q in tree {
      assert forall i :: 0 <= i < |homes| ==> homes[i] in homes;
      WrittenInTree(root, source, used, homes, q);
    }
    SameNodes(nodes, tree);
  }

  lemma SameNodes(a: Nodes, b: Nodes)
    requires Holds(a, b) && forall q :: q in a ==> q in b
    ensures a == b
  {}

  // ------------------------------------------------------------------------ its totals

  lemma CountOne(e: Entry)
    ensures Count([e]) == CountEntry(e) && SnapshotTree.Total([e]) == TotalEntry(e)
  {
    hide CountEntry, TotalEntry;
    assert [e][1..] == [];
  }

  lemma CountMore(entries: seq<Entry>, e: Entry)
    ensures Count(entries + [e]) == Count(entries) + CountEntry(e)
    ensures SnapshotTree.Total(entries + [e]) == SnapshotTree.Total(entries) + TotalEntry(e)
  {
    hide Count, SnapshotTree.Total, CountEntry, TotalEntry;
    AppendFacts(entries, [e], [], 0);
    CountOne(e);
  }

  /** Sealed copies have the entries and bytes of their sources. */
  lemma SealedCounts(entries: seq<Entry>)
    ensures Count(M.SealEntries(entries)) == Count(entries) && SnapshotTree.Total(M.SealEntries(entries)) == SnapshotTree.Total(entries)
  {
    M.SealKeepsRows(entries, [], 0);
  }

  lemma {:induction false} IndexTotals(source: Registry, used: seq<string>)
    requires AllIndexed(source, used)
    ensures var b := WithRegistries(source, used, EMPTY_BUDGET);
            Count(IndexTree(source, used)) + 2 * |used| == b.entries && SnapshotTree.Total(IndexTree(source, used)) == b.bytes
  {
    hide Count, SnapshotTree.Total, M.SealEntries;
    EmptyCounts();
    if used != [] {
      var init, last := used[..|used| - 1], used[|used| - 1];
      IndexTotals(source, init);
      CountMore(IndexTree(source, init), IndexEntry(source, last));
      SealedCounts(source.index[last].entries);
    }
  }

  lemma EmptyCounts()
    ensures Count([]) == 0 && SnapshotTree.Total([]) == 0
  {}

  /** One more package adds its archive, and its source, to the directory of its registry. */
  lemma PackageAdds(source: Registry, homes: seq<Home>, r: string)
    requires AllHoused(source, homes) && homes != []
    ensures var init, last := homes[..|homes| - 1], homes[|homes| - 1];
            var mine := last.registry == r;
            && Count(ArchivesIn(source, homes, r)) == Count(ArchivesIn(source, init, r)) + (if mine then 1 else 0)
            && SnapshotTree.Total(ArchivesIn(source, homes, r))
               == SnapshotTree.Total(ArchivesIn(source, init, r)) + (if mine then |ArchiveOf(source, last).content| else 0)
            && Count(SourcesIn(source, homes, r)) == Count(SourcesIn(source, init, r)) + (if mine then 1 + Count(SourceOf(source, last)) else 0)
            && SnapshotTree.Total(SourcesIn(source, homes, r))
               == SnapshotTree.Total(SourcesIn(source, init, r)) + (if mine then SnapshotTree.Total(SourceOf(source, last)) else 0)
  {
    hide Count, SnapshotTree.Total, M.SealEntries, Housed;
    var init, last := homes[..|homes| - 1], homes[|homes| - 1];
    CountMore(ArchivesIn(source, init, r), ArchiveEntry(source, last));
    CountMore(SourcesIn(source, init, r), SourceEntry(source, last));
    SealedCounts(SourceOf(source, last));
  }

  lemma {:induction false} PackageAddsOnce(source: Registry, used: seq<string>, homes: seq<Home>)
    requires AllHoused(source, homes) && homes != [] && Distinct(used)
    ensures var init, last := homes[..|homes| - 1], homes[|homes| - 1];
            var mine := last.registry in used;
            && Count(CacheTree(source, used, homes)) == Count(CacheTree(source, used, init)) + (if mine then 1 else 0)
            && SnapshotTree.Total(CacheTree(source, used, homes))
               == SnapshotTree.Total(CacheTree(source, used, init)) + (if mine then |ArchiveOf(source, last).content| else 0)
            && Count(SrcTree(source, used, homes)) == Count(SrcTree(source, used, init)) + (if mine then 1 + Count(SourceOf(source, last)) else 0)
            && SnapshotTree.Total(SrcTree(source, used, homes))
               == SnapshotTree.Total(SrcTree(source, used, init)) + (if mine then SnapshotTree.Total(SourceOf(source, last)) else 0)
  {
    hide Count, SnapshotTree.Total, ArchivesIn, SourcesIn, Housed;
    var init := homes[..|homes| - 1];
    if used != [] {
      var before, r := used[..|used| - 1], used[|used| - 1];
      assert used == before + [r];
      PackageAddsOnce(source, before, homes);
      PackageAdds(source, homes, r);
      CountMore(CacheTree(source, before, homes), CacheEntry(source, homes, r));
      CountMore(CacheTree(source, before, init), CacheEntry(source, init, r));
      CountMore(SrcTree(source, before, homes), SrcEntry(source, homes, r));
      CountMore(SrcTree(source, before, init), SrcEntry(source, init, r));
    }
  }

  lemma {:induction false} NoPackages(source: Registry, used: seq<string>)
    ensures Count(CacheTree(source, used, [])) == |used| == Count(SrcTree(source, used, []))
    ensures SnapshotTree.Total(CacheTree(source, used, [])) == 0 == SnapshotTree.Total(SrcTree(source, used, []))
  {
    hide Count, SnapshotTree.Total;
    EmptyCounts();
    if used != [] {
      var init, r := used[..|used| - 1], used[|used| - 1];
      NoPackages(source, init);
      CountMore(CacheTree(source, init, []), CacheEntry(source, [], r));
      CountMore(SrcTree(source, init, []), SrcEntry(source, [], r));
    }
  }

  lemma {:induction false} PackageTotals(source: Registry, used: seq<string>, homes: seq<Home>)
    requires AllIndexed(source, used) && AllHoused(source, homes) && Distinct(used)
    requires forall i :: 0 <= i < |homes| ==> homes[i].registry in used
    ensures var b := WithHomes(source, homes, WithRegistries(source, used, EMPTY_BUDGET));
            && Count(IndexTree(source, used)) + Count(CacheTree(source, used, homes)) + Count(SrcTree(source, used, homes)) == b.entries
            && SnapshotTree.Total(IndexTree(source, used)) + SnapshotTree.Total(CacheTree(source, used, homes))
               + SnapshotTree.Total(SrcTree(source, used, homes)) == b.bytes
  {
    hide Count, SnapshotTree.Total, IndexTree, CacheTree, SrcTree, Housed, Indexed, WithRegistries, Distinct;
    if homes == [] {
      IndexTotals(source, used);
      NoPackages(source, used);
    } else {
      PackageTotals(source, used, homes[..|homes| - 1]);
      PackageAddsOnce(source, used, homes);
    }
  }

  /** Walked from its root, the tree has three entries more than the seal admitted, and the same bytes. */
  lemma {:induction false} TreeTotals(source: Registry, used: seq<string>, homes: seq<Home>)
    requires AllIndexed(source, used) && AllHoused(source, homes) && Distinct(used)
    requires forall i :: 0 <= i < |homes| ==> homes[i].registry in used
    ensures var b := WithHomes(source, homes, WithRegistries(source, used, EMPTY_BUDGET));
            Count(RegistryTree(source, used, homes)) == b.entries + 3 && SnapshotTree.Total(RegistryTree(source, used, homes)) == b.bytes
  {
    PackageTotals(source, used, homes);
    hide Count, SnapshotTree.Total, IndexTree, CacheTree, SrcTree, WithHomes, WithRegistries, Distinct, AllIndexed, AllHoused;
    var t := RegistryTree(source, used, homes);
    assert t == [t[0], t[1]] + [t[2]] && [t[0], t[1]] == [t[0]] + [t[1]];
    CountMore([t[0], t[1]], t[2]);
    CountMore([t[0]], t[1]);
    CountOne(t[0]);
  }

  // ----------------------------------------------------------------------- its plainness

  lemma PlainMore(entries: seq<Entry>, e: Entry, prefix: Bytes, depth: nat)
    ensures SnapshotTree.Plain(entries + [e], prefix, depth) <==> SnapshotTree.Plain(entries, prefix, depth) && PlainEntry(e, prefix, depth)
  {
    AppendFacts(entries, [e], prefix, depth);
    assert [e][1..] == [];
    hide PlainEntry, RowsOf, Count, SnapshotTree.Total;
  }

  lemma PlainNone(prefix: Bytes, depth: nat)
    ensures SnapshotTree.Plain([], prefix, depth)
  {}

  function IndexPrefix(r: string): Bytes { Join(IndexName(), Codes(r)) }

  function SourcePrefix(home: Home): Bytes { Join(Join(SrcName(), Codes(home.registry)), Codes(SourceName(home.package))) }

  /** The index as the walk from the registry's root meets it: two levels down, under its path. */
  predicate IndexDeepPlain(source: Registry, r: string)
    requires Indexed(source, r)
  {
    SnapshotTree.Plain(source.index[r].entries, IndexPrefix(r), 2)
  }

  /** A package as that walk meets it: its source is three levels down. */
  predicate HomeDeepPlain(source: Registry, home: Home)
    requires Housed(source, home)
  {
    |ArchiveOf(source, home).content| <= MAX_FILE_BYTES && SnapshotTree.Plain(SourceOf(source, home), SourcePrefix(home), 3)
  }

  lemma SealedPlain(entries: seq<Entry>, prefix: Bytes, depth: nat)
    ensures SnapshotTree.Plain(M.SealEntries(entries), prefix, depth) <==> SnapshotTree.Plain(entries, prefix, depth)
  {
    M.SealKeepsRows(entries, prefix, depth);
  }

  lemma JoinShort(prefix: Bytes, name: Bytes)
    ensures |Join(prefix, name)| <= |prefix| + 1 + |name|
  {}

  lemma NameLengths()
    ensures |IndexName()| == 5 && |CacheName()| == 5 && |SrcName()| == 3
  {}

  lemma {:induction false} IndexPlain(source: Registry, used: seq<string>)
    requires AllIndexed(source, used) && forall i :: 0 <= i < |used| ==> ShortName(used[i])
    ensures SnapshotTree.Plain(IndexTree(source, used), IndexName(), 1) <==> forall i :: 0 <= i < |used| ==> IndexDeepPlain(source, used[i])
  {
    hide SnapshotTree.Plain, M.SealEntries, IndexName;
    PlainNone(IndexName(), 1);
    if used != [] {
      var init, last := used[..|used| - 1], used[|used| - 1];
      assert used == init + [last];
      IndexPlain(source, init);
      PlainMore(IndexTree(source, init), IndexEntry(source, last), IndexName(), 1);
      NameLengths();
      JoinShort(IndexName(), Codes(last));
      SealedPlain(source.index[last].entries, IndexPrefix(last), 2);
    }
  }

  ghost predicate Mine(homes: seq<Home>, i: int, r: string) { 0 <= i < |homes| && homes[i].registry == r }

  lemma {:induction false} PackagesPlain(source: Registry, homes: seq<Home>, r: string)
    requires AllHoused(source, homes) && ShortName(r) && forall i :: 0 <= i < |homes| ==> NamesSafe(homes[i].package)
    ensures SnapshotTree.Plain(ArchivesIn(source, homes, r), Join(CacheName(), Codes(r)), 2)
            && SnapshotTree.Plain(SourcesIn(source, homes, r), Join(SrcName(), Codes(r)), 2)
            <==> forall i :: Mine(homes, i, r) ==> HomeDeepPlain(source, homes[i])
  {
    hide SnapshotTree.Plain, M.SealEntries, IndexName, CacheName, SrcName, Housed, HomeDeepPlain, ArchiveEntry, SourceEntry;
    var a, b := Join(CacheName(), Codes(r)), Join(SrcName(), Codes(r));
    PlainNone(a, 2);
    PlainNone(b, 2);
    if homes != [] {
      var init, last := homes[..|homes| - 1], homes[|homes| - 1];
      assert forall i :: Mine(homes, i, r) <==> Mine(init, i, r) || (i == |homes| - 1 && last.registry == r);
      PackagesPlain(source, init, r);
      if last.registry == r {
        PlainMore(ArchivesIn(source, init, r), ArchiveEntry(source, last), a, 2);
        PlainMore(SourcesIn(source, init, r), SourceEntry(source, last), b, 2);
        PackagePlain(source, last);
        assert Mine(homes, |homes| - 1, r);
      }
    }
  }

  lemma PackagePlain(source: Registry, home: Home)
    requires Housed(source, home) && ShortName(home.registry) && NamesSafe(home.package)
    ensures PlainEntry(ArchiveEntry(source, home), Join(CacheName(), Codes(home.registry)), 2)
            && PlainEntry(SourceEntry(source, home), Join(SrcName(), Codes(home.registry)), 2)
            <==> HomeDeepPlain(source, home)
  {
    hide SnapshotTree.Plain, M.SealEntries, IndexName, CacheName, SrcName, ArchiveName, SourceName;
    NameLengths();
    var a, b := Join(CacheName(), Codes(home.registry)), Join(SrcName(), Codes(home.registry));
    JoinShort(CacheName(), Codes(home.registry));
    JoinShort(SrcName(), Codes(home.registry));
    JoinShort(a, Codes(ArchiveName(home.package)));
    JoinShort(b, Codes(SourceName(home.package)));
    SealedPlain(SourceOf(source, home), SourcePrefix(home), 3);
  }

  lemma {:induction false} PartsPlain(source: Registry, used: seq<string>, homes: seq<Home>)
    requires AllHoused(source, homes) && forall i :: 0 <= i < |homes| ==> NamesSafe(homes[i].package)
    requires forall i :: 0 <= i < |used| ==> ShortName(used[i])
    ensures SnapshotTree.Plain(CacheTree(source, used, homes), CacheName(), 1) && SnapshotTree.Plain(SrcTree(source, used, homes), SrcName(), 1)
            <==> forall i :: 0 <= i < |homes| && homes[i].registry in used ==> HomeDeepPlain(source, homes[i])
  {
    hide SnapshotTree.Plain, ArchivesIn, SourcesIn, IndexName, CacheName, SrcName, Housed, HomeDeepPlain, NamesSafe;
    PlainNone(CacheName(), 1);
    PlainNone(SrcName(), 1);
    if used != [] {
      var init, r := used[..|used| - 1], used[|used| - 1];
      assert used == init + [r];
      PartsPlain(source, init, homes);
      PackagesPlain(source, homes, r);
      PlainMore(CacheTree(source, init, homes), CacheEntry(source, homes, r), CacheName(), 1);
      PlainMore(SrcTree(source, init, homes), SrcEntry(source, homes, r), SrcName(), 1);
      NameLengths();
      JoinShort(CacheName(), Codes(r));
      JoinShort(SrcName(), Codes(r));
      assert forall i :: 0 <= i < |homes| && homes[i].registry == r ==> Mine(homes, i, r);
    }
  }

  lemma TreePlain(source: Registry, used: seq<string>, homes: seq<Home>)
    requires AllIndexed(source, used) && AllHoused(source, homes)
    ensures SnapshotTree.Plain(RegistryTree(source, used, homes), [], 0)
            <==> SnapshotTree.Plain(IndexTree(source, used), IndexName(), 1)
                 && SnapshotTree.Plain(CacheTree(source, used, homes), CacheName(), 1)
                 && SnapshotTree.Plain(SrcTree(source, used, homes), SrcName(), 1)
  {
    hide SnapshotTree.Plain, IndexTree, CacheTree, SrcTree, IndexName, CacheName, SrcName, AllIndexed, AllHoused;
    var t := RegistryTree(source, used, homes);
    NameLengths();
    assert t == [t[0], t[1]] + [t[2]] && [t[0], t[1]] == [t[0]] + [t[1]] && [t[0]] == [] + [t[0]];
    PlainMore([t[0], t[1]], t[2], [], 0);
    PlainMore([t[0]], t[1], [], 0);
    PlainMore([], t[0], [], 0);
    PlainNone([], 0);
  }

  // ------------------------------------------------------------------ reading it back

  /** The walk from the registry's own root accepts every index and package. */
  ghost predicate DeepPlain(source: Registry, used: seq<string>, homes: seq<Home>)
    requires AllIndexed(source, used) && AllHoused(source, homes)
  {
    && (forall i :: 0 <= i < |used| ==> IndexDeepPlain(source, used[i]))
    && (forall i :: 0 <= i < |homes| ==> HomeDeepPlain(source, homes[i]))
  }

  /**
    A sealed registry's manifest can be read back exactly when its indexes and sources are still
    plain where they lie, two and three levels below the root and under longer paths, and the
    bounds leave room for three entries more than the seal admitted.
   */
  lemma ReadBackExactly(h: Hash, source: Registry, packages: seq<LockedPackage>, homes: seq<Home>)
    requires Listable(source) && HomesFor(h, source, packages, homes)
    requires AllHoused(source, homes) && AllIndexed(source, RegistriesOf(homes))
    ensures var used := RegistriesOf(homes);
            var b := WithHomes(source, homes, WithRegistries(source, used, EMPTY_BUDGET));
            Acceptable(RegistryTree(source, used, homes)) <==>
              DeepPlain(source, used, homes) && WithinBounds(Budget(b.entries + 3, b.bytes))
  {
    hide Listable, HomesFor, RegistriesOf, RegistryTree, SnapshotTree.Plain, Count, SnapshotTree.Total, AllHoused, AllIndexed,
         DeepPlain, WithHomes, WithRegistries, NamesSafe, ShortName, Distinct;
    var used := RegistriesOf(homes);
    NamesAreShort(h, source, packages, homes);
    AllUsed(homes);
    TreeTotals(source, used, homes);
    DeepPlainTree(source, used, homes);
  }

  lemma AllUsed(homes: seq<Home>)
    ensures Distinct(RegistriesOf(homes)) && forall i :: 0 <= i < |homes| ==> homes[i].registry in RegistriesOf(homes)
  {
    RegistriesExact(homes);
    forall i | 0 <= i < |homes| ensures homes[i].registry in RegistriesOf(homes) { assert homes[i] in homes; }
  }

  lemma DeepPlainTree(source: Registry, used: seq<string>, homes: seq<Home>)
    requires AllIndexed(source, used) && AllHoused(source, homes)
    requires forall i :: 0 <= i < |homes| ==> homes[i].registry in used && NamesSafe(homes[i].package)
    requires forall i :: 0 <= i < |used| ==> ShortName(used[i])
    ensures SnapshotTree.Plain(RegistryTree(source, used, homes), [], 0) <==> DeepPlain(source, used, homes)
  {
    hide RegistryTree, IndexTree, CacheTree, SrcTree, SnapshotTree.Plain, AllHoused, AllIndexed,
         IndexDeepPlain, HomeDeepPlain, NamesSafe, ShortName, IndexName, CacheName, SrcName;
    TreePlain(source, used, homes);
    IndexPlain(source, used);
    PartsPlain(source, used, homes);
  }

  // --------------------------------------------------------- how much deeper, how much longer

  /** How many directories lie inside one another. */
  function Height(entries: seq<Entry>): nat
    decreases entries
  {
    if entries == [] then 0
    else
      var first, others := HeightEntry(entries[0]), Height(entries[1..]);
      if first < others then others else first
  }

  function HeightEntry(e: Entry): nat
    decreases e
  {
    match e.node
    case Dir(sub, _) => 1 + Height(sub)
    case _ => 0
  }

  /** How many bytes the longest path adds to that of the directory, separators included. */
  function Reach(entries: seq<Entry>): nat
    decreases entries
  {
    if entries == [] then 0
    else
      var first, others := ReachEntry(entries[0]), Reach(entries[1..]);
      if first < others then others else first
  }

  function ReachEntry(e: Entry): nat
    decreases e
  {
    if e.name.NotUtf8? then 0
    else
      match e.node
      case Dir(sub, _) => 1 + |e.name.bytes| + Reach(sub)
      case _ => 1 + |e.name.bytes|
  }

  /** Plain as far as this does not depend on where the tree lies. */
  predicate Ordinary(entries: seq<Entry>)
    decreases entries
  {
    entries == [] || (OrdinaryEntry(entries[0]) && Ordinary(entries[1..]))
  }

  predicate OrdinaryEntry(e: Entry)
    decreases e
  {
    && e.name.Utf8?
    && match e.node
       case File(content, _) => |content| <= MAX_FILE_BYTES
       case Dir(sub, _) => Ordinary(sub)
       case _ => false
  }

  /** Lower down, a tree is plain exactly when it is ordinary and neither too high nor too long for the place. */
  lemma {:induction false} PlainExactly(entries: seq<Entry>, prefix: Bytes, depth: nat)
    requires 0 < |prefix| <= MAX_PATH_BYTES && depth <= MAX_DEPTH
    ensures SnapshotTree.Plain(entries, prefix, depth) <==>
              Ordinary(entries) && depth + Height(entries) <= MAX_DEPTH && |prefix| + Reach(entries) <= MAX_PATH_BYTES
    decreases entries
  {
    if entries != [] {
      PlainEntryExactly(entries[0], prefix, depth);
      PlainExactly(entries[1..], prefix, depth);
      hide PlainEntry, OrdinaryEntry, HeightEntry, ReachEntry;
    }
  }

  lemma {:induction false} PlainEntryExactly(e: Entry, prefix: Bytes, depth: nat)
    requires 0 < |prefix| <= MAX_PATH_BYTES && depth <= MAX_DEPTH
    ensures PlainEntry(e, prefix, depth) <==>
              OrdinaryEntry(e) && depth + HeightEntry(e) <= MAX_DEPTH && |prefix| + ReachEntry(e) <= MAX_PATH_BYTES
    decreases e
  {
    hide SnapshotTree.Plain, Ordinary, Height, Reach;
    if e.name.Utf8? && e.node.Dir? {
      var path := Join(prefix, e.name.bytes);
      if |path| <= MAX_PATH_BYTES && depth + 1 <= MAX_DEPTH { PlainExactly(e.node.entries, path, depth + 1); }
    }
  }

  lemma {:induction false} PlainIsOrdinary(entries: seq<Entry>, prefix: Bytes, depth: nat)
    requires SnapshotTree.Plain(entries, prefix, depth)
    ensures Ordinary(entries)
    decreases entries
  {
    if entries != [] {
      PlainEntryIsOrdinary(entries[0], prefix, depth);
      PlainIsOrdinary(entries[1..], prefix, depth);
    }
  }

  lemma {:induction false} PlainEntryIsOrdinary(e: Entry, prefix: Bytes, depth: nat)
    requires PlainEntry(e, prefix, depth)
    ensures OrdinaryEntry(e)
    decreases e
  {
    if e.node.Dir? { PlainIsOrdinary(e.node.entries, Join(prefix, e.name.bytes), depth + 1); }
  }

  predicate IndexRoom(source: Registry, r: string)
    requires Indexed(source, r)
  {
    2 + Height(source.index[r].entries) <= MAX_DEPTH && |IndexPrefix(r)| + Reach(source.index[r].entries) <= MAX_PATH_BYTES
  }

  predicate SourceRoom(source: Registry, home: Home)
    requires Housed(source, home)
  {
    3 + Height(SourceOf(source, home)) <= MAX_DEPTH && |SourcePrefix(home)| + Reach(SourceOf(source, home)) <= MAX_PATH_BYTES
  }

  lemma IndexRoomExactly(source: Registry, r: string)
    requires ShortName(r) && RegistryFits(source, r)
    ensures IndexDeepPlain(source, r) <==> IndexRoom(source, r)
  {
    hide SnapshotTree.Plain, Ordinary, Height, Reach, IndexName;
    NameLengths();
    PlainIsOrdinary(source.index[r].entries, [], 0);
    PlainExactly(source.index[r].entries, IndexPrefix(r), 2);
  }

  lemma SourceRoomExactly(source: Registry, home: Home)
    requires ShortName(home.registry) && NamesSafe(home.package) && Housed(source, home) && HomeFits(source, home)
    ensures HomeDeepPlain(source, home) <==> SourceRoom(source, home)
  {
    hide SnapshotTree.Plain, Ordinary, Height, Reach, SrcName, SourceName;
    NameLengths();
    PlainIsOrdinary(SourceOf(source, home), [], 0);
    PlainExactly(SourceOf(source, home), SourcePrefix(home), 3);
  }

  /**
    Of a registry that can be sealed, the manifest can be read back exactly when every index
    leaves two levels and every source three, their longest paths still fit behind their
    place in the sealed tree, and there is room for three more entries.
   */
  lemma SealableReadBack(h: Hash, rows: seq<LockRow>, source: Registry, homes: seq<Home>)
    requires Sealable(h, rows, source, homes)
    ensures AllHoused(source, homes) && AllIndexed(source, RegistriesOf(homes))
    ensures var used := RegistriesOf(homes);
            Acceptable(RegistryTree(source, used, homes)) <==>
              && (forall i :: 0 <= i < |used| ==> IndexRoom(source, used[i]))
              && (forall i :: 0 <= i < |homes| ==> SourceRoom(source, homes[i]))
              && WithHomes(source, homes, WithRegistries(source, used, EMPTY_BUDGET)).entries + 3 <= MAX_ENTRIES
  {
    hide Acceptable, RegistriesOf, RegistryTree, Affordable, HomesFor, PackagesOf, AllAdmissible, Listable, NamesApart, WithHomes, WithRegistries,
         IndexRoom, SourceRoom, IndexDeepPlain, HomeDeepPlain, RegistryFits, HomeFits, NamesSafe, ShortName, Housed, Indexed;
    var used := RegistriesOf(homes);
    AffordableExactly(h, source, PackagesOf(rows), homes);
    NamesAreShort(h, source, PackagesOf(rows), homes);
    AllUsed(homes);
    ReadBackExactly(h, source, PackagesOf(rows), homes);
    forall i | 0 <= i < |used| ensures IndexDeepPlain(source, used[i]) <==> IndexRoom(source, used[i]) { IndexRoomExactly(source, used[i]); }
    forall i | 0 <= i < |homes| ensures HomeDeepPlain(source, homes[i]) <==> SourceRoom(source, homes[i]) { SourceRoomExactly(source, homes[i]); }
  }

  /** Directories inside one another, n of them. */
  function Nest(n: nat): seq<Entry> { if n == 0 then [] else [Entry(Utf8([0x61]), Dir(Nest(n - 1), 0x1ED))] }

  lemma {:induction false} NestFacts(n: nat)
    ensures Ordinary(Nest(n)) && Height(Nest(n)) == n && Reach(Nest(n)) == 2 * n
    ensures Count(Nest(n)) == n && SnapshotTree.Total(Nest(n)) == 0
  {
    if n > 0 {
      var e := Nest(n)[0];
      assert Nest(n)[1..] == [];
      NestFacts(n - 1);
      CountOne(e);
    }
  }

  /** Sixty-three levels are accepted by the copy and refused where an index lies. */
  lemma DeepIndexExample(r: string)
    requires ShortName(r)
    ensures Acceptable(Nest(63)) && !SnapshotTree.Plain(Nest(63), IndexPrefix(r), 2)
  {
    hide SnapshotTree.Plain, Ordinary, Height, Reach, Count, SnapshotTree.Total, IndexName;
    NameLengths();
    NestFacts(63);
    NestFacts(62);
    PlainExactly(Nest(63), IndexPrefix(r), 2);
    PlainExactly(Nest(62), [0x61], 1);
    PlainNone([], 0);
    var e := Entry(Utf8([0x61]), Dir(Nest(62), 0x1ED));
    assert Nest(63) == [e] == [] + [e];
    PlainMore([], e, [], 0);
  }
}
