/**
  Sealing an offline Cargo registry under a target path: the indexes of the registries in use,
  then exactly the locked archives and their unpacked sources, all read-only; on any failure
  the target is removed again.
 */
module RegistrySeal {
  import opened Options
  import opened Texts
  import opened SnapshotTree
  import M = SnapshotManifest
  import opened FileSystems
  import opened SealedCopies
  import opened CargoRegistry

  // ---------------------------------------------------------------------------- paths

  function IndexName(): Bytes { Codes("index") }
  function CacheName(): Bytes { Codes("cache") }
  function SrcName(): Bytes { Codes("src") }

  function IndexPath(root: Path, r: string): Path { root + [IndexName(), Codes(r)] }
  function CachePath(root: Path, r: string): Path { root + [CacheName(), Codes(r)] }
  function SrcPath(root: Path, r: string): Path { root + [SrcName(), Codes(r)] }

  function ArchivePath(root: Path, home: Home): Path { CachePath(root, home.registry) + [Codes(ArchiveName(home.package))] }
  function UnpackedPath(root: Path, home: Home): Path { SrcPath(root, home.registry) + [Codes(SourceName(home.package))] }

  lemma NamesDiffer()
    ensures IndexName() != CacheName() && IndexName() != SrcName() && CacheName() != SrcName()
  {
    assert IndexName()[0] == 'i' as nat && CacheName()[0] == 'c' as nat && SrcName()[0] == 's' as nat;
  }

  /** Paths that differ in some step have nothing below in common. */
  lemma Diverge(p: Path, q: Path, k: nat)
    requires k < |p| && k < |q| && p[k] != q[k]
    ensures !Under(p, q) && !Under(q, p) && p != q
  {
    assert |p| <= |q| ==> q[..|p|][k] == q[k];
    assert |q| <= |p| ==> p[..|q|][k] == p[k];
  }

  // ------------------------------------------------------------------ what it will cost

  ghost predicate ListingsDistinct(source: Registry) {
    && (forall r :: r in source.index && source.index[r].Dir? ==> M.DistinctNames(source.index[r].entries))
    && (forall r, n :: r in source.src && n in source.src[r] && source.src[r][n].Dir? ==> M.DistinctNames(source.src[r][n].entries))
  }

  predicate Indexed(source: Registry, r: string) { r in source.index && source.index[r].Dir? }

  function AdmitRegistry(source: Registry, r: string, b: Budget): Result<Budget> {
    var b1 :- Admitted(b, |"index/" + r|, 0);
    if !Indexed(source, r) then Err(NotPlain)
    else
      var w :- WalkDir(source.index[r].entries, [], 0, b1);
      var b2 :- Admitted(w.budget, |"cache/" + r|, 0);
      Admitted(b2, |"src/" + r|, 0)
  }

  /** The package's archive and unpacked source are in its registry. */
  predicate Housed(source: Registry, home: Home) {
    && home.registry in source.cache && ArchiveName(home.package) in source.cache[home.registry]
    && Unpacked(source, home.registry, home.package)
  }

  function ArchiveOf(source: Registry, home: Home): Archive
    requires Housed(source, home)
  {
    source.cache[home.registry][ArchiveName(home.package)]
  }

  function SourceOf(source: Registry, home: Home): seq<Entry>
    requires Housed(source, home)
  {
    source.src[home.registry][SourceName(home.package)].entries
  }

  function AdmitHome(source: Registry, home: Home, b: Budget): Result<Budget>
    requires Housed(source, home)
  {
    var b1 :- Admitted(b, |"cache/" + home.registry + "/" + ArchiveName(home.package)|, |ArchiveOf(source, home).content|);
    var b2 :- Admitted(b1, |"src/" + home.registry + "/" + SourceName(home.package)|, 0);
    var w :- WalkDir(SourceOf(source, home), [], 0, b2);
    Ok(w.budget)
  }

  function AdmitRegistries(source: Registry, used: seq<string>, b: Budget): Result<Budget> {
    if used == [] then Ok(b)
    else
      var b1 :- AdmitRegistries(source, used[..|used| - 1], b);
      AdmitRegistry(source, used[|used| - 1], b1)
  }

  predicate AllHoused(source: Registry, homes: seq<Home>) { forall i :: 0 <= i < |homes| ==> Housed(source, homes[i]) }

  function AdmitHomes(source: Registry, homes: seq<Home>, b: Budget): Result<Budget>
    requires AllHoused(source, homes)
  {
    if homes == [] then Ok(b)
    else
      var b1 :- AdmitHomes(source, homes[..|homes| - 1], b);
      AdmitHome(source, homes[|homes| - 1], b1)
  }

  // ------------------------------------------------------------------ what is written

  function RegistryNodes(root: Path, source: Registry, r: string): Nodes
    requires Indexed(source, r)
  {
    Rendered(IndexPath(root, r), SealedDir(source.index[r].entries))
    + map[CachePath(root, r) := DirNode(NEW_DIR)] + map[SrcPath(root, r) := DirNode(NEW_DIR)]
  }

  function HomeNodes(root: Path, source: Registry, home: Home): Nodes
    requires Housed(source, home)
  {
    map[ArchivePath(root, home) := FileNode(ArchiveOf(source, home).content, M.SealMode(ArchiveOf(source, home).mode))]
    + Rendered(UnpackedPath(root, home), SealedDir(SourceOf(source, home)))
  }

  predicate AllIndexed(source: Registry, used: seq<string>) { forall i :: 0 <= i < |used| ==> Indexed(source, used[i]) }

  function RegistriesNodes(root: Path, source: Registry, used: seq<string>): Nodes
    requires AllIndexed(source, used)
  {
    if used == [] then map[]
    else RegistriesNodes(root, source, used[..|used| - 1]) + RegistryNodes(root, source, used[|used| - 1])
  }

  function HomesNodes(root: Path, source: Registry, homes: seq<Home>): Nodes
    requires AllHoused(source, homes)
  {
    if homes == [] then map[]
    else HomesNodes(root, source, homes[..|homes| - 1]) + HomeNodes(root, source, homes[|homes| - 1])
  }

  function Top(root: Path): Nodes {
    map[root := DirNode(NEW_DIR)] + map[root + [IndexName()] := DirNode(NEW_DIR)]
    + map[root + [CacheName()] := DirNode(NEW_DIR)] + map[root + [SrcName()] := DirNode(NEW_DIR)]
  }

  ghost predicate TopOpen(nodes: Nodes, root: Path) {
    forall name :: name in {IndexName(), CacheName(), SrcName()} ==> root + [name] in nodes && nodes[root + [name]] == DirNode(NEW_DIR)
  }

  ghost predicate FreeRegistry(nodes: Nodes, root: Path, r: string) {
    IndexPath(root, r) !in nodes && CachePath(root, r) !in nodes && SrcPath(root, r) !in nodes
  }

  ghost predicate FreeHome(nodes: Nodes, root: Path, home: Home) {
    ArchivePath(root, home) !in nodes && UnpackedPath(root, home) !in nodes
  }

  // --------------------------------------------------------------------- one registry

  lemma RegistryPaths(root: Path, r: string)
    ensures Under(root, IndexPath(root, r)) && Under(root, CachePath(root, r)) && Under(root, SrcPath(root, r))
    ensures Parent(IndexPath(root, r)) == root + [IndexName()]
    ensures Parent(CachePath(root, r)) == root + [CacheName()]
    ensures Parent(SrcPath(root, r)) == root + [SrcName()]
    ensures !Under(IndexPath(root, r), CachePath(root, r)) && !Under(IndexPath(root, r), SrcPath(root, r))
    ensures CachePath(root, r) != SrcPath(root, r)
  {
    NamesDiffer();
    Diverge(IndexPath(root, r), CachePath(root, r), |root|);
    Diverge(IndexPath(root, r), SrcPath(root, r), |root|);
    Diverge(CachePath(root, r), SrcPath(root, r), |root|);
  }

  /** Writes elsewhere leave an open directory's free name creatable. */
  lemma StillCreatable(before: Nodes, after: Nodes, elsewhere: Path, p: Path)
    requires Wrote(before, after, elsewhere) && !Under(elsewhere, p) && p !in before && p != []
    requires Parent(p) in before && before[Parent(p)] == DirNode(NEW_DIR)
    ensures CanCreate(after, p) && after[Parent(p)] == DirNode(NEW_DIR)
  {
    NewIsWritable();
  }

  lemma OpenCreatable(nodes: Nodes, p: Path)
    requires p !in nodes && p != [] && Parent(p) in nodes && nodes[Parent(p)] == DirNode(NEW_DIR)
    ensures CanCreate(nodes, p)
  {
    NewIsWritable();
  }

  method MakeDir(fs: FileSystem, p: Path, ghost root: Path) returns (ok: bool)
    requires WellFormed(fs.nodes) && Under(root, p)
    modifies fs`nodes, fs`calls
    ensures WellFormed(fs.nodes) && Wrote(old(fs.nodes), fs.nodes, root)
    ensures ok ==> CanCreate(old(fs.nodes), p) && fs.nodes == old(fs.nodes) + map[p := DirNode(NEW_DIR)]
    ensures old(fs.Quiet()) ==> fs.Quiet() && (ok <==> CanCreate(old(fs.nodes), p))
  {
    hide WellFormed, Under, ParentOpen;
    var made := fs.CreateDir(p);
    WroteNone(old(fs.nodes), root);
    if made.Done? { WroteNew(old(fs.nodes), p, DirNode(NEW_DIR), root); }
    return made.Done?;
  }

  /** A registry in use: its sealed index, and a directory each for its archives and sources. */
  method SealOneRegistry(fs: FileSystem, source: Registry, root: Path, r: string, budget: SnapshotBudget) returns (ok: bool)
    requires WellFormed(fs.nodes) && TopOpen(fs.nodes, root) && FreeRegistry(fs.nodes, root, r) && ListingsDistinct(source)
    modifies fs`nodes, fs`calls, budget
    ensures WellFormed(fs.nodes) && Wrote(old(fs.nodes), fs.nodes, root)
    ensures ok ==>
              var b := AdmitRegistry(source, r, old(budget.Value()));
              && b.Ok? && budget.Value() == b.value && Indexed(source, r)
              && fs.nodes == old(fs.nodes) + RegistryNodes(root, source, r)
    ensures old(fs.Quiet()) ==> fs.Quiet() && (ok <==> AdmitRegistry(source, r, old(budget.Value())).Ok?)
  {
    hide WellFormed, Under, Wrote, WalkDir, CanCreate, Rendered, Admitted, IndexPath, CachePath, SrcPath;
    ghost var n0 := fs.nodes;
    RegistryPaths(root, r);
    WroteNone(n0, root);
    var admitted := budget.Admit(|"index/" + r|, 0);
    if admitted.Err? || r !in source.index || !source.index[r].Dir? { return false; }
    RegistryCreatable(n0, root, r);
    ok := CopyTree(fs, source.index[r].entries, IndexPath(root, r), [], 0, budget);
    ghost var n1 := fs.nodes;
    WroteNone(n0, root);
    WroteThen(n0, n0, n1, root, IndexPath(root, r));
    if !ok { return; }
    RegistryCreatableAfter(n0, n1, root, r);
    admitted := budget.Admit(|"cache/" + r|, 0);
    if admitted.Err? { return false; }
    ok := MakeDir(fs, CachePath(root, r), root);
    ghost var n2 := fs.nodes;
    UnderSelf(root);
    WroteThen(n0, n1, n2, root, root);
    if !ok { return; }
    SrcCreatableAfter(n1, root, r);
    admitted := budget.Admit(|"src/" + r|, 0);
    if admitted.Err? { return false; }
    ok := MakeDir(fs, SrcPath(root, r), root);
    WroteThen(n0, n2, fs.nodes, root, root);
    if ok {
      ThreePieces(n0, Rendered(IndexPath(root, r), SealedDir(source.index[r].entries)),
                  map[CachePath(root, r) := DirNode(NEW_DIR)], map[SrcPath(root, r) := DirNode(NEW_DIR)]);
    }
  }

  lemma UnderSelf(p: Path)
    ensures Under(p, p)
  {}

  lemma ThreePieces(n: Nodes, a: Nodes, b: Nodes, c: Nodes)
    ensures n + a + b + c == n + (a + b + c)
  {}

  lemma RegistryCreatable(nodes: Nodes, root: Path, r: string)
    requires TopOpen(nodes, root) && FreeRegistry(nodes, root, r)
    ensures CanCreate(nodes, IndexPath(root, r))
  {
    RegistryPaths(root, r);
    OpenCreatable(nodes, IndexPath(root, r));
  }

  lemma RegistryCreatableAfter(before: Nodes, after: Nodes, root: Path, r: string)
    requires TopOpen(before, root) && FreeRegistry(before, root, r) && Wrote(before, after, IndexPath(root, r))
    ensures CanCreate(after, CachePath(root, r)) && CanCreate(after, SrcPath(root, r))
    ensures var src := root + [SrcName()]; src in after && after[src] == DirNode(NEW_DIR)
  {
    RegistryPaths(root, r);
    StillCreatable(before, after, IndexPath(root, r), CachePath(root, r));
    StillCreatable(before, after, IndexPath(root, r), SrcPath(root, r));
  }

  lemma SrcCreatableAfter(nodes: Nodes, root: Path, r: string)
    requires CanCreate(nodes, SrcPath(root, r)) && CanCreate(nodes, CachePath(root, r))
    requires var src := root + [SrcName()]; src in nodes && nodes[src] == DirNode(NEW_DIR)
    ensures CanCreate(nodes + map[CachePath(root, r) := DirNode(NEW_DIR)], SrcPath(root, r))
  {
    RegistryPaths(root, r);
    NewIsWritable();
  }

  // ------------------------------------------------------------------- all registries

  /** One registry's paths are not among another's. */
  lemma RegistriesApart(root: Path, source: Registry, r: string, other: string)
    requires Indexed(source, r) && r != other
    ensures FreeRegistry(RegistryNodes(root, source, r), root, other)
  {
    hide Rendered, Under;
    if Codes(r) == Codes(other) { CodesInjective(r, other); }
    NamesDiffer();
    var k := |root| + 1;
    forall q | q in {IndexPath(root, other), CachePath(root, other), SrcPath(root, other)} ensures q !in RegistryNodes(root, source, r) {
      assert q[k] == Codes(other) && IndexPath(root, r)[k] == Codes(r) && CachePath(root, r)[k] == Codes(r) && SrcPath(root, r)[k] == Codes(r);
      Diverge(IndexPath(root, r), q, k);
      if q in Rendered(IndexPath(root, r), SealedDir(source.index[r].entries)) {
        RenderedUnder(IndexPath(root, r), SealedDir(source.index[r].entries), q);
      }
    }
  }

  lemma {:induction false} AdmitPrefix(source: Registry, used: seq<string>, n: nat, b: Budget)
    requires n <= |used|
    ensures AdmitRegistries(source, used[..n], b).Err? ==> AdmitRegistries(source, used, b).Err?
    decreases |used| - n
  {
    hide AdmitRegistry;
    if n < |used| {
      assert used[..n + 1][..n] == used[..n];
      AdmitPrefix(source, used, n + 1, b);
    } else {
      assert used[..n] == used;
    }
  }

  lemma TopStaysOpen(before: Nodes, after: Nodes, root: Path)
    requires TopOpen(before, root) && Wrote(before, after, root)
    ensures TopOpen(after, root)
  {}

  lemma OneMoreRegistry(root: Path, source: Registry, used: seq<string>, i: nat, was: Nodes, b0: Budget, b: Budget)
    requires i < |used| && AllIndexed(source, used[..i]) && Indexed(source, used[i])
    requires AdmitRegistries(source, used[..i], b0) == Ok(b)
    ensures AllIndexed(source, used[..i + 1])
    ensures was + RegistriesNodes(root, source, used[..i]) + RegistryNodes(root, source, used[i])
         == was + RegistriesNodes(root, source, used[..i + 1])
    ensures AdmitRegistries(source, used[..i + 1], b0) == AdmitRegistry(source, used[i], b)
  {
    hide RegistryNodes, AdmitRegistry;
    assert used[..i + 1][..i] == used[..i];
    PlusAssociative(was, RegistriesNodes(root, source, used[..i]), RegistryNodes(root, source, used[i]));
  }

  ghost predicate FreeRegistries(nodes: Nodes, root: Path, used: seq<string>) {
    forall k :: 0 <= k < |used| ==> FreeRegistry(nodes, root, used[k])
  }

  lemma StillFree(root: Path, source: Registry, used: seq<string>, nodes: Nodes)
    requires used != [] && Distinct(used) && Indexed(source, used[0]) && FreeRegistries(nodes, root, used)
    ensures FreeRegistries(nodes + RegistryNodes(root, source, used[0]), root, used[1..]) && Distinct(used[1..])
  {
    hide RegistryNodes, IndexPath, CachePath, SrcPath;
    forall k | 0 <= k < |used[1..]| ensures FreeRegistry(nodes + RegistryNodes(root, source, used[0]), root, used[1..][k]) {
      assert used[1..][k] == used[k + 1] && FreeRegistry(nodes, root, used[k + 1]);
      RegistriesApart(root, source, used[0], used[k + 1]);
    }
  }

  method SealRegistries(fs: FileSystem, source: Registry, root: Path, used: seq<string>, budget: SnapshotBudget) returns (ok: bool)
    requires WellFormed(fs.nodes) && TopOpen(fs.nodes, root) && ListingsDistinct(source)
    requires Distinct(used) && FreeRegistries(fs.nodes, root, used)
    modifies fs`nodes, fs`calls, budget
    ensures WellFormed(fs.nodes) && Wrote(old(fs.nodes), fs.nodes, root)
    ensures ok ==>
              && AdmitRegistries(source, used, old(budget.Value())) == Ok(budget.Value())
              && AllIndexed(source, used)
              && fs.nodes == old(fs.nodes) + RegistriesNodes(root, source, used)
    ensures old(fs.Quiet()) ==> fs.Quiet() && (ok <==> AdmitRegistries(source, used, old(budget.Value())).Ok?)
  {
    hide WellFormed, Wrote, RegistryNodes, AdmitRegistry, FreeRegistry, Under, ListingsDistinct, TopOpen, Distinct;
    ghost var n0, b0 := fs.nodes, budget.Value();
    WroteNone(n0, root);
    UnderSelf(root);
    assert used[..0] == [] && used[0..] == used;
    for i := 0 to |used|
      invariant WellFormed(fs.nodes) && Wrote(n0, fs.nodes, root) && TopOpen(fs.nodes, root)
      invariant Distinct(used[i..]) && FreeRegistries(fs.nodes, root, used[i..])
      invariant AdmitRegistries(source, used[..i], b0) == Ok(budget.Value())
      invariant AllIndexed(source, used[..i]) && fs.nodes == n0 + RegistriesNodes(root, source, used[..i])
      invariant old(fs.Quiet()) ==> fs.Quiet()
    {
      ghost var was, rest, b := fs.nodes, used[i..], budget.Value();
      assert rest[0] == used[i] && rest[1..] == used[i + 1..];
      ok := SealOneRegistry(fs, source, root, used[i], budget);
      WroteThen(n0, was, fs.nodes, root, root);
      AdmitStep(source, used, i, b0, b);
      if !ok { return; }
      TopStaysOpen(was, fs.nodes, root);
      StillFree(root, source, rest, was);
      OneMoreRegistry(root, source, used, i, n0, b0, b);
    }
    assert used[..|used|] == used;
    return true;
  }

  lemma AdmitStep(source: Registry, used: seq<string>, i: nat, b0: Budget, b: Budget)
    requires i < |used| && AdmitRegistries(source, used[..i], b0) == Ok(b)
    ensures AdmitRegistry(source, used[i], b).Err? ==> AdmitRegistries(source, used, b0).Err?
  {
    hide AdmitRegistry;
    assert used[..i + 1][..i] == used[..i];
    AdmitPrefix(source, used, i + 1, b0);
  }

  // ----------------------------------------------------------------------- one package

  lemma HomePaths(root: Path, home: Home)
    ensures Under(root, ArchivePath(root, home)) && Under(root, UnpackedPath(root, home))
    ensures Parent(ArchivePath(root, home)) == CachePath(root, home.registry)
    ensures Parent(UnpackedPath(root, home)) == SrcPath(root, home.registry)
    ensures ArchivePath(root, home) != [] && UnpackedPath(root, home) != []
    ensures !Under(ArchivePath(root, home), UnpackedPath(root, home))
  {
    NamesDiffer();
    Diverge(ArchivePath(root, home), UnpackedPath(root, home), |root|);
  }

  ghost predicate DirsOpen(nodes: Nodes, root: Path, r: string) {
    && CachePath(root, r) in nodes && nodes[CachePath(root, r)] == DirNode(NEW_DIR)
    && SrcPath(root, r) in nodes && nodes[SrcPath(root, r)] == DirNode(NEW_DIR)
  }

  lemma HomeCreatable(nodes: Nodes, root: Path, home: Home)
    requires DirsOpen(nodes, root, home.registry)
    ensures ArchivePath(root, home) !in nodes <==> CanCreate(nodes, ArchivePath(root, home))
    ensures UnpackedPath(root, home) !in nodes <==> CanCreate(nodes, UnpackedPath(root, home))
  {
    HomePaths(root, home);
    NewIsWritable();
  }

  lemma HomeCreatableAfter(before: Nodes, after: Nodes, root: Path, home: Home)
    requires DirsOpen(before, root, home.registry) && Wrote(before, after, ArchivePath(root, home))
    ensures DirsOpen(after, root, home.registry)
    ensures UnpackedPath(root, home) in after <==> UnpackedPath(root, home) in before
  {
    HomePaths(root, home);
  }

  /** One package: its archive under a new name with the locked digest, then its unpacked source. */
  method SealHome(h: Hash, fs: FileSystem, source: Registry, root: Path, home: Home, budget: SnapshotBudget) returns (ok: bool)
    requires WellFormed(fs.nodes) && DirsOpen(fs.nodes, root, home.registry) && ListingsDistinct(source)
    requires Housed(source, home) && Matches(h, source, home.registry, home.package)
    modifies fs`nodes, fs`calls, budget
    ensures WellFormed(fs.nodes) && Wrote(old(fs.nodes), fs.nodes, root)
    ensures ok ==>
              && AdmitHome(source, home, old(budget.Value())) == Ok(budget.Value())
              && FreeHome(old(fs.nodes), root, home)
              && fs.nodes == old(fs.nodes) + HomeNodes(root, source, home)
    ensures old(fs.Quiet()) ==>
              fs.Quiet() && (ok <==> AdmitHome(source, home, old(budget.Value())).Ok? && FreeHome(old(fs.nodes), root, home))
  {
    var archive, entries := ArchiveOf(source, home), SourceOf(source, home);
    assert M.DistinctNames(entries) && h(archive.content) == home.package.checksum;
    hide WellFormed, Under, Wrote, WalkDir, CanCreate, Rendered, Admitted, ArchivePath, UnpackedPath, DirsOpen, ListingsDistinct,
         ArchiveName, SourceName, Unpacked, Matches;
    ghost var n0 := fs.nodes;
    HomePaths(root, home);
    HomeCreatable(n0, root, home);
    WroteNone(n0, root);
    var admitted := budget.Admit(|"cache/" + home.registry + "/" + ArchiveName(home.package)|, |archive.content|);
    if admitted.Err? { return false; }
    ok := CopyFile(fs, ArchivePath(root, home), archive.content, archive.mode);
    ghost var n1 := fs.nodes;
    WroteThen(n0, n0, n1, root, ArchivePath(root, home));
    if !ok { return; }
    if h(archive.content) != home.package.checksum { return false; }
    HomeCreatableAfter(n0, n1, root, home);
    HomeCreatable(n1, root, home);
    admitted := budget.Admit(|"src/" + home.registry + "/" + SourceName(home.package)|, 0);
    if admitted.Err? { return false; }
    ok := CopyTree(fs, entries, UnpackedPath(root, home), [], 0, budget);
    WroteThen(n0, n1, fs.nodes, root, UnpackedPath(root, home));
    if ok {
      PlusAssociative(n0, map[ArchivePath(root, home) := FileNode(archive.content, M.SealMode(archive.mode))],
                      Rendered(UnpackedPath(root, home), SealedDir(entries)));
    }
  }

  // --------------------------------------------------------------------- all packages

  /** Two packages of one registry whose files would have the same names. */
  predicate Clash(a: Home, b: Home) { a.registry == b.registry && SourceName(a.package) == SourceName(b.package) }

  predicate NamesApart(homes: seq<Home>) { forall i, j :: 0 <= i < j < |homes| ==> !Clash(homes[i], homes[j]) }

  lemma ArchiveClash(a: LockedPackage, b: LockedPackage)
    ensures ArchiveName(a) == ArchiveName(b) <==> SourceName(a) == SourceName(b)
  {
    var x, y := SourceName(a), SourceName(b);
    assert ArchiveName(a) == x + ".crate" && ArchiveName(b) == y + ".crate";
    if x + ".crate" == y + ".crate" { assert x == (x + ".crate")[..|x|] && y == (y + ".crate")[..|y|]; }
  }

  /** What one package writes is in the way of another exactly when they clash. */
  lemma HomeInTheWay(root: Path, source: Registry, a: Home, b: Home)
    requires Housed(source, a)
    ensures FreeHome(HomeNodes(root, source, a), root, b) <==> !Clash(a, b)
  {
    hide Rendered, Under, SourceName, ArchiveName, Housed;
    ArchiveClash(a.package, b.package);
    NamesDiffer();
    var x, y, u, v := ArchivePath(root, a), ArchivePath(root, b), UnpackedPath(root, a), UnpackedPath(root, b);
    var k := |root|;
    assert x[k] == CacheName() == y[k] && u[k] == SrcName() == v[k];
    assert x[k + 1] == Codes(a.registry) == u[k + 1] && y[k + 1] == Codes(b.registry) == v[k + 1];
    assert x[k + 2] == Codes(ArchiveName(a.package)) && y[k + 2] == Codes(ArchiveName(b.package));
    assert u[k + 2] == Codes(SourceName(a.package)) && v[k + 2] == Codes(SourceName(b.package));
    if Codes(a.registry) == Codes(b.registry) { CodesInjective(a.registry, b.registry); }
    if x[k + 2] == y[k + 2] { CodesInjective(ArchiveName(a.package), ArchiveName(b.package)); }
    if u[k + 2] == v[k + 2] { CodesInjective(SourceName(a.package), SourceName(b.package)); }
    Diverge(u, y, k);
    if !Clash(a, b) { Diverge(u, v, if a.registry != b.registry then k + 1 else k + 2); }
    forall q | q in Rendered(u, SealedDir(SourceOf(source, a))) ensures Under(u, q) { RenderedUnder(u, SealedDir(SourceOf(source, a)), q); }
  }

  lemma {:induction false} HomesInTheWay(root: Path, source: Registry, homes: seq<Home>, b: Home)
    requires AllHoused(source, homes)
    ensures FreeHome(HomesNodes(root, source, homes), root, b) <==> forall i :: 0 <= i < |homes| ==> !Clash(homes[i], b)
  {
    hide HomeNodes, Housed, ArchivePath, UnpackedPath, Clash;
    if homes != [] {
      HomesInTheWay(root, source, homes[..|homes| - 1], b);
      HomeInTheWay(root, source, homes[|homes| - 1], b);
    }
  }

  lemma {:induction false} AdmitHomesPrefix(source: Registry, homes: seq<Home>, n: nat, b: Budget)
    requires n <= |homes| && AllHoused(source, homes)
    ensures AdmitHomes(source, homes[..n], b).Err? ==> AdmitHomes(source, homes, b).Err?
    decreases |homes| - n
  {
    hide AdmitHome, Housed;
    if n < |homes| {
      assert homes[..n + 1][..n] == homes[..n];
      AdmitHomesPrefix(source, homes, n + 1, b);
    } else {
      assert homes[..n] == homes;
    }
  }

  /** The step from i packages to i + 1, or the reason why there is none. */
  lemma HomesStep(root: Path, source: Registry, homes: seq<Home>, i: nat, n0: Nodes, b0: Budget, b: Budget)
    requires i < |homes| && AllHoused(source, homes) && NamesApart(homes[..i])
    requires AdmitHomes(source, homes[..i], b0) == Ok(b) && FreeHome(n0, root, homes[i])
    ensures var now := n0 + HomesNodes(root, source, homes[..i]);
            && (FreeHome(now, root, homes[i]) <==> NamesApart(homes[..i + 1]))
            && now + HomeNodes(root, source, homes[i]) == n0 + HomesNodes(root, source, homes[..i + 1])
            && AdmitHomes(source, homes[..i + 1], b0) == AdmitHome(source, homes[i], b)
            && (AdmitHome(source, homes[i], b).Err? ==> AdmitHomes(source, homes, b0).Err?)
            && (!NamesApart(homes[..i + 1]) ==> !NamesApart(homes))
  {
    hide HomeNodes, AdmitHome, Housed, ArchivePath, UnpackedPath, Clash;
    var more := homes[..i + 1];
    assert more[..i] == homes[..i] && more[i] == homes[i];
    HomesInTheWay(root, source, homes[..i], homes[i]);
    PlusAssociative(n0, HomesNodes(root, source, homes[..i]), HomeNodes(root, source, homes[i]));
    AdmitHomesPrefix(source, homes, i + 1, b0);
  }

  ghost predicate AllMatch(h: Hash, source: Registry, homes: seq<Home>) {
    forall i :: 0 <= i < |homes| ==> Matches(h, source, homes[i].registry, homes[i].package)
  }

  ghost predicate AllOpen(nodes: Nodes, root: Path, homes: seq<Home>) {
    forall i :: 0 <= i < |homes| ==> DirsOpen(nodes, root, homes[i].registry)
  }

  lemma StillOpen(before: Nodes, after: Nodes, root: Path, homes: seq<Home>)
    requires AllOpen(before, root, homes) && Wrote(before, after, root)
    ensures AllOpen(after, root, homes)
  {
    hide CachePath, SrcPath, Under;
  }

  ghost predicate AllFree(nodes: Nodes, root: Path, homes: seq<Home>) {
    forall i :: 0 <= i < |homes| ==> FreeHome(nodes, root, homes[i])
  }

  method SealHomes(h: Hash, fs: FileSystem, source: Registry, root: Path, homes: seq<Home>, budget: SnapshotBudget) returns (ok: bool)
    requires WellFormed(fs.nodes) && AllOpen(fs.nodes, root, homes) && AllFree(fs.nodes, root, homes) && ListingsDistinct(source)
    requires AllHoused(source, homes) && AllMatch(h, source, homes)
    modifies fs`nodes, fs`calls, budget
    ensures WellFormed(fs.nodes) && Wrote(old(fs.nodes), fs.nodes, root)
    ensures ok ==>
              && AdmitHomes(source, homes, old(budget.Value())) == Ok(budget.Value()) && NamesApart(homes)
              && fs.nodes == old(fs.nodes) + HomesNodes(root, source, homes)
    ensures old(fs.Quiet()) ==>
              fs.Quiet() && (ok <==> AdmitHomes(source, homes, old(budget.Value())).Ok? && NamesApart(homes))
  {
    hide WellFormed, Wrote, HomeNodes, AdmitHome, FreeHome, Under, ListingsDistinct, DirsOpen, Housed, Clash, Matches, NamesApart;
    ghost var n0, b0 := fs.nodes, budget.Value();
    WroteNone(n0, root);
    UnderSelf(root);
    assert homes[..0] == [];
    NoNames();
    for i := 0 to |homes|
      invariant WellFormed(fs.nodes) && Wrote(n0, fs.nodes, root) && AllOpen(fs.nodes, root, homes)
      invariant NamesApart(homes[..i]) && AdmitHomes(source, homes[..i], b0) == Ok(budget.Value())
      invariant fs.nodes == n0 + HomesNodes(root, source, homes[..i])
      invariant old(fs.Quiet()) ==> fs.Quiet()
    {
      ghost var was, b := fs.nodes, budget.Value();
      HomesStep(root, source, homes, i, n0, b0, b);
      ok := SealHome(h, fs, source, root, homes[i], budget);
      WroteThen(n0, was, fs.nodes, root, root);
      if !ok { return; }
      StillOpen(was, fs.nodes, root, homes);
    }
    assert homes[..|homes|] == homes;
    return true;
  }

  lemma NoNames()
    ensures NamesApart([])
  {}

  // ------------------------------------------------------------------ the outer frame

  lemma TopCreatable(nodes: Nodes, root: Path, name: Bytes)
    requires root in nodes && nodes[root] == DirNode(NEW_DIR)
    ensures Under(root, root + [name])
    ensures root + [name] !in nodes <==> CanCreate(nodes, root + [name])
  {
    ChildPath(root, name, nodes);
  }

  lemma TopFree(nodes: Nodes, root: Path)
    requires WellFormed(nodes) && root !in nodes
    ensures forall p :: p in nodes ==> !Under(root, p)
    ensures forall name: Bytes :: root + [name] !in nodes && root + [name] != root
  {
    MissingIsAbsent(nodes, root);
    forall name: Bytes ensures root + [name] !in nodes && root + [name] != root {
      assert (root + [name])[..|root|] == root && |root + [name]| != |root|;
    }
  }

  /** The target directory and its three parts. */
  method CreateTop(fs: FileSystem, root: Path) returns (ok: bool)
    requires WellFormed(fs.nodes)
    modifies fs`nodes, fs`calls
    ensures WellFormed(fs.nodes) && Wrote(old(fs.nodes), fs.nodes, root)
    ensures ok ==> CanCreate(old(fs.nodes), root) && fs.nodes == old(fs.nodes) + Top(root)
    ensures old(fs.Quiet()) ==> fs.Quiet() && (ok <==> CanCreate(old(fs.nodes), root))
  {
    ghost var n0 := fs.nodes;
    UnderSelf(root);
    TopNames(root);
    hide WellFormed, Wrote, CanCreate, Under, IndexName, CacheName, SrcName, Top;
    ok := MakeDir(fs, root, root);
    ghost var n1 := fs.nodes;
    if !ok { return; }
    TopSteps(n0, root);
    ok := MakeDir(fs, root + [IndexName()], root);
    ghost var n2 := fs.nodes;
    WroteThen(n0, n1, n2, root, root);
    if !ok { return; }
    ok := MakeDir(fs, root + [CacheName()], root);
    ghost var n3 := fs.nodes;
    WroteThen(n0, n2, n3, root, root);
    if !ok { return; }
    ok := MakeDir(fs, root + [SrcName()], root);
    WroteThen(n0, n3, fs.nodes, root, root);
  }

  lemma TopSteps(n0: Nodes, root: Path)
    requires WellFormed(n0) && CanCreate(n0, root)
    ensures var n1 := n0 + map[root := DirNode(NEW_DIR)];
            var n2 := n1 + map[root + [IndexName()] := DirNode(NEW_DIR)];
            var n3 := n2 + map[root + [CacheName()] := DirNode(NEW_DIR)];
            && CanCreate(n1, root + [IndexName()]) && CanCreate(n2, root + [CacheName()]) && CanCreate(n3, root + [SrcName()])
            && n3 + map[root + [SrcName()] := DirNode(NEW_DIR)] == n0 + Top(root)
  {
    var n1 := n0 + map[root := DirNode(NEW_DIR)];
    var n2 := n1 + map[root + [IndexName()] := DirNode(NEW_DIR)];
    var n3 := n2 + map[root + [CacheName()] := DirNode(NEW_DIR)];
    TopFree(n0, root);
    TopNames(root);
    TopCreatable(n1, root, IndexName());
    TopCreatable(n2, root, CacheName());
    TopCreatable(n3, root, SrcName());
    hide IndexName, CacheName, SrcName, CanCreate, WellFormed, Under;
    FourPieces(n0, map[root := DirNode(NEW_DIR)], map[root + [IndexName()] := DirNode(NEW_DIR)],
               map[root + [CacheName()] := DirNode(NEW_DIR)], map[root + [SrcName()] := DirNode(NEW_DIR)]);
  }

  lemma TopNames(root: Path)
    ensures root + [IndexName()] != root + [CacheName()] && root + [IndexName()] != root + [SrcName()]
    ensures root + [CacheName()] != root + [SrcName()]
    ensures Under(root, root + [IndexName()]) && Under(root, root + [CacheName()]) && Under(root, root + [SrcName()])
  {
    NamesDiffer();
    Diverge(root + [IndexName()], root + [CacheName()], |root|);
    Diverge(root + [IndexName()], root + [SrcName()], |root|);
    Diverge(root + [CacheName()], root + [SrcName()], |root|);
  }

  lemma FrameReady(n0: Nodes, root: Path, used: seq<string>)
    requires WellFormed(n0) && root !in n0
    ensures TopOpen(n0 + Top(root), root) && FreeRegistries(n0 + Top(root), root, used)
  {
    TopFree(n0, root);
    TopNames(root);
    forall k | 0 <= k < |used| ensures FreeRegistry(n0 + Top(root), root, used[k]) { RegistryPaths(root, used[k]); }
  }

  /** Below the registries' own directories, only indexes are there before the packages. */
  lemma {:induction false} RegistriesShallow(root: Path, source: Registry, used: seq<string>, q: Path)
    requires AllIndexed(source, used) && q in RegistriesNodes(root, source, used)
    ensures |q| >= |root| + 2 && (q[|root|] == IndexName() || |q| == |root| + 2)
  {
    hide Rendered;
    var r := used[|used| - 1];
    if q in RegistryNodes(root, source, r) {
      if q in Rendered(IndexPath(root, r), SealedDir(source.index[r].entries)) {
        RenderedUnder(IndexPath(root, r), SealedDir(source.index[r].entries), q);
        assert q[..|root| + 2][|root|] == q[|root|] && IndexPath(root, r)[|root|] == IndexName();
      }
    } else {
      RegistriesShallow(root, source, used[..|used| - 1], q);
    }
  }

  lemma {:induction false} RegistriesOpen(root: Path, source: Registry, used: seq<string>, r: string)
    requires AllIndexed(source, used) && r in used
    ensures DirsOpen(RegistriesNodes(root, source, used), root, r)
  {
    hide Rendered, Indexed;
    var init, last := used[..|used| - 1], used[|used| - 1];
    assert used == init + [last];
    RegistryPaths(root, last);
    if r == last {
      LastOpen(root, source, last);
    } else {
      RegistriesOpen(root, source, init, r);
      RegistriesApart(root, source, last, r);
    }
  }

  lemma LastOpen(root: Path, source: Registry, r: string)
    requires Indexed(source, r)
    ensures DirsOpen(RegistryNodes(root, source, r), root, r)
  {
    hide Rendered;
    RegistryPaths(root, r);
  }

  lemma PackagesReady(n0: Nodes, root: Path, source: Registry, used: seq<string>, homes: seq<Home>)
    requires WellFormed(n0) && root !in n0 && AllIndexed(source, used)
    requires forall i :: 0 <= i < |homes| ==> homes[i].registry in used
    ensures var n := n0 + Top(root) + RegistriesNodes(root, source, used); AllOpen(n, root, homes) && AllFree(n, root, homes)
  {
    var n := n0 + Top(root) + RegistriesNodes(root, source, used);
    hide RegistriesNodes, Top, CachePath, SrcPath, WellFormed, AllIndexed, FreeHome;
    forall i | 0 <= i < |homes| ensures DirsOpen(n, root, homes[i].registry) {
      RegistriesOpen(root, source, used, homes[i].registry);
    }
    forall i | 0 <= i < |homes| ensures FreeHome(n, root, homes[i]) {
      PackageReady(n0, root, source, used, homes[i]);
    }
  }

  lemma TopShallow(root: Path, q: Path)
    ensures q in Top(root) ==> |q| <= |root| + 1
  {}

  lemma PackageReady(n0: Nodes, root: Path, source: Registry, used: seq<string>, home: Home)
    requires WellFormed(n0) && root !in n0 && AllIndexed(source, used)
    ensures FreeHome(n0 + Top(root) + RegistriesNodes(root, source, used), root, home)
  {
    TopFree(n0, root);
    HomePaths(root, home);
    NamesDiffer();
    var a, u := ArchivePath(root, home), UnpackedPath(root, home);
    assert |a| == |root| + 3 == |u| && a[|root|] == CacheName() && u[|root|] == SrcName();
    hide RegistriesNodes, ArchivePath, UnpackedPath, Under, WellFormed, IndexName, CacheName, SrcName, Top;
    TopShallow(root, a);
    TopShallow(root, u);
    if a in RegistriesNodes(root, source, used) { RegistriesShallow(root, source, used, a); }
    if u in RegistriesNodes(root, source, used) { RegistriesShallow(root, source, used, u); }
  }

  // ------------------------------------------------------------- sealing the directories

  function Skeleton(root: Path, used: seq<string>): set<Path> {
    {root, root + [IndexName()], root + [CacheName()], root + [SrcName()]}
    + (set i | 0 <= i < |used| :: CachePath(root, used[i])) + (set i | 0 <= i < |used| :: SrcPath(root, used[i]))
  }

  function SealedDirs(dirs: set<Path>): Nodes { map q | q in dirs :: DirNode(M.SEALED_DIR) }

  method SealDirs(fs: FileSystem, dirs: set<Path>, ghost n0: Nodes, ghost root: Path) returns (ok: bool)
    requires WellFormed(fs.nodes) && Wrote(n0, fs.nodes, root)
    requires forall q :: q in dirs ==> q in fs.nodes && fs.nodes[q].DirNode? && q !in n0
    modifies fs`nodes, fs`calls
    ensures WellFormed(fs.nodes) && Wrote(n0, fs.nodes, root)
    ensures ok ==> fs.nodes == old(fs.nodes) + SealedDirs(dirs)
    ensures old(fs.Quiet()) ==> fs.Quiet() && ok
  {
    hide WellFormed, Wrote, SealedDirs;
    ghost var n1 := fs.nodes;
    NoneSealed(n1);
    assert dirs - dirs == {};
    var todo := dirs;
    while todo != {}
      invariant todo <= dirs && WellFormed(fs.nodes) && Wrote(n0, fs.nodes, root)
      invariant fs.nodes == n1 + SealedDirs(dirs - todo)
      invariant old(fs.Quiet()) ==> fs.Quiet()
    {
      var q :| q in todo;
      ghost var was, done := fs.nodes, dirs - todo;
      OneSealed(n1, done, q);
      WroteMode(n0, was, root, q, M.SEALED_DIR);
      var sealed := fs.Chmod(q, M.SEALED_DIR);
      if sealed.Failed? { return false; }
      todo := todo - {q};
      assert dirs - todo == done + {q};
    }
    assert dirs - todo == dirs;
    return true;
  }

  lemma NoneSealed(n: Nodes)
    ensures n + SealedDirs({}) == n
  {}

  lemma OneSealed(n: Nodes, done: set<Path>, q: Path)
    requires q in n && n[q].DirNode? && q !in done
    ensures (n + SealedDirs(done))[q] == n[q]
    ensures (n + SealedDirs(done))[q := n[q].(mode := M.SEALED_DIR)] == n + SealedDirs(done + {q})
  {}

  /** The sealed registry, path by path. */
  function SealedNodes(root: Path, source: Registry, used: seq<string>, homes: seq<Home>): Nodes
    requires AllIndexed(source, used) && AllHoused(source, homes)
  {
    Top(root) + RegistriesNodes(root, source, used) + HomesNodes(root, source, homes) + SealedDirs(Skeleton(root, used))
  }

  lemma SkeletonThere(n0: Nodes, n: Nodes, root: Path, source: Registry, used: seq<string>)
    requires WellFormed(n0) && root !in n0 && AllIndexed(source, used)
    requires Wrote(n0 + Top(root) + RegistriesNodes(root, source, used), n, root)
    ensures forall q :: q in Skeleton(root, used) ==> q in n && n[q].DirNode? && q !in n0
  {
    hide RegistriesNodes, Top, WellFormed, AllIndexed, Under;
    var n1 := n0 + Top(root) + RegistriesNodes(root, source, used);
    TopFree(n0, root);
    forall q | q in Skeleton(root, used) ensures q in n1 && n1[q].DirNode? && Under(root, q) {
      SkeletonPart(root, used, q);
      if i :| 0 <= i < |used| && (q == CachePath(root, used[i]) || q == SrcPath(root, used[i])) {
        RegistriesOpen(root, source, used, used[i]);
        RegistryPaths(root, used[i]);
      } else {
        TopThere(root, source, used, q);
      }
    }
  }

  lemma SkeletonPart(root: Path, used: seq<string>, q: Path)
    requires q in Skeleton(root, used)
    ensures q in {root, root + [IndexName()], root + [CacheName()], root + [SrcName()]}
            || exists i :: 0 <= i < |used| && (q == CachePath(root, used[i]) || q == SrcPath(root, used[i]))
  {}

  lemma TopThere(root: Path, source: Registry, used: seq<string>, q: Path)
    requires AllIndexed(source, used) && q in {root, root + [IndexName()], root + [CacheName()], root + [SrcName()]}
    ensures q in Top(root) && Top(root)[q].DirNode? && Under(root, q) && q !in RegistriesNodes(root, source, used)
  {
    TopNames(root);
    UnderSelf(root);
    hide RegistriesNodes, IndexName, CacheName, SrcName, Under;
    if q in RegistriesNodes(root, source, used) { RegistriesShallow(root, source, used, q); }
  }

  // ------------------------------------------------------------------------ the whole seal

  /** The budget covers the indexes of the registries in use and then the packages. */
  ghost predicate Affordable(source: Registry, homes: seq<Home>) {
    && AllHoused(source, homes)
    && var b := AdmitRegistries(source, RegistriesOf(homes), EMPTY_BUDGET);
       b.Ok? && AdmitHomes(source, homes, b.value).Ok?
  }

  /** What a seal needs of lockfile and registry. */
  ghost predicate Sealable(h: Hash, rows: seq<LockRow>, source: Registry, homes: seq<Home>) {
    && AllAdmissible(rows) && PackagesOf(rows) != []
    && Listable(source)
    && HomesFor(h, source, PackagesOf(rows), homes)
    && Affordable(source, homes)
    && NamesApart(homes)
  }

  lemma HomesAreHoused(h: Hash, source: Registry, packages: seq<LockedPackage>, homes: seq<Home>)
    requires HomesFor(h, source, packages, homes)
    ensures AllHoused(source, homes) && AllMatch(h, source, homes)
  {
    forall i | 0 <= i < |homes| ensures Housed(source, homes[i]) && Matches(h, source, homes[i].registry, homes[i].package) {
      assert homes[i].registry in Candidates(h, source, packages[i]);
    }
  }

  lemma {:induction false} AdmittedAreIndexed(source: Registry, used: seq<string>, b: Budget)
    ensures AdmitRegistries(source, used, b).Ok? ==> AllIndexed(source, used)
  {
    if used != [] {
      AdmittedAreIndexed(source, used[..|used| - 1], b);
      assert used == used[..|used| - 1] + [used[|used| - 1]];
    }
    hide WalkDir, Admitted, Indexed;
  }

  /** The sealed trees, from a plan: frame, indexes, packages, modes. */
  method SealPlan(h: Hash, fs: FileSystem, source: Registry, root: Path, used: seq<string>, homes: seq<Home>) returns (ok: bool)
    requires WellFormed(fs.nodes) && ListingsDistinct(source) && AllHoused(source, homes) && AllMatch(h, source, homes)
    requires used == RegistriesOf(homes)
    modifies fs`nodes, fs`calls
    ensures WellFormed(fs.nodes) && Wrote(old(fs.nodes), fs.nodes, root)
    ensures ok ==> && CanCreate(old(fs.nodes), root) && Affordable(source, homes) && NamesApart(homes)
                   && AllIndexed(source, used)
                   && fs.nodes == old(fs.nodes) + SealedNodes(root, source, used, homes)
    ensures old(fs.Quiet()) ==>
              fs.Quiet() && (ok <==> CanCreate(old(fs.nodes), root) && Affordable(source, homes) && NamesApart(homes))
  {
    hide WellFormed, Wrote, Under, ListingsDistinct, TopOpen, FreeRegistries, AllOpen, AllFree, AllHoused, AllMatch, NamesApart,
         AdmitRegistries, AdmitHomes, RegistriesNodes, HomesNodes, Top, AllIndexed, Skeleton, SealedDirs, Distinct, ParentOpen;
    ghost var n0 := fs.nodes;
    UnderSelf(root);
    RegistriesExact(homes);
    ok := CreateTop(fs, root);
    if !ok { return; }
    FrameReady(n0, root, used);
    ghost var n1 := fs.nodes;
    var budget := new SnapshotBudget();
    ok := SealRegistries(fs, source, root, used, budget);
    ghost var n2 := fs.nodes;
    WroteThen(n0, n1, n2, root, root);
    if !ok { return; }
    PackagesReady(n0, root, source, used, homes);
    ok := SealHomes(h, fs, source, root, homes, budget);
    ghost var n3 := fs.nodes;
    WroteThen(n0, n2, n3, root, root);
    if !ok { return; }
    SkeletonThere(n0, n3, root, source, used);
    ok := SealDirs(fs, Skeleton(root, used), n0, root);
    if ok {
      FourPieces(n0, Top(root), RegistriesNodes(root, source, used), HomesNodes(root, source, homes), SealedDirs(Skeleton(root, used)));
    }
  }

  lemma FourPieces(n: Nodes, a: Nodes, b: Nodes, c: Nodes, d: Nodes)
    ensures n + a + b + c + d == n + (a + b + c + d)
  {}

  /** A sealed registry stands at the target: exactly the plan of the lockfile, path by path. */
  ghost predicate SealedAt(h: Hash, rows: seq<LockRow>, source: Registry, root: Path, before: Nodes, after: Nodes, homes: seq<Home>) {
    && Sealable(h, rows, source, homes)
    && AllIndexed(source, RegistriesOf(homes))
    && after == before + SealedNodes(root, source, RegistriesOf(homes), homes)
  }

  method SealInto(h: Hash, fs: FileSystem, rows: seq<LockRow>, source: Registry, root: Path) returns (ok: bool, homes: seq<Home>)
    requires WellFormed(fs.nodes) && ListingsDistinct(source)
    modifies fs`nodes, fs`calls
    ensures WellFormed(fs.nodes) && Wrote(old(fs.nodes), fs.nodes, root)
    ensures ok ==> CanCreate(old(fs.nodes), root) && SealedAt(h, rows, source, root, old(fs.nodes), fs.nodes, homes)
    ensures old(fs.Quiet()) ==>
              fs.Quiet() && (ok <==> CanCreate(old(fs.nodes), root) && exists plan :: Sealable(h, rows, source, plan))
  {
    hide WellFormed, Wrote, ListingsDistinct, AllHoused, AllMatch, NamesApart, Affordable, AllIndexed, HomesFor, Listable, AllAdmissible,
         Resolvable, CanCreate;
    ghost var n0 := fs.nodes;
    WroteNone(n0, root);
    ok, homes := false, [];
    var packages := LockedPackages(rows);
    if packages.None? || !Listable(source) { return; }
    var resolved := Resolve(h, source, packages.value);
    ResolvedOnly(h, source, packages.value);
    if resolved.None? { return; }
    homes := resolved.value;
    HomesAreHoused(h, source, packages.value, homes);
    forall other | HomesFor(h, source, packages.value, other) ensures other == homes {
      HomesUnique(h, source, packages.value, other, homes);
    }
    var used := UsedRegistries(homes);
    ok := SealPlan(h, fs, source, root, used, homes);
  }

  /** A lockfile and a registry have at most one plan. */
  lemma PlanUnique(h: Hash, rows: seq<LockRow>, source: Registry, a: seq<Home>, b: seq<Home>)
    requires Sealable(h, rows, source, a) && Sealable(h, rows, source, b)
    ensures a == b
  {
    HomesUnique(h, source, PackagesOf(rows), a, b);
  }

  lemma ResolvedOnly(h: Hash, source: Registry, packages: seq<LockedPackage>)
    ensures forall homes :: HomesFor(h, source, packages, homes) ==> forall i :: 0 <= i < |packages| ==> Resolvable(h, source, packages[i])
  {
    hide Resolvable, Candidates;
  }

  /**
    The whole seal.  Undisturbed, and with a target that can be created, it succeeds exactly when
    lockfile and registry are sealable, and otherwise leaves nothing at the target.  Success
    means exactly the plan is there; a refusal means the target is absent; nothing else changes.
   */
  method SealRegistry(h: Hash, fs: FileSystem, rows: seq<LockRow>, source: Registry, root: Path) returns (r: Seal, homes: seq<Home>)
    requires WellFormed(fs.nodes) && ListingsDistinct(source)
    modifies fs`nodes, fs`calls
    ensures WellFormed(fs.nodes) && SameOutside(old(fs.nodes), fs.nodes, root)
    ensures r.Sealed? ==> root !in old(fs.nodes) && SealedAt(h, rows, source, root, old(fs.nodes), fs.nodes, homes)
    ensures r.Refused? ==> Absent(fs.nodes, root)
    ensures NoSpecialUnder(old(fs.nodes), root) ==> NoSpecialUnder(fs.nodes, root)
    ensures old(fs.Quiet()) ==> fs.Quiet()
    ensures old(fs.Quiet()) && CanCreate(old(fs.nodes), root) ==>
              (r.Sealed? <==> exists plan :: Sealable(h, rows, source, plan)) && !r.CleanupFailed?
  {
    hide WellFormed, Wrote, SameOutside, Absent, NoSpecialUnder, ParentOpen, ListingsDistinct, Sealable, SealedAt;
    ghost var n0 := fs.nodes;
    var ok;
    ok, homes := SealInto(h, fs, rows, source, root);
    ghost var n1 := fs.nodes;
    WroteOutside(n0, n1, root);
    if NoSpecialUnder(n0, root) { WrotePlain(n0, n1, root); }
    r := Sealed;
    if ok { return; }
    if root !in n0 { MissingIsAbsent(n0, root); WrotePlain(n0, n1, root); }
    OutsideParent(n0, n1, root);
    r := Undo(fs, root);
    OutsideThen(n0, n1, fs.nodes, root);
  }

  // ------------------------------------------------------------- exactly the locked packages

  lemma {:induction false} HomesMember(root: Path, source: Registry, homes: seq<Home>, q: Path)
    requires AllHoused(source, homes)
    ensures q in HomesNodes(root, source, homes) <==> exists home :: home in homes && Housed(source, home) && q in HomeNodes(root, source, home)
  {
    hide HomeNodes, Housed;
    if homes != [] {
      assert homes == homes[..|homes| - 1] + [homes[|homes| - 1]];
      HomesMember(root, source, homes[..|homes| - 1], q);
    }
  }

  /** Three steps below the target, outside the indexes, only packages are found. */
  lemma OnlyPackages(root: Path, source: Registry, used: seq<string>, homes: seq<Home>, q: Path)
    requires AllIndexed(source, used) && AllHoused(source, homes)
    requires |q| == |root| + 3 && q[|root|] != IndexName()
    ensures q in SealedNodes(root, source, used, homes) <==> q in HomesNodes(root, source, homes)
    ensures q in HomesNodes(root, source, homes) ==> SealedNodes(root, source, used, homes)[q] == HomesNodes(root, source, homes)[q]
  {
    hide RegistriesNodes, HomesNodes, IndexName, CacheName, SrcName;
    if q in RegistriesNodes(root, source, used) { RegistriesShallow(root, source, used, q); }
    assert q !in Skeleton(root, used) && q !in Top(root);
  }

  /** A registry's sealed cache lists exactly the archives of the packages that live there. */
  lemma CacheExact(root: Path, source: Registry, used: seq<string>, homes: seq<Home>, r: string, name: Bytes)
    requires AllIndexed(source, used) && AllHoused(source, homes)
    ensures CachePath(root, r) + [name] in SealedNodes(root, source, used, homes)
            <==> exists home :: home in homes && home.registry == r && Codes(ArchiveName(home.package)) == name
  {
    var q := CachePath(root, r) + [name];
    NamesDiffer();
    OnlyPackages(root, source, used, homes, q);
    HomesMember(root, source, homes, q);
    forall home | Housed(source, home)
      ensures q in HomeNodes(root, source, home) <==> home.registry == r && Codes(ArchiveName(home.package)) == name
    {
      AtArchive(root, source, home, r, name);
    }
    hide HomeNodes, HomesNodes, SealedNodes, Housed, CachePath, IndexName, CacheName, SrcName;
    forall home | home in homes ensures Housed(source, home) { var i :| 0 <= i < |homes| && homes[i] == home; }
  }

  lemma AtArchive(root: Path, source: Registry, home: Home, r: string, name: Bytes)
    requires Housed(source, home)
    ensures CachePath(root, r) + [name] in HomeNodes(root, source, home)
            <==> home.registry == r && Codes(ArchiveName(home.package)) == name
  {
    hide Rendered, Under, ArchiveName, SourceName, Housed;
    var q, a, u, k := CachePath(root, r) + [name], ArchivePath(root, home), UnpackedPath(root, home), |root|;
    NamesDiffer();
    assert q[k] == CacheName() && u[k] == SrcName();
    Diverge(u, q, k);
    if q in Rendered(u, SealedDir(SourceOf(source, home))) { RenderedUnder(u, SealedDir(SourceOf(source, home)), q); }
    assert a[k + 1] == Codes(home.registry) && a[k + 2] == Codes(ArchiveName(home.package)) && q[k + 1] == Codes(r) && q[k + 2] == name;
    if Codes(home.registry) == Codes(r) { CodesInjective(home.registry, r); }
  }

  /** A registry's sealed sources are exactly those of the packages that live there. */
  lemma SourcesExact(root: Path, source: Registry, used: seq<string>, homes: seq<Home>, r: string, name: Bytes)
    requires AllIndexed(source, used) && AllHoused(source, homes)
    ensures SrcPath(root, r) + [name] in SealedNodes(root, source, used, homes)
            <==> exists home :: home in homes && home.registry == r && Codes(SourceName(home.package)) == name
  {
    var q := SrcPath(root, r) + [name];
    NamesDiffer();
    OnlyPackages(root, source, used, homes, q);
    HomesMember(root, source, homes, q);
    forall home | Housed(source, home)
      ensures q in HomeNodes(root, source, home) <==> home.registry == r && Codes(SourceName(home.package)) == name
    {
      AtSource(root, source, home, r, name);
    }
    hide HomeNodes, HomesNodes, SealedNodes, Housed, SrcPath, IndexName, CacheName, SrcName;
    forall home | home in homes ensures Housed(source, home) { var i :| 0 <= i < |homes| && homes[i] == home; }
  }

  lemma AtSource(root: Path, source: Registry, home: Home, r: string, name: Bytes)
    requires Housed(source, home)
    ensures SrcPath(root, r) + [name] in HomeNodes(root, source, home)
            <==> home.registry == r && Codes(SourceName(home.package)) == name
  {
    hide ArchiveName, SourceName, Housed, RenderedEntries;
    var q, a, u, k := SrcPath(root, r) + [name], ArchivePath(root, home), UnpackedPath(root, home), |root|;
    NamesDiffer();
    assert q[k] == SrcName() && a[k] == CacheName();
    assert u[k + 1] == Codes(home.registry) && u[k + 2] == Codes(SourceName(home.package)) && q[k + 1] == Codes(r) && q[k + 2] == name;
    if Codes(home.registry) == Codes(r) { CodesInjective(home.registry, r); }
    assert u in Rendered(u, SealedDir(SourceOf(source, home)));
    if q in Rendered(u, SealedDir(SourceOf(source, home))) {
      RenderedUnder(u, SealedDir(SourceOf(source, home)), q);
      assert q[..|u|] == q;
    }
  }

  /** The sealed indexes, caches and source directories are exactly those of the registries in use. */
  lemma RegistriesSealed(root: Path, source: Registry, used: seq<string>, homes: seq<Home>, r: string)
    requires AllIndexed(source, used) && AllHoused(source, homes)
    ensures CachePath(root, r) in SealedNodes(root, source, used, homes) <==> r in used
    ensures IndexPath(root, r) in SealedNodes(root, source, used, homes) <==> r in used
  {
    hide HomesNodes, RegistriesNodes, Indexed, Housed;
    RegistryListed(root, source, used, r);
    assert |CachePath(root, r)| == |root| + 2 == |IndexPath(root, r)|;
    if CachePath(root, r) in HomesNodes(root, source, homes) { HomesDeep(root, source, homes, CachePath(root, r)); }
    if IndexPath(root, r) in HomesNodes(root, source, homes) { HomesDeep(root, source, homes, IndexPath(root, r)); }
    SkeletonListed(root, used, r);
  }

  lemma {:induction false} RegistryListed(root: Path, source: Registry, used: seq<string>, r: string)
    requires AllIndexed(source, used)
    ensures CachePath(root, r) in RegistriesNodes(root, source, used) <==> r in used
    ensures IndexPath(root, r) in RegistriesNodes(root, source, used) <==> r in used
  {
    hide RenderedEntries;
    if used != [] {
      var init, last := used[..|used| - 1], used[|used| - 1];
      assert used == init + [last];
      RegistryListed(root, source, init, r);
      if r == last { RegistryPaths(root, r); } else { RegistriesApart(root, source, last, r); }
    }
  }

  lemma {:induction false} HomesDeep(root: Path, source: Registry, homes: seq<Home>, q: Path)
    requires AllHoused(source, homes) && q in HomesNodes(root, source, homes)
    ensures |q| >= |root| + 3
  {
    hide Rendered, Housed;
    var home := homes[|homes| - 1];
    if q in HomeNodes(root, source, home) {
      if q in Rendered(UnpackedPath(root, home), SealedDir(SourceOf(source, home))) {
        RenderedUnder(UnpackedPath(root, home), SealedDir(SourceOf(source, home)), q);
      }
    } else {
      HomesDeep(root, source, homes[..|homes| - 1], q);
    }
  }

  lemma SkeletonListed(root: Path, used: seq<string>, r: string)
    ensures CachePath(root, r) in Skeleton(root, used) <==> r in used
    ensures IndexPath(root, r) !in Skeleton(root, used)
    ensures CachePath(root, r) !in Top(root) && IndexPath(root, r) !in Top(root)
  {
    NamesDiffer();
    var k := |root|;
    assert CachePath(root, r)[k] == CacheName() && CachePath(root, r)[k + 1] == Codes(r) && IndexPath(root, r)[k] == IndexName();
    hide IndexName, CacheName, SrcName;
    forall i | 0 <= i < |used|
      ensures CachePath(root, used[i]) == CachePath(root, r) ==> used[i] == r
      ensures CachePath(root, used[i]) != IndexPath(root, r) && SrcPath(root, used[i]) != IndexPath(root, r)
      ensures SrcPath(root, used[i]) != CachePath(root, r)
    {
      assert CachePath(root, used[i])[k] == CacheName() && SrcPath(root, used[i])[k] == SrcName();
      assert CachePath(root, used[i])[k + 1] == Codes(used[i]);
      if Codes(used[i]) == Codes(r) { CodesInjective(used[i], r); }
    }
  }

  /** Paths that two packages both write belong to packages that clash. */
  lemma SharedMeansClash(root: Path, source: Registry, a: Home, b: Home, q: Path)
    requires Housed(source, a) && Housed(source, b)
    ensures q in HomeNodes(root, source, a) && q in HomeNodes(root, source, b) ==> Clash(a, b)
  {
    hide Rendered, SourceName, ArchiveName, Housed;
    var k := |root|;
    HomeSteps(root, source, a, q);
    HomeSteps(root, source, b, q);
    NamesDiffer();
    ArchiveClash(a.package, b.package);
    if q in HomeNodes(root, source, a) && q in HomeNodes(root, source, b) {
      CodesInjective(a.registry, b.registry);
      if q[k] == CacheName() { CodesInjective(ArchiveName(a.package), ArchiveName(b.package)); }
      else { CodesInjective(SourceName(a.package), SourceName(b.package)); }
    }
  }

  /** The first three steps below the target of a path that a package writes. */
  lemma HomeSteps(root: Path, source: Registry, home: Home, q: Path)
    requires Housed(source, home)
    ensures q in HomeNodes(root, source, home) ==>
              && |q| >= |root| + 3 && q[|root| + 1] == Codes(home.registry)
              && ((q[|root|] == CacheName() && q[|root| + 2] == Codes(ArchiveName(home.package)))
                  || (q[|root|] == SrcName() && q[|root| + 2] == Codes(SourceName(home.package))))
  {
    hide Rendered, ArchiveName, SourceName, Housed;
    var a, u, k := ArchivePath(root, home), UnpackedPath(root, home), |root|;
    assert a[k] == CacheName() && a[k + 1] == Codes(home.registry) && a[k + 2] == Codes(ArchiveName(home.package));
    assert u[k] == SrcName() && u[k + 1] == Codes(home.registry) && u[k + 2] == Codes(SourceName(home.package)) && |u| == k + 3;
    if q in Rendered(u, SealedDir(SourceOf(source, home))) {
      RenderedUnder(u, SealedDir(SourceOf(source, home)), q);
      assert q[..|u|][k] == q[k] && q[..|u|][k + 1] == q[k + 1] && q[..|u|][k + 2] == q[k + 2];
    }
  }

  /** `part` is what is there, wherever it says something. */
  ghost predicate Holds(nodes: Nodes, part: Nodes) { forall q :: q in part ==> q in nodes && nodes[q] == part[q] }

  lemma {:induction false} HomesHold(root: Path, source: Registry, homes: seq<Home>, home: Home)
    requires AllHoused(source, homes) && NamesApart(homes) && home in homes && Housed(source, home)
    ensures Holds(HomesNodes(root, source, homes), HomeNodes(root, source, home))
  {
    hide HomeNodes, Housed, Clash;
    var init, last := homes[..|homes| - 1], homes[|homes| - 1];
    assert homes == init + [last];
    if home == last {
    } else {
      HomesHold(root, source, init, home);
      var i :| 0 <= i < |init| && init[i] == home;
      assert !Clash(homes[i], homes[|homes| - 1]);
      forall q | q in HomeNodes(root, source, home) ensures q !in HomeNodes(root, source, last) {
        SharedMeansClash(root, source, home, last, q);
      }
    }
  }

  /**
    Every locked package is there whole: its own archive, with the locked checksum and the sealed
    mode, and its own unpacked source, sealed, at every path.
   */
  lemma PackageSealed(h: Hash, root: Path, source: Registry, used: seq<string>, homes: seq<Home>, home: Home)
    requires AllIndexed(source, used) && AllHoused(source, homes) && AllMatch(h, source, homes) && NamesApart(homes) && home in homes
    ensures Housed(source, home)
    ensures var nodes, archive := SealedNodes(root, source, used, homes), ArchiveOf(source, home);
            && ArchivePath(root, home) in nodes
            && nodes[ArchivePath(root, home)] == FileNode(archive.content, M.SealMode(archive.mode))
            && h(archive.content) == home.package.checksum
            && Holds(nodes, Rendered(UnpackedPath(root, home), SealedDir(SourceOf(source, home))))
  {
    hide Rendered, HomeNodes, SealedNodes, NamesApart, AllIndexed, Housed, Matches, ArchivePath, UnpackedPath;
    MemberFacts(h, source, homes, home);
    SealedHolds(root, source, used, homes, home);
    OwnPieces(root, source, home);
  }

  lemma MemberFacts(h: Hash, source: Registry, homes: seq<Home>, home: Home)
    requires AllHoused(source, homes) && AllMatch(h, source, homes) && home in homes
    ensures Housed(source, home) && h(ArchiveOf(source, home).content) == home.package.checksum
  {
    var i :| 0 <= i < |homes| && homes[i] == home;
    assert Housed(source, homes[i]) && Matches(h, source, homes[i].registry, homes[i].package);
  }

  lemma SealedHolds(root: Path, source: Registry, used: seq<string>, homes: seq<Home>, home: Home)
    requires AllIndexed(source, used) && AllHoused(source, homes) && NamesApart(homes) && home in homes && Housed(source, home)
    ensures Holds(SealedNodes(root, source, used, homes), HomeNodes(root, source, home))
  {
    hide HomeNodes, HomesNodes, RegistriesNodes, Top, Housed, Indexed, NamesApart;
    HomesHold(root, source, homes, home);
    forall q | q in HomeNodes(root, source, home) ensures q !in Skeleton(root, used) {
      HomeSteps(root, source, home, q);
      SkeletonShallow(root, used, q);
    }
  }

  lemma SkeletonShallow(root: Path, used: seq<string>, q: Path)
    ensures q in Skeleton(root, used) ==> |q| <= |root| + 2
  {
    hide IndexName, CacheName, SrcName;
  }

  lemma OwnPieces(root: Path, source: Registry, home: Home)
    requires Housed(source, home)
    ensures var own, archive := HomeNodes(root, source, home), ArchiveOf(source, home);
            && ArchivePath(root, home) in own && own[ArchivePath(root, home)] == FileNode(archive.content, M.SealMode(archive.mode))
            && Holds(own, Rendered(UnpackedPath(root, home), SealedDir(SourceOf(source, home))))
  {
    hide Rendered, Under;
    HomePaths(root, home);
    var a, u := ArchivePath(root, home), UnpackedPath(root, home);
    NamesDiffer();
    assert a[|root|] == CacheName() && u[|root|] == SrcName();
    Diverge(u, a, |root|);
    if a in Rendered(u, SealedDir(SourceOf(source, home))) { RenderedUnder(u, SealedDir(SourceOf(source, home)), a); }
  }

  // -------------------------------------------------------------------- what it costs

  function RegistryEntries(source: Registry, r: string): nat
    requires Indexed(source, r)
  {
    3 + Count(source.index[r].entries)
  }

  function HomeEntries(source: Registry, home: Home): nat
    requires Housed(source, home)
  {
    2 + Count(SourceOf(source, home))
  }

  function RegistryBytes(source: Registry, r: string): nat
    requires Indexed(source, r)
  {
    SnapshotTree.Total(source.index[r].entries)
  }

  function HomeBytes(source: Registry, home: Home): nat
    requires Housed(source, home)
  {
    |ArchiveOf(source, home).content| + SnapshotTree.Total(SourceOf(source, home))
  }

  /** What a list of registries, and then a list of packages, adds to a budget. */
  function WithRegistries(source: Registry, used: seq<string>, b: Budget): Budget
    requires AllIndexed(source, used)
  {
    if used == [] then b
    else
      var c, r := WithRegistries(source, used[..|used| - 1], b), used[|used| - 1];
      Budget(c.entries + RegistryEntries(source, r), c.bytes + RegistryBytes(source, r))
  }

  function WithHomes(source: Registry, homes: seq<Home>, b: Budget): Budget
    requires AllHoused(source, homes)
  {
    if homes == [] then b
    else
      var c, home := WithHomes(source, homes[..|homes| - 1], b), homes[|homes| - 1];
      Budget(c.entries + HomeEntries(source, home), c.bytes + HomeBytes(source, home))
  }

  /** A registry whose index is plain, and a package whose archive is small enough and source plain. */
  predicate RegistryFits(source: Registry, r: string) {
    Indexed(source, r) && SnapshotTree.Plain(source.index[r].entries, [], 0)
  }

  predicate HomeFits(source: Registry, home: Home) {
    Housed(source, home) && |ArchiveOf(source, home).content| <= MAX_FILE_BYTES && SnapshotTree.Plain(SourceOf(source, home), [], 0)
  }

  predicate ShortName(r: string) { |r| <= 200 }

  lemma RegistryCost(source: Registry, r: string, b: Budget)
    requires WithinBounds(b) && ShortName(r)
    ensures RegistryFits(source, r) ==>
              var c := Budget(b.entries + RegistryEntries(source, r), b.bytes + RegistryBytes(source, r));
              AdmitRegistry(source, r, b).Ok? <==> WithinBounds(c)
    ensures AdmitRegistry(source, r, b).Ok? ==>
              && RegistryFits(source, r)
              && AdmitRegistry(source, r, b).value == Budget(b.entries + RegistryEntries(source, r), b.bytes + RegistryBytes(source, r))
              && WithinBounds(AdmitRegistry(source, r, b).value)
  {
    var b1 := Admitted(b, |"index/" + r|, 0);
    if b1.Ok? && Indexed(source, r) { WalkExact(source.index[r].entries, [], 0, b1.value); }
    hide Count, SnapshotTree.Total, SnapshotTree.Plain, WalkEntries;
  }

  lemma HomeCost(source: Registry, home: Home, b: Budget)
    requires WithinBounds(b) && ShortName(home.registry) && NamesSafe(home.package) && Housed(source, home)
    ensures var c := Budget(b.entries + HomeEntries(source, home), b.bytes + HomeBytes(source, home));
            && (AdmitHome(source, home, b).Ok? <==> HomeFits(source, home) && WithinBounds(c))
            && (AdmitHome(source, home, b).Ok? ==> AdmitHome(source, home, b).value == c)
  {
    var b1 := Admitted(b, |"cache/" + home.registry + "/" + ArchiveName(home.package)|, |ArchiveOf(source, home).content|);
    if b1.Ok? {
      var b2 := Admitted(b1.value, |"src/" + home.registry + "/" + SourceName(home.package)|, 0);
      if b2.Ok? { WalkExact(SourceOf(source, home), [], 0, b2.value); }
    }
    hide Count, SnapshotTree.Total, SnapshotTree.Plain, WalkEntries, ArchiveName, SourceName;
  }

  predicate RegistriesFit(source: Registry, used: seq<string>) { forall i :: 0 <= i < |used| ==> RegistryFits(source, used[i]) }

  predicate HomesFit(source: Registry, homes: seq<Home>) { forall i :: 0 <= i < |homes| ==> HomeFits(source, homes[i]) }

  lemma FitIsIndexed(source: Registry, used: seq<string>)
    ensures RegistriesFit(source, used) ==> AllIndexed(source, used)
  {}

  /** The registries are admitted exactly when all fit and the sum of what they need does. */
  lemma {:induction false} RegistriesCost(source: Registry, used: seq<string>, b: Budget)
    requires WithinBounds(b) && forall i :: 0 <= i < |used| ==> ShortName(used[i])
    ensures RegistriesFit(source, used) && AllIndexed(source, used) ==>
              (AdmitRegistries(source, used, b).Ok? <==> WithinBounds(WithRegistries(source, used, b)))
    ensures AdmitRegistries(source, used, b).Ok? ==>
              && RegistriesFit(source, used) && AllIndexed(source, used)
              && AdmitRegistries(source, used, b).value == WithRegistries(source, used, b)
              && WithinBounds(AdmitRegistries(source, used, b).value)
  {
    hide AdmitRegistry, RegistryFits, RegistryEntries, RegistryBytes, Indexed, ShortName;
    FitIsIndexed(source, used);
    if used != [] {
      var init, last := used[..|used| - 1], used[|used| - 1];
      assert used == init + [last];
      RegistriesCost(source, init, b);
      FitIsIndexed(source, init);
      var a := AdmitRegistries(source, init, b);
      if a.Ok? { RegistryCost(source, last, a.value); }
      OneFits(source, last);
    }
  }

  lemma OneFits(source: Registry, r: string)
    ensures RegistryFits(source, r) ==> Indexed(source, r)
  {}

  lemma {:induction false} HomesCost(source: Registry, homes: seq<Home>, b: Budget)
    requires AllHoused(source, homes) && WithinBounds(b)
    requires forall i :: 0 <= i < |homes| ==> ShortName(homes[i].registry) && NamesSafe(homes[i].package)
    ensures AdmitHomes(source, homes, b).Ok? <==> HomesFit(source, homes) && WithinBounds(WithHomes(source, homes, b))
    ensures AdmitHomes(source, homes, b).Ok? ==> AdmitHomes(source, homes, b).value == WithHomes(source, homes, b)
  {
    hide AdmitHome, HomeFits, HomeEntries, HomeBytes, Housed, NamesSafe, ShortName;
    if homes != [] {
      var init, last := homes[..|homes| - 1], homes[|homes| - 1];
      assert homes == init + [last];
      HomesCost(source, init, b);
      var a := AdmitHomes(source, init, b);
      if a.Ok? { HomeCost(source, last, a.value); }
    }
  }

  lemma {:induction false} HomesNeedMore(source: Registry, homes: seq<Home>, b: Budget)
    requires AllHoused(source, homes)
    ensures WithinBounds(WithHomes(source, homes, b)) ==> WithinBounds(b)
  {
    hide HomeEntries, HomeBytes, Housed;
    if homes != [] { HomesNeedMore(source, homes[..|homes| - 1], b); }
  }

  /**
    The budget suffices exactly when every index and source is plain, every archive is small
    enough, and the entries and bytes needed in all are within the bounds.
   */
  lemma AffordableExactly(h: Hash, source: Registry, packages: seq<LockedPackage>, homes: seq<Home>)
    requires Listable(source) && HomesFor(h, source, packages, homes)
    ensures var used := RegistriesOf(homes);
            Affordable(source, homes) <==>
              && RegistriesFit(source, used) && AllIndexed(source, used)
              && AllHoused(source, homes) && HomesFit(source, homes)
              && WithinBounds(WithHomes(source, homes, WithRegistries(source, used, EMPTY_BUDGET)))
  {
    var used := RegistriesOf(homes);
    HomesAreHoused(h, source, packages, homes);
    NamesAreShort(h, source, packages, homes);
    hide Housed, Indexed, RegistriesFit, HomesFit, AdmitRegistries, AdmitHomes, Listable, HomesFor, NamesSafe, RegistriesOf, ShortName,
         WithHomes, WithRegistries;
    RegistriesCost(source, used, EMPTY_BUDGET);
    FitIsIndexed(source, used);
    if AllIndexed(source, used) {
      HomesNeedMore(source, homes, WithRegistries(source, used, EMPTY_BUDGET));
      var b := AdmitRegistries(source, used, EMPTY_BUDGET);
      if b.Ok? { HomesCost(source, homes, b.value); }
    }
  }

  lemma NamesAreShort(h: Hash, source: Registry, packages: seq<LockedPackage>, homes: seq<Home>)
    requires Listable(source) && HomesFor(h, source, packages, homes)
    ensures forall i :: 0 <= i < |homes| ==> ShortName(homes[i].registry) && NamesSafe(homes[i].package)
    ensures forall i :: 0 <= i < |RegistriesOf(homes)| ==> ShortName(RegistriesOf(homes)[i])
  {
    HomesAreHoused(h, source, packages, homes);
    RegistriesExact(homes);
    var used := RegistriesOf(homes);
    forall i | 0 <= i < |homes| ensures ShortName(homes[i].registry) && NamesSafe(homes[i].package) {
      assert Housed(source, homes[i]) && Resolvable(h, source, packages[i]);
    }
    hide Housed, Resolvable, Candidates, Listable, HomesFor, RegistriesOf, ShortName;
    forall i | 0 <= i < |used| ensures ShortName(used[i]) {
      assert used[i] in used;
      var home :| home in homes && home.registry == used[i];
      var j :| 0 <= j < |homes| && homes[j] == home;
    }
  }
}
