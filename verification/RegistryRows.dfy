/**
  The sealed registry in terms of the lockfile's own rows: which rows and which registry can be
  sealed, and what then stands at the target for every row.
 */
module RegistryRows {
  import opened Options
  import opened Texts
  import opened SnapshotTree
  import M = SnapshotManifest
  import opened FileSystems
  import opened SealedCopies
  import opened SnapshotPaths
  import opened SealedPlaces
  import opened CargoRegistry
  import opened RegistrySeal
  import RegistryManifest

  // ----------------------------------------------------------------------- one row

  /** Text that may be a file name: at most 200 letters, digits and signs, and no step upwards. */
  predicate Safe(s: string) {
    && 1 <= |s| <= 200 && s != "." && s != ".."
    && forall i :: 0 <= i < |s| ==>
         'a' <= s[i] <= 'z' || 'A' <= s[i] <= 'Z' || '0' <= s[i] <= '9' || s[i] in {'-', '_', '.', '+'}
  }

  /** A row that is not the workspace's own is well formed: a registry source, safe names, a digest in lower-case hex. */
  predicate WellMade(row: LockRow) {
    row.source.Some? ==>
      && (row.source.value[..if |row.source.value| < 9 then |row.source.value| else 9] == "registry+"
          || row.source.value[..if |row.source.value| < 7 then |row.source.value| else 7] == "sparse+")
      && row.name.Some? && Safe(row.name.value) && row.version.Some? && Safe(row.version.value)
      && row.checksum.Some? && |row.checksum.value| == 64
      && forall i :: 0 <= i < 64 ==> '0' <= row.checksum.value[i] <= '9' || 'a' <= row.checksum.value[i] <= 'f'
  }

  lemma WellMadeIsAdmissible(row: LockRow)
    ensures WellMade(row) <==> RowAdmissible(row)
  {
    assert |"registry+"| == 9 && |"sparse+"| == 7;
  }

  function Stem(row: LockRow): string
    requires row.name.Some? && row.version.Some?
  {
    row.name.value + "-" + row.version.value
  }

  predicate Complete(row: LockRow) { row.source.Some? && row.name.Some? && row.version.Some? && row.checksum.Some? }

  /** This registry directory has the row's archive, and it has the row's digest. */
  predicate HasArchive(h: Hash, source: Registry, row: LockRow, d: string)
    requires Complete(row)
  {
    d in source.cache && Stem(row) + ".crate" in source.cache[d] && h(source.cache[d][Stem(row) + ".crate"].content) == row.checksum.value
  }

  predicate HasSource(source: Registry, row: LockRow, d: string)
    requires Complete(row)
  {
    d in source.src && Stem(row) in source.src[d] && source.src[d][Stem(row)].Dir?
  }

  /** The one directory a row's package can come from. */
  ghost predicate ComesFrom(h: Hash, source: Registry, row: LockRow, d: string)
    requires Complete(row)
  {
    && |Stem(row)| + 6 <= 200 && HasArchive(h, source, row, d) && HasSource(source, row, d)
    && forall other :: HasArchive(h, source, row, other) ==> other == d
  }

  lemma RowNames(row: LockRow)
    requires row.source.Some? && RowAdmissible(row)
    ensures Complete(row) && PackageOf(row) == LockedPackage(row.name.value, row.version.value, row.checksum.value)
    ensures SourceName(PackageOf(row)) == Stem(row) && ArchiveName(PackageOf(row)) == Stem(row) + ".crate"
    ensures NamesSafe(PackageOf(row)) <==> |Stem(row)| + 6 <= 200
  {
    var n, v := row.name.value, row.version.value;
    assert n + "-" + v == Stem(row);
    SafeTexts(n, "-");
    SafeTexts(n + "-", v);
    SafeTexts(Stem(row), ".crate");
    assert |Stem(row)| >= 3 && |".crate"| == 6;
    hide SafeChar, Stem;
    LongIsNoStep(Stem(row));
    LongIsNoStep(Stem(row) + ".crate");
  }

  predicate AllSafe(s: string) { forall i :: 0 <= i < |s| ==> SafeChar(s[i]) }

  lemma SafeTexts(a: string, b: string)
    ensures AllSafe(a) && AllSafe(b) ==> AllSafe(a + b)
    ensures AllSafe("-") && AllSafe(".crate")
  {
    assert forall i :: |a| <= i < |a + b| ==> (a + b)[i] == b[i - |a|];
  }

  lemma LongIsNoStep(s: string)
    requires |s| >= 3
    ensures SafeComponent(s) <==> |s| <= 200 && AllSafe(s)
  {
    assert |"."| == 1 && |".."| == 2;
  }

  lemma RowResolves(h: Hash, source: Registry, row: LockRow)
    requires row.source.Some? && RowAdmissible(row)
    ensures Complete(row)
    ensures forall d :: ComesFrom(h, source, row, d) <==> Resolvable(h, source, PackageOf(row)) && Candidates(h, source, PackageOf(row)) == {d}
    ensures Resolvable(h, source, PackageOf(row)) ==> exists d :: ComesFrom(h, source, row, d)
  {
    RowNames(row);
    var p := PackageOf(row);
    hide PackageOf, RowAdmissible, NamesSafe, ArchiveName, SourceName, Stem;
    forall d ensures d in Candidates(h, source, p) <==> HasArchive(h, source, row, d) {}
    forall d | ComesFrom(h, source, row, d) ensures Candidates(h, source, p) == {d} {
      assert forall other :: other in Candidates(h, source, p) <==> other == d;
    }
    if Resolvable(h, source, p) {
      var d :| d in Candidates(h, source, p);
      SingletonIs(Candidates(h, source, p), d);
    }
  }

  // -------------------------------------------------------------------- the lockfile

  /** Every row has its one directory. */
  ghost predicate AllComeFrom(h: Hash, source: Registry, rows: seq<LockRow>) {
    forall row :: row in rows && row.source.Some? ==> Complete(row) && exists d :: ComesFrom(h, source, row, d)
  }

  /** Resolution succeeds exactly when every row with a source has exactly one directory to come from. */
  lemma ResolutionExact(h: Hash, source: Registry, rows: seq<LockRow>)
    requires AllAdmissible(rows)
    ensures (forall i :: 0 <= i < |PackagesOf(rows)| ==> Resolvable(h, source, PackagesOf(rows)[i])) <==> AllComeFrom(h, source, rows)
  {
    PackagesExact(rows);
    var packages := PackagesOf(rows);
    hide PackagesOf, Resolvable, Candidates, PackageOf, RowAdmissible, ComesFrom;
    forall row | row in rows && row.source.Some?
      ensures RowAdmissible(row) && Complete(row) && PackageOf(row) in packages
      ensures Resolvable(h, source, PackageOf(row)) <==> exists d :: ComesFrom(h, source, row, d)
    {
      var i :| 0 <= i < |rows| && rows[i] == row;
      RowResolves(h, source, row);
    }
    forall i | 0 <= i < |packages|
      ensures exists row :: row in rows && row.source.Some? && RowAdmissible(row) && PackageOf(row) == packages[i]
    {
      assert packages[i] in packages;
    }
  }

  /** The home of a row's package is the directory the row comes from. */
  lemma RowHome(h: Hash, source: Registry, rows: seq<LockRow>, homes: seq<Home>, row: LockRow) returns (home: Home)
    requires AllAdmissible(rows) && HomesFor(h, source, PackagesOf(rows), homes) && row in rows && row.source.Some?
    ensures RowAdmissible(row) && Complete(row) && home in homes && home.package == PackageOf(row) && ComesFrom(h, source, row, home.registry)
  {
    PackagesExact(rows);
    hide RowAdmissible, PackageOf, PackagesOf, ComesFrom, Resolvable, Candidates;
    var i :| 0 <= i < |rows| && rows[i] == row;
    assert PackageOf(row) in PackagesOf(rows);
    var k :| 0 <= k < |PackagesOf(rows)| && PackagesOf(rows)[k] == PackageOf(row);
    home := homes[k];
    RowResolves(h, source, row);
  }

  // -------------------------------------------------------------- which lockfiles pass

  /** Rows that would be sealed under one name are the same package. */
  ghost predicate StemsTell(rows: seq<LockRow>) {
    forall a, b :: a in rows && b in rows && Complete(a) && Complete(b) && Stem(a) == Stem(b) && a.checksum == b.checksum ==>
      a.name == b.name && a.version == b.version
  }

  /** The cache holds directories with safe names, at least one, and nothing else. */
  predicate Searchable(source: Registry) { !source.strays && source.cache != map[] && forall d :: d in source.cache ==> Safe(d) }

  lemma ClashMeansSameText(h: Hash, source: Registry, rows: seq<LockRow>, homes: seq<Home>)
    requires AllAdmissible(rows) && HomesFor(h, source, PackagesOf(rows), homes)
    ensures NamesApart(homes) ==> StemsTell(rows)
  {
    hide RowAdmissible, PackageOf, PackagesOf, Resolvable, Candidates, HomesFor, NamesApart, Stem, SourceName;
    if NamesApart(homes) {
      forall a, b | a in rows && b in rows && Complete(a) && Complete(b) && Stem(a) == Stem(b) && a.checksum == b.checksum
        ensures a.name == b.name && a.version == b.version
      {
        var x := RowHome(h, source, rows, homes, a);
        var y := RowHome(h, source, rows, homes, b);
        RowNames(a);
        RowNames(b);
        assert HasArchive(h, source, b, x.registry);
        ApartAreSame(homes, x, y);
      }
    }
  }

  lemma TellingTextsDoNotClash(h: Hash, source: Registry, rows: seq<LockRow>, homes: seq<Home>)
    requires AllAdmissible(rows) && HomesFor(h, source, PackagesOf(rows), homes) && StemsTell(rows)
    ensures NamesApart(homes)
  {
    PackagesExact(rows);
    hide RowAdmissible, PackageOf, PackagesOf, Resolvable, Stem, SourceName, ArchiveName;
    forall i, j | 0 <= i < j < |homes| ensures !Clash(homes[i], homes[j]) {
      if Clash(homes[i], homes[j]) {
        ArchiveClash(homes[i].package, homes[j].package);
        assert homes[i].registry in Candidates(h, source, homes[i].package) && homes[j].registry in Candidates(h, source, homes[j].package);
        SameRows(h, source, rows, homes[i].package, homes[j].package);
      }
    }
  }

  lemma SameRows(h: Hash, source: Registry, rows: seq<LockRow>, p: LockedPackage, q: LockedPackage)
    requires AllAdmissible(rows) && StemsTell(rows) && p in PackagesOf(rows) && q in PackagesOf(rows)
    requires SourceName(p) == SourceName(q) && p.checksum == q.checksum
    ensures p == q
  {
    PackagesExact(rows);
    hide RowAdmissible, PackageOf, PackagesOf, Stem, SourceName, ArchiveName;
    var a :| a in rows && a.source.Some? && RowAdmissible(a) && PackageOf(a) == p;
    var b :| b in rows && b.source.Some? && RowAdmissible(b) && PackageOf(b) == q;
    RowNames(a);
    RowNames(b);
  }

  /** The budget has room for the plan of these rows. */
  ghost predicate HasRoom(h: Hash, source: Registry, rows: seq<LockRow>)
    requires AllAdmissible(rows)
  {
    forall homes :: HomesFor(h, source, PackagesOf(rows), homes) ==> Affordable(source, homes)
  }

  lemma {:induction false} HomesExist(h: Hash, source: Registry, packages: seq<LockedPackage>) returns (homes: seq<Home>)
    requires forall i :: 0 <= i < |packages| ==> Resolvable(h, source, packages[i])
    ensures HomesFor(h, source, packages, homes)
  {
    homes := [];
    if packages != [] {
      var last := packages[|packages| - 1];
      var init := HomesExist(h, source, packages[..|packages| - 1]);
      var r :| r in Candidates(h, source, last);
      SingletonIs(Candidates(h, source, last), r);
      homes := init + [Home(last, r)];
    }
  }

  lemma NoPackages(rows: seq<LockRow>)
    requires AllAdmissible(rows)
    ensures PackagesOf(rows) == [] <==> forall row :: row in rows ==> row.source.None?
  {
    PackagesExact(rows);
    hide PackagesOf, RowAdmissible;
    if PackagesOf(rows) != [] { assert PackagesOf(rows)[0] in PackagesOf(rows); }
    forall row | row in rows && row.source.Some? ensures PackagesOf(rows) != [] {
      var i :| 0 <= i < |rows| && rows[i] == row;
      assert PackageOf(row) in PackagesOf(rows);
    }
  }

  lemma AdmissibleRows(rows: seq<LockRow>)
    ensures AllAdmissible(rows) <==> forall row :: row in rows ==> WellMade(row)
  {
    forall i | 0 <= i < |rows| ensures RowAdmissible(rows[i]) <==> WellMade(rows[i]) { WellMadeIsAdmissible(rows[i]); }
    hide RowAdmissible, WellMade;
  }

  /**
    A lockfile and a registry can be sealed exactly when every row is well made, some row has a
    source, the cache can be searched, every such row has exactly one directory to come from,
    rows that are spelled alike are the same package, and the budget has room.
   */
  lemma SealableExactly(h: Hash, rows: seq<LockRow>, source: Registry)
    ensures (exists plan :: Sealable(h, rows, source, plan)) <==>
              && (forall row :: row in rows ==> WellMade(row)) && (exists row :: row in rows && row.source.Some?)
              && Searchable(source) && AllComeFrom(h, source, rows) && StemsTell(rows)
              && AllAdmissible(rows) && HasRoom(h, source, rows)
  {
    AdmissibleRows(rows);
    SearchableIsListable(source);
    hide WellMade, RowAdmissible, Searchable, Listable, AllComeFrom, StemsTell, PackagesOf, HomesFor, Affordable, NamesApart, Resolvable;
    if AllAdmissible(rows) {
      NoPackages(rows);
      ResolutionExact(h, source, rows);
      if plan :| Sealable(h, rows, source, plan) {
        ResolvedOnly(h, source, PackagesOf(rows));
        ClashMeansSameText(h, source, rows, plan);
        forall homes | HomesFor(h, source, PackagesOf(rows), homes) ensures homes == plan { HomesUnique(h, source, PackagesOf(rows), homes, plan); }
      }
      if AllComeFrom(h, source, rows) && StemsTell(rows) && HasRoom(h, source, rows) {
        var homes := HomesExist(h, source, PackagesOf(rows));
        TellingTextsDoNotClash(h, source, rows, homes);
        assert Searchable(source) && PackagesOf(rows) != [] ==> Sealable(h, rows, source, homes);
      }
    }
  }

  lemma SearchableIsListable(source: Registry)
    ensures Searchable(source) <==> Listable(source)
  {
    forall s: string ensures Safe(s) <==> SafeComponent(s) {}
    hide Safe, SafeComponent;
  }

  // ------------------------------------------------------------------- what then stands

  function CacheAt(root: Path, d: string, name: string): Path { root + [Codes("cache"), Codes(d), Codes(name)] }
  function SourceAt(root: Path, d: string, name: string): Path { root + [Codes("src"), Codes(d), Codes(name)] }

  /**
    A successful seal, row by row: the directory the row comes from is the only one with its
    archive, the sealed cache has that archive with the row's digest, read-only, and the sealed
    sources have its unpacked source, place by place.
   */
  lemma RowSealed(h: Hash, rows: seq<LockRow>, source: Registry, root: Path, before: Nodes, after: Nodes, homes: seq<Home>, row: LockRow)
    requires SealedAt(h, rows, source, root, before, after, homes) && ListingsDistinct(source) && Absent(before, root)
    requires row in rows && row.source.Some?
    ensures Complete(row)
    ensures exists d :: ComesFrom(h, source, row, d) && RowStands(h, source, root, after, row, d)
  {
    hide Affordable, SealedNodes, NamesApart, HomesFor, PackagesOf, RegistriesOf, ComesFrom, RowStands, AllIndexed, Listable, ListingsDistinct, Absent;
    var home := RowHome(h, source, rows, homes, row);
    HomeStands(h, rows, source, root, before, after, homes, row, home);
  }

  ghost predicate RowStands(h: Hash, source: Registry, root: Path, after: Nodes, row: LockRow, d: string)
    requires Complete(row)
  {
    && HasArchive(h, source, row, d) && HasSource(source, row, d)
    && var file, archive := CacheAt(root, d, Stem(row) + ".crate"), source.cache[d][Stem(row) + ".crate"];
    && file in after && after[file].FileNode? && h(after[file].content) == row.checksum.value
    && after[file].content == archive.content && M.ReadOnlyMode(after[file].mode, archive.mode)
    && Copied(after, SourceAt(root, d, Stem(row)), source.src[d][Stem(row)].entries)
  }

  lemma HomeStands(h: Hash, rows: seq<LockRow>, source: Registry, root: Path, before: Nodes, after: Nodes, homes: seq<Home>, row: LockRow, home: Home)
    requires SealedAt(h, rows, source, root, before, after, homes) && ListingsDistinct(source) && Absent(before, root)
    requires row in rows && row.source.Some? && RowAdmissible(row) && Complete(row)
    requires home in homes && home.package == PackageOf(row) && ComesFrom(h, source, row, home.registry)
    ensures RowStands(h, source, root, after, row, home.registry)
  {
    hide Affordable, SealedNodes, NamesApart, HomesFor, PackagesOf, RegistriesOf, AllIndexed, Listable, ListingsDistinct, Absent, Copied, Rendered,
         AllAdmissible, Holds, PackageOf, ArchiveName, SourceName, Stem, ArchivePath, UnpackedPath, CacheAt, SourceAt, RowAdmissible;
    RowNames(row);
    var d, used := home.registry, RegistriesOf(homes);
    HomesAreHoused(h, source, PackagesOf(rows), homes);
    PackageSealed(h, root, source, used, homes, home);
    M.SealModeBits(source.cache[d][Stem(row) + ".crate"].mode);
    PathsSpelled(root, home);
    SourceFits(h, source, PackagesOf(rows), homes, home);
    SourceCopied(root, source, used, homes, home, before);
  }

  lemma PathsSpelled(root: Path, home: Home)
    ensures ArchivePath(root, home) == CacheAt(root, home.registry, ArchiveName(home.package))
    ensures UnpackedPath(root, home) == SourceAt(root, home.registry, SourceName(home.package))
  {}

  lemma SourceFits(h: Hash, source: Registry, packages: seq<LockedPackage>, homes: seq<Home>, home: Home)
    requires Listable(source) && HomesFor(h, source, packages, homes) && Affordable(source, homes) && ListingsDistinct(source) && home in homes
    ensures Housed(source, home) && M.DistinctNames(SourceOf(source, home)) && SnapshotTree.Plain(SourceOf(source, home), [], 0)
  {
    AffordableExactly(h, source, packages, homes);
    var i :| 0 <= i < |homes| && homes[i] == home;
    hide Affordable, HomesFor, Listable, WithHomes, WithRegistries, RegistriesOf;
    assert HomeFits(source, homes[i]);
  }

  /** Below a package's source lies nothing but that source. */
  lemma SourceCopied(root: Path, source: Registry, used: seq<string>, homes: seq<Home>, home: Home, before: Nodes)
    requires AllIndexed(source, used) && AllHoused(source, homes) && NamesApart(homes) && home in homes && Housed(source, home)
    requires M.DistinctNames(SourceOf(source, home)) && SnapshotTree.Plain(SourceOf(source, home), [], 0) && Absent(before, root)
    requires Holds(SealedNodes(root, source, used, homes), Rendered(UnpackedPath(root, home), SealedDir(SourceOf(source, home))))
    ensures Copied(before + SealedNodes(root, source, used, homes), UnpackedPath(root, home), SourceOf(source, home))
  {
    hide SealedNodes, Rendered, UnpackedPath, SourceOf, Lies, NamesApart, AllIndexed, AllHoused, SealedDir, SnapshotTree.Plain, M.DistinctNames, StandsFor;
    var u, entries := UnpackedPath(root, home), SourceOf(source, home);
    var nodes := SealedNodes(root, source, used, homes);
    SealedIsCopied(map[], u, entries, [], 0);
    var part := Rendered(u, SealedDir(entries));
    assert map[] + part == part;
    forall q | q in before + nodes && Under(u, q) && q != u ensures q in part {
      BelowRoot(root, home, q);
      OnlyOwnSource(root, source, used, homes, home, q);
    }
  }

  lemma BelowRoot(root: Path, home: Home, q: Path)
    requires Under(UnpackedPath(root, home), q)
    ensures Under(root, q) && |q| >= |root| + 3 && q[|root|] == SrcName() && q[|root| + 1] == Codes(home.registry)
    ensures q[|root| + 2] == Codes(SourceName(home.package))
  {
    var u, k := UnpackedPath(root, home), |root|;
    hide SrcName, Codes, SourceName;
    assert u[..k] == root && q[..|u|] == u;
    assert q[..k] == q[..|u|][..k];
    assert q[k] == q[..|u|][k] && q[k + 1] == q[..|u|][k + 1] && q[k + 2] == q[..|u|][k + 2];
  }

  lemma OnlyOwnSource(root: Path, source: Registry, used: seq<string>, homes: seq<Home>, home: Home, q: Path)
    requires AllIndexed(source, used) && AllHoused(source, homes) && NamesApart(homes) && home in homes && Housed(source, home)
    requires q in SealedNodes(root, source, used, homes) && Under(UnpackedPath(root, home), q) && q != UnpackedPath(root, home)
    ensures q in Rendered(UnpackedPath(root, home), SealedDir(SourceOf(source, home)))
  {
    BelowRoot(root, home, q);
    NotFrame(root, source, used, home, q);
    assert q in HomesNodes(root, source, homes);
    hide SealedNodes, Rendered, HomesNodes, RegistriesNodes, AllIndexed, Housed, HomeNodes, Skeleton, Top, SourceName;
    HomesMember(root, source, homes, q);
    var other :| other in homes && Housed(source, other) && q in HomeNodes(root, source, other);
    HomeSteps(root, source, other, q);
    NamesDiffer();
    CodesInjective(home.registry, other.registry);
    CodesInjective(SourceName(home.package), SourceName(other.package));
    ApartAreSame(homes, home, other);
    NotArchive(root, source, home, q);
  }

  lemma ApartAreSame(homes: seq<Home>, a: Home, b: Home)
    requires NamesApart(homes) && a in homes && b in homes && a.registry == b.registry && SourceName(a.package) == SourceName(b.package)
    ensures a == b
  {
    hide SourceName;
    var i :| 0 <= i < |homes| && homes[i] == a;
    var j :| 0 <= j < |homes| && homes[j] == b;
    assert Clash(homes[i], homes[j]) && Clash(homes[j], homes[i]);
  }

  lemma NotArchive(root: Path, source: Registry, home: Home, q: Path)
    requires Housed(source, home) && q in HomeNodes(root, source, home) && |q| >= |root| + 3 && q[|root|] == SrcName()
    ensures q in Rendered(UnpackedPath(root, home), SealedDir(SourceOf(source, home)))
  {
    NamesDiffer();
    hide Rendered, Codes, CacheName, SrcName, IndexName;
    assert ArchivePath(root, home)[|root|] == CacheName();
  }

  /** The frame has nothing below a package's source. */
  lemma NotFrame(root: Path, source: Registry, used: seq<string>, home: Home, q: Path)
    requires AllIndexed(source, used) && |q| >= |root| + 3 && q[|root|] == SrcName()
    ensures q !in Top(root) && q !in RegistriesNodes(root, source, used) && q !in Skeleton(root, used)
  {
    NamesDiffer();
    hide Codes, CacheName, SrcName, IndexName, RegistriesNodes, RegistryNodes;
    RegistryManifest.RegistriesMember(root, source, used, q);
    if r :| r in used && Indexed(source, r) && q in RegistryNodes(root, source, r) { NotRegistry(root, source, r, q); }
  }

  lemma NotRegistry(root: Path, source: Registry, r: string, q: Path)
    requires Indexed(source, r)
    ensures |q| >= |root| + 3 && q[|root|] == SrcName() ==> q !in RegistryNodes(root, source, r)
  {
    NamesDiffer();
    hide Codes, CacheName, SrcName, IndexName, Rendered;
    var x := IndexPath(root, r);
    if q in Rendered(x, SealedDir(source.index[r].entries)) {
      RenderedUnder(x, SealedDir(source.index[r].entries), q);
      assert q[..|x|][|root|] == q[|root|] && x[|root|] == IndexName();
    }
  }

  /** The home of a package is that of some row. */
  lemma HomeRow(h: Hash, source: Registry, rows: seq<LockRow>, homes: seq<Home>, home: Home) returns (row: LockRow)
    requires AllAdmissible(rows) && HomesFor(h, source, PackagesOf(rows), homes) && home in homes
    ensures row in rows && row.source.Some? && RowAdmissible(row) && Complete(row) && ComesFrom(h, source, row, home.registry)
    ensures home.package == PackageOf(row)
  {
    PackagesExact(rows);
    hide RowAdmissible, PackageOf, PackagesOf, ComesFrom, Resolvable, Candidates;
    var i :| 0 <= i < |homes| && homes[i] == home;
    assert home.package in PackagesOf(rows);
    row :| row in rows && row.source.Some? && RowAdmissible(row) && PackageOf(row) == home.package;
    RowResolves(h, source, row);
  }

  /** Nothing but the rows' own: every archive and every source in the sealed registry is that of a row which comes from there. */
  lemma OnlyRowsSealed(h: Hash, rows: seq<LockRow>, source: Registry, root: Path, before: Nodes, after: Nodes, homes: seq<Home>, d: string, name: string)
    requires SealedAt(h, rows, source, root, before, after, homes) && Absent(before, root)
    ensures CacheAt(root, d, name) in after ==>
              exists row :: row in rows && Complete(row) && ComesFrom(h, source, row, d) && name == Stem(row) + ".crate"
    ensures SourceAt(root, d, name) in after ==>
              exists row :: row in rows && Complete(row) && ComesFrom(h, source, row, d) && name == Stem(row)
  {
    hide Affordable, SealedNodes, NamesApart, HomesFor, PackagesOf, RegistriesOf, AllIndexed, Listable, AllAdmissible, ArchiveName, SourceName, Stem,
         RowAdmissible, PackageOf, ComesFrom, CacheAt, SourceAt, CachePath, SrcPath, AllHoused, AllMatch, Codes, Under;
    var used := RegistriesOf(homes);
    HomesAreHoused(h, source, PackagesOf(rows), homes);
    CacheExact(root, source, used, homes, d, Codes(name));
    SourcesExact(root, source, used, homes, d, Codes(name));
    SpelledOut(root, d, name);
    if home :| home in homes && home.registry == d && Codes(ArchiveName(home.package)) == Codes(name) {
      var row := HomeRow(h, source, rows, homes, home);
      RowNames(row);
      CodesInjective(ArchiveName(home.package), name);
    }
    if home :| home in homes && home.registry == d && Codes(SourceName(home.package)) == Codes(name) {
      var row := HomeRow(h, source, rows, homes, home);
      RowNames(row);
      CodesInjective(SourceName(home.package), name);
    }
  }

  lemma SpelledOut(root: Path, d: string, name: string)
    ensures CacheAt(root, d, name) == CachePath(root, d) + [Codes(name)] && SourceAt(root, d, name) == SrcPath(root, d) + [Codes(name)]
    ensures Under(root, CacheAt(root, d, name)) && Under(root, SourceAt(root, d, name))
  {
    assert CacheAt(root, d, name)[..|root|] == root && SourceAt(root, d, name)[..|root|] == root;
  }
}
