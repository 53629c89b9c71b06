/**
  Resolving a lockfile against an offline Cargo registry: every locked package must have one
  cache directory whose archive has the locked checksum.
 */
module CargoRegistry {
  import opened Options
  import opened SnapshotTree

  /** SHA-256 of file bytes, as hex text. */
  type Hash = Bytes -> string

  /** One `[[package]]` row of the lockfile. */
  datatype LockRow = LockRow(source: Option<string>, name: Option<string>, version: Option<string>, checksum: Option<string>)

  datatype LockedPackage = LockedPackage(name: string, version: string, checksum: string)

  function ArchiveName(p: LockedPackage): string { p.name + "-" + p.version + ".crate" }

  function SourceName(p: LockedPackage): string { p.name + "-" + p.version }

  predicate SafeChar(c: char) {
    'a' <= c <= 'z' || 'A' <= c <= 'Z' || '0' <= c <= '9' || c == '-' || c == '_' || c == '.' || c == '+'
  }

  predicate SafeComponent(value: string) {
    value != "" && |value| <= 200 && value != "." && value != ".." && forall i :: 0 <= i < |value| ==> SafeChar(value[i])
  }

  predicate IsLowerSha256(value: string) {
    |value| == 64 && forall i :: 0 <= i < 64 ==> '0' <= value[i] <= '9' || 'a' <= value[i] <= 'f'
  }

  predicate StartsWith(s: string, prefix: string) { |prefix| <= |s| && s[..|prefix|] == prefix }

  predicate FromRegistry(row: LockRow) {
    row.source.Some? && (StartsWith(row.source.value, "registry+") || StartsWith(row.source.value, "sparse+"))
  }

  predicate RowAdmissible(row: LockRow) {
    row.source.Some? ==>
      && FromRegistry(row)
      && row.name.Some? && SafeComponent(row.name.value)
      && row.version.Some? && SafeComponent(row.version.value)
      && row.checksum.Some? && IsLowerSha256(row.checksum.value)
  }

  function PackageOf(row: LockRow): LockedPackage
    requires row.source.Some? && RowAdmissible(row)
  {
    LockedPackage(row.name.value, row.version.value, row.checksum.value)
  }

  predicate AllAdmissible(rows: seq<LockRow>) { forall i :: 0 <= i < |rows| ==> RowAdmissible(rows[i]) }

  /** The locked registry packages, each once; rows without a source are the workspace's own. */
  function PackagesOf(rows: seq<LockRow>): seq<LockedPackage>
    requires AllAdmissible(rows)
  {
    if rows == [] then []
    else
      var rest, last := PackagesOf(rows[..|rows| - 1]), rows[|rows| - 1];
      if last.source.None? || PackageOf(last) in rest then rest else rest + [PackageOf(last)]
  }

  predicate Distinct<T(==)>(s: seq<T>) { forall i, j :: 0 <= i < j < |s| ==> s[i] != s[j] }

  lemma {:induction false} PackagesExact(rows: seq<LockRow>)
    requires AllAdmissible(rows)
    ensures Distinct(PackagesOf(rows))
    ensures forall p :: p in PackagesOf(rows) <==> exists row :: row in rows && row.source.Some? && RowAdmissible(row) && PackageOf(row) == p
  {
    hide RowAdmissible;
    if rows != [] {
      var init, last := rows[..|rows| - 1], rows[|rows| - 1];
      assert rows == init + [last];
      PackagesExact(init);
    }
  }

  method LockedPackages(rows: seq<LockRow>) returns (r: Option<seq<LockedPackage>>)
    ensures r.Some? <==> AllAdmissible(rows) && PackagesOf(rows) != []
    ensures r.Some? ==> r.value == PackagesOf(rows)
  {
    hide RowAdmissible;
    var packages := [];
    for i := 0 to |rows|
      invariant AllAdmissible(rows[..i]) && packages == PackagesOf(rows[..i])
    {
      assert rows[..i + 1][..i] == rows[..i];
      if rows[i].source.Some? {
        if !RowAdmissible(rows[i]) { return None; }
        if PackageOf(rows[i]) !in packages { packages := packages + [PackageOf(rows[i])]; }
      } else {
        Sourceless(rows[i]);
      }
    }
    assert rows[..|rows|] == rows;
    return if packages == [] then None else Some(packages);
  }

  lemma Sourceless(row: LockRow)
    requires row.source.None?
    ensures RowAdmissible(row)
  {}

  // --------------------------------------------------------------- the offline registry

  datatype Archive = Archive(content: Bytes, mode: bv16)

  /**
    Cache archives, unpacked sources and indexes, by registry directory.  `strays` says that
    the cache also holds something that is no directory or has no UTF-8 name.
   */
  datatype Registry = Registry(
    strays: bool,
    cache: map<string, map<string, Archive>>,
    src: map<string, map<string, Node>>,
    index: map<string, Node>)

  /** A cache that may be searched: some directories, all with safe names, and nothing else. */
  predicate Listable(source: Registry) {
    !source.strays && source.cache != map[] && forall r :: r in source.cache ==> SafeComponent(r)
  }

  predicate Unpacked(source: Registry, registry: string, p: LockedPackage) {
    registry in source.src && SourceName(p) in source.src[registry] && source.src[registry][SourceName(p)].Dir?
  }

  /** This cache directory holds the package's archive with the locked checksum. */
  predicate Matches(h: Hash, source: Registry, registry: string, p: LockedPackage) {
    && registry in source.cache && ArchiveName(p) in source.cache[registry]
    && h(source.cache[registry][ArchiveName(p)].content) == p.checksum
  }

  function Candidates(h: Hash, source: Registry, p: LockedPackage): set<string> {
    set registry | registry in source.cache && Matches(h, source, registry, p)
  }

  predicate NamesSafe(p: LockedPackage) { SafeComponent(ArchiveName(p)) && SafeComponent(SourceName(p)) }

  predicate Resolvable(h: Hash, source: Registry, p: LockedPackage) {
    && NamesSafe(p)
    && |Candidates(h, source, p)| == 1
    && forall registry :: registry in Candidates(h, source, p) ==> Unpacked(source, registry, p)
  }

  /** One package: every matching cache directory is found, and there must be exactly one. */
  method ResolveOne(h: Hash, source: Registry, p: LockedPackage) returns (r: Option<string>)
    ensures r.Some? <==> Resolvable(h, source, p)
    ensures r.Some? ==> Candidates(h, source, p) == {r.value}
  {
    if !NamesSafe(p) { return None; }
    ghost var all := Candidates(h, source, p);
    var found := {};
    var todo := source.cache.Keys;
    while todo != {}
      invariant todo <= source.cache.Keys
      invariant found == all - todo
      invariant forall registry :: registry in found ==> Unpacked(source, registry, p)
    {
      var registry :| registry in todo;
      if Matches(h, source, registry, p) {
        if !Unpacked(source, registry, p) {
          assert registry in all;
          return None;
        }
        found := found + {registry};
      }
      todo := todo - {registry};
    }
    assert found == all;
    if |found| != 1 { return None; }
    var registry :| registry in found;
    SingletonIs(found, registry);
    return Some(registry);
  }

  lemma SingletonIs<T>(s: set<T>, x: T)
    requires |s| == 1 && x in s
    ensures s == {x}
  {
    assert |s - {x}| == 0;
  }

  datatype Home = Home(package: LockedPackage, registry: string)

  /** Where the packages live. */
  ghost predicate HomesFor(h: Hash, source: Registry, packages: seq<LockedPackage>, homes: seq<Home>) {
    && |homes| == |packages|
    && forall i :: 0 <= i < |homes| ==>
         homes[i].package == packages[i] && Resolvable(h, source, packages[i]) && Candidates(h, source, packages[i]) == {homes[i].registry}
  }

  /** There is only one way to resolve. */
  lemma {:induction false} HomesUnique(h: Hash, source: Registry, packages: seq<LockedPackage>, a: seq<Home>, b: seq<Home>)
    requires HomesFor(h, source, packages, a) && HomesFor(h, source, packages, b)
    ensures a == b
  {
    hide Candidates, Resolvable;
    forall i | 0 <= i < |a| ensures a[i] == b[i] {
      assert a[i].registry in {b[i].registry};
    }
  }

  /** Every locked package has exactly one home, or the seal is refused. */
  method Resolve(h: Hash, source: Registry, packages: seq<LockedPackage>) returns (r: Option<seq<Home>>)
    ensures r.Some? <==> forall i :: 0 <= i < |packages| ==> Resolvable(h, source, packages[i])
    ensures r.Some? ==> HomesFor(h, source, packages, r.value)
  {
    hide Candidates, Resolvable;
    var homes: seq<Home> := [];
    for i := 0 to |packages|
      invariant HomesFor(h, source, packages[..i], homes)
    {
      var home := ResolveOne(h, source, packages[i]);
      if home.None? { return None; }
      homes := homes + [Home(packages[i], home.value)];
    }
    assert packages[..|packages|] == packages;
    return Some(homes);
  }

  /** The registries that some package lives in, each once. */
  function RegistriesOf(homes: seq<Home>): seq<string> {
    if homes == [] then []
    else
      var rest, r := RegistriesOf(homes[..|homes| - 1]), homes[|homes| - 1].registry;
      if r in rest then rest else rest + [r]
  }

  lemma {:induction false} RegistriesExact(homes: seq<Home>)
    ensures Distinct(RegistriesOf(homes))
    ensures forall r :: r in RegistriesOf(homes) <==> exists home :: home in homes && home.registry == r
  {
    if homes != [] {
      assert homes == homes[..|homes| - 1] + [homes[|homes| - 1]];
      RegistriesExact(homes[..|homes| - 1]);
    }
  }

  method UsedRegistries(homes: seq<Home>) returns (used: seq<string>)
    ensures used == RegistriesOf(homes)
  {
    used := [];
    for i := 0 to |homes|
      invariant used == RegistriesOf(homes[..i])
    {
      assert homes[..i + 1][..i] == homes[..i];
      if homes[i].registry !in used { used := used + [homes[i].registry]; }
    }
    assert homes[..|homes|] == homes;
  }
}
