/**
  What a manifest says about a tree: which file lies where.  A place is the list of names that
  leads to it from the root; a row's path is those names with slashes between them.
 */
module SnapshotPaths {
  import opened SnapshotTree
  import opened Texts
  import M = SnapshotManifest

  const SLASH: nat := 0x2F

  /** These names, one directory after another, lead to a file with this content. */
  ghost predicate Leads(entries: seq<Entry>, names: seq<Bytes>, content: Bytes)
    decreases entries
  {
    exists i :: 0 <= i < |entries| && LeadsFrom(entries[i], names, content)
  }

  ghost predicate LeadsFrom(e: Entry, names: seq<Bytes>, content: Bytes)
    decreases e
  {
    && names != [] && names[0] == e.name.bytes
    && match e.node
       case File(c, _) => |names| == 1 && c == content
       case Dir(sub, _) => Leads(sub, names[1..], content)
       case _ => false
  }

  /** A name as file systems have them: not empty, without a slash or a NUL. */
  predicate FileName(name: Bytes) { name != [] && SLASH !in name && 0 !in name }

  predicate FileNames(entries: seq<Entry>)
    decreases entries
  {
    entries == [] || (FileNamesWithin(entries[0]) && FileNames(entries[1..]))
  }

  predicate FileNamesWithin(e: Entry)
    decreases e
  {
    FileName(e.name.bytes) && (e.node.Dir? ==> FileNames(e.node.entries))
  }

  // ----------------------------------------------------------------- paths and names

  /** The parts of a path between slashes; always at least one. */
  function Segments(path: Bytes): (names: seq<Bytes>)
    ensures |names| >= 1
  {
    if path == [] then [[]]
    else
      var rest := Segments(path[1..]);
      if path[0] == SLASH then [[]] + rest else [[path[0]] + rest[0]] + rest[1..]
  }

  function Slashed(names: seq<Bytes>): Bytes
    requires names != []
  {
    if |names| == 1 then names[0] else names[0] + [SLASH] + Slashed(names[1..])
  }

  lemma {:induction false} SegmentsJoin(path: Bytes)
    ensures Slashed(Segments(path)) == path
  {
    if path != [] {
      SegmentsJoin(path[1..]);
      var rest := Segments(path[1..]);
      assert path == [path[0]] + path[1..];
      if path[0] == SLASH {
        assert ([[]] + rest)[1..] == rest;
      } else {
        assert ([[path[0]] + rest[0]] + rest[1..])[1..] == rest[1..];
      }
    }
  }

  lemma {:induction false} SegmentsFirst(name: Bytes, rest: Bytes)
    requires SLASH !in name
    ensures Segments(name) == [name]
    ensures Segments(name + [SLASH] + rest) == [name] + Segments(rest)
  {
    if name == [] {
      assert ([] + [SLASH] + rest)[1..] == rest;
    } else {
      SegmentsFirst(name[1..], rest);
      assert (name + [SLASH] + rest)[1..] == name[1..] + [SLASH] + rest && [name[0]] + name[1..] == name;
    }
  }

  lemma {:induction false} SlashedParts(names: seq<Bytes>)
    requires names != [] && forall i :: 0 <= i < |names| ==> SLASH !in names[i]
    ensures Segments(Slashed(names)) == names
  {
    if |names| == 1 {
      SegmentsFirst(names[0], []);
    } else {
      SlashedParts(names[1..]);
      SegmentsFirst(names[0], Slashed(names[1..]));
      assert names == [names[0]] + names[1..];
    }
  }

  lemma {:induction false} LeadsNames(entries: seq<Entry>, names: seq<Bytes>, content: Bytes)
    requires FileNames(entries) && Leads(entries, names, content)
    ensures names != [] && forall i :: 0 <= i < |names| ==> FileName(names[i])
    decreases entries
  {
    var i :| 0 <= i < |entries| && LeadsFrom(entries[i], names, content);
    NamesAt(entries, i);
    LeadsNamesFrom(entries[i], names, content);
  }

  lemma {:induction false} LeadsNamesFrom(e: Entry, names: seq<Bytes>, content: Bytes)
    requires FileNamesWithin(e) && LeadsFrom(e, names, content)
    ensures names != [] && forall i :: 0 <= i < |names| ==> FileName(names[i])
    decreases e
  {
    assert names == [names[0]] + names[1..];
    if e.node.Dir? { LeadsNames(e.node.entries, names[1..], content); }
  }

  lemma {:induction false} NamesAt(entries: seq<Entry>, i: nat)
    requires FileNames(entries) && i < |entries|
    ensures FileNamesWithin(entries[i])
  {
    if i > 0 { NamesAt(entries[1..], i - 1); }
  }

  // --------------------------------------------------------------------- rows and places

  lemma LeadsSplit(entries: seq<Entry>, names: seq<Bytes>, content: Bytes)
    requires entries != []
    ensures Leads(entries, names, content) <==> LeadsFrom(entries[0], names, content) || Leads(entries[1..], names, content)
  {
    if i :| 1 <= i < |entries| && LeadsFrom(entries[i], names, content) { assert entries[1..][i - 1] == entries[i]; }
    if i :| 0 <= i < |entries[1..]| && LeadsFrom(entries[1..][i], names, content) { assert entries[i + 1] == entries[1..][i]; }
  }

  /** The path of a place below a directory. */
  function PathAt(prefix: Bytes, names: seq<Bytes>): Bytes
    requires names != []
  {
    if prefix == [] then Slashed(names) else prefix + [SLASH] + Slashed(names)
  }

  ghost predicate Placed(entries: seq<Entry>, prefix: Bytes, r: Row) {
    r.length == |r.content| && exists names :: Leads(entries, names, r.content) && names != [] && r.path == PathAt(prefix, names)
  }

  ghost predicate PlacedFrom(e: Entry, prefix: Bytes, r: Row) {
    r.length == |r.content| && exists names :: LeadsFrom(e, names, r.content) && names != [] && r.path == PathAt(prefix, names)
  }

  lemma {:induction false} RowsPlaced(entries: seq<Entry>, prefix: Bytes, r: Row)
    requires FileNames(entries)
    ensures r in RowsOf(entries, prefix) <==> Placed(entries, prefix, r)
    decreases entries
  {
    hide LeadsFrom, PathAt, RowsOfEntry;
    if entries != [] {
      RowsPlacedFrom(entries[0], prefix, r);
      RowsPlaced(entries[1..], prefix, r);
      forall names ensures Leads(entries, names, r.content) <==> LeadsFrom(entries[0], names, r.content) || Leads(entries[1..], names, r.content) {
        LeadsSplit(entries, names, r.content);
      }
    }
  }

  lemma {:induction false} RowsPlacedFrom(e: Entry, prefix: Bytes, r: Row)
    requires FileNamesWithin(e)
    ensures r in RowsOfEntry(e, prefix) <==> PlacedFrom(e, prefix, r)
    decreases e
  {
    var name := e.name.bytes;
    match e.node {
      case File(content, _) =>
        hide FileName;
        assert PathAt(prefix, [name]) == Join(prefix, name);
        if r in RowsOfEntry(e, prefix) { assert LeadsFrom(e, [name], r.content); }
        if PlacedFrom(e, prefix, r) {
          var names :| LeadsFrom(e, names, r.content) && names != [] && r.path == PathAt(prefix, names);
          assert names == [name];
        }
      case Dir(sub, _) =>
        RowsPlaced(sub, Join(prefix, name), r);
        if r in RowsOfEntry(e, prefix) {
          var below :| Leads(sub, below, r.content) && below != [] && r.path == PathAt(Join(prefix, name), below);
          PathDeeper(prefix, name, below);
          assert LeadsFrom(e, [name] + below, r.content) by { assert ([name] + below)[1..] == below; }
        }
        if PlacedFrom(e, prefix, r) {
          var names :| LeadsFrom(e, names, r.content) && names != [] && r.path == PathAt(prefix, names);
          LeadsNames(sub, names[1..], r.content);
          PathDeeper(prefix, name, names[1..]);
          assert names == [name] + names[1..];
        }
      case _ =>
        assert !PlacedFrom(e, prefix, r);
    }
  }

  lemma PathDeeper(prefix: Bytes, name: Bytes, below: seq<Bytes>)
    requires name != [] && below != []
    ensures PathAt(prefix, [name] + below) == PathAt(Join(prefix, name), below)
  {
    assert ([name] + below)[1..] == below;
    assert Slashed([name] + below) == name + [SLASH] + Slashed(below);
    if prefix != [] {
      assert prefix + [SLASH] + (name + [SLASH] + Slashed(below)) == prefix + [SLASH] + name + [SLASH] + Slashed(below);
    }
  }

  /**
    The rows of an accepted tree: one path, length and content is collected exactly when the
    parts of the path lead from the root to a file of that content, and that is its length.
   */
  lemma RowsExact(entries: seq<Entry>, r: Row)
    requires Acceptable(entries) && FileNames(entries)
    ensures WalkDir(entries, [], 0, EMPTY_BUDGET).Ok?
    ensures r in WalkDir(entries, [], 0, EMPTY_BUDGET).value.rows <==> r.length == |r.content| && Leads(entries, Segments(r.path), r.content)
  {
    WalkExact(entries, [], 0, EMPTY_BUDGET);
    RowsPlaced(entries, [], r);
    hide WalkEntries, RowsOf, Leads;
    if Placed(entries, [], r) {
      var names :| Leads(entries, names, r.content) && names != [] && r.path == PathAt([], names);
      LeadsNames(entries, names, r.content);
      SlashedParts(names);
    }
    if Leads(entries, Segments(r.path), r.content) { SegmentsJoin(r.path); }
  }

  // ---------------------------------------------------------------- which trees pass

  /** These names lead to this entry, whatever it is. */
  ghost predicate Lies(entries: seq<Entry>, names: seq<Bytes>, x: Entry)
    decreases entries
  {
    exists i :: 0 <= i < |entries| && LiesFrom(entries[i], names, x)
  }

  ghost predicate LiesFrom(e: Entry, names: seq<Bytes>, x: Entry)
    decreases e
  {
    names != [] && names[0] == e.name.bytes && ((|names| == 1 && x == e) || (e.node.Dir? && Lies(e.node.entries, names[1..], x)))
  }

  /** A text name, a path within 1024 bytes, a file within one gibibyte or a directory within 64 levels. */
  predicate FitsAt(names: seq<Bytes>, x: Entry, prefix: Bytes, depth: nat)
    requires names != []
  {
    && x.name.Utf8? && |PathAt(prefix, names)| <= 1024
    && match x.node
       case File(content, _) => |content| <= 1_073_741_824
       case Dir(_, _) => depth + |names| <= 64
       case _ => false
  }

  ghost predicate AllFit(entries: seq<Entry>, prefix: Bytes, depth: nat) {
    forall names, x :: Lies(entries, names, x) && names != [] ==> FitsAt(names, x, prefix, depth)
  }

  ghost predicate AllFitFrom(e: Entry, prefix: Bytes, depth: nat) {
    forall names, x :: LiesFrom(e, names, x) && names != [] ==> FitsAt(names, x, prefix, depth)
  }

  lemma LiesSplit(entries: seq<Entry>, names: seq<Bytes>, x: Entry)
    requires entries != []
    ensures Lies(entries, names, x) <==> LiesFrom(entries[0], names, x) || Lies(entries[1..], names, x)
  {
    if i :| 1 <= i < |entries| && LiesFrom(entries[i], names, x) { assert entries[1..][i - 1] == entries[i]; }
    if i :| 0 <= i < |entries[1..]| && LiesFrom(entries[1..][i], names, x) { assert entries[i + 1] == entries[1..][i]; }
  }

  lemma {:induction false} PlainPlaces(entries: seq<Entry>, prefix: Bytes, depth: nat)
    requires FileNames(entries)
    ensures Plain(entries, prefix, depth) <==> AllFit(entries, prefix, depth)
    decreases entries
  {
    hide PlainEntry, LiesFrom, FitsAt, FileNamesWithin;
    if entries != [] {
      PlainPlacesFrom(entries[0], prefix, depth);
      PlainPlaces(entries[1..], prefix, depth);
      forall names, x ensures Lies(entries, names, x) <==> LiesFrom(entries[0], names, x) || Lies(entries[1..], names, x) {
        LiesSplit(entries, names, x);
      }
      hide Lies;
    }
  }

  lemma {:induction false} PlainPlacesFrom(e: Entry, prefix: Bytes, depth: nat)
    requires FileNamesWithin(e)
    ensures PlainEntry(e, prefix, depth) <==> AllFitFrom(e, prefix, depth)
    decreases e
  {
    var name := e.name.bytes;
    assert LiesFrom(e, [name], e) && PathAt(prefix, [name]) == Join(prefix, name);
    assert AllFitFrom(e, prefix, depth) ==> FitsAt([name], e, prefix, depth);
    if e.node.Dir? {
      var sub, path := e.node.entries, Join(prefix, name);
      PlainPlaces(sub, path, depth + 1);
      if AllFitFrom(e, prefix, depth) {
        forall names, x | Lies(sub, names, x) && names != [] ensures FitsAt(names, x, path, depth + 1) {
          assert LiesFrom(e, [name] + names, x) by { assert ([name] + names)[1..] == names; }
          PathDeeper(prefix, name, names);
        }
      }
      if PlainEntry(e, prefix, depth) {
        forall names, x | LiesFrom(e, names, x) && names != [] ensures FitsAt(names, x, prefix, depth) { FitsDeeper(e, prefix, depth, names, x); }
      }
    } else {
      OnlyItself(e);
    }
  }

  lemma OnlyItself(e: Entry)
    requires !e.node.Dir?
    ensures forall names, x :: LiesFrom(e, names, x) ==> names == [e.name.bytes] && x == e
  {}

  lemma FitsDeeper(e: Entry, prefix: Bytes, depth: nat, names: seq<Bytes>, x: Entry)
    requires FileNamesWithin(e) && PlainEntry(e, prefix, depth) && e.node.Dir? && LiesFrom(e, names, x)
    requires AllFit(e.node.entries, Join(prefix, e.name.bytes), depth + 1)
    ensures FitsAt(names, x, prefix, depth)
  {
    var name := e.name.bytes;
    assert names == [name] + names[1..];
    if |names| == 1 {
      assert x == e || Lies(e.node.entries, [], x);
      assert PathAt(prefix, [name]) == Join(prefix, name);
    } else {
      PathDeeper(prefix, name, names[1..]);
    }
  }

  /** A tree is accepted exactly when everything in it fits where it lies and the totals are within bounds. */
  lemma AcceptedExactly(entries: seq<Entry>)
    requires FileNames(entries)
    ensures WalkDir(entries, [], 0, EMPTY_BUDGET).Ok? <==>
              AllFit(entries, [], 0) && Count(entries) <= 1_000_000 && Total(entries) <= 17_179_869_184
  {
    hide Plain, AllFit;
    WalkExact(entries, [], 0, EMPTY_BUDGET);
    PlainPlaces(entries, [], 0);
  }

  // ------------------------------------------------------------- digests and trees

  /** Two trees have the same files at the same places. */
  ghost predicate SameFiles(a: seq<Entry>, b: seq<Entry>) {
    forall names, content :: Leads(a, names, content) <==> Leads(b, names, content)
  }

  ghost predicate CollisionFree(h: M.Hash) {
    (forall x, y :: h(x) == h(y) ==> x == y) && forall x :: NulFree(h(x))
  }

  function Rows(entries: seq<Entry>): seq<Row> { RowsOf(entries, []) }

  lemma WalkRows(entries: seq<Entry>)
    requires Acceptable(entries)
    ensures WalkDir(entries, [], 0, EMPTY_BUDGET).Ok? && WalkDir(entries, [], 0, EMPTY_BUDGET).value.rows == Rows(entries)
  {
    WalkExact(entries, [], 0, EMPTY_BUDGET);
  }

  lemma SamePlacesSameRows(a: seq<Entry>, b: seq<Entry>)
    requires FileNames(a) && FileNames(b)
    requires Acceptable(a) && Acceptable(b)
    ensures SameFiles(a, b) ==> forall r :: r in Rows(a) <==> r in Rows(b)
    ensures (forall r :: r in Rows(a) <==> r in Rows(b)) ==> SameFiles(a, b)
  {
    WalkRows(a);
    WalkRows(b);
    hide RowsOf, Acceptable, WalkDir, Leads;
    forall r ensures r in Rows(a) <==> r.length == |r.content| && Leads(a, Segments(r.path), r.content) { RowsExact(a, r); }
    forall r ensures r in Rows(b) <==> r.length == |r.content| && Leads(b, Segments(r.path), r.content) { RowsExact(b, r); }
    if forall r :: r in Rows(a) <==> r in Rows(b) {
      forall names, content ensures Leads(a, names, content) <==> Leads(b, names, content) {
        if Leads(a, names, content) { LeadsNames(a, names, content); }
        if Leads(b, names, content) { LeadsNames(b, names, content); }
        if Leads(a, names, content) || Leads(b, names, content) {
          SlashedParts(names);
          var r := Row(Slashed(names), |content|, content);
          assert r in Rows(a) <==> r in Rows(b);
        }
      }
    }
  }

  lemma RowsPrintable(h: M.Hash, entries: seq<Entry>)
    requires FileNames(entries) && CollisionFree(h)
    ensures M.Printable(h, Rows(entries))
  {
    forall r | r in Rows(entries) ensures NulFree(r.path) {
      RowsPlaced(entries, [], r);
      var names :| Leads(entries, names, r.content) && names != [] && r.path == PathAt([], names);
      LeadsNames(entries, names, r.content);
      SlashedNulFree(names);
    }
  }

  lemma {:induction false} SlashedNulFree(names: seq<Bytes>)
    requires names != [] && forall i :: 0 <= i < |names| ==> FileName(names[i])
    ensures NulFree(Slashed(names))
  {
    if |names| > 1 { SlashedNulFree(names[1..]); }
  }

  // ---------------------------------------------------------- no place is listed twice

  ghost predicate NoneTwice(rows: seq<Row>) { forall i, j :: 0 <= i < j < |rows| ==> rows[i].path != rows[j].path }

  lemma {:induction false} RowsOnce(entries: seq<Entry>, prefix: Bytes, depth: nat)
    requires FileNames(entries) && M.DistinctNames(entries) && Plain(entries, prefix, depth)
    ensures NoneTwice(RowsOf(entries, prefix))
    decreases entries
  {
    if entries != [] {
      var e, rest := entries[0], entries[1..];
      RowsOnceWithin(e, prefix, depth);
      RowsOnce(rest, prefix, depth);
      var x, y := RowsOfEntry(e, prefix), RowsOf(rest, prefix);
      forall r, s | r in x && s in y ensures r.path != s.path { OtherPlace(e, rest, prefix, depth, r, s); }
      hide RowsOf, RowsOfEntry;
      TwoLists(x, y);
    }
  }

  lemma TwoLists(x: seq<Row>, y: seq<Row>)
    requires NoneTwice(x) && NoneTwice(y) && forall r, s :: r in x && s in y ==> r.path != s.path
    ensures NoneTwice(x + y)
  {}

  lemma {:induction false} RowsOnceWithin(e: Entry, prefix: Bytes, depth: nat)
    requires FileNamesWithin(e) && M.DistinctWithin(e) && PlainEntry(e, prefix, depth)
    ensures NoneTwice(RowsOfEntry(e, prefix))
    decreases e
  {
    if e.node.Dir? { RowsOnce(e.node.entries, Join(prefix, e.name.bytes), depth + 1); }
  }

  lemma OtherPlace(e: Entry, rest: seq<Entry>, prefix: Bytes, depth: nat, r: Row, s: Row)
    requires FileNamesWithin(e) && FileNames(rest) && M.FreshName(e.name, rest) && e.name.Utf8? && Plain(rest, prefix, depth)
    requires r in RowsOfEntry(e, prefix) && s in RowsOf(rest, prefix)
    ensures r.path != s.path
  {
    RowsPlacedFrom(e, prefix, r);
    RowsPlaced(rest, prefix, s);
    var a :| LeadsFrom(e, a, r.content) && a != [] && r.path == PathAt(prefix, a);
    var b :| Leads(rest, b, s.content) && b != [] && s.path == PathAt(prefix, b);
    var i :| 0 <= i < |rest| && LeadsFrom(rest[i], b, s.content);
    Utf8At(rest, prefix, depth, i);
    LeadsNamesFrom(e, a, r.content);
    LeadsNames(rest, b, s.content);
    SlashedParts(a);
    SlashedParts(b);
    SamePath(prefix, a, b);
  }

  lemma SamePath(prefix: Bytes, a: seq<Bytes>, b: seq<Bytes>)
    requires a != [] && b != []
    ensures PathAt(prefix, a) == PathAt(prefix, b) ==> Slashed(a) == Slashed(b)
  {
    hide Slashed;
    if prefix != [] {
      assert PathAt(prefix, a)[|prefix| + 1..] == Slashed(a) && PathAt(prefix, b)[|prefix| + 1..] == Slashed(b);
    }
  }

  lemma {:induction false} Utf8At(entries: seq<Entry>, prefix: Bytes, depth: nat, i: nat)
    requires Plain(entries, prefix, depth) && i < |entries|
    ensures entries[i].name.Utf8?
  {
    if i > 0 { Utf8At(entries[1..], prefix, depth, i - 1); }
  }

  lemma {:induction false} SameSetSameRows(a: seq<Row>, b: seq<Row>)
    requires NoneTwice(a) && NoneTwice(b) && forall r :: r in a <==> r in b
    ensures multiset(a) == multiset(b)
  {
    forall r ensures multiset(a)[r] == multiset(b)[r] {
      OnceInRows(a, r);
      OnceInRows(b, r);
    }
  }

  lemma {:induction false} OnceInRows(a: seq<Row>, r: Row)
    requires NoneTwice(a)
    ensures multiset(a)[r] == if r in a then 1 else 0
  {
    if a != [] {
      OnceInRows(a[1..], r);
      assert a == [a[0]] + a[1..];
      assert r in a[1..] ==> r.path != a[0].path;
    }
  }

  /**
    A manifest digest stands for the files of a tree and where they lie, and for nothing else:
    without collisions, two accepted trees have the same digest exactly when the same names lead
    to the same contents in both.
   */
  lemma DigestExact(h: M.Hash, a: seq<Entry>, b: seq<Entry>)
    requires Acceptable(a) && Acceptable(b) && FileNames(a) && FileNames(b) && M.DistinctNames(a) && M.DistinctNames(b) && CollisionFree(h)
    ensures M.ManifestDigest(h, a).Ok? && M.ManifestDigest(h, b).Ok?
    ensures M.ManifestDigest(h, a) == M.ManifestDigest(h, b) <==> SameFiles(a, b)
  {
    WalkRows(a);
    WalkRows(b);
    SamePlacesSameRows(a, b);
    RowsPrintable(h, a);
    RowsPrintable(h, b);
    RowsOnce(a, [], 0);
    RowsOnce(b, [], 0);
    hide RowsOf, WalkDir, Acceptable, SameFiles, M.ManifestText, FileNames, M.DistinctNames;
    if SameFiles(a, b) {
      SameSetSameRows(Rows(a), Rows(b));
      TextOrderFree(h, Rows(a), Rows(b));
    }
    if M.ManifestDigest(h, a) == M.ManifestDigest(h, b) {
      M.ManifestDetermines(h, Rows(a), Rows(b));
      SamePins(h, a, b);
    }
  }

  lemma TextOrderFree(h: M.Hash, a: seq<Row>, b: seq<Row>)
    requires multiset(a) == multiset(b)
    ensures M.ManifestText(h, a) == M.ManifestText(h, b)
  {
    M.RowTextsPermute(h, a, b);
    SortOrderFree(M.RowTexts(h, a), M.RowTexts(h, b));
  }

  lemma SamePins(h: M.Hash, a: seq<Entry>, b: seq<Entry>)
    requires FileNames(a) && FileNames(b) && CollisionFree(h)
    requires M.Pins(h, Rows(a)) == M.Pins(h, Rows(b))
    ensures forall r :: r in Rows(a) <==> r in Rows(b)
  {
    hide RowsOf;
    forall r | r in Rows(a) ensures r in Rows(b) { PinnedToo(h, Rows(a), Rows(b), r); }
    forall r | r in Rows(b) ensures r in Rows(a) { PinnedToo(h, Rows(b), Rows(a), r); }
  }

  lemma PinnedToo(h: M.Hash, a: seq<Row>, b: seq<Row>, r: Row)
    requires CollisionFree(h) && r in a
    requires M.Pins(h, a) == M.Pins(h, b)
    ensures r in b
  {
    assert M.PinOf(h, r) in M.Pins(h, a);
    var s :| s in b && M.PinOf(h, s) == M.PinOf(h, r);
    assert h(s.content) == h(r.content);
    assert s == r;
  }
}
