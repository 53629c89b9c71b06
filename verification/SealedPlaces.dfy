/**
  A sealed copy, place by place: below the target stand exactly the places of the copied tree,
  every file with its own bytes and every mode read-only.
 */
module SealedPlaces {
  import opened SnapshotTree
  import M = SnapshotManifest
  import opened FileSystems
  import opened SealedCopies
  import opened SnapshotPaths

  /** What stands for an entry: a file with its bytes, readable and executable as before, or a directory. */
  predicate StandsFor(kind: Kind, x: Entry) {
    match x.node
    case File(content, mode) => kind.FileNode? && kind.content == content && M.ReadOnlyMode(kind.mode, mode)
    case Dir(_, _) => kind.DirNode? && M.ReadOnlyMode(kind.mode, 0x49)
    case Link(target) => kind == LinkNode(target)
    case Special => kind.SpecialNode?
  }

  /** The part of a file system below p is this tree, sealed. */
  ghost predicate Copied(nodes: Nodes, p: Path, entries: seq<Entry>) {
    && (forall names, x :: Lies(entries, names, x) ==> p + names in nodes && StandsFor(nodes[p + names], x))
    && (forall q :: q in nodes && Under(p, q) && q != p ==> exists x :: Lies(entries, q[|p|..], x))
  }

  function SealedEntries(p: Path, entries: seq<Entry>): Nodes { RenderedEntries(p, M.SealEntries(entries)) }

  function SealedEntryAt(p: Path, e: Entry): Nodes { Rendered(p + [e.name.bytes], M.SealEntry(e).node) }

  lemma SealedSplit(p: Path, entries: seq<Entry>)
    requires entries != []
    ensures SealedEntries(p, entries) == SealedEntryAt(p, entries[0]) + SealedEntries(p, entries[1..])
  {
    var sealed := M.SealEntries(entries);
    assert sealed[1..] == M.SealEntries(entries[1..]) && sealed[0] == M.SealEntry(entries[0]);
    assert M.SealEntry(entries[0]).name == entries[0].name;
    hide Rendered, M.SealEntries, M.SealEntry;
    assert RenderedEntry(p, sealed[0]) == Rendered(p + [sealed[0].name.bytes], sealed[0].node);
    hide RenderedEntry;
  }

  lemma SealedNone(p: Path)
    ensures SealedEntries(p, []) == map[]
  {}

  /** Whatever an entry list leaves below its directory is the place of something in it. */
  lemma {:induction false} SealedIsPlace(p: Path, entries: seq<Entry>, q: Path)
    requires q in SealedEntries(p, entries)
    ensures |q| > |p| && q[..|p|] == p && exists x :: Lies(entries, q[|p|..], x)
    decreases entries
  {
    hide Lies, LiesFrom, SealedEntries, SealedEntryAt;
    if entries == [] {
      SealedNone(p);
    } else {
      SealedSplit(p, entries);
      if q in SealedEntryAt(p, entries[0]) {
        SealedEntryIsPlace(p, entries[0], q);
        var x :| LiesFrom(entries[0], q[|p|..], x);
        LiesSplit(entries, q[|p|..], x);
      } else {
        SealedIsPlace(p, entries[1..], q);
        var x :| Lies(entries[1..], q[|p|..], x);
        LiesSplit(entries, q[|p|..], x);
      }
    }
  }

  lemma {:induction false} SealedEntryIsPlace(p: Path, e: Entry, q: Path)
    requires q in SealedEntryAt(p, e)
    ensures |q| > |p| && q[..|p|] == p && q[|p|] == e.name.bytes && exists x :: LiesFrom(e, q[|p|..], x)
    decreases e
  {
    var child := p + [e.name.bytes];
    if q == child {
      assert LiesFrom(e, q[|p|..], e);
    } else {
      assert e.node.Dir? && q in SealedEntries(child, e.node.entries);
      SealedIsPlace(child, e.node.entries, q);
      var x :| Lies(e.node.entries, q[|child|..], x);
      assert q[..|p|] == q[..|child|][..|p|] == p && q[|p|] == q[..|child|][|p|];
      assert q[|p|..][1..] == q[|child|..];
      assert LiesFrom(e, q[|p|..], x);
    }
  }

  lemma {:induction false} PlaceIsSealed(p: Path, entries: seq<Entry>, names: seq<Bytes>, x: Entry, prefix: Bytes, depth: nat)
    requires Lies(entries, names, x) && M.DistinctNames(entries) && Plain(entries, prefix, depth)
    ensures p + names in SealedEntries(p, entries) && StandsFor(SealedEntries(p, entries)[p + names], x)
    decreases entries
  {
    hide LiesFrom, SealedEntries, SealedEntryAt, StandsFor;
    var e, rest := entries[0], entries[1..];
    SealedSplit(p, entries);
    LiesSplit(entries, names, x);
    if LiesFrom(e, names, x) {
      PlaceIsSealedFrom(p, e, names, x, prefix, depth);
      if p + names in SealedEntries(p, rest) {
        SealedIsPlace(p, rest, p + names);
        assert (p + names)[|p|..] == names;
      }
      forall y ensures !Lies(rest, names, y) { NotBoth(e, rest, names, x, y, prefix, depth); }
    } else {
      PlaceIsSealed(p, rest, names, x, prefix, depth);
    }
  }

  /** Different entries of a directory lead to different places. */
  lemma NotBoth(e: Entry, rest: seq<Entry>, names: seq<Bytes>, x: Entry, y: Entry, prefix: Bytes, depth: nat)
    requires M.FreshName(e.name, rest) && e.name.Utf8? && Plain(rest, prefix, depth)
    requires LiesFrom(e, names, x)
    ensures !Lies(rest, names, y)
  {
    forall i | 0 <= i < |rest| ensures !LiesFrom(rest[i], names, y) { Utf8At(rest, prefix, depth, i); }
  }

  lemma {:induction false} PlaceIsSealedFrom(p: Path, e: Entry, names: seq<Bytes>, x: Entry, prefix: Bytes, depth: nat)
    requires LiesFrom(e, names, x) && M.DistinctWithin(e) && PlainEntry(e, prefix, depth)
    ensures p + names in SealedEntryAt(p, e) && StandsFor(SealedEntryAt(p, e)[p + names], x)
    decreases e
  {
    var child, name := p + [e.name.bytes], e.name.bytes;
    assert names == [name] + names[1..] && p + names == child + names[1..];
    if |names| == 1 && x == e {
      assert p + names == child;
      Itself(p, e);
    } else {
      var sub := e.node.entries;
      PlaceIsSealed(child, sub, names[1..], x, Join(prefix, name), depth + 1);
      assert SealedEntryAt(p, e) == map[child := DirNode(M.SEALED_DIR)] + SealedEntries(child, sub);
    }
  }

  lemma Itself(p: Path, e: Entry)
    ensures var child := p + [e.name.bytes]; child in SealedEntryAt(p, e) && StandsFor(SealedEntryAt(p, e)[child], e)
  {
    var child := p + [e.name.bytes];
    match e.node {
      case File(_, mode) => M.SealModeBits(mode);
      case Dir(sub, _) =>
        M.SealModeBits(0);
        if child in SealedEntries(child, sub) { SealedIsPlace(child, sub, child); }
      case _ =>
    }
  }

  /** A file system that holds a sealed tree, and only it, at a path where nothing was before. */
  lemma SealedIsCopied(before: Nodes, p: Path, entries: seq<Entry>, prefix: Bytes, depth: nat)
    requires M.DistinctNames(entries) && Plain(entries, prefix, depth) && Absent(before, p)
    ensures var after := before + Rendered(p, SealedDir(entries));
            p in after && after[p] == DirNode(M.SEALED_DIR) && Copied(after, p, entries)
  {
    var part := Rendered(p, SealedDir(entries));
    assert part == map[p := DirNode(M.SEALED_DIR)] + SealedEntries(p, entries);
    if p in SealedEntries(p, entries) { SealedIsPlace(p, entries, p); }
    var after := before + part;
    forall names, x | Lies(entries, names, x) ensures p + names in after && StandsFor(after[p + names], x) {
      PlaceIsSealed(p, entries, names, x, prefix, depth);
    }
    forall q | q in after && Under(p, q) && q != p ensures exists x :: Lies(entries, q[|p|..], x) { SealedIsPlace(p, entries, q); }
  }
}
