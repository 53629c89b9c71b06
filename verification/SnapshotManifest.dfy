/**
  The content manifest of a snapshot and the sealed copy of a tree.  SHA-256 is the
  parameter `h`; all that is ever needed of it is that its hex text holds no NUL.
 */
module SnapshotManifest {
  import opened SnapshotTree
  import opened Texts

  type Hash = Text -> Text

  function RowText(h: Hash, r: Row): Text { r.path + [0] + Decimal(r.length) + [0] + h(r.content) }

  function RowTexts(h: Hash, rows: seq<Row>): seq<Text> {
    if rows == [] then [] else [RowText(h, rows[0])] + RowTexts(h, rows[1..])
  }

  function ManifestText(h: Hash, rows: seq<Row>): Text {
    Codes("harness.m2.cache-manifest.v1") + [0] + JoinNul(Sort(RowTexts(h, rows)))
  }

  function ManifestDigest(h: Hash, entries: seq<Entry>): Result<Text> {
    var walk :- WalkDir(entries, [], 0, EMPTY_BUDGET);
    Ok(h(ManifestText(h, walk.rows)))
  }

  method ContentManifestDigest(h: Hash, entries: seq<Entry>) returns (r: Result<Text>)
    ensures r == ManifestDigest(h, entries)
    ensures r.Ok? <==> Acceptable(entries)
  {
    WalkExact(entries, [], 0, EMPTY_BUDGET);
    var budget := new SnapshotBudget();
    var rows := Collect(entries, [], 0, budget);
    if rows.Err? { return Err(rows.refusal); }
    return Ok(h(ManifestText(h, rows.value)));
  }

  // ------------------------------------------------------- order independence

  lemma {:induction false} RowTextsAppend(h: Hash, a: seq<Row>, b: seq<Row>)
    ensures RowTexts(h, a + b) == RowTexts(h, a) + RowTexts(h, b)
  {
    if a == [] {
      assert a + b == b;
    } else {
      assert (a + b)[1..] == a[1..] + b;
      RowTextsAppend(h, a[1..], b);
    }
  }

  function Out<T>(s: seq<T>, i: nat): seq<T>
    requires i < |s|
  {
    s[..i] + s[i + 1..]
  }

  lemma TakenOut<T>(s: seq<T>, i: nat)
    requires i < |s|
    ensures multiset(Out(s, i)) == multiset(s) - multiset{s[i]}
  {
    assert s == s[..i] + [s[i]] + s[i + 1..];
  }

  lemma RowTextsOut(h: Hash, rows: seq<Row>, i: nat)
    requires i < |rows|
    ensures multiset(RowTexts(h, rows)) == multiset(RowTexts(h, Out(rows, i))) + multiset{RowText(h, rows[i])}
  {
    hide RowText, RowTexts;
    var one := [rows[i]];
    assert rows == rows[..i] + (one + rows[i + 1..]);
    RowTextsAppend(h, rows[..i], one + rows[i + 1..]);
    RowTextsAppend(h, one, rows[i + 1..]);
    RowTextsAppend(h, rows[..i], rows[i + 1..]);
    RowTextsOne(h, rows[i]);
  }

  lemma RowTextsOne(h: Hash, r: Row)
    ensures RowTexts(h, [r]) == [RowText(h, r)]
  {
    assert [r][1..] == [];
  }

  lemma {:induction false} RowTextsPermute(h: Hash, a: seq<Row>, b: seq<Row>)
    requires multiset(a) == multiset(b)
    ensures multiset(RowTexts(h, a)) == multiset(RowTexts(h, b))
    decreases |a|
  {
    if a == [] {
      assert |multiset(b)| == 0;
    } else {
      assert a[0] in multiset(b);
      var i :| 0 <= i < |b| && b[i] == a[0];
      TakenOut(a, 0);
      TakenOut(b, i);
      RowTextsPermute(h, Out(a, 0), Out(b, i));
      RowTextsOut(h, a, 0);
      RowTextsOut(h, b, i);
    }
  }

  /** The manifest digest of a directory does not depend on how its levels are enumerated. */
  lemma ManifestOrderFree(h: Hash, a: seq<Entry>, b: seq<Entry>)
    requires Shuffled(a, b)
    ensures ManifestDigest(h, a).Ok? <==> Acceptable(a)
    ensures ManifestDigest(h, b).Ok? <==> Acceptable(a)
    ensures Acceptable(a) ==> ManifestDigest(h, a) == ManifestDigest(h, b)
  {
    WalkIsOrderFree(a, b);
    if Acceptable(a) {
      var x, y := WalkDir(a, [], 0, EMPTY_BUDGET).value.rows, WalkDir(b, [], 0, EMPTY_BUDGET).value.rows;
      RowTextsPermute(h, x, y);
      SortOrderFree(RowTexts(h, x), RowTexts(h, y));
    }
  }

  // ------------------------------------------------------ what a manifest pins

  /** A row's identity: path, length and content digest. */
  datatype Pin = Pin(path: Text, length: nat, digest: Text)

  function PinOf(h: Hash, r: Row): Pin { Pin(r.path, r.length, h(r.content)) }

  function Pins(h: Hash, rows: seq<Row>): set<Pin> { set r | r in rows :: PinOf(h, r) }

  ghost predicate Printable(h: Hash, rows: seq<Row>) {
    forall r :: r in rows ==> NulFree(r.path) && NulFree(h(r.content))
  }

  lemma RowTextFields(h: Hash, r: Row)
    requires NulFree(r.path) && NulFree(h(r.content))
    ensures Split(RowText(h, r)) == [r.path, Decimal(r.length), h(r.content)]
  {
    var tail := Decimal(r.length) + [0] + h(r.content);
    assert RowText(h, r) == r.path + [0] + tail;
    SplitAtNul(r.path, tail);
    SplitAtNul(Decimal(r.length), h(r.content));
    SplitFree(r.path);
    SplitFree(Decimal(r.length));
    SplitFree(h(r.content));
  }

  lemma RowTextPins(h: Hash, r: Row, s: Row)
    requires NulFree(r.path) && NulFree(h(r.content)) && NulFree(s.path) && NulFree(h(s.content))
    requires RowText(h, r) == RowText(h, s)
    ensures PinOf(h, r) == PinOf(h, s)
  {
    RowTextFields(h, r);
    RowTextFields(h, s);
    var a, b := Split(RowText(h, r)), Split(RowText(h, s));
    assert a[0] == b[0] && a[1] == b[1] && a[2] == b[2];
    DecimalInjective(r.length, s.length);
  }

  lemma {:induction false} RowTextsMembers(h: Hash, rows: seq<Row>, t: Text)
    ensures t in RowTexts(h, rows) <==> exists r :: r in rows && RowText(h, r) == t
  {
    if rows != [] {
      RowTextsMembers(h, rows[1..], t);
      assert rows == [rows[0]] + rows[1..];
    }
  }

  lemma RowTextsThreeFields(h: Hash, rows: seq<Row>, t: Text)
    requires Printable(h, rows) && t in Sort(RowTexts(h, rows))
    ensures |Split(t)| == 3
  {
    assert t in multiset(Sort(RowTexts(h, rows)));
    RowTextsMembers(h, rows, t);
    var r :| r in rows && RowText(h, r) == t;
    RowTextFields(h, r);
  }

  /** Equal manifest texts pin the same path, length and digest for every file. */
  lemma ManifestDetermines(h: Hash, a: seq<Row>, b: seq<Row>)
    requires Printable(h, a) && Printable(h, b)
    requires ManifestText(h, a) == ManifestText(h, b)
    ensures multiset(RowTexts(h, a)) == multiset(RowTexts(h, b))
    ensures Pins(h, a) == Pins(h, b)
  {
    var s, t := Sort(RowTexts(h, a)), Sort(RowTexts(h, b));
    var header := Codes("harness.m2.cache-manifest.v1") + [0];
    assert JoinNul(s) == ManifestText(h, a)[|header|..];
    assert JoinNul(t) == ManifestText(h, b)[|header|..];
    forall x | x in s ensures |Split(x)| == 3 { RowTextsThreeFields(h, a, x); }
    forall x | x in t ensures |Split(x)| == 3 { RowTextsThreeFields(h, b, x); }
    JoinedRowsInjective(s, t, 3);
    forall r | r in a ensures PinOf(h, r) in Pins(h, b) { PinnedElsewhere(h, a, b, r); }
    forall r | r in b ensures PinOf(h, r) in Pins(h, a) { PinnedElsewhere(h, b, a, r); }
  }

  /** A manifest field by field, between NULs: its name, then path, length and digest of every file, the files in the order of those texts. */
  lemma ManifestFields(h: Hash, rows: seq<Row>)
    requires Printable(h, rows) && rows != []
    ensures var texts := Sort(RowTexts(h, rows));
            && Split(ManifestText(h, rows)) == [Codes("harness.m2.cache-manifest.v1")] + Flatten(SplitAll(texts))
            && Sorted(texts) && |texts| == |rows|
            && (forall t :: t in texts ==> exists r :: r in rows && Split(t) == [r.path, Decimal(r.length), h(r.content)])
            && (forall r :: r in rows ==> exists t :: t in texts && Split(t) == [r.path, Decimal(r.length), h(r.content)])
  {
    var texts, header := Sort(RowTexts(h, rows)), Codes("harness.m2.cache-manifest.v1");
    HeaderFree();
    hide Codes, Split, JoinNul, Sort, RowText;
    SplitAtNul(header, JoinNul(texts));
    SplitFree(header);
    SortSorted(RowTexts(h, rows));
    RowTextsLength(h, rows);
    assert |texts| == |multiset(texts)| == |multiset(RowTexts(h, rows))| == |RowTexts(h, rows)|;
    SplitJoined(texts);
    forall t | t in texts ensures exists r :: r in rows && Split(t) == [r.path, Decimal(r.length), h(r.content)] {
      assert t in multiset(texts);
      RowTextsMembers(h, rows, t);
      var r :| r in rows && RowText(h, r) == t;
      RowTextFields(h, r);
    }
    forall r | r in rows ensures exists t :: t in texts && Split(t) == [r.path, Decimal(r.length), h(r.content)] {
      RowTextsMembers(h, rows, RowText(h, r));
      assert RowText(h, r) in multiset(texts);
      RowTextFields(h, r);
    }
  }

  lemma HeaderFree()
    ensures NulFree(Codes("harness.m2.cache-manifest.v1"))
  {
    var name := "harness.m2.cache-manifest.v1";
    assert forall i :: 0 <= i < |name| ==> name[i] as nat > 0;
  }

  lemma {:induction false} RowTextsLength(h: Hash, rows: seq<Row>)
    ensures |RowTexts(h, rows)| == |rows|
  {
    if rows != [] { RowTextsLength(h, rows[1..]); }
  }

  lemma PinnedElsewhere(h: Hash, a: seq<Row>, b: seq<Row>, r: Row)
    requires Printable(h, a) && Printable(h, b) && r in a
    requires multiset(RowTexts(h, a)) == multiset(RowTexts(h, b))
    ensures exists s :: s in b && PinOf(h, s) == PinOf(h, r)
  {
    RowTextsMembers(h, a, RowText(h, r));
    assert RowText(h, r) in multiset(RowTexts(h, b));
    RowTextsMembers(h, b, RowText(h, r));
    var s :| s in b && RowText(h, s) == RowText(h, r);
    RowTextPins(h, s, r);
  }

  // ---------------------------------------------------------------- sealed copies

  /** `0o444 | (mode & 0o111)`: readable by all, execute bits kept, nothing writable. */
  function SealMode(mode: bv16): bv16 { 0x124 | (mode & 0x49) }

  const SEALED_DIR: bv16 := 0x16D

  function SealEntries(entries: seq<Entry>): seq<Entry>
    decreases entries
  {
    if entries == [] then [] else [SealEntry(entries[0])] + SealEntries(entries[1..])
  }

  function SealEntry(e: Entry): Entry
    decreases e
  {
    Entry(e.name, match e.node
                  case File(content, mode) => File(content, SealMode(mode))
                  case Dir(sub, _) => Dir(SealEntries(sub), SEALED_DIR)
                  case other => other)
  }

  /** A directory lists each name once, at every level. */
  predicate DistinctNames(entries: seq<Entry>)
    decreases entries
  {
    entries == [] || (DistinctWithin(entries[0]) && FreshName(entries[0].name, entries[1..]) && DistinctNames(entries[1..]))
  }

  predicate DistinctWithin(e: Entry)
    decreases e
  {
    e.node.Dir? ==> DistinctNames(e.node.entries)
  }

  predicate FreshName(name: Name, entries: seq<Entry>) {
    forall i :: 0 <= i < |entries| ==> entries[i].name != name
  }

  lemma {:induction false} SealKeepsRows(entries: seq<Entry>, prefix: Bytes, depth: nat)
    ensures RowsOf(SealEntries(entries), prefix) == RowsOf(entries, prefix)
    ensures Count(SealEntries(entries)) == Count(entries) && Total(SealEntries(entries)) == Total(entries)
    ensures Plain(SealEntries(entries), prefix, depth) <==> Plain(entries, prefix, depth)
    decreases entries
  {
    if entries != [] {
      SealEntryKeepsRows(entries[0], prefix, depth);
      SealKeepsRows(entries[1..], prefix, depth);
      assert SealEntries(entries)[1..] == SealEntries(entries[1..]);
    }
  }

  lemma {:induction false} SealEntryKeepsRows(e: Entry, prefix: Bytes, depth: nat)
    ensures RowsOfEntry(SealEntry(e), prefix) == RowsOfEntry(e, prefix)
    ensures CountEntry(SealEntry(e)) == CountEntry(e) && TotalEntry(SealEntry(e)) == TotalEntry(e)
    ensures PlainEntry(SealEntry(e), prefix, depth) <==> PlainEntry(e, prefix, depth)
    decreases e
  {
    if e.node.Dir? {
      SealKeepsRows(e.node.entries, Join(prefix, e.name.bytes), depth + 1);
    }
  }

  /** All three read bits, no write bit, the execute bits of `source`, and no other bit at all. */
  predicate ReadOnlyMode(mode: bv16, source: bv16) {
    mode & 0x124 == 0x124 && mode & 0x92 == 0 && mode & 0x49 == source & 0x49 && mode & 0xFE00 == 0
  }

  /** A file keeps exactly the execute bits it had; a directory has all of them. */
  predicate ReadOnly(entries: seq<Entry>, sources: seq<Entry>)
    decreases entries
  {
    && |entries| == |sources|
    && (entries == [] || (ReadOnlyEntry(entries[0], sources[0]) && ReadOnly(entries[1..], sources[1..])))
  }

  predicate ReadOnlyEntry(e: Entry, source: Entry)
    decreases e
  {
    match e.node
    case File(_, mode) => source.node.File? && ReadOnlyMode(mode, source.node.mode)
    case Dir(sub, mode) => source.node.Dir? && ReadOnlyMode(mode, 0x49) && ReadOnly(sub, source.node.entries)
    case other => source.node == other
  }

  lemma SealModeBits(mode: bv16)
    ensures ReadOnlyMode(SealMode(mode), mode) && ReadOnlyMode(SEALED_DIR, 0x49)
  {}

  lemma {:induction false} SealIsReadOnly(entries: seq<Entry>)
    ensures ReadOnly(SealEntries(entries), entries)
    decreases entries
  {
    if entries != [] {
      SealEntryIsReadOnly(entries[0]);
      SealIsReadOnly(entries[1..]);
      assert SealEntries(entries)[1..] == SealEntries(entries[1..]);
    }
  }

  lemma {:induction false} SealEntryIsReadOnly(e: Entry)
    ensures ReadOnlyEntry(SealEntry(e), e)
    decreases e
  {
    match e.node {
      case File(_, mode) => SealModeBits(mode);
      case Dir(sub, _) =>
        SealModeBits(0);
        SealIsReadOnly(sub);
      case _ =>
    }
  }
}
