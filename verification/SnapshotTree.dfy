/**
  Controller snapshots: a bounded walk over a directory tree that admits every entry to a
  running budget and collects one manifest row per file.  Directories list their entries in
  whatever order the file system returns them.
 */
module SnapshotTree {
  type Bytes = seq<nat>

  /** File names are byte strings; only those that are UTF-8 have a path text. */
  datatype Name = Utf8(bytes: Bytes) | NotUtf8(bytes: Bytes)

  datatype Node =
    | File(content: Bytes, mode: bv16)
    | Dir(entries: seq<Entry>, mode: bv16)
    | Link(target: Bytes)
    | Special

  datatype Entry = Entry(name: Name, node: Node)

  datatype Row = Row(path: Bytes, length: nat, content: Bytes)

  const MAX_ENTRIES: nat := 1_000_000
  const MAX_TOTAL_BYTES: nat := 17_179_869_184
  const MAX_FILE_BYTES: nat := 1_073_741_824
  const MAX_PATH_BYTES: nat := 1024
  const MAX_DEPTH: nat := 64
  const WORD: nat := 18_446_744_073_709_551_616

  datatype Refusal = Overflow | BoundExceeded | NotPlain

  datatype Result<+T> = Ok(value: T) | Err(refusal: Refusal) {
    predicate IsFailure() { Err? }
    function PropagateFailure<U>(): Result<U> requires Err? { Err(refusal) }
    function Extract(): T requires Ok? { value }
  }

  function Join(prefix: Bytes, name: Bytes): Bytes {
    if prefix == [] then name else prefix + [0x2F] + name
  }

  // ------------------------------------------------------------------- the budget

  datatype Budget = Budget(entries: nat, bytes: nat)

  const EMPTY_BUDGET: Budget := Budget(0, 0)

  predicate WithinBounds(b: Budget) { b.entries <= MAX_ENTRIES && b.bytes <= MAX_TOTAL_BYTES }

  function Admitted(b: Budget, pathBytes: nat, fileBytes: nat): Result<Budget> {
    if pathBytes > MAX_PATH_BYTES then Err(BoundExceeded)
    else if b.entries + 1 >= WORD then Err(Overflow)
    else if b.entries + 1 > MAX_ENTRIES then Err(BoundExceeded)
    else if fileBytes > MAX_FILE_BYTES then Err(BoundExceeded)
    else if b.bytes + fileBytes >= WORD then Err(Overflow)
    else if b.bytes + fileBytes > MAX_TOTAL_BYTES then Err(BoundExceeded)
    else Ok(Budget(b.entries + 1, b.bytes + fileBytes))
  }

  class SnapshotBudget {
    var entries: nat
    var bytes: nat

    function Value(): Budget
      reads this
    {
      Budget(entries, bytes)
    }

    constructor ()
      ensures Value() == EMPTY_BUDGET
    {
      entries, bytes := 0, 0;
    }

    /** The counters move before their bounds are checked, so a refusal may leave them moved. */
    method Admit(pathBytes: nat, fileBytes: nat) returns (r: Result<()>)
      modifies this
      ensures r.Ok? <==> Admitted(old(Value()), pathBytes, fileBytes).Ok?
      ensures r.Ok? ==> Value() == Admitted(old(Value()), pathBytes, fileBytes).value
      ensures r.Err? ==> r.refusal == Admitted(old(Value()), pathBytes, fileBytes).refusal
    {
      if pathBytes > MAX_PATH_BYTES { return Err(BoundExceeded); }
      if entries + 1 >= WORD { return Err(Overflow); }
      entries := entries + 1;
      if entries > MAX_ENTRIES { return Err(BoundExceeded); }
      if fileBytes > MAX_FILE_BYTES { return Err(BoundExceeded); }
      if bytes + fileBytes >= WORD { return Err(Overflow); }
      bytes := bytes + fileBytes;
      if bytes > MAX_TOTAL_BYTES { return Err(BoundExceeded); }
      return Ok(());
    }
  }

  // -------------------------------------------------------------------- the walk

  datatype Walk = Walk(rows: seq<Row>, budget: Budget)

  /** The walk of one directory's entries, in the order listed. */
  function WalkDir(entries: seq<Entry>, prefix: Bytes, depth: nat, b: Budget): Result<Walk>
    decreases entries, 1
  {
    if depth > MAX_DEPTH then Err(BoundExceeded) else WalkEntries(entries, prefix, depth, b)
  }

  function WalkEntries(entries: seq<Entry>, prefix: Bytes, depth: nat, b: Budget): Result<Walk>
    decreases entries, 0
  {
    if entries == [] then Ok(Walk([], b))
    else
      var first :- WalkEntry(entries[0], prefix, depth, b);
      var rest :- WalkEntries(entries[1..], prefix, depth, first.budget);
      Ok(Walk(first.rows + rest.rows, rest.budget))
  }

  function WalkEntry(e: Entry, prefix: Bytes, depth: nat, b: Budget): Result<Walk>
    decreases e
  {
    if e.name.NotUtf8? then Err(NotPlain)
    else
      var path := Join(prefix, e.name.bytes);
      match e.node
      case Link(_) => Err(NotPlain)
      case Special => Err(NotPlain)
      case Dir(sub, _) =>
        var b' :- Admitted(b, |path|, 0);
        WalkDir(sub, path, depth + 1, b')
      case File(content, _) =>
        var b' :- Admitted(b, |path|, |content|);
        Ok(Walk([Row(path, |content|, content)], b'))
  }

  /** The loop of the source: rows and budget are updated entry by entry. */
  method Collect(entries: seq<Entry>, prefix: Bytes, depth: nat, budget: SnapshotBudget) returns (r: Result<seq<Row>>)
    modifies budget
    ensures r.Ok? <==> WalkDir(entries, prefix, depth, old(budget.Value())).Ok?
    ensures r.Ok? ==> Walk(r.value, budget.Value()) == WalkDir(entries, prefix, depth, old(budget.Value())).value
    ensures r.Err? ==> r.refusal == WalkDir(entries, prefix, depth, old(budget.Value())).refusal
    decreases entries
  {
    if depth > MAX_DEPTH { return Err(BoundExceeded); }
    ghost var whole := WalkEntries(entries, prefix, depth, budget.Value());
    assert entries[0..] == entries;
    NotYet(whole);
    var rows := [];
    hide WalkEntries, WalkEntry, Goes;
    for i := 0 to |entries|
      invariant Goes(whole, rows, WalkEntries(entries[i..], prefix, depth, budget.Value()))
    {
      assert entries[i..][0] == entries[i] && entries[i..][1..] == entries[i + 1..];
      WalkOne(whole, rows, entries[i..], prefix, depth, budget.Value());
      var one := CollectEntry(entries[i], prefix, depth, budget);
      if one.Err? { return Err(one.refusal); }
      rows := rows + one.value;
    }
    assert entries[|entries|..] == [];
    WalkNone(whole, rows, prefix, depth, budget.Value());
    return Ok(rows);
  }

  method CollectEntry(e: Entry, prefix: Bytes, depth: nat, budget: SnapshotBudget) returns (r: Result<seq<Row>>)
    modifies budget
    ensures r.Ok? <==> WalkEntry(e, prefix, depth, old(budget.Value())).Ok?
    ensures r.Ok? ==> Walk(r.value, budget.Value()) == WalkEntry(e, prefix, depth, old(budget.Value())).value
    ensures r.Err? ==> r.refusal == WalkEntry(e, prefix, depth, old(budget.Value())).refusal
    decreases e
  {
    hide WalkDir, Admitted;
    if e.name.NotUtf8? { return Err(NotPlain); }
    var path := Join(prefix, e.name.bytes);
    match e.node {
      case Link(_) => return Err(NotPlain);
      case Special => return Err(NotPlain);
      case Dir(sub, _) =>
        var admitted := budget.Admit(|path|, 0);
        if admitted.Err? { return Err(admitted.refusal); }
        r := Collect(sub, path, depth + 1, budget);
      case File(content, _) =>
        var admitted := budget.Admit(|path|, |content|);
        if admitted.Err? { return Err(admitted.refusal); }
        return Ok([Row(path, |content|, content)]);
    }
  }

  /** The whole walk is the rows so far and then the rest. */
  ghost predicate Goes(whole: Result<Walk>, rows: seq<Row>, rest: Result<Walk>) {
    && (whole.Ok? <==> rest.Ok?)
    && (whole.Ok? ==> whole.value == Walk(rows + rest.value.rows, rest.value.budget))
    && (whole.Err? ==> whole.refusal == rest.refusal)
  }

  lemma NotYet(whole: Result<Walk>)
    ensures Goes(whole, [], whole)
  {
    if whole.Ok? { assert [] + whole.value.rows == whole.value.rows; }
  }

  lemma WalkOne(whole: Result<Walk>, rows: seq<Row>, entries: seq<Entry>, prefix: Bytes, depth: nat, b: Budget)
    requires entries != [] && Goes(whole, rows, WalkEntries(entries, prefix, depth, b))
    ensures var first := WalkEntry(entries[0], prefix, depth, b);
            && (first.Err? ==> whole.Err? && whole.refusal == first.refusal)
            && (first.Ok? ==> Goes(whole, rows + first.value.rows, WalkEntries(entries[1..], prefix, depth, first.value.budget)))
  {
    hide WalkEntry;
    var first := WalkEntry(entries[0], prefix, depth, b);
    if first.Ok? {
      var rest := WalkEntries(entries[1..], prefix, depth, first.value.budget);
      if rest.Ok? { assert rows + (first.value.rows + rest.value.rows) == rows + first.value.rows + rest.value.rows; }
    }
  }

  lemma WalkNone(whole: Result<Walk>, rows: seq<Row>, prefix: Bytes, depth: nat, b: Budget)
    requires Goes(whole, rows, WalkEntries([], prefix, depth, b))
    ensures whole == Ok(Walk(rows, b))
  {
    assert rows + [] == rows;
  }

  // ----------------------------------- the same bounds, without an order or a budget

  function Count(entries: seq<Entry>): nat
    decreases entries
  {
    if entries == [] then 0 else CountEntry(entries[0]) + Count(entries[1..])
  }

  function CountEntry(e: Entry): nat
    decreases e
  {
    if e.node.Dir? then 1 + Count(e.node.entries) else 1
  }

  function Total(entries: seq<Entry>): nat
    decreases entries
  {
    if entries == [] then 0 else TotalEntry(entries[0]) + Total(entries[1..])
  }

  function TotalEntry(e: Entry): nat
    decreases e
  {
    match e.node case File(content, _) => |content| case Dir(sub, _) => Total(sub) case _ => 0
  }

  /** Every entry is a UTF-8 named file or directory within the per-file, path and depth bounds. */
  predicate Plain(entries: seq<Entry>, prefix: Bytes, depth: nat)
    decreases entries
  {
    entries == [] || (PlainEntry(entries[0], prefix, depth) && Plain(entries[1..], prefix, depth))
  }

  predicate PlainEntry(e: Entry, prefix: Bytes, depth: nat)
    decreases e
  {
    && e.name.Utf8?
    && |Join(prefix, e.name.bytes)| <= MAX_PATH_BYTES
    && match e.node
       case File(content, _) => |content| <= MAX_FILE_BYTES
       case Dir(sub, _) => depth + 1 <= MAX_DEPTH && Plain(sub, Join(prefix, e.name.bytes), depth + 1)
       case _ => false
  }

  function RowsOf(entries: seq<Entry>, prefix: Bytes): seq<Row>
    decreases entries
  {
    if entries == [] then [] else RowsOfEntry(entries[0], prefix) + RowsOf(entries[1..], prefix)
  }

  function RowsOfEntry(e: Entry, prefix: Bytes): seq<Row>
    decreases e
  {
    var path := Join(prefix, e.name.bytes);
    match e.node
    case File(content, _) => [Row(path, |content|, content)]
    case Dir(sub, _) => RowsOf(sub, path)
    case _ => []
  }

  /** The trees a fresh budget accepts. */
  predicate Acceptable(entries: seq<Entry>) {
    Plain(entries, [], 0) && Count(entries) <= MAX_ENTRIES && Total(entries) <= MAX_TOTAL_BYTES
  }

  /** The walk succeeds exactly within the global bounds, and never overflows. */
  lemma {:induction false} WalkExact(entries: seq<Entry>, prefix: Bytes, depth: nat, b: Budget)
    requires WithinBounds(b)
    ensures var w := WalkEntries(entries, prefix, depth, b);
            && (w.Ok? <==> && Plain(entries, prefix, depth)
                           && b.entries + Count(entries) <= MAX_ENTRIES && b.bytes + Total(entries) <= MAX_TOTAL_BYTES)
            && (w.Ok? ==> w.value == Walk(RowsOf(entries, prefix), Budget(b.entries + Count(entries), b.bytes + Total(entries))))
            && (w.Err? ==> w.refusal != Overflow)
    decreases entries
  {
    if entries != [] {
      WalkEntryExact(entries[0], prefix, depth, b);
      var first := WalkEntry(entries[0], prefix, depth, b);
      if first.Ok? {
        WalkExact(entries[1..], prefix, depth, first.value.budget);
      }
    }
  }

  lemma {:induction false} WalkEntryExact(e: Entry, prefix: Bytes, depth: nat, b: Budget)
    requires WithinBounds(b)
    ensures var w := WalkEntry(e, prefix, depth, b);
            && (w.Ok? <==> && PlainEntry(e, prefix, depth)
                           && b.entries + CountEntry(e) <= MAX_ENTRIES && b.bytes + TotalEntry(e) <= MAX_TOTAL_BYTES)
            && (w.Ok? ==> w.value == Walk(RowsOfEntry(e, prefix), Budget(b.entries + CountEntry(e), b.bytes + TotalEntry(e))))
            && (w.Err? ==> w.refusal != Overflow)
    decreases e
  {
    if e.node.Dir? && e.name.Utf8? {
      var path := Join(prefix, e.name.bytes);
      var admitted := Admitted(b, |path|, 0);
      if admitted.Ok? {
        WalkExact(e.node.entries, path, depth + 1, admitted.value);
      }
    }
  }

  // ---------------------------------------------------------- enumeration order

  function Without(s: seq<Entry>, i: nat): seq<Entry>
    requires i < |s|
  {
    s[..i] + s[i + 1..]
  }

  /** The same directory read in another order, at every level. */
  ghost predicate Shuffled(a: seq<Entry>, b: seq<Entry>)
    decreases a
  {
    if a == [] then b == []
    else exists i :: 0 <= i < |b| && SameEntry(a[0], b[i]) && Shuffled(a[1..], Without(b, i))
  }

  ghost predicate SameEntry(x: Entry, y: Entry)
    decreases x
  {
    && x.name == y.name
    && match x.node
       case Dir(sub, mode) => y.node.Dir? && y.node.mode == mode && Shuffled(sub, y.node.entries)
       case other => y.node == other
  }

  lemma {:induction false} AppendFacts(a: seq<Entry>, b: seq<Entry>, prefix: Bytes, depth: nat)
    ensures Count(a + b) == Count(a) + Count(b) && Total(a + b) == Total(a) + Total(b)
    ensures Plain(a + b, prefix, depth) <==> Plain(a, prefix, depth) && Plain(b, prefix, depth)
    ensures RowsOf(a + b, prefix) == RowsOf(a, prefix) + RowsOf(b, prefix)
  {
    if a == [] {
      assert a + b == b;
    } else {
      assert (a + b)[0] == a[0] && (a + b)[1..] == a[1..] + b;
      AppendFacts(a[1..], b, prefix, depth);
    }
  }

  /** Taking one entry out: the totals split, and the rows lose that entry's rows. */
  lemma WithoutFacts(s: seq<Entry>, i: nat, prefix: Bytes, depth: nat)
    requires i < |s|
    ensures Count(s) == CountEntry(s[i]) + Count(Without(s, i))
    ensures Total(s) == TotalEntry(s[i]) + Total(Without(s, i))
    ensures Plain(s, prefix, depth) <==> PlainEntry(s[i], prefix, depth) && Plain(Without(s, i), prefix, depth)
    ensures multiset(RowsOf(s, prefix)) == multiset(RowsOfEntry(s[i], prefix)) + multiset(RowsOf(Without(s, i), prefix))
  {
    assert s == s[..i] + ([s[i]] + s[i + 1..]);
    AppendFacts(s[..i], [s[i]] + s[i + 1..], prefix, depth);
    AppendFacts(s[..i], s[i + 1..], prefix, depth);
    assert ([s[i]] + s[i + 1..])[1..] == s[i + 1..];
  }

  lemma {:induction false} ShuffleFacts(a: seq<Entry>, b: seq<Entry>, prefix: Bytes, depth: nat)
    requires Shuffled(a, b)
    ensures Count(a) == Count(b) && Total(a) == Total(b)
    ensures Plain(a, prefix, depth) <==> Plain(b, prefix, depth)
    ensures multiset(RowsOf(a, prefix)) == multiset(RowsOf(b, prefix))
    decreases a
  {
    if a != [] {
      var i :| 0 <= i < |b| && SameEntry(a[0], b[i]) && Shuffled(a[1..], Without(b, i));
      SameEntryFacts(a[0], b[i], prefix, depth);
      ShuffleFacts(a[1..], Without(b, i), prefix, depth);
      WithoutFacts(b, i, prefix, depth);
    }
  }

  lemma {:induction false} SameEntryFacts(x: Entry, y: Entry, prefix: Bytes, depth: nat)
    requires SameEntry(x, y)
    ensures CountEntry(x) == CountEntry(y) && TotalEntry(x) == TotalEntry(y)
    ensures PlainEntry(x, prefix, depth) <==> PlainEntry(y, prefix, depth)
    ensures multiset(RowsOfEntry(x, prefix)) == multiset(RowsOfEntry(y, prefix))
    decreases x
  {
    if x.node.Dir? {
      ShuffleFacts(x.node.entries, y.node.entries, Join(prefix, x.name.bytes), depth + 1);
    }
  }

  /** Acceptance and the collected rows do not depend on the order directories are read in. */
  lemma WalkIsOrderFree(a: seq<Entry>, b: seq<Entry>)
    requires Shuffled(a, b)
    ensures WalkDir(a, [], 0, EMPTY_BUDGET).Ok? <==> Acceptable(a)
    ensures WalkDir(a, [], 0, EMPTY_BUDGET).Ok? <==> WalkDir(b, [], 0, EMPTY_BUDGET).Ok?
    ensures WalkDir(a, [], 0, EMPTY_BUDGET).Ok? ==>
              && WalkDir(a, [], 0, EMPTY_BUDGET).value.budget == WalkDir(b, [], 0, EMPTY_BUDGET).value.budget
              && multiset(WalkDir(a, [], 0, EMPTY_BUDGET).value.rows) == multiset(WalkDir(b, [], 0, EMPTY_BUDGET).value.rows)
  {
    WalkExact(a, [], 0, EMPTY_BUDGET);
    WalkExact(b, [], 0, EMPTY_BUDGET);
    ShuffleFacts(a, b, [], 0);
  }
}
