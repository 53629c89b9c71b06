/**
  JSON documents as the tools hold them: objects keep their fields in document order.
 */
module Json {
  import opened Options
  import opened Texts

  datatype Json =
    | Null
    | Bool(flag: bool)
    | Number(digits: string)
    | Text(text: string)
    | Array(items: seq<Json>)
    | Object(fields: seq<Field>)

  datatype Field = Field(key: string, value: Json)

  function Keys(fields: seq<Field>): set<string> { set i | 0 <= i < |fields| :: fields[i].key }

  /** The position of a key's first field. */
  function Find(fields: seq<Field>, key: string): (i: nat)
    requires key in Keys(fields)
    ensures i < |fields| && fields[i].key == key
    ensures forall j :: 0 <= j < i ==> fields[j].key != key
  {
    if fields[0].key == key then 0
    else
      assert key in Keys(fields[1..]) by {
        var i :| 0 <= i < |fields| && fields[i].key == key;
        assert fields[1..][i - 1] == fields[i];
      }
      1 + Find(fields[1..], key)
  }

  /** `Value::get` with a field name. */
  function Get(v: Json, key: string): (r: Option<Json>)
    ensures r.Some? ==> r.value < v
  {
    if v.Object? && key in Keys(v.fields) then Some(v.fields[Find(v.fields, key)].value) else None
  }

  /** A field read as a string. */
  function StringField(v: Json, key: string): Option<string> {
    match Get(v, key) case Some(Text(text)) => Some(text) case _ => None
  }

  /** The first field of this name has this value. */
  ghost predicate Holds(v: Json, key: string, x: Json) {
    v.Object? && exists i :: 0 <= i < |v.fields| && v.fields[i] == Field(key, x) && forall j :: 0 <= j < i ==> v.fields[j].key != key
  }

  lemma GetExact(v: Json, key: string)
    ensures forall x :: Get(v, key) == Some(x) <==> Holds(v, key, x)
    ensures Get(v, key).None? ==> forall x :: !Holds(v, key, x)
  {
    if v.Object? {
      if key in Keys(v.fields) {
        assert v.fields[Find(v.fields, key)] == Field(key, Get(v, key).value);
      } else {
        forall x ensures !Holds(v, key, x) {
          assert forall i :: 0 <= i < |v.fields| ==> v.fields[i].key in Keys(v.fields);
        }
      }
    }
  }

  predicate DistinctKeys(fields: seq<Field>) {
    forall i, j :: 0 <= i < j < |fields| ==> fields[i].key != fields[j].key
  }

  /** No object, at any depth, names a field twice. */
  predicate WellFormed(v: Json) {
    match v
    case Array(items) => forall i :: 0 <= i < |items| ==> WellFormed(items[i])
    case Object(fields) => DistinctKeys(fields) && forall i :: 0 <= i < |fields| ==> WellFormed(fields[i].value)
    case _ => true
  }

  // --------------------------------------------------------------------- meaning

  /** A document with the order of fields forgotten at every depth. */
  datatype Meaning =
    | Scalar(value: Json)
    | List(items: seq<Meaning>)
    | Record(fields: map<string, Meaning>)

  function MeaningOf(v: Json): Meaning {
    match v
    case Array(items) => List(seq(|items|, i requires 0 <= i < |items| => MeaningOf(items[i])))
    case Object(fields) => Record(map key | key in Keys(fields) :: MeaningOf(fields[Find(fields, key)].value))
    case _ => Scalar(v)
  }

  // --------------------------------------------------------------- normalisation

  predicate Before(a: string, b: string) { AtMost(Codes(a), Codes(b)) }

  function InsertField(f: Field, s: seq<Field>): (r: seq<Field>)
    ensures |r| == |s| + 1
    ensures forall g :: g in r <==> g == f || g in s
  {
    if s == [] || Before(f.key, s[0].key) then [f] + s
    else
      assert s == [s[0]] + s[1..];
      [s[0]] + InsertField(f, s[1..])
  }

  function SortFields(s: seq<Field>): (r: seq<Field>)
    ensures |r| == |s|
    ensures forall g :: g in r <==> g in s
  {
    if s == [] then []
    else
      assert s == [s[0]] + s[1..];
      InsertField(s[0], SortFields(s[1..]))
  }

  function Normalize(v: Json): Json {
    match v
    case Object(fields) =>
      var sorted := SortFields(fields);
      Object(seq(|sorted|, i requires 0 <= i < |sorted| =>
        assert sorted[i] in fields;
        Field(sorted[i].key, Normalize(sorted[i].value))))
    case Array(items) => Array(seq(|items|, i requires 0 <= i < |items| => Normalize(items[i])))
    case _ => v
  }

  /** Keys in strictly ascending order. */
  predicate Ascending(fields: seq<Field>) {
    forall i, j :: 0 <= i < j < |fields| ==> Before(fields[i].key, fields[j].key) && fields[i].key != fields[j].key
  }

  predicate Canonical(v: Json) {
    match v
    case Array(items) => forall i :: 0 <= i < |items| ==> Canonical(items[i])
    case Object(fields) => Ascending(fields) && forall i :: 0 <= i < |fields| ==> Canonical(fields[i].value)
    case _ => true
  }

  lemma BeforeTotal(a: string, b: string)
    ensures Before(a, b) || Before(b, a)
    ensures Before(a, b) && Before(b, a) ==> a == b
  {
    AtMostTotal(Codes(a), Codes(b));
    if Codes(a) == Codes(b) { CodesInjective(a, b); }
  }

  lemma {:induction false} InsertAscending(f: Field, s: seq<Field>)
    requires Ascending(s) && forall g :: g in s ==> g.key != f.key
    ensures Ascending(InsertField(f, s))
  {
    if s != [] {
      BeforeTotal(f.key, s[0].key);
      if Before(f.key, s[0].key) {
        forall j | 0 <= j < |s| ensures Before(f.key, s[j].key) && f.key != s[j].key {
          if j > 0 { AtMostTransitive(Codes(f.key), Codes(s[0].key), Codes(s[j].key)); }
          assert s[j] in s;
        }
      } else {
        InsertAscending(f, s[1..]);
        var r := InsertField(f, s[1..]);
        forall j | 0 <= j < |r| ensures Before(s[0].key, r[j].key) && s[0].key != r[j].key {
          assert r[j] in r && s[0] in s;
        }
      }
    }
  }

  lemma {:induction false} SortAscending(s: seq<Field>)
    requires DistinctKeys(s)
    ensures Ascending(SortFields(s))
  {
    if s != [] {
      SortAscending(s[1..]);
      InsertAscending(s[0], SortFields(s[1..]));
    }
  }

  /** A field list that names each key once finds a listed field by its key. */
  lemma FindListed(fields: seq<Field>, f: Field)
    requires DistinctKeys(fields) && f in fields
    ensures f.key in Keys(fields) && fields[Find(fields, f.key)] == f
  {
    var i :| 0 <= i < |fields| && fields[i] == f;
    assert f.key in Keys(fields);
  }

  /** The i-th field of a normalised object. */
  lemma NormalFields(fields: seq<Field>, i: nat)
    requires DistinctKeys(fields) && i < |fields|
    ensures Normalize(Object(fields)).Object? && |Normalize(Object(fields)).fields| == |fields|
    ensures var sorted, out := SortFields(fields), Normalize(Object(fields)).fields;
            && sorted[i] in fields && out[i].key == sorted[i].key && out[i].value == Normalize(sorted[i].value)
  {
    assert SortFields(fields)[i] in fields;
  }

  lemma NormalKeys(fields: seq<Field>)
    requires DistinctKeys(fields)
    ensures Normalize(Object(fields)).Object? && Ascending(Normalize(Object(fields)).fields)
    ensures Keys(Normalize(Object(fields)).fields) == Keys(fields)
  {
    var sorted, out := SortFields(fields), Normalize(Object(fields)).fields;
    SortAscending(fields);
    assert forall i :: 0 <= i < |out| ==> out[i].key == sorted[i].key;
    forall key | key in Keys(fields) ensures key in Keys(out) {
      var i :| 0 <= i < |fields| && fields[i].key == key;
      assert fields[i] in sorted;
      var j :| 0 <= j < |sorted| && sorted[j] == fields[i];
      assert out[j].key == key;
    }
    forall key | key in Keys(out) ensures key in Keys(fields) {
      var i :| 0 <= i < |out| && out[i].key == key;
      assert sorted[i] in fields;
      var j :| 0 <= j < |fields| && fields[j] == sorted[i];
    }
  }

  /** Normalising normalises what each field name leads to. */
  lemma LookupKept(v: Json, key: string)
    requires WellFormed(v)
    ensures Get(Normalize(v), key) == match Get(v, key) case None => None case Some(w) => Some(Normalize(w))
  {
    if v.Object? {
      NormalKeys(v.fields);
      if key in Keys(v.fields) {
        var out := Normalize(v).fields;
        var i := Find(out, key);
        NormalFields(v.fields, i);
        FindListed(v.fields, SortFields(v.fields)[i]);
      }
    }
  }

  lemma {:induction false} NormalIsCanonical(v: Json)
    requires WellFormed(v)
    ensures Canonical(Normalize(v))
  {
    match v {
      case Array(items) =>
        forall i | 0 <= i < |items| ensures Canonical(Normalize(items[i])) { NormalIsCanonical(items[i]); }
      case Object(fields) =>
        NormalKeys(fields);
        forall i | 0 <= i < |fields| ensures Canonical(Normalize(v).fields[i].value) {
          NormalFields(fields, i);
          var f := SortFields(fields)[i];
          var j :| 0 <= j < |fields| && fields[j] == f;
          NormalIsCanonical(fields[j].value);
        }
      case _ =>
    }
  }

  /** The meaning of an object, field by field. */
  lemma RecordMeaning(v: Json)
    requires v.Object?
    ensures MeaningOf(v).Record? && MeaningOf(v).fields.Keys == Keys(v.fields)
    ensures forall key :: key in Keys(v.fields) ==> MeaningOf(v).fields[key] == MeaningOf(Get(v, key).value)
  {
  }

  lemma RecordKept(fields: seq<Field>)
    requires WellFormed(Object(fields))
    requires forall key :: key in Keys(fields) ==>
               MeaningOf(Normalize(Get(Object(fields), key).value)) == MeaningOf(Get(Object(fields), key).value)
    ensures MeaningOf(Normalize(Object(fields))) == MeaningOf(Object(fields))
  {
    hide MeaningOf, Normalize, Find, Ascending, Get;
    var v, w := Object(fields), Normalize(Object(fields));
    NormalKeys(fields);
    RecordMeaning(v);
    RecordMeaning(w);
    var m, n := MeaningOf(v).fields, MeaningOf(w).fields;
    forall key | key in Keys(fields) ensures m[key] == n[key] {
      LookupKept(v, key);
    }
    assert m == n;
  }

  lemma {:induction false} NormalKeepsMeaning(v: Json)
    requires WellFormed(v)
    ensures MeaningOf(Normalize(v)) == MeaningOf(v)
  {
    match v {
      case Array(items) =>
        forall i | 0 <= i < |items| ensures MeaningOf(Normalize(items[i])) == MeaningOf(items[i]) { NormalKeepsMeaning(items[i]); }
      case Object(fields) =>
        forall key | key in Keys(fields)
          ensures MeaningOf(Normalize(Get(v, key).value)) == MeaningOf(Get(v, key).value)
        {
          NormalKeepsMeaning(fields[Find(fields, key)].value);
        }
        RecordKept(fields);
      case _ =>
    }
  }

  /** Two ascending field lists with the same keys list them in the same order. */
  lemma {:induction false} SameKeysSameOrder(a: seq<Field>, b: seq<Field>)
    requires Ascending(a) && Ascending(b) && Keys(a) == Keys(b)
    ensures |a| == |b| && forall i :: 0 <= i < |a| ==> a[i].key == b[i].key
  {
    assert b != [] ==> b[0].key in Keys(b);
    if a != [] {
      assert a[0].key in Keys(b);
      var i :| 0 <= i < |b| && b[i].key == a[0].key;
      assert b[0].key in Keys(a);
      var j :| 0 <= j < |a| && a[j].key == b[0].key;
      BeforeTotal(a[0].key, b[0].key);
      assert a[0].key == b[0].key;
      TailKeys(a);
      TailKeys(b);
      SameKeysSameOrder(a[1..], b[1..]);
      assert forall k :: 1 <= k < |a| ==> a[k] == a[1..][k - 1];
      assert forall k :: 1 <= k < |b| ==> b[k] == b[1..][k - 1];
    }
  }

  lemma TailKeys(a: seq<Field>)
    requires Ascending(a) && a != []
    ensures Keys(a[1..]) == Keys(a) - {a[0].key}
  {
    forall key | key in Keys(a) - {a[0].key} ensures key in Keys(a[1..]) {
      var i :| 0 <= i < |a| && a[i].key == key;
      assert a[1..][i - 1] == a[i];
    }
  }

  /** A meaning has only one canonical document. */
  lemma {:induction false} CanonicalUnique(a: Json, b: Json)
    requires Canonical(a) && Canonical(b) && MeaningOf(a) == MeaningOf(b)
    ensures a == b
  {
    match a {
      case Array(items) =>
        assert b.Array?;
        var m := MeaningOf(a).items;
        assert |items| == |m| == |b.items|;
        forall i | 0 <= i < |items| ensures items[i] == b.items[i] {
          assert MeaningOf(items[i]) == m[i] == MeaningOf(b).items[i] == MeaningOf(b.items[i]);
          CanonicalUnique(items[i], b.items[i]);
        }
      case Object(fields) =>
        assert b.Object?;
        var m := MeaningOf(a).fields;
        assert Keys(fields) == m.Keys == MeaningOf(b).fields.Keys == Keys(b.fields);
        SameKeysSameOrder(fields, b.fields);
        forall i | 0 <= i < |fields| ensures fields[i] == b.fields[i] {
          FindListed(fields, fields[i]);
          FindListed(b.fields, b.fields[i]);
          assert m[fields[i].key] == MeaningOf(fields[i].value);
          assert MeaningOf(b).fields[fields[i].key] == MeaningOf(b.fields[i].value);
          CanonicalUnique(fields[i].value, b.fields[i].value);
        }
      case _ =>
    }
  }

  /** Normal forms agree exactly on documents that differ only in field order, at every depth. */
  lemma NormalFormsDecideEquality(a: Json, b: Json)
    requires WellFormed(a) && WellFormed(b)
    ensures Normalize(a) == Normalize(b) <==> MeaningOf(a) == MeaningOf(b)
  {
    NormalKeepsMeaning(a);
    NormalKeepsMeaning(b);
    NormalIsCanonical(a);
    NormalIsCanonical(b);
    if MeaningOf(a) == MeaningOf(b) {
      CanonicalUnique(Normalize(a), Normalize(b));
    }
  }

  lemma {:induction false} CanonicalIsWellFormed(v: Json)
    requires Canonical(v)
    ensures WellFormed(v)
  {
    match v {
      case Array(items) => forall i | 0 <= i < |items| ensures WellFormed(items[i]) { CanonicalIsWellFormed(items[i]); }
      case Object(fields) =>
        forall i | 0 <= i < |fields| ensures WellFormed(fields[i].value) { CanonicalIsWellFormed(fields[i].value); }
      case _ =>
    }
  }

  /** Exactly the canonical documents are left as they are. */
  lemma NormalizeIdempotent(v: Json)
    requires WellFormed(v)
    ensures Normalize(Normalize(v)) == Normalize(v)
    ensures Normalize(v) == v <==> Canonical(v)
  {
    NormalIsCanonical(v);
    NormalKeepsMeaning(v);
    CanonicalIsWellFormed(Normalize(v));
    NormalFormsDecideEquality(Normalize(v), v);
    if Canonical(v) { CanonicalUnique(Normalize(v), v); }
  }

  /** The canonical digest separates exactly the documents that mean different things. */
  lemma CanonicalDigest(digest: Json -> string, a: Json, b: Json)
    requires WellFormed(a) && WellFormed(b)
    requires forall x, y :: digest(x) == digest(y) ==> x == y
    ensures digest(Normalize(a)) == digest(Normalize(b)) <==> MeaningOf(a) == MeaningOf(b)
  {
    NormalFormsDecideEquality(a, b);
  }
}
