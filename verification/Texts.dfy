/**
  Byte texts as the digests see them: NUL-separated and NUL-terminated lists, decimal
  numbers, and sorting by bytes.
 */
module Texts {
  import opened Options

  type Text = seq<nat>

  /** The code points of a string. */
  function Codes(s: string): Text { seq(|s|, i requires 0 <= i < |s| => s[i] as nat) }

  lemma CodesInjective(a: string, b: string)
    requires Codes(a) == Codes(b)
    ensures a == b
  {
    assert |Codes(a)| == |a| && |Codes(b)| == |b|;
    forall i | 0 <= i < |a| ensures a[i] == b[i] {
      assert Codes(a)[i] == Codes(b)[i];
    }
  }

  predicate NulFree(t: Text) { 0 !in t }

  /** `join("\0")`. */
  function JoinNul(fields: seq<Text>): Text {
    if fields == [] then []
    else if |fields| == 1 then fields[0]
    else fields[0] + [0] + JoinNul(fields[1..])
  }

  /** Every part followed by a NUL. */
  function Terminated(parts: seq<Text>): Text {
    if parts == [] then [] else parts[0] + [0] + Terminated(parts[1..])
  }

  /** The fields between NULs; always at least one. */
  function Split(t: Text): (fields: seq<Text>)
    ensures |fields| >= 1
  {
    if t == [] then [[]]
    else
      var rest := Split(t[1..]);
      if t[0] == 0 then [[]] + rest else [[t[0]] + rest[0]] + rest[1..]
  }

  lemma {:induction false} SplitAtNul(a: Text, b: Text)
    ensures Split(a + [0] + b) == Split(a) + Split(b)
  {
    if a == [] {
      assert (a + [0] + b)[1..] == b;
    } else {
      assert (a + [0] + b)[1..] == a[1..] + [0] + b;
      SplitAtNul(a[1..], b);
    }
  }

  lemma {:induction false} SplitFree(a: Text)
    requires NulFree(a)
    ensures Split(a) == [a]
  {
    if a != [] {
      SplitFree(a[1..]);
      assert [a[0]] + a[1..] == a;
    }
  }

  lemma {:induction false} JoinSplit(t: Text)
    ensures JoinNul(Split(t)) == t
  {
    if t != [] {
      JoinSplit(t[1..]);
      var rest := Split(t[1..]);
      if t[0] == 0 {
        assert ([[]] + rest)[1..] == rest;
        assert t == [0] + t[1..];
      } else {
        var fields := [[t[0]] + rest[0]] + rest[1..];
        assert fields[1..] == rest[1..];
        assert t == [t[0]] + t[1..];
      }
    }
  }

  function Flatten(fields: seq<seq<Text>>): seq<Text> {
    if fields == [] then [] else fields[0] + Flatten(fields[1..])
  }

  function SplitAll(texts: seq<Text>): seq<seq<Text>> {
    seq(|texts|, i requires 0 <= i < |texts| => Split(texts[i]))
  }

  lemma {:induction false} SplitJoined(texts: seq<Text>)
    requires texts != []
    ensures Split(JoinNul(texts)) == Flatten(SplitAll(texts))
  {
    assert SplitAll(texts)[1..] == SplitAll(texts[1..]);
    if |texts| == 1 {
      assert Flatten(SplitAll(texts)[1..]) == [];
    } else {
      SplitAtNul(texts[0], JoinNul(texts[1..]));
      SplitJoined(texts[1..]);
    }
  }

  lemma FlattenLong(s: seq<Text>, width: nat)
    requires s != [] && |Split(s[0])| == width
    ensures |Flatten(SplitAll(s))| >= width
  {
    assert SplitAll(s)[0] == Split(s[0]);
  }

  /** Lists of texts that each have `width` fields are determined by their flattened fields. */
  lemma {:induction false} FlattenInjective(s: seq<Text>, t: seq<Text>, width: nat)
    requires width > 0
    requires forall x :: x in s ==> |Split(x)| == width
    requires forall x :: x in t ==> |Split(x)| == width
    requires Flatten(SplitAll(s)) == Flatten(SplitAll(t))
    ensures s == t
  {
    if s != [] { FlattenLong(s, width); }
    if t != [] { FlattenLong(t, width); }
    if s != [] && t != [] {
      assert SplitAll(s)[1..] == SplitAll(s[1..]) && SplitAll(t)[1..] == SplitAll(t[1..]);
      var a, b := Split(s[0]), Split(t[0]);
      var x, y := Flatten(SplitAll(s[1..])), Flatten(SplitAll(t[1..]));
      assert a == (a + x)[..width] == (b + y)[..width] == b;
      assert x == (a + x)[width..] == (b + y)[width..] == y;
      JoinSplit(s[0]);
      JoinSplit(t[0]);
      FlattenInjective(s[1..], t[1..], width);
    }
  }

  /** Joined lists of rows with several fields each are equal only when the lists are. */
  lemma JoinedRowsInjective(s: seq<Text>, t: seq<Text>, width: nat)
    requires width > 1
    requires forall x :: x in s ==> |Split(x)| == width
    requires forall x :: x in t ==> |Split(x)| == width
    requires JoinNul(s) == JoinNul(t)
    ensures s == t
  {
    if s != [] { SplitJoined(s); FlattenLong(s, width); }
    if t != [] { SplitJoined(t); FlattenLong(t, width); }
    if s != [] && t != [] {
      FlattenInjective(s, t, width);
    }
  }

  lemma {:induction false} SplitTerminated(parts: seq<Text>)
    requires forall p :: p in parts ==> NulFree(p)
    ensures Split(Terminated(parts)) == parts + [[]]
  {
    if parts != [] {
      SplitAtNul(parts[0], Terminated(parts[1..]));
      SplitFree(parts[0]);
      SplitTerminated(parts[1..]);
    }
  }

  /** NUL-terminated preimages determine their parts, whatever their number. */
  lemma TerminatedInjective(a: seq<Text>, b: seq<Text>)
    requires forall p :: p in a ==> NulFree(p)
    requires forall p :: p in b ==> NulFree(p)
    requires Terminated(a) == Terminated(b)
    ensures a == b
  {
    SplitTerminated(a);
    SplitTerminated(b);
    assert a == (a + [[]])[..|a|];
    assert b == (b + [[]])[..|b|];
  }

  // -------------------------------------------------------------------- decimal

  function Decimal(n: nat): (t: Text)
    ensures t != [] && forall i :: 0 <= i < |t| ==> 0x30 <= t[i] <= 0x39
  {
    if n < 10 then [0x30 + n] else Decimal(n / 10) + [0x30 + n % 10]
  }

  lemma {:induction false} DecimalInjective(m: nat, n: nat)
    requires Decimal(m) == Decimal(n)
    ensures m == n
    decreases m + n
  {
    var s, t := Decimal(m), Decimal(n);
    assert s[|s| - 1] == 0x30 + m % 10 && t[|t| - 1] == 0x30 + n % 10;
    if m >= 10 && n >= 10 {
      assert Decimal(m / 10) == s[..|s| - 1] == t[..|t| - 1] == Decimal(n / 10);
      DecimalInjective(m / 10, n / 10);
    }
  }

  // ------------------------------------------------------------------- hexadecimal

  function HexDigit(c: char): (d: Option<nat>)
    ensures d.Some? ==> d.value < 16
  {
    if '0' <= c <= '9' then Some(c as int - '0' as int)
    else if 'a' <= c <= 'f' then Some(c as int - 'a' as int + 10)
    else if 'A' <= c <= 'F' then Some(c as int - 'A' as int + 10)
    else None
  }

  function HexChar(n: nat): (c: char)
    requires n < 16
    ensures HexDigit(c) == Some(n) && ('0' <= c <= '9' || 'a' <= c <= 'f')
  {
    if n < 10 then '0' + n as char else 'a' + (n - 10) as char
  }

  // -------------------------------------------------------------------- sorting

  /** Byte order, as Rust compares strings. */
  predicate AtMost(a: Text, b: Text) {
    a == [] || (b != [] && (a[0] < b[0] || (a[0] == b[0] && AtMost(a[1..], b[1..]))))
  }

  lemma {:induction false} AtMostTotal(a: Text, b: Text)
    ensures AtMost(a, b) || AtMost(b, a)
    ensures AtMost(a, b) && AtMost(b, a) ==> a == b
  {
    if a != [] && b != [] && a[0] == b[0] {
      AtMostTotal(a[1..], b[1..]);
      assert a == [a[0]] + a[1..] && b == [b[0]] + b[1..];
    }
  }

  lemma {:induction false} AtMostTransitive(a: Text, b: Text, c: Text)
    requires AtMost(a, b) && AtMost(b, c)
    ensures AtMost(a, c)
  {
    if a != [] && a[0] == b[0] && b[0] == c[0] {
      AtMostTransitive(a[1..], b[1..], c[1..]);
    }
  }

  function Insert(x: Text, s: seq<Text>): (r: seq<Text>)
    ensures multiset(r) == multiset{x} + multiset(s)
  {
    if s == [] || AtMost(x, s[0]) then [x] + s
    else
      assert s == [s[0]] + s[1..];
      [s[0]] + Insert(x, s[1..])
  }

  function Sort(s: seq<Text>): (r: seq<Text>)
    ensures multiset(r) == multiset(s)
  {
    if s == [] then []
    else
      assert s == [s[0]] + s[1..];
      Insert(s[0], Sort(s[1..]))
  }

  ghost predicate Sorted(s: seq<Text>) {
    forall i, j :: 0 <= i < j < |s| ==> AtMost(s[i], s[j])
  }

  lemma {:induction false} InsertSorted(x: Text, s: seq<Text>)
    requires Sorted(s)
    ensures Sorted(Insert(x, s))
  {
    if s != [] {
      AtMostTotal(x, s[0]);
      if AtMost(x, s[0]) {
        forall j | 0 <= j < |s| ensures AtMost(x, s[j]) {
          if j > 0 { AtMostTransitive(x, s[0], s[j]); }
        }
      } else {
        InsertSorted(x, s[1..]);
        var r := Insert(x, s[1..]);
        forall j | 0 <= j < |r| ensures AtMost(s[0], r[j]) {
          assert r[j] in multiset(r);
          if r[j] != x { assert r[j] in s[1..]; }
        }
      }
    }
  }

  lemma {:induction false} SortSorted(s: seq<Text>)
    ensures Sorted(Sort(s))
  {
    if s != [] {
      SortSorted(s[1..]);
      InsertSorted(s[0], Sort(s[1..]));
    }
  }

  lemma TailItems(s: seq<Text>)
    requires s != []
    ensures multiset(s[1..]) == multiset(s) - multiset{s[0]}
  {
    assert s == [s[0]] + s[1..];
  }

  lemma {:induction false} SortedUnique(s: seq<Text>, t: seq<Text>)
    requires Sorted(s) && Sorted(t) && multiset(s) == multiset(t)
    ensures s == t
  {
    hide AtMost;
    assert |s| == |multiset(s)| == |multiset(t)| == |t|;
    if s != [] {
      assert s[0] in multiset(t) && t[0] in multiset(s);
      assert AtMost(s[0], t[0]) by { Least(s, t[0]); }
      assert AtMost(t[0], s[0]) by { Least(t, s[0]); }
      AtMostTotal(s[0], t[0]);
      TailItems(s);
      TailItems(t);
      SortedUnique(s[1..], t[1..]);
      assert s == [s[0]] + s[1..] && t == [t[0]] + t[1..];
    }
  }

  lemma Least(s: seq<Text>, x: Text)
    requires Sorted(s) && x in s
    ensures AtMost(s[0], x)
  {
    var i :| 0 <= i < |s| && s[i] == x;
    AtMostTotal(x, x);
  }

  /** Sorting forgets the order rows were collected in. */
  lemma SortOrderFree(s: seq<Text>, t: seq<Text>)
    requires multiset(s) == multiset(t)
    ensures Sort(s) == Sort(t)
  {
    SortSorted(s);
    SortSorted(t);
    SortedUnique(Sort(s), Sort(t));
  }
}
