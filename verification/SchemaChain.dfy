/**
  The search for a schema's constant in terms of the document: where a pointer leads, step by
  step (RFC 6901), and which definition the chain of references ends at.
 */
module SchemaChain {
  import opened Options
  import opened Json
  import opened Discriminator

  // -------------------------------------------------------------------- one token

  /** A token as written: `~1` stands for a slash, `~0` for a tilde, anything else for itself. */
  function Meant(raw: string): string {
    if |raw| >= 2 && raw[0] == '~' && raw[1] == '1' then "/" + Meant(raw[2..])
    else if |raw| >= 2 && raw[0] == '~' && raw[1] == '0' then "~" + Meant(raw[2..])
    else if raw == "" then ""
    else [raw[0]] + Meant(raw[1..])
  }

  lemma ReplaceMore(c: char, s: string, mark: char, put: char)
    ensures !(c == '~' && s != "" && s[0] == mark) ==> Replace([c] + s, mark, put) == [c] + Replace(s, mark, put)
    ensures c == '~' && s != "" && s[0] == mark ==> Replace([c] + s, mark, put) == [put] + Replace(s[1..], mark, put)
  {
    assert ([c] + s)[1..] == s;
    if s != "" { assert ([c] + s)[2..] == s[1..]; }
  }

  /** Where the first pass leaves a text that goes on with something else than its mark. */
  lemma ReplaceFirst(s: string, mark: char, put: char)
    requires s != ""
    ensures Replace(s, mark, put) != "" && Replace(s, mark, put)[0] in {s[0], put}
    ensures s[0] != '~' ==> Replace(s, mark, put)[0] == s[0]
  {}

  /** Two passes, slashes first, read every token as it is meant. */
  lemma {:induction false} UnescapeIsMeant(raw: string)
    ensures Unescape(raw) == Meant(raw)
    decreases |raw|
  {
    if |raw| >= 2 {
      var rest := raw[1..];
      assert raw == [raw[0]] + rest;
      ReplaceMore(raw[0], rest, '1', '/');
      if raw[0] == '~' && raw[1] == '1' {
        UnescapeIsMeant(raw[2..]);
        ReplaceMore('/', Replace(raw[2..], '1', '/'), '0', '~');
      } else if raw[0] == '~' && raw[1] == '0' {
        UnescapeIsMeant(raw[2..]);
        assert rest == ['0'] + raw[2..];
        ReplaceMore('0', raw[2..], '1', '/');
        var inner := Replace(raw[2..], '1', '/');
        ReplaceMore('~', ['0'] + inner, '0', '~');
        assert (['0'] + inner)[1..] == inner;
      } else {
        UnescapeIsMeant(rest);
        ReplaceFirst(rest, '1', '/');
        ReplaceMore(raw[0], Replace(rest, '1', '/'), '0', '~');
      }
    } else if |raw| == 1 {
      assert Meant(raw[1..]) == "";
    }
  }

  lemma {:induction false} MeantPlain(raw: string)
    requires '~' !in raw
    ensures Meant(raw) == raw
  {
    if raw != "" {
      MeantPlain(raw[1..]);
      assert raw == [raw[0]] + raw[1..];
    }
  }

  // ---------------------------------------------------------------------- one step

  function Digits(i: nat): (s: string)
    ensures s != "" && forall k :: 0 <= k < |s| ==> IsDigit(s[k])
  {
    if i < 10 then [(0x30 + i) as char] else Digits(i / 10) + [(0x30 + i % 10) as char]
  }

  lemma {:induction false} DigitsRead(i: nat)
    ensures Discriminator.Number(Digits(i)) == i && (Digits(i)[0] == '0' ==> |Digits(i)| == 1)
  {
    if i >= 10 {
      DigitsRead(i / 10);
      var s := Digits(i);
      assert s[..|s| - 1] == Digits(i / 10);
      assert i / 10 < 10 ==> Digits(i / 10)[0] != '0';
      LeadingDigit(i / 10);
    }
  }

  lemma {:induction false} LeadingDigit(i: nat)
    requires i > 0
    ensures Digits(i)[0] != '0'
  {
    if i >= 10 { LeadingDigit(i / 10); }
  }

  lemma {:induction false} ReadDigits(s: string)
    requires s != "" && (forall k :: 0 <= k < |s| ==> IsDigit(s[k])) && (s[0] == '0' ==> |s| == 1)
    ensures Digits(Discriminator.Number(s)) == s
  {
    var init, last := s[..|s| - 1], s[|s| - 1];
    assert s == init + [last];
    var d := last as int - '0' as int;
    if init == "" {
      assert Discriminator.Number(init) == 0;
    } else {
      ReadDigits(init);
      PositiveNumber(init);
      var n := Discriminator.Number(init);
      assert Discriminator.Number(s) == 10 * n + d && (10 * n + d) / 10 == n && (10 * n + d) % 10 == d;
    }
  }

  lemma {:induction false} PositiveNumber(s: string)
    requires s != "" && (forall k :: 0 <= k < |s| ==> IsDigit(s[k])) && s[0] != '0'
    ensures Discriminator.Number(s) > 0
  {
    if |s| > 1 { PositiveNumber(s[..|s| - 1]); } else { assert Discriminator.Number(s[..0]) == 0; }
  }

  /** An index is a position written in decimal without leading zeros, and nothing else. */
  lemma IndexExact(token: string)
    ensures forall i: nat :: Index(token) == Some(i) <==> token == Digits(i)
  {
    forall i: nat ensures Index(token) == Some(i) <==> token == Digits(i) {
      DigitsRead(i);
      if Index(token) == Some(i) { ReadDigits(token); }
    }
  }

  /** The member of an object that has this name, or the item of a list at this position. */
  ghost predicate Within(v: Json, token: string, child: Json) {
    Holds(v, token, child) || (v.Array? && exists i :: 0 <= i < |v.items| && token == Digits(i) && child == v.items[i])
  }

  lemma ChildExact(v: Json, token: string)
    ensures forall x :: Child(v, token) == Some(x) <==> Within(v, token, x)
  {
    GetExact(v, token);
    IndexExact(token);
    hide Get, Index, Digits;
  }

  // --------------------------------------------------------------------- pointers

  /** Where a pointer leads: every slash and token take one step. */
  ghost predicate PointsTo(v: Json, pointer: string, x: Json)
    decreases |pointer|
  {
    if pointer == "" then x == v
    else exists k, child :: Cut(pointer, k) && Within(v, Meant(pointer[1..k]), child) && PointsTo(child, pointer[k..], x)
  }

  /** The first token ends at k. */
  predicate Cut(pointer: string, k: int) {
    && 1 <= k <= |pointer| && pointer[0] == '/' && (forall i :: 1 <= i < k ==> pointer[i] != '/')
    && (k < |pointer| ==> pointer[k] == '/')
  }

  lemma {:induction false} FirstToken(s: string, k: nat)
    requires k <= |s| && (forall i :: 0 <= i < k ==> s[i] != '/') && (k < |s| ==> s[k] == '/')
    ensures Tokens(s) == [s[..k]] + if k == |s| then [] else Tokens(s[k + 1..])
  {
    if k == 0 {
      if s != "" { assert s[..0] == ""; }
    } else {
      FirstToken(s[1..], k - 1);
      assert s[1..][..k - 1] == s[1..k] && [s[0]] + s[1..k] == s[..k];
      if k < |s| { assert s[1..][k..] == s[k + 1..]; }
    }
  }

  lemma PointerStep(v: Json, pointer: string, k: nat)
    requires Cut(pointer, k)
    ensures Pointer(v, pointer) == match Child(v, Meant(pointer[1..k])) case None => None case Some(child) => Pointer(child, pointer[k..])
  {
    var s, raw := pointer[1..], pointer[1..k];
    FirstToken(pointer, 0);
    FirstToken(s, k - 1);
    assert s[..k - 1] == raw;
    UnescapeIsMeant(raw);
    hide Child, Unescape, Meant, Tokens;
    assert Tokens(pointer)[1..] == Tokens(s) by { assert pointer[0 + 1..] == s; }
    if k < |pointer| {
      var rest := pointer[k..];
      assert s[k - 1 + 1..] == pointer[k + 1..] == rest[1..];
      FirstToken(rest, 0);
      assert Tokens(rest)[1..] == Tokens(rest[1..]) by { assert rest[0 + 1..] == rest[1..]; }
      assert Tokens(s)[0] == raw && Tokens(s)[1..] == Tokens(rest)[1..];
    } else {
      assert Tokens(s) == [raw] && Tokens(s)[1..] == [] && pointer[k..] == "";
      var child := Child(v, Meant(raw));
      assert child.Some? ==> Descend(child.value, Tokens(s)[1..]) == child && Pointer(child.value, "") == child;
    }
  }

  lemma {:induction false} CutExists(pointer: string) returns (k: nat)
    requires pointer != "" && pointer[0] == '/'
    ensures Cut(pointer, k)
  {
    k := 1;
    while k < |pointer| && pointer[k] != '/'
      invariant 1 <= k <= |pointer| && forall i :: 1 <= i < k ==> pointer[i] != '/'
    {
      k := k + 1;
    }
  }

  lemma CutOnce(pointer: string, a: nat, b: nat)
    requires Cut(pointer, a) && Cut(pointer, b)
    ensures a == b
  {}

  lemma {:induction false} PointerExact(v: Json, pointer: string, x: Json)
    ensures Pointer(v, pointer) == Some(x) <==> PointsTo(v, pointer, x)
    decreases |pointer|
  {
    if pointer != "" && pointer[0] == '/' {
      var k := CutExists(pointer);
      PointerStep(v, pointer, k);
      ChildExact(v, Meant(pointer[1..k]));
      var child := Child(v, Meant(pointer[1..k]));
      hide Pointer, Child, Within;
      if child.Some? { PointerExact(child.value, pointer[k..], x); }
      forall j | Cut(pointer, j) ensures j == k { CutOnce(pointer, j, k); }
    }
  }

  // --------------------------------------------------------------------- the chain

  ghost predicate NoText(d: Json, key: string) { forall text :: !Holds(d, key, Text(text)) }

  /** The reference leads, within the document, to this definition. */
  ghost predicate Refers(doc: Json, reference: string, next: Json) {
    reference != "" && reference[0] == '#' && PointsTo(doc, reference[1..], next)
  }

  /** A definition that settles the question by itself. */
  ghost predicate SaysAtOnce(doc: Json, d: Json, o: Outcome) {
    match o
    case Constant(text) => Holds(d, "const", Text(text))
    case NotConstant => NoText(d, "const") && NoText(d, "$ref")
    case NonLocal(reference) => NoText(d, "const") && Holds(d, "$ref", Text(reference)) && (reference == "" || reference[0] != '#')
    case Missing(reference) =>
      && NoText(d, "const") && Holds(d, "$ref", Text(reference)) && reference != "" && reference[0] == '#'
      && forall next :: !Refers(doc, reference, next)
    case _ => false
  }

  /** A definition that hands the question on. */
  ghost predicate HandsOn(doc: Json, d: Json, next: Json) {
    NoText(d, "const") && exists reference :: Holds(d, "$ref", Text(reference)) && Refers(doc, reference, next)
  }

  /** What a definition says, through at most n references. */
  ghost predicate Says(doc: Json, d: Json, o: Outcome, n: nat)
    decreases n
  {
    SaysAtOnce(doc, d, o) || (n > 0 && exists next :: HandsOn(doc, d, next) && Says(doc, next, o, n - 1))
  }

  /** The definition a document starts from. */
  ghost predicate Starts(doc: Json, d: Json) { exists properties :: Holds(doc, "properties", properties) && Holds(properties, "schema", d) }

  lemma TextIs(v: Json, key: string)
    ensures forall text :: StringField(v, key) == Some(text) <==> Holds(v, key, Text(text))
    ensures StringField(v, key).None? <==> NoText(v, key)
  {
    GetExact(v, key);
    hide Get, Holds;
  }

  lemma TargetExact(doc: Json, reference: string)
    requires reference != "" && reference[0] == '#'
    ensures forall next :: Target(doc, reference) == Some(next) <==> Refers(doc, reference, next)
  {
    hide Pointer, PointsTo;
    forall next ensures Pointer(doc, reference[1..]) == Some(next) <==> PointsTo(doc, reference[1..], next) { PointerExact(doc, reference[1..], next); }
    if reference == "#" {
      assert reference[1..] == "";
      EmptyPointer(doc);
    }
  }

  lemma EmptyPointer(doc: Json)
    ensures Pointer(doc, "") == Some(doc)
  {}

  /** One look, in the document's own terms. */
  lemma LookSettles(doc: Json, d: Json, o: Outcome)
    ensures Look(doc, d) == Final(o) <==> SaysAtOnce(doc, d, o)
  {
    hide StringField, Holds, Refers, NoText, Look, Target;
    var constant, reference := StringField(d, "const"), StringField(d, "$ref");
    LookBy(doc, d);
    TextAt(d, "const", if o.Constant? then o.text else "");
    TextAt(d, "$ref", if o.NonLocal? || o.Missing? then o.reference else "");
    if o.Missing? && o.reference != "" && o.reference[0] == '#' { NoTarget(doc, o.reference); }
  }

  /** The four ways a look can settle, by the two texts it reads. */
  lemma LookBy(doc: Json, d: Json)
    ensures var constant, reference := StringField(d, "const"), StringField(d, "$ref");
            && (constant.Some? ==> Look(doc, d) == Final(Constant(constant.value)))
            && (constant.None? && reference.None? ==> Look(doc, d) == Final(NotConstant))
            && (constant.None? && reference.Some? && (reference.value == "" || reference.value[0] != '#') ==>
                  Look(doc, d) == Final(NonLocal(reference.value)))
            && (constant.None? && reference.Some? && reference.value != "" && reference.value[0] == '#' && Target(doc, reference.value).None? ==>
                  Look(doc, d) == Final(Missing(reference.value)))
            && (constant.None? && reference.Some? && reference.value != "" && reference.value[0] == '#' && Target(doc, reference.value).Some? ==>
                  Look(doc, d).At?)
  {
    hide StringField, Target;
  }

  lemma NoTarget(doc: Json, reference: string)
    requires reference != "" && reference[0] == '#'
    ensures Target(doc, reference) == None <==> forall next :: !Refers(doc, reference, next)
  {
    hide Target, Refers;
    TargetExact(doc, reference);
  }

  lemma LookHandsOn(doc: Json, d: Json, next: Json)
    ensures Look(doc, d) == At(next) <==> HandsOn(doc, d, next)
  {
    hide StringField, Holds, Target, Refers, NoText, HandsOn;
    if Look(doc, d) == At(next) {
      var reference := StringField(d, "$ref").value;
      TextAt(d, "const", "");
      TextAt(d, "$ref", reference);
      TargetAt(doc, reference, next);
      HandedOn(doc, d, reference, next);
    }
    if HandsOn(doc, d, next) {
      var reference := Handing(doc, d, next);
      TextAt(d, "const", "");
      TextAt(d, "$ref", reference);
      TargetAt(doc, reference, next);
    }
  }

  lemma HandedOn(doc: Json, d: Json, reference: string, next: Json)
    requires NoText(d, "const") && Holds(d, "$ref", Text(reference)) && Refers(doc, reference, next)
    ensures HandsOn(doc, d, next)
  {}

  lemma Handing(doc: Json, d: Json, next: Json) returns (reference: string)
    requires HandsOn(doc, d, next)
    ensures NoText(d, "const") && Holds(d, "$ref", Text(reference)) && Refers(doc, reference, next)
    ensures reference != "" && reference[0] == '#'
  {
    hide Holds, NoText, PointsTo;
    reference :| Holds(d, "$ref", Text(reference)) && Refers(doc, reference, next);
  }

  lemma TextAt(v: Json, key: string, text: string)
    ensures StringField(v, key) == Some(text) <==> Holds(v, key, Text(text))
    ensures StringField(v, key).None? <==> NoText(v, key)
  {
    TextIs(v, key);
  }

  lemma TargetAt(doc: Json, reference: string, next: Json)
    requires reference != "" && reference[0] == '#'
    ensures Target(doc, reference) == Some(next) <==> Refers(doc, reference, next)
  {
    TargetExact(doc, reference);
  }

  lemma SaysBy(doc: Json, d: Json, o: Outcome, n: nat)
    ensures Look(doc, d).Final? ==> (Says(doc, d, o, n) <==> Look(doc, d) == Final(o))
    ensures Look(doc, d).At? ==> (Says(doc, d, o, n) <==> n > 0 && Says(doc, Look(doc, d).definition, o, n - 1))
  {
    hide Look, SaysAtOnce, HandsOn;
    forall o ensures Look(doc, d) == Final(o) <==> SaysAtOnce(doc, d, o) { LookSettles(doc, d, o); }
    forall next ensures Look(doc, d) == At(next) <==> HandsOn(doc, d, next) { LookHandsOn(doc, d, next); }
  }

  /** What the n-th definition of the chain says is what it says after one look more. */
  lemma {:induction false} ChainSays(doc: Json, d: Json, o: Outcome, m: nat, n: nat)
    requires Walk(doc, m) == At(d)
    ensures Says(doc, d, o, n) ==> Settles(doc, o)
    decreases n
  {
    hide Look, Says, Walk;
    SaysBy(doc, d, o, n);
    WalkOn(doc, m);
    if Says(doc, d, o, n) {
      if Look(doc, d).Final? {
        assert Walk(doc, m + 1) == Final(o);
      } else if n > 0 {
        ChainSays(doc, Look(doc, d).definition, o, m + 1, n - 1);
      }
    }
  }

  lemma {:induction false} SettlesSays(doc: Json, d: Json, o: Outcome, m: nat, n: nat)
    requires Walk(doc, m) == At(d) && m <= n && Walk(doc, n + 1) == Final(o)
    ensures Says(doc, d, o, n - m)
    decreases n - m
  {
    hide Look, Says, Walk;
    SaysBy(doc, d, o, n - m);
    WalkOn(doc, m);
    if Look(doc, d).Final? {
      FinalStays(doc, m + 1, n + 1);
    } else {
      SettlesSays(doc, Look(doc, d).definition, o, m + 1, n);
    }
  }

  lemma CutAfter(raw: string, rest: string)
    requires '/' !in raw && (rest == "" || rest[0] == '/')
    ensures var p := "/" + raw + rest; Cut(p, |raw| + 1) && p[1..|raw| + 1] == raw && p[|raw| + 1..] == rest
  {}

  lemma StartSpelled()
    ensures var p := "/properties/schema"; Cut(p, 11) && p[1..11] == "properties" && p[11..] == "/schema"
    ensures Cut("/schema", 7) && "/schema"[1..7] == "schema" && "/schema"[7..] == ""
    ensures Meant("properties") == "properties" && Meant("schema") == "schema"
  {
    hide Meant, Cut;
    MeantPlain("properties");
    MeantPlain("schema");
    CutAfter("properties", "/schema");
    CutAfter("schema", "");
    assert "/" + "properties" + "/schema" == "/properties/schema" && |"properties"| == 10;
    assert "/" + "schema" + "" == "/schema" && |"schema"| == 6;
  }

  lemma StartPointer(doc: Json)
    ensures Pointer(doc, "/properties/schema") == match Child(doc, "properties") case None => None case Some(p) => Child(p, "schema")
  {
    hide Meant, Pointer, Child, Cut;
    StartSpelled();
    PointerStep(doc, "/properties/schema", 11);
    var p := Child(doc, "properties");
    if p.Some? {
      PointerStep(p.value, "/schema", 7);
      var d := Child(p.value, "schema");
      if d.Some? { EmptyPointer(d.value); }
    }
  }

  lemma StartExact(doc: Json)
    ensures forall d :: Walk(doc, 0) == At(d) <==> Starts(doc, d)
    ensures Walk(doc, 0).Final? ==> Walk(doc, 0) == Final(NoDefinition) && forall d :: !Starts(doc, d)
  {
    hide Pointer, Child, Holds, Digits, IsDigit;
    StartPointer(doc);
    ByName(doc, "properties");
    if Child(doc, "properties").Some? { ByName(Child(doc, "properties").value, "schema"); }
  }

  /** A token that is no number leads to fields only. */
  lemma ByName(v: Json, token: string)
    requires token in {"properties", "schema"}
    ensures forall x :: Child(v, token) == Some(x) <==> Holds(v, token, x)
  {
    hide Child, Holds, Digits;
    assert "properties"[0] == 'p' && "schema"[0] == 's';
    NoPosition(token);
    ChildExact(v, token);
  }

  lemma NoPosition(token: string)
    requires token != "" && !IsDigit(token[0])
    ensures forall i: nat :: token != Digits(i)
  {}

  /**
    The search's answer, from the document alone: it settles on an outcome exactly when the
    definition the document starts from says so through its references, or there is none.
   */
  lemma SettlesExactly(doc: Json, o: Outcome)
    ensures Settles(doc, o) <==>
              || (o == NoDefinition && forall d :: !Starts(doc, d))
              || exists d, n: nat :: Starts(doc, d) && Says(doc, d, o, n)
  {
    hide Look, Says, Walk, Starts;
    StartExact(doc);
    if Settles(doc, o) {
      var n: nat :| Walk(doc, n) == Final(o);
      if Walk(doc, 0).At? {
        var d := Walk(doc, 0).definition;
        assert n > 0;
        SettlesSays(doc, d, o, 0, n - 1);
      } else {
        FinalStays(doc, 0, n);
      }
    }
    if d, n: nat :| Starts(doc, d) && Says(doc, d, o, n) { ChainSays(doc, d, o, 0, n); }
  }
}
