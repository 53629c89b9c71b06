/**
  Finding the string constant that names a schema, through local references.
 */
module Discriminator {
  import opened Options
  import opened Json

  // ---------------------------------------------------------------- JSON pointers

  /** The parts of a text between slashes. */
  function Tokens(s: string): (parts: seq<string>)
    ensures |parts| >= 1
  {
    if s == "" then [""]
    else
      var rest := Tokens(s[1..]);
      if s[0] == '/' then [""] + rest else [[s[0]] + rest[0]] + rest[1..]
  }

  /** Replace every `~` followed by `mark`, left to right. */
  function Replace(s: string, mark: char, put: char): string {
    if |s| < 2 then s
    else if s[0] == '~' && s[1] == mark then [put] + Replace(s[2..], mark, put)
    else [s[0]] + Replace(s[1..], mark, put)
  }

  function Unescape(token: string): string { Replace(Replace(token, '1', '/'), '0', '~') }

  predicate IsDigit(c: char) { '0' <= c <= '9' }

  function Number(s: string): nat {
    if s == "" || !IsDigit(s[|s| - 1]) then 0
    else 10 * Number(s[..|s| - 1]) + (s[|s| - 1] as int - '0' as int)
  }

  /** An array index: digits only and no leading zero. */
  function Index(token: string): Option<nat> {
    if token == "" || (exists i :: 0 <= i < |token| && !IsDigit(token[i])) || (token[0] == '0' && |token| > 1) then None
    else Some(Number(token))
  }

  function Child(v: Json, token: string): (r: Option<Json>)
    ensures r.Some? ==> r.value < v
  {
    match v
    case Object(_) => Get(v, token)
    case Array(items) =>
      var i := Index(token);
      if i.Some? && i.value < |items| then Some(items[i.value]) else None
    case _ => None
  }

  function Descend(v: Json, tokens: seq<string>): Option<Json>
    decreases |tokens|
  {
    if tokens == [] then Some(v)
    else
      var child := Child(v, Unescape(tokens[0]));
      if child.None? then None else Descend(child.value, tokens[1..])
  }

  function Pointer(v: Json, pointer: string): Option<Json> {
    if pointer == "" then Some(v)
    else if pointer[0] != '/' then None
    else Descend(v, Tokens(pointer)[1..])
  }

  // ---------------------------------------------------------- the chain it follows

  datatype Outcome =
    | Constant(text: string)
    | NoDefinition
    | NotConstant
    | NonLocal(reference: string)
    | Missing(reference: string)
    | Cyclic(reference: string)

  function Target(doc: Json, reference: string): Option<Json>
    requires reference != ""
  {
    if reference == "#" then Some(doc) else Pointer(doc, reference[1..])
  }

  datatype Stage = At(definition: Json) | Final(outcome: Outcome)

  /** One look at a definition: it settles the question or names the next definition. */
  function Look(doc: Json, definition: Json): Stage {
    var constant, reference := StringField(definition, "const"), StringField(definition, "$ref");
    if constant.Some? then Final(Constant(constant.value))
    else if reference.None? then Final(NotConstant)
    else if reference.value == "" || reference.value[0] != '#' then Final(NonLocal(reference.value))
    else
      match Target(doc, reference.value)
      case None => Final(Missing(reference.value))
      case Some(next) => At(next)
  }

  /** The chain of definitions with no memory of references: it need not end. */
  function Walk(doc: Json, n: nat): Stage {
    if n == 0 then
      match Pointer(doc, "/properties/schema") case None => Final(NoDefinition) case Some(d) => At(d)
    else
      Step(doc, Walk(doc, n - 1))
  }

  function Step(doc: Json, stage: Stage): Stage {
    match stage case Final(_) => stage case At(d) => Look(doc, d)
  }

  lemma WalkOn(doc: Json, n: nat)
    ensures Walk(doc, n + 1) == Step(doc, Walk(doc, n))
  {
  }

  ghost predicate Endless(doc: Json) { forall n: nat :: Walk(doc, n).At? }

  ghost predicate Settles(doc: Json, outcome: Outcome) { exists n: nat :: Walk(doc, n) == Final(outcome) }

  lemma {:induction false} FinalStays(doc: Json, m: nat, n: nat)
    requires m <= n && Walk(doc, m).Final?
    ensures Walk(doc, n) == Walk(doc, m)
  {
    if m < n { FinalStays(doc, m, n - 1); }
  }

  /** Chains settle at most one way, and not when they are endless. */
  lemma SettlesOneWay(doc: Json, a: Outcome, b: Outcome)
    requires Settles(doc, a) && Settles(doc, b)
    ensures a == b && !Endless(doc)
  {
    var m: nat :| Walk(doc, m) == Final(a);
    var n: nat :| Walk(doc, n) == Final(b);
    if m <= n { FinalStays(doc, m, n); } else { FinalStays(doc, n, m); }
  }

  // -------------------------------------------------- the references of a document

  /** Every text that some object of the document names under "$ref". */
  ghost function References(v: Json): set<string> {
    match v
    case Array(items) => set i, r | 0 <= i < |items| && r in References(items[i]) :: r
    case Object(fields) =>
      (set i, r | 0 <= i < |fields| && r in References(fields[i].value) :: r)
      + (match StringField(v, "$ref") case None => {} case Some(r) => {r})
    case _ => {}
  }

  lemma ChildReferences(v: Json, token: string)
    requires Child(v, token).Some?
    ensures References(Child(v, token).value) <= References(v)
  {
    match v {
      case Object(fields) =>
        var i := Find(fields, token);
        assert forall r :: r in References(fields[i].value) ==> r in References(v);
      case Array(items) =>
        var i := Index(token).value;
        assert forall r :: r in References(items[i]) ==> r in References(v);
    }
  }

  lemma {:induction false} DescendReferences(v: Json, tokens: seq<string>)
    requires Descend(v, tokens).Some?
    ensures References(Descend(v, tokens).value) <= References(v)
    decreases |tokens|
  {
    if tokens != [] {
      ChildReferences(v, Unescape(tokens[0]));
      DescendReferences(Child(v, Unescape(tokens[0])).value, tokens[1..]);
    }
  }

  lemma PointerReferences(v: Json, pointer: string)
    requires Pointer(v, pointer).Some?
    ensures References(Pointer(v, pointer).value) <= References(v)
  {
    if pointer != "" { DescendReferences(v, Tokens(pointer)[1..]); }
  }

  /** A definition reached in the document only names references of the document. */
  lemma {:induction false} WalkReferences(doc: Json, n: nat)
    requires Walk(doc, n).At?
    ensures References(Walk(doc, n).definition) <= References(doc)
  {
    if n == 0 {
      PointerReferences(doc, "/properties/schema");
    } else {
      var reference := StringField(Walk(doc, n - 1).definition, "$ref").value;
      if reference != "#" { PointerReferences(doc, reference[1..]); }
    }
  }

  lemma NamedReference(v: Json)
    requires StringField(v, "$ref").Some?
    ensures StringField(v, "$ref").value in References(v)
  {
  }

  // ------------------------------------------------------------------- the search

  /** The reference followed from the n-th definition. */
  ghost predicate Follows(doc: Json, n: nat, reference: string) {
    && Walk(doc, n).At?
    && StringField(Walk(doc, n).definition, "const").None?
    && StringField(Walk(doc, n).definition, "$ref") == Some(reference)
  }

  lemma {:induction false} SameFuture(doc: Json, a: nat, b: nat, k: nat)
    requires Walk(doc, a) == Walk(doc, b)
    ensures Walk(doc, a + k) == Walk(doc, b + k)
  {
    hide Walk, Step;
    if k > 0 {
      SameFuture(doc, a, b, k - 1);
      WalkOn(doc, a + k - 1);
      WalkOn(doc, b + k - 1);
    }
  }

  /** Once a stage returns, the chain goes round for ever. */
  lemma {:induction false} GoesRound(doc: Json, a: nat, b: nat, n: nat)
    requires a < b && Walk(doc, a) == Walk(doc, b) && Walk(doc, b).At?
    ensures Walk(doc, n).At?
    decreases n
  {
    hide Walk;
    if n > b {
      GoesRound(doc, a, b, n - (b - a));
      SameFuture(doc, a, b, n - b);
    } else if Walk(doc, n).Final? {
      FinalStays(doc, n, b);
    }
  }

  lemma RepeatIsEndless(doc: Json, i: nat, n: nat, reference: string)
    requires i < n && Follows(doc, i, reference) && Follows(doc, n, reference)
    ensures Endless(doc)
  {
    hide Walk, StringField;
    WalkOn(doc, i);
    WalkOn(doc, n);
    if Walk(doc, i + 1).Final? { FinalStays(doc, i + 1, n); }
    forall m: nat ensures Walk(doc, m).At? { GoesRound(doc, i + 1, n + 1, m); }
  }

  /** The references followed so far, all different. */
  ghost predicate Visited(doc: Json, n: nat, references: set<string>) {
    && |references| == n
    && references <= References(doc)
    && forall r :: r in references ==> exists i: nat :: i < n && Follows(doc, i, r)
  }

  lemma VisitedGrows(doc: Json, n: nat, references: set<string>, reference: string)
    requires Visited(doc, n, references) && reference !in references && Follows(doc, n, reference)
    ensures Visited(doc, n + 1, references + {reference})
  {
    WalkReferences(doc, n);
    NamedReference(Walk(doc, n).definition);
    forall r | r in references + {reference} ensures exists i: nat :: i < n + 1 && Follows(doc, i, r) {
      if r in references {
        var i: nat :| i < n && Follows(doc, i, r);
      }
    }
  }

  lemma Fewer<T>(a: set<T>, b: set<T>)
    requires a <= b
    ensures |a| <= |b|
  {
    assert b == a + (b - a);
  }

  lemma VisitedBounded(doc: Json, n: nat, references: set<string>)
    requires Visited(doc, n, references)
    ensures n <= |References(doc)|
  {
    Fewer(references, References(doc));
  }

  lemma VisitedBefore(doc: Json, n: nat, references: set<string>, reference: string) returns (i: nat)
    requires Visited(doc, n, references) && reference in references
    ensures i < n && Follows(doc, i, reference)
  {
    i :| i < n && Follows(doc, i, reference);
  }

  lemma NothingVisited(doc: Json)
    ensures Visited(doc, 0, {})
  {
  }

  lemma EndlessNeverSettles(doc: Json)
    ensures Endless(doc) ==> forall o :: !Settles(doc, o)
  {
    hide Walk;
  }

  lemma SettledIsFinite(doc: Json, n: nat, outcome: Outcome)
    requires Walk(doc, n) == Final(outcome)
    ensures !Endless(doc) && forall o :: Settles(doc, o) <==> o == outcome
  {
    hide Walk;
    forall o | Settles(doc, o) ensures o == outcome { SettlesOneWay(doc, o, outcome); }
  }

  /**
    The search ends on every document. It says Cyclic exactly when the chain itself has no
    end, for a reference the chain follows twice, and otherwise says how the chain settles.
   */
  method SchemaDiscriminator(doc: Json) returns (r: Outcome)
    ensures r.Cyclic? <==> Endless(doc)
    ensures r.Cyclic? ==> exists i: nat, j: nat :: i < j && Follows(doc, i, r.reference) && Follows(doc, j, r.reference)
    ensures forall o :: Settles(doc, o) <==> !r.Cyclic? && o == r
  {
    hide Visited, Endless, Settles, Pointer, StringField, References;
    assert Visited(doc, 0, {}) by { NothingVisited(doc); }
    var start := Pointer(doc, "/properties/schema");
    if start.None? {
      SettledIsFinite(doc, 0, NoDefinition);
      return NoDefinition;
    }
    var definition, references := start.value, {};
    ghost var n: nat := 0;
    while true
      invariant Walk(doc, n) == At(definition)
      invariant Visited(doc, n, references)
      decreases |References(doc)| - n
    {
      var constant := StringField(definition, "const");
      if constant.Some? {
        SettledIsFinite(doc, n + 1, Constant(constant.value));
        return Constant(constant.value);
      }
      var reference := StringField(definition, "$ref");
      if reference.None? {
        SettledIsFinite(doc, n + 1, NotConstant);
        return NotConstant;
      }
      if reference.value == "" || reference.value[0] != '#' {
        SettledIsFinite(doc, n + 1, NonLocal(reference.value));
        return NonLocal(reference.value);
      }
      assert Follows(doc, n, reference.value);
      if reference.value in references {
        ghost var i := VisitedBefore(doc, n, references, reference.value);
        RepeatIsEndless(doc, i, n, reference.value);
        EndlessNeverSettles(doc);
        return Cyclic(reference.value);
      }
      VisitedGrows(doc, n, references, reference.value);
      VisitedBounded(doc, n + 1, references + {reference.value});
      references := references + {reference.value};
      var next := Target(doc, reference.value);
      if next.None? {
        SettledIsFinite(doc, n + 1, Missing(reference.value));
        return Missing(reference.value);
      }
      definition, n := next.value, n + 1;
    }
  }
}
