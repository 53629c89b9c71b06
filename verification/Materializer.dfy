/**
  The two sides of overlay grading: the controller splices an overlay into a source file
  as bytes and records it; the validator decodes the record and redoes the splice on
  characters.
 */
module Materializer {
  import opened Options
  import opened Texts
  import opened Utf8

  // --------------------------------------------------------------------------- hex

  function HexByte(n: nat): string
    requires n < 256
  {
    [HexChar(n / 16), HexChar(n % 16)]
  }

  function ToHex(b: Text): string
    requires IsBytes(b)
  {
    if b == [] then "" else HexByte(b[0]) + ToHex(b[1..])
  }

  predicate HexSpace(c: char) { c == ' ' || 9 <= c as int <= 13 }

  /** `bytes.fromhex`: digit pairs of either case, with spaces allowed between pairs. */
  function FromHex(s: string): Option<Text> {
    if s == "" then Some([])
    else if HexSpace(s[0]) then FromHex(s[1..])
    else if |s| < 2 then None
    else
      match (HexDigit(s[0]), HexDigit(s[1]), FromHex(s[2..]))
      case (Some(high), Some(low), Some(rest)) => Some([16 * high + low] + rest)
      case _ => None
  }

  lemma HexByteReads(n: nat)
    requires n < 256
    ensures var s := HexByte(n); !HexSpace(s[0]) && HexDigit(s[0]) == Some(n / 16) && HexDigit(s[1]) == Some(n % 16)
  {
    hide HexDigit, HexChar;
  }

  lemma {:induction false} HexRoundTrip(b: Text)
    requires IsBytes(b)
    ensures FromHex(ToHex(b)) == Some(b)
  {
    hide HexByte, HexDigit, HexSpace;
    if b != [] {
      HexByteReads(b[0]);
      HexRoundTrip(b[1..]);
      var s := ToHex(b);
      assert |HexByte(b[0])| == 2 by { HexByteLength(b[0]); }
      assert s[2..] == ToHex(b[1..]) && s[..2] == HexByte(b[0]) && s[0] == HexByte(b[0])[0] && s[1] == HexByte(b[0])[1];
      assert 16 * (b[0] / 16) + b[0] % 16 == b[0];
      assert [b[0]] + b[1..] == b;
    }
  }

  lemma HexByteLength(n: nat)
    requires n < 256
    ensures |HexByte(n)| == 2
  {
  }

  // ----------------------------------------------------------------------- splicing

  predicate PairAt<T(==)>(s: seq<T>, a: T, b: T, i: int) { 0 <= i < |s| - 1 && s[i] == a && s[i + 1] == b }

  /** `rfind` of a two-element needle. */
  function RFind<T(==)>(s: seq<T>, a: T, b: T): (i: Option<nat>)
    ensures i.Some? ==> PairAt(s, a, b, i.value) && forall j :: PairAt(s, a, b, j) ==> j <= i.value
    ensures i.None? ==> forall j :: !PairAt(s, a, b, j)
  {
    if |s| < 2 then None
    else if PairAt(s, a, b, |s| - 2) then Some(|s| - 2)
    else
      assert forall j :: PairAt(s, a, b, j) ==> PairAt(s[..|s| - 1], a, b, j);
      assert forall j :: PairAt(s[..|s| - 1], a, b, j) ==> PairAt(s, a, b, j);
      RFind(s[..|s| - 1], a, b)
  }

  /** The controller's splice, on bytes. */
  function Splice(original: Text, overlay: Text): Option<Text> {
    match RFind(original, 0x0A, 0x7D)
    case None => None
    case Some(i) => Some(original[..i] + [0x0A, 0x0A] + overlay + [0x0A, 0x7D, 0x0A])
  }

  /** The validator's splice, on characters. */
  function SpliceChars(original: string, overlay: string): Option<string> {
    match RFind(original, '\n', '}')
    case None => None
    case Some(i) => Some(original[..i] + "\n\n" + overlay + "\n}\n")
  }

  /** A needle's two ASCII bytes are next to each other exactly where its characters are. */
  lemma {:induction false} PairEncoded(s: string, a: char, b: char, i: nat)
    requires a as int < 0x80 && b as int < 0x80 && i <= |s|
    ensures PairAt(s, a, b, i) <==> PairAt(EncodeUtf8(s), a as nat, b as nat, |EncodeUtf8(s[..i])|)
  {
    var x, y := s[..i], s[i..];
    assert s == x + y;
    EncodeAppend(x, y);
    var t, e := EncodeUtf8(y), EncodeUtf8(s);
    if PairAt(s, a, b, i) {
      LowChar(a);
      LowChar(b);
      assert y[0] == a && y[1..][0] == b;
      assert t == [a as nat] + ([b as nat] + EncodeUtf8(y[1..][1..]));
    }
    if PairAt(e, a as nat, b as nat, |EncodeUtf8(x)|) {
      assert t[0] == a as nat && t[1] == b as nat;
      assert y != "";
      LowBytes(y[0], 0);
      assert t == [y[0] as nat] + EncodeUtf8(y[1..]);
      var u := EncodeUtf8(y[1..]);
      assert u[0] == b as nat && y[1..] != "";
      assert u[0] == EncodeChar(y[1..][0])[0];
      LowBytes(y[1..][0], 0);
    }
  }

  /** Every ASCII byte starts a character. */
  lemma {:induction false} LowByteBoundary(s: string, k: nat) returns (i: nat)
    requires k < |EncodeUtf8(s)| && EncodeUtf8(s)[k] < 0x80
    ensures i < |s| && |EncodeUtf8(s[..i])| == k
  {
    var first := EncodeChar(s[0]);
    if k < |first| {
      LowBytes(s[0], k);
      i := 0;
    } else {
      i := LowByteBoundary(s[1..], k - |first|);
      assert s[..i + 1][0] == s[0] && s[..i + 1][1..] == s[1..][..i];
      i := i + 1;
    }
  }

  lemma {:induction false} EncodedPrefixLonger(s: string, i: nat, j: nat)
    requires i < j <= |s|
    ensures |EncodeUtf8(s[..i])| < |EncodeUtf8(s[..j])|
  {
    assert s[..j] == s[..i] + s[i..j];
    EncodeAppend(s[..i], s[i..j]);
  }

  /** Searching bytes and searching characters find the same place. */
  lemma RFindAgrees(s: string, a: char, b: char)
    requires a as int < 0x80 && b as int < 0x80
    ensures var i := RFind(s, a, b);
            RFind(EncodeUtf8(s), a as nat, b as nat) == if i.None? then None else Some(|EncodeUtf8(s[..i.value])|)
  {
    var i, k := RFind(s, a, b), RFind(EncodeUtf8(s), a as nat, b as nat);
    if i.Some? { PairEncoded(s, a, b, i.value); }
    if k.Some? {
      var j := LowByteBoundary(s, k.value);
      PairEncoded(s, a, b, j);
      if i.Some? && j < i.value { EncodedPrefixLonger(s, j, i.value); }
    }
  }

  /** Both sides splice to the same file. */
  lemma SplicesAgree(original: string, overlay: string)
    ensures var s := SpliceChars(original, overlay);
            Splice(EncodeUtf8(original), EncodeUtf8(overlay)) == if s.None? then None else Some(EncodeUtf8(s.value))
  {
    RFindAgrees(original, '\n', '}');
    var i := RFind(original, '\n', '}');
    if i.Some? {
      var head := original[..i.value];
      assert original == head + original[i.value..];
      EncodeAppend(head, original[i.value..]);
      SpliceEncodes(head, overlay);
    }
  }

  lemma SpliceEncodes(head: string, overlay: string)
    ensures EncodeUtf8(head + "\n\n" + overlay + "\n}\n")
         == EncodeUtf8(head) + [0x0A, 0x0A] + EncodeUtf8(overlay) + [0x0A, 0x7D, 0x0A]
  {
    EncodeAppend(head + "\n\n" + overlay, "\n}\n");
    EncodeAppend(head + "\n\n", overlay);
    EncodeAppend(head, "\n\n");
    AsciiEncodes("\n\n");
    AsciiEncodes("\n}\n");
    assert Codes("\n\n") == [0x0A, 0x0A] && Codes("\n}\n") == [0x0A, 0x7D, 0x0A];
  }

  // ------------------------------------------------------- the artifact and its pins

  datatype Arm = Historical | Fixed

  /** Digests of pinned bytes, as hexadecimal text. */
  type Hash = Text -> string

  datatype Pin = Pin(signal: string, base: string, original: string, overlay: string)

  function PinOf(arm: Arm): Pin {
    match arm
    case Historical =>
      Pin("historical_bug_reproduced", "6bc83a51d83a82fb5ba4e5722db683de830533ca",
          "20bd01c5986aa93a41f6b592c803d8aabd02bb4c9ce00d4b5367bf42842436d1",
          "af74bc7c8d281c290b9b697bb20e367bd639d8e97988e7d5bab163346f99a6a4")
    case Fixed =>
      Pin("fixed_bound_enforced", "5f70f85a45ce358df135543617c2925dcbaf127f",
          "4f724a7fc2ef1f5bbbaf4eb05495f40a07cf51a914823986aa9d4d4d040c5def",
          "4015dfb6f8d789716d19c7e654c2f1e80fd5f135cfb4b0bc81270be51a2f6b1a")
  }

  function ArmName(arm: Arm): string { match arm case Historical => "historical" case Fixed => "fixed" }

  const SCHEMA := "harness.eval.materialization-artifact.v1"
  const TARGET_PATH := "crates/harness-store/src/queries.rs"

  /** A JSON artifact's string fields; one that is missing or no string is None. */
  datatype Artifact = Artifact(
    schema: Option<string>, arm: Option<string>, signal: Option<string>, base: Option<string>, targetPath: Option<string>,
    originalHex: Option<string>, overlayHex: Option<string>, overlayDigest: Option<string>, resultDigest: Option<string>)

  datatype Materialized = Materialized(file: Text, artifact: Artifact)

  /** The controller's step; the overlay is part of the program, hence characters. */
  function Materialize(h: Hash, arm: Arm, base: string, file: Text, overlay: string): Option<Materialized> {
    match DecodeUtf8(file)
    case None => None
    case Some(_) =>
      match Splice(file, EncodeUtf8(overlay))
      case None => None
      case Some(spliced) =>
        EncodedBytes(overlay);
        EncodedBytes(DecodeUtf8(file).value);
        Some(Materialized(spliced, Artifact(
          Some(SCHEMA), Some(ArmName(arm)), Some(PinOf(arm).signal), Some(base), Some(TARGET_PATH),
          Some(ToHex(file)), Some(ToHex(EncodeUtf8(overlay))), Some(h(EncodeUtf8(overlay))), Some(h(spliced)))))
  }

  function ArmNamed(name: Option<string>): Option<Arm> {
    if name == Some("historical") then Some(Historical) else if name == Some("fixed") then Some(Fixed) else None
  }

  function HexBytes(field: Option<string>): Option<Text> { if field.None? then None else FromHex(field.value) }

  function DecodeHex(field: Option<string>): Option<string> {
    match HexBytes(field) case None => None case Some(b) => DecodeUtf8(b)
  }

  /** The validator. */
  predicate Validate(h: Hash, v: Artifact) {
    var arm, original, overlay := ArmNamed(v.arm), DecodeHex(v.originalHex), DecodeHex(v.overlayHex);
    && v.schema == Some(SCHEMA)
    && arm.Some?
    && v.signal == Some(PinOf(arm.value).signal)
    && v.base == Some(PinOf(arm.value).base)
    && v.targetPath == Some(TARGET_PATH)
    && original.Some? && overlay.Some?
    && h(EncodeUtf8(original.value)) == PinOf(arm.value).original
    && h(EncodeUtf8(overlay.value)) == PinOf(arm.value).overlay
    && var spliced := SpliceChars(original.value, overlay.value);
       spliced.Some? && v.resultDigest == Some(h(EncodeUtf8(spliced.value)))
  }

  /** What the controller builds is accepted exactly when it was built from the pinned inputs. */
  lemma BuiltIsAccepted(h: Hash, arm: Arm, base: string, file: Text, overlay: string)
    ensures var built := Materialize(h, arm, base, file, overlay);
            built.Some? ==>
              (Validate(h, built.value.artifact)
               <==> base == PinOf(arm).base && h(file) == PinOf(arm).original && h(EncodeUtf8(overlay)) == PinOf(arm).overlay)
  {
    hide DecodeUtf8, EncodeUtf8, FromHex, ToHex, Splice, SpliceChars, PinOf;
    if Materialize(h, arm, base, file, overlay).Some? {
      var original := DecodeUtf8(file).value;
      EncodedBytes(original);
      EncodedBytes(overlay);
      HexRoundTrip(file);
      HexRoundTrip(EncodeUtf8(overlay));
      Utf8RoundTrip(overlay);
      SplicesAgree(original, overlay);
      NamesDiffer();
    }
  }

  lemma NamesDiffer()
    ensures forall arm :: ArmNamed(Some(ArmName(arm))) == Some(arm)
  {
    assert "historical"[0] != "fixed"[0];
  }

  ghost predicate Pinned(h: Hash, arm: Arm, file: Text, overlay: Text) {
    h(file) == PinOf(arm).original && h(overlay) == PinOf(arm).overlay
  }

  /** The artifact holds these pinned bytes and reports the digest of their splice. */
  ghost predicate SplicedFrom(h: Hash, v: Artifact, arm: Arm, file: Text, overlay: Text) {
    && ArmNamed(v.arm) == Some(arm) && Pinned(h, arm, file, overlay)
    && HexBytes(v.originalHex) == Some(file) && HexBytes(v.overlayHex) == Some(overlay)
    && Splice(file, overlay).Some? && v.resultDigest == Some(h(Splice(file, overlay).value))
  }

  /** An accepted artifact's result digest is that of a pinned overlay spliced into a pinned file. */
  lemma AcceptedIsSpliced(h: Hash, v: Artifact)
    ensures Validate(h, v) ==> exists arm, file, overlay :: SplicedFrom(h, v, arm, file, overlay)
  {
    hide EncodeUtf8, FromHex, Splice, SpliceChars, PinOf;
    if !Validate(h, v) { return; }
    var arm, original, overlay := ArmNamed(v.arm).value, DecodeHex(v.originalHex).value, DecodeHex(v.overlayHex).value;
    SplicesAgree(original, overlay);
    assert SplicedFrom(h, v, arm, EncodeUtf8(original), EncodeUtf8(overlay));
  }

  ghost predicate CollisionFree(h: Hash) { forall x, y :: h(x) == h(y) ==> x == y }

  /** While digests do not collide, an accepted artifact reports what the controller wrote for that arm. */
  lemma AcceptedIsBuilt(h: Hash, v: Artifact, arm: Arm, file: Text, overlay: string)
    ensures CollisionFree(h) && Validate(h, v) && ArmNamed(v.arm) == Some(arm) && Pinned(h, arm, file, EncodeUtf8(overlay)) ==>
              var built := Materialize(h, arm, PinOf(arm).base, file, overlay);
              && built.Some?
              && v.resultDigest == built.value.artifact.resultDigest == Some(h(built.value.file))
              && HexBytes(v.originalHex) == Some(file)
  {
    hide EncodeUtf8, FromHex, Splice, SpliceChars, PinOf;
    if CollisionFree(h) && Validate(h, v) && ArmNamed(v.arm) == Some(arm) && Pinned(h, arm, file, EncodeUtf8(overlay)) {
      AcceptedIsSpliced(h, v);
      var f, o :| SplicedFrom(h, v, arm, f, o);
      assert f == file && o == EncodeUtf8(overlay);
      assert DecodeUtf8(file).Some?;
    }
  }
}
