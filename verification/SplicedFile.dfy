/**
  Overlay grading in terms of the texts: what the spliced file is, what the controller's record
  says, and which records the validator accepts.
 */
module SplicedFile {
  import opened Options
  import opened Texts
  import opened Utf8
  import opened Materializer

  /** The text before its last line that starts with a closing brace. */
  ghost predicate Before(t: string, head: string) {
    && |head| + 2 <= |t| && t[..|head|] == head && t[|head|] == '\n' && t[|head| + 1] == '}'
    && forall j :: |head| < j < |t| - 1 ==> !(t[j] == '\n' && t[j + 1] == '}')
  }

  ghost predicate NoBrace(t: string) { forall j :: 0 <= j < |t| - 1 ==> !(t[j] == '\n' && t[j + 1] == '}') }

  lemma BeforeOnce(t: string, a: string, b: string)
    requires Before(t, a) && Before(t, b)
    ensures a == b
  {
    assert |a| == |b|;
  }

  /** The overlay takes the place of everything from that brace on, and a new brace follows it. */
  lemma SpliceExact(t: string, overlay: string)
    ensures SpliceChars(t, overlay).None? <==> NoBrace(t)
    ensures SpliceChars(t, overlay).Some? ==>
              exists head :: Before(t, head) && SpliceChars(t, overlay).value == head + "\n\n" + overlay + "\n}\n"
    ensures forall head :: Before(t, head) ==> SpliceChars(t, overlay) == Some(head + "\n\n" + overlay + "\n}\n")
  {
    var i := RFind(t, '\n', '}');
    assert forall j :: PairAt(t, '\n', '}', j) <==> 0 <= j < |t| - 1 && t[j] == '\n' && t[j + 1] == '}';
    assert forall head :: Before(t, head) ==> PairAt(t, '\n', '}', |head|);
    if i.Some? {
      var head := t[..i.value];
      assert Before(t, head);
      forall other | Before(t, other) ensures other == head { BeforeOnce(t, other, head); }
    }
  }

  function NameOf(arm: Arm): string { if arm == Historical then "historical" else "fixed" }

  /** What is pinned for an arm: its signal, the base commit, and the digests of file and overlay. */
  function Expected(arm: Arm): Pin {
    if arm == Historical then
      Pin("historical_bug_reproduced", "6bc83a51d83a82fb5ba4e5722db683de830533ca",
          "20bd01c5986aa93a41f6b592c803d8aabd02bb4c9ce00d4b5367bf42842436d1", "af74bc7c8d281c290b9b697bb20e367bd639d8e97988e7d5bab163346f99a6a4")
    else
      Pin("fixed_bound_enforced", "5f70f85a45ce358df135543617c2925dcbaf127f",
          "4f724a7fc2ef1f5bbbaf4eb05495f40a07cf51a914823986aa9d4d4d040c5def", "4015dfb6f8d789716d19c7e654c2f1e80fd5f135cfb4b0bc81270be51a2f6b1a")
  }

  lemma PinsAre(arm: Arm)
    ensures PinOf(arm) == Expected(arm) && ArmName(arm) == NameOf(arm)
    ensures forall name :: ArmNamed(name) == Some(arm) <==> name == Some(NameOf(arm))
  {
    NamesDiffer();
    assert "historical"[0] != "fixed"[0];
  }

  /** The controller's step on a file of text: the file it writes and every field of its record. */
  lemma BuiltExact(h: Hash, arm: Arm, base: string, t: string, overlay: string)
    ensures Materialize(h, arm, base, EncodeUtf8(t), overlay).None? <==> NoBrace(t)
    ensures forall head :: Before(t, head) ==>
              var file := EncodeUtf8(head + "\n\n" + overlay + "\n}\n");
              var built := Materialize(h, arm, base, EncodeUtf8(t), overlay);
              && built.Some? && built.value.file == file
              && var a := built.value.artifact;
              && a.schema == Some("harness.eval.materialization-artifact.v1") && a.targetPath == Some("crates/harness-store/src/queries.rs")
              && a.arm == Some(NameOf(arm)) && a.signal == Some(Expected(arm).signal) && a.base == Some(base)
              && Carries(a, t, overlay)
              && a.overlayDigest == Some(h(EncodeUtf8(overlay))) && a.resultDigest == Some(h(file))
  {
    hide DecodeUtf8, EncodeUtf8, FromHex, ToHex, Splice, SpliceChars, Before, PinOf, Expected, ArmName, NameOf, ArmNamed;
    Utf8RoundTrip(t);
    SplicesAgree(t, overlay);
    SpliceExact(t, overlay);
    EncodedBytes(t);
    EncodedBytes(overlay);
    HexRoundTrip(EncodeUtf8(t));
    HexRoundTrip(EncodeUtf8(overlay));
    PinsAre(arm);
  }

  /** A file that is not text is refused. */
  lemma NotText(h: Hash, arm: Arm, base: string, file: Text, overlay: string)
    ensures Materialize(h, arm, base, file, overlay).Some? ==> exists t :: file == EncodeUtf8(t)
  {
    hide Splice, EncodeUtf8;
    if DecodeUtf8(file).Some? { assert file == EncodeUtf8(DecodeUtf8(file).value); }
  }

  /** The record holds these two texts, in hexadecimal. */
  ghost predicate Carries(v: Artifact, original: string, overlay: string) {
    HexBytes(v.originalHex) == Some(EncodeUtf8(original)) && HexBytes(v.overlayHex) == Some(EncodeUtf8(overlay))
  }

  /** The record names one arm and agrees with everything that is pinned for it. */
  ghost predicate AsPinned(h: Hash, v: Artifact, original: string, overlay: string) {
    exists arm :: && v.arm == Some(NameOf(arm)) && v.signal == Some(Expected(arm).signal) && v.base == Some(Expected(arm).base)
                  && h(EncodeUtf8(original)) == Expected(arm).original && h(EncodeUtf8(overlay)) == Expected(arm).overlay
  }

  /**
    The validator accepts a record exactly when it has the right schema and target, holds two
    texts that are pinned for the arm it names, and reports the digest of the first with the
    second in place of everything from its last closing brace on.
   */
  lemma AcceptedExactly(h: Hash, v: Artifact)
    ensures Validate(h, v) <==>
              && v.schema == Some("harness.eval.materialization-artifact.v1")
              && v.targetPath == Some("crates/harness-store/src/queries.rs")
              && exists original, overlay, head ::
                   && Carries(v, original, overlay) && AsPinned(h, v, original, overlay) && Before(original, head)
                   && v.resultDigest == Some(h(EncodeUtf8(head + "\n\n" + overlay + "\n}\n")))
  {
    if Validate(h, v) {
      var original, overlay := DecodeHex(v.originalHex).value, DecodeHex(v.overlayHex).value;
      SpliceExact(original, overlay);
      PinsApply(h, v, original, overlay);
      CarriesDecoded(v, original, overlay);
      hide EncodeUtf8, DecodeUtf8, FromHex, SpliceChars, Before, AsPinned, PinOf, ArmNamed;
    }
    if original, overlay, head :| Carries(v, original, overlay) && AsPinned(h, v, original, overlay) && Before(original, head)
                                  && v.resultDigest == Some(h(EncodeUtf8(head + "\n\n" + overlay + "\n}\n"))) {
      SpliceExact(original, overlay);
      PinsApply(h, v, original, overlay);
      CarriesDecoded(v, original, overlay);
      hide EncodeUtf8, DecodeUtf8, FromHex, SpliceChars, Before, AsPinned, PinOf, ArmNamed;
    }
  }

  lemma PinsApply(h: Hash, v: Artifact, original: string, overlay: string)
    ensures AsPinned(h, v, original, overlay) <==>
              && ArmNamed(v.arm).Some?
              && var pin := PinOf(ArmNamed(v.arm).value);
                 v.signal == Some(pin.signal) && v.base == Some(pin.base) && h(EncodeUtf8(original)) == pin.original && h(EncodeUtf8(overlay)) == pin.overlay
  {
    hide EncodeUtf8, PinOf, Expected, NameOf, ArmNamed;
    PinsAre(Historical);
    PinsAre(Fixed);
    if ArmNamed(v.arm).Some? {
      var arm := ArmNamed(v.arm).value;
      PinsAre(arm);
      assert v.arm == Some(NameOf(arm));
    }
    if arm :| && v.arm == Some(NameOf(arm)) && v.signal == Some(Expected(arm).signal) && v.base == Some(Expected(arm).base)
              && h(EncodeUtf8(original)) == Expected(arm).original && h(EncodeUtf8(overlay)) == Expected(arm).overlay {
      PinsAre(arm);
    }
  }

  lemma CarriesDecoded(v: Artifact, original: string, overlay: string)
    ensures Carries(v, original, overlay) <==> DecodeHex(v.originalHex) == Some(original) && DecodeHex(v.overlayHex) == Some(overlay)
  {
    hide FromHex, EncodeUtf8;
    Utf8RoundTrip(original);
    Utf8RoundTrip(overlay);
  }

  // ------------------------------------------------------------------- hexadecimal text

  /** Blank, tabulator, line feed, vertical tabulator, form feed and carriage return. */
  predicate Blank(c: char) { c in {' ', '\U{0009}', '\U{000A}', '\U{000B}', '\U{000C}', '\U{000D}'} }

  predicate AllBlank(s: string) { forall i :: 0 <= i < |s| ==> Blank(s[i]) }

  function LowerOf(c: char): char { if 'A' <= c <= 'F' then c - 'A' + 'a' else c }

  /** The digits of a hexadecimal text, in lower case and without what is between them. */
  function Bare(s: string): string {
    if s == "" then "" else (if Blank(s[0]) then "" else [LowerOf(s[0])]) + Bare(s[1..])
  }

  lemma DigitExact(c: char)
    ensures HexSpace(c) <==> Blank(c)
    ensures HexDigit(c).Some? ==> !Blank(c) && HexChar(HexDigit(c).value) == LowerOf(c)
    ensures HexDigit(c).Some? <==> '0' <= c <= '9' || 'a' <= c <= 'f' || 'A' <= c <= 'F'
  {}

  /** Whatever is read as bytes is their hexadecimal form, in either case, with blanks only between the pairs. */
  lemma {:induction false} HexReadsOnly(s: string)
    ensures FromHex(s).Some? ==> IsBytes(FromHex(s).value) && Bare(s) == ToHex(FromHex(s).value)
  {
    hide HexDigit, HexSpace, HexChar, LowerOf, Blank;
    if s != "" {
      DigitExact(s[0]);
      if HexSpace(s[0]) {
        HexReadsOnly(s[1..]);
      } else if |s| >= 2 {
        DigitExact(s[1]);
        HexReadsOnly(s[2..]);
        assert s[1..][1..] == s[2..];
        if FromHex(s).Some? {
          var b := FromHex(s).value;
          assert b[1..] == FromHex(s[2..]).value;
          assert b[0] / 16 == HexDigit(s[0]).value && b[0] % 16 == HexDigit(s[1]).value;
          assert Bare(s) == [LowerOf(s[0])] + ([LowerOf(s[1])] + Bare(s[2..]));
        }
      }
    }
  }

  lemma HexBlank(s: string)
    ensures s == "" ==> FromHex(s) == Some([])
    ensures s != "" && HexSpace(s[0]) ==> FromHex(s) == FromHex(s[1..])
  {
    hide HexDigit, HexSpace;
  }

  lemma HexPair(s: string)
    requires |s| >= 2 && !HexSpace(s[0])
    ensures FromHex(s).Some? <==> HexDigit(s[0]).Some? && HexDigit(s[1]).Some? && FromHex(s[2..]).Some?
    ensures FromHex(s).Some? ==> FromHex(s).value == [16 * HexDigit(s[0]).value + HexDigit(s[1]).value] + FromHex(s[2..]).value
  {
    hide HexDigit, HexSpace;
    var high, low, rest := HexDigit(s[0]), HexDigit(s[1]), FromHex(s[2..]);
    assert FromHex(s) == match (high, low, rest) case (Some(h), Some(l), Some(r)) => Some([16 * h + l] + r) case _ => None;
    hide FromHex;
  }

  lemma HexLong(s: string)
    requires s != "" && !HexSpace(s[0]) && FromHex(s).Some?
    ensures |s| >= 2
  {
    hide HexDigit, HexSpace;
  }

  /** Blanks may stand between two texts that can be read. */
  lemma {:induction false} HexReadsApart(a: string, blanks: string, b: string)
    requires FromHex(a).Some? && FromHex(b).Some? && AllBlank(blanks)
    ensures FromHex(a + blanks + b) == Some(FromHex(a).value + FromHex(b).value)
    decreases |a| + |blanks|
  {
    hide HexDigit, HexSpace, Blank, FromHex;
    var s := a + blanks + b;
    HexBlank(a);
    HexBlank(s);
    if a == "" {
      var none: Text := [];
      assert none + FromHex(b).value == FromHex(b).value;
      if blanks == "" {
        assert s == b;
      } else {
        DigitExact(blanks[0]);
        assert s[0] == blanks[0] && s[1..] == "" + blanks[1..] + b;
        HexReadsApart("", blanks[1..], b);
      }
    } else if HexSpace(a[0]) {
      assert s[0] == a[0] && s[1..] == a[1..] + blanks + b;
      HexReadsApart(a[1..], blanks, b);
    } else {
      HexLong(a);
      HexPair(a);
      assert s[0] == a[0] && s[1] == a[1] && s[2..] == a[2..] + blanks + b;
      HexPair(s);
      HexReadsApart(a[2..], blanks, b);
      var n, x, y := 16 * HexDigit(a[0]).value + HexDigit(a[1]).value, FromHex(a[2..]).value, FromHex(b).value;
      assert [n] + (x + y) == [n] + x + y;
    }
  }
}
