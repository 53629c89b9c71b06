/**
  UTF-8: encoding, strict decoding, and the lossy decoding that puts a replacement character
  for every maximal part of an ill-formed sequence.
 */
module Utf8 {
  import opened Options
  import opened Texts

  predicate IsBytes(t: Text) { forall i :: 0 <= i < |t| ==> t[i] < 256 }

  function EncodeChar(c: char): (b: Text)
    ensures 1 <= |b| <= 4 && IsBytes(b)
  {
    var n := c as nat;
    if n < 0x80 then [n]
    else if n < 0x800 then [0xC0 + n / 0x40, 0x80 + n % 0x40]
    else if n < 0x10000 then [0xE0 + n / 0x1000, 0x80 + n / 0x40 % 0x40, 0x80 + n % 0x40]
    else [0xF0 + n / 0x40000, 0x80 + n / 0x1000 % 0x40, 0x80 + n / 0x40 % 0x40, 0x80 + n % 0x40]
  }

  function EncodeUtf8(s: string): Text { if s == "" then [] else EncodeChar(s[0]) + EncodeUtf8(s[1..]) }

  /** A byte without its marker bits; negative when it lacks them. */
  function Low(byte: nat, marker: nat): int { byte - marker }

  /** The code point that the leading bytes spell, whether or not that spelling is allowed. */
  function Spelled(b: Text): int
    requires b != []
  {
    if b[0] < 0x80 || |b| < 2 then b[0]
    else if b[0] < 0xE0 || |b| < 3 then Low(b[0], 0xC0) * 0x40 + Low(b[1], 0x80)
    else if b[0] < 0xF0 || |b| < 4 then (Low(b[0], 0xE0) * 0x40 + Low(b[1], 0x80)) * 0x40 + Low(b[2], 0x80)
    else ((Low(b[0], 0xF0) * 0x40 + Low(b[1], 0x80)) * 0x40 + Low(b[2], 0x80)) * 0x40 + Low(b[3], 0x80)
  }

  predicate IsScalar(n: int) { 0 <= n < 0xD800 || 0xE000 <= n < 0x11_0000 }

  /** The first character, if its shortest encoding is what the bytes start with. */
  function FirstChar(b: Text): (r: Option<char>)
    ensures r.Some? ==> |EncodeChar(r.value)| <= |b| && b[..|EncodeChar(r.value)|] == EncodeChar(r.value)
  {
    if b == [] || !IsScalar(Spelled(b)) then None
    else
      var c := Spelled(b) as char;
      if |EncodeChar(c)| <= |b| && b[..|EncodeChar(c)|] == EncodeChar(c) then Some(c) else None
  }

  lemma EncodesFirst(c: char, rest: string)
    ensures EncodeUtf8([c] + rest) == EncodeChar(c) + EncodeUtf8(rest)
  {
    hide EncodeChar;
    assert ([c] + rest)[1..] == rest;
  }

  lemma EncodesNothing()
    ensures EncodeUtf8("") == []
  {}

  /** Strict decoding. */
  function DecodeUtf8(b: Text): (r: Option<string>)
    ensures r.Some? ==> EncodeUtf8(r.value) == b
  {
    if b == [] then Some("")
    else
      match FirstChar(b)
      case None => None
      case Some(c) =>
        hide EncodeChar, FirstChar, EncodeUtf8;
        EncodesNothing();
        match DecodeUtf8(b[|EncodeChar(c)|..])
        case None => None
        case Some(rest) =>
          EncodesFirst(c, rest);
          assert b == b[..|EncodeChar(c)|] + b[|EncodeChar(c)|..];
          Some([c] + rest)
  }

  lemma SpelledChar(c: char, rest: Text)
    ensures Spelled(EncodeChar(c) + rest) == c as int
  {
    var n := c as int;
    assert n % 0x40 == n - n / 0x40 * 0x40;
    assert n / 0x40 / 0x40 == n / 0x1000 && n / 0x1000 / 0x40 == n / 0x40000;
    assert n / 0x40 % 0x40 == n / 0x40 - n / 0x1000 * 0x40;
    assert n / 0x1000 % 0x40 == n / 0x1000 - n / 0x40000 * 0x40;
  }

  lemma {:induction false} Utf8RoundTrip(s: string)
    ensures DecodeUtf8(EncodeUtf8(s)) == Some(s)
  {
    if s != "" {
      var c, rest := s[0], EncodeUtf8(s[1..]);
      SpelledChar(c, rest);
      var b := EncodeUtf8(s);
      assert b == EncodeChar(c) + rest && b[..|EncodeChar(c)|] == EncodeChar(c) && b[|EncodeChar(c)|..] == rest;
      Utf8RoundTrip(s[1..]);
      assert [c] + s[1..] == s;
      hide EncodeChar, Spelled;
    }
  }

  lemma {:induction false} EncodeAppend(a: string, b: string)
    ensures EncodeUtf8(a + b) == EncodeUtf8(a) + EncodeUtf8(b)
  {
    hide EncodeChar;
    if a == "" {
      assert a + b == b;
    } else {
      assert (a + b)[0] == a[0] && (a + b)[1..] == a[1..] + b;
      EncodeAppend(a[1..], b);
    }
  }

  lemma {:induction false} EncodedBytes(s: string)
    ensures IsBytes(EncodeUtf8(s))
  {
    hide EncodeChar;
    if s != "" { EncodedBytes(s[1..]); }
  }

  /** Bytes below 0x80 only come from the characters they name. */
  lemma LowBytes(c: char, k: nat)
    requires k < |EncodeChar(c)| && EncodeChar(c)[k] < 0x80
    ensures k == 0 && |EncodeChar(c)| == 1 && EncodeChar(c) == [c as nat]
  {
  }

  lemma LowChar(c: char)
    requires c as int < 0x80
    ensures EncodeChar(c) == [c as nat]
  {
  }

  lemma {:induction false} AsciiEncodes(s: string)
    requires forall i :: 0 <= i < |s| ==> s[i] as int < 0x80
    ensures EncodeUtf8(s) == Codes(s)
  {
    if s != "" {
      AsciiEncodes(s[1..]);
      assert Codes(s) == [s[0] as nat] + Codes(s[1..]);
    }
  }

  // -------------------------------------------------------------------------- lossy

  predicate Continues(b: Text, i: nat) { i < |b| && 0x80 <= b[i] < 0xC0 }

  /** The second byte that may follow a leading byte of a longer sequence. */
  predicate SecondFits(lead: nat, second: nat) {
    if lead == 0xE0 then 0xA0 <= second < 0xC0
    else if lead == 0xED then 0x80 <= second < 0xA0
    else if lead == 0xF0 then 0x90 <= second < 0xC0
    else if lead == 0xF4 then 0x80 <= second < 0x90
    else 0x80 <= second < 0xC0
  }

  /** How many bytes one replacement character stands for. */
  function BadLength(b: Text): (n: nat)
    requires b != []
    ensures 1 <= n <= 3 && n <= |b|
  {
    if 0xE0 <= b[0] < 0xF5 && |b| > 1 && SecondFits(b[0], b[1]) then
      if b[0] >= 0xF0 && Continues(b, 2) then 3 else 2
    else 1
  }

  const REPLACEMENT: char := '\U{FFFD}'

  /** `from_utf8_lossy`. */
  function Lossy(b: Text): string
    decreases |b|
  {
    if b == [] then ""
    else
      match FirstChar(b)
      case Some(c) => [c] + Lossy(b[|EncodeChar(c)|..])
      case None => [REPLACEMENT] + Lossy(b[BadLength(b)..])
  }

  /** Well-formed bytes lose nothing. */
  lemma {:induction false} LossyKeeps(s: string)
    ensures Lossy(EncodeUtf8(s)) == s
  {
    if s != "" {
      var c, rest := s[0], EncodeUtf8(s[1..]);
      SpelledChar(c, rest);
      var b := EncodeUtf8(s);
      assert b == EncodeChar(c) + rest && b[..|EncodeChar(c)|] == EncodeChar(c) && b[|EncodeChar(c)|..] == rest;
      LossyKeeps(s[1..]);
      assert [c] + s[1..] == s;
      hide EncodeChar, Spelled;
    }
  }

  lemma LossyFirst(c: char, rest: Text)
    ensures Lossy(EncodeChar(c) + rest) == [c] + Lossy(rest)
  {
    SpelledChar(c, rest);
    var b := EncodeChar(c) + rest;
    assert b[..|EncodeChar(c)|] == EncodeChar(c) && b[|EncodeChar(c)|..] == rest;
    hide EncodeChar, Spelled;
  }

  lemma CodesFirst(s: string)
    ensures Codes(s) == if s == "" then [] else [s[0] as nat] + Codes(s[1..])
  {}

  lemma {:induction false} LossyAscii(s: string, rest: Text)
    requires forall i :: 0 <= i < |s| ==> s[i] as int < 0x80
    ensures Lossy(Codes(s) + rest) == s + Lossy(rest)
  {
    hide EncodeChar, Lossy, Codes;
    CodesFirst(s);
    if s == "" {
      assert [] + rest == rest && "" + Lossy(rest) == Lossy(rest);
    } else {
      LowChar(s[0]);
      var more := Codes(s[1..]) + rest;
      assert Codes(s) + rest == [s[0] as nat] + more;
      LossyFirst(s[0], more);
      LossyAscii(s[1..], rest);
      assert [s[0]] + (s[1..] + Lossy(rest)) == s + Lossy(rest);
    }
  }

  /** No character is spelled by a high byte followed by an ASCII byte. */
  lemma LoneIsNoChar(c: char, b: Text)
    requires |b| > 1 && b[0] >= 0x80 && b[1] < 0x80
    ensures !(|EncodeChar(c)| <= |b| && b[..|EncodeChar(c)|] == EncodeChar(c))
  {
    var e := EncodeChar(c);
    assert |e| <= |b| ==> b[..|e|][0] == b[0];
    assert 1 < |e| <= |b| ==> b[..|e|][1] == b[1];
    if |e| > 1 && e[1] < 0x80 { LowBytes(c, 1); }
  }

  /** A byte of a longer sequence, cut off by an ASCII byte, becomes a replacement character. */
  lemma LossyLone(byte: nat, rest: Text)
    requires 0x80 <= byte < 256 && rest != [] && rest[0] < 0x80
    ensures Lossy([byte] + rest) == [REPLACEMENT] + Lossy(rest)
  {
    var b := [byte] + rest;
    assert b[1..] == rest;
    if IsScalar(Spelled(b)) { LoneIsNoChar(Spelled(b) as char, b); }
    hide EncodeChar, Spelled;
  }

  // --------------------------------------------------------------- characters cut short

  /** Encodings that start alike are of the same character. */
  lemma SameStart(c: char, x: char, r: Text, t: Text)
    ensures EncodeChar(c) + r == EncodeChar(x) + t ==> c == x && r == t
  {
    SpelledChar(c, r);
    SpelledChar(x, t);
    hide EncodeChar, Spelled;
    if EncodeChar(c) + r == EncodeChar(x) + t {
      assert c == x;
      assert r == (EncodeChar(c) + r)[|EncodeChar(c)|..] && t == (EncodeChar(x) + t)[|EncodeChar(x)|..];
    }
  }

  /** No character's encoding is a proper part of another's. */
  lemma NoShorter(c: char, x: char)
    ensures |EncodeChar(c)| < |EncodeChar(x)| ==> EncodeChar(x)[..|EncodeChar(c)|] != EncodeChar(c)
  {
    hide EncodeChar;
    var e, f := EncodeChar(c), EncodeChar(x);
    if |e| < |f| {
      SameStart(c, x, f[|e|..], []);
      assert f == f[..|e|] + f[|e|..] && f + [] == f;
    }
  }

  /** The first bytes of a longer character, followed by an ASCII byte, spell no character. */
  lemma PartIsNoChar(c: char, x: char, k: nat, rest: Text)
    requires 1 <= k < |EncodeChar(x)| && rest != [] && rest[0] < 0x80
    ensures var b := EncodeChar(x)[..k] + rest;
            !(|EncodeChar(c)| <= |b| && b[..|EncodeChar(c)|] == EncodeChar(c))
  {
    hide EncodeChar;
    var e, f := EncodeChar(c), EncodeChar(x);
    var b := f[..k] + rest;
    NoShorter(c, x);
    if |e| <= k {
      assert b[..|e|] == f[..|e|];
    } else if |e| <= |b| {
      assert b[..|e|][k] == rest[0];
      if e[k] < 0x80 { LowBytes(c, k); }
    }
  }

  /** Which second bytes a character of three or four bytes has. */
  lemma SecondOf(x: char)
    requires |EncodeChar(x)| >= 3
    ensures var e := EncodeChar(x);
            && 0xE0 <= e[0] < 0xF5 && (e[0] >= 0xF0 <==> |e| == 4)
            && SecondFits(e[0], e[1]) && 0x80 <= e[2] < 0xC0
  {
    var n := x as int;
    assert n < 0xD800 || 0xE000 <= n < 0x11_0000;
    if n < 0x10000 {
      assert n / 0x40 == 0x40 * (n / 0x1000) + n / 0x40 % 0x40;
    } else {
      assert n / 0x1000 == 0x40 * (n / 0x40000) + n / 0x1000 % 0x40;
    }
  }

  lemma PartLength(x: char, k: nat, rest: Text)
    requires 1 <= k < |EncodeChar(x)| && rest != [] && rest[0] < 0x80
    ensures BadLength(EncodeChar(x)[..k] + rest) == k
  {
    var e := EncodeChar(x);
    var b := e[..k] + rest;
    if |e| >= 3 { SecondOf(x); }
    hide EncodeChar;
    assert b[0] == e[0] && b[k] == rest[0];
    if |e| == 2 {
      TwoByteLead(x);
    } else {
      assert k > 1 ==> b[1] == e[1];
      assert k > 2 ==> b[2] == e[2];
    }
  }

  lemma TwoByteLead(x: char)
    requires |EncodeChar(x)| == 2
    ensures EncodeChar(x)[0] < 0xE0
  {}

  /** A character cut short by an ASCII byte is read as one replacement character. */
  lemma LossyPart(x: char, k: nat, rest: Text)
    requires 1 <= k < |EncodeChar(x)| && rest != [] && rest[0] < 0x80
    ensures Lossy(EncodeChar(x)[..k] + rest) == [REPLACEMENT] + Lossy(rest)
  {
    var b := EncodeChar(x)[..k] + rest;
    PartLength(x, k, rest);
    if IsScalar(Spelled(b)) { PartIsNoChar(Spelled(b) as char, x, k, rest); }
    hide EncodeChar, Spelled, BadLength;
    assert b[k..] == rest;
  }

  /** Lossy reading of a text and then more bytes. */
  lemma {:induction false} LossyText(s: string, rest: Text)
    ensures Lossy(EncodeUtf8(s) + rest) == s + Lossy(rest)
  {
    hide EncodeChar, Lossy;
    if s == "" {
      assert [] + rest == rest && "" + Lossy(rest) == Lossy(rest);
    } else {
      var more := EncodeUtf8(s[1..]) + rest;
      assert EncodeUtf8(s) + rest == EncodeChar(s[0]) + more;
      LossyFirst(s[0], more);
      LossyText(s[1..], rest);
      assert [s[0]] + (s[1..] + Lossy(rest)) == s + Lossy(rest);
    }
  }

  /** What an encoded text starts with, the text starts with. */
  lemma {:induction false} EncodedStart(t: string, a: string, r: Text)
    requires EncodeUtf8(t) == EncodeUtf8(a) + r
    ensures |a| <= |t| && t[..|a|] == a && r == EncodeUtf8(t[|a|..])
  {
    hide EncodeChar;
    if a == "" {
      assert [] + r == r && t[0..] == t;
    } else {
      assert EncodeUtf8(a) + r == EncodeChar(a[0]) + (EncodeUtf8(a[1..]) + r);
      EncodesNothing();
      assert t != "";
      SameStart(t[0], a[0], EncodeUtf8(t[1..]), EncodeUtf8(a[1..]) + r);
      EncodedStart(t[1..], a[1..], r);
      assert t[..|a|] == [t[0]] + t[1..][..|a| - 1] && a == [a[0]] + a[1..];
      assert t[|a|..] == t[1..][|a| - 1..];
    }
  }

  /** Where the n-th byte of an encoded text falls: between characters, or inside one. */
  lemma {:induction false} ByteFalls(s: string, n: nat) returns (j: nat, k: nat)
    requires n <= |EncodeUtf8(s)|
    ensures j <= |s| && (k == 0 || (j < |s| && k < |EncodeChar(s[j])|))
    ensures EncodeUtf8(s)[..n] == EncodeUtf8(s[..j]) + (if k == 0 then [] else EncodeChar(s[j])[..k])
  {
    hide EncodeChar;
    if n == 0 {
      j, k := 0, 0;
      assert s[..0] == "";
    } else if n < |EncodeChar(s[0])| {
      j, k := 0, n;
      assert s[..0] == "" && EncodeUtf8(s)[..n] == EncodeChar(s[0])[..n];
    } else {
      var first := |EncodeChar(s[0])|;
      j, k := ByteFalls(s[1..], n - first);
      assert EncodeUtf8(s)[..n] == EncodeChar(s[0]) + EncodeUtf8(s[1..])[..n - first];
      assert s[..j + 1][1..] == s[1..][..j] && s[..j + 1][0] == s[0];
      j := j + 1;
    }
  }
}
