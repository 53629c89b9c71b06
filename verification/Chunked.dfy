/**
  The notifier's chunked-transfer decoder, over text whose sizes count UTF-8 bytes.
 */
module Chunked {
  import opened Options
  import opened Texts
  import opened Utf8

  /** A decoder that slices inside a character panics. */
  datatype Decoded = Done(text: string) | Panics

  function Width(c: char): (w: nat)
    ensures w > 0
  {
    if c as int < 0x80 then 1 else if c as int < 0x800 then 2 else if c as int < 0x10000 then 3 else 4
  }

  /** `str::len`: bytes, not characters. */
  function ByteLen(s: string): (n: nat)
    ensures n >= |s|
  {
    if s == "" then 0 else Width(s[0]) + ByteLen(s[1..])
  }

  /** How many characters make up the first `n` bytes, if a character ends there. */
  function Cut(s: string, n: nat): (k: Option<nat>)
    ensures k.Some? ==> k.value <= |s| && ByteLen(s[..k.value]) == n
  {
    if n == 0 then Some(0)
    else if s == "" || Width(s[0]) > n then None
    else
      match Cut(s[1..], n - Width(s[0]))
      case None => None
      case Some(k) =>
        assert s[..k + 1][1..] == s[1..][..k];
        Some(k + 1)
  }

  const BREAK := "\r\n"

  predicate BreakAt(s: string, i: int) { 0 <= i < |s| - 1 && s[i] == '\r' && s[i + 1] == '\n' }

  /** `split_once`: the text before and after the first line break. */
  function FirstBreak(s: string): (i: Option<nat>)
    ensures i.Some? ==> BreakAt(s, i.value) && forall j :: 0 <= j < i.value ==> !BreakAt(s, j)
    ensures i.None? ==> forall j :: !BreakAt(s, j)
  {
    if |s| < 2 then None
    else if BreakAt(s, 0) then Some(0)
    else
      assert forall j :: 1 <= j ==> (BreakAt(s, j) <==> BreakAt(s[1..], j - 1));
      match FirstBreak(s[1..]) case None => None case Some(i) => Some(i + 1)
  }

  function TrimBreaks(s: string): (r: string)
    ensures |r| <= |s| && !BreakAt(r, 0)
  {
    if BreakAt(s, 0) then TrimBreaks(s[2..]) else s
  }

  predicate Space(c: char) {
    var n := c as int;
    9 <= n <= 13 || n == 32 || n == 0x85 || n == 0xA0 || n == 0x1680 || 0x2000 <= n <= 0x200A
    || n == 0x2028 || n == 0x2029 || n == 0x202F || n == 0x205F || n == 0x3000
  }

  function TrimStart(s: string): string { if s != "" && Space(s[0]) then TrimStart(s[1..]) else s }

  function TrimEnd(s: string): string { if s != "" && Space(s[|s| - 1]) then TrimEnd(s[..|s| - 1]) else s }

  function HexValue(s: string): Option<nat> {
    if s == "" then Some(0)
    else
      match (HexValue(s[..|s| - 1]), HexDigit(s[|s| - 1]))
      case (Some(high), Some(low)) => Some(16 * high + low)
      case _ => None
  }

  const USIZE: nat := 0x1_0000_0000_0000_0000

  /** `usize::from_str_radix(line.trim(), 16)`: an optional plus sign, digits, no overflow. */
  function SizeOf(line: string): Option<nat> {
    var t := TrimEnd(TrimStart(line));
    var digits := if t != "" && t[0] == '+' then t[1..] else t;
    var value := HexValue(digits);
    if digits == "" || value.None? || value.value >= USIZE then None else value
  }

  function Prepend(a: string, d: Decoded): Decoded { match d case Panics => Panics case Done(t) => Done(a + t) }

  /** One look at what remains: the end, a panic, or a chunk and what remains after it. */
  datatype Next = Stop(text: string) | Split | Take(data: string, rest: string)

  function NextOf(s: string): (n: Next)
    ensures n.Take? ==> |n.rest| < |s| && !BreakAt(n.rest, 0)
  {
    match FirstBreak(s)
    case None => Stop(s)
    case Some(i) =>
      var size, rest := SizeOf(s[..i]), s[i + 2..];
      if size.None? then Stop(s)
      else if size.value == 0 then Stop("")
      else if ByteLen(rest) < size.value then Stop(rest)
      else
        match Cut(rest, size.value)
        case None => Split
        case Some(k) => Take(rest[..k], TrimBreaks(rest[k..]))
  }

  function Decode(body: string): Decoded
    decreases |body|
  {
    if body == "" then Done("")
    else
      match NextOf(body)
      case Stop(text) => Done(text)
      case Split => Panics
      case Take(data, rest) => Prepend(data, Decode(rest))
  }

  /** The decoder's loop: it reads on from what is left and adds to what is out. */
  method DecodeChunked(body: string) returns (r: Decoded)
    ensures r == Decode(body)
  {
    var remaining, out := body, "";
    while remaining != ""
      invariant Decode(body) == Prepend(out, Decode(remaining))
      decreases |remaining|
    {
      var i := FirstBreak(remaining);
      if i.None? { out := out + remaining; return Done(out); }
      var size, rest := SizeOf(remaining[..i.value]), remaining[i.value + 2..];
      if size.None? { out := out + remaining; return Done(out); }
      if size.value == 0 { return Done(out); }
      if ByteLen(rest) < size.value { out := out + rest; return Done(out); }
      var k := Cut(rest, size.value);
      if k.None? { return Panics; }
      ghost var before := out;
      out := out + rest[..k.value];
      remaining := TrimBreaks(rest[k.value..]);
      PrependTwice(before, rest[..k.value], Decode(remaining));
    }
    return Done(out);
  }

  lemma PrependTwice(a: string, b: string, d: Decoded)
    ensures Prepend(a, Prepend(b, d)) == Prepend(a + b, d)
  {
    if d.Done? { assert a + (b + d.text) == a + b + d.text; }
  }

  // -------------------------------------------------------------------- the frames

  /** One chunk as sent: a size line, the data, and the line breaks after it. */
  datatype Frame = Frame(head: string, data: string, breaks: nat)

  ghost predicate BreakFree(s: string) { forall i :: !BreakAt(s, i) }

  ghost predicate ValidFrame(f: Frame) {
    BreakFree(f.head) && f.data != "" && SizeOf(f.head) == Some(ByteLen(f.data))
  }

  function Breaks(n: nat): string { if n == 0 then "" else BREAK + Breaks(n - 1) }

  function FrameText(f: Frame): string { f.head + BREAK + f.data + Breaks(f.breaks) }

  function FramesText(frames: seq<Frame>): string {
    if frames == [] then "" else FrameText(frames[0]) + FramesText(frames[1..])
  }

  function Data(frames: seq<Frame>): string {
    if frames == [] then "" else frames[0].data + Data(frames[1..])
  }

  lemma {:induction false} ByteLenAppend(a: string, b: string)
    ensures ByteLen(a + b) == ByteLen(a) + ByteLen(b)
  {
    if a == "" {
      assert a + b == b;
    } else {
      assert (a + b)[1..] == a[1..] + b;
      ByteLenAppend(a[1..], b);
    }
  }

  lemma {:induction false} CutAtEnd(a: string, b: string)
    ensures Cut(a + b, ByteLen(a)) == Some(|a|)
  {
    if a != "" {
      assert (a + b)[1..] == a[1..] + b;
      CutAtEnd(a[1..], b);
    }
  }

  lemma {:induction false} TrimAll(n: nat, tail: string)
    requires !BreakAt(tail, 0)
    ensures TrimBreaks(Breaks(n) + tail) == tail
  {
    var s := Breaks(n) + tail;
    if n == 0 {
      assert s == tail;
    } else {
      assert s == BREAK + (Breaks(n - 1) + tail);
      assert s[2..] == Breaks(n - 1) + tail;
      TrimAll(n - 1, tail);
    }
  }

  /** A line without breaks is what comes before the first break after it. */
  lemma HeadIsFirstLine(head: string, rest: string)
    requires BreakFree(head)
    ensures FirstBreak(head + BREAK + rest) == Some(|head|)
  {
    var s := head + BREAK + rest;
    assert BreakAt(s, |head|);
    forall j | 0 <= j < |head| ensures !BreakAt(s, j) {
      if j < |head| - 1 {
        assert !BreakAt(head, j);
      }
    }
  }

  lemma NextFrame(f: Frame, tail: string)
    requires ValidFrame(f) && !BreakAt(tail, 0)
    ensures NextOf(FrameText(f) + tail) == Take(f.data, tail)
  {
    hide SizeOf, ByteLen, Cut, TrimBreaks, Breaks, FirstBreak;
    var after := Breaks(f.breaks) + tail;
    var rest := f.data + after;
    var s := FrameText(f) + tail;
    assert s == f.head + BREAK + rest;
    HeadIsFirstLine(f.head, rest);
    assert s[..|f.head|] == f.head && s[|f.head| + 2..] == rest;
    ByteLenAppend(f.data, after);
    CutAtEnd(f.data, after);
    TrimAll(f.breaks, tail);
    assert rest[..|f.data|] == f.data && rest[|f.data|..] == after;
  }

  /** Decoding takes a frame off and goes on after it. */
  lemma DecodeFrame(f: Frame, tail: string)
    requires ValidFrame(f) && !BreakAt(tail, 0)
    ensures Decode(FrameText(f) + tail) == Prepend(f.data, Decode(tail))
  {
    NextFrame(f, tail);
    hide NextOf;
  }

  /** What the decoder takes off is a frame. */
  lemma TakenFrame(s: string) returns (f: Frame)
    requires NextOf(s).Take?
    ensures ValidFrame(f) && f.data == NextOf(s).data && s == FrameText(f) + NextOf(s).rest
  {
    hide SizeOf, ByteLen, Cut, TrimBreaks, Breaks, FirstBreak, BreakFree;
    var i := FirstBreak(s).value;
    var rest := s[i + 2..];
    var k := Cut(rest, SizeOf(s[..i]).value).value;
    TrimShort(rest[k..]);
    var n: nat :| rest[k..] == Breaks(n) + TrimBreaks(rest[k..]);
    f := Frame(s[..i], rest[..k], n);
    HeadIsBreakFree(s);
    CutSome(rest, SizeOf(s[..i]).value);
    Reassembled(s, i, k, Breaks(n), TrimBreaks(rest[k..]));
  }

  lemma HeadIsBreakFree(s: string)
    requires FirstBreak(s).Some?
    ensures BreakFree(s[..FirstBreak(s).value])
  {
    var head := s[..FirstBreak(s).value];
    hide FirstBreak;
    forall j ensures !BreakAt(head, j) {
      assert BreakAt(head, j) ==> BreakAt(s, j);
    }
  }

  lemma Reassembled(s: string, i: nat, k: nat, breaks: string, tail: string)
    requires BreakAt(s, i) && k <= |s[i + 2..]| && s[i + 2..][k..] == breaks + tail
    ensures s == s[..i] + BREAK + s[i + 2..][..k] + breaks + tail
  {
    var rest := s[i + 2..];
    assert rest == rest[..k] + (breaks + tail);
    assert s == s[..i] + BREAK + rest;
  }

  lemma CutSome(s: string, n: nat)
    ensures n > 0 && Cut(s, n).Some? ==> Cut(s, n).value > 0
  {
  }

  lemma FrameStart(f: Frame, tail: string)
    requires ValidFrame(f)
    ensures !BreakAt(FrameText(f) + tail, 0)
  {
    var s := FrameText(f) + tail;
    assert f.head != "" by { assert SizeOf("").None?; }
    assert s[0] == f.head[0];
    if |f.head| >= 2 { assert s[1] == f.head[1] && !BreakAt(f.head, 0); } else { assert s[1] == '\r'; }
  }

  lemma {:induction false} FramesStart(frames: seq<Frame>, tail: string)
    requires (forall f :: f in frames ==> ValidFrame(f)) && !BreakAt(tail, 0)
    ensures !BreakAt(FramesText(frames) + tail, 0)
  {
    if frames == [] {
      assert FramesText(frames) + tail == tail;
    } else {
      FrameStart(frames[0], FramesText(frames[1..]) + tail);
      assert FramesText(frames) + tail == FrameText(frames[0]) + (FramesText(frames[1..]) + tail);
    }
  }

  /** Decoding takes off any number of frames. */
  lemma {:induction false} DecodeFrames(frames: seq<Frame>, tail: string)
    requires (forall f :: f in frames ==> ValidFrame(f)) && !BreakAt(tail, 0)
    ensures Decode(FramesText(frames) + tail) == Prepend(Data(frames), Decode(tail))
  {
    hide Decode, ValidFrame, FrameText;
    if frames == [] {
      assert FramesText(frames) + tail == tail;
      assert Decode(tail).Done? ==> "" + Decode(tail).text == Decode(tail).text;
    } else {
      var rest := FramesText(frames[1..]) + tail;
      assert FramesText(frames) + tail == FrameText(frames[0]) + rest;
      FramesStart(frames[1..], tail);
      DecodeFrame(frames[0], rest);
      DecodeFrames(frames[1..], tail);
      PrependTwice(frames[0].data, Data(frames[1..]), Decode(tail));
    }
  }

  // ---------------------------------------------------------------- the round trip

  predicate Plain(c: char) { '0' <= c <= '9' || 'a' <= c <= 'f' }

  function HexText(n: nat): (t: string)
    ensures t != "" && forall i :: 0 <= i < |t| ==> Plain(t[i])
  {
    if n < 16 then [HexChar(n)] else HexText(n / 16) + [HexChar(n % 16)]
  }

  lemma {:induction false} HexReads(n: nat)
    ensures HexValue(HexText(n)) == Some(n)
  {
    hide HexDigit, HexChar;
    var t := HexText(n);
    if n < 16 {
      assert t[..|t| - 1] == "";
    } else {
      assert t[..|t| - 1] == HexText(n / 16);
      HexReads(n / 16);
    }
  }

  lemma SizeReads(n: nat)
    requires n < USIZE
    ensures SizeOf(HexText(n)) == Some(n) && BreakFree(HexText(n))
  {
    hide HexText, HexValue;
    var t := HexText(n);
    HexReads(n);
    assert Plain(t[0]) && Plain(t[|t| - 1]);
    assert forall i :: 0 <= i < |t| ==> t[i] != '\r';
  }

  /** The chunked transfer coding of some chunks, without extensions or trailers. */
  function Encode(chunks: seq<string>): string {
    if chunks == [] then LAST
    else HexText(ByteLen(chunks[0])) + BREAK + chunks[0] + BREAK + Encode(chunks[1..])
  }

  function AsFrames(chunks: seq<string>): seq<Frame> {
    seq(|chunks|, i requires 0 <= i < |chunks| => Frame(HexText(ByteLen(chunks[i])), chunks[i], 1))
  }

  function Concat(chunks: seq<string>): string {
    if chunks == [] then "" else chunks[0] + Concat(chunks[1..])
  }

  lemma {:induction false} EncodeIsFrames(chunks: seq<string>)
    ensures Encode(chunks) == FramesText(AsFrames(chunks)) + LAST
    ensures Data(AsFrames(chunks)) == Concat(chunks)
  {
    if chunks != [] {
      EncodeIsFrames(chunks[1..]);
      var frames := AsFrames(chunks);
      assert frames[1..] == AsFrames(chunks[1..]);
      assert Breaks(1) == BREAK + Breaks(0) == BREAK;
      assert FrameText(frames[0]) == HexText(ByteLen(chunks[0])) + BREAK + chunks[0] + BREAK;
    }
  }

  const LAST := "0" + BREAK + BREAK

  lemma LastChunk()
    ensures Decode(LAST) == Done("") && !BreakAt(LAST, 0)
  {
    assert LAST[..1] == "0" && FirstBreak(LAST) == Some(1) by { assert BreakAt(LAST, 1) && !BreakAt(LAST, 0); }
    assert HexText(0) == "0";
    SizeReads(0);
  }

  lemma FramesValid(chunks: seq<string>, f: Frame)
    requires f in AsFrames(chunks)
    requires forall c :: c in chunks ==> c != "" && ByteLen(c) < USIZE
    ensures ValidFrame(f)
  {
    hide ByteLen, SizeOf, HexText, BreakFree;
    var i :| 0 <= i < |chunks| && AsFrames(chunks)[i] == f;
    assert chunks[i] in chunks;
    SizeReads(ByteLen(chunks[i]));
  }

  /** Decoding undoes encoding, for chunks of any whole characters. */
  lemma RoundTrip(chunks: seq<string>)
    requires forall c :: c in chunks ==> c != "" && ByteLen(c) < USIZE
    ensures Decode(Encode(chunks)) == Done(Concat(chunks))
  {
    hide Decode, ByteLen, ValidFrame, AsFrames, FramesText, Encode;
    LastChunk();
    EncodeIsFrames(chunks);
    forall f | f in AsFrames(chunks) ensures ValidFrame(f) { FramesValid(chunks, f); }
    DecodeFrames(AsFrames(chunks), LAST);
    assert Data(AsFrames(chunks)) + "" == Concat(chunks);
  }

  // ------------------------------------------------------------------ chunks of bytes

  const BREAK_BYTES: Text := [0x0D, 0x0A]
  const LAST_BYTES: Text := Codes(LAST)

  /** The coding as it is on the wire: sizes count bytes, and a chunk may hold any bytes. */
  function EncodeBytes(chunks: seq<Text>): Text {
    if chunks == [] then LAST_BYTES
    else Codes(HexText(|chunks[0]|)) + BREAK_BYTES + chunks[0] + BREAK_BYTES + EncodeBytes(chunks[1..])
  }

  function ConcatBytes(chunks: seq<Text>): Text { if chunks == [] then [] else chunks[0] + ConcatBytes(chunks[1..]) }

  predicate WellFormedChunks(chunks: seq<Text>) { forall i :: 0 <= i < |chunks| ==> DecodeUtf8(chunks[i]).Some? }

  function TextsOf(chunks: seq<Text>): seq<string>
    requires WellFormedChunks(chunks)
  {
    seq(|chunks|, i requires 0 <= i < |chunks| => DecodeUtf8(chunks[i]).value)
  }

  lemma {:induction false} ByteLenIsLength(s: string)
    ensures ByteLen(s) == |EncodeUtf8(s)|
  {
    if s != "" { ByteLenIsLength(s[1..]); }
  }

  lemma BreaksEncode()
    ensures EncodeUtf8(BREAK) == BREAK_BYTES && EncodeUtf8(LAST) == LAST_BYTES
  {
    AsciiEncodes(BREAK);
    AsciiEncodes(LAST);
    assert Codes(BREAK) == [0x0D, 0x0A];
  }

  lemma HexEncodes(n: nat)
    ensures EncodeUtf8(HexText(n)) == Codes(HexText(n))
  {
    hide HexText;
    HexIsAscii(n);
    AsciiEncodes(HexText(n));
  }

  /** Well-formed chunks on the wire are the encoded text of their characters. */
  lemma {:induction false} WireIsText(chunks: seq<Text>)
    requires WellFormedChunks(chunks)
    ensures EncodeUtf8(Encode(TextsOf(chunks))) == EncodeBytes(chunks)
    ensures EncodeUtf8(Concat(TextsOf(chunks))) == ConcatBytes(chunks)
  {
    hide EncodeUtf8, DecodeUtf8, HexText;
    BreaksEncode();
    if chunks == [] {
      EncodesNothing();
    } else {
      WireIsText(chunks[1..]);
      assert TextsOf(chunks)[1..] == TextsOf(chunks[1..]);
      var t, rest := TextsOf(chunks)[0], Encode(TextsOf(chunks[1..]));
      ByteLenIsLength(t);
      HexEncodes(|chunks[0]|);
      OneChunkEncodes(HexText(|chunks[0]|), t, rest);
      EncodeAppend(t, Concat(TextsOf(chunks[1..])));
    }
  }

  lemma OneChunkEncodes(size: string, t: string, rest: string)
    ensures EncodeUtf8(size + BREAK + t + BREAK + rest)
         == EncodeUtf8(size) + EncodeUtf8(BREAK) + EncodeUtf8(t) + EncodeUtf8(BREAK) + EncodeUtf8(rest)
  {
    hide EncodeUtf8;
    EncodeAppend(size + BREAK + t + BREAK, rest);
    EncodeAppend(size + BREAK + t, BREAK);
    EncodeAppend(size + BREAK, t);
    EncodeAppend(size, BREAK);
  }

  /** Through the lossy reading of the response: chunks that are each well-formed come back as their text. */
  lemma BytesRoundTrip(chunks: seq<Text>)
    requires WellFormedChunks(chunks) && forall i :: 0 <= i < |chunks| ==> chunks[i] != [] && |chunks[i]| < USIZE
    ensures Decode(Lossy(EncodeBytes(chunks))) == Done(Lossy(ConcatBytes(chunks)))
  {
    hide Decode, Encode, EncodeBytes, ConcatBytes, Lossy, EncodeUtf8, DecodeUtf8, ByteLen;
    var texts := TextsOf(chunks);
    WireIsText(chunks);
    LossyKeeps(Encode(texts));
    LossyKeeps(Concat(texts));
    forall c | c in texts ensures c != "" && ByteLen(c) < USIZE {
      var i :| 0 <= i < |texts| && texts[i] == c;
      ByteLenIsLength(c);
      EncodesNothing();
    }
    RoundTrip(texts);
  }

  /** The size line and the line breaks of a chunk, read lossily: only the chunk itself can change. */
  lemma LossyChunk(chunks: seq<Text>, data: string)
    requires chunks != []
    requires Lossy(chunks[0] + (BREAK_BYTES + EncodeBytes(chunks[1..]))) == data + Lossy(BREAK_BYTES + EncodeBytes(chunks[1..]))
    ensures Lossy(EncodeBytes(chunks)) == HexText(|chunks[0]|) + BREAK + data + BREAK + Lossy(EncodeBytes(chunks[1..]))
  {
    hide Lossy, HexText, HexChar, Codes;
    var size, c, rest := HexText(|chunks[0]|), chunks[0], EncodeBytes(chunks[1..]);
    HexIsAscii(|chunks[0]|);
    BreakIsBytes();
    var line := c + (BREAK_BYTES + rest);
    RegroupedBytes(Codes(size), BREAK_BYTES, c, BREAK_BYTES, rest);
    assert EncodeBytes(chunks) == Codes(size) + (BREAK_BYTES + line);
    hide EncodeBytes;
    LossyAscii(size, BREAK_BYTES + line);
    LossyAscii(BREAK, line);
    LossyAscii(BREAK, rest);
    Regrouped(size, BREAK, data, BREAK, Lossy(rest));
  }

  lemma BreakIsBytes()
    ensures Codes(BREAK) == BREAK_BYTES && forall i :: 0 <= i < |BREAK| ==> BREAK[i] as int < 0x80
  {}

  lemma Regrouped(a: string, b: string, c: string, d: string, e: string)
    ensures a + (b + (c + (d + e))) == a + b + c + d + e
  {}

  lemma RegroupedBytes(a: Text, b: Text, c: Text, d: Text, e: Text)
    ensures a + (b + (c + (d + e))) == a + b + c + d + e
  {}

  lemma HexIsAscii(n: nat)
    ensures forall i :: 0 <= i < |HexText(n)| ==> HexText(n)[i] as int < 0x80
  {
    hide HexText;
    var t := HexText(n);
    forall i | 0 <= i < |t| ensures t[i] as int < 0x80 { assert Plain(t[i]); }
  }

  /** What follows a chunk never starts with a line break. */
  lemma WireStart(chunks: seq<Text>)
    ensures !BreakAt(Lossy(EncodeBytes(chunks)), 0)
  {
    hide Lossy, HexText;
    if chunks == [] {
      LossyAscii(LAST, []);
      assert LAST_BYTES + [] == LAST_BYTES;
      assert LAST[0] == '0';
    } else {
      var size := HexText(|chunks[0]|);
      var more := BREAK_BYTES + chunks[0] + BREAK_BYTES + EncodeBytes(chunks[1..]);
      assert EncodeBytes(chunks) == Codes(size) + more;
      HexIsAscii(|chunks[0]|);
      LossyAscii(size, more);
      assert Plain(size[0]);
    }
  }

  /** A well-formed chunk comes off as its text. */
  lemma WholeChunk(chunks: seq<Text>)
    requires chunks != [] && chunks[0] != [] && |chunks[0]| < USIZE && DecodeUtf8(chunks[0]).Some?
    ensures Decode(Lossy(EncodeBytes(chunks))) == Prepend(DecodeUtf8(chunks[0]).value, Decode(Lossy(EncodeBytes(chunks[1..]))))
  {
    hide Decode, Lossy, HexText, EncodeBytes, EncodeUtf8, SizeOf, ByteLen, BreakFree;
    var t, rest := DecodeUtf8(chunks[0]).value, Lossy(EncodeBytes(chunks[1..]));
    LossyText(t, BREAK_BYTES + EncodeBytes(chunks[1..]));
    LossyChunk(chunks, t);
    WireStart(chunks[1..]);
    ByteLenIsLength(t);
    EncodesNothing();
    SizeReads(|chunks[0]|);
    var f := Frame(HexText(|chunks[0]|), t, 1);
    OneBreak(f, rest);
    DecodeFrame(f, rest);
  }

  lemma OneBreak(f: Frame, rest: string)
    requires f.breaks == 1
    ensures FrameText(f) + rest == f.head + BREAK + f.data + BREAK + rest
  {
    assert Breaks(1) == BREAK + Breaks(0) == BREAK;
  }

  lemma {:induction false} CutAfter(u: string, rest: string, k: nat)
    ensures Cut(u + rest, ByteLen(u) + k) == match Cut(rest, k) case None => None case Some(j) => Some(|u| + j)
  {
    hide Cut, Width;
    if u == "" {
      assert u + rest == rest;
    } else {
      var s, m := u + rest, ByteLen(u[1..]) + k;
      assert ByteLen(u) + k == Width(u[0]) + m;
      hide ByteLen;
      assert s[0] == u[0] && s[1..] == u[1..] + rest;
      CutAfter(u[1..], rest, k);
      CutStep(s, m);
    }
  }

  lemma CutStep(s: string, m: nat)
    requires s != ""
    ensures Cut(s, Width(s[0]) + m) == match Cut(s[1..], m) case None => None case Some(j) => Some(j + 1)
  {}

  /** Cutting into a replacement character: nowhere inside, but right after it. */
  lemma CutWide(rest: string)
    ensures Cut([REPLACEMENT] + rest, 1) == None && Cut([REPLACEMENT] + rest, 2) == None && Cut([REPLACEMENT] + rest, 3) == Some(1)
    ensures ByteLen([REPLACEMENT] + rest) >= 3
  {
    assert ([REPLACEMENT] + rest)[1..] == rest;
  }

  /**
    A chunk of whole characters `u` and the first k bytes of a longer one `x`: read lossily, its
    size ends k bytes into a replacement character of three bytes.  One or two bytes panic the
    decoder; three are silently read as the replacement character.
   */
  lemma CutShort(chunks: seq<Text>, u: string, x: char, k: nat)
    requires chunks != [] && |chunks[0]| < USIZE && 1 <= k < |EncodeChar(x)|
    requires chunks[0] == EncodeUtf8(u) + EncodeChar(x)[..k]
    ensures k < 3 ==> Decode(Lossy(EncodeBytes(chunks))).Panics?
    ensures k == 3 ==> Decode(Lossy(EncodeBytes(chunks))) == Prepend(u + [REPLACEMENT], Decode(Lossy(EncodeBytes(chunks[1..]))))
  {
    hide Decode, Lossy, HexText, EncodeBytes, EncodeUtf8, EncodeChar, SizeOf, ByteLen, Cut, FirstBreak, TrimBreaks, BreakFree;
    var after := BREAK_BYTES + EncodeBytes(chunks[1..]);
    var z := Lossy(EncodeBytes(chunks[1..]));
    LossyPart(x, k, after);
    assert chunks[0] + after == EncodeUtf8(u) + (EncodeChar(x)[..k] + after);
    LossyText(u, EncodeChar(x)[..k] + after);
    var data := u + [REPLACEMENT];
    assert data + Lossy(after) == u + ([REPLACEMENT] + Lossy(after));
    LossyChunk(chunks, data);
    WireStart(chunks[1..]);
    CutShortNext(HexText(|chunks[0]|), u, k, z, |chunks[0]|);
  }

  lemma CutShortNext(head: string, u: string, k: nat, z: string, size: nat)
    requires 1 <= k <= 3 && !BreakAt(z, 0) && size == |EncodeUtf8(u)| + k && head == HexText(size) && size < USIZE
    ensures var s := head + BREAK + (u + [REPLACEMENT]) + BREAK + z;
            && (k < 3 ==> Decode(s).Panics?)
            && (k == 3 ==> Decode(s) == Prepend(u + [REPLACEMENT], Decode(z)))
  {
    hide Decode, HexText, EncodeUtf8, SizeOf, ByteLen, Cut, FirstBreak, TrimBreaks, BreakFree, NextOf;
    var rest := (u + [REPLACEMENT]) + BREAK + z;
    var s := head + BREAK + (u + [REPLACEMENT]) + BREAK + z;
    assert s == head + BREAK + rest;
    SizeReads(size);
    HeadIsFirstLine(head, rest);
    ByteLenIsLength(u);
    var wide := [REPLACEMENT] + (BREAK + z);
    assert rest == u + wide;
    CutWide(BREAK + z);
    CutAfter(u, wide, k);
    ByteLenAppend(u, wide);
    assert s[..|head|] == head && s[|head| + 2..] == rest;
    if k < 3 {
      assert SplitsCharacter(s);
      SplitIsSplit(s);
      SplitPanics(s);
    } else {
      assert rest[..|u| + 1] == u + [REPLACEMENT] && rest[|u| + 1..] == BREAK + z;
      TrimAll(1, z);
      assert Breaks(1) == BREAK + Breaks(0) == BREAK;
      TakesNext(s, |head|, |u| + 1);
      TakeDecodes(s);
    }
  }

  lemma TakesNext(s: string, i: nat, k: nat)
    requires FirstBreak(s) == Some(i) && SizeOf(s[..i]).Some? && SizeOf(s[..i]).value > 0
    requires SizeOf(s[..i]).value <= ByteLen(s[i + 2..]) && Cut(s[i + 2..], SizeOf(s[..i]).value) == Some(k)
    ensures NextOf(s) == Take(s[i + 2..][..k], TrimBreaks(s[i + 2..][k..]))
  {
    hide SizeOf, ByteLen, Cut, FirstBreak, TrimBreaks;
  }

  lemma TakeDecodes(s: string)
    requires NextOf(s).Take?
    ensures Decode(s) == Prepend(NextOf(s).data, Decode(NextOf(s).rest))
  {
    hide NextOf;
  }

  /** A first chunk that is one byte above ASCII panics the decoder, whatever follows, valid or not. */
  lemma LoneBytePanics(byte: nat, chunks: seq<Text>)
    requires 0x80 <= byte < 256
    ensures Decode(Lossy(EncodeBytes([[byte]] + chunks))).Panics?
  {
    hide Decode, Lossy, HexText, EncodeBytes, EncodeUtf8, SizeOf, ByteLen, Cut, FirstBreak, TrimBreaks, BreakFree;
    var all := [[byte]] + chunks;
    assert all[0] == [byte] && all[1..] == chunks;
    var after := BREAK_BYTES + EncodeBytes(chunks);
    LossyLone(byte, after);
    LossyChunk(all, [REPLACEMENT]);
    WireStart(chunks);
    EncodesNothing();
    assert "" + [REPLACEMENT] == [REPLACEMENT];
    CutShortNext(HexText(1), "", 1, Lossy(EncodeBytes(chunks)), 1);
  }

  /** An ill-formed first chunk of a valid body is cut short inside one of its characters. */
  lemma IllFormedIsCut(c: Text, rest: Text, t: string) returns (j: nat, k: nat)
    requires EncodeUtf8(t) == c + rest && DecodeUtf8(c).None?
    ensures j < |t| && 1 <= k < |EncodeChar(t[j])| && c == EncodeUtf8(t[..j]) + EncodeChar(t[j])[..k]
  {
    hide EncodeChar, EncodeUtf8, DecodeUtf8;
    j, k := ByteFalls(t, |c|);
    assert EncodeUtf8(t)[..|c|] == c;
    if k == 0 {
      assert c == EncodeUtf8(t[..j]);
      Utf8RoundTrip(t[..j]);
    }
  }

  lemma FourByte(x: char)
    ensures 3 < |EncodeChar(x)| ==> x != REPLACEMENT
  {}

  /**
    The exact condition: of a valid body sent in non-empty chunks, the decoder returns the text
    if and only if every chunk is well-formed, that is, no chunk boundary falls inside a character.
   */
  lemma {:induction false} BytesExact(chunks: seq<Text>, t: string)
    requires forall i :: 0 <= i < |chunks| ==> chunks[i] != [] && |chunks[i]| < USIZE
    requires ConcatBytes(chunks) == EncodeUtf8(t)
    ensures Decode(Lossy(EncodeBytes(chunks))) == Done(t) <==> WellFormedChunks(chunks)
  {
    hide Decode, Lossy, EncodeBytes, EncodeUtf8, DecodeUtf8, EncodeChar;
    if chunks == [] {
      EmptyExact(t);
    } else {
      var c, rest := chunks[0], chunks[1..];
      if DecodeUtf8(c).Some? {
        var u := DecodeUtf8(c).value;
        WholeChunk(chunks);
        EncodedStart(t, u, ConcatBytes(rest));
        BytesExact(rest, t[|u|..]);
        assert t == u + t[|u|..];
        PrependSame(u, Decode(Lossy(EncodeBytes(rest))), t[|u|..]);
        WellFormedSplit(chunks);
      } else {
        var j, k := IllFormedIsCut(c, ConcatBytes(rest), t);
        CutShort(chunks, t[..j], t[j], k);
        FourByte(t[j]);
        PrependOther(t[..j] + [REPLACEMENT], Decode(Lossy(EncodeBytes(rest))), t);
        WellFormedSplit(chunks);
      }
    }
  }

  /** The same, for bodies that strict decoding accepts. */
  lemma BytesRoundTripExactly(chunks: seq<Text>)
    requires forall i :: 0 <= i < |chunks| ==> chunks[i] != [] && |chunks[i]| < USIZE
    requires DecodeUtf8(ConcatBytes(chunks)).Some?
    ensures Decode(Lossy(EncodeBytes(chunks))) == Done(DecodeUtf8(ConcatBytes(chunks)).value) <==> WellFormedChunks(chunks)
  {
    hide Decode, Lossy, EncodeBytes, EncodeUtf8, ConcatBytes;
    BytesExact(chunks, DecodeUtf8(ConcatBytes(chunks)).value);
  }

  lemma EmptyExact(t: string)
    requires EncodeUtf8(t) == []
    ensures t == "" && Decode(Lossy(EncodeBytes([]))) == Done("")
  {
    hide Decode, Lossy;
    EncodedStart("", t, []);
    assert EncodeUtf8(t) + [] == EncodeUtf8("");
    LossyAscii(LAST, []);
    assert LAST_BYTES + [] == LAST_BYTES;
    LossyNothing();
    assert LAST + "" == LAST;
    LastChunk();
  }

  lemma LossyNothing()
    ensures Lossy([]) == ""
  {}

  lemma PrependSame(u: string, d: Decoded, t: string)
    ensures Prepend(u, d) == Done(u + t) <==> d == Done(t)
  {
    if d.Done? && u + d.text == u + t { assert d.text == (u + d.text)[|u|..] && t == (u + t)[|u|..]; }
  }

  lemma PrependOther(a: string, d: Decoded, t: string)
    ensures Prepend(a, d) == Done(t) ==> |a| <= |t| && t[..|a|] == a
  {
    if d.Done? { assert (a + d.text)[..|a|] == a; }
  }

  lemma WellFormedSplit(chunks: seq<Text>)
    requires chunks != []
    ensures WellFormedChunks(chunks) <==> DecodeUtf8(chunks[0]).Some? && WellFormedChunks(chunks[1..])
  {
    hide DecodeUtf8;
    assert forall i :: 1 <= i < |chunks| ==> chunks[i] == chunks[1..][i - 1];
  }

  // ----------------------------------------------------------- two responses that fail

  /** The two bytes of one character sent as two chunks: a valid response that panics. */
  lemma SplitCharacterExample()
    ensures ConcatBytes([[0xC3], [0xA9]]) == EncodeUtf8("\U{00E9}")
    ensures Decode(Lossy(EncodeBytes([[0xC3], [0xA9]]))).Panics?
  {
    var chunks: seq<Text> := [[0xC3], [0xA9]];
    hide Decode, Lossy;
    TwoConcat([0xC3], [0xA9]);
    OneEncodes('\U{00E9}');
    assert EncodeChar('\U{00E9}') == [0xC3, 0xA9];
    EncodesNothing();
    CutShort(chunks, "", '\U{00E9}', 1);
  }

  lemma TwoConcat(a: Text, b: Text)
    ensures ConcatBytes([a, b]) == a + b
  {
    assert [a, b][1..] == [b] && [b][1..] == [];
    assert ConcatBytes([b]) == b + ConcatBytes([]) == b;
  }

  lemma OneEncodes(c: char)
    ensures EncodeUtf8([c]) == EncodeChar(c)
  {
    hide EncodeChar;
    assert [c][1..] == "";
  }

  const WIDE: char := '\U{01F600}'

  /**
    A four-byte character cut after three bytes, and then "xyz": a valid response that neither
    panics nor comes back.  The replacement character and "x" fill the second chunk's size, and
    what should be its end is returned as it stands.
   */
  lemma SilentCorruptionExample()
    ensures var chunks: seq<Text> := [[0xF0, 0x9F, 0x98], [0x80, 0x78, 0x79, 0x7A]];
            && ConcatBytes(chunks) == EncodeUtf8([WIDE] + "xyz")
            && Decode(Lossy(EncodeBytes(chunks))) == Done([REPLACEMENT, REPLACEMENT] + "xyz" + BREAK + LAST)
  {
    hide Decode, Lossy, EncodeUtf8, EncodeChar, EncodeBytes;
    var a: Text, b: Text := [0xF0, 0x9F, 0x98], [0x80, 0x78, 0x79, 0x7A];
    var chunks := [a, b];
    TwoConcat(a, b);
    WideEncodes();
    EncodesFirst(WIDE, "xyz");
    EncodesNothing();
    assert a + b == EncodeChar(WIDE) + [0x78, 0x79, 0x7A];
    assert [] + EncodeChar(WIDE)[..3] == a;
    assert chunks[1..] == [b];
    CutShort(chunks, "", WIDE, 3);
    SecondChunk(b);
    Joined(BREAK + LAST);
  }

  lemma WideEncodes()
    ensures EncodeChar(WIDE) == [0xF0, 0x9F, 0x98, 0x80] && EncodeUtf8("xyz") == [0x78, 0x79, 0x7A]
  {
    AsciiEncodes("xyz");
    assert Codes("xyz") == [0x78, 0x79, 0x7A];
  }

  lemma Joined(end: string)
    ensures ("" + [REPLACEMENT]) + ([REPLACEMENT] + "x" + ("yz" + end)) == [REPLACEMENT, REPLACEMENT] + "xyz" + end
  {
    assert "xyz" == "x" + "yz";
  }

  lemma SecondChunk(b: Text)
    requires b == [0x80, 0x78, 0x79, 0x7A]
    ensures Decode(Lossy(EncodeBytes([b]))) == Done([REPLACEMENT] + "x" + ("yz" + (BREAK + LAST)))
  {
    hide Decode, Lossy, EncodeBytes, NextOf, SizeOf, Cut, ByteLen, FirstBreak, TrimBreaks;
    SecondWire(b);
    var rest, tail := [REPLACEMENT] + "xyz" + BREAK + LAST, "yz" + (BREAK + LAST);
    var s := "4" + BREAK + rest;
    FourReads();
    HeadIsFirstLine("4", rest);
    CutFour(rest);
    assert s[..1] == "4" && s[3..] == rest;
    SecondSplit(rest, tail);
    TakesNext(s, 1, 2);
    TakeDecodes(s);
    Leftover();
  }

  lemma SecondSplit(rest: string, tail: string)
    requires rest == [REPLACEMENT] + "xyz" + BREAK + LAST && tail == "yz" + (BREAK + LAST)
    ensures rest[..2] == [REPLACEMENT] + "x" && rest[2..] == tail
  {
    assert "xyz" == "x" + "yz";
    assert rest == [REPLACEMENT] + "x" + tail;
  }

  lemma FourReads()
    ensures SizeOf("4") == Some(4) && BreakFree("4")
  {
    assert HexText(4) == "4";
    SizeReads(4);
  }

  lemma SecondWire(b: Text)
    requires b == [0x80, 0x78, 0x79, 0x7A]
    ensures Lossy(EncodeBytes([b])) == "4" + BREAK + ([REPLACEMENT] + "xyz" + BREAK + LAST)
  {
    hide Lossy, EncodeBytes;
    var after := BREAK_BYTES + EncodeBytes([b][1..]);
    var xyz: Text := [0x78, 0x79, 0x7A];
    assert b + after == [0x80] + (xyz + after);
    LossyLone(0x80, xyz + after);
    assert Codes("xyz") == xyz;
    LossyAscii("xyz", after);
    var data := [REPLACEMENT] + "xyz";
    assert data + Lossy(after) == [REPLACEMENT] + ("xyz" + Lossy(after));
    LossyChunk([b], data);
    assert [b][1..] == [];
    LossyLast();
    assert HexText(4) == "4";
    assert "4" + BREAK + data + BREAK + LAST == "4" + BREAK + (data + BREAK + LAST);
  }

  lemma LossyLast()
    ensures Lossy(EncodeBytes([])) == LAST
  {
    hide Lossy;
    LossyAscii(LAST, []);
    LossyNothing();
    assert LAST_BYTES + [] == LAST_BYTES && LAST + "" == LAST;
  }

  lemma CutFour(s: string)
    requires s == [REPLACEMENT] + "xyz" + BREAK + LAST
    ensures Cut(s, 4) == Some(2) && ByteLen(s) >= 4
  {
    assert s[0] == REPLACEMENT && s[1] == 'x' && |s| >= 2;
    assert Width(s[0]) == 3 && Width(s[1]) == 1 && s[1..][0] == s[1];
    assert Cut(s[1..][1..], 0) == Some(0);
    assert Cut(s[1..], 1) == Some(1);
  }

  /** "yz" is no size, so everything from there on is returned. */
  lemma Leftover()
    ensures var s := "yz" + (BREAK + LAST); TrimBreaks(s) == s && Decode(s) == Done(s)
  {
    var s := "yz" + (BREAK + LAST);
    assert s == "yz" + BREAK + LAST;
    assert s[0] == 'y' && !BreakAt(s, 0);
    HeadIsFirstLine("yz", LAST);
    assert s[..2] == "yz";
    NoSize();
    assert NextOf(s) == Stop(s) by { hide SizeOf, FirstBreak, ByteLen, Cut; }
    hide NextOf;
  }

  lemma NoSize()
    ensures SizeOf("yz") == None
  {
    assert TrimStart("yz") == "yz" && TrimEnd("yz") == "yz";
    assert HexDigit("yz"[1]) == None;
  }

  // -------------------------------------------------------------- every other body

  lemma {:induction false} TrimShort(s: string)
    ensures exists n: nat :: s == Breaks(n) + TrimBreaks(s)
  {
    if BreakAt(s, 0) {
      TrimShort(s[2..]);
      assert s == BREAK + s[2..];
      var n: nat :| s[2..] == Breaks(n) + TrimBreaks(s[2..]);
      assert s == Breaks(n + 1) + TrimBreaks(s);
    } else {
      assert s == Breaks(0) + s;
    }
  }

  /** Output is never longer than input, counted in bytes. */
  lemma {:induction false} NeverLonger(body: string)
    requires Decode(body).Done?
    ensures ByteLen(Decode(body).text) <= ByteLen(body)
    decreases |body|
  {
    hide ByteLen, NextOf;
    if body != "" {
      match NextOf(body) {
        case Stop(text) => StopShort(body);
        case Take(data, rest) =>
          TakeShort(body);
          NeverLonger(rest);
          ByteLenAppend(data, Decode(rest).text);
      }
    }
  }

  lemma TakeShort(s: string)
    requires NextOf(s).Take?
    ensures ByteLen(NextOf(s).data) + ByteLen(NextOf(s).rest) <= ByteLen(s)
  {
    hide ByteLen, NextOf, ValidFrame, Breaks;
    var f := TakenFrame(s);
    var data, rest := NextOf(s).data, NextOf(s).rest;
    ByteLenAppend(FrameText(f), rest);
    ByteLenAppend(f.head + BREAK, data + Breaks(f.breaks));
    ByteLenAppend(data, Breaks(f.breaks));
    assert FrameText(f) == f.head + BREAK + (data + Breaks(f.breaks));
  }

  lemma StopShort(s: string)
    ensures NextOf(s).Stop? ==> ByteLen(NextOf(s).text) <= ByteLen(s)
  {
    hide SizeOf, Cut;
    var i := FirstBreak(s);
    if i.Some? {
      assert s == s[..i.value + 2] + s[i.value + 2..];
      ByteLenAppend(s[..i.value + 2], s[i.value + 2..]);
    }
  }

  predicate Ascii(s: string) { forall i :: 0 <= i < |s| ==> s[i] as int < 0x80 }

  /** A size line whose size ends inside a character of what follows it. */
  ghost predicate SplitsCharacter(s: string) {
    exists i: nat :: FirstBreak(s) == Some(i) && SizeOf(s[..i]).Some?
      && SizeOf(s[..i]).value <= ByteLen(s[i + 2..]) && Cut(s[i + 2..], SizeOf(s[..i]).value).None?
  }

  lemma SplitIsSplit(s: string)
    ensures NextOf(s).Split? <==> SplitsCharacter(s)
    ensures NextOf(s).Split? ==> !BreakAt(s, 0)
  {
    assert SizeOf("").None?;
    var i := FirstBreak(s);
    assert i.Some? && i.value == 0 ==> s[..i.value] == "";
    hide SizeOf, ByteLen, TrimBreaks;
  }

  ghost predicate Reaches(body: string, frames: seq<Frame>, tail: string) {
    && (forall f :: f in frames ==> ValidFrame(f))
    && body == FramesText(frames) + tail
    && (frames != [] ==> !BreakAt(tail, 0))
  }

  /** The decoder panics on exactly the bodies in which, after whole frames, a size splits a character. */
  lemma {:induction false} PanicsExactly(body: string)
    ensures Decode(body).Panics? <==> exists frames, tail :: Reaches(body, frames, tail) && SplitsCharacter(tail)
    decreases |body|
  {
    hide NextOf, SplitsCharacter, BreakAt;
    SplitIsSplit(body);
    if frames, tail :| Reaches(body, frames, tail) && SplitsCharacter(tail) {
      SplitIsSplit(tail);
      DecodeFrames(frames, tail);
      SplitNotEmpty(tail);
    }
    if Decode(body).Panics? {
      if NextOf(body).Split? {
        assert Reaches(body, [], body) by { assert FramesText([]) + body == body; }
      } else {
        var after := NextOf(body).rest;
        PanicsExactly(after);
        var frames, tail :| Reaches(after, frames, tail) && SplitsCharacter(tail);
        SplitIsSplit(tail);
        var f := TakenFrame(body);
        ReachesMore(body, f, after, frames, tail);
      }
    }
  }

  lemma SplitNotEmpty(s: string)
    ensures NextOf(s).Split? ==> s != ""
  {
  }

  lemma ReachesMore(body: string, f: Frame, after: string, frames: seq<Frame>, tail: string)
    requires ValidFrame(f) && body == FrameText(f) + after && Reaches(after, frames, tail) && !BreakAt(tail, 0)
    ensures Reaches(body, [f] + frames, tail)
  {
    hide FrameText, ValidFrame;
    assert ([f] + frames)[1..] == frames;
    assert FramesText([f] + frames) == FrameText(f) + FramesText(frames);
    assert FrameText(f) + (FramesText(frames) + tail) == FrameText(f) + FramesText(frames) + tail;
  }

  lemma {:induction false} AsciiCuts(s: string, n: nat)
    requires Ascii(s) && n <= ByteLen(s)
    ensures Cut(s, n).Some?
  {
    if n > 0 { AsciiCuts(s[1..], n - Width(s[0])); }
  }

  lemma AsciiNext(s: string)
    requires Ascii(s)
    ensures !NextOf(s).Split?
  {
    hide SizeOf, ByteLen, TrimBreaks, Cut;
    var i := FirstBreak(s);
    if i.Some? {
      var size, rest := SizeOf(s[..i.value]), s[i.value + 2..];
      if size.Some? && size.value <= ByteLen(rest) { AsciiCuts(rest, size.value); }
    }
  }

  lemma {:induction false} AsciiNeverPanics(body: string)
    requires Ascii(body)
    ensures Decode(body).Done?
    decreases |body|
  {
    hide NextOf, FrameText;
    AsciiNext(body);
    if body != "" && NextOf(body).Take? {
      var f := TakenFrame(body);
      var rest := NextOf(body).rest;
      assert forall j :: 0 <= j < |rest| ==> rest[j] == body[|FrameText(f)| + j];
      AsciiNeverPanics(rest);
    }
  }

  /** A one-byte chunk that starts a two-byte character. */
  lemma PanicExample()
    ensures Decode("1" + BREAK + "\U{00E9}").Panics?
  {
    hide Decode, SizeOf, NextOf;
    var s := "1" + BREAK + "\U{00E9}";
    SizeReads(1);
    assert HexText(1) == "1" && s[..1] == "1";
    assert s[3..] == "\U{00E9}" && Width(s[3]) == 2;
    SmallCut(s[3..]);
    HeadIsFirstLine("1", "\U{00E9}");
    assert SplitsCharacter(s);
    SplitIsSplit(s);
    SplitPanics(s);
  }

  lemma SmallCut(s: string)
    requires |s| == 1 && Width(s[0]) == 2
    ensures ByteLen(s) == 2 && Cut(s, 1) == None
  {
  }

  lemma SplitPanics(s: string)
    ensures NextOf(s).Split? ==> Decode(s).Panics?
  {
    SplitNotEmpty(s);
    hide NextOf;
  }
}
