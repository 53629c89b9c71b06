/**
  The chunk decoder line by line: which size lines it takes, and what it does with what follows.
 */
module ChunkedLines {
  import opened Options
  import opened Texts
  import opened Utf8
  import opened Chunked

  // ----------------------------------------------------------------- the size line

  /** The characters with the White_Space property. */
  predicate White(c: char) {
    || '\U{0009}' <= c <= '\U{000D}' || c == ' ' || c == '\U{0085}' || c == '\U{00A0}' || c == '\U{1680}' || '\U{2000}' <= c <= '\U{200A}'
    || c == '\U{2028}' || c == '\U{2029}' || c == '\U{202F}' || c == '\U{205F}' || c == '\U{3000}'
  }

  predicate AllWhite(s: string) { forall i :: 0 <= i < |s| ==> White(s[i]) }

  predicate Hex(c: char) { '0' <= c <= '9' || 'a' <= c <= 'f' || 'A' <= c <= 'F' }

  predicate AllHex(s: string) { forall i :: 0 <= i < |s| ==> Hex(s[i]) }

  function DigitOf(c: char): nat
    requires Hex(c)
  {
    if c <= '9' then c as int - 0x30 else if c <= 'F' then c as int - 0x41 + 10 else c as int - 0x61 + 10
  }

  function NumberOf(s: string): nat
    requires AllHex(s)
  {
    if s == "" then 0 else 16 * NumberOf(s[..|s| - 1]) + DigitOf(s[|s| - 1])
  }

  /** Digits, perhaps after a plus sign, with white space around them, and a number below two to the sixty-fourth. */
  ghost predicate IsSize(line: string, n: nat) {
    exists a, sign, digits, b ::
      && line == a + (sign + digits) + b && AllWhite(a) && AllWhite(b) && sign in {"", "+"}
      && digits != "" && AllHex(digits) && NumberOf(digits) == n && n < 18_446_744_073_709_551_616
  }

  lemma CharsExact(c: char)
    ensures Space(c) <==> White(c)
    ensures HexDigit(c).Some? <==> Hex(c)
    ensures Hex(c) ==> HexDigit(c) == Some(DigitOf(c)) && !White(c)
    ensures !White('+') && !Hex('+')
  {}

  lemma {:induction false} ValueExact(s: string)
    ensures HexValue(s).Some? <==> AllHex(s)
    ensures AllHex(s) ==> HexValue(s) == Some(NumberOf(s))
  {
    if s != "" {
      var init, last := s[..|s| - 1], s[|s| - 1];
      ValueExact(init);
      CharsExact(last);
      assert AllHex(s) <==> AllHex(init) && Hex(last);
      hide HexDigit, Hex, DigitOf, White, Space;
    }
  }

  /** Trimming takes white space off, up to something else. */
  lemma {:induction false} TrimsStart(s: string) returns (a: string)
    ensures s == a + TrimStart(s) && AllWhite(a)
    ensures TrimStart(s) != "" ==> !White(TrimStart(s)[0])
  {
    a := "";
    if s != "" {
      CharsExact(s[0]);
      if Space(s[0]) {
        var more := TrimsStart(s[1..]);
        a := [s[0]] + more;
        assert s == [s[0]] + s[1..];
      }
    }
  }

  lemma {:induction false} TrimsEnd(s: string) returns (b: string)
    ensures s == TrimEnd(s) + b && AllWhite(b)
  {
    b := "";
    if s != "" {
      CharsExact(s[|s| - 1]);
      if Space(s[|s| - 1]) {
        var more := TrimsEnd(s[..|s| - 1]);
        b := more + [s[|s| - 1]];
        assert s == s[..|s| - 1] + [s[|s| - 1]];
      }
    }
  }

  lemma {:induction false} TrimsTo(a: string, t: string, b: string)
    requires AllWhite(a) && AllWhite(b) && t != "" && !White(t[0]) && !White(t[|t| - 1])
    ensures TrimStart(a + t + b) == t + b && TrimEnd(t + b) == t
    decreases |a| + |b|
  {
    hide White, Space;
    if a != "" {
      CharsExact(a[0]);
      assert (a + t + b)[0] == a[0] && (a + t + b)[1..] == a[1..] + t + b;
      TrimsTo(a[1..], t, b);
    } else if b != "" {
      var s := t + b;
      assert a + t + b == s && s[0] == t[0];
      CharsExact(t[0]);
      CharsExact(b[|b| - 1]);
      assert s[|s| - 1] == b[|b| - 1] && s[..|s| - 1] == t + b[..|b| - 1];
      TrimsTo("", t, b[..|b| - 1]);
    } else {
      assert a + t + b == t && t + b == t;
      CharsExact(t[0]);
      CharsExact(t[|t| - 1]);
    }
  }

  /** What is read as a size: exactly such lines, as that number. */
  lemma SizeExact(line: string, n: nat)
    ensures SizeOf(line) == Some(n) <==> IsSize(line, n)
  {
    if SizeOf(line) == Some(n) { SizeIs(line, n); }
    if IsSize(line, n) {
      var a, sign, digits, b :|
        && line == a + (sign + digits) + b && AllWhite(a) && AllWhite(b) && sign in {"", "+"}
        && digits != "" && AllHex(digits) && NumberOf(digits) == n && n < 18_446_744_073_709_551_616;
      ReadAs(line, n, a, sign, digits, b);
    }
  }

  lemma SizeIs(line: string, n: nat)
    requires SizeOf(line) == Some(n)
    ensures IsSize(line, n)
  {
    hide TrimStart, TrimEnd, HexValue, AllWhite, AllHex, NumberOf;
    var a := TrimsStart(line);
    var u := TrimStart(line);
    var b := TrimsEnd(u);
    var t := TrimEnd(u);
    var sign, digits := if t != "" && t[0] == '+' then "+" else "", if t != "" && t[0] == '+' then t[1..] else t;
    ValueExact(digits);
    hide SizeOf;
    Pieces(line, a, u, t, b, sign, digits);
  }

  lemma Pieces(line: string, a: string, u: string, t: string, b: string, sign: string, digits: string)
    requires line == a + u && u == t + b
    requires if t != "" && t[0] == '+' then sign == "+" && digits == t[1..] else sign == "" && digits == t
    ensures line == a + (sign + digits) + b
  {
    assert t == sign + digits;
    assert a + (t + b) == a + t + b;
  }

  lemma ReadAs(line: string, n: nat, a: string, sign: string, digits: string, b: string)
    requires line == a + (sign + digits) + b && AllWhite(a) && AllWhite(b) && sign in {"", "+"}
    requires digits != "" && AllHex(digits) && NumberOf(digits) == n && n < 18_446_744_073_709_551_616
    ensures SizeOf(line) == Some(n)
  {
    var t := sign + digits;
    CharsExact(digits[0]);
    CharsExact(digits[|digits| - 1]);
    assert t[|t| - 1] == digits[|digits| - 1];
    assert sign == "" ==> t == digits;
    assert sign == "+" ==> t[0] == '+' && t[1..] == digits;
    hide White, Space, Hex, HexDigit, TrimStart, TrimEnd, HexValue;
    TrimsTo(a, t, b);
    ValueExact(digits);
  }

  // ------------------------------------------------------------------ what follows

  /** The first line break of a text. */
  predicate FirstLineEnds(s: string, i: int) {
    0 <= i < |s| - 1 && s[i] == '\r' && s[i + 1] == '\n' && forall j :: 0 <= j < i ==> !(s[j] == '\r' && s[j + 1] == '\n')
  }

  lemma BreakExact(s: string, i: nat)
    ensures FirstBreak(s) == Some(i) <==> FirstLineEnds(s, i)
    ensures FirstBreak(s) == None <==> forall j :: 0 <= j < |s| - 1 ==> !(s[j] == '\r' && s[j + 1] == '\n')
  {
    forall j: int ensures BreakAt(s, j) <==> (0 <= j < |s| - 1 && s[j] == '\r' && s[j + 1] == '\n') {}
  }

  /** A text without a line break, or whose first line is no size, is returned as it is. */
  lemma DecodesAsIs(s: string)
    requires (forall j :: 0 <= j < |s| - 1 ==> !(s[j] == '\r' && s[j + 1] == '\n'))
             || exists i: nat :: FirstLineEnds(s, i) && forall n :: !IsSize(s[..i], n)
    ensures Decode(s) == Done(s)
  {
    BreakExact(s, 0);
    if i: nat :| FirstLineEnds(s, i) && forall n :: !IsSize(s[..i], n) {
      BreakExact(s, i);
      if SizeOf(s[..i]).Some? { SizeExact(s[..i], SizeOf(s[..i]).value); }
    }
    hide SizeOf, FirstBreak;
  }

  /**
    After a size line of n: nothing more if n is zero, all of the rest if it has fewer than n bytes, a
    panic if the n-th byte is inside a character, and else the characters of n bytes and
    whatever the text decodes to after them and the line breaks that follow.
   */
  lemma DecodesBySize(s: string, i: nat, n: nat)
    requires FirstLineEnds(s, i) && IsSize(s[..i], n)
    ensures var rest := s[i + 2..];
            && (n == 0 ==> Decode(s) == Done(""))
            && (n > 0 && |EncodeUtf8(rest)| < n ==> Decode(s) == Done(rest))
            && (n > 0 && |EncodeUtf8(rest)| >= n && (forall k :: 0 <= k <= |rest| ==> |EncodeUtf8(rest[..k])| != n) ==> Decode(s) == Panics)
            && (forall k :: 0 < k <= |rest| && |EncodeUtf8(rest[..k])| == n ==>
                  exists breaks: nat, tail :: rest[k..] == Breaks(breaks) + tail && !BreakAt(tail, 0) && Decode(s) == Prepend(rest[..k], Decode(tail)))
  {
    var rest := s[i + 2..];
    BreakExact(s, i);
    SizeExact(s[..i], n);
    ByteLenIsLength(rest);
    hide SizeOf, FirstBreak, IsSize, FirstLineEnds;
    if n > 0 && |EncodeUtf8(rest)| >= n {
      CutSpelled(rest, n);
      if k :| 0 < k <= |rest| && |EncodeUtf8(rest[..k])| == n { Follows(s, i, n, k); }
      forall k | 0 < k <= |rest| && |EncodeUtf8(rest[..k])| == n
        ensures exists breaks: nat, tail :: rest[k..] == Breaks(breaks) + tail && !BreakAt(tail, 0) && Decode(s) == Prepend(rest[..k], Decode(tail))
      {
        Follows(s, i, n, k);
      }
    } else {
      forall k | 0 < k <= |rest| ensures |EncodeUtf8(rest[..k])| != n { Shorter(rest, k); }
    }
  }

  lemma Shorter(s: string, k: nat)
    requires 0 < k <= |s|
    ensures 0 < |EncodeUtf8(s[..k])| <= |EncodeUtf8(s)|
  {
    assert s == s[..k] + s[k..];
    EncodeAppend(s[..k], s[k..]);
    ByteLenIsLength(s[..k]);
  }

  lemma CutSpelled(s: string, n: nat)
    ensures Cut(s, n).None? ==> forall k :: 0 <= k <= |s| ==> |EncodeUtf8(s[..k])| != n
    ensures Cut(s, n).Some? ==> |EncodeUtf8(s[..Cut(s, n).value])| == n
    ensures forall k :: 0 <= k <= |s| && |EncodeUtf8(s[..k])| == n ==> Cut(s, n) == Some(k)
  {
    forall k | 0 <= k <= |s| && |EncodeUtf8(s[..k])| == n ensures Cut(s, n) == Some(k) {
      ByteLenIsLength(s[..k]);
      assert s == s[..k] + s[k..];
      CutAtEnd(s[..k], s[k..]);
    }
    if Cut(s, n).Some? { ByteLenIsLength(s[..Cut(s, n).value]); }
  }

  lemma Follows(s: string, i: nat, n: nat, k: nat)
    requires FirstBreak(s) == Some(i) && SizeOf(s[..i]) == Some(n) && n > 0
    requires ByteLen(s[i + 2..]) >= n && k <= |s[i + 2..]| && Cut(s[i + 2..], n) == Some(k)
    ensures var rest := s[i + 2..];
            exists breaks: nat, tail :: rest[k..] == Breaks(breaks) + tail && !BreakAt(tail, 0) && Decode(s) == Prepend(rest[..k], Decode(tail))
  {
    hide SizeOf, FirstBreak, Cut, ByteLen;
    var after := s[i + 2..][k..];
    var breaks := TrimsBreaks(after);
    assert Decode(s) == Prepend(s[i + 2..][..k], Decode(TrimBreaks(after)));
  }

  lemma {:induction false} TrimsBreaks(s: string) returns (n: nat)
    ensures s == Breaks(n) + TrimBreaks(s)
  {
    n := 0;
    if BreakAt(s, 0) {
      n := TrimsBreaks(s[2..]);
      assert s == BREAK + s[2..];
      n := n + 1;
      assert Breaks(n) == BREAK + Breaks(n - 1);
      assert BREAK + (Breaks(n - 1) + TrimBreaks(s[2..])) == BREAK + Breaks(n - 1) + TrimBreaks(s[2..]);
    }
  }
}
