/** UTF-8 as section 3 of RFC 3629 defines it, for the code that works on the bytes of a string. */
module Utf8 {

  type byte = n: int | 0 <= n < 256

  function EncodeChar(c: char): (b: seq<byte>)
    ensures 1 <= |b| <= 4
    ensures c as int < 0x80 ==> b == [c as int]
    ensures c as int >= 0x80 ==> |b| >= 2 && forall k :: 0 <= k < |b| ==> b[k] >= 0x80
    ensures !IsContinuation(b[0]) && forall k :: 1 <= k < |b| ==> IsContinuation(b[k])
  {
    var n := c as int;
    if n < 0x80 then [n]
    else if n < 0x800 then [0xC0 + n / 64, 0x80 + n % 64]
    else if n < 0x1_0000 then [0xE0 + n / 64 / 64, 0x80 + n / 64 % 64, 0x80 + n % 64]
    else [0xF0 + n / 64 / 64 / 64, 0x80 + n / 64 / 64 % 64, 0x80 + n / 64 % 64, 0x80 + n % 64]
  }

  function Encode(s: string): seq<byte> {
    if s == [] then [] else EncodeChar(s[0]) + Encode(s[1..])
  }

  predicate IsContinuation(b: byte) {
    0x80 <= b < 0xC0
  }

  /** How many bytes the character with this first byte takes. */
  function LengthFrom(lead: byte): nat {
    if lead < 0x80 then 1 else if lead < 0xE0 then 2 else if lead < 0xF0 then 3 else 4
  }

  /** The bits byte `k` contributes, above its marker. */
  function Bits(b: seq<byte>, k: nat, marker: int): int
    requires k < |b|
  {
    b[k] as int - marker
  }

  function CodePoint(b: seq<byte>): int
    requires |b| > 0
  {
    if |b| == 1 then Bits(b, 0, 0)
    else if |b| == 2 then Bits(b, 0, 0xC0) * 64 + Bits(b, 1, 0x80)
    else if |b| == 3 then Bits(b, 0, 0xE0) * 4096 + Bits(b, 1, 0x80) * 64 + Bits(b, 2, 0x80)
    else Bits(b, 0, 0xF0) * 262144 + Bits(b, 1, 0x80) * 4096 + Bits(b, 2, 0x80) * 64 + Bits(b, 3, 0x80)
  }

  /** Reads bytes back as text; bytes that are not UTF-8 become replacement characters. */
  function Decode(b: seq<byte>): string {
    if b == [] then []
    else
      var n := LengthFrom(b[0]);
      if n > |b| then ['\U{FFFD}']
      else
        var p := CodePoint(b[..n]);
        (if 0 <= p < 0xD800 || 0xE000 <= p < 0x11_0000 then [p as char] else ['\U{FFFD}']) + Decode(b[n..])
  }

  /** Bytes that are the encoding of some text. */
  predicate IsUtf8(b: seq<byte>) {
    Encode(Decode(b)) == b
  }

  lemma CodePointOfChar(c: char)
    ensures CodePoint(EncodeChar(c)) == c as int
    ensures LengthFrom(EncodeChar(c)[0]) == |EncodeChar(c)|
  {
    var n := c as int;
    assert n == n / 64 * 64 + n % 64;
    assert n / 64 == n / 64 / 64 * 64 + n / 64 % 64;
    assert n / 64 / 64 == n / 64 / 64 / 64 * 64 + n / 64 / 64 % 64;
  }

  /** Characters of one, two, three and four bytes. */
  lemma KnownEncodings()
    ensures EncodeChar('A') == [0x41] && EncodeChar(0xE9 as char) == [0xC3, 0xA9]
    ensures EncodeChar(0x20AC as char) == [0xE2, 0x82, 0xAC]
    ensures EncodeChar(0x1_0348 as char) == [0xF0, 0x90, 0x8D, 0x88]
  {
  }

  lemma {:induction false} DecodeEncode(s: string)
    ensures Decode(Encode(s)) == s
  {
    if s == [] {
    } else {
      DecodeEncode(s[1..]);
      DecodeFirst(s[0], Encode(s[1..]));
      hide EncodeChar, Decode;
      assert s == [s[0]] + s[1..];
    }
  }

  lemma DecodeFirst(c: char, rest: seq<byte>)
    ensures Decode(EncodeChar(c) + rest) == [c] + Decode(rest)
  {
    CodePointOfChar(c);
    var b := EncodeChar(c);
    hide EncodeChar, CodePoint, LengthFrom;
    assert (b + rest)[0] == b[0] && (b + rest)[..|b|] == b && (b + rest)[|b|..] == rest;
  }

  lemma {:induction false} EncodeConcat(a: string, b: string)
    ensures Encode(a + b) == Encode(a) + Encode(b)
  {
    if a == [] {
      assert a + b == b;
    } else {
      EncodeConcat(a[1..], b);
      assert (a + b)[0] == a[0] && (a + b)[1..] == a[1..] + b;
    }
  }

  /** `str::is_char_boundary`. */
  predicate IsBoundary(b: seq<byte>, end: nat) {
    end == 0 || end == |b| || (end < |b| && !IsContinuation(b[end]))
  }

  lemma BoundaryAfterFirst(b: seq<byte>, rest: seq<byte>, end: nat)
    requires b != [] && forall k :: 1 <= k < |b| ==> IsContinuation(b[k])
    requires 0 < end <= |b + rest| && IsBoundary(b + rest, end)
    ensures end >= |b| && IsBoundary(rest, end - |b|)
  {
  }

  /** A boundary in encoded text is the end of a whole-character prefix. */
  lemma {:induction false} BoundaryEndsAPrefix(s: string, end: nat) returns (k: nat)
    requires end <= |Encode(s)| && IsBoundary(Encode(s), end)
    ensures k <= |s| && |Encode(s[..k])| == end && Encode(s)[..end] == Encode(s[..k])
  {
    if end == 0 {
      k := 0;
    } else {
      var b, rest := EncodeChar(s[0]), Encode(s[1..]);
      assert Encode(s) == b + rest;
      BoundaryAfterFirst(b, rest, end);
      hide EncodeChar;
      var j := BoundaryEndsAPrefix(s[1..], end - |b|);
      k := j + 1;
      assert s[..k][0] == s[0] && s[..k][1..] == s[1..][..j];
      assert (b + rest)[..end] == b + rest[..end - |b|];
    }
  }

  lemma {:induction false} PrefixLengths(s: string, j: nat, k: nat)
    requires j <= k <= |s|
    ensures |Encode(s[..j])| + (k - j) <= |Encode(s[..k])| <= |Encode(s[..j])| + 4 * (k - j)
    ensures Encode(s[..j]) <= Encode(s[..k])
    ensures |Encode(s[..j])| <= |Encode(s)|
  {
    assert s[..k] == s[..j] + s[j..k];
    assert s == s[..j] + s[j..];
    EncodeConcat(s[..j], s[j..k]);
    EncodeConcat(s[..j], s[j..]);
    LengthBounds(s[j..k]);
  }

  lemma {:induction false} LengthBounds(s: string)
    ensures |s| <= |Encode(s)| <= 4 * |s|
  {
    if s != [] {
      LengthBounds(s[1..]);
    }
  }

  /** Position of the first byte `x`, or the number of bytes. */
  function FindByte(b: seq<byte>, x: byte): (n: nat)
    ensures n <= |b| && x !in b[..n]
    ensures n < |b| ==> b[n] == x
    ensures n < |b| <==> x in b
  {
    if b == [] || b[0] == x then 0
    else
      var n := 1 + FindByte(b[1..], x);
      assert b[..n] == [b[0]] + b[1..][..n - 1];
      n
  }

  lemma FirstByte(b: seq<byte>, front: seq<byte>, x: byte, back: seq<byte>)
    requires b == front + [x] + back && x !in front
    ensures FindByte(b, x) == |front|
  {
    var n := FindByte(b, x);
    assert b[|front|] == x;
    assert forall i :: 0 <= i < |front| ==> b[i] == front[i];
    assert forall i :: 0 <= i < n ==> b[i] == b[..n][i];
  }

  /** An ASCII character is encoded as itself and nowhere else. */
  lemma {:induction false} AsciiInEncode(s: string, c: char)
    requires c as int < 0x80
    ensures c as int in Encode(s) <==> c in s
  {
    if s != [] {
      AsciiInEncode(s[1..], c);
      assert s == [s[0]] + s[1..];
      assert c as int in EncodeChar(s[0]) <==> c == s[0];
      hide EncodeChar;
    }
  }

  lemma {:induction false} EncodeAscii(c: char, s: string)
    requires c as int < 0x80
    ensures Encode([c] + s) == [c as int] + Encode(s)
  {
    assert ([c] + s)[1..] == s;
  }
}
