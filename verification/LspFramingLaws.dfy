/** Reading gives back what was written, also from a stream cut anywhere. */
module LspFramingLaws {
  import opened Options
  import opened Text
  import opened Utf8
  import opened LspFraming

  // ----- Header lines -----

  lemma LineBytes(t: string, tail: seq<byte>)
    requires '\n' !in t
    ensures var b := Encode(t + ['\n']) + tail;
            LineEnd(b) == |Encode(t + ['\n'])| && b[..LineEnd(b)] == Encode(t + ['\n']) && b[LineEnd(b)..] == tail
  {
    EncodeConcat(t, ['\n']);
    EncodeAscii('\n', []);
    assert ['\n'] + [] == ['\n'];
    AsciiInEncode(t, '\n');
    hide Encode;
    var b := Encode(t + ['\n']) + tail;
    assert b == Encode(t) + [NEWLINE] + tail;
    FirstByte(b, Encode(t), NEWLINE, tail);
  }

  /** The reader takes a written line for that line. */
  lemma HeaderLine(t: string, tail: seq<byte>, known: Option<nat>)
    requires '\n' !in t
    ensures HeadersFrom(Encode(t + ['\n']) + tail, known) ==
            var line := TrimLineEnd(t + ['\n']);
            if line == [] then Length(if known.Some? then known.value else 0, tail)
            else HeadersFrom(tail, LengthAfter(line, known))
  {
    LineBytes(t, tail);
    DecodeEncode(t + ['\n']);
    assert |Encode(t + ['\n'])| > 0 by { LengthBounds(t + ['\n']); }
    hide Encode, Decode, LineEnd, LengthAfter, TrimLineEnd;
  }

  /** A line without its newline ends the stream, so no body follows it. */
  lemma UnfinishedLine(b: seq<byte>, known: Option<nat>)
    requires NEWLINE !in b
    ensures HeadersFrom(b, known).Length? ==> HeadersFrom(b, known).rest == []
  {
    var n := FindByte(b, NEWLINE);
    assert n == |b|;
    assert HeadersFrom([], LengthAfter(TrimLineEnd(Decode(b[..n])), known)) == Gone;
    hide Decode, Encode, LengthAfter, TrimLineEnd;
    assert b[n..] == [];
  }

  function LengthText(n: nat): string {
    CONTENT_LENGTH + " " + Decimal(n)
  }

  lemma HeaderParts(n: nat)
    ensures Encode(Header(n)) == Encode(LengthText(n) + ['\r'] + ['\n']) + Encode(['\r'] + ['\n'])
    ensures '\n' !in LengthText(n) + ['\r']
  {
    assert Header(n) == (LengthText(n) + ['\r'] + ['\n']) + (['\r'] + ['\n']) by { hide Decimal; }
    EncodeConcat(LengthText(n) + ['\r'] + ['\n'], ['\r'] + ['\n']);
    var digits := Decimal(n);
    assert forall i :: 0 <= i < |digits| ==> IsDigit(digits[i]);
    hide Decimal, Encode;
  }

  lemma TrimOneEnd(t: string, c: char)
    requires c == '\r' || c == '\n'
    ensures TrimLineEnd(t + [c]) == TrimLineEnd(t)
  {
    assert (t + [c])[..|t|] == t;
  }

  lemma TrimNothing(t: string, digits: string)
    requires digits != [] && IsDigit(digits[|digits| - 1])
    ensures TrimLineEnd(t + digits) == t + digits
  {
    assert (t + digits)[|t + digits| - 1] == digits[|digits| - 1];
  }

  lemma LengthTextIsTrimmed(n: nat)
    ensures TrimLineEnd(LengthText(n) + ['\r'] + ['\n']) == LengthText(n)
  {
    assert IsDigit(Decimal(n)[|Decimal(n)| - 1]);
    hide Decimal, TrimLineEnd;
    TrimOneEnd(LengthText(n) + ['\r'], '\n');
    TrimOneEnd(LengthText(n), '\r');
    TrimNothing(CONTENT_LENGTH + " ", Decimal(n));
  }

  lemma DigitIsNoSpace(c: char)
    requires IsDigit(c)
    ensures !IsSpace(c)
  {
  }

  lemma TrimDigits(s: string)
    requires s != [] && IsDigit(s[0]) && IsDigit(s[|s| - 1])
    ensures Trim([' '] + s) == s
  {
    DigitIsNoSpace(s[0]);
    DigitIsNoSpace(s[|s| - 1]);
    assert IsSpace(' ');
    hide IsSpace;
    assert TrimStart(s) == s && TrimEnd(s) == s;
    assert ([' '] + s)[1..] == s;
  }

  lemma LengthIsRead(n: nat, known: Option<nat>)
    requires n < SIZES
    ensures LengthAfter(LengthText(n), known) == Some(n)
  {
    SizeRoundTrip(n);
    var digits := Decimal(n);
    assert IsDigit(digits[0]) && IsDigit(digits[|digits| - 1]);
    TrimDigits(digits);
    hide Decimal, Trim, ParseSize;
    var rest := [' '] + digits;
    assert LengthText(n) == CONTENT_LENGTH + rest;
    assert (CONTENT_LENGTH + rest)[|CONTENT_LENGTH|..] == rest;
  }

  lemma CrLine(tail: seq<byte>, n: nat)
    ensures HeadersFrom(Encode(['\r'] + ['\n']) + tail, Some(n)) == Length(n, tail)
  {
    HeaderLine(['\r'], tail, Some(n));
    assert (['\r'] + ['\n'])[..1] == ['\r'] && ['\r'][..0] == [];
    hide HeadersFrom, Encode;
  }

  /** After the length line the reader knows the length. */
  lemma AfterLengthLine(n: nat, tail: seq<byte>)
    requires n < SIZES
    ensures HeadersFrom(Encode(LengthText(n) + ['\r'] + ['\n']) + tail, None) == HeadersFrom(tail, Some(n))
  {
    HeaderParts(n);
    HeaderLine(LengthText(n) + ['\r'], tail, None);
    LengthTextIsTrimmed(n);
    LengthIsRead(n, None);
    hide HeadersFrom, Encode, LengthAfter, TrimLineEnd, Header, Decimal;
  }

  /** A whole header reads as its length, with the rest of the stream untouched. */
  lemma HeaderIsRead(n: nat, tail: seq<byte>)
    requires n < SIZES
    ensures HeadersFrom(Encode(Header(n)) + tail, None) == Length(n, tail)
  {
    hide *;
    HeaderParts(n);
    var first, second := Encode(LengthText(n) + ['\r'] + ['\n']), Encode(['\r'] + ['\n']);
    assert first + second + tail == first + (second + tail);
    AfterLengthLine(n, second + tail);
    CrLine(tail, n);
  }

  lemma PrefixBeforeNewline(t: string, p: nat)
    requires '\n' !in t && p < |Encode(t + ['\n'])|
    ensures NEWLINE !in Encode(t + ['\n'])[..p]
  {
    EncodeConcat(t, ['\n']);
    EncodeAscii('\n', []);
    assert ['\n'] + [] == ['\n'];
    AsciiInEncode(t, '\n');
    hide Encode;
    assert Encode(t + ['\n'])[..p] == Encode(t)[..p];
  }

  /** A header cut short is never followed by a body. */
  lemma CutHeader(n: nat, p: nat)
    requires n < SIZES && p < |Encode(Header(n))|
    ensures var h := HeadersFrom(Encode(Header(n))[..p], None);
            h.Length? ==> h.rest == []
  {
    hide *;
    HeaderParts(n);
    var first, second := Encode(LengthText(n) + ['\r'] + ['\n']), Encode(['\r'] + ['\n']);
    if p < |first| {
      assert (first + second)[..p] == first[..p];
      PrefixBeforeNewline(LengthText(n) + ['\r'], p);
      UnfinishedLine(first[..p], None);
    } else {
      var q := p - |first|;
      assert (first + second)[..p] == first + second[..q];
      PrefixBeforeNewline(['\r'], q) by { CrHasNoNewline(); }
      AfterLengthLine(n, second[..q]);
      UnfinishedLine(second[..q], Some(n));
    }
  }

  lemma CrHasNoNewline()
    ensures '\n' !in ['\r']
  {
  }

  // ----- Frames -----

  /** Bodies of length zero are passed over. */
  function NonEmpty(bodies: seq<seq<byte>>): seq<seq<byte>> {
    if bodies == [] then [] else (if bodies[0] == [] then [] else [bodies[0]]) + NonEmpty(bodies[1..])
  }

  /** The bodies whose frames lie within the first `n` bytes of the stream. */
  function Complete(bodies: seq<seq<byte>>, n: nat): (r: seq<seq<byte>>)
    ensures r <= bodies
  {
    if bodies == [] || n < |Frame(bodies[0])| then []
    else [bodies[0]] + Complete(bodies[1..], n - |Frame(bodies[0])|)
  }

  lemma NothingToRead()
    ensures Bodies([]) == []
  {
  }

  lemma FrameIsRead(body: seq<byte>, tail: seq<byte>)
    requires |body| < SIZES
    ensures Bodies(Frame(body) + tail) == (if body == [] then [] else [body]) + Bodies(tail)
  {
    HeaderIsRead(|body|, body + tail);
    hide HeadersFrom, Encode, Header;
    assert Frame(body) + tail == Encode(Header(|body|)) + (body + tail);
    assert (body + tail)[..|body|] == body && (body + tail)[|body|..] == tail;
    assert body == [] ==> body + tail == tail;
  }

  /** Part of a frame is never taken for a body. */
  lemma CutFrame(body: seq<byte>, p: nat)
    requires |body| < SIZES && p < |Frame(body)|
    ensures Bodies(Frame(body)[..p]) == []
  {
    var header := Encode(Header(|body|));
    NothingToRead();
    if p < |header| {
      CutHeader(|body|, p);
      assert Frame(body)[..p] == header[..p];
    } else {
      HeaderIsRead(|body|, body[..p - |header|]);
      assert Frame(body)[..p] == header + body[..p - |header|];
    }
    hide HeadersFrom, Encode, Header;
  }

  /** From any byte prefix of the stream the reader takes exactly the bodies that arrived whole. */
  lemma {:induction false} PrefixDecodes(bodies: seq<seq<byte>>, n: nat)
    requires n <= |Stream(bodies)| && forall i :: 0 <= i < |bodies| ==> |bodies[i]| < SIZES
    ensures Bodies(Stream(bodies)[..n]) == NonEmpty(Complete(bodies, n))
  {
    hide Frame, HeadersFrom;
    if bodies == [] {
      NothingToRead();
    } else {
      var body, rest := bodies[0], bodies[1..];
      var frame := Frame(body);
      if n < |frame| {
        CutFrame(body, n);
        assert Stream(bodies)[..n] == frame[..n];
      } else {
        PrefixDecodes(rest, n - |frame|);
        FrameIsRead(body, Stream(rest)[..n - |frame|]);
        assert Stream(bodies)[..n] == frame + Stream(rest)[..n - |frame|];
        var complete := Complete(rest, n - |frame|);
        assert ([body] + complete)[1..] == complete;
        hide Bodies;
      }
    }
  }

  lemma {:induction false} NonEmptyKeeps(bodies: seq<seq<byte>>)
    requires [] !in bodies
    ensures NonEmpty(bodies) == bodies
  {
    if bodies != [] {
      NonEmptyKeeps(bodies[1..]);
    }
  }

  lemma {:induction false} CompleteOfAll(bodies: seq<seq<byte>>)
    ensures Complete(bodies, |Stream(bodies)|) == bodies
  {
    if bodies != [] {
      CompleteOfAll(bodies[1..]);
      hide Frame;
    }
  }

  /** Decoding what the writer writes gives back exactly the bodies, in order. */
  lemma StreamRoundTrip(bodies: seq<seq<byte>>)
    requires forall i :: 0 <= i < |bodies| ==> 0 < |bodies[i]| < SIZES
    ensures Bodies(Stream(bodies)) == bodies
  {
    PrefixDecodes(bodies, |Stream(bodies)|);
    CompleteOfAll(bodies);
    NonEmptyKeeps(bodies);
    assert Stream(bodies)[..|Stream(bodies)|] == Stream(bodies);
  }

  /** Over a pipe that breaks anywhere the reader gets a prefix of the bodies, each of them whole. */
  lemma BrokenPipe(bodies: seq<seq<byte>>, capacity: nat)
    requires forall i :: 0 <= i < |bodies| ==> 0 < |bodies[i]| < SIZES
    ensures Bodies(Cut(Stream(bodies), capacity)) == Complete(bodies, capacity) <= bodies
  {
    var n := |Cut(Stream(bodies), capacity)|;
    assert Cut(Stream(bodies), capacity) == Stream(bodies)[..n];
    PrefixDecodes(bodies, n);
    NonEmptyKeeps(Complete(bodies, n));
    if capacity > n {
      MoreCapacity(bodies, capacity);
      CompleteOfAll(bodies);
    }
  }

  lemma {:induction false} MoreCapacity(bodies: seq<seq<byte>>, capacity: nat)
    requires capacity >= |Stream(bodies)|
    ensures Complete(bodies, capacity) == bodies
  {
    if bodies != [] {
      MoreCapacity(bodies[1..], capacity - |Frame(bodies[0])|);
      hide Frame;
    }
  }

  // ----- The format -----

  /** A frame is the length of the body in decimal, in one header line, an empty line, and the body. */
  lemma FrameFormat(body: seq<byte>)
    ensures Frame(body) == Encode("Content-Length: " + Decimal(|body|) + "\r\n" + "\r\n") + body
  {
    hide Encode, Decimal;
    assert Header(|body|) == "Content-Length: " + Decimal(|body|) + "\r\n" + "\r\n" by {
      assert CONTENT_LENGTH + " " == "Content-Length: ";
    }
  }

  /** Decimal numbers: the digits amount to the number, and only zero begins with a zero. */
  lemma {:induction false} DecimalExactly(n: nat)
    ensures DigitsValue(Decimal(n)) == n
    ensures Decimal(n)[0] == '0' ==> n == 0
  {
    DecimalValue(n);
    if n >= 10 {
      DecimalExactly(n / 10);
    }
  }

  /** The value of digits is positional, most significant first. */
  lemma DigitsExactly(s: string, c: char)
    requires (s == "" || AllDigits(s)) && '0' <= c <= '9'
    ensures DigitsValue("") == 0
    ensures AllDigits(s + [c]) && DigitsValue(s + [c]) == 10 * DigitsValue(s) + (c as int - 48)
  {
    assert (s + [c])[..|s|] == s;
  }

  /** A length is read from digits, with or without a plus sign before them, if it is below 2^64; nothing else is a length. */
  lemma ParseSizeExactly(s: string)
    ensures AllDigits(s) ==> ParseSize(s) == if DigitsValue(s) < 0x1_0000_0000_0000_0000 then Some(DigitsValue(s)) else None
    ensures s != "" && s[0] == '+' && AllDigits(s[1..]) ==>
              ParseSize(s) == if DigitsValue(s[1..]) < 0x1_0000_0000_0000_0000 then Some(DigitsValue(s[1..])) else None
    ensures !AllDigits(s) && !(s != "" && s[0] == '+' && AllDigits(s[1..])) ==> ParseSize(s) == None
  {
    assert AllDigits(s) ==> IsDigit(s[0]);
    hide DigitsValue, AllDigits;
  }

  predicate OnlyCrs(s: string) {
    forall i :: 0 <= i < |s| ==> s[i] == '\r'
  }

  lemma {:induction false} EndOfLine(t: string, crs: string)
    requires (t == "" || (t[|t| - 1] != '\r' && t[|t| - 1] != '\n')) && OnlyCrs(crs)
    ensures TrimLineEnd(t + crs) == t
  {
    hide TrimLineEnd;
    if crs == "" {
      NothingToTrim(t);
      assert t + crs == t;
    } else {
      var n := |crs| - 1;
      EndOfLine(t, crs[..n]);
      TrimOneEnd(t + crs[..n], crs[n]);
      assert t + crs == t + crs[..n] + [crs[n]];
    }
  }

  lemma NothingToTrim(t: string)
    requires t == "" || (t[|t| - 1] != '\r' && t[|t| - 1] != '\n')
    ensures TrimLineEnd(t) == t
  {
  }

  /**
   * Whatever header line a server sends, with or without carriage returns before its newline: an empty one ends the
   * header part with the length known so far, zero if none is; one that names a content length sets what is known, to
   * nothing if it is malformed; any other is passed over.
   */
  lemma HeaderEffect(t: string, crs: string, tail: seq<byte>, known: Option<nat>)
    requires '\n' !in t && (t == "" || t[|t| - 1] != '\r') && OnlyCrs(crs)
    ensures HeadersFrom(Encode(t + crs + ['\n']) + tail, known) ==
            if t == "" then Length(if known.Some? then known.value else 0, tail)
            else HeadersFrom(tail, if "Content-Length:" <= t then ParseSize(Trim(t[15..])) else known)
  {
    HeaderLine(t + crs, tail, known);
    TrimOneEnd(t + crs, '\n');
    EndOfLine(t, crs);
    LengthLineNamed(t, known);
    hide HeadersFrom, Encode, TrimLineEnd, LengthAfter, ParseSize, Trim;
  }

  lemma LengthLineNamed(t: string, known: Option<nat>)
    ensures LengthAfter(t, known) == if "Content-Length:" <= t then ParseSize(Trim(t[15..])) else known
  {
    hide ParseSize, Trim;
  }

  /** A header line that is not UTF-8 ends the reading. */
  lemma GarbledEnds(line: seq<byte>, tail: seq<byte>, known: Option<nat>)
    requires NEWLINE !in line && !IsUtf8(line + [NEWLINE])
    ensures HeadersFrom(line + [NEWLINE] + tail, known) == Garbled
  {
    var b := line + [NEWLINE] + tail;
    FirstByte(b, line, NEWLINE, tail);
    assert b[..|line| + 1] == line + [NEWLINE];
    hide Encode, Decode;
  }

  /** What follows a header part: nothing for length zero, the body if it is all there, else the end. */
  lemma BodyFollows(b: seq<byte>, n: nat, rest: seq<byte>)
    requires HeadersFrom(b, None) == Length(n, rest)
    ensures Bodies(b) == if n == 0 then Bodies(rest) else if |rest| < n then [] else [rest[..n]] + Bodies(rest[n..])
  {
    hide HeadersFrom;
  }
}
