/** The base protocol of the Language Server Protocol 3.17: header part, content part, and what a reader makes of a cut stream. */
module LspFraming {
  import opened Options
  import opened Text
  import opened Utf8

  // ----- Lengths in decimal -----

  /** Lengths are 64-bit. */
  const SIZES := 0x1_0000_0000_0000_0000

  predicate IsDigit(c: char) {
    '0' <= c <= '9'
  }

  predicate AllDigits(s: string) {
    s != [] && forall i :: 0 <= i < |s| ==> IsDigit(s[i])
  }

  function Decimal(n: nat): (s: string)
    ensures s != [] && forall i :: 0 <= i < |s| ==> IsDigit(s[i])
  {
    var digit := [(n % 10 + '0' as int) as char];
    if n < 10 then digit else Decimal(n / 10) + digit
  }

  function DigitsValue(s: string): nat
    requires forall i :: 0 <= i < |s| ==> IsDigit(s[i])
  {
    if s == [] then 0
    else
      assert IsDigit(s[|s| - 1]);
      10 * DigitsValue(s[..|s| - 1]) + (s[|s| - 1] as int - '0' as int)
  }

  /** `usize::from_str`: digits after an optional plus sign, below the size limit. */
  function ParseSize(s: string): Option<nat> {
    var digits := if s != [] && s[0] == '+' then s[1..] else s;
    if AllDigits(digits) && DigitsValue(digits) < SIZES then Some(DigitsValue(digits)) else None
  }

  lemma {:induction false} DecimalValue(n: nat)
    ensures DigitsValue(Decimal(n)) == n
  {
    var s := Decimal(n);
    if n < 10 {
      assert s[..0] == [];
    } else {
      DecimalValue(n / 10);
      assert s[..|s| - 1] == Decimal(n / 10);
    }
  }

  lemma SizeRoundTrip(n: nat)
    requires n < SIZES
    ensures ParseSize(Decimal(n)) == Some(n)
  {
    DecimalValue(n);
    assert IsDigit(Decimal(n)[0]);
  }

  // ----- Writing -----

  const CONTENT_LENGTH := "Content-Length:"

  function LengthLine(n: nat): string {
    CONTENT_LENGTH + " " + Decimal(n) + "\r\n"
  }

  function Header(n: nat): string {
    LengthLine(n) + "\r\n"
  }

  function Frame(body: seq<byte>): seq<byte> {
    Encode(Header(|body|)) + body
  }

  function Stream(bodies: seq<seq<byte>>): seq<byte> {
    if bodies == [] then [] else Frame(bodies[0]) + Stream(bodies[1..])
  }

  /** The values that serialize, serialized; the writer passes over the others. */
  function Serialized(values: seq<Option<seq<byte>>>): seq<seq<byte>> {
    if values == [] then []
    else (if values[0].Some? then [values[0].value] else []) + Serialized(values[1..])
  }

  // ----- Reading -----

  function TrimLineEnd(s: string): string {
    if s != [] && (s[|s| - 1] == '\r' || s[|s| - 1] == '\n') then TrimLineEnd(s[..|s| - 1]) else s
  }

  const NEWLINE: byte := 10

  /** How many bytes the next line takes, its newline included if it has one. */
  function LineEnd(b: seq<byte>): (n: nat)
    ensures n <= |b| && (b != [] ==> n > 0)
  {
    var n := FindByte(b, NEWLINE);
    if n < |b| then n + 1 else n
  }

  /** What reading a header part ends with: the stream, an undecodable line, or a length and the bytes after it. */
  datatype Headers = Gone | Garbled | Length(n: nat, rest: seq<byte>)

  /** What a header line makes of the length known so far. */
  function LengthAfter(line: string, known: Option<nat>): Option<nat> {
    if CONTENT_LENGTH <= line then ParseSize(Trim(line[|CONTENT_LENGTH|..])) else known
  }

  function HeadersFrom(b: seq<byte>, known: Option<nat>): (h: Headers)
    ensures h.Length? ==> |h.rest| < |b|
    decreases |b|
  {
    var end := LineEnd(b);
    if b == [] then Gone
    else if !IsUtf8(b[..end]) then Garbled
    else
      var line := TrimLineEnd(Decode(b[..end]));
      if line == [] then Length(if known.Some? then known.value else 0, b[end..])
      else HeadersFrom(b[end..], LengthAfter(line, known))
  }

  /** The bodies a reader takes from a stream before it stops. */
  function Bodies(b: seq<byte>): seq<seq<byte>>
    decreases |b|
  {
    match HeadersFrom(b, None)
    case Gone => []
    case Garbled => []
    case Length(n, rest) =>
      if n == 0 then Bodies(rest)
      else if |rest| < n then []
      else [rest[..n]] + Bodies(rest[n..])
  }

  /** The bodies that parse; the reader passes over the others. */
  function Parsed<T>(bodies: seq<seq<byte>>, parse: seq<byte> -> Option<T>): seq<T> {
    if bodies == [] then []
    else (if parse(bodies[0]).Some? then [parse(bodies[0]).value] else []) + Parsed(bodies[1..], parse)
  }

  /** The messages a reader hands on from a stream. */
  function Messages<T>(b: seq<byte>, parse: seq<byte> -> Option<T>): seq<T> {
    Parsed(Bodies(b), parse)
  }

  lemma MessagesStep<T>(b: seq<byte>, parse: seq<byte> -> Option<T>)
    ensures match HeadersFrom(b, None)
            case Gone => Messages(b, parse) == []
            case Garbled => Messages(b, parse) == []
            case Length(n, rest) =>
              if n == 0 then Messages(b, parse) == Messages(rest, parse)
              else if |rest| < n then Messages(b, parse) == []
              else if parse(rest[..n]).None? then Messages(b, parse) == Messages(rest[n..], parse)
              else Messages(b, parse) == [parse(rest[..n]).value] + Messages(rest[n..], parse)
  {
    match HeadersFrom(b, None)
    case Length(n, rest) =>
      if 0 < n <= |rest| {
        assert ([rest[..n]] + Bodies(rest[n..]))[1..] == Bodies(rest[n..]);
      }
    case _ =>
    hide HeadersFrom;
  }

  /** What was handed on and what is still to come make up the whole. */
  predicate Handed<T(==)>(done: seq<T>, rest: seq<T>, whole: seq<T>) {
    done + rest == whole
  }

  lemma HandOn<T>(done: seq<T>, next: T, rest: seq<T>, whole: seq<T>)
    requires Handed(done, [next] + rest, whole)
    ensures Handed(done + [next], rest, whole)
  {
    assert done + [next] + rest == done + ([next] + rest);
  }

  lemma NothingMore<T>(done: seq<T>, whole: seq<T>)
    ensures Handed([], whole, whole)
    ensures Handed(done, [], whole) ==> done == whole
  {
  }

  class FrameReader {
    /** The bytes not read yet. */
    var input: seq<byte>

    constructor (stream: seq<byte>)
      ensures input == stream
    {
      input := stream;
    }

    method ReadHeaders() returns (length: Result<Option<nat>, ()>)
      modifies this
      ensures match HeadersFrom(old(input), None)
              case Gone => length == Ok(None)
              case Garbled => length.Err?
              case Length(n, rest) => length == Ok(Some(n)) && input == rest
    {
      var known: Option<nat> := None;
      while true
        invariant HeadersFrom(input, known) == HeadersFrom(old(input), None)
        decreases |input|
      {
        var line := input[..LineEnd(input)];
        if line == [] {
          return Ok(None);
        }
        if !IsUtf8(line) {
          return Err(());
        }
        input := input[LineEnd(input)..];
        var trimmed := TrimLineEnd(Decode(line));
        if trimmed == [] {
          return Ok(Some(if known.Some? then known.value else 0));
        }
        known := LengthAfter(trimmed, known);
      }
    }

    /** The messages handed on, in order. */
    method ReaderLoop<T(==)>(parse: seq<byte> -> Option<T>) returns (messages: seq<T>)
      modifies this
      ensures messages == Messages(old(input), parse)
    {
      messages := [];
      ghost var whole := Messages(input, parse);
      NothingMore(messages, whole);
      hide *;
      while true
        invariant Handed(messages, Messages(input, parse), whole)
        decreases |input|
      {
        MessagesStep(input, parse);
        NothingMore(messages, whole);
        var length := ReadHeaders();
        if length.Err? || length.value.None? {
          break;
        }
        var n := length.value.value;
        if n == 0 {
          continue;
        }
        if |input| < n {
          break;
        }
        var message := parse(input[..n]);
        input := input[n..];
        if message.Some? {
          HandOn(messages, message.value, Messages(input, parse), whole);
          messages := messages + [message.value];
        }
      }
    }
  }

  // ----- A pipe that breaks after some bytes -----

  function Cut(b: seq<byte>, capacity: nat): seq<byte> {
    if |b| <= capacity then b else b[..capacity]
  }

  lemma SerializedNext(values: seq<Option<seq<byte>>>, i: nat)
    requires i < |values|
    ensures Serialized(values[i..]) ==
            if values[i].Some? then [values[i].value] + Serialized(values[i + 1..]) else Serialized(values[i + 1..])
  {
    assert values[i..][1..] == values[i + 1..];
  }

  lemma StreamStep(written: seq<byte>, values: seq<Option<seq<byte>>>, i: nat, capacity: nat)
    requires i < |values| && values[i].Some?
    ensures var body, all := values[i].value, written + Stream(Serialized(values[i..]));
            var front := written + Encode(Header(|body|));
            && all == front + body + Stream(Serialized(values[i + 1..]))
            && (|front| > capacity ==> Cut(front, capacity) == Cut(all, capacity))
            && (|front + body| > capacity ==> Cut(front + body, capacity) == Cut(all, capacity))
  {
    SerializedNext(values, i);
    var body, rest := values[i].value, Serialized(values[i + 1..]);
    assert ([body] + rest)[1..] == rest;
    hide Encode, Header, Serialized;
    var front := written + Encode(Header(|body|));
    assert Stream([body] + rest) == Frame(body) + Stream(rest);
    assert written + Stream([body] + rest) == front + body + Stream(rest) == front + (body + Stream(rest));
  }

  lemma StreamEnd(written: seq<byte>, values: seq<Option<seq<byte>>>, capacity: nat)
    requires |written| <= capacity
    ensures written + Stream(Serialized(values[|values|..])) == written == Cut(written, capacity)
  {
    assert values[|values|..] == [];
  }

  class FrameWriter {
    var written: seq<byte>
    /** How many bytes the pipe takes before it breaks. */
    const capacity: nat

    constructor (capacity: nat)
      ensures written == [] && this.capacity == capacity
    {
      this.capacity := capacity;
      written := [];
    }

    /** A failing write may have delivered part of its data. */
    method WriteAll(data: seq<byte>) returns (ok: bool)
      requires |written| <= capacity
      modifies this
      ensures |written| <= capacity && (ok <==> |old(written) + data| <= capacity)
      ensures written == if ok then old(written) + data else Cut(old(written) + data, capacity)
    {
      ok := |written| + |data| <= capacity;
      written := Cut(written + data, capacity);
    }

    method WriterLoop(values: seq<Option<seq<byte>>>)
      requires written == []
      modifies this
      ensures written == Cut(Stream(Serialized(values)), capacity)
    {
      ghost var all := Serialized(values);
      assert values[0..] == values && [] + Stream(all) == Stream(all);
      hide Cut, Stream, Header, Encode, Decode, Frame, Serialized;
      for i := 0 to |values|
        invariant |written| <= capacity && written + Stream(Serialized(values[i..])) == Stream(all)
      {
        if values[i].None? {
          SerializedNext(values, i);
          continue;
        }
        var body := values[i].value;
        StreamStep(written, values, i, capacity);
        var ok := WriteAll(Encode(Header(|body|)));
        if !ok {
          return;
        }
        ok := WriteAll(body);
        if !ok {
          return;
        }
      }
      StreamEnd(written, values, capacity);
    }
  }
}
