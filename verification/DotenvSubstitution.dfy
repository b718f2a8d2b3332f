/** One-pass substitution of `${NAME}` and `${NAME:-fallback}` references. */
module DotenvSubstitution {
  import opened Text
  import opened Utf8

  // ----- References -----

  const FALLBACK := ":-"

  /** Position of the first `:-` of a token, or its length. */
  function FindFallback(token: string): (n: nat)
    ensures n <= |token|
    ensures n < |token| ==> FALLBACK <= token[n..]
    ensures forall i :: 0 <= i < n ==> !(FALLBACK <= token[i..])
  {
    if token == [] || FALLBACK <= token then 0
    else
      var n := 1 + FindFallback(token[1..]);
      assert forall i :: 1 <= i <= |token| ==> token[i..] == token[1..][i - 1..];
      n
  }

  predicate HasFallback(token: string) {
    FindFallback(token) < |token|
  }

  function Reference(token: string): string {
    "${" + token + "}"
  }

  function ResolveToken(token: string, vars: map<string, string>): string {
    var n := FindFallback(token);
    if n < |token| then
      var name, fallback := token[..n], token[n + 2..];
      if name in vars && vars[name] != "" then vars[name] else fallback
    else if token in vars then vars[token]
    else Reference(token)
  }

  lemma FallbackAt(s: string, i: nat)
    requires i <= |s|
    ensures FALLBACK <= s[i..] <==> i + 1 < |s| && s[i] == ':' && s[i + 1] == '-'
  {
  }

  lemma FallbackOfParts(name: string, fallback: string)
    requires !HasFallback(name)
    ensures FindFallback(name + FALLBACK + fallback) == |name|
  {
    var token := name + FALLBACK + fallback;
    assert token[|name|] == ':' && token[|name| + 1] == '-';
    FallbackAt(token, |name|);
    forall i | 0 <= i < |name| ensures !(FALLBACK <= token[i..]) {
      FallbackAt(name, i);
      FallbackAt(token, i);
      assert !(FALLBACK <= name[i..]);
      assert token[i] == name[i] && token[i + 1] == if i + 1 < |name| then name[i + 1] else ':';
    }
  }

  /** A reference with a fallback reads as the variable if that is set and not empty, else as the fallback; one without as the variable if set, even to nothing. */
  lemma ResolvesFallback(name: string, fallback: string, vars: map<string, string>)
    requires !HasFallback(name)
    ensures ResolveToken(name + FALLBACK + fallback, vars) ==
            if name in vars && vars[name] != "" then vars[name] else fallback
    ensures ResolveToken(name, vars) == if name in vars then vars[name] else Reference(name)
  {
    FallbackOfParts(name, fallback);
    var token := name + FALLBACK + fallback;
    assert token[..|name|] == name && token[|name| + 2..] == fallback;
  }

  // ----- What a value consists of -----

  datatype Piece = Copied(c: char) | Ref(token: string)

  /** The text begins with a closed reference. */
  predicate StartsRef(s: string) {
    |s| >= 2 && s[0] == '$' && s[1] == '{' && '}' in s[2..]
  }

  function Unparse(ps: seq<Piece>): string {
    if ps == [] then ""
    else (match ps[0] case Copied(c) => [c] case Ref(token) => Reference(token)) + Unparse(ps[1..])
  }

  /** References reach to the next brace, and no character that begins one is taken for an ordinary one. */
  predicate Canonical(ps: seq<Piece>) {
    ps != [] ==>
      && (match ps[0]
          case Copied(_) => !StartsRef(Unparse(ps))
          case Ref(token) => '}' !in token)
      && Canonical(ps[1..])
  }

  /** The first reference of a text that starts with one, and what follows it. */
  function SplitRef(s: string): (r: (string, string))
    requires StartsRef(s)
    ensures s == Reference(r.0) + r.1 && '}' !in r.0
  {
    var n := Find(s[2..], '}');
    assert n < |s[2..]| by { assert s[2..][..|s[2..]|] == s[2..]; }
    assert s == "${" + s[2..];
    (s[2..][..n], s[2..][n + 1..])
  }

  lemma SplitRefOf(token: string, tail: string)
    requires '}' !in token
    ensures StartsRef(Reference(token) + tail) && SplitRef(Reference(token) + tail) == (token, tail)
  {
    var s, t := Reference(token) + tail, token + ['}'] + tail;
    assert s[2..] == t && t[|token|] == '}';
    FindFirst(token, tail, '}');
    assert t[..|token|] == token && t[|token| + 1..] == tail;
  }

  function Pieces(s: string): (ps: seq<Piece>)
    decreases |s|
  {
    if s == [] then []
    else if StartsRef(s) then [Ref(SplitRef(s).0)] + Pieces(SplitRef(s).1)
    else [Copied(s[0])] + Pieces(s[1..])
  }

  lemma {:induction false} PiecesAreCanonical(s: string)
    ensures Unparse(Pieces(s)) == s && Canonical(Pieces(s))
    decreases |s|
  {
    hide StartsRef, SplitRef;
    if s != [] {
      if StartsRef(s) {
        PiecesAreCanonical(SplitRef(s).1);
        assert Pieces(s)[1..] == Pieces(SplitRef(s).1);
      } else {
        PiecesAreCanonical(s[1..]);
        assert Pieces(s)[1..] == Pieces(s[1..]);
      }
    }
  }

  /** There is only one such reading of a text. */
  lemma {:induction false} PiecesAreUnique(ps: seq<Piece>)
    requires Canonical(ps)
    ensures Pieces(Unparse(ps)) == ps
  {
    hide StartsRef, SplitRef, Reference;
    if ps != [] {
      PiecesAreUnique(ps[1..]);
      match ps[0]
      case Copied(c) =>
        assert Unparse(ps) == [c] + Unparse(ps[1..]);
      case Ref(token) =>
        SplitRefOf(token, Unparse(ps[1..]));
        assert Unparse(ps) == Reference(token) + Unparse(ps[1..]);
        assert Unparse(ps) != [] by { RefIsNotEmpty(token, Unparse(ps[1..])); }
    }
  }

  lemma RefIsNotEmpty(token: string, tail: string)
    ensures Reference(token) + tail != []
  {
  }

  // ----- What comes out -----

  /** The pieces in order: references resolved, other characters copied, nothing read twice. */
  function Expand(ps: seq<Piece>, vars: map<string, string>, copy: char -> string): string {
    if ps == [] then ""
    else
      (match ps[0] case Copied(c) => copy(c) case Ref(token) => ResolveToken(token, vars))
      + Expand(ps[1..], vars, copy)
  }

  function Plain(c: char): string {
    [c]
  }

  /** Each byte read as the character of that number. */
  function Latin(b: seq<byte>): string {
    seq(|b|, i requires 0 <= i < |b| => b[i] as char)
  }

  function LatinChar(c: char): string {
    Latin(EncodeChar(c))
  }

  /** What a reader expects of a value. */
  function Expanded(s: string, vars: map<string, string>): string {
    Expand(Pieces(s), vars, Plain)
  }

  /** What the program computes: copied characters pass through one byte at a time. */
  function Substituted(s: string, vars: map<string, string>): string {
    Expand(Pieces(s), vars, LatinChar)
  }

  predicate CopiesAscii(ps: seq<Piece>) {
    forall i :: 0 <= i < |ps| && ps[i].Copied? ==> ps[i].c as int < 0x80
  }

  lemma CopyOfChar(c: char)
    ensures |LatinChar(c)| >= 1
    ensures LatinChar(c) == [c] <==> c as int < 0x80
    ensures |LatinChar(c)| == 1 <==> c as int < 0x80
  {
  }

  lemma {:induction false} CopiesLengthen(ps: seq<Piece>, vars: map<string, string>)
    ensures |Expand(ps, vars, LatinChar)| >= |Expand(ps, vars, Plain)|
    ensures |Expand(ps, vars, LatinChar)| == |Expand(ps, vars, Plain)| ==> CopiesAscii(ps)
    ensures CopiesAscii(ps) ==> Expand(ps, vars, LatinChar) == Expand(ps, vars, Plain)
  {
    if ps != [] {
      CopiesLengthen(ps[1..], vars);
      assert CopiesAscii(ps) <==> CopiesAscii(ps[1..]) && (ps[0].Copied? ==> ps[0].c as int < 0x80);
      if ps[0].Copied? {
        CopyOfChar(ps[0].c);
      }
      hide LatinChar, ResolveToken, CopiesAscii;
    }
  }

  /** The program meets the expectation exactly on values that are plain ASCII outside their references. */
  lemma SubstitutedAsExpectedExactly(s: string, vars: map<string, string>)
    ensures Substituted(s, vars) == Expanded(s, vars) <==> CopiesAscii(Pieces(s))
  {
    CopiesLengthen(Pieces(s), vars);
  }

  predicate IsAscii(s: string) {
    forall i :: 0 <= i < |s| ==> s[i] as int < 0x80
  }

  lemma {:induction false} CopiesOfAscii(s: string)
    requires IsAscii(s)
    ensures CopiesAscii(Pieces(s))
    decreases |s|
  {
    if s != [] {
      if StartsRef(s) {
        AsciiSuffix(s, SplitRef(s).1);
        CopiesOfAscii(SplitRef(s).1);
        FirstPiece(Ref(SplitRef(s).0), Pieces(SplitRef(s).1));
      } else {
        AsciiSuffix(s, s[1..]);
        CopiesOfAscii(s[1..]);
        FirstPiece(Copied(s[0]), Pieces(s[1..]));
      }
    }
  }

  lemma AsciiSuffix(s: string, t: string)
    requires IsAscii(s) && |t| <= |s| && t == s[|s| - |t|..]
    ensures IsAscii(t)
  {
  }

  lemma FirstPiece(p: Piece, ps: seq<Piece>)
    ensures CopiesAscii([p] + ps) <==> CopiesAscii(ps) && (p.Copied? ==> p.c as int < 0x80)
  {
    assert forall i :: 0 <= i < |ps| ==> ([p] + ps)[i + 1] == ps[i];
    assert ([p] + ps)[0] == p;
  }

  /** On ASCII values, references and all, the program does what is expected. */
  lemma AsciiAsExpected(s: string, vars: map<string, string>)
    requires IsAscii(s)
    ensures Substituted(s, vars) == Expanded(s, vars)
  {
    CopiesOfAscii(s);
    SubstitutedAsExpectedExactly(s, vars);
  }

  /** No reference can be resolved: none has a fallback, none names a variable. */
  predicate NothingKnown(ps: seq<Piece>, vars: map<string, string>) {
    forall i :: 0 <= i < |ps| && ps[i].Ref? ==> !HasFallback(ps[i].token) && ps[i].token !in vars
  }

  lemma {:induction false} UnknownStays(ps: seq<Piece>, vars: map<string, string>)
    requires NothingKnown(ps, vars)
    ensures Expand(ps, vars, Plain) == Unparse(ps)
  {
    if ps != [] {
      assert NothingKnown(ps[1..], vars);
      UnknownStays(ps[1..], vars);
      assert ps[0].Ref? ==> !HasFallback(ps[0].token) && ps[0].token !in vars;
    }
  }

  /** With nothing to resolve, the value is left as it is exactly if its ordinary characters are ASCII. */
  lemma UnknownIsLeftLiteral(s: string, vars: map<string, string>)
    requires NothingKnown(Pieces(s), vars)
    ensures Expanded(s, vars) == s
    ensures Substituted(s, vars) == s <==> CopiesAscii(Pieces(s))
  {
    UnknownStays(Pieces(s), vars);
    PiecesAreCanonical(s);
    SubstitutedAsExpectedExactly(s, vars);
  }

  /** A value the program garbles although it holds no reference: a single character outside ASCII. */
  lemma NonAsciiIsGarbled(c: char, vars: map<string, string>)
    requires c as int >= 0x80
    ensures Expanded([c], vars) == [c] && Substituted([c], vars) != [c]
  {
    assert Pieces([c]) == [Copied(c)] + Pieces([c][1..]);
    assert NothingKnown(Pieces([c]), vars);
    assert Pieces([c])[0].c == c;
    UnknownIsLeftLiteral([c], vars);
  }

  /** Without references a value comes out as the characters numbered like the bytes it is encoded in. */
  lemma {:induction false} GarbledExactly(s: string, vars: map<string, string>)
    requires '$' !in s
    ensures |Substituted(s, vars)| == |Encode(s)|
    ensures forall k :: 0 <= k < |Encode(s)| ==> Substituted(s, vars)[k] as int == Encode(s)[k]
  {
    if s != [] {
      GarbledExactly(s[1..], vars);
      assert Pieces(s) == [Copied(s[0])] + Pieces(s[1..]);
      assert Pieces(s)[1..] == Pieces(s[1..]);
      hide EncodeChar, Pieces, ResolveToken;
    }
  }

  /** The output is that of the pieces, one after the other. */
  lemma ExpandedInOrder(p: Piece, ps: seq<Piece>, vars: map<string, string>)
    ensures Expand([p] + ps, vars, Plain) ==
            (if p.Ref? then ResolveToken(p.token, vars) else [p.c]) + Expand(ps, vars, Plain)
  {
    assert ([p] + ps)[1..] == ps;
    hide ResolveToken;
  }

  // ----- The loop over bytes -----

  const DOLLAR: byte := 0x24
  const OPEN: byte := 0x7B
  const CLOSE: byte := 0x7D

  predicate StartsRefBytes(b: seq<byte>) {
    |b| >= 2 && b[0] == DOLLAR && b[1] == OPEN && FindByte(b[2..], CLOSE) < |b| - 2
  }

  /** One round of the loop at the bytes still to be read: what it emits and how many bytes it takes. */
  function Round(b: seq<byte>, vars: map<string, string>): (r: (string, nat))
    requires b != []
    ensures 0 < r.1 <= |b|
  {
    if StartsRefBytes(b) then
      var end := FindByte(b[2..], CLOSE);
      (ResolveToken(Decode(b[2..2 + end]), vars), 2 + end + 1)
    else ([b[0] as char], 1)
  }

  /** The loop's result on the bytes still to be read. */
  function SubstitutedBytes(b: seq<byte>, vars: map<string, string>): string
    decreases |b|
  {
    if b == [] then "" else Round(b, vars).0 + SubstitutedBytes(b[Round(b, vars).1..], vars)
  }

  lemma EncodeOfRef(token: string, tail: string)
    ensures Encode(Reference(token) + tail) == [DOLLAR, OPEN] + (Encode(token) + [CLOSE] + Encode(tail))
  {
    var inner := token + (['}'] + tail);
    assert Reference(token) + tail == ['$'] + (['{'] + inner);
    hide Encode, Reference;
    EncodeAscii('$', ['{'] + inner);
    EncodeAscii('{', inner);
    EncodeConcat(token, ['}'] + tail);
    EncodeAscii('}', tail);
  }

  lemma RefBytes(token: string, tail: string, vars: map<string, string>)
    requires '}' !in token
    ensures SubstitutedBytes(Encode(Reference(token) + tail), vars)
         == ResolveToken(token, vars) + SubstitutedBytes(Encode(tail), vars)
  {
    EncodeOfRef(token, tail);
    AsciiInEncode(token, '}');
    DecodeEncode(token);
    hide Encode, Decode, ResolveToken, EncodeChar, Reference;
    RefBytesAre(Encode(Reference(token) + tail), Encode(token), Encode(tail), vars);
  }

  lemma RefBytesAre(b: seq<byte>, token: seq<byte>, tail: seq<byte>, vars: map<string, string>)
    requires b == [DOLLAR, OPEN] + (token + [CLOSE] + tail) && CLOSE !in token
    ensures SubstitutedBytes(b, vars) == ResolveToken(Decode(token), vars) + SubstitutedBytes(tail, vars)
  {
    var t := token + [CLOSE] + tail;
    assert b[2..] == t;
    FirstByte(t, token, CLOSE, tail);
    hide Decode, ResolveToken, FindByte;
    assert b[2..2 + |token|] == token;
    assert b[2 + |token| + 1..] == tail;
  }

  /** A reference begins in the bytes exactly where one begins in the text. */
  lemma StartsRefEncoded(s: string)
    ensures StartsRefBytes(Encode(s)) ==> StartsRef(s)
  {
    if StartsRefBytes(Encode(s)) {
      FirstCharOf(s, '$');
      FirstCharOf(s[1..], '{');
      assert Encode(s)[2..] == Encode(s[2..]);
      AsciiInEncode(s[2..], '}');
    }
  }

  lemma FirstCharOf(s: string, c: char)
    requires Encode(s) != [] && Encode(s)[0] == c as int && c as int < 0x80
    ensures s != [] && s[0] == c && Encode(s)[1..] == Encode(s[1..])
  {
  }

  lemma HighByteIsCopied(x: byte, b: seq<byte>, vars: map<string, string>)
    requires x >= 0x80
    ensures SubstitutedBytes([x] + b, vars) == [x as char] + SubstitutedBytes(b, vars)
  {
    assert ([x] + b)[1..] == b;
  }

  lemma {:induction false} HighBytesAreCopied(front: seq<byte>, b: seq<byte>, vars: map<string, string>)
    requires forall k :: 0 <= k < |front| ==> front[k] >= 0x80
    ensures SubstitutedBytes(front + b, vars) == Latin(front) + SubstitutedBytes(b, vars)
  {
    hide SubstitutedBytes;
    if front == [] {
      assert front + b == b;
    } else {
      HighBytesAreCopied(front[1..], b, vars);
      HighByteIsCopied(front[0], front[1..] + b, vars);
      assert front + b == [front[0]] + (front[1..] + b);
      assert Latin(front) == [front[0] as char] + Latin(front[1..]);
    }
  }

  lemma CopiedBytes(s: string, vars: map<string, string>)
    requires s != [] && !StartsRef(s)
    ensures SubstitutedBytes(Encode(s), vars) == LatinChar(s[0]) + SubstitutedBytes(Encode(s[1..]), vars)
  {
    StartsRefEncoded(s);
    var b, rest := EncodeChar(s[0]), Encode(s[1..]);
    assert Encode(s) == b + rest;
    if s[0] as int < 0x80 {
      OrdinaryByte(b + rest, vars);
      assert (b + rest)[1..] == rest;
    } else {
      HighBytesAreCopied(b, rest, vars);
    }
    hide StartsRef, StartsRefBytes, Encode, EncodeChar, SubstitutedBytes;
  }

  lemma OrdinaryByte(b: seq<byte>, vars: map<string, string>)
    requires b != [] && !StartsRefBytes(b)
    ensures SubstitutedBytes(b, vars) == [b[0] as char] + SubstitutedBytes(b[1..], vars)
  {
  }

  lemma {:induction false} BytesFollowPieces(s: string, vars: map<string, string>)
    ensures SubstitutedBytes(Encode(s), vars) == Substituted(s, vars)
    decreases |s|
  {
    if s != [] {
      hide SubstitutedBytes, ResolveToken, LatinChar;
      if StartsRef(s) {
        var (token, tail) := SplitRef(s);
        RefBytes(token, tail, vars);
        BytesFollowPieces(tail, vars);
        assert Pieces(s)[1..] == Pieces(tail);
      } else {
        CopiedBytes(s, vars);
        BytesFollowPieces(s[1..], vars);
        assert Pieces(s)[1..] == Pieces(s[1..]);
      }
      hide SplitRef, StartsRef, Encode;
    }
  }

  /** The same round, in positions: what is emitted at byte `i` and where the loop goes on. */
  function RoundAt(b: seq<byte>, i: nat, vars: map<string, string>): (r: (string, nat))
    requires i < |b|
    ensures i < r.1 <= |b|
  {
    var (piece, taken) := Round(b[i..], vars);
    (piece, i + taken)
  }

  lemma BytesFrom(b: seq<byte>, i: nat, vars: map<string, string>)
    requires i < |b|
    ensures var (piece, next) := RoundAt(b, i, vars);
            SubstitutedBytes(b[i..], vars) == piece + SubstitutedBytes(b[next..], vars)
  {
    hide SubstitutedBytes, Round;
    UnfoldBytes(b[i..], vars);
    DropTwice(b, i, Round(b[i..], vars).1);
  }

  lemma UnfoldBytes(b: seq<byte>, vars: map<string, string>)
    requires b != []
    ensures SubstitutedBytes(b, vars) == Round(b, vars).0 + SubstitutedBytes(b[Round(b, vars).1..], vars)
  {
    hide Round;
  }

  lemma DropTwice(b: seq<byte>, i: nat, k: nat)
    requires i + k <= |b|
    ensures b[i..][k..] == b[i + k..]
  {
  }

  predicate Completes(out: string, rest: string, whole: string) {
    out + rest == whole
  }

  lemma CompletesMore(out: string, piece: string, rest: string, whole: string)
    requires Completes(out, piece + rest, whole)
    ensures Completes(out + piece, rest, whole)
  {
    assert out + piece + rest == out + (piece + rest);
  }

  method SubstituteIn(input: string, vars: map<string, string>) returns (out: string)
    ensures out == Substituted(input, vars)
  {
    var bytes := Encode(input);
    out := "";
    var i := 0;
    ghost var whole := SubstitutedBytes(bytes, vars);
    assert bytes[0..] == bytes && Completes("", whole, whole);
    hide *;
    while i < |bytes|
      invariant i <= |bytes| && Completes(out, SubstitutedBytes(bytes[i..], vars), whole)
    {
      BytesFrom(bytes, i, vars);
      var (piece, next) := RoundAt(bytes, i, vars);
      CompletesMore(out, piece, SubstitutedBytes(bytes[next..], vars), whole);
      out, i := out + piece, next;
    }
    NothingLeft(bytes[i..], out, whole, vars);
    BytesFollowPieces(input, vars);
  }

  lemma NothingLeft(b: seq<byte>, out: string, whole: string, vars: map<string, string>)
    requires b == [] && Completes(out, SubstitutedBytes(b, vars), whole)
    ensures out == whole
  {
  }
}
