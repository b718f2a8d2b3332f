/** Whitespace handling of the Rust string library, as far as the project relies on it. */
module Text {

  /** The Unicode White_Space property, which `trim` and `split_whitespace` use. */
  predicate IsSpace(c: char) {
    var n := c as int;
    || 0x9 <= n <= 0xD || n == 0x20 || n == 0x85 || n == 0xA0 || n == 0x1680
    || 0x2000 <= n <= 0x200A || n == 0x2028 || n == 0x2029 || n == 0x202F
    || n == 0x205F || n == 0x3000
  }

  function TrimStart(s: string): (r: string)
    ensures r != [] ==> !IsSpace(r[0])
    ensures |r| <= |s| && r == s[|s| - |r|..]
    ensures forall i :: 0 <= i < |s| - |r| ==> IsSpace(s[i])
  {
    if s != [] && IsSpace(s[0]) then TrimStart(s[1..]) else s
  }

  function TrimEnd(s: string): (r: string)
    ensures r != [] ==> !IsSpace(r[|r| - 1])
    ensures |r| <= |s| && r == s[..|r|]
    ensures forall i :: |r| <= i < |s| ==> IsSpace(s[i])
  {
    if s != [] && IsSpace(s[|s| - 1]) then TrimEnd(s[..|s| - 1]) else s
  }

  function Trim(s: string): (r: string)
    ensures r != [] ==> !IsSpace(r[0]) && !IsSpace(r[|r| - 1])
    ensures forall c <- r :: c in s
    ensures s != [] && !IsSpace(s[0]) ==> r <= s
  {
    TrimEnd(TrimStart(s))
  }

  predicate IsWord(w: string) {
    w != [] && forall i :: 0 <= i < |w| ==> !IsSpace(w[i])
  }

  /** Length of the run of non-space characters `s` starts with. */
  function WordLength(s: string): (n: nat)
    ensures n <= |s|
    ensures forall i :: 0 <= i < n ==> !IsSpace(s[i])
    ensures n < |s| ==> IsSpace(s[n])
  {
    if s == [] || IsSpace(s[0]) then 0 else 1 + WordLength(s[1..])
  }

  /** `split_whitespace`: the maximal runs of non-space characters, in order. */
  function Words(s: string): (ws: seq<string>)
    ensures forall w <- ws :: IsWord(w)
    decreases |s|
  {
    if s == [] then []
    else if IsSpace(s[0]) then Words(s[1..])
    else
      var n := WordLength(s);
      [s[..n]] + Words(s[n..])
  }

  function JoinWords(ws: seq<string>): string {
    if ws == [] then ""
    else if |ws| == 1 then ws[0]
    else ws[0] + " " + JoinWords(ws[1..])
  }

  /** Whitespace-insensitive form of a screen: its words, single spaces between them. */
  function CollapseSpace(s: string): string {
    JoinWords(Words(s))
  }

  /** Words are joined by single spaces. */
  lemma JoinExactly(w: string, ws: seq<string>)
    ensures JoinWords([]) == ""
    ensures JoinWords([w] + ws) == if ws == [] then w else w + " " + JoinWords(ws)
  {
    assert ([w] + ws)[1..] == ws;
  }

  lemma WordLengthOfWord(w: string, rest: string)
    requires IsWord(w)
    requires rest == [] || IsSpace(rest[0])
    ensures WordLength(w + rest) == |w|
  {
    assert forall i :: 0 <= i < |w| ==> (w + rest)[i] == w[i];
    assert rest != [] ==> (w + rest)[|w|] == rest[0];
  }

  lemma {:induction false} WordsOfJoin(ws: seq<string>)
    requires forall w <- ws :: IsWord(w)
    ensures Words(JoinWords(ws)) == ws
  {
    if ws == [] {
    } else {
      var rest := if |ws| == 1 then "" else " " + JoinWords(ws[1..]);
      var s := JoinWords(ws);
      assert s == ws[0] + rest;
      assert IsWord(ws[0]);
      WordLengthOfWord(ws[0], rest);
      assert s[..|ws[0]|] == ws[0] && s[|ws[0]|..] == rest;
      WordsOfJoin(ws[1..]);
      if |ws| > 1 {
        assert rest[1..] == JoinWords(ws[1..]);
      }
      assert Words(s) == [ws[0]] + Words(rest);
      assert ws == [ws[0]] + ws[1..];
    }
  }

  /** Two screens collapse to the same text exactly when they show the same words. */
  lemma CollapseIgnoresRedraws(a: string, b: string)
    ensures CollapseSpace(a) == CollapseSpace(b) <==> Words(a) == Words(b)
  {
    WordsOfJoin(Words(a));
    WordsOfJoin(Words(b));
  }

  /** Position of the first `c` in `s`, or the length of `s`. */
  function Find(s: string, c: char): (n: nat)
    ensures n <= |s| && c !in s[..n]
    ensures n < |s| ==> s[n] == c
  {
    if s == [] || s[0] == c then 0
    else
      var n := 1 + Find(s[1..], c);
      assert s[..n] == [s[0]] + s[1..][..n - 1];
      n
  }

  lemma FindsExactly(s: string, c: char)
    ensures Find(s, c) == |s| <==> c !in s
  {
    var n := Find(s, c);
    if n < |s| {
      assert s[n] == c;
    } else {
      assert s[..n] == s;
    }
  }

  lemma {:induction false} FindFirst(s: string, t: string, c: char)
    requires c !in s
    ensures Find(s + [c] + t, c) == |s|
  {
    var whole := s + [c] + t;
    assert whole[|s|] == c;
    assert forall i :: 0 <= i < |s| ==> whole[i] == s[i];
    assert forall i :: 0 <= i < Find(whole, c) ==> whole[i] == whole[..Find(whole, c)][i];
  }

  function StripCr(s: string): string {
    if s != [] && s[|s| - 1] == '\r' then s[..|s| - 1] else s
  }

  /** `str::lines`: newline ends a line and takes a carriage return before it along. */
  function Lines(s: string): (ls: seq<string>)
    ensures forall l <- ls :: '\n' !in l
    decreases |s|
  {
    if s == [] then []
    else
      var n := Find(s, '\n');
      if n == |s| then assert s[..n] == s; [s] else [StripCr(s[..n])] + Lines(s[n + 1..])
  }

  /** No text has no lines, and what follows the last newline is a line if there is anything. */
  lemma LinesAtEnd(s: string)
    requires '\n' !in s
    ensures Lines(s) == if s == "" then [] else [s]
  {
    assert s[..|s|] == s;
  }

  lemma LinesOfFirst(head: string, tail: string)
    requires '\n' !in head
    ensures Lines(head + ['\n'] + tail) == [StripCr(head)] + Lines(tail)
  {
    FindFirst(head, tail, '\n');
    var s := head + ['\n'] + tail;
    assert s[..|head|] == head && s[|head| + 1..] == tail;
  }

  /** A newline ends a line, one carriage return right before it goes with it, and the rest follows. */
  lemma LinesAtNewline(head: string, tail: string)
    requires '\n' !in head
    ensures Lines(head + ['\r'] + ['\n'] + tail) == [head] + Lines(tail)
    ensures head == "" || head[|head| - 1] != '\r' ==> Lines(head + ['\n'] + tail) == [head] + Lines(tail)
  {
    LinesOfFirst(head, tail);
    LinesOfFirst(head + ['\r'], tail);
    assert (head + ['\r'])[..|head|] == head;
    hide Lines;
  }

  predicate AllSpaces(s: string) {
    forall i :: 0 <= i < |s| ==> IsSpace(s[i])
  }

  lemma TrimStartStep(c: char, rest: string)
    ensures TrimStart([c] + rest) == if IsSpace(c) then TrimStart(rest) else [c] + rest
  {
    hide IsSpace;
    assert ([c] + rest)[1..] == rest;
  }

  lemma TrimEndStep(rest: string, c: char)
    ensures TrimEnd(rest + [c]) == if IsSpace(c) then TrimEnd(rest) else rest + [c]
  {
    hide IsSpace;
    assert (rest + [c])[..|rest|] == rest;
  }

  lemma {:induction false} TrimStartDrops(left: string, rest: string)
    requires AllSpaces(left)
    ensures TrimStart(left + rest) == TrimStart(rest)
  {
    hide IsSpace, TrimStart;
    if left == "" {
      assert left + rest == rest;
    } else {
      TrimStartDrops(left[1..], rest);
      TrimStartStep(left[0], left[1..] + rest);
      assert left + rest == [left[0]] + (left[1..] + rest);
    }
  }

  lemma {:induction false} TrimEndDrops(rest: string, right: string)
    requires AllSpaces(right)
    ensures TrimEnd(rest + right) == TrimEnd(rest)
  {
    hide IsSpace, TrimEnd;
    if right == "" {
      assert rest + right == rest;
    } else {
      var n := |right| - 1;
      TrimEndDrops(rest, right[..n]);
      TrimEndStep(rest + right[..n], right[n]);
      assert rest + right == rest + right[..n] + [right[n]];
    }
  }

  lemma TrimOfTrimmed(core: string, right: string)
    requires core != "" && !IsSpace(core[0]) && !IsSpace(core[|core| - 1])
    ensures TrimStart(core + right) == core + right && TrimEnd(core) == core
  {
    hide IsSpace, TrimStart, TrimEnd;
    var n := |core| - 1;
    TrimStartStep(core[0], core[1..] + right);
    assert core + right == [core[0]] + (core[1..] + right);
    TrimEndStep(core[..n], core[n]);
    assert core == core[..n] + [core[n]];
  }

  lemma TrimOfNothing()
    ensures TrimStart("") == "" && TrimEnd("") == ""
  {
  }

  /** Trimming takes the spaces off both ends and nothing else. */
  lemma TrimExactly(left: string, core: string, right: string)
    requires AllSpaces(left) && AllSpaces(right)
    requires core == "" || (!IsSpace(core[0]) && !IsSpace(core[|core| - 1]))
    ensures core != "" ==> TrimStart(left + core + right) == core + right
    ensures Trim(left + core + right) == core
  {
    hide *;
    assert left + core + right == left + (core + right);
    if core != "" {
      TrimAround(left, core, right);
    } else {
      assert core + right == right;
      TrimOfSpaces(left, right);
    }
  }

  lemma TrimAround(left: string, core: string, right: string)
    requires AllSpaces(left) && AllSpaces(right)
    requires core != "" && !IsSpace(core[0]) && !IsSpace(core[|core| - 1])
    ensures TrimStart(left + (core + right)) == core + right
    ensures Trim(left + (core + right)) == core
  {
    hide *;
    TrimInTwo(left + (core + right));
    TrimStartDrops(left, core + right);
    TrimOfTrimmed(core, right);
    TrimEndDrops(core, right);
  }

  lemma TrimOfSpaces(left: string, right: string)
    requires AllSpaces(left) && AllSpaces(right)
    ensures Trim(left + right) == ""
  {
    hide *;
    TrimInTwo(left + right);
    TrimStartDrops(left, right);
    assert right + "" == right;
    TrimStartDrops(right, "");
    TrimOfNothing();
  }

  lemma TrimInTwo(s: string)
    ensures Trim(s) == TrimEnd(TrimStart(s))
  {
  }
}
