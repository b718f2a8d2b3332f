/** Round trips of the dotenv parser and what a merge means. */
module DotenvLaws {
  import opened Options
  import opened Text
  import opened Dotenv

  // ----- Parse after render -----

  predicate EndsWithCr(s: string) {
    s != [] && s[|s| - 1] == '\r'
  }

  /** A key as the parser leaves it: trimmed, well started, without `=`. */
  predicate ParsedKey(key: string) {
    key != [] && ValidKeyStart(key[0]) && !IsSpace(key[|key| - 1]) && '=' !in key && '\n' !in key
  }

  /** Only a line without the export prefix is read as one. */
  predicate ParsedLine(l: Line) {
    l.KeyValue? ==> ParsedKey(l.key) && (l.exportPrefix || !(EXPORT <= l.key))
  }

  predicate IsSuffix(t: string, s: string) {
    |t| <= |s| && t == s[|s| - |t|..]
  }

  lemma TrimOfKey(key: string)
    requires ParsedKey(key)
    ensures Trim(key) == key
  {
    StartIsNoSpace(key);
    hide IsSpace, TrimStart;
  }

  lemma AssignmentPieces(raw: string, exported: bool, rest: string)
    requires '\n' !in rest
    ensures var l := ParseAssignment(raw, exported, rest);
            && (l.KeyValue? ==> ParsedKey(l.key) && l.exportPrefix == exported && IsSuffix(l.rawValue, rest))
            && (l.KeyValue? && rest != [] && !IsSpace(rest[0]) ==> l.key <= rest)
            && (!l.KeyValue? ==> l == Comment(raw))
  {
    hide IsSpace, Find;
  }

  /** A rendered key line parses back to itself, whatever its value. */
  lemma KeyLineParsesBack(l: Line)
    requires l.KeyValue? && ParsedLine(l)
    ensures ParseLine(RenderLine(l)) == l
  {
    assert RenderLine(l) == "" + ((if l.exportPrefix then EXPORT else "") + (l.key + ['='] + l.rawValue));
    KeyIsProper(l.key);
    hide ParseLine, RenderLine, AllSpaces, IsSpace, ParsedKey;
    assert AllSpaces("") by { NoSpacesAtAll(); }
    AssignmentLine("", l.exportPrefix, l.key, l.rawValue);
  }

  lemma KeyIsProper(key: string)
    requires ParsedKey(key)
    ensures Trim(key) == key && StartsKey(key) && '=' !in key && !IsSpace(key[0]) && key[0] != '#'
  {
    TrimOfKey(key);
    KeyStartIsNoSpace(key[0]);
    hide IsSpace;
  }

  lemma NoSpacesAtAll()
    ensures AllSpaces("")
  {
  }

  lemma StartIsNoSpace(s: string)
    requires s != [] && ValidKeyStart(s[0])
    ensures TrimStart(s) == s
  {
    KeyStartIsNoSpace(s[0]);
    hide IsSpace;
  }

  lemma KeyStartIsNoSpace(c: char)
    requires ValidKeyStart(c)
    ensures !IsSpace(c)
  {
  }

  lemma NoExportInside(key: string, value: string)
    ensures EXPORT <= key + ['='] + value ==> EXPORT <= key
  {
    var s := key + ['='] + value;
    assert s[|key|] == '=';
    assert forall i :: 0 <= i < |key| ==> s[i] == key[i];
  }

  lemma AssignmentIsWellFormed(raw: string, exported: bool, rest: string)
    requires '\n' !in rest
    requires exported || (rest != [] && !IsSpace(rest[0]) && !(EXPORT <= rest))
    ensures var l := ParseAssignment(raw, exported, rest);
            && (if l.KeyValue? then ParsedLine(l) && IsSuffix(l.rawValue, rest) else l == Comment(raw))
  {
    AssignmentPieces(raw, exported, rest);
    hide ParseAssignment, ParsedKey, IsSpace, IsSuffix;
    var l := ParseAssignment(raw, exported, rest);
    if l.KeyValue? && !exported {
      PrefixTransitive(EXPORT, l.key, rest);
    }
  }

  lemma PrefixTransitive(p: string, t: string, s: string)
    requires t <= s
    ensures p <= t ==> p <= s
  {
    if p <= t {
      assert s[..|p|] == t[..|p|];
    }
  }

  lemma SuffixChars(t: string, s: string)
    requires IsSuffix(t, s)
    ensures forall c <- t :: c in s
  {
    assert forall k :: 0 <= k < |t| ==> t[k] == s[|s| - |t| + k];
  }

  lemma SuffixTransitive(t: string, s: string, r: string)
    requires IsSuffix(t, s) && IsSuffix(s, r)
    ensures IsSuffix(t, r)
  {
  }

  lemma RestIsSuffix(raw: string, exported: bool)
    requires exported ==> EXPORT <= TrimStart(raw)
    ensures IsSuffix(if exported then TrimStart(raw)[|EXPORT|..] else TrimStart(raw), raw)
  {
  }

  /** What the parser makes of a line is a well-formed line whose text stays within the raw line. */
  lemma ParsedLineIsWellFormed(raw: string)
    requires '\n' !in raw
    ensures var l := ParseLine(raw);
            && ParsedLine(l)
            && (l.KeyValue? ==> IsSuffix(l.rawValue, raw))
            && (l.Comment? ==> l.text == raw)
  {
    var line := TrimStart(raw);
    hide ParseAssignment, IsSpace, TrimStart, ParsedKey, IsSuffix;
    if line != [] {
      var exported := EXPORT <= line;
      var rest := if exported then line[|EXPORT|..] else line;
      AssignmentIsWellFormed(raw, exported, rest);
      var l := ParseAssignment(raw, exported, rest);
      if l.KeyValue? {
        RestIsSuffix(raw, exported);
        SuffixTransitive(l.rawValue, rest, raw);
      }
    }
  }

  lemma {:induction false} LinesOfRender(ls: seq<Line>)
    requires forall i :: 0 <= i < |ls| ==> '\n' !in RenderLine(ls[i])
    ensures |Lines(Render(ls))| == |ls|
    ensures forall i :: 0 <= i < |ls| ==> Lines(Render(ls))[i] == StripCr(RenderLine(ls[i]))
  {
    if ls != [] {
      LinesOfRender(ls[1..]);
      LinesOfFirst(RenderLine(ls[0]), Render(ls[1..]));
      hide Lines, RenderLine, StripCr;
      assert Render(ls) == RenderLine(ls[0]) + ['\n'] + Render(ls[1..]);
      assert Lines(Render(ls)) == [StripCr(RenderLine(ls[0]))] + Lines(Render(ls[1..]));
    }
  }

  lemma RenderedHasNoNewline(raw: string)
    requires '\n' !in raw
    ensures '\n' !in RenderLine(ParseLine(raw))
  {
    ParsedLineIsWellFormed(raw);
    hide ParseLine, ParsedLine;
    var l := ParseLine(raw);
    if l.KeyValue? {
      SuffixChars(l.rawValue, raw);
      NoNewlineInside(l);
    }
  }

  lemma NoNewlineInside(l: Line)
    requires l.KeyValue? && ParsedLine(l) && '\n' !in l.rawValue
    ensures '\n' !in RenderLine(l)
  {
    assert forall i :: 0 <= i < |EXPORT| ==> EXPORT[i] != '\n';
  }

  /** A parsed line survives losing a final carriage return exactly if it has none. */
  lemma StripCrLosesExactly(raw: string)
    requires '\n' !in raw
    ensures var l := ParseLine(raw);
            ParseLine(StripCr(RenderLine(l))) == l <==> !EndsWithCr(RenderLine(l))
  {
    var l := ParseLine(raw);
    ParsedLineIsWellFormed(raw);
    var text := RenderLine(l);
    match l
    case KeyValue(key, value, exported) =>
      KeyLineParsesBack(l);
      if EndsWithCr(text) {
        CrOfKeyLine(l);
        KeyLineParsesBack(l.(rawValue := value[..|value| - 1]));
      }
      hide ParseLine, RenderLine, ParsedLine;
    case Comment(c) =>
      if EndsWithCr(text) {
        hide ParseLine, ParsedLine;
        assert '\n' !in StripCr(text);
        ParsedLineIsWellFormed(StripCr(text));
      }
    case Blank =>
  }

  lemma CrOfKeyLine(l: Line)
    requires l.KeyValue? && EndsWithCr(RenderLine(l))
    ensures l.rawValue != []
    ensures StripCr(RenderLine(l)) == RenderLine(l.(rawValue := l.rawValue[..|l.rawValue| - 1]))
    ensures EndsWithCr(l.rawValue)
  {
    var text := RenderLine(l);
    assert text[|text| - 1] == if l.rawValue == [] then '=' else l.rawValue[|l.rawValue| - 1];
  }

  /**
   * Rendering and parsing again gives back the lines of a parsed file exactly when none of them ends
   * in a carriage return; in particular always for files without carriage returns.
   */
  lemma RoundTripExactly(content: string)
    ensures Parse(Render(Parse(content))) == Parse(content) <==> NoLineEndsWithCr(Parse(content))
  {
    var ls, raws := Parse(content), Lines(content);
    hide Lines, ParseLine, RenderLine, StripCr, EndsWithCr;
    forall i | 0 <= i < |ls|
      ensures '\n' !in RenderLine(ls[i])
      ensures ParseLine(StripCr(RenderLine(ls[i]))) == ls[i] <==> !EndsWithCr(RenderLine(ls[i]))
    {
      assert raws[i] in raws;
      RenderedHasNoNewline(raws[i]);
      StripCrLosesExactly(raws[i]);
    }
    LinesOfRender(ls);
  }

  predicate NoLineEndsWithCr(ls: seq<Line>) {
    forall i :: 0 <= i < |ls| ==> !EndsWithCr(RenderLine(ls[i]))
  }

  lemma {:induction false} LinesKeepChars(s: string, c: char)
    requires c !in s
    ensures forall l <- Lines(s) :: c !in l
    decreases |s|
  {
    if s != [] {
      var n := Find(s, '\n');
      if n < |s| {
        LinesKeepChars(s[n + 1..], c);
        assert Lines(s) == [StripCr(s[..n])] + Lines(s[n + 1..]);
      } else {
        assert Lines(s) == [s];
      }
    }
  }

  /** Without carriage returns the round trip always holds, so render after parse is idempotent. */
  lemma RoundTripWithoutCr(content: string)
    requires '\r' !in content
    ensures Parse(Render(Parse(content))) == Parse(content)
    ensures Render(Parse(Render(Parse(content)))) == Render(Parse(content))
  {
    var ls, raws := Parse(content), Lines(content);
    LinesKeepChars(content, '\r');
    hide Lines, ParseLine, RenderLine, StripCr, EndsWithCr;
    forall i | 0 <= i < |ls| ensures !EndsWithCr(RenderLine(ls[i])) {
      assert raws[i] in raws;
      LastCharOfLine(raws[i]);
    }
    RoundTripExactly(content);
  }

  lemma LastCharOfLine(raw: string)
    requires '\r' !in raw && '\n' !in raw
    ensures !EndsWithCr(RenderLine(ParseLine(raw)))
  {
    ParsedLineIsWellFormed(raw);
    hide ParseLine;
    var l := ParseLine(raw);
    if l.KeyValue? && EndsWithCr(RenderLine(l)) {
      SuffixChars(l.rawValue, raw);
      CrOfKeyLine(l);
    }
  }

  lemma ParseOfOneLine(head: string)
    requires '\n' !in head
    ensures Parse(head + ['\n']) == [ParseLine(StripCr(head))]
  {
    LinesOfFirst(head, "");
    assert head + ['\n'] + "" == head + ['\n'];
    hide ParseLine, StripCr;
  }

  lemma KeyLineWithCr(l: Line)
    requires l.KeyValue? && EndsWithCr(l.rawValue)
    ensures EndsWithCr(RenderLine(l)) && StripCr(RenderLine(l) + ['\r']) == RenderLine(l)
    ensures Render([l]) == RenderLine(l) + ['\n']
  {
    var text := RenderLine(l);
    assert text[|text| - 1] == l.rawValue[|l.rawValue| - 1];
    assert Render([l]) == text + "\n" + Render([l][1..]);
    hide RenderLine;
  }

  /** The files on which the round trip fails: of two carriage returns before a newline the second is lost. */
  lemma DoubleCrIsLost(l: Line)
    requires l.KeyValue? && ParsedLine(l) && EndsWithCr(l.rawValue) && '\n' !in l.rawValue
    ensures var content := RenderLine(l) + ['\r'] + ['\n'];
            Parse(content) == [l] && Parse(Render([l])) != [l]
  {
    NoNewlineInside(l);
    KeyLineWithCr(l);
    KeyLineParsesBack(l);
    CrOfKeyLine(l);
    var shorter := l.(rawValue := l.rawValue[..|l.rawValue| - 1]);
    KeyLineParsesBack(shorter);
    hide *;
    ParseOfOneLine(RenderLine(l) + ['\r']);
    ParseOfOneLine(RenderLine(l));
  }

  /** A file on which the round trip fails. */
  lemma DoubleCrExample()
    ensures exists content :: Parse(Render(Parse(content))) != Parse(content)
  {
    var l := KeyValue("A", "x\r", false);
    DoubleCrIsLost(l);
    var content := RenderLine(l) + ['\r'] + ['\n'];
    assert Parse(content) == [l];
  }

  // ----- What a line is read as -----

  predicate StartsKey(key: string) {
    key != "" && ('a' <= key[0] <= 'z' || 'A' <= key[0] <= 'Z' || key[0] == '_')
  }

  lemma LineAfterSpaces(left: string, body: string)
    requires AllSpaces(left) && (body == "" || !IsSpace(body[0]))
    ensures TrimStart(left + body) == body
  {
    hide *;
    TrimStartDrops(left, body);
    if body == "" {
      TrimOfNothing();
    } else {
      TrimStartStep(body[0], body[1..]);
      assert [body[0]] + body[1..] == body;
    }
  }

  /** Spaces alone are a blank line; a line whose first other character is `#` is kept as a comment, spaces and all. */
  lemma BlankOrComment(left: string, body: string)
    requires AllSpaces(left)
    requires body == "" || body[0] == '#'
    ensures ParseLine(left + body) == if body == "" then Blank else Comment(left + body)
  {
    hide TrimStart, AllSpaces, ParseAssignment, IsSpace;
    assert !IsSpace('#') by { HashIsNoSpace(); }
    LineAfterSpaces(left, body);
  }

  lemma HashIsNoSpace()
    ensures !IsSpace('#')
  {
  }

  /** Without an equals sign the line is kept as a comment. */
  lemma MalformedLine(left: string, body: string)
    requires AllSpaces(left) && body != "" && !IsSpace(body[0]) && '=' !in body
    ensures ParseLine(left + body) == Comment(left + body)
  {
    hide *;
    LineAfterSpaces(left, body);
    ParseOfLine(left + body, body);
    NoAssignment(left + body, false, body);
    if "export " <= body {
      NoAssignment(left + body, true, body[7..]);
    }
  }

  lemma NoAssignment(raw: string, exported: bool, rest: string)
    requires '=' !in rest
    ensures ParseAssignment(raw, exported, rest) == Comment(raw)
  {
    FindsExactly(rest, '=');
    hide Find, Trim;
  }

  lemma ParseOfLine(raw: string, line: string)
    requires TrimStart(raw) == line && line != ""
    ensures ParseLine(raw) ==
            if line[0] == '#' then Comment(raw)
            else if "export " <= line then ParseAssignment(raw, true, line[7..])
            else ParseAssignment(raw, false, line)
  {
    hide TrimStart, ParseAssignment;
  }

  /**
   * An assignment, possibly exported and indented: the key is what stands before the first equals sign, trimmed, the
   * value all that follows it; with no proper key the line is kept as a comment.
   */
  lemma AssignmentLine(left: string, exported: bool, before: string, value: string)
    requires AllSpaces(left) && '=' !in before
    requires !exported ==> before == "" || (!IsSpace(before[0]) && before[0] != '#' && !("export " <= before))
    ensures var raw := left + ((if exported then "export " else "") + (before + ['='] + value));
            ParseLine(raw) ==
            if StartsKey(Trim(before)) then KeyValue(Trim(before), value, exported) else Comment(raw)
  {
    hide *;
    var rest := before + ['='] + value;
    var body := (if exported then "export " else "") + rest;
    AssignmentParts(left + body, exported, before, value);
    AssignmentStart(exported, before, value);
    LineAfterSpaces(left, body);
    ParseOfLine(left + body, body);
    if exported {
      assert ParseLine(left + body) == ParseAssignment(left + body, true, rest);
    } else {
      assert body == rest;
      assert ParseLine(left + body) == ParseAssignment(left + body, false, rest);
    }
  }

  lemma AssignmentStart(exported: bool, before: string, value: string)
    requires !exported ==> before == "" || (!IsSpace(before[0]) && before[0] != '#' && !("export " <= before))
    ensures var rest := before + ['='] + value;
            var body := (if exported then "export " else "") + rest;
            && body != "" && !IsSpace(body[0]) && body[0] != '#'
            && ("export " <= body <==> exported) && (exported ==> body[7..] == rest)
  {
    var rest := before + ['='] + value;
    var body := (if exported then "export " else "") + rest;
    assert "" + rest == rest;
    assert body[0] == if exported then 'e' else if before == "" then '=' else before[0];
    assert exported ==> body[..7] == "export " && body[7..] == rest;
    NoExportInside(before, value);
  }

  lemma AssignmentParts(raw: string, exported: bool, before: string, value: string)
    requires '=' !in before
    ensures ParseAssignment(raw, exported, before + ['='] + value) ==
            if StartsKey(Trim(before)) then KeyValue(Trim(before), value, exported) else Comment(raw)
  {
    var rest := before + ['='] + value;
    FindFirst(before, value, '=');
    assert rest[..|before|] == before && rest[|before| + 1..] == value;
    hide Find, Trim;
  }

  /** The text of each line, written out, each with its newline. */
  lemma RenderedExactly(ls: seq<Line>, l: Line)
    ensures Render([]) == ""
    ensures l.KeyValue? ==>
              Render(ls + [l]) == Render(ls) + ((if l.exportPrefix then "export " else "") + l.key + "=" + l.rawValue) + "\n"
    ensures l.Comment? ==> Render(ls + [l]) == Render(ls) + l.text + "\n"
    ensures l.Blank? ==> Render(ls + [l]) == Render(ls) + "\n"
  {
    RenderSnoc(ls, l);
    hide Render;
  }

  lemma {:induction false} RenderSnoc(ls: seq<Line>, l: Line)
    ensures Render([]) == ""
    ensures Render(ls + [l]) == Render(ls) + RenderLine(l) + "\n"
  {
    hide RenderLine;
    if ls == [] {
      assert ls + [l] == [l] && [l][1..] == [];
    } else {
      RenderSnoc(ls[1..], l);
      assert (ls + [l])[1..] == ls[1..] + [l];
    }
  }
}
