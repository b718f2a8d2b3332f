/** The dotenv engine: parsing, rendering, lookup, overwriting and merging of lines. */
module Dotenv {
  import opened Options
  import opened Text
  import opened DotenvSubstitution

  datatype Line =
    | KeyValue(key: string, rawValue: string, exportPrefix: bool)
    | Comment(text: string)
    | Blank

  const EXPORT := "export "

  predicate ValidKeyStart(c: char) {
    'a' <= c <= 'z' || 'A' <= c <= 'Z' || c == '_'
  }

  // ----- Parsing -----

  /** The part of a line after the optional export prefix; a malformed one is kept as a comment. */
  function ParseAssignment(raw: string, exported: bool, rest: string): Line {
    var eq := Find(rest, '=');
    if eq == |rest| then Comment(raw)
    else
      var key := Trim(rest[..eq]);
      if key == [] || !ValidKeyStart(key[0]) then Comment(raw)
      else KeyValue(key, rest[eq + 1..], exported)
  }

  function ParseLine(raw: string): Line {
    var line := TrimStart(raw);
    if line == [] then Blank
    else if line[0] == '#' then Comment(raw)
    else if EXPORT <= line then ParseAssignment(raw, true, line[|EXPORT|..])
    else ParseAssignment(raw, false, line)
  }

  function ParseLines(raws: seq<string>): (ls: seq<Line>)
    ensures |ls| == |raws| && forall i :: 0 <= i < |ls| ==> ls[i] == ParseLine(raws[i])
  {
    seq(|raws|, i requires 0 <= i < |raws| => ParseLine(raws[i]))
  }

  function Parse(content: string): seq<Line> {
    ParseLines(Lines(content))
  }

  lemma LinesParsed(content: string, ls: seq<Line>)
    requires |ls| == |Lines(content)| && forall j :: 0 <= j < |ls| ==> ls[j] == ParseLine(Lines(content)[j])
    ensures ls == Parse(content)
  {
    hide Lines, ParseLine;
  }

  // ----- Rendering -----

  function RenderLine(l: Line): string {
    match l
    case KeyValue(key, rawValue, exported) => (if exported then EXPORT else "") + key + "=" + rawValue
    case Comment(text) => text
    case Blank => ""
  }

  function Render(ls: seq<Line>): string {
    if ls == [] then "" else RenderLine(ls[0]) + "\n" + Render(ls[1..])
  }

  // ----- Lookup, overwriting and merging -----

  predicate Defines(l: Line, key: string) {
    l.KeyValue? && l.key == key
  }

  predicate HasKey(ls: seq<Line>, key: string) {
    exists i :: 0 <= i < |ls| && Defines(ls[i], key)
  }

  /** A key reads as the value of its first line. */
  function Get(ls: seq<Line>, key: string): (v: Option<string>)
    ensures v.Some? <==> HasKey(ls, key)
  {
    if ls == [] then None
    else if Defines(ls[0], key) then Some(ls[0].rawValue)
    else
      assert forall i :: 1 <= i < |ls| ==> ls[i] == ls[1..][i - 1];
      Get(ls[1..], key)
  }

  /** Index of the first line of a key, or the number of lines. */
  function FirstOf(ls: seq<Line>, key: string): (n: nat)
    ensures n <= |ls| && (n < |ls| <==> HasKey(ls, key))
    ensures n < |ls| ==> Defines(ls[n], key) && Get(ls, key) == Some(ls[n].rawValue)
    ensures forall i :: 0 <= i < n ==> !Defines(ls[i], key)
  {
    if ls == [] then 0
    else if Defines(ls[0], key) then 0
    else
      var n := FirstOf(ls[1..], key);
      assert forall i :: 1 <= i < |ls| ==> ls[i] == ls[1..][i - 1];
      n + 1
  }

  function SetLines(ls: seq<Line>, key: string, value: string): seq<Line> {
    var n := FirstOf(ls, key);
    if n < |ls| then ls[n := ls[n].(rawValue := value)] else ls + [KeyValue(key, value, false)]
  }

  /** First pass of a merge: overlay values overwrite keys the base has. */
  function Overridden(base: seq<Line>, overlay: seq<Line>): seq<Line> {
    if overlay == [] then base
    else
      var ls, l := Overridden(base, overlay[..|overlay| - 1]), overlay[|overlay| - 1];
      if l.KeyValue? && HasKey(ls, l.key) then SetLines(ls, l.key, l.rawValue) else ls
  }

  /** The keys of the overlay that the base lacks, once per line. */
  function NewKeys(base: seq<Line>, overlay: seq<Line>): seq<string> {
    if overlay == [] then []
    else
      var l := overlay[|overlay| - 1];
      NewKeys(base, overlay[..|overlay| - 1]) + if l.KeyValue? && !HasKey(base, l.key) then [l.key] else []
  }

  /** Second pass: lines of new keys with the comments right above them; the second part is the comments held back. */
  function Appended(keys: seq<string>, overlay: seq<Line>): (seq<Line>, seq<Line>) {
    if overlay == [] then ([], [])
    else
      var ((out, pending), l) := (Appended(keys, overlay[..|overlay| - 1]), overlay[|overlay| - 1]);
      if l.Comment? then (out, pending + [l])
      else if l.KeyValue? && l.key in keys then (out + pending + [l], [])
      else (out, [])
  }

  function Separator(ls: seq<Line>): seq<Line> {
    if ls == [] || ls[|ls| - 1].Blank? then [] else [Blank]
  }

  function Merge(base: seq<Line>, overlay: seq<Line>): seq<Line> {
    var ls, keys := Overridden(base, overlay), NewKeys(base, overlay);
    if keys == [] then ls else ls + Separator(ls) + Appended(keys, overlay).0
  }

  function MapLine(l: Line, f: string -> string): Line {
    if l.KeyValue? then l.(rawValue := f(l.rawValue)) else l
  }

  /** Every value rewritten, everything else kept. */
  function MapValues(ls: seq<Line>, f: string -> string): (r: seq<Line>)
    ensures |r| == |ls| && forall i :: 0 <= i < |ls| ==> r[i] == MapLine(ls[i], f)
  {
    seq(|ls|, i requires 0 <= i < |ls| => MapLine(ls[i], f))
  }

  class DotenvFile {
    var lines: seq<Line>

    constructor ()
      ensures lines == []
    {
      lines := [];
    }

    method ParseContent(content: string)
      modifies this
      ensures lines == Parse(content)
    {
      var raws, out: seq<Line> := Lines(content), [];
      hide *;
      for i := 0 to |raws|
        invariant |out| == i && forall j :: 0 <= j < i ==> out[j] == ParseLine(raws[j])
      {
        out := out + [ParseLine(raws[i])];
      }
      LinesParsed(content, out);
      lines := out;
    }

    method RenderText() returns (out: string)
      ensures out == Render(lines)
    {
      out := "";
      for i := 0 to |lines|
        invariant out + Render(lines[i..]) == Render(lines)
      {
        assert lines[i..][1..] == lines[i + 1..];
        out := out + RenderLine(lines[i]) + "\n";
      }
    }

    method Set(key: string, value: string)
      modifies this
      ensures lines == SetLines(old(lines), key, value)
    {
      for i := 0 to |lines|
        invariant lines == old(lines)
        invariant forall j :: 0 <= j < i ==> !Defines(lines[j], key)
      {
        if Defines(lines[i], key) {
          assert FirstOf(lines, key) == i;
          lines := lines[i := lines[i].(rawValue := value)];
          return;
        }
      }
      lines := lines + [KeyValue(key, value, false)];
    }

    method MergeWith(overlay: seq<Line>)
      modifies this
      ensures lines == Merge(old(lines), overlay)
    {
      ghost var base := lines;
      hide Overridden, NewKeys, Appended, SetLines, Get, FirstOf, HasKey;
      var keys: seq<string> := [];
      PassesStart(base, keys);
      for i := 0 to |overlay|
        invariant lines == Overridden(base, overlay[..i]) && keys == NewKeys(base, overlay[..i])
      {
        FirstPassStep(base, overlay, i);
        var l := overlay[i];
        if l.KeyValue? {
          if Get(lines, l.key).Some? {
            Set(l.key, l.rawValue);
          } else {
            keys := keys + [l.key];
          }
        }
      }
      assert overlay[..|overlay|] == overlay;
      if keys == [] {
        return;
      }
      if lines != [] && !lines[|lines| - 1].Blank? {
        lines := lines + [Blank];
      }
      var pending: seq<Line> := [];
      ghost var front := lines;
      PassesStart(base, keys);
      for i := 0 to |overlay|
        invariant lines == front + Appended(keys, overlay[..i]).0
        invariant pending == Appended(keys, overlay[..i]).1
      {
        SecondPassStep(keys, overlay, i);
        var l := overlay[i];
        match l
        case Comment(_) => pending := pending + [l];
        case Blank => pending := [];
        case KeyValue(key, _, _) =>
          if key in keys {
            lines := lines + pending + [l];
          }
          pending := [];
      }
    }

    method Substitute(vars: map<string, string>)
      modifies this
      ensures lines == MapValues(old(lines), value => Substituted(value, vars))
    {
      ghost var rewritten := MapValues(lines, value => Substituted(value, vars));
      hide Substituted;
      for i := 0 to |lines|
        invariant |lines| == |rewritten|
        invariant forall j :: 0 <= j < |lines| ==> lines[j] == if j < i then rewritten[j] else old(lines)[j]
      {
        if lines[i].KeyValue? {
          var value := SubstituteIn(lines[i].rawValue, vars);
          lines := lines[i := lines[i].(rawValue := value)];
        }
      }
    }
  }

  lemma PassesStart(base: seq<Line>, keys: seq<string>)
    ensures Overridden(base, []) == base && NewKeys(base, []) == []
    ensures Appended(keys, []) == ([], [])
  {
  }

  lemma FirstPassStep(base: seq<Line>, overlay: seq<Line>, i: nat)
    requires i < |overlay|
    ensures var (ls, keys, l) := (Overridden(base, overlay[..i]), NewKeys(base, overlay[..i]), overlay[i]);
            var known := l.KeyValue? && Get(ls, l.key).Some?;
            && Overridden(base, overlay[..i + 1]) == (if known then SetLines(ls, l.key, l.rawValue) else ls)
            && NewKeys(base, overlay[..i + 1]) == if l.KeyValue? && !known then keys + [l.key] else keys
  {
    assert overlay[..i + 1][..i] == overlay[..i];
    OverriddenLine(base, overlay[..i]);
    hide SetLines, FirstOf, Get, HasKey;
  }

  lemma SecondPassStep(keys: seq<string>, overlay: seq<Line>, i: nat)
    requires i < |overlay|
    ensures var ((out, pending), l) := (Appended(keys, overlay[..i]), overlay[i]);
            Appended(keys, overlay[..i + 1]) ==
            if l.Comment? then (out, pending + [l])
            else if l.KeyValue? && l.key in keys then (out + pending + [l], [])
            else (out, [])
  {
    assert overlay[..i + 1][..i] == overlay[..i];
  }

  /** Overwriting changes values only: which keys are defined where stays as it is. */
  lemma {:induction false} OverriddenLine(base: seq<Line>, overlay: seq<Line>)
    ensures |Overridden(base, overlay)| == |base|
    ensures forall i :: 0 <= i < |base| ==>
              var l := Overridden(base, overlay)[i];
              if base[i].KeyValue? then l.KeyValue? && l.(rawValue := base[i].rawValue) == base[i] else l == base[i]
    ensures forall key :: HasKey(Overridden(base, overlay), key) <==> HasKey(base, key)
    ensures forall key :: FirstOf(Overridden(base, overlay), key) == FirstOf(base, key)
  {
    if overlay != [] {
      OverriddenLine(base, overlay[..|overlay| - 1]);
      assert forall i, key :: 0 <= i < |base| ==>
               (Defines(Overridden(base, overlay)[i], key) <==> Defines(base[i], key));
    }
  }
}
