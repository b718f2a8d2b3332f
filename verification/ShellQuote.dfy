/** Quoting of a command line, read back by the word splitting of the POSIX shell (sections 2.2 and 2.3 of its command language). */
module ShellQuote {
  import opened Options

  // ----- The shell's reading -----

  /** Where the shell stands: between words, in a word, or in a single-quoted part of one. */
  datatype Mode = Between | Word(text: string) | Quoted(text: string)

  predicate IsBlank(c: char) {
    c == ' ' || c == '\t'
  }

  /** Unquoted, these make the shell do something other than collect words. */
  predicate IsSpecial(c: char) {
    c in "|&;<>()$`\"*?[#~{}!^\n"
  }

  function Current(mode: Mode): string {
    if mode.Between? then "" else mode.text
  }

  /**
   * The words of `s`, or `None` where the shell would do more than split words: expansions, operators,
   * comments, an unfinished quote or escape.
   */
  function Scan(s: string, mode: Mode): Option<seq<string>>
    decreases |s|
  {
    if s == [] then
      match mode
      case Between => Some([])
      case Word(text) => Some([text])
      case Quoted(_) => None
    else if mode.Quoted? then
      if s[0] == '\'' then Scan(s[1..], Word(mode.text)) else Scan(s[1..], Quoted(mode.text + [s[0]]))
    else if s[0] == '\'' then Scan(s[1..], Quoted(Current(mode)))
    else if s[0] == '\\' then
      if |s| == 1 then None
      else if s[1] == '\n' then Scan(s[2..], mode)
      else Scan(s[2..], Word(Current(mode) + [s[1]]))
    else if IsBlank(s[0]) then
      if mode.Between? then Scan(s[1..], Between)
      else
        match Scan(s[1..], Between)
        case None => None
        case Some(words) => Some([mode.text] + words)
    else if IsSpecial(s[0]) then None
    else Scan(s[1..], Word(Current(mode) + [s[0]]))
  }

  function SplitWords(s: string): Option<seq<string>> {
    Scan(s, Between)
  }

  // ----- Quoting -----

  predicate IsSafe(c: char) {
    'a' <= c <= 'z' || 'A' <= c <= 'Z' || '0' <= c <= '9' || c in "@%+=:,./-_"
  }

  predicate AllSafe(s: string) {
    forall i :: 0 <= i < |s| ==> IsSafe(s[i])
  }

  function QuoteChar(c: char): string {
    if c == '\'' then "'\\''" else [c]
  }

  function QuoteBody(s: string): string {
    if s == [] then "" else QuoteBody(s[..|s| - 1]) + QuoteChar(s[|s| - 1])
  }

  function Escaped(s: string): string {
    if s != [] && AllSafe(s) then s else "'" + QuoteBody(s) + "'"
  }

  method ShellEscape(s: string) returns (out: string)
    ensures out == Escaped(s)
  {
    if s != [] && AllSafe(s) {
      return s;
    }
    out := "'";
    for i := 0 to |s|
      invariant out == "'" + QuoteBody(s[..i])
    {
      assert s[..i + 1][..i] == s[..i];
      if s[i] == '\'' {
        out := out + "'\\''";
      } else {
        out := out + [s[i]];
      }
    }
    assert s[..|s|] == s;
    out := out + "'";
  }

  function EscapedArgs(args: seq<string>): string {
    if args == [] then "" else EscapedArgs(args[..|args| - 1]) + " " + Escaped(args[|args| - 1])
  }

  function CommandLine(binary: string, args: seq<string>): string {
    "exec " + Escaped(binary) + EscapedArgs(args)
  }

  lemma EscapedNext(args: seq<string>, i: nat)
    requires i < |args|
    ensures EscapedArgs(args[..i + 1]) == EscapedArgs(args[..i]) + " " + Escaped(args[i])
  {
    assert args[..i + 1][..i] == args[..i];
    hide Escaped;
  }

  method BuildCommand(binary: string, args: seq<string>) returns (cmd: string)
    ensures cmd == CommandLine(binary, args)
  {
    var escaped := ShellEscape(binary);
    cmd := "exec " + escaped;
    ghost var front := cmd;
    assert EscapedArgs(args[..0]) == "";
    hide Escaped, EscapedArgs;
    for i := 0 to |args|
      invariant cmd == front + EscapedArgs(args[..i])
    {
      EscapedNext(args, i);
      cmd := cmd + " ";
      escaped := ShellEscape(args[i]);
      cmd := cmd + escaped;
      assert cmd == front + (EscapedArgs(args[..i]) + " " + Escaped(args[i]));
    }
    assert args[..|args|] == args;
  }

  // ----- The shell reads back what was quoted -----

  lemma SafeIsPlain(c: char)
    requires IsSafe(c)
    ensures !IsSpecial(c) && !IsBlank(c) && c != '\'' && c != '\\'
  {
  }

  lemma ScanPlain(c: char, rest: string, mode: Mode)
    requires IsSafe(c) && !mode.Quoted?
    ensures Scan([c] + rest, mode) == Scan(rest, Word(Current(mode) + [c]))
  {
    SafeIsPlain(c);
    hide IsSafe, IsSpecial, IsBlank;
    assert ([c] + rest)[1..] == rest;
  }

  lemma ScanBlank(rest: string, text: string)
    ensures Scan([' '] + rest, Word(text)) ==
            match Scan(rest, Between) case None => None case Some(words) => Some([text] + words)
  {
    assert ([' '] + rest)[1..] == rest;
  }

  lemma ScanQuote(rest: string, mode: Mode)
    ensures Scan(['\''] + rest, mode) == Scan(rest, if mode.Quoted? then Word(mode.text) else Quoted(Current(mode)))
  {
    assert (['\''] + rest)[1..] == rest;
  }

  lemma ScanInside(c: char, rest: string, text: string)
    requires c != '\''
    ensures Scan([c] + rest, Quoted(text)) == Scan(rest, Quoted(text + [c]))
  {
    assert ([c] + rest)[1..] == rest;
  }

  lemma ScanBackslash(c: char, rest: string, text: string)
    requires c != '\n'
    ensures Scan(['\\', c] + rest, Word(text)) == Scan(rest, Word(text + [c]))
  {
    assert (['\\', c] + rest)[2..] == rest;
  }

  lemma {:induction false} ScanSafe(s: string, rest: string, text: string)
    requires AllSafe(s)
    ensures Scan(s + rest, Word(text)) == Scan(rest, Word(text + s))
  {
    hide Scan, IsSafe;
    if s == [] {
      assert s + rest == rest && text + s == text;
    } else {
      ScanSafe(s[1..], rest, text + [s[0]]);
      ScanPlain(s[0], s[1..] + rest, Word(text));
      assert s + rest == [s[0]] + (s[1..] + rest);
      assert text + [s[0]] + s[1..] == text + s;
    }
  }

  lemma {:induction false} QuoteBodyFront(c: char, s: string)
    ensures QuoteBody([c] + s) == QuoteChar(c) + QuoteBody(s)
  {
    hide QuoteChar;
    var t := [c] + s;
    if s == [] {
      assert t[..0] == [] && t == [c];
    } else {
      QuoteBodyFront(c, s[..|s| - 1]);
      assert t[..|t| - 1] == [c] + s[..|s| - 1];
    }
  }

  lemma ScanQuotedChar(c: char, rest: string, text: string)
    ensures Scan(QuoteChar(c) + rest, Quoted(text)) == Scan(rest, Quoted(text + [c]))
  {
    hide Scan;
    if c == '\'' {
      var reopened := ['\''] + rest;
      assert QuoteChar(c) + rest == ['\''] + (['\\', c] + reopened);
      ScanQuote(['\\', c] + reopened, Quoted(text));
      ScanBackslash(c, reopened, text);
      ScanQuote(rest, Word(text + [c]));
    } else {
      ScanInside(c, rest, text);
    }
  }

  lemma {:induction false} ScanQuoted(s: string, rest: string, text: string)
    ensures Scan(QuoteBody(s) + rest, Quoted(text)) == Scan(rest, Quoted(text + s))
  {
    if s == [] {
      assert QuoteBody(s) + rest == rest && text + s == text;
    } else {
      hide Scan, QuoteBody, QuoteChar;
      assert s == [s[0]] + s[1..];
      QuoteBodyFront(s[0], s[1..]);
      assert QuoteBody(s) + rest == QuoteChar(s[0]) + (QuoteBody(s[1..]) + rest);
      ScanQuotedChar(s[0], QuoteBody(s[1..]) + rest, text);
      ScanQuoted(s[1..], rest, text + [s[0]]);
      assert text + [s[0]] + s[1..] == text + s;
    }
  }

  /** A quoted string is read as one word, whatever its characters. */
  lemma ScanEscaped(s: string, rest: string)
    ensures Scan(Escaped(s) + rest, Between) == Scan(rest, Word(s))
  {
    hide Scan, QuoteBody, IsSafe;
    if s != [] && AllSafe(s) {
      assert s + rest == [s[0]] + (s[1..] + rest) && [s[0]] + s[1..] == s;
      ScanPlain(s[0], s[1..] + rest, Between);
      assert Current(Between) + [s[0]] == [s[0]];
      ScanSafe(s[1..], rest, [s[0]]);
    } else {
      var tail := ['\''] + rest;
      assert Escaped(s) + rest == ['\''] + (QuoteBody(s) + tail);
      ScanQuote(QuoteBody(s) + tail, Between);
      ScanQuoted(s, tail, "");
      ScanQuote(rest, Quoted(s));
      assert "" + s == s;
    }
  }

  lemma {:induction false} EscapedArgsFront(a: string, args: seq<string>)
    ensures EscapedArgs([a] + args) == [' '] + (Escaped(a) + EscapedArgs(args))
  {
    hide Escaped;
    var all := [a] + args;
    if args == [] {
      assert all[..0] == [] && all == [a];
    } else {
      EscapedArgsFront(a, args[..|args| - 1]);
      assert all[..|all| - 1] == [a] + args[..|args| - 1];
    }
  }

  lemma {:induction false} ScanArgs(args: seq<string>, text: string)
    ensures Scan(EscapedArgs(args), Word(text)) == Some([text] + args)
  {
    if args == [] {
      assert [text] + args == [text];
    } else {
      hide Scan, Escaped, EscapedArgs;
      assert args == [args[0]] + args[1..];
      EscapedArgsFront(args[0], args[1..]);
      ScanBlank(Escaped(args[0]) + EscapedArgs(args[1..]), text);
      ScanEscaped(args[0], EscapedArgs(args[1..]));
      ScanArgs(args[1..], args[0]);
    }
  }

  lemma WordAndArgsSplit(word: string, args: seq<string>)
    ensures SplitWords(Escaped(word) + EscapedArgs(args)) == Some([word] + args)
  {
    hide Scan, Escaped, EscapedArgs;
    ScanEscaped(word, EscapedArgs(args));
    ScanArgs(args, word);
  }

  lemma ExecIsBare()
    ensures Escaped("exec") == "exec"
  {
    assert AllSafe("exec");
    hide QuoteBody;
  }

  lemma CommandLineParts(binary: string, args: seq<string>)
    ensures CommandLine(binary, args) == "exec" + ([' '] + (Escaped(binary) + EscapedArgs(args)))
  {
    hide Escaped, EscapedArgs;
    assert "exec " == "exec" + [' '];
  }

  /** The shell gets back exactly the binary and the arguments, all of them, whatever they contain. */
  lemma CommandLineSplits(binary: string, args: seq<string>)
    ensures SplitWords(CommandLine(binary, args)) == Some(["exec", binary] + args)
  {
    hide *;
    ExecIsBare();
    WordAndArgsSplit("exec", [binary] + args);
    EscapedArgsFront(binary, args);
    CommandLineParts(binary, args);
    assert ["exec"] + ([binary] + args) == ["exec", binary] + args;
  }

  // ----- What is quoted -----

  predicate Plain(c: char) {
    || 'a' <= c <= 'z' || 'A' <= c <= 'Z' || '0' <= c <= '9'
    || c == '@' || c == '%' || c == '+' || c == '=' || c == ':' || c == ',' || c == '.' || c == '/' || c == '-' || c == '_'
  }

  lemma PlainIsSafe(c: char)
    ensures Plain(c) <==> IsSafe(c)
  {
  }

  /** Exactly the non-empty strings of letters, digits and `@%+=:,./-_` stay as they are; every other begins and ends with a quote. */
  lemma BareExactly(s: string)
    ensures Escaped(s) == s <==> s != "" && forall i :: 0 <= i < |s| ==> Plain(s[i])
    ensures Escaped(s) != s ==> |Escaped(s)| >= |s| + 2 && Escaped(s)[0] == '\'' && Escaped(s)[|Escaped(s)| - 1] == '\''
  {
    assert AllSafe(s) <==> forall i :: 0 <= i < |s| ==> Plain(s[i]) by {
      forall i | 0 <= i < |s| ensures Plain(s[i]) <==> IsSafe(s[i]) {
        PlainIsSafe(s[i]);
      }
    }
    QuoteBodyIsLong(s);
    hide Plain, IsSafe, QuoteBody;
  }

  lemma {:induction false} QuoteBodyIsLong(s: string)
    ensures |QuoteBody(s)| >= |s|
  {
    if s != "" {
      QuoteBodyIsLong(s[..|s| - 1]);
    }
  }
}
