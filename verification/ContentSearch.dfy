/** The capped content search of the agent: nested loops over entries and lines, and the line cut. */
module ContentSearch {
  import opened Options
  import opened Text
  import opened Utf8

  const SEARCH_MAX_FILE_BYTES := 2 * 1024 * 1024
  const SEARCH_WALK_CAP := 50_000
  const SEARCH_MAX_LINE_LEN := 500
  const SNIFF_BYTES := 8000

  // ----- Cutting a line -----

  /** Cuts at most four times back from the limit, to the last character boundary. */
  method CapLine(line: seq<byte>) returns (cut: seq<byte>)
    ensures cut == Cut(line)
  {
    if |line| <= SEARCH_MAX_LINE_LEN {
      return line;
    }
    var end := SEARCH_MAX_LINE_LEN;
    while end > 0 && !IsBoundary(line, end)
      invariant 0 <= end <= SEARCH_MAX_LINE_LEN
      invariant LastBoundary(line, end) == LastBoundary(line, SEARCH_MAX_LINE_LEN)
    {
      end := end - 1;
    }
    cut := line[..end];
  }

  function LastBoundary(line: seq<byte>, end: nat): (e: nat)
    ensures e <= end && (e == 0 || IsBoundary(line, e))
    ensures forall k :: e < k <= end ==> !IsBoundary(line, k)
  {
    if end == 0 || IsBoundary(line, end) then end else LastBoundary(line, end - 1)
  }

  function Cut(line: seq<byte>): (cut: seq<byte>)
    ensures cut <= line && |cut| <= SEARCH_MAX_LINE_LEN
  {
    if |line| <= SEARCH_MAX_LINE_LEN then line else line[..LastBoundary(line, SEARCH_MAX_LINE_LEN)]
  }

  /**
   * Any line is cut to its longest whole-character prefix of at most 500 bytes; a line that loses
   * characters keeps at least 497 bytes.
   */
  lemma CutIsLongestPrefix(s: string) returns (k: nat)
    ensures k <= |s| && Cut(Encode(s)) == Encode(s[..k])
    ensures |Encode(s[..k])| <= 500
    ensures forall j :: k < j <= |s| ==> |Encode(s[..j])| > 500
    ensures k < |s| ==> |Encode(s[..k])| >= 497
  {
    var line := Encode(s);
    if |line| <= 500 {
      k := |s|;
      assert s[..k] == s;
    } else {
      var end := LastBoundary(line, 500);
      k := BoundaryEndsAPrefix(s, end);
      forall j | k < j <= |s| ensures |Encode(s[..j])| > 500 {
        PrefixLengths(s, k, j);
        PrefixIsBoundary(s, j);
      }
      assert s[..|s|] == s;
      if k < |s| {
        PrefixLengths(s, k, k + 1);
      }
    }
  }

  lemma PrefixIsBoundary(s: string, j: nat)
    requires j <= |s|
    ensures |Encode(s[..j])| <= |Encode(s)| && IsBoundary(Encode(s), |Encode(s[..j])|)
  {
    assert s == s[..j] + s[j..];
    EncodeConcat(s[..j], s[j..]);
    if j < |s| {
      assert Encode(s)[|Encode(s[..j])|] == Encode(s[j..])[0];
    }
  }

  // ----- The search -----

  /**
   * An entry of the walk: an error of the walker, or a path with its file type, its size if the
   * metadata can be read, its bytes if it can be read, and its path below the root.
   */
  datatype Entry =
    | Broken
    | Entry(isFile: bool, size: Option<nat>, bytes: Option<seq<byte>>, rel: Option<string>)

  datatype Query = Query(matches: string -> bool, maxResults: nat)

  datatype Match = Match(line: nat, text: seq<byte>)

  datatype FileHits = FileHits(rel: string, matches: seq<Match>)

  /** One match with the file it is in. */
  datatype Hit = Hit(rel: string, hit: Match)

  predicate HasNul(b: seq<byte>) {
    exists k :: 0 <= k < |b| && k < SNIFF_BYTES && b[k] == 0
  }

  /** The lines of an entry that is searched at all: a small readable text file below the root. */
  function SearchedLines(e: Entry): Option<seq<string>> {
    if e.Entry? && e.isFile && (e.size.Some? ==> e.size.value <= SEARCH_MAX_FILE_BYTES) &&
       e.bytes.Some? && !HasNul(e.bytes.value) && IsUtf8(e.bytes.value) && e.rel.Some?
    then Some(Lines(Decode(e.bytes.value)))
    else None
  }

  /** Every matching line among the first `n` lines of a file, uncapped. */
  function MatchesIn(q: Query, lines: seq<string>, n: nat): seq<Match>
    requires n <= |lines|
  {
    if n == 0 then []
    else MatchesIn(q, lines, n - 1) +
         if q.matches(lines[n - 1]) then [Match(n, Cut(Encode(lines[n - 1])))] else []
  }

  function EntryMatches(q: Query, e: Entry): seq<Hit> {
    match SearchedLines(e)
    case Some(lines) => Hits(e.rel.value, MatchesIn(q, lines, |lines|))
    case None => []
  }

  function Hits(rel: string, matches: seq<Match>): (hits: seq<Hit>)
    ensures |hits| == |matches|
    ensures forall k :: 0 <= k < |hits| ==> hits[k] == Hit(rel, matches[k])
  {
    seq(|matches|, k requires 0 <= k < |matches| => Hit(rel, matches[k]))
  }

  /** The uncapped search: every match of every searched entry, in walk order. */
  function AllHits(q: Query, entries: seq<Entry>): seq<Hit> {
    if entries == [] then []
    else AllHits(q, entries[..|entries| - 1]) + EntryMatches(q, entries[|entries| - 1])
  }

  function Flatten(files: seq<FileHits>): seq<Hit> {
    if files == [] then []
    else Flatten(files[..|files| - 1]) + Hits(files[|files| - 1].rel, files[|files| - 1].matches)
  }

  function Max1(n: nat): nat {
    if n < 1 then 1 else n
  }

  /** Entries the walker produced without an error. */
  function Walked(entries: seq<Entry>): nat {
    if entries == [] then 0
    else Walked(entries[..|entries| - 1]) + if entries[|entries| - 1].Broken? then 0 else 1
  }

  /** The search cannot finish entry `e`: the walk cap is used up, or a line is left when enough was found. */
  ghost predicate Unfinished(q: Query, entries: seq<Entry>, e: nat)
    requires e < |entries|
  {
    && entries[e].Entry?
    && (|| Walked(entries[..e]) >= 50_000
        || match SearchedLines(entries[e])
           case Some(lines) => exists l :: LineLeft(q, entries[..e], lines, l)
           case None => false)
  }

  ghost predicate LineLeft(q: Query, before: seq<Entry>, lines: seq<string>, l: int) {
    0 <= l < |lines| && !Room(q, lines, l, |AllHits(q, before)|)
  }

  /** With `found` hits before this file, may line `l` (counting from 0) still be looked at? */
  predicate Room(q: Query, lines: seq<string>, l: nat, found: nat)
    requires l <= |lines|
  {
    found + |MatchesIn(q, lines, l)| < Max1(q.maxResults)
  }

  lemma NextLine(q: Query, lines: seq<string>, i: nat)
    requires i < |lines|
    ensures MatchesIn(q, lines, i + 1) ==
            MatchesIn(q, lines, i) + if q.matches(lines[i]) then [Match(i + 1, Cut(Encode(lines[i])))] else []
  {
    hide Cut, Encode;
  }

  /** The files with matches, each with all of them, in walk order. */
  function AllFiles(q: Query, entries: seq<Entry>): seq<FileHits> {
    if entries == [] then []
    else
      var e := entries[|entries| - 1];
      AllFiles(q, entries[..|entries| - 1]) + FileOf(q, e)
  }

  function FileOf(q: Query, e: Entry): seq<FileHits> {
    match SearchedLines(e)
    case None => []
    case Some(lines) =>
      if MatchesIn(q, lines, |lines|) == [] then [] else [FileHits(e.rel.value, MatchesIn(q, lines, |lines|))]
  }

  /**
   * The search ends at the first entry it cannot finish: with what came before if the walk cap is used up, else with
   * exactly as many hits as asked for, at least one. The files are those before, and possibly this one in part.
   */
  ghost predicate StopsAt(q: Query, entries: seq<Entry>, e: nat, files: seq<FileHits>, total: nat)
    requires e < |entries|
  {
    && Unfinished(q, entries, e) && (forall k :: 0 <= k < e ==> !Unfinished(q, entries, k))
    && total == (if Walked(entries[..e]) >= 50_000 then |AllHits(q, entries[..e])|
                 else if q.maxResults == 0 then 1 else q.maxResults)
    && (files == AllFiles(q, entries[..e]) || PartlyLast(q, entries, e, files))
  }

  ghost predicate PartlyLast(q: Query, entries: seq<Entry>, e: nat, files: seq<FileHits>)
    requires e < |entries|
  {
    && entries[e].Entry? && entries[e].rel.Some?
    && exists ms :: ms != [] && files == AllFiles(q, entries[..e]) + [FileHits(entries[e].rel.value, ms)]
  }

  lemma NextFile(q: Query, entries: seq<Entry>, i: nat)
    requires i < |entries|
    ensures AllFiles(q, entries[..i + 1]) == AllFiles(q, entries[..i]) + FileOf(q, entries[i])
    ensures FileOf(q, entries[i]) == [] ==> AllFiles(q, entries[..i + 1]) == AllFiles(q, entries[..i])
    ensures SearchedLines(entries[i]).None? ==> FileOf(q, entries[i]) == []
  {
    assert entries[..i + 1][..i] == entries[..i];
    hide MatchesIn;
  }

  /** Which entries are searched, and into which lines they fall. */
  lemma SearchedExactly(e: Entry, text: string)
    requires e.Entry? && e.bytes == Some(Encode(text))
    ensures SearchedLines(e) ==
            if e.isFile && (e.size == None || e.size.value <= 2_097_152) && e.rel.Some?
               && forall k :: 0 <= k < |Encode(text)| && k < 8000 ==> Encode(text)[k] != 0
            then Some(Lines(text)) else None
  {
    DecodeEncode(text);
    hide Encode, Decode, Lines;
  }

  /** Nothing else is searched: walker errors, files that cannot be read, bytes that are no text. */
  lemma SearchedNeedsText(e: Entry)
    ensures SearchedLines(e).Some? ==> e.Entry? && e.bytes.Some? && exists text :: e.bytes == Some(Encode(text))
  {
    if SearchedLines(e).Some? {
      assert e.bytes == Some(Encode(Decode(e.bytes.value)));
    }
    hide Encode, Decode, Lines;
  }

  /** The inner loop: the lines of one file, until enough was found in all. */
  method SearchFile(q: Query, lines: seq<string>, found: nat)
    returns (matches: seq<Match>, hitCap: bool, ghost read: nat)
    requires found <= Max1(q.maxResults)
    ensures read <= |lines| && matches == MatchesIn(q, lines, read)
    ensures found + |matches| <= Max1(q.maxResults)
    ensures hitCap ==> read < |lines| && !Room(q, lines, read, found)
    ensures !hitCap ==> read == |lines| && forall l :: 0 <= l < |lines| ==> Room(q, lines, l, found)
  {
    matches, hitCap, read := [], false, 0;
    assert MatchesIn(q, lines, 0) == [];
    hide MatchesIn, Cut, Encode;
    for i := 0 to |lines|
      invariant read == i && matches == MatchesIn(q, lines, i) && !hitCap
      invariant found + |matches| <= Max1(q.maxResults)
      invariant forall l :: 0 <= l < i ==> Room(q, lines, l, found)
    {
      NextLine(q, lines, i);
      if found + |matches| >= Max1(q.maxResults) {
        hitCap := true;
        return;
      }
      if q.matches(lines[i]) {
        var text := CapLine(Encode(lines[i]));
        matches := matches + [Match(i + 1, text)];
      }
      read := i + 1;
    }
  }

  /**
   * The search up to its final sort by path: it returns exactly the first `total` hits of the
   * uncapped search in walk order, grouped by file, at most max(1, maxResults) of them; it reports
   * truncation exactly when it could not finish some entry, and an untruncated result is complete.
   */
  method SearchContent(q: Query, entries: seq<Entry>)
    returns (files: seq<FileHits>, total: nat, truncated: bool)
    ensures total <= |AllHits(q, entries)| && Flatten(files) == AllHits(q, entries)[..total]
    ensures total <= Max1(q.maxResults)
    ensures total == |Flatten(files)|
    ensures forall f <- files :: f.matches != []
    ensures !truncated ==> total == |AllHits(q, entries)| && files == AllFiles(q, entries)
    ensures truncated <==> exists e :: 0 <= e < |entries| && Unfinished(q, entries, e)
    ensures truncated ==> exists e :: 0 <= e < |entries| && StopsAt(q, entries, e, files, total)
  {
    hide AllFiles, FileOf;
    hide AllHits;
    hide Walked;
    hide SearchedLines;
    hide Unfinished;
    hide LineLeft;
    hide Room;
    hide MatchesIn;
    hide Hits;
    hide Flatten;
    FlattenGrows([], FileHits("", []));
    files, total, truncated := [], 0, false;
    var walked := 0;
    NothingYet(q, entries);
    for i := 0 to |entries|
      invariant files == AllFiles(q, entries[..i])
      invariant !truncated && Flatten(files) == AllHits(q, entries[..i])
      invariant total == |AllHits(q, entries[..i])| <= Max1(q.maxResults)
      invariant walked == Walked(entries[..i]) <= SEARCH_WALK_CAP
      invariant forall f <- files :: f.matches != []
      invariant forall e :: 0 <= e < i ==> !Unfinished(q, entries, e)
    {
      var e := entries[i];
      OneEntry(q, entries, i);
      NextFile(q, entries, i);
      BrokenIsNotSearched(e);
      if e.Broken? {
        continue;
      }
      walked := walked + 1;
      if walked > SEARCH_WALK_CAP {
        assert StopsAt(q, entries, i, files, total);
        truncated := true;
        break;
      }
      var lines := SearchedLines(e);
      if lines.None? {
        continue;
      }
      var matches, hitCap, read := SearchFile(q, lines.value, total);
      OneFile(q, entries, i, lines.value, read);
      FlattenGrows(files, FileHits(e.rel.value, matches));
      if matches != [] {
        files := files + [FileHits(e.rel.value, matches)];
      }
      total := total + |matches|;
      if hitCap {
        RoomUsedUp(q, lines.value, read, total - |matches|);
        if matches != [] {
          assert files == AllFiles(q, entries[..i]) + [FileHits(e.rel.value, matches)];
          assert PartlyLast(q, entries, i, files);
        }
        assert StopsAt(q, entries, i, files, total);
        truncated := true;
        break;
      }
      WholeFile(q, entries[i], lines.value);
      FileFinished(q, entries, i, lines.value);
    }
    assert entries[..|entries|] == entries;
  }

  lemma RoomUsedUp(q: Query, lines: seq<string>, l: nat, found: nat)
    requires l <= |lines| && !Room(q, lines, l, found)
    ensures found + |MatchesIn(q, lines, l)| >= if q.maxResults == 0 then 1 else q.maxResults
  {
    hide MatchesIn;
  }

  lemma BrokenIsNotSearched(e: Entry)
    ensures e.Broken? ==> SearchedLines(e).None?
  {
  }

  lemma WholeFile(q: Query, e: Entry, lines: seq<string>)
    requires SearchedLines(e) == Some(lines)
    ensures e.Entry? && e.rel.Some?
    ensures var ms := MatchesIn(q, lines, |lines|);
            FileOf(q, e) == if ms == [] then [] else [FileHits(e.rel.value, ms)]
  {
    hide MatchesIn;
  }

  lemma FlattenGrows(files: seq<FileHits>, f: FileHits)
    ensures Flatten(files + [f]) == Flatten(files) + Hits(f.rel, f.matches)
    ensures f.matches == [] ==> Flatten(files) + Hits(f.rel, f.matches) == Flatten(files)
    ensures Flatten([]) == []
  {
    assert (files + [f])[..|files|] == files;
  }

  lemma NothingYet(q: Query, entries: seq<Entry>)
    ensures AllHits(q, entries[..0]) == [] && Walked(entries[..0]) == 0 && AllFiles(q, entries[..0]) == []
  {
  }

  /** What entry `i` adds to the uncapped search and to the walk count, and when it cannot be finished. */
  lemma OneEntry(q: Query, entries: seq<Entry>, i: nat)
    requires i < |entries|
    ensures AllHits(q, entries[..i + 1]) == AllHits(q, entries[..i]) + EntryMatches(q, entries[i])
    ensures AllHits(q, entries[..i + 1]) <= AllHits(q, entries) && AllHits(q, entries[..i]) <= AllHits(q, entries)
    ensures Walked(entries[..i + 1]) == Walked(entries[..i]) + if entries[i].Broken? then 0 else 1
    ensures entries[i].Broken? ==> EntryMatches(q, entries[i]) == [] && !Unfinished(q, entries, i)
    ensures SearchedLines(entries[i]).None? ==>
              && EntryMatches(q, entries[i]) == []
              && (Unfinished(q, entries, i) <==> entries[i].Entry? && Walked(entries[..i]) >= SEARCH_WALK_CAP)
    ensures entries[i].Entry? && Walked(entries[..i]) >= SEARCH_WALK_CAP ==> Unfinished(q, entries, i)
  {
    assert entries[..i + 1][..i] == entries[..i];
    PrefixHits(q, entries, i);
    PrefixHits(q, entries, i + 1);
  }

  /** Reading `n` lines of entry `i` yields a prefix of its hits, and whether they are all. */
  lemma OneFile(q: Query, entries: seq<Entry>, i: nat, lines: seq<string>, n: nat)
    requires i < |entries| && n <= |lines| && SearchedLines(entries[i]) == Some(lines)
    requires Walked(entries[..i]) < SEARCH_WALK_CAP
    ensures entries[i].Entry? && entries[i].rel.Some?
    ensures Hits(entries[i].rel.value, MatchesIn(q, lines, n)) <= EntryMatches(q, entries[i])
    ensures n == |lines| ==> Hits(entries[i].rel.value, MatchesIn(q, lines, n)) == EntryMatches(q, entries[i])
    ensures n < |lines| && !Room(q, lines, n, |AllHits(q, entries[..i])|) ==> Unfinished(q, entries, i)
  {
    PrefixMatches(q, lines, n);
    var found := |AllHits(q, entries[..i])|;
    if n < |lines| && !Room(q, lines, n, found) {
      assert LineLeft(q, entries[..i], lines, n);
    }
  }

  lemma FileFinished(q: Query, entries: seq<Entry>, i: nat, lines: seq<string>)
    requires i < |entries| && SearchedLines(entries[i]) == Some(lines)
    requires Walked(entries[..i]) < SEARCH_WALK_CAP
    requires forall l :: 0 <= l < |lines| ==> Room(q, lines, l, |AllHits(q, entries[..i])|)
    ensures !Unfinished(q, entries, i)
  {
  }

  lemma {:induction false} PrefixHits(q: Query, entries: seq<Entry>, i: nat)
    requires i <= |entries|
    ensures AllHits(q, entries[..i]) <= AllHits(q, entries)
  {
    if i == |entries| {
      assert entries[..i] == entries;
    } else {
      PrefixHits(q, entries[..|entries| - 1], i);
      assert entries[..|entries| - 1][..i] == entries[..i];
    }
  }

  lemma {:induction false} PrefixMatches(q: Query, lines: seq<string>, n: nat)
    requires n <= |lines|
    ensures MatchesIn(q, lines, n) <= MatchesIn(q, lines, |lines|)
  {
    MatchesUpTo(q, lines, n, |lines|);
  }

  lemma {:induction false} MatchesUpTo(q: Query, lines: seq<string>, n: nat, m: nat)
    requires n <= m <= |lines|
    ensures MatchesIn(q, lines, n) <= MatchesIn(q, lines, m)
  {
    if n < m {
      MatchesUpTo(q, lines, n, m - 1);
    }
  }

  // ----- The uncapped search of a file -----

  /** A hit names one of the first `n` lines, which matches, and holds its cut text. */
  predicate Listed(q: Query, lines: seq<string>, n: nat, hit: Match)
    requires n <= |lines|
  {
    1 <= hit.line <= n && q.matches(lines[hit.line - 1]) && hit.text == Cut(Encode(lines[hit.line - 1]))
  }

  predicate Increasing(ms: seq<Match>) {
    forall i, j :: 0 <= i < j < |ms| ==> ms[i].line < ms[j].line
  }

  predicate HasLine(ms: seq<Match>, line: nat) {
    exists m :: 0 <= m < |ms| && ms[m].line == line
  }

  predicate Complete(q: Query, lines: seq<string>, n: nat, ms: seq<Match>)
    requires n <= |lines|
  {
    forall line :: 1 <= line <= n && q.matches(lines[line - 1]) ==> HasLine(ms, line)
  }

  /** The matching lines among the first `n`, all of them, each once, in order, numbered and cut. */
  predicate ListsMatches(q: Query, lines: seq<string>, n: nat, ms: seq<Match>)
    requires n <= |lines|
  {
    (forall m :: 0 <= m < |ms| ==> Listed(q, lines, n, ms[m])) && Increasing(ms) && Complete(q, lines, n, ms)
  }

  lemma HasLineSnoc(front: seq<Match>, last: Match, line: nat)
    ensures HasLine(front + [last], line) <==> HasLine(front, line) || last.line == line
  {
    assert forall m :: 0 <= m < |front| ==> (front + [last])[m] == front[m];
    assert (front + [last])[|front|] == last;
  }

  lemma ListOneMore(q: Query, lines: seq<string>, n: nat, front: seq<Match>)
    requires n < |lines| && ListsMatches(q, lines, n, front)
    ensures var hit := Match(n + 1, Cut(Encode(lines[n])));
            ListsMatches(q, lines, n + 1, if q.matches(lines[n]) then front + [hit] else front)
  {
    hide Cut, Encode, HasLine;
    var hit := Match(n + 1, Cut(Encode(lines[n])));
    forall m | 0 <= m < |front| ensures Listed(q, lines, n + 1, front[m]) && front[m].line < n + 1 {
      assert Listed(q, lines, n, front[m]);
    }
    if q.matches(lines[n]) {
      IncreasingSnoc(front, hit);
      forall line | 1 <= line <= n + 1 && q.matches(lines[line - 1]) ensures HasLine(front + [hit], line) {
        HasLineSnoc(front, hit, line);
      }
      hide Increasing;
    }
  }

  lemma IncreasingSnoc(front: seq<Match>, last: Match)
    requires Increasing(front) && forall m :: 0 <= m < |front| ==> front[m].line < last.line
    ensures Increasing(front + [last])
  {
  }

  lemma LastIsListed(q: Query, lines: seq<string>, n: nat, ms: seq<Match>)
    requires n < |lines| && ListsMatches(q, lines, n + 1, ms) && q.matches(lines[n])
    ensures ms != [] && ms[|ms| - 1] == Match(n + 1, Cut(Encode(lines[n])))
  {
    hide Cut, Encode;
    assert HasLine(ms, n + 1);
    var m :| 0 <= m < |ms| && ms[m].line == n + 1;
    assert Listed(q, lines, n + 1, ms[|ms| - 1]);
  }

  /** A list of the matches without its last line, if that is line `n`, lists those before. */
  lemma ListOneLess(q: Query, lines: seq<string>, n: nat, ms: seq<Match>)
    requires n < |lines| && ListsMatches(q, lines, n + 1, ms)
    ensures q.matches(lines[n]) ==>
              && ms != [] && ms[|ms| - 1] == Match(n + 1, Cut(Encode(lines[n])))
              && ListsMatches(q, lines, n, ms[..|ms| - 1])
    ensures !q.matches(lines[n]) ==> ListsMatches(q, lines, n, ms)
  {
    hide Cut, Encode;
    if q.matches(lines[n]) {
      LastIsListed(q, lines, n, ms);
      var k := |ms| - 1;
      var front := ms[..k];
      forall i | 0 <= i < k ensures Listed(q, lines, n, front[i]) {
        assert Listed(q, lines, n + 1, ms[i]) && ms[i].line < ms[k].line;
      }
      assert ms == front + [ms[k]];
      forall line | 1 <= line <= n && q.matches(lines[line - 1]) ensures HasLine(front, line) {
        HasLineSnoc(front, ms[k], line);
      }
    } else {
      forall i | 0 <= i < |ms| ensures Listed(q, lines, n, ms[i]) {
        assert Listed(q, lines, n + 1, ms[i]);
      }
    }
  }

  /** The uncapped search lists exactly the matching lines of a file, and nothing else is such a list. */
  lemma {:induction false} HitsAreMatchingLines(q: Query, lines: seq<string>, n: nat, ms: seq<Match>)
    requires n <= |lines|
    ensures ListsMatches(q, lines, n, ms) <==> ms == MatchesIn(q, lines, n)
  {
    hide *;
    if n == 0 {
      NothingListed(q, lines, ms);
    } else {
      var front := MatchesIn(q, lines, n - 1);
      NextLine(q, lines, n - 1);
      HitsAreMatchingLines(q, lines, n - 1, front);
      ListOneMore(q, lines, n - 1, front);
      assert front + [] == front;
      if ListsMatches(q, lines, n, ms) {
        ListOneLess(q, lines, n - 1, ms);
        if q.matches(lines[n - 1]) {
          HitsAreMatchingLines(q, lines, n - 1, ms[..|ms| - 1]);
          assert ms == ms[..|ms| - 1] + [ms[|ms| - 1]];
        } else {
          HitsAreMatchingLines(q, lines, n - 1, ms);
        }
      }
    }
  }

  lemma NothingListed(q: Query, lines: seq<string>, ms: seq<Match>)
    ensures ListsMatches(q, lines, 0, ms) <==> ms == MatchesIn(q, lines, 0)
  {
    hide Cut, Encode;
    assert |ms| > 0 ==> !Listed(q, lines, 0, ms[0]);
  }
}
