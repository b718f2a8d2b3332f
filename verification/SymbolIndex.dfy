/**
 * The symbol index of a worktree: the two tables, the full rebuild that walks the tree, and the
 * incremental update of one changed path. Language detection, the filter for generated files and
 * the symbol extractor are parameters.
 */
module SymbolIndex {
  import opened Options

  const MAX_FILE_BYTES := 1_000_000

  /** A path relative to the worktree root, with forward slashes. */
  datatype Path = Path(text: string)

  datatype Lang = Lang(name: string)

  datatype Symbol = Symbol(name: string, kind: string, startLine: nat, startCol: nat, endLine: nat, endCol: nat)

  /** `scratch` says whether a path lies in the index's own directory. */
  datatype Env = Env(
    langOf: Path -> Option<Lang>, generated: Path -> bool, scratch: Path -> bool,
    extract: (Lang, string) -> seq<Symbol>)

  /** `visible` files and directories pass the ignore rules of the walk; `text` is None if it cannot be read. */
  datatype Node =
    | Directory(visible: bool)
    | File(visible: bool, size: nat, text: Option<string>, mtime: int)

  type Tree = map<Path, Node>

  // ----- Tables -----

  datatype FileRow = FileRow(lang: Lang, mtime: int)

  datatype SymbolRow = SymbolRow(file: Path, symbol: Symbol)

  datatype Db = Db(files: map<Path, FileRow>, symbols: seq<SymbolRow>)

  const EMPTY := Db(map[], [])

  function Without(rows: seq<SymbolRow>, p: Path): seq<SymbolRow> {
    if rows == [] then []
    else (if rows[0].file == p then [] else [rows[0]]) + Without(rows[1..], p)
  }

  function SymbolsIn(rows: seq<SymbolRow>, p: Path): seq<Symbol> {
    if rows == [] then []
    else (if rows[0].file == p then [rows[0].symbol] else []) + SymbolsIn(rows[1..], p)
  }

  function RowsFor(p: Path, symbols: seq<Symbol>): (rows: seq<SymbolRow>)
    ensures |rows| == |symbols|
  {
    if symbols == [] then [] else [SymbolRow(p, symbols[0])] + RowsFor(p, symbols[1..])
  }

  /** Replaces a file's row and all its symbols. */
  function Upsert(db: Db, p: Path, row: FileRow, symbols: seq<Symbol>): Db {
    Db(db.files[p := row], Without(db.symbols, p) + RowsFor(p, symbols))
  }

  /** Deletes a file's row; its symbols go with it through the foreign key. */
  function Remove(db: Db, p: Path): Db {
    if p in db.files then Db(db.files - {p}, Without(db.symbols, p)) else db
  }

  // ----- Rebuild and incremental update -----

  predicate IsSource(env: Env, tree: Tree, p: Path) {
    p in tree && tree[p].File? && env.langOf(p).Some? && !env.generated(p)
  }

  predicate Readable(n: Node) {
    n.File? && n.size <= MAX_FILE_BYTES && n.text.Some?
  }

  /** What a rebuild does with one entry of the walk. */
  function IndexEntry(env: Env, tree: Tree, db: Db, p: Path): Db {
    if IsSource(env, tree, p) && Readable(tree[p]) then
      var lang := env.langOf(p).value;
      Upsert(db, p, FileRow(lang, tree[p].mtime), env.extract(lang, tree[p].text.value))
    else db
  }

  function Rebuild(env: Env, tree: Tree, walk: seq<Path>, db: Db): Db {
    if walk == [] then db
    else IndexEntry(env, tree, Rebuild(env, tree, walk[..|walk| - 1], db), walk[|walk| - 1])
  }

  function ProcessChange(env: Env, tree: Tree, db: Db, p: Path): Db {
    if env.scratch(p) || env.generated(p) then db
    else if p !in tree then Remove(db, p)
    else if !IsSource(env, tree, p) || !Readable(tree[p]) then db
    else if p in db.files && db.files[p].mtime == tree[p].mtime then db
    else IndexEntry(env, tree, db, p)
  }

  datatype Progress = Progress(total: nat, indexed: nat, skipped: nat)

  datatype Report = Report(indexed: nat, symbols: nat, skipped: nat, bytes: nat)

  /** The source files of a walk, readable or not. */
  function Sources(env: Env, tree: Tree, walk: seq<Path>): nat {
    if walk == [] then 0
    else Sources(env, tree, walk[..|walk| - 1]) + if IsSource(env, tree, walk[|walk| - 1]) then 1 else 0
  }

  /** What the walk extracts, file by file. */
  function Extracted(env: Env, tree: Tree, walk: seq<Path>): seq<SymbolRow> {
    if walk == [] then []
    else Extracted(env, tree, walk[..|walk| - 1]) + EntryRows(env, tree, walk[|walk| - 1])
  }

  function EntryRows(env: Env, tree: Tree, p: Path): seq<SymbolRow> {
    if IsSource(env, tree, p) && Readable(tree[p])
    then RowsFor(p, env.extract(env.langOf(p).value, tree[p].text.value))
    else []
  }

  /** The sizes of the files indexed, added up. */
  function BytesIn(env: Env, tree: Tree, walk: seq<Path>): nat {
    if walk == [] then 0
    else
      var p := walk[|walk| - 1];
      BytesIn(env, tree, walk[..|walk| - 1]) + if IsSource(env, tree, p) && Readable(tree[p]) then tree[p].size else 0
  }

  /** A source file that can be indexed: regular, of a known language, not generated, at most 1 MB, readable as text. */
  predicate Indexable(env: Env, tree: Tree, p: Path) {
    && p in tree && tree[p].File? && env.langOf(p).Some? && !env.generated(p)
    && tree[p].size <= 1_000_000 && tree[p].text.Some?
  }

  /** A source file that cannot. */
  predicate Skipped(env: Env, tree: Tree, p: Path) {
    && p in tree && tree[p].File? && env.langOf(p).Some? && !env.generated(p)
    && (tree[p].size > 1_000_000 || tree[p].text.None?)
  }

  /** How many files of a walk are indexed and skipped. */
  function Tally(env: Env, tree: Tree, walk: seq<Path>): (t: (nat, nat)) {
    if walk == [] then (0, 0)
    else
      var (t, p) := (Tally(env, tree, walk[..|walk| - 1]), walk[|walk| - 1]);
      (t.0 + if Indexable(env, tree, p) then 1 else 0, t.1 + if Skipped(env, tree, p) then 1 else 0)
  }

  /** Progress is told after each file indexed whose number among the files indexed or skipped is a multiple of 25. */
  predicate Tells(env: Env, tree: Tree, walk: seq<Path>, k: nat)
    requires k < |walk|
  {
    var (indexed, skipped) := Tally(env, tree, walk[..k + 1]);
    Indexable(env, tree, walk[k]) && (indexed + skipped) % 25 == 0
  }

  function Told(env: Env, tree: Tree, walk: seq<Path>, n: nat, total: nat): seq<Progress>
    requires n <= |walk|
  {
    if n == 0 then [Progress(total, 0, 0)]
    else
      var (indexed, skipped) := Tally(env, tree, walk[..n]);
      Told(env, tree, walk, n - 1, total) +
      if Tells(env, tree, walk, n - 1) then [Progress(total, indexed, skipped)] else []
  }

  lemma OneMoreFile(env: Env, tree: Tree, walk: seq<Path>, i: nat)
    requires i < |walk|
    ensures var (t, t') := (Tally(env, tree, walk[..i]), Tally(env, tree, walk[..i + 1]));
            && t'.0 == t.0 + (if Indexable(env, tree, walk[i]) then 1 else 0)
            && t'.1 == t.1 + (if Skipped(env, tree, walk[i]) then 1 else 0)
    ensures IsSource(env, tree, walk[i]) <==> Indexable(env, tree, walk[i]) || Skipped(env, tree, walk[i])
    ensures IsSource(env, tree, walk[i]) && Readable(tree[walk[i]]) <==> Indexable(env, tree, walk[i])
  {
    assert walk[..i + 1][..i] == walk[..i];
  }

  lemma NothingTallied(env: Env, tree: Tree, walk: seq<Path>, db: Db)
    ensures Tally(env, tree, walk[..0]) == (0, 0) && Sources(env, tree, walk[..0]) == 0
    ensures Rebuild(env, tree, walk[..0], db) == db && Extracted(env, tree, walk[..0]) == []
    ensures BytesIn(env, tree, walk[..0]) == 0
  {
  }

  /** What one entry of the walk adds. */
  lemma OneMoreEntry(env: Env, tree: Tree, walk: seq<Path>, i: nat, db: Db)
    requires i < |walk|
    ensures var (p, front, back) := (walk[i], walk[..i], walk[..i + 1]);
            if Indexable(env, tree, p) then
              var lang := env.langOf(p).value;
              var found := env.extract(lang, tree[p].text.value);
              && Rebuild(env, tree, back, db) == Upsert(Rebuild(env, tree, front, db), p, FileRow(lang, tree[p].mtime), found)
              && |Extracted(env, tree, back)| == |Extracted(env, tree, front)| + |found|
              && BytesIn(env, tree, back) == BytesIn(env, tree, front) + tree[p].size
            else
              && Rebuild(env, tree, back, db) == Rebuild(env, tree, front, db)
              && Extracted(env, tree, back) == Extracted(env, tree, front)
              && BytesIn(env, tree, back) == BytesIn(env, tree, front)
    ensures Sources(env, tree, walk[..i + 1]) ==
            Sources(env, tree, walk[..i]) + if Indexable(env, tree, walk[i]) || Skipped(env, tree, walk[i]) then 1 else 0
  {
    OneMoreFile(env, tree, walk, i);
    assert walk[..i + 1][..i] == walk[..i];
    hide Upsert, RowsFor;
  }

  predicate AtStep(e: Progress, total: nat) {
    e.total == total && e.indexed + e.skipped <= total && (e.indexed + e.skipped) % 25 == 0
  }

  predicate Later(e: Progress, f: Progress) {
    e.indexed <= f.indexed && e.skipped <= f.skipped && e.indexed + e.skipped < f.indexed + f.skipped
  }

  /** Progress starts at zero, counts strictly up in steps of 25, never beyond the announced total. */
  predicate ProgressOk(events: seq<Progress>, total: nat) {
    && events != []
    && events[0] == Progress(total, 0, 0)
    && (forall i :: 0 <= i < |events| ==> AtStep(events[i], total))
    && (forall i, j :: 0 <= i < j < |events| ==> Later(events[i], events[j]))
  }

  lemma ProgressStarts(total: nat)
    ensures ProgressOk([Progress(total, 0, 0)], total)
  {
  }

  lemma ProgressGrows(events: seq<Progress>, total: nat, e: Progress)
    requires ProgressOk(events, total) && AtStep(e, total) && Later(events[|events| - 1], e)
    ensures ProgressOk(events + [e], total)
  {
    hide AtStep;
    forall i | 0 <= i < |events| ensures Later(events[i], e) {
      assert i < |events| - 1 ==> Later(events[i], events[|events| - 1]);
    }
  }

  class Index {
    var files: map<Path, FileRow>
    var symbols: seq<SymbolRow>

    constructor ()
      ensures State() == EMPTY
    {
      files, symbols := map[], [];
    }

    ghost function State(): Db
      reads this
    {
      Db(files, symbols)
    }

    method UpsertFile(p: Path, row: FileRow, found: seq<Symbol>)
      modifies this
      ensures State() == Upsert(old(State()), p, row, found)
    {
      symbols := Without(symbols, p);
      files := files[p := row];
      symbols := symbols + RowsFor(p, found);
    }

    method RemoveFile(p: Path)
      modifies this
      ensures State() == Remove(old(State()), p)
    {
      if p in files {
        files := files - {p};
        symbols := Without(symbols, p);
      }
    }

    method IndexFile(env: Env, p: Path, lang: Lang, mtime: int, text: string) returns (n: nat)
      modifies this
      ensures State() == Upsert(old(State()), p, FileRow(lang, mtime), env.extract(lang, text))
      ensures n == |env.extract(lang, text)|
    {
      var found := env.extract(lang, text);
      n := |found|;
      UpsertFile(p, FileRow(lang, mtime), found);
    }

    /** The watcher's update of one path. */
    method Change(env: Env, tree: Tree, p: Path)
      modifies this
      ensures State() == ProcessChange(env, tree, old(State()), p)
    {
      if env.scratch(p) || env.generated(p) {
        return;
      }
      if p !in tree {
        RemoveFile(p);
        return;
      }
      if !tree[p].File? || env.langOf(p).None? || tree[p].size > MAX_FILE_BYTES || tree[p].text.None? {
        return;
      }
      if p in files && files[p].mtime == tree[p].mtime {
        return;
      }
      var n := IndexFile(env, p, env.langOf(p).value, tree[p].mtime, tree[p].text.value);
    }

    /**
     * The full rebuild over a walk: every source file is either indexed or skipped, and progress
     * counts up in steps of 25.
     */
    method RebuildAll(env: Env, tree: Tree, walk: seq<Path>) returns (report: Report, events: seq<Progress>)
      modifies this
      ensures State() == Rebuild(env, tree, walk, old(State()))
      ensures report.indexed + report.skipped == Sources(env, tree, walk)
      ensures report.symbols == |Extracted(env, tree, walk)| && report.bytes == BytesIn(env, tree, walk)
      ensures (report.indexed, report.skipped) == Tally(env, tree, walk)
      ensures ProgressOk(events, report.indexed + report.skipped)
      ensures events == Told(env, tree, walk, |walk|, report.indexed + report.skipped)
    {
      hide Upsert, RowsFor, ProgressOk, Tally, Rebuild, IndexEntry, Extracted, BytesIn, Sources, EntryRows;
      NothingTallied(env, tree, walk, State());
      var total := CountIndexable(env, tree, walk);
      events := [Progress(total, 0, 0)];
      ProgressStarts(total);
      report := Report(0, 0, 0, 0);
      for i := 0 to |walk|
        invariant State() == Rebuild(env, tree, walk[..i], old(State()))
        invariant report.indexed + report.skipped == Sources(env, tree, walk[..i])
        invariant report.symbols == |Extracted(env, tree, walk[..i])| && report.bytes == BytesIn(env, tree, walk[..i])
        invariant (report.indexed, report.skipped) == Tally(env, tree, walk[..i])
        invariant events == Told(env, tree, walk, i, total)
        invariant ProgressOk(events, total) && events != []
        invariant var last := events[|events| - 1];
                  last.indexed <= report.indexed && last.skipped <= report.skipped
      {
        var p := walk[i];
        OneMoreEntry(env, tree, walk, i, old(State()));
        SourcesMonotone(env, tree, walk, i + 1);
        OneMoreFile(env, tree, walk, i);
        if p !in tree || !tree[p].File? || env.langOf(p).None? || env.generated(p) {
          continue;
        }
        if tree[p].size > MAX_FILE_BYTES || tree[p].text.None? {
          report := report.(skipped := report.skipped + 1);
          continue;
        }
        var n := IndexFile(env, p, env.langOf(p).value, tree[p].mtime, tree[p].text.value);
        report := Report(report.indexed + 1, report.symbols + n, report.skipped, report.bytes + tree[p].size);
        if (report.indexed + report.skipped) % 25 == 0 {
          var e := Progress(total, report.indexed, report.skipped);
          ProgressGrows(events, total, e);
          events := events + [e];
        }
      }
      assert walk[..|walk|] == walk;
    }
  }

  method CountIndexable(env: Env, tree: Tree, walk: seq<Path>) returns (n: nat)
    ensures n == Sources(env, tree, walk)
  {
    n := 0;
    for i := 0 to |walk|
      invariant n == Sources(env, tree, walk[..i])
    {
      assert walk[..i + 1][..i] == walk[..i];
      if IsSource(env, tree, walk[i]) {
        n := n + 1;
      }
    }
    assert walk[..|walk|] == walk;
  }

  lemma {:induction false} SourcesMonotone(env: Env, tree: Tree, walk: seq<Path>, i: nat)
    requires i <= |walk|
    ensures Sources(env, tree, walk[..i]) <= Sources(env, tree, walk)
  {
    if i == |walk| {
      assert walk[..i] == walk;
    } else {
      SourcesMonotone(env, tree, walk[..|walk| - 1], i);
      assert walk[..|walk| - 1][..i] == walk[..i];
    }
  }
}
