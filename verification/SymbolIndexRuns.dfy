/** The incremental index agrees with a fresh rebuild. */
module SymbolIndexRuns {
  import opened Options
  import opened SymbolIndex

  // ----- Table laws -----

  lemma {:induction false} WithoutLaws(rows: seq<SymbolRow>, p: Path, q: Path)
    ensures SymbolsIn(Without(rows, p), q) == if p == q then [] else SymbolsIn(rows, q)
  {
    if rows != [] {
      WithoutLaws(rows[1..], p, q);
      var head := if rows[0].file == p then [] else [rows[0]];
      SymbolsInConcat(head, Without(rows[1..], p), q);
    }
  }

  lemma {:induction false} SymbolsInConcat(a: seq<SymbolRow>, b: seq<SymbolRow>, q: Path)
    ensures SymbolsIn(a + b, q) == SymbolsIn(a, q) + SymbolsIn(b, q)
  {
    if a == [] {
      assert a + b == b;
    } else {
      SymbolsInConcat(a[1..], b, q);
      assert (a + b)[1..] == a[1..] + b;
    }
  }

  lemma {:induction false} SymbolsInRows(p: Path, symbols: seq<Symbol>, q: Path)
    ensures SymbolsIn(RowsFor(p, symbols), q) == if p == q then symbols else []
  {
    if symbols != [] {
      SymbolsInRows(p, symbols[1..], q);
      assert RowsFor(p, symbols)[1..] == RowsFor(p, symbols[1..]);
    }
  }

  /** What an upsert and a removal leave under every path. */
  lemma UpsertLaws(db: Db, p: Path, row: FileRow, symbols: seq<Symbol>, q: Path)
    ensures SymbolsIn(Upsert(db, p, row, symbols).symbols, q) ==
            if p == q then symbols else SymbolsIn(db.symbols, q)
    ensures p in db.files ==> SymbolsIn(Remove(db, p).symbols, q) == if p == q then [] else SymbolsIn(db.symbols, q)
  {
    WithoutLaws(db.symbols, p, q);
    SymbolsInRows(p, symbols, q);
    SymbolsInConcat(Without(db.symbols, p), RowsFor(p, symbols), q);
  }

  // ----- What the index should hold -----

  /** The entry a rebuild makes for `p`, if the walk reaches it. */
  function Wanted(env: Env, tree: Tree, p: Path): Option<(FileRow, seq<Symbol>)> {
    if IsSource(env, tree, p) && Readable(tree[p]) && tree[p].visible then
      var lang := env.langOf(p).value;
      Some((FileRow(lang, tree[p].mtime), env.extract(lang, tree[p].text.value)))
    else None
  }

  /** A rebuild wants exactly the visible files that can be indexed, each with its language, its stored mtime and what is extracted. */
  lemma WantedExactly(env: Env, tree: Tree, p: Path)
    ensures Wanted(env, tree, p) ==
            if p in tree && tree[p].visible && Indexable(env, tree, p) then
              Some((FileRow(env.langOf(p).value, tree[p].mtime), env.extract(env.langOf(p).value, tree[p].text.value)))
            else None
  {
  }

  /** The index has exactly the entry for `p` that the current tree calls for. */
  predicate Agrees(env: Env, tree: Tree, db: Db, p: Path) {
    match Wanted(env, tree, p)
    case Some(entry) => p in db.files && db.files[p] == entry.0 && SymbolsIn(db.symbols, p) == entry.1
    case None => p !in db.files && SymbolsIn(db.symbols, p) == []
  }

  /** The walk yields every visible path of the tree once, in some order. */
  ghost predicate IsWalk(tree: Tree, walk: seq<Path>) {
    && (forall p :: p in walk <==> p in tree && tree[p].visible)
    && (forall i, j :: 0 <= i < j < |walk| ==> walk[i] != walk[j])
  }

  /** Two indexes answer every query about a file alike. */
  ghost predicate SameIndex(a: Db, b: Db) {
    a.files == b.files && forall p :: SymbolsIn(a.symbols, p) == SymbolsIn(b.symbols, p)
  }

  /** What a rebuild leaves at `p`: the current entry if the walk finds a readable source there, else what was there before. */
  lemma {:induction false} RebuildEntry(env: Env, tree: Tree, walk: seq<Path>, db: Db, p: Path)
    ensures var db' := Rebuild(env, tree, walk, db);
            if p in walk && IsSource(env, tree, p) && Readable(tree[p]) then
              var lang := env.langOf(p).value;
              && p in db'.files && db'.files[p] == FileRow(lang, tree[p].mtime)
              && SymbolsIn(db'.symbols, p) == env.extract(lang, tree[p].text.value)
            else
              && (p in db'.files <==> p in db.files) && (p in db.files ==> db'.files[p] == db.files[p])
              && SymbolsIn(db'.symbols, p) == SymbolsIn(db.symbols, p)
  {
    if walk == [] {
    } else {
      var front, last := walk[..|walk| - 1], walk[|walk| - 1];
      assert walk == front + [last];
      RebuildEntry(env, tree, front, db, p);
      if IsSource(env, tree, last) && Readable(tree[last]) {
        var lang := env.langOf(last).value;
        UpsertLaws(Rebuild(env, tree, front, db), last, FileRow(lang, tree[last].mtime),
                   env.extract(lang, tree[last].text.value), p);
      }
    }
  }

  /**
   * A rebuild over any index makes it right at `p` exactly if the walk finds a readable source there, or nothing
   * was stored there before: rows of files that are gone, ignored or unreadable stay.
   */
  lemma RebuildAgreesExactly(env: Env, tree: Tree, walk: seq<Path>, db: Db, p: Path)
    requires IsWalk(tree, walk)
    ensures Agrees(env, tree, Rebuild(env, tree, walk, db), p) <==>
            || (p in tree && tree[p].visible && IsSource(env, tree, p) && Readable(tree[p]))
            || (p !in db.files && SymbolsIn(db.symbols, p) == [])
  {
    RebuildEntry(env, tree, walk, db, p);
  }

  /** A rebuild from empty holds exactly what the tree calls for, whatever the order of the walk. */
  lemma FreshRebuildAgrees(env: Env, tree: Tree, walk: seq<Path>, p: Path)
    requires IsWalk(tree, walk)
    ensures Agrees(env, tree, Rebuild(env, tree, walk, EMPTY), p)
  {
    RebuildAgreesExactly(env, tree, walk, EMPTY, p);
  }

  lemma {:induction false} WithoutUnknown(rows: seq<SymbolRow>, p: Path)
    requires forall k :: 0 <= k < |rows| ==> rows[k].file != p
    ensures Without(rows, p) == rows
  {
    if rows != [] {
      WithoutUnknown(rows[1..], p);
    }
  }

  lemma {:induction false} RowsAreOf(p: Path, symbols: seq<Symbol>)
    ensures forall k :: 0 <= k < |symbols| ==> RowsFor(p, symbols)[k].file == p
  {
    if symbols != [] {
      RowsAreOf(p, symbols[1..]);
    }
  }

  /** From empty, over distinct paths, the symbol table is the extracted symbols, each stored once. */
  lemma {:induction false} RebuildStoresExtracted(env: Env, tree: Tree, walk: seq<Path>)
    requires forall i, j :: 0 <= i < j < |walk| ==> walk[i] != walk[j]
    ensures var db := Rebuild(env, tree, walk, EMPTY);
            && db.symbols == Extracted(env, tree, walk)
            && forall k :: 0 <= k < |db.symbols| ==> db.symbols[k].file in walk
  {
    if walk == [] {
    } else {
      var front, last := walk[..|walk| - 1], walk[|walk| - 1];
      assert walk == front + [last];
      RebuildStoresExtracted(env, tree, front);
      WithoutUnknown(Rebuild(env, tree, front, EMPTY).symbols, last);
      if IsSource(env, tree, last) && Readable(tree[last]) {
        RowsAreOf(last, env.extract(env.langOf(last).value, tree[last].text.value));
      }
    }
  }

  // ----- Histories of edits and updates -----

  datatype Happening =
    | Edit(path: Path, node: Option<Node>)
    | Update(path: Path)

  datatype World = World(tree: Tree, db: Db, dirty: set<Path>)

  /** An edit makes its path dirty, an update of a path cleans it. */
  function Happen(env: Env, w: World, h: Happening): World {
    match h
    case Edit(p, node) =>
      World(if node.Some? then w.tree[p := node.value] else w.tree - {p}, w.db, w.dirty + {p})
    case Update(p) => World(w.tree, ProcessChange(env, w.tree, w.db, p), w.dirty - {p})
  }

  function History(env: Env, w: World, hs: seq<Happening>): World {
    if hs == [] then w else Happen(env, History(env, w, hs[..|hs| - 1]), hs[|hs| - 1])
  }

  /**
   * A node that may stand at `p`: where sources live, only visible readable files of at most 1 MB
   * whose text is determined by their path and stored mtime (every content change changed the mtime).
   */
  predicate Tame(env: Env, version: (Path, int) -> string, p: Path, n: Node) {
    env.langOf(p).Some? && !env.generated(p) ==>
      !env.scratch(p) && Readable(n) && n.visible && n.text.value == version(p, n.mtime)
  }

  ghost predicate TameTree(env: Env, version: (Path, int) -> string, tree: Tree) {
    forall p <- tree :: Tame(env, version, p, tree[p])
  }

  ghost predicate TameHistory(env: Env, version: (Path, int) -> string, hs: seq<Happening>) {
    forall h <- hs :: h.Edit? && h.node.Some? ==> Tame(env, version, h.path, h.node.value)
  }

  /** Even a stale entry is an old version of the file, under the mtime it was indexed with. */
  predicate Dated(env: Env, version: (Path, int) -> string, db: Db, p: Path) {
    if p in db.files then
      && env.langOf(p).Some? && !env.generated(p)
      && db.files[p].lang == env.langOf(p).value
      && SymbolsIn(db.symbols, p) == env.extract(db.files[p].lang, version(p, db.files[p].mtime))
    else SymbolsIn(db.symbols, p) == []
  }

  lemma UpdateKeepsDated(env: Env, version: (Path, int) -> string, tree: Tree, db: Db, p: Path, q: Path)
    requires TameTree(env, version, tree) && Dated(env, version, db, q) && Dated(env, version, db, p)
    ensures var db' := ProcessChange(env, tree, db, p);
            && Dated(env, version, db', q)
            && (p != q ==> (q in db.files <==> q in db'.files) && (q in db.files ==> db'.files[q] == db.files[q]) &&
                           SymbolsIn(db'.symbols, q) == SymbolsIn(db.symbols, q))
            && (p == q && (p in tree || !env.scratch(p)) ==> Agrees(env, tree, db', p))
  {
    if p in tree {
      assert Tame(env, version, p, tree[p]);
      if IsSource(env, tree, p) {
        var lang := env.langOf(p).value;
        UpsertLaws(db, p, FileRow(lang, tree[p].mtime), env.extract(lang, tree[p].text.value), q);
      }
    } else {
      UpsertLaws(db, p, FileRow(Lang(""), 0), [], q);
    }
  }

  lemma {:induction false} HistoryInvariant(
    env: Env, version: (Path, int) -> string, w: World, hs: seq<Happening>, p: Path)
    requires TameTree(env, version, w.tree) && TameHistory(env, version, hs)
    requires forall q :: Dated(env, version, w.db, q) && (q !in w.dirty ==> Agrees(env, w.tree, w.db, q))
    requires forall q <- w.db.files :: !env.scratch(q)
    ensures var w' := History(env, w, hs);
            && TameTree(env, version, w'.tree)
            && Dated(env, version, w'.db, p)
            && (p in w'.db.files ==> !env.scratch(p))
            && (p !in w'.dirty ==> Agrees(env, w'.tree, w'.db, p))
  {
    if hs == [] {
    } else {
      var front, h := hs[..|hs| - 1], hs[|hs| - 1];
      assert h in hs;
      HistoryInvariant(env, version, w, front, p);
      HistoryInvariant(env, version, w, front, h.path);
      var v := History(env, w, front);
      if h.Update? {
        UpdateKeepsDated(env, version, v.tree, v.db, h.path, p);
      }
    }
  }

  /**
   * From a rebuild of a tame tree on an empty index, after any tame edits and any order and repetition
   * of updates that leaves no path dirty, the index is the one a rebuild of the final tree would make.
   */
  lemma IncrementalEqualsRebuild(
    env: Env, version: (Path, int) -> string,
    tree: Tree, walk: seq<Path>, hs: seq<Happening>, finalWalk: seq<Path>)
    requires IsWalk(tree, walk) && TameTree(env, version, tree) && TameHistory(env, version, hs)
    requires var w := History(env, World(tree, Rebuild(env, tree, walk, EMPTY), {}), hs);
             w.dirty == {} && IsWalk(w.tree, finalWalk)
    ensures var w := History(env, World(tree, Rebuild(env, tree, walk, EMPTY), {}), hs);
            SameIndex(w.db, Rebuild(env, w.tree, finalWalk, EMPTY))
  {
    var start := World(tree, Rebuild(env, tree, walk, EMPTY), {});
    forall q ensures Dated(env, version, start.db, q) && Agrees(env, tree, start.db, q) &&
                     (q in start.db.files ==> !env.scratch(q))
    {
      FreshRebuildAgrees(env, tree, walk, q);
      assert q in tree ==> Tame(env, version, q, tree[q]);
    }
    var w := History(env, start, hs);
    var rebuilt := Rebuild(env, w.tree, finalWalk, EMPTY);
    forall p ensures (p in w.db.files <==> p in rebuilt.files) &&
                     (p in w.db.files ==> w.db.files[p] == rebuilt.files[p]) &&
                     SymbolsIn(w.db.symbols, p) == SymbolsIn(rebuilt.symbols, p)
    {
      HistoryInvariant(env, version, start, hs, p);
      FreshRebuildAgrees(env, w.tree, finalWalk, p);
    }
  }

  // ----- Where the two part -----

  /** An update of one path leaves every other as it is. */
  lemma UpdateTouchesOne(env: Env, tree: Tree, db: Db, p: Path, q: Path)
    requires p != q
    ensures var db' := ProcessChange(env, tree, db, p);
            && (q in db'.files <==> q in db.files) && (q in db.files ==> db'.files[q] == db.files[q])
            && SymbolsIn(db'.symbols, q) == SymbolsIn(db.symbols, q)
  {
    if p in tree && IsSource(env, tree, p) && Readable(tree[p]) {
      var lang := env.langOf(p).value;
      UpsertLaws(db, p, FileRow(lang, tree[p].mtime), env.extract(lang, tree[p].text.value), q);
    } else {
      UpsertLaws(db, p, FileRow(Lang(""), 0), [], q);
    }
  }

  /**
   * Exactly when an update of `p` makes the index agree at `p`, for any tree, any path and any index
   * without orphaned symbols. A path in the index's own directory or of a generated file is not touched,
   * so it must be right already; one that is not a readable source must not have been indexed before (the
   * update leaves its row), an ignored source must not be touched (the update indexes it), and an
   * indexed source with the stored mtime is not looked at again.
   */
  lemma UpdateAgreesExactly(env: Env, tree: Tree, db: Db, p: Path)
    requires p !in db.files ==> SymbolsIn(db.symbols, p) == []
    ensures Agrees(env, tree, ProcessChange(env, tree, db, p), p) <==>
            if env.generated(p) then p !in db.files
            else if env.scratch(p) then
              if p !in tree || !IsSource(env, tree, p) || !Readable(tree[p]) || !tree[p].visible then p !in db.files
              else p in db.files && db.files[p].mtime == tree[p].mtime && Current(env, tree, db, p)
            else if p !in tree then true
            else if !IsSource(env, tree, p) || !Readable(tree[p]) then p !in db.files
            else if !tree[p].visible then false
            else if p in db.files && db.files[p].mtime == tree[p].mtime then Current(env, tree, db, p)
            else true
  {
    if p in tree && IsSource(env, tree, p) && Readable(tree[p]) {
      var lang := env.langOf(p).value;
      UpsertLaws(db, p, FileRow(lang, tree[p].mtime), env.extract(lang, tree[p].text.value), p);
    } else {
      UpsertLaws(db, p, FileRow(Lang(""), 0), [], p);
    }
  }

  /** The stored language and symbols are those of the file as it is. */
  predicate Current(env: Env, tree: Tree, db: Db, p: Path)
    requires IsSource(env, tree, p) && Readable(tree[p]) && p in db.files
  {
    && db.files[p].lang == env.langOf(p).value
    && SymbolsIn(db.symbols, p) == env.extract(env.langOf(p).value, tree[p].text.value)
  }

  /** Two edits within one second share a stored mtime: the second one is missed, though it was updated. */
  lemma SameSecondEditIsMissed()
    ensures exists env: Env, tree: Tree, hs: seq<Happening>, p: Path ::
              var w := History(env, World(tree, Rebuild(env, tree, [p], EMPTY), {}), hs);
              IsWalk(tree, [p]) && w.dirty == {} && !Agrees(env, w.tree, w.db, p)
  {
    var p := Path("a.rs");
    var env := Env(_ => Some(Lang("rust")), _ => false, _ => false,
                   (_, text) => [Symbol(text, "function", 1, 0, 1, 0)]);
    var tree: Tree := map[p := File(true, 3, Some("old"), 7)];
    var hs := [Edit(p, Some(File(true, 3, Some("new"), 7))), Update(p)];
    var start := World(tree, Rebuild(env, tree, [p], EMPTY), {});
    assert [p][..0] == [] && hs[..1] == [hs[0]] && hs[..1][..0] == [];
    FreshRebuildAgrees(env, tree, [p], p);
    var edited := Happen(env, start, hs[0]);
    assert History(env, start, hs[..1]) == edited;
    assert History(env, start, hs) == Happen(env, edited, hs[1]);
    assert ProcessChange(env, edited.tree, edited.db, p) == edited.db;
    assert SymbolsIn(edited.db.symbols, p)[0].name == "old";
  }

  /** A file that grows beyond 1 MB keeps its old row, which a rebuild would not make. */
  lemma GrownFileStaysStale(env: Env, tree: Tree, db: Db, p: Path)
    requires !env.scratch(p) && IsSource(env, tree, p) && tree[p].size > MAX_FILE_BYTES && p in db.files
    ensures ProcessChange(env, tree, db, p) == db && !Agrees(env, tree, db, p)
  {
  }
}
