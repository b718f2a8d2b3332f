/** What document synchronization keeps over all calls, whatever is lost. */
module LspDocumentRuns {
  import opened Options
  import opened LspDocuments

  // ----- The server's documents follow the table -----

  ghost predicate Injective(uri: string -> Option<string>) {
    forall p, q :: uri(p).Some? && uri(p) == uri(q) ==> p == q
  }

  function Wrapped(n: int): int {
    (n + MAX_VERSION + 1) % (2 * (MAX_VERSION + 1)) - MAX_VERSION - 1
  }

  /** The server holds the document the table says it holds, under the version both count. */
  predicate DocMatches(env: Env, doc: OpenDoc, d: ServerDoc) {
    d.version == doc.version && env.hash(d.text) == doc.hash
  }

  ghost predicate Matches(env: Env, table: map<string, OpenDoc>, docs: map<string, ServerDoc>) {
    && (forall path :: path in table ==>
          env.uri(path).Some? && env.uri(path).value in docs && DocMatches(env, table[path], docs[env.uri(path).value]))
    && (forall uri :: uri in docs ==> exists path :: path in table && env.uri(path) == Some(uri))
  }

  predicate CountsVersions(docs: map<string, ServerDoc>) {
    forall uri <- docs :: docs[uri].version == Wrapped(1 + docs[uri].changes)
  }

  ghost predicate Inv(env: Env, s: DocState) {
    && AllAccepted(s.log)
    && CountsVersions(Replay(s.log))
    && (s.failed ==> s.room == 0)
    && (!s.failed ==> Matches(env, s.table, Replay(s.log)))
  }

  lemma ReplaySnoc(log: seq<Note>, note: Note)
    ensures Replay(log + [note]) == Receive(Replay(log), note)
    ensures AllAccepted(log) && Allowed(Replay(log), note) && Numbered(Replay(log), note) ==> AllAccepted(log + [note])
  {
    var all := log + [note];
    assert all[..|log|] == log;
    forall k | 0 <= k < |log| && AcceptedAt(log, k) ensures AcceptedAt(all, k) {
      assert all[..k] == log[..k];
    }
    hide Replay, Allowed, Numbered;
  }

  lemma NextCounts(n: nat)
    ensures Next(Wrapped(1 + n)) == Wrapped(1 + (n + 1))
  {
  }

  lemma OpenKeeps(env: Env, s: DocState, path: string, text: string)
    requires Injective(env.uri) && Inv(env, s) && path !in s.table
    ensures Inv(env, OpenWith(env, s, path, text).0)
  {
    if env.uri(path).Some? && s.room > 0 {
      var note := DidOpen(env.uri(path).value, 1, text);
      OpenMatches(env, s.table, Replay(s.log), path, text);
      ReplaySnoc(s.log, note);
      hide Replay, AllAccepted, Allowed, Numbered, Matches, CountsVersions, Receive;
    }
  }

  lemma OpenMatches(env: Env, table: map<string, OpenDoc>, docs: map<string, ServerDoc>, path: string, text: string)
    requires Injective(env.uri) && Matches(env, table, docs) && CountsVersions(docs)
    requires path !in table && env.uri(path).Some?
    ensures var note := DidOpen(env.uri(path).value, 1, text);
            && Allowed(docs, note) && Numbered(docs, note) && CountsVersions(Receive(docs, note))
            && Matches(env, table[path := OpenDoc(1, env.hash(text))], Receive(docs, note))
  {
    assert Wrapped(1) == 1;
    hide Wrapped, Next;
    var uri := env.uri(path).value;
    assert uri !in docs;
    var table', docs' := table[path := OpenDoc(1, env.hash(text))], docs[uri := ServerDoc(1, text, 0)];
    forall u | u in docs' ensures exists p :: p in table' && env.uri(p) == Some(u) {
      var p := if u == uri then path else var p :| p in table && env.uri(p) == Some(u); p;
      assert p in table' && env.uri(p) == Some(u);
    }
  }

  lemma ChangeMatches(env: Env, table: map<string, OpenDoc>, docs: map<string, ServerDoc>, path: string, text: string)
    requires Injective(env.uri) && Matches(env, table, docs) && CountsVersions(docs)
    requires path in table
    ensures env.uri(path).Some?
    ensures var version := Next(table[path].version);
            var note := DidChange(env.uri(path).value, version, text);
            && Allowed(docs, note) && Numbered(docs, note) && CountsVersions(Receive(docs, note))
            && Matches(env, table[path := OpenDoc(version, env.hash(text))], Receive(docs, note))
  {
    NextCounts(docs[env.uri(path).value].changes);
    hide Next, Wrapped;
  }

  lemma CloseMatches(env: Env, table: map<string, OpenDoc>, docs: map<string, ServerDoc>, path: string)
    requires Injective(env.uri) && Matches(env, table, docs) && CountsVersions(docs)
    requires path in table
    ensures env.uri(path).Some?
    ensures var note := DidClose(env.uri(path).value);
            && Allowed(docs, note) && Numbered(docs, note) && CountsVersions(Receive(docs, note))
            && Matches(env, table - {path}, Receive(docs, note))
  {
    hide Wrapped;
  }

  lemma SaveMatches(env: Env, table: map<string, OpenDoc>, docs: map<string, ServerDoc>, path: string)
    requires Matches(env, table, docs) && path in table
    ensures env.uri(path).Some?
    ensures var note := DidSave(env.uri(path).value); Allowed(docs, note) && Numbered(docs, note) && Receive(docs, note) == docs
  {
  }

  lemma PushKeeps(env: Env, s: DocState, path: string, text: string)
    requires Injective(env.uri) && Inv(env, s)
    ensures Inv(env, Pushed(env, s, path, text).0)
  {
    if path !in s.table {
      OpenKeeps(env, s, path, text);
    } else if env.uri(path).Some? && s.room > 0 {
      ChangeMatches(env, s.table, Replay(s.log), path, text);
      ReplaySnoc(s.log, DidChange(env.uri(path).value, Next(s.table[path].version), text));
    }
    hide Replay, AllAccepted, Allowed, Numbered, Matches, CountsVersions, Receive, Next;
  }

  lemma SaveKeeps(env: Env, s: DocState, path: string)
    requires Inv(env, s) && env.uri(path).Some?
    requires path in s.table
    ensures Inv(env, Notify(s, DidSave(env.uri(path).value)).0)
  {
    if s.room > 0 {
      SaveMatches(env, s.table, Replay(s.log), path);
      ReplaySnoc(s.log, DidSave(env.uri(path).value));
    }
    hide Replay, AllAccepted, Allowed, Numbered, Matches, CountsVersions, Receive;
  }

  lemma CloseKeeps(env: Env, s: DocState, path: string)
    requires Injective(env.uri) && Inv(env, s)
    ensures Inv(env, Closed(env, s, path).0)
  {
    if path in s.table && !s.failed {
      CloseMatches(env, s.table, Replay(s.log), path);
      ReplaySnoc(s.log, DidClose(env.uri(path).value));
    }
    hide Replay, AllAccepted, Allowed, Numbered, Matches, CountsVersions, Receive;
  }

  lemma StepKeeps(env: Env, s: DocState, op: Op)
    requires Injective(env.uri) && Inv(env, s)
    ensures Inv(env, Step(env, s, op).0)
  {
    hide Inv, Injective, OpenWith, Notify;
    match op
    case Ensure(path, disk) =>
      if path !in s.table && disk.Some? {
        OpenKeeps(env, s, path, disk.value);
      }
    case Push(path, text) => PushKeeps(env, s, path, text);
    case Sync(path, disk) =>
      if disk.Some? {
        PushKeeps(env, s, path, disk.value);
        var (s', sent) := Pushed(env, s, path, disk.value);
        if path in s.table && sent == Ok(true) {
          PushedIsOpen(env, s, path, disk.value);
          SaveKeeps(env, s', path);
        }
      }
    case SaveDoc(path) =>
      if path in s.table && env.uri(path).Some? {
        SaveKeeps(env, s, path);
      }
    case Close(path) => CloseKeeps(env, s, path);
  }

  lemma PushedIsOpen(env: Env, s: DocState, path: string, text: string)
    ensures var (s', sent) := Pushed(env, s, path, text);
            sent.Ok? ==> path in s'.table && s'.table[path].hash == env.hash(text) && env.uri(path).Some?
  {
  }

  /**
   * Whatever calls are made one after another, and wherever the channel breaks: every notification is one the
   * server can accept, and as long as none was lost its documents are those of the table.
   */
  lemma {:induction false} EveryRunKeeps(env: Env, room: nat, ops: seq<Op>)
    requires Injective(env.uri)
    ensures Inv(env, Run(env, room, ops))
  {
    if ops == [] {
      assert Replay([]) == map[];
    } else {
      EveryRunKeeps(env, room, ops[..|ops| - 1]);
      StepKeeps(env, Run(env, room, ops[..|ops| - 1]), ops[|ops| - 1]);
      hide Inv, Step;
    }
  }

  // ----- Versions -----

  lemma ReceiveCounts(docs: map<string, ServerDoc>, note: Note)
    requires CountsVersions(docs) && Numbered(docs, note)
    ensures CountsVersions(Receive(docs, note))
  {
    if note.DidChange? && note.uri in docs {
      NextCounts(docs[note.uri].changes);
    }
    assert Wrapped(1) == 1;
    hide Wrapped, Next;
  }

  lemma {:induction false} PrefixCounts(log: seq<Note>, k: nat)
    requires AllAccepted(log) && k <= |log|
    ensures CountsVersions(Replay(log[..k]))
  {
    if k == 0 {
      assert Replay([]) == map[];
    } else {
      PrefixCounts(log, k - 1);
      assert AcceptedAt(log, k - 1);
      assert log[..k][..k - 1] == log[..k - 1];
      ReceiveCounts(Replay(log[..k - 1]), log[k - 1]);
      hide CountsVersions, Receive, Numbered;
    }
  }

  lemma WrapExactly(n: nat)
    ensures Wrapped(n + 1) > Wrapped(n) <==> n % (2 * (MAX_VERSION + 1)) != MAX_VERSION
  {
  }

  /**
   * A change raises the version of its document exactly unless it is the one, after the first 2^31 - 2 since the
   * document was opened (and every 2^32 thereafter), on which the counter wraps around.
   */
  lemma VersionsRiseExactly(log: seq<Note>, k: nat)
    requires AllAccepted(log) && k < |log| && log[k].DidChange?
    ensures var docs, uri := Replay(log[..k]), log[k].uri;
            && uri in docs
            && (log[k].version > docs[uri].version <==> (docs[uri].changes + 1) % (2 * (MAX_VERSION + 1)) != MAX_VERSION)
  {
    assert AcceptedAt(log, k);
    PrefixCounts(log, k);
    var c := Replay(log[..k])[log[k].uri].changes;
    NextCounts(c);
    WrapExactly(c + 1);
    hide Wrapped, Next, Replay;
  }

  // ----- What a push achieves -----

  /** After a push that reports success the server has the pushed text, up to hash collisions if nothing was sent. */
  lemma PushIsSeen(env: Env, s: DocState, path: string, text: string)
    requires Injective(env.uri) && Inv(env, s) && !s.failed
    ensures var (s', sent) := Pushed(env, s, path, text);
            sent.Ok? ==>
              && env.uri(path).Some? && env.uri(path).value in Replay(s'.log)
              && var seen := Replay(s'.log)[env.uri(path).value].text;
              && (sent.value ==> seen == text)
              && env.hash(seen) == env.hash(text)
  {
    var (s', sent) := Pushed(env, s, path, text);
    if sent == Ok(true) {
      PushedNote(env, s, path, text);
      ReplaySnoc(s.log, s'.log[|s.log|]);
      hide Replay, Matches;
    } else {
      hide Replay, AllAccepted, CountsVersions;
    }
  }

  lemma PushedNote(env: Env, s: DocState, path: string, text: string)
    requires Inv(env, s) && !s.failed
    ensures var (s', sent) := Pushed(env, s, path, text);
            sent == Ok(true) ==>
              && env.uri(path).Some? && |s'.log| == |s.log| + 1 && s'.log == s.log + [s'.log[|s.log|]]
              && var note := s'.log[|s.log|];
              && (note.DidOpen? || (note.DidChange? && note.uri in Replay(s.log)))
              && note.uri == env.uri(path).value && note.text == text
  {
    hide Replay, AllAccepted, CountsVersions, Next;
  }

  /** With a hash that tells texts apart the server has exactly the text a successful push named. */
  lemma PushIsExact(env: Env, room: nat, ops: seq<Op>, path: string, text: string)
    requires Injective(env.uri) && forall a, b :: env.hash(a) == env.hash(b) ==> a == b
    ensures var s := Run(env, room, ops);
            var (s', sent) := Pushed(env, s, path, text);
            sent.Ok? && !s.failed ==>
              env.uri(path).Some? && env.uri(path).value in Replay(s'.log)
              && Replay(s'.log)[env.uri(path).value].text == text
  {
    var s := Run(env, room, ops);
    EveryRunKeeps(env, room, ops);
    if !s.failed {
      PushIsSeen(env, s, path, text);
    }
    hide Inv, Replay, Pushed, Run;
  }

  /** Once the channel is gone a repeated push reports that there is nothing to send, though it was never sent. */
  lemma LostPushLooksDone(env: Env, s: DocState, path: string, text: string)
    requires s.room == 0 && path in s.table && env.uri(path).Some? && s.table[path].hash != env.hash(text)
    ensures var (s', first) := Pushed(env, s, path, text);
            var (s'', second) := Pushed(env, s', path, text);
            first == Err(ServerGone) && second == Ok(false) && s''.log == s.log
  {
  }

  /** A call about one document leaves all others of the server alone. */
  lemma CallTouchesOne(env: Env, s: DocState, op: Op, uri: string)
    requires env.uri(op.path) != Some(uri)
    ensures var docs, docs' := Replay(s.log), Replay(Step(env, s, op).0.log);
            (uri in docs <==> uri in docs') && (uri in docs ==> docs[uri] == docs'[uri])
  {
    match op
    case Ensure(path, disk) =>
      if path !in s.table && disk.Some? {
        OpenTouchesOne(env, s, path, disk.value, uri);
      }
    case Push(path, text) => PushTouchesOne(env, s, path, text, uri);
    case Sync(path, disk) =>
      if disk.Some? {
        PushTouchesOne(env, s, path, disk.value, uri);
        var (s', sent) := Pushed(env, s, path, disk.value);
        if path in s.table && sent == Ok(true) {
          NotifyTouchesOne(s', DidSave(env.uri(path).value), uri);
        }
      }
    case SaveDoc(path) =>
      if env.uri(path).Some? {
        NotifyTouchesOne(s, DidSave(env.uri(path).value), uri);
      }
    case Close(path) =>
      if env.uri(path).Some? {
        NotifyTouchesOne(s.(table := s.table - {path}), DidClose(env.uri(path).value), uri);
      }
    hide Replay, Notify, Pushed, OpenWith;
  }

  lemma NotifyTouchesOne(s: DocState, note: Note, uri: string)
    requires note.uri != uri
    ensures var docs, docs' := Replay(s.log), Replay(Notify(s, note).0.log);
            (uri in docs <==> uri in docs') && (uri in docs ==> docs[uri] == docs'[uri])
  {
    ReplaySnoc(s.log, note);
    hide Replay;
  }

  lemma OpenTouchesOne(env: Env, s: DocState, path: string, text: string, uri: string)
    requires env.uri(path) != Some(uri)
    ensures var docs, docs' := Replay(s.log), Replay(OpenWith(env, s, path, text).0.log);
            (uri in docs <==> uri in docs') && (uri in docs ==> docs[uri] == docs'[uri])
  {
    if env.uri(path).Some? {
      NotifyTouchesOne(s, DidOpen(env.uri(path).value, 1, text), uri);
    }
    hide Replay, Notify;
  }

  lemma PushTouchesOne(env: Env, s: DocState, path: string, text: string, uri: string)
    requires env.uri(path) != Some(uri)
    ensures var docs, docs' := Replay(s.log), Replay(Pushed(env, s, path, text).0.log);
            (uri in docs <==> uri in docs') && (uri in docs ==> docs[uri] == docs'[uri])
  {
    OpenTouchesOne(env, s, path, text, uri);
    if env.uri(path).Some? && path in s.table {
      var version := Next(s.table[path].version);
      NotifyTouchesOne(s.(table := s.table[path := OpenDoc(version, env.hash(text))]),
                       DidChange(env.uri(path).value, version, text), uri);
    }
    hide Replay, Notify, OpenWith;
  }

  // ----- What was taken, and what a push achieves when something was lost -----

  /** The text a call brings along. */
  function Carried(op: Op): Option<string> {
    match op
    case Ensure(_, disk) => disk
    case Push(_, text) => Some(text)
    case Sync(_, disk) => disk
    case SaveDoc(_) => None
    case Close(_) => None
  }

  predicate Grew(env: Env, s: DocState, op: Op) {
    Step(env, s, op).0.log != s.log
  }

  /** The text of the last call about `path` that the channel took, since the last close. */
  function LastTaken(env: Env, room: nat, ops: seq<Op>, path: string): Option<string> {
    if ops == [] then None
    else
      var front, op := ops[..|ops| - 1], ops[|ops| - 1];
      if op.path != path then LastTaken(env, room, front, path)
      else if op.Close? then None
      else if Carried(op).Some? && Grew(env, Run(env, room, front), op) then Carried(op)
      else LastTaken(env, room, front, path)
  }

  /**
   * A caller sees from the results what the channel took: an ensure or a push was taken exactly if it reports so;
   * only a sync that finds the channel gone may or may not have delivered its change before its save.
   */
  lemma TakenIsReported(env: Env, s: DocState, op: Op)
    requires op.Ensure? || op.Push? || op.Sync?
    ensures op.Ensure? || op.Push? ==> (Grew(env, s, op) <==> Step(env, s, op).1 == Ok(true))
    ensures op.Ensure? ==> (Grew(env, s, op) <==> Step(env, s, op).1.Ok? && op.path !in s.table)
    ensures op.Sync? ==>
              && (Step(env, s, op).1 == Ok(true) ==> Grew(env, s, op))
              && (Grew(env, s, op) && Step(env, s, op).1 != Ok(true) ==>
                    Step(env, s, op).1 == Err(ServerGone) && s.room == 1 && op.path in s.table)
  {
  }

  /** An open document of the table is open on the server, with the last text taken for it, even if notifications were lost. */
  predicate HoldsTaken(env: Env, s: DocState, path: string, taken: Option<string>) {
    path in s.table ==>
      && env.uri(path).Some? && env.uri(path).value in Replay(s.log)
      && taken == Some(Replay(s.log)[env.uri(path).value].text)
  }

  lemma OpenTakes(env: Env, s: DocState, path: string, text: string, taken: Option<string>)
    requires path !in s.table
    ensures var s' := OpenWith(env, s, path, text).0;
            HoldsTaken(env, s', path, if s'.log != s.log then Some(text) else taken)
  {
    if env.uri(path).Some? {
      ReplaySnoc(s.log, DidOpen(env.uri(path).value, 1, text));
    }
    hide Replay;
  }

  lemma PushTakes(env: Env, s: DocState, path: string, text: string, taken: Option<string>)
    requires HoldsTaken(env, s, path, taken)
    ensures var (s', sent) := Pushed(env, s, path, text);
            && HoldsTaken(env, s', path, if s'.log != s.log then Some(text) else taken)
            && (s'.log != s.log <==> sent == Ok(true)) && |s'.log| >= |s.log|
            && (sent.Ok? ==> path in s'.table)
  {
    if path !in s.table {
      OpenTakes(env, s, path, text, taken);
    } else if env.uri(path).Some? {
      ReplaySnoc(s.log, DidChange(env.uri(path).value, Next(s.table[path].version), text));
    }
    hide Replay, Next;
  }

  lemma SaveTakes(env: Env, s: DocState, path: string, taken: Option<string>)
    requires HoldsTaken(env, s, path, taken) && path in s.table
    ensures HoldsTaken(env, Notify(s, DidSave(env.uri(path).value)).0, path, taken)
    ensures |Notify(s, DidSave(env.uri(path).value)).0.log| >= |s.log|
  {
    ReplaySnoc(s.log, DidSave(env.uri(path).value));
    hide Replay;
  }

  lemma StepTakes(env: Env, s: DocState, op: Op, taken: Option<string>)
    requires HoldsTaken(env, s, op.path, taken)
    ensures HoldsTaken(env, Step(env, s, op).0, op.path,
                       if op.Close? then None
                       else if Carried(op).Some? && Grew(env, s, op) then Carried(op) else taken)
  {
    hide Replay, OpenWith, Pushed, HoldsTaken;
    match op
    case Ensure(path, disk) =>
      if path !in s.table && disk.Some? {
        OpenTakes(env, s, path, disk.value, taken);
      }
    case Push(path, text) => PushTakes(env, s, path, text, taken);
    case Sync(path, disk) =>
      if disk.Some? {
        PushTakes(env, s, path, disk.value, taken);
        var (s', sent) := Pushed(env, s, path, disk.value);
        if path in s.table && sent == Ok(true) {
          SaveTakes(env, s', path, Some(disk.value));
        }
      }
    case SaveDoc(path) =>
      if path in s.table {
        SaveTakes(env, s, path, taken);
      }
    case Close(path) => ClosedHoldsNothing(env, s, path);
  }

  lemma ClosedHoldsNothing(env: Env, s: DocState, path: string)
    ensures HoldsTaken(env, Closed(env, s, path).0, path, None)
  {
    hide Replay;
  }

  lemma {:induction false} RunHoldsTaken(env: Env, room: nat, ops: seq<Op>, path: string)
    requires Injective(env.uri)
    ensures HoldsTaken(env, Run(env, room, ops), path, LastTaken(env, room, ops, path))
  {
    if ops != [] {
      var front, op := ops[..|ops| - 1], ops[|ops| - 1];
      var s := Run(env, room, front);
      RunHoldsTaken(env, room, front, path);
      if op.path == path {
        StepTakes(env, s, op, LastTaken(env, room, front, path));
        hide Step, HoldsTaken, Grew;
      } else {
        OtherPathHolds(env, s, op, path, LastTaken(env, room, front, path));
        hide Step, HoldsTaken, Grew;
      }
    }
  }

  lemma OtherPathHolds(env: Env, s: DocState, op: Op, path: string, taken: Option<string>)
    requires Injective(env.uri) && op.path != path && HoldsTaken(env, s, path, taken)
    ensures HoldsTaken(env, Step(env, s, op).0, path, taken)
  {
    assert path in Step(env, s, op).0.table <==> path in s.table by { hide Replay; }
    if path in s.table {
      CallTouchesOne(env, s, op, env.uri(path).value);
    }
    hide Replay, Step;
  }

  /**
   * Over every run, with notifications lost or not: after a push that reports success the server has the pushed text
   * exactly if the push sent it, or it is the text that was last taken for this document.
   */
  lemma PushSeenExactly(env: Env, room: nat, ops: seq<Op>, path: string, text: string)
    requires Injective(env.uri)
    ensures var s := Run(env, room, ops);
            var (s', sent) := Pushed(env, s, path, text);
            sent.Ok? ==>
              && env.uri(path).Some? && env.uri(path).value in Replay(s'.log)
              && (Replay(s'.log)[env.uri(path).value].text == text <==>
                  sent.value || LastTaken(env, room, ops, path) == Some(text))
  {
    var s, taken := Run(env, room, ops), LastTaken(env, room, ops, path);
    RunHoldsTaken(env, room, ops, path);
    PushTakes(env, s, path, text, taken);
    hide Run, Replay, LastTaken, Pushed;
  }

  /** Where the pipe itself breaks, the server has got a prefix of what the channel took, and could accept all of it. */
  lemma DeliveredIsAccepted(env: Env, room: nat, ops: seq<Op>, k: nat)
    requires Injective(env.uri) && k <= |Run(env, room, ops).log|
    ensures AllAccepted(Run(env, room, ops).log[..k])
  {
    EveryRunKeeps(env, room, ops);
    var log := Run(env, room, ops).log;
    hide Run, Replay;
    forall i | 0 <= i < k ensures AcceptedAt(log[..k], i) {
      assert log[..k][..i] == log[..i];
      assert AcceptedAt(log, i);
    }
  }

  // ----- A version that falls -----

  function Alternate(n: nat): string {
    if n % 2 == 0 then "" else "x"
  }

  /** `n` pushes of two texts in turn. */
  function Pushes(path: string, n: nat): seq<Op> {
    if n == 0 then [] else Pushes(path, n - 1) + [Push(path, Alternate(n))]
  }

  /** The document has been opened and then changed up to its version number `n`. */
  predicate PushedTimes(env: Env, s: DocState, path: string, n: nat)
    requires env.uri(path).Some?
  {
    var uri := env.uri(path).value;
    && path in s.table && s.table[path] == OpenDoc(Wrapped(n), env.hash(Alternate(n)))
    && uri in Replay(s.log) && Replay(s.log)[uri].version == Wrapped(n)
  }

  lemma FirstPush(env: Env, room: nat, path: string)
    requires env.uri(path).Some? && room > 0
    ensures var s' := Pushed(env, Init(room), path, Alternate(1)).0;
            PushedTimes(env, s', path, 1) && s'.room == room - 1
  {
    ReplaySnoc([], DidOpen(env.uri(path).value, 1, Alternate(1)));
    assert Wrapped(1) == 1;
    hide Replay, Wrapped;
  }

  lemma NextPush(env: Env, s: DocState, path: string, n: nat)
    requires env.uri(path).Some? && env.hash("") != env.hash("x") && s.room > 0
    requires n > 0 && PushedTimes(env, s, path, n)
    ensures var (s', note) := (Pushed(env, s, path, Alternate(n + 1)).0,
                               DidChange(env.uri(path).value, Wrapped(n + 1), Alternate(n + 1)));
            PushedTimes(env, s', path, n + 1) && s'.room == s.room - 1 && s'.log == s.log + [note]
  {
    NextCounts(n - 1);
    assert env.hash(Alternate(n + 1)) != env.hash(Alternate(n));
    ReplaySnoc(s.log, DidChange(env.uri(path).value, Wrapped(n + 1), Alternate(n + 1)));
    hide Replay, Wrapped, Next, Alternate;
  }

  lemma PushesSnoc(env: Env, room: nat, path: string, n: nat)
    requires n > 0
    ensures Run(env, room, Pushes(path, n)) == Pushed(env, Run(env, room, Pushes(path, n - 1)), path, Alternate(n)).0
  {
    var ops := Pushes(path, n);
    assert ops[..|ops| - 1] == Pushes(path, n - 1) && ops[|ops| - 1] == Push(path, Alternate(n));
    hide Pushed, Alternate;
  }

  lemma NoPushes(env: Env, room: nat, path: string)
    ensures Run(env, room, Pushes(path, 0)) == Init(room)
  {
  }

  lemma {:induction false} PushesCount(env: Env, room: nat, path: string, n: nat)
    requires env.uri(path).Some? && env.hash("") != env.hash("x") && 0 < n <= room
    ensures var s := Run(env, room, Pushes(path, n)); PushedTimes(env, s, path, n) && s.room == room - n
  {
    hide *;
    PushesSnoc(env, room, path, n);
    if n == 1 {
      NoPushes(env, room, path);
      FirstPush(env, room, path);
    } else {
      PushesCount(env, room, path, n - 1);
      NextPush(env, Run(env, room, Pushes(path, n - 1)), path, n - 1);
    }
  }

  /** The push that makes a version fall: the 2^31st in a row that opens or changes a document. */
  lemma VersionCanFall(env: Env, path: string, n: nat)
    requires env.uri(path).Some? && env.hash("") != env.hash("x") && n == MAX_VERSION + 1
    ensures var log := Run(env, n, Pushes(path, n)).log;
            && log != [] && log[|log| - 1].DidChange?
            && var before := Replay(log[..|log| - 1]);
            log[|log| - 1].uri in before && log[|log| - 1].version < before[log[|log| - 1].uri].version
  {
    PushesCount(env, n, path, n - 1);
    PushesSnoc(env, n, path, n);
    var s := Run(env, n, Pushes(path, n - 1));
    NextPush(env, s, path, n - 1);
    hide Run, Replay, Pushes, Pushed, Alternate;
    var note := DidChange(env.uri(path).value, Wrapped(n), Alternate(n));
    assert (s.log + [note])[..|s.log|] == s.log;
  }

  // ----- What goes over the wire -----

  /** The notifications of a call as long as the channel takes them; `None` if the call fails before it has any. */
  ghost predicate Sends(env: Env, s: DocState, op: Op, notes: seq<Note>) {
    && env.uri(op.path).Some?
    && var uri := env.uri(op.path).value;
    match op
    case Ensure(path, disk) =>
      if path in s.table then notes == [] else disk.Some? && notes == [DidOpen(uri, 1, disk.value)]
    case Push(path, text) => notes == TextNotes(env, s, path, uri, text)
    case Sync(path, disk) =>
      && disk.Some?
      && var pushed := TextNotes(env, s, path, uri, disk.value);
      notes == pushed + if pushed != [] && path in s.table then [DidSave(uri)] else []
    case SaveDoc(path) => notes == if path in s.table then [DidSave(uri)] else []
    case Close(path) => notes == if path in s.table then [DidClose(uri)] else []
  }

  /** A closed document is opened with the text, an open one changed to it under the next version if its hash differs. */
  function TextNotes(env: Env, s: DocState, path: string, uri: string, text: string): seq<Note> {
    if path !in s.table then [DidOpen(uri, 1, text)]
    else if s.table[path].hash == env.hash(text) then []
    else
      var version := s.table[path].version;
      [DidChange(uri, if version == 2147483647 then -2147483648 else version + 1, text)]
  }

  /** Every call sends its notifications, as many as the channel takes, and succeeds exactly if it takes them all. */
  lemma NotesExactly(env: Env, s: DocState, op: Op, notes: seq<Note>)
    requires Sends(env, s, op, notes)
    ensures var ((s', r), taken) := (Step(env, s, op), if |notes| <= s.room then |notes| else s.room);
            && s'.log == s.log + notes[..taken] && s'.room == s.room - taken
            && r == (if |notes| <= s.room then Ok(notes != []) else Err(ServerGone))
  {
    assert notes[..|notes|] == notes;
    assert s.log + [] == s.log;
  }

  /** A call sends nothing and changes nothing if its file cannot be read, or its path is no URI; closing forgets the document all the same. */
  lemma FailsExactly(env: Env, s: DocState, op: Op)
    ensures var (s', r) := Step(env, s, op);
            && (r == Err(Io) <==> (op.Ensure? && op.path !in s.table && op.disk.None?) || (op.Sync? && op.disk.None?))
            && (r == Err(InvalidPath) <==>
                  && env.uri(op.path).None? && r != Err(Io)
                  && (op.Push? || op.Sync? || (op.Ensure? && op.path !in s.table) || ((op.SaveDoc? || op.Close?) && op.path in s.table)))
            && (r == Err(Io) ==> s' == s)
            && (r == Err(InvalidPath) ==> s' == if op.Close? then s.(table := s.table - {op.path}) else s)
  {
  }

  /** What the table holds after a call: a document opened or changed with its hash, a closed one no more, all others as before. */
  lemma TableExactly(env: Env, s: DocState, op: Op, path: string)
    ensures var (s', r) := Step(env, s, op);
            && (path != op.path ==> (path in s'.table <==> path in s.table) && (path in s.table ==> s'.table[path] == s.table[path]))
            && (op.Close? ==> op.path !in s'.table)
            && (op.SaveDoc? ==> s'.table == s.table)
            && ((op.Push? || op.Sync? || op.Ensure?) && r.Ok? ==> op.path in s'.table)
            && ((op.Push? || op.Sync?) && r.Ok? ==> s'.table[op.path].hash == env.hash(Carried(op).value))
            && (r.Err? && op.path !in s.table ==> op.path !in s'.table)
  {
  }
}
