/** Which documents are open on a language server, and the notifications that keep it up to date. */
module LspDocuments {
  import opened Options

  datatype OpenDoc = OpenDoc(version: int, hash: int)

  /** Versions are 32-bit and wrap around. */
  const MAX_VERSION := 0x7FFF_FFFF

  function Next(version: int): int {
    if version == MAX_VERSION then -MAX_VERSION - 1 else version + 1
  }

  datatype Note =
    | DidOpen(uri: string, version: int, text: string)
    | DidChange(uri: string, version: int, text: string)
    | DidSave(uri: string)
    | DidClose(uri: string)

  datatype Error = Io | InvalidPath | ServerGone

  /** How paths become URIs, if they do, and texts hashes. */
  datatype Env = Env(uri: string -> Option<string>, hash: string -> int)

  /** `log` is what the writer has taken, `room` how much more it takes before it is gone; `failed` once it took no more. */
  datatype DocState = DocState(table: map<string, OpenDoc>, log: seq<Note>, room: nat, failed: bool)

  function Init(room: nat): DocState {
    DocState(map[], [], room, false)
  }

  function Notify(s: DocState, note: Note): (DocState, Result<bool, Error>) {
    if s.room > 0 then (s.(log := s.log + [note], room := s.room - 1), Ok(true)) else (s.(failed := true), Err(ServerGone))
  }

  function OpenWith(env: Env, s: DocState, path: string, text: string): (DocState, Result<bool, Error>) {
    if env.uri(path).None? then (s, Err(InvalidPath))
    else
      var (s', sent) := Notify(s, DidOpen(env.uri(path).value, 1, text));
      if sent.Ok? then (s'.(table := s'.table[path := OpenDoc(1, env.hash(text))]), sent) else (s', sent)
  }

  function EnsuredOpen(env: Env, s: DocState, path: string, disk: Option<string>): (DocState, Result<bool, Error>) {
    if path in s.table then (s, Ok(false))
    else if disk.None? then (s, Err(Io))
    else OpenWith(env, s, path, disk.value)
  }

  function Pushed(env: Env, s: DocState, path: string, text: string): (DocState, Result<bool, Error>) {
    if env.uri(path).None? then (s, Err(InvalidPath))
    else if path !in s.table then OpenWith(env, s, path, text)
    else if s.table[path].hash == env.hash(text) then (s, Ok(false))
    else
      var version := Next(s.table[path].version);
      Notify(s.(table := s.table[path := OpenDoc(version, env.hash(text))]),
             DidChange(env.uri(path).value, version, text))
  }

  function Synced(env: Env, s: DocState, path: string, disk: Option<string>): (DocState, Result<bool, Error>) {
    if disk.None? then (s, Err(Io))
    else
      var (s', sent) := Pushed(env, s, path, disk.value);
      if path in s.table && sent == Ok(true) then Notify(s', DidSave(env.uri(path).value)) else (s', sent)
  }

  function Saved(env: Env, s: DocState, path: string): (DocState, Result<bool, Error>) {
    if path !in s.table then (s, Ok(false))
    else if env.uri(path).None? then (s, Err(InvalidPath))
    else Notify(s, DidSave(env.uri(path).value))
  }

  function Closed(env: Env, s: DocState, path: string): (DocState, Result<bool, Error>) {
    if path !in s.table then (s, Ok(false))
    else
      var s' := s.(table := s.table - {path});
      if env.uri(path).None? then (s', Err(InvalidPath)) else Notify(s', DidClose(env.uri(path).value))
  }

  /** The document methods of the client; calls are made one at a time. A result of `Ok(true)` means something was sent. */
  class Documents {
    const env: Env
    var table: map<string, OpenDoc>
    var log: seq<Note>
    var room: nat
    ghost var failed: bool

    constructor (env: Env, room: nat)
      ensures State() == Init(room) && this.env == env
    {
      this.env := env;
      this.room := room;
      table, log, failed := map[], [], false;
    }

    ghost function State(): DocState
      reads this
    {
      DocState(table, log, room, failed)
    }

    method Send(note: Note) returns (r: Result<bool, Error>)
      modifies this
      ensures (State(), r) == Notify(old(State()), note)
    {
      if room == 0 {
        failed := true;
        return Err(ServerGone);
      }
      log, room := log + [note], room - 1;
      r := Ok(true);
    }

    method EnsureOpen(path: string, disk: Option<string>) returns (r: Result<bool, Error>)
      modifies this
      ensures (State(), r) == EnsuredOpen(env, old(State()), path, disk)
    {
      if path in table {
        return Ok(false);
      }
      if disk.None? {
        return Err(Io);
      }
      var uri := env.uri(path);
      if uri.None? {
        return Err(InvalidPath);
      }
      r := Send(DidOpen(uri.value, 1, disk.value));
      if r.Ok? {
        table := table[path := OpenDoc(1, env.hash(disk.value))];
      }
    }

    method OpenOrUpdate(path: string, text: string) returns (r: Result<bool, Error>)
      modifies this
      ensures (State(), r) == Pushed(env, old(State()), path, text)
    {
      var hash, uri := env.hash(text), env.uri(path);
      if uri.None? {
        return Err(InvalidPath);
      }
      if path !in table {
        r := Send(DidOpen(uri.value, 1, text));
        if r.Ok? {
          table := table[path := OpenDoc(1, hash)];
        }
        return;
      }
      if table[path].hash == hash {
        return Ok(false);
      }
      var version := Next(table[path].version);
      table := table[path := OpenDoc(version, hash)];
      r := Send(DidChange(uri.value, version, text));
    }

    method SyncFromDisk(path: string, disk: Option<string>) returns (r: Result<bool, Error>)
      modifies this
      ensures (State(), r) == Synced(env, old(State()), path, disk)
    {
      if disk.None? {
        return Err(Io);
      }
      var text := disk.value;
      var hash, uri := env.hash(text), env.uri(path);
      if uri.None? {
        return Err(InvalidPath);
      }
      if path !in table {
        r := Send(DidOpen(uri.value, 1, text));
        if r.Ok? {
          table := table[path := OpenDoc(1, hash)];
        }
        return;
      }
      if table[path].hash == hash {
        return Ok(false);
      }
      var version := Next(table[path].version);
      table := table[path := OpenDoc(version, hash)];
      r := Send(DidChange(uri.value, version, text));
      if r.Ok? {
        r := Send(DidSave(uri.value));
      }
    }

    method Save(path: string) returns (r: Result<bool, Error>)
      modifies this
      ensures (State(), r) == Saved(env, old(State()), path)
    {
      if path !in table {
        return Ok(false);
      }
      var uri := env.uri(path);
      if uri.None? {
        return Err(InvalidPath);
      }
      r := Send(DidSave(uri.value));
    }

    method CloseDocument(path: string) returns (r: Result<bool, Error>)
      modifies this
      ensures (State(), r) == Closed(env, old(State()), path)
    {
      if path !in table {
        return Ok(false);
      }
      table := table - {path};
      var uri := env.uri(path);
      if uri.None? {
        return Err(InvalidPath);
      }
      r := Send(DidClose(uri.value));
    }
  }

  // ----- The server's side -----

  /** What a server holds for a document: the text, its version, and how often it changed since it was opened. */
  datatype ServerDoc = ServerDoc(version: int, text: string, changes: nat)

  /** What the specification of document synchronization allows when these documents are open. */
  predicate Allowed(docs: map<string, ServerDoc>, note: Note) {
    if note.DidOpen? then note.uri !in docs else note.uri in docs
  }

  function Receive(docs: map<string, ServerDoc>, note: Note): map<string, ServerDoc> {
    match note
    case DidOpen(uri, version, text) => docs[uri := ServerDoc(version, text, 0)]
    case DidChange(uri, version, text) =>
      if uri in docs then docs[uri := ServerDoc(version, text, docs[uri].changes + 1)] else docs
    case DidSave(_) => docs
    case DidClose(uri) => docs - {uri}
  }

  /** The documents a server has after these notifications. */
  function Replay(notes: seq<Note>): map<string, ServerDoc> {
    if notes == [] then map[] else Receive(Replay(notes[..|notes| - 1]), notes[|notes| - 1])
  }

  /** Versions start at one and go up by one. */
  predicate Numbered(docs: map<string, ServerDoc>, note: Note) {
    && (note.DidOpen? ==> note.version == 1)
    && (note.DidChange? && note.uri in docs ==> note.version == Next(docs[note.uri].version))
  }

  predicate AcceptedAt(notes: seq<Note>, k: nat)
    requires k < |notes|
  {
    Allowed(Replay(notes[..k]), notes[k]) && Numbered(Replay(notes[..k]), notes[k])
  }

  predicate AllAccepted(notes: seq<Note>) {
    forall k :: 0 <= k < |notes| ==> AcceptedAt(notes, k)
  }

  // ----- Runs -----

  datatype Op =
    | Ensure(path: string, disk: Option<string>)
    | Push(path: string, text: string)
    | Sync(path: string, disk: Option<string>)
    | SaveDoc(path: string)
    | Close(path: string)

  function Step(env: Env, s: DocState, op: Op): (DocState, Result<bool, Error>) {
    match op
    case Ensure(path, disk) => EnsuredOpen(env, s, path, disk)
    case Push(path, text) => Pushed(env, s, path, text)
    case Sync(path, disk) => Synced(env, s, path, disk)
    case SaveDoc(path) => Saved(env, s, path)
    case Close(path) => Closed(env, s, path)
  }

  function Run(env: Env, room: nat, ops: seq<Op>): DocState {
    if ops == [] then Init(room) else Step(env, Run(env, room, ops[..|ops| - 1]), ops[|ops| - 1]).0
  }
}
