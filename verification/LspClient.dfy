/** The client end of one language server: request table, server requests, and `$/progress` tracking. */
module LspClient {
  import opened Options

  /** The `id` member of a message, which JSON-RPC allows to be more than a number. */
  datatype Id = Number(n: int) | Text(s: string) | OtherJson(json: string)

  datatype Answer = Value(json: string) | ServerError(code: int, message: string) | ServerGone

  datatype Edge = Begin | End | Report

  /**
   * A message of the server; `answer` is what its `result` or `error` amounts to, `published` its parameters if they
   * are diagnostics, `progress` if they are progress.
   */
  datatype Frame = Frame(
    name: Option<string>, id: Option<Id>, answer: Answer,
    published: Option<(string, seq<string>)>, progress: Option<(string, Edge)>)

  datatype Reply = Accepted(id: Id) | Declined(id: Id, name: string)

  datatype Outcome = Answered(answer: Answer) | TimedOut | NotSent

  /** One request: whether it went out, what its channel holds, what its caller was told. */
  datatype Call = Call(sent: bool, mailbox: Option<Answer>, outcome: Option<Outcome>)

  datatype Progress = Progress(active: set<string>, completions: nat)

  /** `taken` are the ids handed out whose requests are not in the table yet. */
  datatype Client = Client(
    nextId: int, taken: set<int>, pending: set<int>, calls: map<int, Call>,
    diagnostics: map<string, seq<string>>, progress: Progress, replies: seq<Reply>)

  const INIT := Client(1, {}, {}, map[], map[], Progress({}, 0), [])

  // ----- Flycheck tokens -----

  function Lower(s: string): string {
    seq(|s|, i requires 0 <= i < |s| => if 'A' <= s[i] <= 'Z' then s[i] - 'A' + 'a' else s[i])
  }

  predicate Contains(s: string, part: string) {
    exists i :: 0 <= i <= |s| && part <= s[i..]
  }

  predicate IsFlycheck(token: string) {
    var lower := Lower(token);
    Contains(lower, "flycheck") || Contains(lower, "cargo check") || Contains(lower, "clippy")
  }

  predicate FlycheckRunning(p: Progress) {
    exists token <- p.active :: IsFlycheck(token)
  }

  /** Completions are counted in 64 bits. */
  const WRAP := 0x1_0000_0000_0000_0000

  // ----- What a message of the server does -----

  predicate IsResponse(f: Frame) {
    f.name.None? && f.id.Some? && f.id.value.Number?
  }

  const PUBLISH_DIAGNOSTICS := "textDocument/publishDiagnostics"
  const PROGRESS := "$/progress"
  const LOG_MESSAGE := "window/logMessage"
  const SHOW_MESSAGE := "window/showMessage"
  const CREATE_PROGRESS := "window/workDoneProgress/create"
  const REGISTER := "client/registerCapability"
  const UNREGISTER := "client/unregisterCapability"

  /** Methods handled as notifications, whether or not they carry an id. */
  predicate IsNotification(name: string) {
    name == PUBLISH_DIAGNOSTICS || name == PROGRESS || name == LOG_MESSAGE || name == SHOW_MESSAGE
  }

  /** A request the server expects an answer to. */
  predicate IsServerRequest(f: Frame) {
    f.name.Some? && f.id.Some? && !IsNotification(f.name.value)
  }

  function ReplyTo(f: Frame): Reply
    requires IsServerRequest(f)
  {
    var name := f.name.value;
    if name == CREATE_PROGRESS || name == REGISTER || name == UNREGISTER
    then Accepted(f.id.value) else Declined(f.id.value, name)
  }

  predicate IsProgress(f: Frame, edge: Edge) {
    f.name == Some(PROGRESS) && f.progress.Some? && f.progress.value.1 == edge
  }

  function Tracked(p: Progress, f: Frame): Progress {
    if IsProgress(f, Begin) then p.(active := p.active + {f.progress.value.0})
    else if IsProgress(f, End) then
      var token := f.progress.value.0;
      Progress(p.active - {token}, if IsFlycheck(token) then (p.completions + 1) % WRAP else p.completions)
    else p
  }

  predicate Publishes(f: Frame) {
    f.name == Some(PUBLISH_DIAGNOSTICS) && f.published.Some?
  }

  /** The cache keeps the files that have diagnostics. */
  function Cached(cache: map<string, seq<string>>, f: Frame): map<string, seq<string>> {
    if !Publishes(f) then cache
    else
      var (uri, found) := f.published.value;
      if found == [] then cache - {uri} else cache[uri := found]
  }

  /** A caller that has given up no longer listens. */
  function Told(call: Call, answer: Answer): Call {
    if call.outcome.None? then call.(mailbox := Some(answer)) else call
  }

  /** `open`: whether the writer still takes frames. */
  function Dispatched(c: Client, f: Frame, open: bool): Client {
    if IsResponse(f) then
      var id := f.id.value.n;
      if id in c.pending && id in c.calls
      then c.(pending := c.pending - {id}, calls := c.calls[id := Told(c.calls[id], f.answer)])
      else c
    else
      c.(diagnostics := Cached(c.diagnostics, f),
         progress := Tracked(c.progress, f),
         replies := c.replies + if IsServerRequest(f) && open then [ReplyTo(f)] else [])
  }

  function Taken(c: Client): Client {
    c.(nextId := c.nextId + 1, taken := c.taken + {c.nextId})
  }

  function Registered(c: Client, id: int): Client {
    c.(taken := c.taken - {id}, pending := c.pending + {id}, calls := c.calls[id := Call(false, None, None)])
  }

  /** The end of the reader: everyone pending is told, nothing is in progress any more. */
  function Drained(c: Client): Client {
    c.(pending := {},
       calls := map id <- c.calls :: if id in c.pending then Told(c.calls[id], ServerGone) else c.calls[id],
       progress := Progress({}, (c.progress.completions + 1) % WRAP))
  }

  /** The next entry of a hash table, in whatever order. */
  method AnyOf<T(==)>(s: set<T>) returns (x: T)
    requires s != {}
    ensures x in s
  {
    x :| x in s;
  }

  lemma SameCalls(c: Client, calls: map<int, Call>)
    requires calls.Keys == c.calls.Keys
    requires forall id <- calls :: calls[id] == if id in c.pending then Told(c.calls[id], ServerGone) else c.calls[id]
    ensures calls == Drained(c).calls
  {
    var drained := Drained(c).calls;
    assert drained.Keys == calls.Keys;
    assert forall id <- calls :: calls[id] == drained[id];
  }

  class Connection {
    var nextId: int
    ghost var taken: set<int>
    var pending: set<int>
    var calls: map<int, Call>
    var diagnostics: map<string, seq<string>>
    var active: set<string>
    var completions: nat
    var replies: seq<Reply>

    constructor ()
      ensures State() == INIT
    {
      nextId, taken, pending, calls := 1, {}, {}, map[];
      diagnostics, active, completions, replies := map[], {}, 0, [];
    }

    ghost function State(): Client
      reads this
    {
      Client(nextId, taken, pending, calls, diagnostics, Progress(active, completions), replies)
    }

    method TakeId() returns (id: int)
      modifies this
      ensures id == old(nextId) && State() == Taken(old(State()))
    {
      id := nextId;
      nextId := nextId + 1;
      taken := taken + {id};
    }

    method Register(id: int)
      modifies this
      ensures State() == Registered(old(State()), id)
    {
      taken := taken - {id};
      calls := calls[id := Call(false, None, None)];
      pending := pending + {id};
    }

    method Dispatch(f: Frame, open: bool)
      requires pending <= calls.Keys
      modifies this
      ensures State() == Dispatched(old(State()), f, open)
    {
      if f.name.None? {
        if f.id.Some? && f.id.value.Number? {
          var id := f.id.value.n;
          if id in pending {
            pending := pending - {id};
            calls := calls[id := Told(calls[id], f.answer)];
          }
        }
        return;
      }
      var name := f.name.value;
      if name == PUBLISH_DIAGNOSTICS {
        if f.published.Some? {
          var (uri, found) := f.published.value;
          if found == [] {
            diagnostics := diagnostics - {uri};
          } else {
            diagnostics := diagnostics[uri := found];
          }
        }
      } else if name == PROGRESS {
        if f.progress.Some? {
          var (token, edge) := f.progress.value;
          match edge
          case Begin => active := active + {token};
          case End =>
            active := active - {token};
            if IsFlycheck(token) {
              completions := (completions + 1) % WRAP;
            }
          case Report =>
        }
      } else if name == LOG_MESSAGE || name == SHOW_MESSAGE {
      } else if name == CREATE_PROGRESS || name == REGISTER || name == UNREGISTER {
        if f.id.Some? && open {
          replies := replies + [Accepted(f.id.value)];
        }
      } else {
        if f.id.Some? && open {
          replies := replies + [Declined(f.id.value, name)];
        }
      }
    }

    method Drain()
      requires pending <= calls.Keys
      modifies this
      ensures State() == Drained(old(State()))
    {
      var drained := pending;
      pending := {};
      hide Told;
      while drained != {}
        invariant drained <= old(pending) && pending == {} && calls.Keys == old(calls).Keys
        invariant forall id <- calls :: calls[id] ==
                    if id in old(pending) && id !in drained then Told(old(calls)[id], ServerGone) else old(calls)[id]
        invariant nextId == old(nextId) && taken == old(taken) && replies == old(replies)
        invariant diagnostics == old(diagnostics)
        invariant active == old(active) && completions == old(completions)
        decreases drained
      {
        var id := AnyOf(drained);
        drained := drained - {id};
        calls := calls[id := Told(calls[id], ServerGone)];
      }
      active := {};
      completions := (completions + 1) % WRAP;
      SameCalls(old(State()), calls);
    }
  }

  // ----- Every interleaving -----

  datatype System = System(client: Client, open: bool, reading: bool)

  const START := System(INIT, true, true)

  datatype Step =
    | TakeId(id: int)
    | Register(id: int)
    | Submit(id: int)
    | Take(id: int)
    | Expire(id: int)
    | Cleanup(id: int)
    | Deliver(frame: Frame)
    | WriterStops
    | ReaderStops

  predicate InFlight(c: Client, id: int) {
    id in c.calls && c.calls[id].sent && c.calls[id].outcome.None?
  }

  /** Any message may arrive at any time; a timer wins only over an empty channel. */
  predicate Enabled(s: System, step: Step) {
    var c := s.client;
    match step
    case TakeId(id) => id == c.nextId
    case Register(id) => id in c.taken
    case Submit(id) => id in c.calls && !c.calls[id].sent && c.calls[id].outcome.None?
    case Take(id) => InFlight(c, id) && c.calls[id].mailbox.Some?
    case Expire(id) => InFlight(c, id) && c.calls[id].mailbox.None?
    case Cleanup(id) => id in c.calls && c.calls[id].outcome == Some(TimedOut)
    case Deliver(_) => s.reading
    case WriterStops => s.open
    case ReaderStops => s.reading
  }

  function Apply(s: System, step: Step): System
    requires Enabled(s, step)
  {
    var c := s.client;
    match step
    case TakeId(_) => s.(client := Taken(c))
    case Register(id) => s.(client := Registered(c, id))
    case Submit(id) =>
      var call := if s.open then c.calls[id].(sent := true) else c.calls[id].(outcome := Some(NotSent));
      s.(client := c.(calls := c.calls[id := call]))
    case Take(id) =>
      s.(client := c.(calls := c.calls[id := c.calls[id].(outcome := Some(Answered(c.calls[id].mailbox.value)))]))
    case Expire(id) => s.(client := c.(calls := c.calls[id := c.calls[id].(outcome := Some(TimedOut))]))
    case Cleanup(id) => s.(client := c.(pending := c.pending - {id}))
    case Deliver(frame) => s.(client := Dispatched(c, frame, s.open))
    case WriterStops => s.(open := false)
    case ReaderStops => s.(client := Drained(c), reading := false)
  }

  predicate Possible(steps: seq<Step>)
    decreases |steps|, 0
  {
    steps == [] || (Possible(steps[..|steps| - 1]) && Enabled(After(steps[..|steps| - 1]), steps[|steps| - 1]))
  }

  function After(steps: seq<Step>): System
    requires Possible(steps)
    decreases |steps|, 1
  {
    if steps == [] then START else Apply(After(steps[..|steps| - 1]), steps[|steps| - 1])
  }
}
