/**
 * The request protocol between the backend and the agent of one distro: two FIFO pipes of whole
 * frames, one agent task per request, streamed events, replies in any order, and end of file.
 */
module AgentRpc {

  /** A request id: a fresh UUID, read as a number. */
  type Id = nat

  datatype Value = Json(text: string)

  datatype Op = FsWatch | OtherOp(name: string)

  datatype Request = Request(op: Op, args: Value)

  datatype Frame =
    | Event(id: Id, data: Value)
    | ResultFrame(id: Id, data: Value)
    | ErrorFrame(id: Id, code: string, message: string)

  datatype Outcome =
    | Ok(data: Value)
    | Remote(code: string, message: string)
    | AgentGone

  /** One use of a call's result channel. */
  datatype Resolution = Resolution(id: Id, outcome: Outcome)

  // ----- The backend's side -----

  /** `pending` maps a call to whether it listens to events; `log` lists the result channels used so far. */
  datatype Backend = Backend(pending: map<Id, bool>, received: map<Id, seq<Value>>, log: seq<Resolution>)

  function Register(b: Backend, id: Id, streaming: bool): Backend {
    b.(pending := b.pending[id := streaming], received := b.received[id := []])
  }

  function Resolve(b: Backend, id: Id, outcome: Outcome): Backend {
    if id in b.pending then b.(pending := b.pending - {id}, log := b.log + [Resolution(id, outcome)]) else b
  }

  function Route(b: Backend, f: Frame): Backend {
    match f
    case Event(id, data) =>
      if id in b.pending && b.pending[id] && id in b.received
      then b.(received := b.received[id := b.received[id] + [data]])
      else b
    case ResultFrame(id, data) => Resolve(b, id, Ok(data))
    case ErrorFrame(id, code, message) => Resolve(b, id, Remote(code, message))
  }

  predicate DistinctIds(log: seq<Resolution>) {
    forall i, j :: 0 <= i < j < |log| ==> log[i].id != log[j].id
  }

  /** `b'` is `b` with every pending call resolved to AgentGone, once each, in some order. */
  ghost predicate Drained(b: Backend, b': Backend) {
    && b'.pending == map[]
    && b'.received == b.received
    && |b'.log| >= |b.log| && b'.log[..|b.log|] == b.log
    && DistinctIds(b'.log[|b.log|..])
    && (forall k :: |b.log| <= k < |b'.log| ==> b'.log[k].outcome == AgentGone && b'.log[k].id in b.pending)
    && (forall id <- b.pending :: Resolution(id, AgentGone) in b'.log[|b.log|..])
  }

  class AgentHandle {
    var pending: map<Id, bool>
    var received: map<Id, seq<Value>>
    var log: seq<Resolution>

    constructor ()
      ensures State() == Backend(map[], map[], [])
    {
      pending, received, log := map[], map[], [];
    }

    ghost function State(): Backend
      reads this
    {
      Backend(pending, received, log)
    }

    method RegisterCall(id: Id, streaming: bool)
      modifies this
      ensures State() == Register(old(State()), id, streaming)
    {
      pending := pending[id := streaming];
      received := received[id := []];
    }

    method RouteFrame(f: Frame)
      modifies this
      ensures State() == Route(old(State()), f)
    {
      match f
      case Event(id, data) =>
        if id in pending && pending[id] && id in received {
          received := received[id := received[id] + [data]];
        }
      case ResultFrame(id, data) =>
        if id in pending {
          pending := pending - {id};
          log := log + [Resolution(id, Ok(data))];
        }
      case ErrorFrame(id, code, message) =>
        if id in pending {
          pending := pending - {id};
          log := log + [Resolution(id, Remote(code, message))];
        }
    }

    /** End of file: every call still pending is told that the agent is gone. */
    method DrainAtEof()
      modifies this
      ensures Drained(old(State()), State())
    {
      ghost var n := |log|;
      while pending.Keys != {}
        invariant pending.Keys <= old(pending).Keys
        invariant received == old(received)
        invariant |log| >= n && log[..n] == old(log)
        invariant DistinctIds(log[n..])
        invariant forall k :: n <= k < |log| ==>
                    log[k].outcome == AgentGone && log[k].id in old(pending) && log[k].id !in pending
        invariant forall id <- old(pending) :: id in pending || Resolution(id, AgentGone) in log[n..]
        decreases |pending.Keys|
      {
        var id :| id in pending.Keys;
        ghost var before := log;
        log := log + [Resolution(id, AgentGone)];
        assert log[n..] == before[n..] + [Resolution(id, AgentGone)];
        assert |pending.Keys - {id}| < |pending.Keys|;
        assert (pending - {id}).Keys == pending.Keys - {id};
        pending := pending - {id};
      }
    }
  }

  // ----- The agent's side -----

  /**
   * The work runs and may send events into the task's channel; it is done, which closes the channel; the pump has
   * seen the channel closed and empty and has ended; the task has answered.
   */
  datatype Status = Running | Worked(data: Value) | Pumped(data: Value) | Answered(outcome: Outcome)

  /**
   * A task's whole history: what it produced, and what of that is not written to the pipe yet, the first of which the
   * pump may hold in its hand. A watch never sends a result, and its batches are written by tasks of their own, in any
   * order.
   */
  datatype Task = Task(request: Request, produced: seq<Value>, queued: seq<Value>, status: Status)

  predicate IsWatch(t: Task) {
    t.request.op.FsWatch?
  }

  // ----- The whole system -----

  /** `issued` and `listens` record what every call asked for; `sent` the calls written to the agent. */
  datatype System = System(
    backend: Backend, reading: bool,
    issued: map<Id, Request>, listens: map<Id, bool>, sent: set<Id>, toAgent: seq<Id>,
    tasks: map<Id, Task>, toBackend: seq<Frame>, alive: bool)

  const INIT := System(Backend(map[], map[], []), true, map[], map[], {}, [], map[], [], true)

  datatype Step =
    | Call(id: Id, request: Request, streaming: bool)
    | Send(id: Id)
    | Receive
    | Produce(id: Id, data: Value)
    | Emit(id: Id, k: nat)
    | WorkEnds(id: Id, data: Value)
    | PumpEnds(id: Id)
    | Finish(id: Id)
    | Fail(id: Id, code: string, message: string)
    | Deliver
    | AgentDies(keep: nat)
    | ReaderStops(drained: Backend)

  /** Which steps are possible: any scheduling of tasks, pipes and death. Request ids are fresh. */
  ghost predicate Enabled(s: System, step: Step) {
    match step
    case Call(id, _, _) => id !in s.issued
    case Send(id) => id in s.issued && id !in s.sent
    case Receive => s.alive && s.toAgent != []
    case Produce(id, _) => s.alive && id in s.tasks && s.tasks[id].status == Running
    case Emit(id, k) => s.alive && id in s.tasks && k < |s.tasks[id].queued| && (k > 0 ==> IsWatch(s.tasks[id]))
    case WorkEnds(id, _) => s.alive && id in s.tasks && s.tasks[id].status == Running && !IsWatch(s.tasks[id])
    case PumpEnds(id) => s.alive && id in s.tasks && s.tasks[id].status.Worked? && s.tasks[id].queued == []
    case Finish(id) => s.alive && id in s.tasks && s.tasks[id].status.Pumped?
    case Fail(id, _, _) =>
      s.alive && id in s.tasks && s.tasks[id].status == Running && (IsWatch(s.tasks[id]) ==> s.tasks[id].produced == [])
    case Deliver => s.reading && s.toBackend != []
    case AgentDies(keep) => s.alive && keep <= |s.toBackend|
    case ReaderStops(drained) => s.reading && Drained(s.backend, drained)
  }

  function Apply(s: System, step: Step): System {
    match step
    case Call(id, request, streaming) =>
      s.(backend := Register(s.backend, id, streaming),
         issued := s.issued[id := request], listens := s.listens[id := streaming])
    case Send(id) => s.(sent := s.sent + {id}, toAgent := s.toAgent + [id])
    case Receive =>
      if s.toAgent == [] || s.toAgent[0] !in s.issued then s
      else
        var id := s.toAgent[0];
        s.(toAgent := s.toAgent[1..], tasks := s.tasks[id := Task(s.issued[id], [], [], Running)])
    case Produce(id, data) =>
      if id !in s.tasks then s
      else
        var t := s.tasks[id];
        s.(tasks := s.tasks[id := t.(produced := t.produced + [data], queued := t.queued + [data])])
    case Emit(id, k) =>
      if id !in s.tasks || k >= |s.tasks[id].queued| then s
      else
        var t := s.tasks[id];
        s.(tasks := s.tasks[id := t.(queued := t.queued[..k] + t.queued[k + 1..])],
           toBackend := s.toBackend + [Event(id, t.queued[k])])
    case WorkEnds(id, data) =>
      if id !in s.tasks then s
      else s.(tasks := s.tasks[id := s.tasks[id].(status := Worked(data))])
    case PumpEnds(id) =>
      if id !in s.tasks || !s.tasks[id].status.Worked? then s
      else s.(tasks := s.tasks[id := s.tasks[id].(status := Pumped(s.tasks[id].status.data))])
    case Finish(id) =>
      if id !in s.tasks || !s.tasks[id].status.Pumped? then s
      else
        var data := s.tasks[id].status.data;
        s.(tasks := s.tasks[id := s.tasks[id].(status := Answered(Ok(data)))],
           toBackend := s.toBackend + [ResultFrame(id, data)])
    case Fail(id, code, message) =>
      if id !in s.tasks then s
      else s.(tasks := s.tasks[id := s.tasks[id].(status := Answered(Remote(code, message)))],
              toBackend := s.toBackend + [ErrorFrame(id, code, message)])
    case Deliver =>
      if s.toBackend == [] then s
      else s.(backend := Route(s.backend, s.toBackend[0]), toBackend := s.toBackend[1..])
    case AgentDies(keep) =>
      s.(alive := false, toBackend := if keep <= |s.toBackend| then s.toBackend[..keep] else s.toBackend)
    case ReaderStops(drained) => s.(backend := drained, reading := false)
  }

  /** The states of an execution that performs `steps` from the start. */
  ghost predicate Possible(steps: seq<Step>) {
    steps == [] || (Possible(steps[..|steps| - 1]) && Enabled(After(steps[..|steps| - 1]), steps[|steps| - 1]))
  }

  function After(steps: seq<Step>): System {
    if steps == [] then INIT else Apply(After(steps[..|steps| - 1]), steps[|steps| - 1])
  }

  // ----- Invariants -----

  /** The event payloads for `id` among `frames`, in order. */
  function EventsOf(frames: seq<Frame>, id: Id): seq<Value> {
    if frames == [] then []
    else (if frames[0].Event? && frames[0].id == id then [frames[0].data] else []) + EventsOf(frames[1..], id)
  }

  lemma {:induction false} EventsOfConcat(a: seq<Frame>, b: seq<Frame>, id: Id)
    ensures EventsOf(a + b, id) == EventsOf(a, id) + EventsOf(b, id)
  {
    if a == [] {
      assert a + b == b;
    } else {
      var ab := a + b;
      assert ab[0] == a[0] && ab[1..] == a[1..] + b;
      EventsOfConcat(a[1..], b, id);
      var head: seq<Value> := if a[0].Event? && a[0].id == id then [a[0].data] else [];
      calc {
        EventsOf(ab, id);
        head + EventsOf(ab[1..], id);
        head + (EventsOf(a[1..], id) + EventsOf(b, id));
        head + EventsOf(a[1..], id) + EventsOf(b, id);
        EventsOf(a, id) + EventsOf(b, id);
      }
    }
  }

  lemma {:induction false} NoEventsOf(frames: seq<Frame>, id: Id)
    requires forall k :: 0 <= k < |frames| ==> frames[k].id != id
    ensures EventsOf(frames, id) == []
  {
    if frames != [] {
      NoEventsOf(frames[1..], id);
    }
  }

  /** Bookkeeping of ids: who may be pending, queued, running or logged. */
  ghost predicate IdsOk(s: System) {
    && s.backend.received.Keys == s.issued.Keys == s.listens.Keys
    && s.backend.pending.Keys <= s.issued.Keys
    && (forall id <- s.backend.pending :: s.backend.pending[id] == s.listens[id])
    && s.sent <= s.issued.Keys
    && s.tasks.Keys <= s.sent
    && (forall i :: 0 <= i < |s.toAgent| ==> s.toAgent[i] in s.sent && s.toAgent[i] !in s.tasks)
    && (forall i, j :: 0 <= i < j < |s.toAgent| ==> s.toAgent[i] != s.toAgent[j])
    && (forall id <- s.tasks :: s.tasks[id].request == s.issued[id])
  }

  /** Every result channel was used at most once, and only with what the agent answered to that call. */
  ghost predicate LogOk(s: System) {
    && DistinctIds(s.backend.log)
    && (forall k :: 0 <= k < |s.backend.log| ==> ResolutionOk(s, s.backend.log[k]))
  }

  ghost predicate ResolutionOk(s: System, r: Resolution) {
    && r.id in s.issued && r.id !in s.backend.pending
    && if r.outcome == AgentGone then !s.reading
       else r.id in s.tasks && s.tasks[r.id].status == Answered(r.outcome)
  }

  /** Frames on their way back: of known tasks, final ones carry the task's answer, a result is the last one. */
  ghost predicate PipeOk(s: System) {
    && (forall k :: 0 <= k < |s.toBackend| ==> FrameOk(s, s.toBackend[k]))
    && ResultsAreLast(s.toBackend)
    && (forall id <- s.tasks :: TaskOk(s.tasks[id]))
  }

  ghost predicate ResultsAreLast(frames: seq<Frame>) {
    forall i, j :: 0 <= i < j < |frames| && frames[i].ResultFrame? ==> frames[j].id != frames[i].id
  }

  ghost predicate FrameOk(s: System, f: Frame) {
    && f.id in s.tasks
    && (f.ResultFrame? ==> s.tasks[f.id].status == Answered(Ok(f.data)))
    && (f.ErrorFrame? ==> s.tasks[f.id].status == Answered(Remote(f.code, f.message)))
  }

  predicate TaskOk(t: Task) {
    && (t.status.Worked? ==> !IsWatch(t))
    && (t.status.Pumped? ==> t.queued == [] && !IsWatch(t))
    && (t.status.Answered? && t.status.outcome.Ok? ==> t.queued == [] && !IsWatch(t))
    && (t.status.Answered? ==> t.status.outcome != AgentGone)
  }

  /** What a call has received, is still to receive, and its task produced. */
  ghost predicate StreamOk(s: System, id: Id)
    requires id in s.backend.received && id in s.listens
  {
    var got := s.backend.received[id];
    if !s.listens[id] || id !in s.tasks then got == []
    else if IsWatch(s.tasks[id]) then true
    else
      && got <= s.tasks[id].produced
      && (id in s.backend.pending ==> Conserved(s, id))
      && (Resolved(s, id) ==> got == s.tasks[id].produced)
  }

  /** Received, in the pipe and still queued: together exactly what was produced, while the agent lives. */
  ghost predicate Conserved(s: System, id: Id)
    requires id in s.backend.received && id in s.tasks
  {
    var arriving := s.backend.received[id] + EventsOf(s.toBackend, id);
    && arriving <= s.tasks[id].produced
    && (s.alive ==> arriving + s.tasks[id].queued == s.tasks[id].produced)
    && (HasResult(s.toBackend, id) ==> arriving == s.tasks[id].produced)
  }

  ghost predicate HasResult(frames: seq<Frame>, id: Id) {
    exists k :: 0 <= k < |frames| && frames[k].ResultFrame? && frames[k].id == id
  }

  ghost predicate Resolved(s: System, id: Id) {
    exists k :: 0 <= k < |s.backend.log| && s.backend.log[k].id == id && s.backend.log[k].outcome.Ok?
  }

  ghost predicate StreamsOk(s: System)
    requires IdsOk(s)
  {
    forall id <- s.issued :: StreamOk(s, id)
  }

  ghost predicate Inv(s: System) {
    IdsOk(s) && LogOk(s) && PipeOk(s) && StreamsOk(s)
  }

  /** No call and no answer is lost while both sides are up. */
  ghost predicate Accounted(s: System, id: Id) {
    && (s.reading ==> id in s.backend.pending || InLog(s.backend.log, id))
    && (s.reading && s.alive && id in s.backend.pending && id in s.tasks && s.tasks[id].status.Answered? ==>
          HasAnswer(s.toBackend, id))
  }

  ghost predicate InLog(log: seq<Resolution>, id: Id) {
    exists k :: 0 <= k < |log| && log[k].id == id
  }

  ghost predicate HasAnswer(frames: seq<Frame>, id: Id) {
    exists k :: 0 <= k < |frames| && !frames[k].Event? && frames[k].id == id
  }
}
