/** Where answers, events and streams come from: the steps that computed them. */
module AgentRpcTraces {
  import opened AgentRpc
  import opened AgentRpcRuns

  /** What the work of call `id` has sent into its channel, in order. */
  function ProducedIn(steps: seq<Step>, id: Id): seq<Value> {
    if steps == [] then []
    else
      var last := steps[|steps| - 1];
      ProducedIn(steps[..|steps| - 1], id) + if last.Produce? && last.id == id then [last.data] else []
  }

  /** The ids written to the agent, in order. */
  function SentIn(steps: seq<Step>): seq<Id> {
    if steps == [] then []
    else
      var last := steps[|steps| - 1];
      SentIn(steps[..|steps| - 1]) + if last.Send? then [last.id] else []
  }

  function Arrivals(steps: seq<Step>): nat {
    if steps == [] then 0
    else Arrivals(steps[..|steps| - 1]) + if steps[|steps| - 1].Receive? then 1 else 0
  }

  /** A task answers with what its work ended with, or failed with. */
  predicate StatusTraced(steps: seq<Step>, id: Id, status: Status) {
    && (status.Worked? || status.Pumped? ==> WorkEnds(id, status.data) in steps)
    && (status.Answered? ==> OutcomeTraced(steps, id, status.outcome) && status.outcome != AgentGone)
  }

  predicate OutcomeTraced(steps: seq<Step>, id: Id, outcome: Outcome) {
    && (outcome.Ok? ==> WorkEnds(id, outcome.data) in steps)
    && (outcome.Remote? ==> Fail(id, outcome.code, outcome.message) in steps)
  }

  predicate TaskTraced(s: System, steps: seq<Step>, id: Id) {
    if id in s.tasks then
      StatusTraced(steps, id, s.tasks[id].status) && s.tasks[id].produced == ProducedIn(steps, id)
    else ProducedIn(steps, id) == []
  }

  lemma StatusStaysTraced(front: seq<Step>, step: Step, id: Id, status: Status)
    requires StatusTraced(front, id, status)
    ensures StatusTraced(front + [step], id, status)
  {
  }

  lemma StepKeepsTrace(s: System, front: seq<Step>, step: Step, id: Id)
    requires IdsOk(s) && Enabled(s, step) && TaskTraced(s, front, id)
    ensures TaskTraced(Apply(s, step), front + [step], id)
  {
    assert (front + [step])[..|front|] == front && step in front + [step];
    if id in s.tasks {
      StatusStaysTraced(front, step, id, s.tasks[id].status);
    }
    if step.Receive? {
      assert s.toAgent[0] in s.sent;
    }
  }

  lemma {:induction false} TasksAreTraced(steps: seq<Step>, id: Id)
    requires Possible(steps)
    ensures TaskTraced(After(steps), steps, id)
  {
    if steps != [] {
      var front, step := steps[..|steps| - 1], steps[|steps| - 1];
      TasksAreTraced(front, id);
      ExecutionKeepsInvariant(front);
      StepKeepsTrace(After(front), front, step, id);
      assert steps == front + [step];
      hide TaskTraced, Apply, Enabled;
    }
  }

  lemma StepsEndReading(s: System, step: Step)
    requires Enabled(s, step)
    ensures Apply(s, step).reading <==> s.reading && !step.ReaderStops?
  {
  }

  lemma {:induction false} ReadingExactly(steps: seq<Step>)
    requires Possible(steps)
    ensures After(steps).reading <==> forall k :: 0 <= k < |steps| ==> !steps[k].ReaderStops?
  {
    if steps != [] {
      var n := |steps| - 1;
      ReadingExactly(steps[..n]);
      StepsEndReading(After(steps[..n]), steps[n]);
      assert forall k :: 0 <= k < n ==> steps[..n][k] == steps[k];
      hide Apply, Enabled;
    }
  }

  /**
   * A call is told what the work of its own id ended with, or the error it failed with, or that the agent is gone
   * after the reader stopped; nothing else.
   */
  lemma AnswersAreComputed(steps: seq<Step>, id: Id, outcome: Outcome)
    requires Possible(steps) && Resolution(id, outcome) in After(steps).backend.log
    ensures outcome.Ok? ==> WorkEnds(id, outcome.data) in steps
    ensures outcome.Remote? ==> Fail(id, outcome.code, outcome.message) in steps
    ensures outcome.AgentGone? ==> exists k :: 0 <= k < |steps| && steps[k].ReaderStops?
  {
    ResolvedAtMostOnceAndOwn(steps);
    TasksAreTraced(steps, id);
    ReadingExactly(steps);
    hide After;
  }

  /** The events a listening call holds are those its own work produced, in order: all of them once it is answered. */
  lemma EventsAreProduced(steps: seq<Step>, id: Id)
    requires Possible(steps) && id in After(steps).tasks && !IsWatch(After(steps).tasks[id])
    ensures var s := After(steps);
            && id in s.backend.received && id in s.listens
            && (s.listens[id] ==> s.backend.received[id] <= ProducedIn(steps, id))
            && (forall data :: s.listens[id] && Resolution(id, Ok(data)) in s.backend.log ==>
                  s.backend.received[id] == ProducedIn(steps, id))
  {
    ExecutionKeepsInvariant(steps);
    StreamsAreComplete(steps, id);
    TasksAreTraced(steps, id);
    hide After;
  }

  // ----- Requests -----

  predicate CallTraced(s: System, steps: seq<Step>, id: Id) {
    id in s.issued ==> id in s.listens && Call(id, s.issued[id], s.listens[id]) in steps
  }

  lemma StepKeepsCall(s: System, front: seq<Step>, step: Step, id: Id)
    requires Enabled(s, step) && CallTraced(s, front, id)
    ensures CallTraced(Apply(s, step), front + [step], id)
  {
    assert step in front + [step];
    assert forall x <- front :: x in front + [step];
  }

  lemma {:induction false} CallsAreTraced(steps: seq<Step>, id: Id)
    requires Possible(steps)
    ensures CallTraced(After(steps), steps, id)
  {
    if steps != [] {
      var front, step := steps[..|steps| - 1], steps[|steps| - 1];
      CallsAreTraced(front, id);
      StepKeepsCall(After(front), front, step, id);
      assert steps == front + [step];
      hide CallTraced, Apply, Enabled;
    }
  }

  lemma StepKeepsIssued(s: System, step: Step, id: Id)
    requires Enabled(s, step)
    ensures var s' := Apply(s, step);
            if step.Call? && step.id == id then id in s'.issued && id in s'.listens &&
                                                s'.issued[id] == step.request && s'.listens[id] == step.streaming
            else (id in s'.issued <==> id in s.issued) && (id in s.issued ==> s'.issued[id] == s.issued[id]) &&
                 (id in s'.listens <==> id in s.listens) && (id in s.listens ==> s'.listens[id] == s.listens[id])
  {
  }

  /** A task works on the request of the one call with its id, and a call listens exactly if it was made to. */
  lemma {:induction false} CallsAreIssued(steps: seq<Step>, id: Id, request: Request, streaming: bool)
    requires Possible(steps) && Call(id, request, streaming) in steps
    ensures var s := After(steps);
            && id in s.issued && s.issued[id] == request
            && id in s.listens && s.listens[id] == streaming
            && (id in s.tasks ==> s.tasks[id].request == request)
            && (id in s.backend.pending ==> s.backend.pending[id] == streaming)
  {
    var front, step := steps[..|steps| - 1], steps[|steps| - 1];
    assert steps == front + [step];
    ExecutionKeepsInvariant(steps);
    ExecutionKeepsInvariant(front);
    StepKeepsIssued(After(front), step, id);
    if step != Call(id, request, streaming) {
      CallsAreIssued(front, id, request, streaming);
      assert !(step.Call? && step.id == id);
    }
    hide Apply, LogOk, PipeOk, StreamsOk;
  }

  /** The first `n` ids sent are those of the tasks, the others are on their way. */
  predicate InOrder(s: System, sent: seq<Id>, n: nat) {
    && n <= |sent| && s.toAgent == sent[n..]
    && s.tasks.Keys == set id <- sent[..n]
  }

  lemma StepKeepsOrder(s: System, step: Step, sent: seq<Id>, n: nat)
    requires IdsOk(s) && Enabled(s, step) && InOrder(s, sent, n)
    ensures InOrder(Apply(s, step), sent + if step.Send? then [step.id] else [], n + if step.Receive? then 1 else 0)
  {
    if step.Receive? {
      assert s.toAgent[0] == sent[n] && s.toAgent[0] in s.sent;
      assert sent[..n + 1] == sent[..n] + [sent[n]];
      assert sent + [] == sent;
    } else if step.Send? {
      assert (sent + [step.id])[..n] == sent[..n];
    } else {
      assert sent + [] == sent;
    }
  }

  /** The agent takes up the requests in the order they were written. */
  lemma {:induction false} RequestsArriveInOrder(steps: seq<Step>)
    requires Possible(steps)
    ensures InOrder(After(steps), SentIn(steps), Arrivals(steps))
  {
    if steps != [] {
      var front, step := steps[..|steps| - 1], steps[|steps| - 1];
      RequestsArriveInOrder(front);
      ExecutionKeepsInvariant(front);
      StepKeepsOrder(After(front), step, SentIn(front), Arrivals(front));
      hide Apply, Enabled, IdsOk, InOrder;
    }
  }

  // ----- A call from beginning to end -----

  lemma {:induction false} PossibleSnoc(front: seq<Step>, step: Step)
    requires Possible(front) && Enabled(After(front), step)
    ensures Possible(front + [step]) && After(front + [step]) == Apply(After(front), step)
  {
    assert (front + [step])[..|front|] == front;
    hide Enabled, Apply;
  }

  /** A listening call can be made, worked on, stream an event and be answered, in the steps a call takes. */
  function RoundTrip(id: Id, request: Request, event: Value, data: Value): seq<Step> {
    [Call(id, request, true), Send(id), Receive, Produce(id, event), Emit(id, 0),
     WorkEnds(id, data), PumpEnds(id), Finish(id), Deliver, Deliver]
  }

  /** The system before step `n` of such a call, alone in it. */
  function Stage(n: nat, id: Id, request: Request, event: Value, data: Value): System {
    var waiting := Backend(map[id := true], map[id := []], []);
    var heard := Backend(map[id := true], map[id := [event]], []);
    var told := Backend(map[], map[id := [event]], [Resolution(id, Ok(data))]);
    if n == 0 then INIT
    else if n == 1 then System(waiting, true, map[id := request], map[id := true], {}, [], map[], [], true)
    else if n == 2 then System(waiting, true, map[id := request], map[id := true], {id}, [id], map[], [], true)
    else
      var task := if n == 3 then Task(request, [], [], Running)
                  else if n == 4 then Task(request, [event], [event], Running)
                  else if n == 5 then Task(request, [event], [], Running)
                  else if n == 6 then Task(request, [event], [], Worked(data))
                  else if n == 7 then Task(request, [event], [], Pumped(data))
                  else Task(request, [event], [], Answered(Ok(data)));
      var frames := if n < 5 || n > 9 then [] else if n < 8 then [Event(id, event)]
                    else if n == 8 then [Event(id, event), ResultFrame(id, data)] else [ResultFrame(id, data)];
      System(if n < 9 then waiting else if n == 9 then heard else told,
             true, map[id := request], map[id := true], {id}, [], map[id := task], frames, true)
  }

  ghost predicate Leads(s: System, step: Step, s': System) {
    Enabled(s, step) && Apply(s, step) == s'
  }

  lemma OneEntry<V>(id: Id, v: V, w: V)
    ensures map[id := v][id := w] == map[id := w] && map[id := v] - {id} == map[]
    ensures map[][id := v] == map[id := v]
  {
  }

  lemma RequestGoesOut(id: Id, request: Request, event: Value, data: Value)
    ensures Leads(Stage(0, id, request, event, data), Call(id, request, true), Stage(1, id, request, event, data))
    ensures Leads(Stage(1, id, request, event, data), Send(id), Stage(2, id, request, event, data))
    ensures Leads(Stage(2, id, request, event, data), Receive, Stage(3, id, request, event, data))
  {
    assert map[][id := request] == map[id := request];
    assert {} + {id} == {id};
  }

  lemma EventGoesOut(id: Id, request: Request, event: Value, data: Value)
    requires !request.op.FsWatch?
    ensures Leads(Stage(3, id, request, event, data), Produce(id, event), Stage(4, id, request, event, data))
    ensures Leads(Stage(4, id, request, event, data), Emit(id, 0), Stage(5, id, request, event, data))
  {
    assert [] + [event] == [event] && [event][..0] + [event][1..] == [];
    assert [] + [Event(id, event)] == [Event(id, event)];
    OneEntry(id, Task(request, [], [], Running), Task(request, [event], [event], Running));
    OneEntry(id, Task(request, [event], [event], Running), Task(request, [event], [], Running));
  }

  lemma WorkIsDone(id: Id, request: Request, event: Value, data: Value)
    requires !request.op.FsWatch?
    ensures Leads(Stage(5, id, request, event, data), WorkEnds(id, data), Stage(6, id, request, event, data))
    ensures Leads(Stage(6, id, request, event, data), PumpEnds(id), Stage(7, id, request, event, data))
    ensures Leads(Stage(7, id, request, event, data), Finish(id), Stage(8, id, request, event, data))
  {
    OneEntry(id, Task(request, [event], [], Running), Task(request, [event], [], Worked(data)));
    OneEntry(id, Task(request, [event], [], Worked(data)), Task(request, [event], [], Pumped(data)));
    OneEntry(id, Task(request, [event], [], Pumped(data)), Task(request, [event], [], Answered(Ok(data))));
  }

  lemma FramesComeBack(id: Id, request: Request, event: Value, data: Value)
    ensures Leads(Stage(8, id, request, event, data), Deliver, Stage(9, id, request, event, data))
    ensures Leads(Stage(9, id, request, event, data), Deliver, Stage(10, id, request, event, data))
  {
    assert [] + [event] == [event] && [] + [Resolution(id, Ok(data))] == [Resolution(id, Ok(data))];
    assert [Event(id, event), ResultFrame(id, data)][1..] == [ResultFrame(id, data)];
    assert [ResultFrame(id, data)][1..] == [];
    OneEntry(id, [], [event]);
    OneEntry(id, true, true);
  }

  lemma {:induction false} RoundTripTo(id: Id, request: Request, event: Value, data: Value, n: nat)
    requires !request.op.FsWatch? && n <= 10
    ensures var steps := RoundTrip(id, request, event, data)[..n];
            Possible(steps) && After(steps) == Stage(n, id, request, event, data)
  {
    var steps := RoundTrip(id, request, event, data);
    if n == 0 {
      NothingDone(id, request, event, data);
      assert steps[..0] == [];
    } else {
      RoundTripTo(id, request, event, data, n - 1);
      RoundTripStep(id, request, event, data, n - 1);
      hide Stage, Possible, After, Apply, Enabled, RoundTrip;
      PossibleSnoc(steps[..n - 1], steps[n - 1]);
      assert steps[..n] == steps[..n - 1] + [steps[n - 1]];
    }
  }

  lemma RoundTripStep(id: Id, request: Request, event: Value, data: Value, n: nat)
    requires !request.op.FsWatch? && n < 10
    ensures |RoundTrip(id, request, event, data)| == 10
    ensures Leads(Stage(n, id, request, event, data), RoundTrip(id, request, event, data)[n],
                  Stage(n + 1, id, request, event, data))
  {
    hide Stage, Leads;
    if n < 3 {
      RequestGoesOut(id, request, event, data);
    } else if n < 5 {
      EventGoesOut(id, request, event, data);
    } else if n < 8 {
      WorkIsDone(id, request, event, data);
    } else {
      FramesComeBack(id, request, event, data);
    }
  }

  lemma NothingDone(id: Id, request: Request, event: Value, data: Value)
    ensures Possible([]) && After([]) == Stage(0, id, request, event, data)
  {
  }

  /** And so its caller gets the event and the result. */
  lemma RoundTripIsPossible(id: Id, request: Request, event: Value, data: Value)
    requires !request.op.FsWatch?
    ensures var steps := RoundTrip(id, request, event, data);
            && Possible(steps)
            && After(steps).backend == Backend(map[], map[id := [event]], [Resolution(id, Ok(data))])
  {
    RoundTripTo(id, request, event, data, 10);
    var steps := RoundTrip(id, request, event, data);
    assert steps[..10] == steps;
    assert Stage(10, id, request, event, data).backend == Backend(map[], map[id := [event]], [Resolution(id, Ok(data))]);
    hide Possible, After;
  }
}
