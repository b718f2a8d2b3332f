/** Safety of the agent protocol in every interleaving. */
module AgentRpcRuns {
  import opened AgentRpc

  // ----- Every step keeps the invariant -----

  lemma CallKeepsTables(s: System, id: Id, request: Request, streaming: bool)
    requires Inv(s) && Enabled(s, Call(id, request, streaming))
    ensures var s' := Apply(s, Call(id, request, streaming)); IdsOk(s') && LogOk(s') && PipeOk(s')
  {
    hide StreamsOk;
  }

  lemma SendKeepsTables(s: System, id: Id)
    requires Inv(s) && Enabled(s, Send(id))
    ensures var s' := Apply(s, Send(id)); IdsOk(s') && LogOk(s') && PipeOk(s')
  {
    hide StreamsOk;
  }

  lemma ReceiveKeepsTables(s: System)
    requires Inv(s) && Enabled(s, Receive)
    ensures var s' := Apply(s, Receive); IdsOk(s') && LogOk(s') && PipeOk(s')
  {
    hide StreamsOk;
  }

  lemma ProduceKeepsTables(s: System, id: Id, data: Value)
    requires Inv(s) && Enabled(s, Produce(id, data))
    ensures var s' := Apply(s, Produce(id, data)); IdsOk(s') && LogOk(s') && PipeOk(s')
  {
    hide StreamsOk;
  }

  lemma EmitKeepsTables(s: System, id: Id, k: nat)
    requires Inv(s) && Enabled(s, Emit(id, k))
    ensures var s' := Apply(s, Emit(id, k)); IdsOk(s') && LogOk(s') && PipeOk(s')
  {
    hide StreamsOk;
  }

  lemma WorkEndsKeepsTables(s: System, id: Id, data: Value)
    requires Inv(s) && Enabled(s, WorkEnds(id, data))
    ensures var s' := Apply(s, WorkEnds(id, data)); IdsOk(s') && LogOk(s') && PipeOk(s')
  {
    hide StreamsOk;
  }

  /** A channel that is closed and empty stays so. */
  lemma PumpEndsKeepsTables(s: System, id: Id)
    requires Inv(s) && Enabled(s, PumpEnds(id))
    ensures var s' := Apply(s, PumpEnds(id)); IdsOk(s') && LogOk(s') && PipeOk(s')
  {
    hide StreamsOk;
  }

  lemma FinishKeepsTables(s: System, id: Id)
    requires Inv(s) && Enabled(s, Finish(id))
    ensures var s' := Apply(s, Finish(id)); IdsOk(s') && LogOk(s') && PipeOk(s')
  {
    hide StreamsOk;
  }

  lemma FailKeepsTables(s: System, id: Id, code: string, message: string)
    requires Inv(s) && Enabled(s, Fail(id, code, message))
    ensures var s' := Apply(s, Fail(id, code, message)); IdsOk(s') && LogOk(s') && PipeOk(s')
  {
    hide StreamsOk;
  }

  lemma DeliverKeepsTables(s: System)
    requires Inv(s) && Enabled(s, Deliver)
    ensures var s' := Apply(s, Deliver); IdsOk(s') && LogOk(s') && PipeOk(s')
  {
    hide StreamsOk;
    var s', f := Apply(s, Deliver), s.toBackend[0];
    assert s.toBackend == [f] + s'.toBackend;
  }

  lemma AgentDiesKeepsTables(s: System, keep: nat)
    requires Inv(s) && Enabled(s, AgentDies(keep))
    ensures var s' := Apply(s, AgentDies(keep)); IdsOk(s') && LogOk(s') && PipeOk(s')
  {
    hide StreamsOk;
    var s', lost := Apply(s, AgentDies(keep)), s.toBackend[keep..];
    assert s.toBackend == s'.toBackend + lost;
  }

  lemma ReaderStopsKeepsTables(s: System, drained: Backend)
    requires Inv(s) && Enabled(s, ReaderStops(drained))
    ensures var s' := Apply(s, ReaderStops(drained)); IdsOk(s') && LogOk(s') && PipeOk(s')
  {
    var s' := Apply(s, ReaderStops(drained));
    assert forall k :: 0 <= k < |s.backend.log| ==> ResolutionOk(s, s.backend.log[k]);
    DrainedIdsAreDistinct(s.backend, drained);
    assert PipeOk(s') by { hide IdsOk, LogOk, Drained, StreamsOk; }
    assert IdsOk(s') by { hide PipeOk, LogOk, StreamsOk; }
    forall k | 0 <= k < |drained.log| ensures ResolutionOk(s', drained.log[k]) {
      hide PipeOk, StreamsOk;
      if k < |s.backend.log| {
        assert drained.log[k] == s.backend.log[k];
      }
    }
    hide IdsOk, PipeOk, StreamsOk, Drained;
  }

  lemma DrainedIdsAreDistinct(b: Backend, drained: Backend)
    requires Drained(b, drained) && DistinctIds(b.log)
    requires forall k :: 0 <= k < |b.log| ==> b.log[k].id !in b.pending
    ensures DistinctIds(drained.log)
  {
    var n := |b.log|;
    forall i, j | 0 <= i < j < |drained.log| ensures drained.log[i].id != drained.log[j].id {
      if j < n {
        assert drained.log[i] == b.log[i] && drained.log[j] == b.log[j];
      } else if i < n {
        assert drained.log[i] == b.log[i];
      } else {
        assert drained.log[i] == drained.log[n..][i - n] && drained.log[j] == drained.log[n..][j - n];
      }
    }
  }

  // The events of one call `i`, step by step.

  lemma EmitKeepsStream(s: System, id: Id, k: nat, i: Id)
    requires IdsOk(s) && PipeOk(s) && Enabled(s, Emit(id, k)) && i in s.issued && StreamOk(s, i)
    ensures var s' := Apply(s, Emit(id, k)); i in s'.backend.received && i in s'.listens && StreamOk(s', i)
  {
    hide *;
    if i == id {
      EmitKeepsOwnStream(s, id, k);
    } else {
      EmitKeepsOtherStream(s, id, k, i);
    }
  }

  lemma EmitKeepsOwnStream(s: System, id: Id, k: nat)
    requires IdsOk(s) && PipeOk(s) && Enabled(s, Emit(id, k)) && id in s.issued && StreamOk(s, id)
    ensures var s' := Apply(s, Emit(id, k)); id in s'.backend.received && id in s'.listens && StreamOk(s', id)
  {
    var s', t := Apply(s, Emit(id, k)), s.tasks[id];
    assert !HasResult(s.toBackend, id);
    SameResults(s, s', id);
    EventsOfConcat(s.toBackend, [Event(id, t.queued[k])], id);
    if s.listens[id] && !IsWatch(t) && id in s.backend.pending {
      assert t.queued == [t.queued[0]] + t.queued[1..];
      assert s.backend.received[id] + EventsOf(s'.toBackend, id) + s'.tasks[id].queued == t.produced;
    }
  }

  lemma EmitKeepsOtherStream(s: System, id: Id, k: nat, i: Id)
    requires IdsOk(s) && Enabled(s, Emit(id, k)) && i in s.issued && StreamOk(s, i) && i != id
    ensures var s' := Apply(s, Emit(id, k)); i in s'.backend.received && i in s'.listens && StreamOk(s', i)
  {
    var s', frame := Apply(s, Emit(id, k)), Event(id, s.tasks[id].queued[k]);
    SameResults(s, s', i);
    EventsOfConcat(s.toBackend, [frame], i);
    assert EventsOf(s'.toBackend, i) == EventsOf(s.toBackend, i);
  }

  lemma StatusKeepsStream(s: System, step: Step, i: Id)
    requires IdsOk(s) && Enabled(s, step) && (step.WorkEnds? || step.PumpEnds?) && i in s.issued && StreamOk(s, i)
    ensures var s' := Apply(s, step); i in s'.backend.received && i in s'.listens && StreamOk(s', i)
  {
  }

  /** When the pump has ended nothing is queued, so the result is written behind all events. */
  lemma FinishKeepsStream(s: System, id: Id, i: Id)
    requires IdsOk(s) && PipeOk(s) && Enabled(s, Finish(id)) && i in s.issued && StreamOk(s, i)
    ensures var s' := Apply(s, Finish(id)); i in s'.backend.received && i in s'.listens && StreamOk(s', i)
  {
    var s', data := Apply(s, Finish(id)), s.tasks[id].status.data;
    assert TaskOk(s.tasks[id]);
    EventsOfConcat(s.toBackend, [ResultFrame(id, data)], i);
    assert EventsOf(s'.toBackend, i) == EventsOf(s.toBackend, i);
    if i != id {
      SameResults(s, s', i);
    }
  }

  lemma FailKeepsStream(s: System, id: Id, code: string, message: string, i: Id)
    requires IdsOk(s) && Enabled(s, Fail(id, code, message)) && i in s.issued && StreamOk(s, i)
    ensures var s' := Apply(s, Fail(id, code, message)); i in s'.backend.received && i in s'.listens && StreamOk(s', i)
  {
    var s' := Apply(s, Fail(id, code, message));
    EventsOfConcat(s.toBackend, [ErrorFrame(id, code, message)], i);
    assert EventsOf(s'.toBackend, i) == EventsOf(s.toBackend, i);
    SameResults(s, s', i);
  }

  /** A frame that is not a result for `i` does not announce one. */
  lemma SameResults(s: System, s': System, i: Id)
    requires |s'.toBackend| == |s.toBackend| + 1 && s'.toBackend[..|s.toBackend|] == s.toBackend
    requires var f := s'.toBackend[|s.toBackend|]; f.ResultFrame? ==> f.id != i
    ensures HasResult(s'.toBackend, i) ==> HasResult(s.toBackend, i)
  {
    if HasResult(s'.toBackend, i) {
      var n :| 0 <= n < |s'.toBackend| && s'.toBackend[n].ResultFrame? && s'.toBackend[n].id == i;
      assert s.toBackend[n] == s'.toBackend[n];
    }
  }

  lemma DeliverKeepsStream(s: System, i: Id)
    requires IdsOk(s) && PipeOk(s) && Enabled(s, Deliver) && i in s.issued && StreamOk(s, i)
    ensures var s' := Apply(s, Deliver); i in s'.backend.received && i in s'.listens && StreamOk(s', i)
  {
    assert s.toBackend != [];
    hide *;
    var f := s.toBackend[0];
    if f.id != i {
      OtherFrameKeepsStream(s, i);
    } else if f.ResultFrame? {
      ResultKeepsStream(s, i);
    } else if f.ErrorFrame? {
      ErrorKeepsStream(s, i);
    } else {
      EventKeepsStream(s, i);
    }
  }

  lemma ResultKeepsStream(s: System, i: Id)
    requires IdsOk(s) && PipeOk(s) && s.toBackend != [] && i in s.issued && StreamOk(s, i)
    requires s.toBackend[0].ResultFrame? && s.toBackend[0].id == i
    ensures var s' := Apply(s, Deliver); i in s'.backend.received && i in s'.listens && StreamOk(s', i)
  {
    assert HasResult(s.toBackend, i);
    assert EventsOf(s.toBackend, i) == [] by {
      NoEventsOf(s.toBackend[1..], i);
    }
  }

  lemma ErrorKeepsStream(s: System, i: Id)
    requires IdsOk(s) && s.toBackend != [] && i in s.issued && StreamOk(s, i)
    requires s.toBackend[0].ErrorFrame? && s.toBackend[0].id == i
    ensures var s' := Apply(s, Deliver); i in s'.backend.received && i in s'.listens && StreamOk(s', i)
  {
    var s' := Apply(s, Deliver);
    NoNewResult(s, s', i);
    SameTail(s, s', i);
    assert i in s'.backend.pending ==> false;
  }

  lemma EventKeepsStream(s: System, i: Id)
    requires IdsOk(s) && PipeOk(s) && s.toBackend != [] && i in s.issued && StreamOk(s, i)
    requires s.toBackend[0].Event? && s.toBackend[0].id == i
    ensures var s' := Apply(s, Deliver); i in s'.backend.received && i in s'.listens && StreamOk(s', i)
  {
    var s' := Apply(s, Deliver);
    assert FrameOk(s, s.toBackend[0]);
    NoNewResult(s, s', i);
    SameTail(s, s', i);
    var got := s.backend.received[i];
    if i in s.backend.pending && s.listens[i] {
      assert s'.backend.received[i] + EventsOf(s'.toBackend, i) == got + EventsOf(s.toBackend, i);
    }
  }

  lemma SameTail(s: System, s': System, i: Id)
    requires s.toBackend != [] && s'.toBackend == s.toBackend[1..]
    ensures HasResult(s'.toBackend, i) ==> HasResult(s.toBackend, i)
  {
    if HasResult(s'.toBackend, i) {
      var n :| 0 <= n < |s'.toBackend| && s'.toBackend[n].ResultFrame? && s'.toBackend[n].id == i;
      assert s.toBackend[n + 1] == s'.toBackend[n];
    }
  }

  lemma NoNewResult(s: System, s': System, i: Id)
    requires s'.backend.log == s.backend.log ||
             exists r :: s'.backend.log == s.backend.log + [r] && (r.id != i || !r.outcome.Ok?)
    ensures Resolved(s', i) ==> Resolved(s, i)
  {
  }

  lemma OtherFrameKeepsStream(s: System, i: Id)
    requires IdsOk(s) && Enabled(s, Deliver) && s.toBackend[0].id != i && i in s.issued && StreamOk(s, i)
    ensures var s' := Apply(s, Deliver); i in s'.backend.received && i in s'.listens && StreamOk(s', i)
  {
    var s', f := Apply(s, Deliver), s.toBackend[0];
    assert s.toBackend == [f] + s'.toBackend;
    NoNewResult(s, s', i);
    SameTail(s, s', i);
    assert EventsOf(s.toBackend, i) == EventsOf(s'.toBackend, i);
  }

  lemma AgentDiesKeepsStream(s: System, keep: nat, i: Id)
    requires IdsOk(s) && PipeOk(s) && Enabled(s, AgentDies(keep)) && i in s.issued && StreamOk(s, i)
    ensures var s' := Apply(s, AgentDies(keep)); i in s'.backend.received && i in s'.listens && StreamOk(s', i)
  {
    var s' := Apply(s, AgentDies(keep));
    CutPipe(s.toBackend, keep, i);
  }

  /** Losing the end of the pipe loses events only of calls whose result is lost too. */
  lemma CutPipe(frames: seq<Frame>, keep: nat, i: Id)
    requires ResultsAreLast(frames) && keep <= |frames|
    ensures EventsOf(frames[..keep], i) <= EventsOf(frames, i)
    ensures HasResult(frames[..keep], i) ==>
              HasResult(frames, i) && EventsOf(frames[..keep], i) == EventsOf(frames, i)
  {
    var kept, lost := frames[..keep], frames[keep..];
    assert frames == kept + lost;
    EventsOfConcat(kept, lost, i);
    if n :| 0 <= n < keep && kept[n].ResultFrame? && kept[n].id == i {
      assert frames[n] == kept[n];
      assert forall m :: 0 <= m < |lost| ==> lost[m] == frames[keep + m];
      NoEventsOf(lost, i);
    }
  }

  lemma ReceiveKeepsStream(s: System, i: Id)
    requires IdsOk(s) && PipeOk(s) && Enabled(s, Receive) && i in s.issued && StreamOk(s, i)
    ensures var s' := Apply(s, Receive); i in s'.backend.received && i in s'.listens && StreamOk(s', i)
  {
    if i == s.toAgent[0] {
      NoEventsOf(s.toBackend, i);
    }
  }

  lemma ProduceKeepsStream(s: System, id: Id, data: Value, i: Id)
    requires IdsOk(s) && LogOk(s) && PipeOk(s) && Enabled(s, Produce(id, data)) && i in s.issued && StreamOk(s, i)
    ensures var s' := Apply(s, Produce(id, data)); i in s'.backend.received && i in s'.listens && StreamOk(s', i)
  {
    if i == id {
      assert !HasResult(s.toBackend, i) && !Resolved(s, i);
    }
  }

  lemma ReaderStopsKeepsStream(s: System, drained: Backend, i: Id)
    requires IdsOk(s) && Enabled(s, ReaderStops(drained)) && i in s.issued && StreamOk(s, i)
    ensures var s' := Apply(s, ReaderStops(drained)); i in s'.backend.received && i in s'.listens && StreamOk(s', i)
  {
    var s', n := Apply(s, ReaderStops(drained)), |s.backend.log|;
    if Resolved(s', i) {
      var k :| 0 <= k < |drained.log| && drained.log[k].id == i && drained.log[k].outcome.Ok?;
      assert k < n && s.backend.log[k] == drained.log[..n][k];
    }
  }

  lemma CallOrSendKeepsStream(s: System, step: Step, i: Id)
    requires IdsOk(s) && LogOk(s) && Enabled(s, step) && (step.Call? || step.Send?)
    requires i in Apply(s, step).issued && (i in s.issued ==> StreamOk(s, i))
    ensures var s' := Apply(s, step); i in s'.backend.received && i in s'.listens && StreamOk(s', i)
  {
  }

  lemma StepKeepsTables(s: System, step: Step)
    requires Inv(s) && Enabled(s, step)
    ensures var s' := Apply(s, step); IdsOk(s') && LogOk(s') && PipeOk(s')
  {
    hide Apply;
    hide Inv;
    match step
    case Call(id, request, streaming) => CallKeepsTables(s, id, request, streaming);
    case Send(id) => SendKeepsTables(s, id);
    case Receive => ReceiveKeepsTables(s);
    case Produce(id, data) => ProduceKeepsTables(s, id, data);
    case Emit(id, k) => EmitKeepsTables(s, id, k);
    case WorkEnds(id, data) => WorkEndsKeepsTables(s, id, data);
    case PumpEnds(id) => PumpEndsKeepsTables(s, id);
    case Finish(id) => FinishKeepsTables(s, id);
    case Fail(id, code, message) => FailKeepsTables(s, id, code, message);
    case Deliver => DeliverKeepsTables(s);
    case AgentDies(keep) => AgentDiesKeepsTables(s, keep);
    case ReaderStops(drained) => ReaderStopsKeepsTables(s, drained);
  }

  lemma IssuedBefore(s: System, step: Step, i: Id)
    requires IdsOk(s) && StreamsOk(s) && i in Apply(s, step).issued
    ensures !step.Call? ==> i in s.issued
    ensures i in s.issued ==> i in s.backend.received && i in s.listens && StreamOk(s, i)
  {
  }

  lemma StepKeepsStream(s: System, step: Step, i: Id)
    requires IdsOk(s) && LogOk(s) && PipeOk(s) && StreamsOk(s) && Enabled(s, step) && i in Apply(s, step).issued
    ensures var s' := Apply(s, step); i in s'.backend.received && i in s'.listens && StreamOk(s', i)
  {
    hide *;
    IssuedBefore(s, step, i);
    match step
    case Call(_, _, _) => CallOrSendKeepsStream(s, step, i);
    case Send(_) => CallOrSendKeepsStream(s, step, i);
    case Receive => ReceiveKeepsStream(s, i);
    case Produce(id, data) => ProduceKeepsStream(s, id, data, i);
    case Emit(id, k) => EmitKeepsStream(s, id, k, i);
    case WorkEnds(_, _) => StatusKeepsStream(s, step, i);
    case PumpEnds(_) => StatusKeepsStream(s, step, i);
    case Finish(id) => FinishKeepsStream(s, id, i);
    case Fail(id, code, message) => FailKeepsStream(s, id, code, message, i);
    case Deliver => DeliverKeepsStream(s, i);
    case AgentDies(keep) => AgentDiesKeepsStream(s, keep, i);
    case ReaderStops(drained) => ReaderStopsKeepsStream(s, drained, i);
  }

  lemma StepKeepsInvariant(s: System, step: Step)
    requires Inv(s) && Enabled(s, step)
    ensures Inv(Apply(s, step))
  {
    hide Apply;
    hide StreamOk;
    hide LogOk;
    hide PipeOk;
    StepKeepsTables(s, step);
    forall i | i in Apply(s, step).issued ensures StreamOk(Apply(s, step), i) {
      StepKeepsStream(s, step, i);
    }
  }

  lemma {:induction false} ExecutionKeepsInvariant(steps: seq<Step>)
    requires Possible(steps)
    ensures Inv(After(steps))
  {
    if steps != [] {
      ExecutionKeepsInvariant(steps[..|steps| - 1]);
      StepKeepsInvariant(After(steps[..|steps| - 1]), steps[|steps| - 1]);
    }
  }

  // ----- Nothing is lost -----

  lemma AnswersStay(s: System, s': System, i: Id)
    requires |s'.toBackend| == |s.toBackend| + 1 && s'.toBackend[..|s.toBackend|] == s.toBackend
    ensures HasAnswer(s.toBackend, i) ==> HasAnswer(s'.toBackend, i)
    ensures !s'.toBackend[|s.toBackend|].Event? ==> HasAnswer(s'.toBackend, s'.toBackend[|s.toBackend|].id)
  {
    if k :| 0 <= k < |s.toBackend| && !s.toBackend[k].Event? && s.toBackend[k].id == i {
      assert s'.toBackend[k] == s.toBackend[k];
    }
  }

  lemma DeliveryAccounts(s: System, i: Id)
    requires Enabled(s, Deliver) && Accounted(s, i)
    ensures Accounted(Apply(s, Deliver), i)
  {
    var s', f := Apply(s, Deliver), s.toBackend[0];
    assert s'.backend.log[..|s.backend.log|] == s.backend.log;
    if k :| 0 <= k < |s.backend.log| && s.backend.log[k].id == i {
      assert s'.backend.log[k].id == i;
    }
    if f.id == i && !f.Event? && i in s.backend.pending {
      assert s'.backend.log[|s.backend.log|].id == i;
    } else if k :| 0 <= k < |s.toBackend| && !s.toBackend[k].Event? && s.toBackend[k].id == i {
      if k > 0 { assert s'.toBackend[k - 1] == s.toBackend[k]; }
    }
  }

  lemma WritingAccounts(s: System, step: Step, i: Id)
    requires IdsOk(s) && Enabled(s, step) && (step.Emit? || step.Finish? || step.Fail?) && Accounted(s, i)
    ensures Accounted(Apply(s, step), i)
  {
    AnswersStay(s, Apply(s, step), i);
  }

  lemma StepAccounts(s: System, step: Step, i: Id)
    requires IdsOk(s) && Enabled(s, step) && i in Apply(s, step).issued && (i in s.issued ==> Accounted(s, i))
    ensures Accounted(Apply(s, step), i)
  {
    match step
    case Deliver => DeliveryAccounts(s, i);
    case Emit(_, _) => WritingAccounts(s, step, i);
    case Finish(_) => WritingAccounts(s, step, i);
    case Fail(_, _, _) => WritingAccounts(s, step, i);
    case _ =>
  }

  lemma {:induction false} ExecutionAccounts(steps: seq<Step>, i: Id)
    requires Possible(steps) && i in After(steps).issued
    ensures Accounted(After(steps), i)
  {
    hide Apply;
    hide Accounted;
    if steps != [] {
      var front, step := steps[..|steps| - 1], steps[|steps| - 1];
      ExecutionKeepsInvariant(front);
      if i in After(front).issued {
        ExecutionAccounts(front, i);
      }
      StepAccounts(After(front), step, i);
    }
  }

  // ----- What callers may rely on -----

  /**
   * In every interleaving a call's result channel is used at most once, with the answer the agent's
   * own task for that call computed from that call's request, or with AgentGone once the reader stopped.
   */
  lemma ResolvedAtMostOnceAndOwn(steps: seq<Step>)
    requires Possible(steps)
    ensures var s := After(steps);
            && DistinctIds(s.backend.log)
            && forall r <- s.backend.log ::
                 && r.id in s.issued && r.id !in s.backend.pending
                 && if r.outcome == AgentGone then !s.reading
                    else r.id in s.tasks && s.tasks[r.id].request == s.issued[r.id] &&
                         s.tasks[r.id].status == Answered(r.outcome)
  {
    ExecutionKeepsInvariant(steps);
  }

  /**
   * A streaming call that was answered holds exactly the events its task produced, in order; one that
   * failed or is still open holds a prefix of them; a call that does not listen holds none.
   */
  lemma StreamsAreComplete(steps: seq<Step>, id: Id)
    requires Possible(steps) && id in After(steps).issued
    ensures var s := After(steps);
            && id in s.backend.received && id in s.listens
            && (!s.listens[id] ==> s.backend.received[id] == [])
            && (id in s.tasks && s.listens[id] && !IsWatch(s.tasks[id]) ==>
                  s.backend.received[id] <= s.tasks[id].produced)
            && (forall data :: Resolution(id, Ok(data)) in s.backend.log ==>
                  id in s.tasks && (s.listens[id] ==> s.backend.received[id] == s.tasks[id].produced))
  {
    ExecutionKeepsInvariant(steps);
  }

  /** End of file empties the table, tells AgentGone to every call that was pending, once, and to no other. */
  lemma EofResolvesAllPending(steps: seq<Step>, drained: Backend)
    requires Possible(steps) && Enabled(After(steps), ReaderStops(drained))
    ensures var s, s' := After(steps), Apply(After(steps), ReaderStops(drained));
            && s'.backend.pending == map[]
            && DistinctIds(s'.backend.log)
            && s.backend.log <= s'.backend.log
            && (forall id :: Resolution(id, AgentGone) in s'.backend.log <==> id in s.backend.pending)
  {
    ExecutionKeepsInvariant(steps);
    StepKeepsInvariant(After(steps), ReaderStops(drained));
    var s := After(steps);
    assert drained.log == s.backend.log + drained.log[|s.backend.log|..];
  }

  /**
   * While agent and reader are up no answer is lost: an answered call was resolved with that answer,
   * or is pending with the answer still in the pipe.
   */
  lemma AnswersArrive(steps: seq<Step>, id: Id)
    requires Possible(steps) && After(steps).reading && After(steps).alive
    requires id in After(steps).tasks && After(steps).tasks[id].status.Answered?
    ensures var s := After(steps);
            || Resolution(id, s.tasks[id].status.outcome) in s.backend.log
            || (id in s.backend.pending && HasAnswer(s.toBackend, id))
  {
    ExecutionKeepsInvariant(steps);
    ExecutionAccounts(steps, id);
    var s := After(steps);
    if id !in s.backend.pending {
      var k :| 0 <= k < |s.backend.log| && s.backend.log[k].id == id;
      assert ResolutionOk(s, s.backend.log[k]);
    }
  }

  /** When the reader stops, every call issued so far has been resolved exactly once. */
  lemma EofLeavesNoCallOpen(steps: seq<Step>, drained: Backend, id: Id)
    requires Possible(steps) && Enabled(After(steps), ReaderStops(drained)) && id in After(steps).issued
    ensures DistinctIds(drained.log) && InLog(drained.log, id)
  {
    EofResolvesAllPending(steps, drained);
    ExecutionAccounts(steps, id);
    var s := After(steps);
    if id in s.backend.pending {
      assert Resolution(id, AgentGone) in drained.log;
    } else {
      var k :| 0 <= k < |s.backend.log| && s.backend.log[k].id == id;
      assert drained.log[k] == s.backend.log[k];
    }
  }

  /**
   * No step takes a resolution back or changes what a resolved call received, and before the end of
   * file only the delivery of a frame for a pending call resolves one.
   */
  lemma ResolutionsAreFinal(steps: seq<Step>, step: Step, k: nat)
    requires Possible(steps) && Enabled(After(steps), step)
    requires k < |After(steps).backend.log|
    ensures var b, b' := After(steps).backend, Apply(After(steps), step).backend;
            var id := b.log[k].id;
            && b.log <= b'.log
            && (b'.log != b.log && !step.ReaderStops? ==> step.Deliver? && |b'.log| == |b.log| + 1)
            && id in b.received && id in b'.received && b'.received[id] == b.received[id]
  {
    ExecutionKeepsInvariant(steps);
    InvResolved(After(steps), k);
    hide *;
    StepKeepsResolution(After(steps), step, After(steps).backend.log[k].id);
  }

  lemma StepKeepsResolution(s: System, step: Step, id: Id)
    requires Enabled(s, step) && id in s.issued && id in s.backend.received && id !in s.backend.pending
    ensures var b, b' := s.backend, Apply(s, step).backend;
            && b.log <= b'.log
            && (b'.log != b.log && !step.ReaderStops? ==> step.Deliver? && |b'.log| == |b.log| + 1)
            && id in b'.received && b'.received[id] == b.received[id]
  {
  }

  lemma InvResolved(s: System, k: nat)
    requires Inv(s) && k < |s.backend.log|
    ensures var id := s.backend.log[k].id;
            id in s.issued && id in s.backend.received && id !in s.backend.pending
  {
    assert ResolutionOk(s, s.backend.log[k]);
  }
}
