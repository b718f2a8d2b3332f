/** What holds of a session over every sequence of commands, accepted or rejected. */
module SessionRuns {
  import opened Options
  import opened Text
  import opened Session

  // ----- Coalescing -----

  /** The blocks merged one after another. */
  function Merged(blocks: seq<Block>): seq<Block> {
    if blocks == [] then [] else MergeBlock(Merged(blocks[..|blocks| - 1]), blocks[|blocks| - 1])
  }

  /**
   * What a list of blocks says, however its text is cut: the other blocks in order, each with the text
   * since the one before if there was any, and the text after the last.
   */
  datatype Shape = Shape(closed: seq<(Option<string>, Block)>, open: Option<string>)

  function Extended(shape: Shape, block: Block): Shape {
    if block.TextBlock? then shape.(open := Some((if shape.open.Some? then shape.open.value else "") + block.text))
    else Shape(shape.closed + [(shape.open, block)], None)
  }

  function ShapeOf(blocks: seq<Block>): Shape {
    if blocks == [] then Shape([], None) else Extended(ShapeOf(blocks[..|blocks| - 1]), blocks[|blocks| - 1])
  }

  predicate NoAdjacentText(blocks: seq<Block>) {
    forall i :: 0 <= i < |blocks| - 1 ==> !(blocks[i].TextBlock? && blocks[i + 1].TextBlock?)
  }

  /** `merged` says what `blocks` say, with each run of text in one block. */
  predicate IsCoalescing(blocks: seq<Block>, merged: seq<Block>) {
    NoAdjacentText(merged) && ShapeOf(merged) == ShapeOf(blocks)
  }

  lemma ShapeSnoc(front: seq<Block>, block: Block)
    ensures ShapeOf(front + [block]) == Extended(ShapeOf(front), block)
  {
    assert (front + [block])[..|front|] == front;
  }

  /** Open text in the shape is a text block at the end. */
  lemma OpenIsLast(blocks: seq<Block>)
    ensures ShapeOf(blocks).open.Some? <==> blocks != [] && blocks[|blocks| - 1].TextBlock?
  {
  }

  lemma MergeKeepsApart(blocks: seq<Block>, incoming: Block)
    requires NoAdjacentText(blocks)
    ensures NoAdjacentText(MergeBlock(blocks, incoming))
  {
  }

  lemma MergeExtends(blocks: seq<Block>, incoming: Block)
    requires NoAdjacentText(blocks)
    ensures NoAdjacentText(MergeBlock(blocks, incoming))
    ensures ShapeOf(MergeBlock(blocks, incoming)) == Extended(ShapeOf(blocks), incoming)
  {
    MergeKeepsApart(blocks, incoming);
    var n := |blocks|;
    hide NoAdjacentText;
    if incoming.TextBlock? && n > 0 && blocks[n - 1].TextBlock? {
      assert blocks == blocks[..n - 1] + [TextBlock(blocks[n - 1].text)];
      LongerText(blocks[..n - 1], blocks[n - 1].text, incoming.text);
      assert MergeBlock(blocks, incoming) == blocks[..n - 1] + [TextBlock(blocks[n - 1].text + incoming.text)];
    } else {
      ShapeSnoc(blocks, incoming);
    }
    hide ShapeOf, Extended;
  }

  lemma LongerText(front: seq<Block>, text: string, more: string)
    requires NoAdjacentText(front + [TextBlock(text)])
    ensures ShapeOf(front + [TextBlock(text + more)]) == Extended(ShapeOf(front + [TextBlock(text)]), TextBlock(more))
  {
    OpenIsLast(front);
    assert front != [] ==> (front + [TextBlock(text)])[|front| - 1] == front[|front| - 1];
    ShapeSnoc(front, TextBlock(text));
    ShapeSnoc(front, TextBlock(text + more));
    hide ShapeOf;
    assert "" + (text + more) == "" + text + more;
  }

  lemma {:induction false} MergedCoalesces(blocks: seq<Block>)
    ensures IsCoalescing(blocks, Merged(blocks))
  {
    if blocks != [] {
      MergedCoalesces(blocks[..|blocks| - 1]);
      MergeExtends(Merged(blocks[..|blocks| - 1]), blocks[|blocks| - 1]);
      hide MergeBlock, NoAdjacentText, Extended;
    }
  }

  function OpenBlocks(open: Option<string>): seq<Block> {
    if open.Some? then [TextBlock(open.value)] else []
  }

  function RebuiltClosed(closed: seq<(Option<string>, Block)>): seq<Block> {
    if closed == [] then []
    else
      var last := closed[|closed| - 1];
      RebuiltClosed(closed[..|closed| - 1]) + OpenBlocks(last.0) + [last.1]
  }

  /** The coalesced blocks that say this. */
  function Rebuilt(shape: Shape): seq<Block> {
    RebuiltClosed(shape.closed) + OpenBlocks(shape.open)
  }

  lemma RebuiltExtends(shape: Shape, block: Block)
    requires block.TextBlock? ==> shape.open.None?
    ensures Rebuilt(Extended(shape, block)) == Rebuilt(shape) + [block]
  {
    if block.TextBlock? {
      assert "" + block.text == block.text;
    } else {
      var closed := shape.closed + [(shape.open, block)];
      assert closed[..|shape.closed|] == shape.closed;
    }
  }

  lemma {:induction false} RebuiltFromShape(blocks: seq<Block>)
    requires NoAdjacentText(blocks)
    ensures Rebuilt(ShapeOf(blocks)) == blocks
  {
    if blocks != [] {
      var n := |blocks| - 1;
      var front := blocks[..n];
      RebuiltFromShape(front);
      OpenIsLast(front);
      RebuiltExtends(ShapeOf(front), blocks[n]);
      hide Rebuilt, Extended;
      assert blocks == front + [blocks[n]];
    }
  }

  /** There is only one coalesced form of a list of blocks: what merging them one after another gives. */
  lemma CoalescedExactly(blocks: seq<Block>, merged: seq<Block>)
    ensures IsCoalescing(blocks, merged) <==> merged == Merged(blocks)
  {
    MergedCoalesces(blocks);
    if IsCoalescing(blocks, merged) {
      RebuiltFromShape(merged);
      RebuiltFromShape(Merged(blocks));
    }
    hide ShapeOf, NoAdjacentText, Merged, Rebuilt;
  }

  /** All text, run together. */
  function TextIn(blocks: seq<Block>): string {
    if blocks == [] then ""
    else
      var last := blocks[|blocks| - 1];
      TextIn(blocks[..|blocks| - 1]) + if last.TextBlock? then last.text else ""
  }

  lemma MergeKeepsText(blocks: seq<Block>, incoming: Block)
    ensures TextIn(MergeBlock(blocks, incoming)) == TextIn(blocks) + if incoming.TextBlock? then incoming.text else ""
  {
    var n := |blocks|;
    if incoming.TextBlock? && n > 0 && blocks[n - 1].TextBlock? {
      assert MergeBlock(blocks, incoming)[..n] == blocks[..n - 1] + [TextBlock(blocks[n - 1].text + incoming.text)];
      assert MergeBlock(blocks, incoming)[..n - 1] == blocks[..n - 1];
    } else {
      assert (blocks + [incoming])[..n] == blocks;
    }
  }

  // ----- Turn ids, turn ends -----

  predicate UniqueIds(turns: seq<Turn>) {
    forall i, j :: 0 <= i < j < |turns| ==> turns[i].id != turns[j].id
  }

  predicate TurnOk(t: Turn) {
    t.completedAt.Some? <==> t.status != Streaming
  }

  predicate Trimmed(title: string) {
    title != "" && !IsSpace(title[0]) && !IsSpace(title[|title| - 1])
  }

  predicate DataOk(data: SessionData) {
    && UniqueIds(data.turns)
    && (forall i :: 0 <= i < |data.turns| ==> TurnOk(data.turns[i]))
    && (data.status == Running || data.status == Stopped)
    && (data.title.Some? ==> Trimmed(data.title.value))
  }

  /** What a turn keeps while its session lives. */
  predicate TurnContinues(t: Turn, u: Turn) {
    && u.id == t.id && u.userText == t.userText && u.startedAt == t.startedAt
    && TextIn(t.blocks) <= TextIn(u.blocks)
    && (t.status != Streaming ==> u.status != Streaming && u.blocks == t.blocks)
  }

  predicate Continues(a: SessionData, b: SessionData) {
    && b.config == a.config && b.createdAt == a.createdAt
    && (a.providerSessionId.Some? ==> b.providerSessionId.Some?)
    && |a.turns| <= |b.turns|
    && forall i :: 0 <= i < |a.turns| ==> TurnContinues(a.turns[i], b.turns[i])
  }

  lemma OneEventAtMost(state: SessionState, cmd: Command)
    ensures |EventsOf(state, cmd)| <= 1
  {
  }

  lemma UpdatedContinues(data: SessionData, id: string, change: Turn -> Turn)
    requires DataOk(data) && HasTurn(data.turns, id)
    requires var t := data.turns[FindTurn(data.turns, id)]; TurnContinues(t, change(t)) && TurnOk(change(t))
    ensures var after := data.(turns := Updated(data.turns, id, change)); DataOk(after) && Continues(data, after)
  {
    hide TurnContinues, TurnOk, FindTurn, Trimmed;
    forall i | 0 <= i < |data.turns| ensures TurnContinues(data.turns[i], data.turns[i]) {
      TurnContinuesItself(data.turns[i]);
    }
    var t := data.turns[FindTurn(data.turns, id)];
    assert change(t).id == t.id by { TurnKeepsId(t, change(t)); }
  }

  lemma TurnContinuesItself(t: Turn)
    ensures TurnContinues(t, t)
  {
  }

  lemma TurnKeepsId(t: Turn, u: Turn)
    requires TurnContinues(t, u)
    ensures u.id == t.id
  {
  }

  lemma NewTurnContinues(data: SessionData, turn: Turn)
    requires DataOk(data) && !HasTurn(data.turns, turn.id) && TurnOk(turn)
    ensures var after := data.(turns := data.turns + [turn]); DataOk(after) && Continues(data, after)
  {
    hide TurnOk, Trimmed;
  }

  lemma SameTurnsContinue(data: SessionData, after: SessionData)
    requires DataOk(data) && after.turns == data.turns && after.config == data.config && after.createdAt == data.createdAt
    requires after.status == Running || after.status == Stopped
    requires data.providerSessionId.Some? ==> after.providerSessionId.Some?
    requires after.title.Some? ==> Trimmed(after.title.value)
    ensures DataOk(after) && Continues(data, after)
  {
    hide Trimmed, TurnOk;
  }

  /** What a decided event can rely on. */
  predicate Grounded(data: SessionData, event: Event) {
    match event
    case SessionStarted(_, _, _) => false
    case SessionErrored(_, _) => false
    case TurnStarted(turnId, _, _) => !HasTurn(data.turns, turnId)
    case TurnAssistantBlockAppended(turnId, _) =>
      HasTurn(data.turns, turnId) && data.turns[FindTurn(data.turns, turnId)].status == Streaming
    case TurnCompleted(turnId, _, _) => HasTurn(data.turns, turnId)
    case TurnFailed(turnId, _, _) => HasTurn(data.turns, turnId)
    case TurnInterrupted(turnId, _) => HasTurn(data.turns, turnId)
    case SessionRenamed(title) => Trimmed(title)
    case _ => true
  }

  lemma DecidedIsGrounded(data: SessionData, cmd: Command, event: Event)
    requires EventsOf(Some(data), cmd) == [event]
    ensures Grounded(data, event) && (event.SessionDeleted? <==> cmd.Delete?)
  {
    hide HasTurn, FindTurn, IsSpace, Trim;
    var events := [event];
    assert events[0] == event;
    match cmd
    case Rename(title) => assert event == SessionRenamed(Trim(title));
    case _ =>
  }

  /** No event but the deletion takes anything back. */
  lemma EventContinues(data: SessionData, event: Event)
    requires DataOk(data) && Grounded(data, event) && !event.SessionDeleted?
    ensures DataOk(AppliedTo(data, event)) && Continues(data, AppliedTo(data, event))
  {
    StatusAndTitle(data);
    hide DataOk, Continues, Updated, Trimmed, HasTurn, MergeBlock;
    match event
    case TurnStarted(turnId, userText, startedAt) =>
      NewTurnContinues(data, Turn(turnId, userText, [], Streaming, startedAt, None, NO_USAGE, None));
    case TurnAssistantBlockAppended(turnId, block) =>
      AppendContinues(data, turnId, block);
    case TurnCompleted(turnId, usage, at) =>
      UpdatedContinues(data, turnId, (t: Turn) => t.(status := Completed, completedAt := Some(at), usage := usage));
    case TurnFailed(turnId, message, at) =>
      UpdatedContinues(data, turnId,
                       (t: Turn) => t.(status := Failed, completedAt := Some(at), errorMessage := Some(message)));
    case TurnInterrupted(turnId, at) =>
      UpdatedContinues(data, turnId, (t: Turn) => t.(status := Interrupted, completedAt := Some(at)));
    case SessionEnvModeChanged(_) => SameTurnsContinue(data, AppliedTo(data, event));
    case SessionStopped(_) => SameTurnsContinue(data, AppliedTo(data, event));
    case ProviderSessionAttached(_) => SameTurnsContinue(data, AppliedTo(data, event));
    case SessionResumed(_) => SameTurnsContinue(data, AppliedTo(data, event));
    case SessionRenamed(_) => SameTurnsContinue(data, AppliedTo(data, event));
    case SessionPinToggled(_) => SameTurnsContinue(data, AppliedTo(data, event));
  }

  lemma AppendContinues(data: SessionData, id: string, block: Block)
    requires DataOk(data) && HasTurn(data.turns, id) && data.turns[FindTurn(data.turns, id)].status == Streaming
    ensures var after := data.(turns := Updated(data.turns, id, (t: Turn) => t.(blocks := MergeBlock(t.blocks, block))));
            DataOk(after) && Continues(data, after)
  {
    var t := data.turns[FindTurn(data.turns, id)];
    MergeKeepsText(t.blocks, block);
    assert TurnOk(t);
    hide DataOk, Continues, Updated, MergeBlock;
    UpdatedContinues(data, id, (t: Turn) => t.(blocks := MergeBlock(t.blocks, block)));
  }

  lemma StatusAndTitle(data: SessionData)
    requires DataOk(data)
    ensures data.status == Running || data.status == Stopped
    ensures data.title.Some? ==> Trimmed(data.title.value)
  {
  }

  // ----- Runs -----

  ghost predicate StateOk(state: SessionState) {
    state.Some? ==> DataOk(state.value)
  }

  lemma StepCases(state: SessionState, cmd: Command)
    ensures var events := EventsOf(state, cmd);
            ReplayedFrom(state, events) == if events == [] then state else Applied(state, events[0])
    ensures EventsOf(state, cmd) != [] ==> EventsOf(state, cmd) == [EventsOf(state, cmd)[0]]
  {
    OneEventAtMost(state, cmd);
    hide EventsOf, Applied;
    var events := EventsOf(state, cmd);
    if events != [] {
      assert events == [events[0]] && events[..0] == [];
      assert ReplayedFrom(state, events[..0]) == state;
    }
  }

  /** One command on a living session: nothing it holds is taken back unless it is deleted. */
  lemma CommandContinues(data: SessionData, cmd: Command)
    requires DataOk(data)
    ensures var after := ReplayedFrom(Some(data), EventsOf(Some(data), cmd));
            if cmd.Delete? then after == None else after.Some? && DataOk(after.value) && Continues(data, after.value)
  {
    var events := EventsOf(Some(data), cmd);
    StepCases(Some(data), cmd);
    assert cmd.Delete? ==> events != [];
    hide ReplayedFrom, EventsOf, DataOk, Continues, Grounded, AppliedTo;
    if events != [] {
      DecidedIsGrounded(data, cmd, events[0]);
      GroundedStart(data, events[0]);
      if !cmd.Delete? {
        EventContinues(data, events[0]);
      }
    } else {
      ContinuesItself(data);
    }
  }

  lemma GroundedStart(data: SessionData, event: Event)
    requires Grounded(data, event)
    ensures !event.SessionStarted?
  {
  }

  lemma ContinuesItself(data: SessionData)
    ensures Continues(data, data)
  {
  }

  lemma {:induction false} EveryStateOk(cmds: seq<Command>)
    ensures StateOk(After(cmds))
  {
    if cmds != [] {
      var before, cmd := After(cmds[..|cmds| - 1]), cmds[|cmds| - 1];
      EveryStateOk(cmds[..|cmds| - 1]);
      if before.Some? {
        CommandContinues(before.value, cmd);
      } else {
        StepCases(before, cmd);
      }
      hide ReplayedFrom, Continues;
    }
  }

  lemma ContinuesTransitive(a: SessionData, b: SessionData, c: SessionData)
    requires Continues(a, b) && Continues(b, c)
    ensures Continues(a, c)
  {
    hide TurnContinues;
    forall i | 0 <= i < |a.turns| ensures TurnContinues(a.turns[i], c.turns[i]) {
      TurnContinuesOn(a.turns[i], b.turns[i], c.turns[i]);
    }
  }

  lemma TurnContinuesOn(t: Turn, u: Turn, v: Turn)
    requires TurnContinues(t, u) && TurnContinues(u, v)
    ensures TurnContinues(t, v)
  {
    hide TextIn;
    assert TextIn(v.blocks)[..|TextIn(t.blocks)|] == TextIn(u.blocks)[..|TextIn(t.blocks)|];
  }

  /**
   * From any point of a run on, as long as the session is not deleted: turns keep their ids, order and user
   * text, text is only added, a turn that has left Streaming keeps its blocks and never streams again, and a
   * provider session id is never lost.
   */
  lemma {:induction false} SessionsContinue(cmds: seq<Command>, n: nat)
    requires n <= |cmds| && After(cmds[..n]).Some?
    requires forall k :: n <= k < |cmds| ==> !cmds[k].Delete?
    ensures After(cmds).Some? && Continues(After(cmds[..n]).value, After(cmds).value)
  {
    if n == |cmds| {
      assert cmds[..n] == cmds;
      ContinuesItself(After(cmds).value);
    } else {
      var front, cmd := cmds[..|cmds| - 1], cmds[|cmds| - 1];
      assert front[..n] == cmds[..n];
      SessionsContinue(front, n);
      EveryStateOk(front);
      CommandContinues(After(front).value, cmd);
      ContinuesTransitive(After(cmds[..n]).value, After(front).value, After(cmds).value);
      hide ReplayedFrom, Continues, DataOk;
    }
  }

  /** A turn that is over, however it ended, is not beyond being reported as failed. */
  lemma FinishedTurnsCanStillFail(data: SessionData, i: nat, message: string, now: Time)
    requires DataOk(data) && i < |data.turns| && data.turns[i].status != Streaming
    ensures var after := ReplayedFrom(Some(data), EventsOf(Some(data), FailTurn(data.turns[i].id, message, now)));
            && after.Some? && i < |after.value.turns|
            && after.value.turns[i].status == Failed && after.value.turns[i].completedAt == Some(now)
  {
    var cmd := FailTurn(data.turns[i].id, message, now);
    StepCases(Some(data), cmd);
    assert FindTurn(data.turns, data.turns[i].id) == i;
    assert EventsOf(Some(data), cmd) == [TurnFailed(data.turns[i].id, message, now)];
    hide ReplayedFrom, EventsOf;
  }

  // ----- The log -----

  lemma {:induction false} ReplayInPieces(state: SessionState, a: seq<Event>, b: seq<Event>)
    ensures ReplayedFrom(state, a + b) == ReplayedFrom(ReplayedFrom(state, a), b)
  {
    if b == [] {
      assert a + b == a;
    } else {
      ReplayInPieces(state, a, b[..|b| - 1]);
      assert (a + b)[..|a + b| - 1] == a + b[..|b| - 1];
      hide Applied;
    }
  }

  /** The state commands lead to is the one their log replays to, whole or in two pieces. */
  lemma {:induction false} LogReplays(cmds: seq<Command>, n: nat)
    requires n <= |Log(cmds)|
    ensures Replayed(Log(cmds)) == After(cmds)
    ensures ReplayedFrom(Replayed(Log(cmds)[..n]), Log(cmds)[n..]) == After(cmds)
  {
    LogReplaysWhole(cmds);
    assert Log(cmds)[..n] + Log(cmds)[n..] == Log(cmds);
    ReplayInPieces(None, Log(cmds)[..n], Log(cmds)[n..]);
    hide Log, After, ReplayedFrom;
  }

  lemma {:induction false} LogReplaysWhole(cmds: seq<Command>)
    ensures Replayed(Log(cmds)) == After(cmds)
  {
    if cmds != [] {
      var front, before := Log(cmds[..|cmds| - 1]), After(cmds[..|cmds| - 1]);
      LogReplaysWhole(cmds[..|cmds| - 1]);
      ReplayInPieces(None, front, EventsOf(before, cmds[|cmds| - 1]));
      hide ReplayedFrom, EventsOf;
    }
  }

  // ----- Blocks -----

  /** The blocks appended to a turn of the session that lives at the end of the log. */
  function AppendedTo(log: seq<Event>, id: string): seq<Block> {
    if log == [] then []
    else
      var front, last := AppendedTo(log[..|log| - 1], id), log[|log| - 1];
      if last.SessionStarted? || last.SessionDeleted? then []
      else if last.TurnAssistantBlockAppended? && last.turnId == id then front + [last.block]
      else front
  }

  predicate TurnBlocksOk(turns: seq<Turn>, id: string, appended: seq<Block>) {
    var n := FindTurn(turns, id);
    if n < |turns| then turns[n].blocks == Merged(appended) else appended == []
  }

  lemma AppendedSnoc(log: seq<Event>, event: Event, id: string)
    ensures AppendedTo(log + [event], id) ==
            if event.SessionStarted? || event.SessionDeleted? then []
            else if event.TurnAssistantBlockAppended? && event.turnId == id then AppendedTo(log, id) + [event.block]
            else AppendedTo(log, id)
  {
    assert (log + [event])[..|log|] == log;
  }

  lemma MergedSnoc(blocks: seq<Block>, block: Block)
    ensures Merged(blocks + [block]) == MergeBlock(Merged(blocks), block)
  {
    assert (blocks + [block])[..|blocks|] == blocks;
  }

  lemma UpdatedFinds(turns: seq<Turn>, id: string, change: Turn -> Turn, other: string)
    requires forall t :: change(t).id == t.id
    ensures FindTurn(Updated(turns, id, change), other) == FindTurn(turns, other)
    ensures var n := FindTurn(turns, other);
            n < |turns| ==> Updated(turns, id, change)[n] == if other == id then change(turns[n]) else turns[n]
  {
  }

  lemma EventKeepsBlocks(data: SessionData, log: seq<Event>, event: Event, id: string)
    requires Grounded(data, event) && !event.SessionDeleted?
    requires TurnBlocksOk(data.turns, id, AppendedTo(log, id))
    ensures !event.SessionStarted? && TurnBlocksOk(AppliedTo(data, event).turns, id, AppendedTo(log + [event], id))
  {
    AppendedSnoc(log, event, id);
    GroundedStart(data, event);
    hide AppendedTo, Updated, MergeBlock, Merged;
    match event
    case TurnStarted(turnId, userText, startedAt) =>
      NewTurnIsFound(data.turns, Turn(turnId, userText, [], Streaming, startedAt, None, NO_USAGE, None), id);
      assert Merged([]) == [] by { MergedOfNothing(); }
    case TurnAssistantBlockAppended(turnId, block) =>
      MergedSnoc(AppendedTo(log, id), block);
      UpdatedFinds(data.turns, turnId, (t: Turn) => t.(blocks := MergeBlock(t.blocks, block)), id);
    case TurnCompleted(turnId, usage, at) =>
      UpdatedFinds(data.turns, turnId, (t: Turn) => t.(status := Completed, completedAt := Some(at), usage := usage), id);
    case TurnFailed(turnId, message, at) =>
      UpdatedFinds(data.turns, turnId,
                   (t: Turn) => t.(status := Failed, completedAt := Some(at), errorMessage := Some(message)), id);
    case TurnInterrupted(turnId, at) =>
      UpdatedFinds(data.turns, turnId, (t: Turn) => t.(status := Interrupted, completedAt := Some(at)), id);
    case _ =>
  }

  lemma MergedOfNothing()
    ensures Merged([]) == []
  {
  }

  lemma NewTurnIsFound(turns: seq<Turn>, turn: Turn, id: string)
    requires !HasTurn(turns, turn.id)
    ensures var n := FindTurn(turns, id);
            FindTurn(turns + [turn], id) == if n == |turns| && turn.id != id then n + 1 else n
  {
    var all := turns + [turn];
    assert all[|turns|] == turn;
    assert forall i :: 0 <= i < |turns| ==> all[i] == turns[i];
  }

  lemma {:induction false} BlocksFollowLog(cmds: seq<Command>, id: string)
    requires After(cmds).Some?
    ensures TurnBlocksOk(After(cmds).value.turns, id, AppendedTo(Log(cmds), id))
  {
    var front, cmd := cmds[..|cmds| - 1], cmds[|cmds| - 1];
    var before := After(front);
    var events := EventsOf(before, cmd);
    StepCases(before, cmd);
    if events == [] {
      BlocksFollowLog(front, id);
      assert Log(front) + events == Log(front);
    } else if before.Some? {
      BlocksFollowLog(front, id);
      DecidedIsGrounded(before.value, cmd, events[0]);
      hide Grounded, TurnBlocksOk, AppliedTo, EventsOf, ReplayedFrom;
      EventKeepsBlocks(before.value, Log(front), events[0], id);
    } else {
      AppendedSnoc(Log(front), events[0], id);
      hide ReplayedFrom;
    }
  }

  /** The blocks of every turn are the one coalesced form of the blocks appended to it. */
  lemma BlocksAreCoalesced(cmds: seq<Command>, i: nat)
    requires After(cmds).Some? && i < |After(cmds).value.turns|
    ensures var turn := After(cmds).value.turns[i];
            && IsCoalescing(AppendedTo(Log(cmds), turn.id), turn.blocks)
            && forall other :: IsCoalescing(AppendedTo(Log(cmds), turn.id), other) ==> other == turn.blocks
  {
    var turns := After(cmds).value.turns;
    EveryStateOk(cmds);
    BlocksFollowLog(cmds, turns[i].id);
    assert FindTurn(turns, turns[i].id) == i;
    var appended := AppendedTo(Log(cmds), turns[i].id);
    hide After, Log, AppendedTo, IsCoalescing;
    forall other ensures IsCoalescing(appended, other) <==> other == Merged(appended) {
      CoalescedExactly(appended, other);
    }
  }

  // ----- What commands achieve -----

  /** The state after a command on a living session. */
  function Outcome(data: SessionData, cmd: Command): SessionState {
    ReplayedFrom(Some(data), EventsOf(Some(data), cmd))
  }

  predicate RejectedWith(data: SessionData, cmd: Command, error: Error) {
    Decide(Some(data), cmd) == Err(error) && Outcome(data, cmd) == Some(data)
  }

  /** What the commands about the session itself leave behind, whether or not they had to say anything. */
  lemma SessionCommandsExactly(data: SessionData, cmd: Command)
    ensures match cmd
            case SetEnvMode(mode) => Outcome(data, cmd) == Some(data.(envMode := mode))
            case Stop(_) => Outcome(data, cmd) == Some(data.(status := Stopped))
            case AttachProviderSession(id) => Outcome(data, cmd) == Some(data.(providerSessionId := Some(id)))
            case Resume(_) =>
              if data.status == Running || data.status == Idle then RejectedWith(data, cmd, NotResumable)
              else if data.providerSessionId.None? then RejectedWith(data, cmd, NoProviderSession)
              else Outcome(data, cmd) == Some(data.(status := Running))
            case Rename(title) =>
              if Trim(title) == "" then RejectedWith(data, cmd, EmptyTitle)
              else Outcome(data, cmd) == Some(data.(title := Some(Trim(title))))
            case TogglePin(now) =>
              Outcome(data, cmd) == Some(data.(pinnedAt := if data.pinnedAt.Some? then None else Some(now)))
            case Delete(_) => Outcome(data, cmd) == None
            case Start(_, _, _) => RejectedWith(data, cmd, AlreadyExists)
            case _ => true
  {
    StepCases(Some(data), cmd);
    hide ReplayedFrom, Trim, HasTurn, FindTurn, Updated;
  }

  /** A turn starts only in a session that is not stopped, under a new id, empty and streaming. */
  lemma StartTurnExactly(data: SessionData, id: string, text: string, now: Time)
    ensures var cmd := StartTurn(id, text, now);
            if data.status == Stopped then RejectedWith(data, cmd, NotRunning)
            else if HasTurn(data.turns, id) then RejectedWith(data, cmd, UnknownTurn("duplicate " + id))
            else exists turn :: Outcome(data, cmd) == Some(data.(turns := data.turns + [turn]))
                                && turn.id == id && turn.userText == text && turn.startedAt == now
                                && turn.blocks == [] && turn.status == Streaming && turn.completedAt == None
  {
    var cmd := StartTurn(id, text, now);
    StepCases(Some(data), cmd);
    hide ReplayedFrom, HasTurn;
    if data.status != Stopped && !HasTurn(data.turns, id) {
      var turn := Turn(id, text, [], Streaming, now, None, NO_USAGE, None);
      assert Outcome(data, cmd) == Some(data.(turns := data.turns + [turn]));
    }
  }

  /** A command about turn `i` changes that turn alone: appending and completing only while it streams, failing and interrupting always. */
  lemma TurnCommandsExactly(data: SessionData, cmd: Command, i: nat)
    requires DataOk(data) && i < |data.turns|
    ensures var t := data.turns[i];
            match cmd
            case AppendAssistantBlock(id, block) =>
              id == t.id ==>
                if t.status != Streaming then RejectedWith(data, cmd, TurnNotStreaming(id))
                else Outcome(data, cmd) == WithTurn(data, i, t.(blocks := MergeBlock(t.blocks, block)))
            case CompleteTurn(id, usage, now) =>
              id == t.id ==>
                Outcome(data, cmd) ==
                if t.status != Streaming then Some(data)
                else WithTurn(data, i, t.(status := Completed, completedAt := Some(now), usage := usage))
            case FailTurn(id, message, now) =>
              id == t.id ==>
                Outcome(data, cmd) ==
                WithTurn(data, i, t.(status := Failed, completedAt := Some(now), errorMessage := Some(message)))
            case InterruptTurn(id, now) =>
              id == t.id ==>
                Outcome(data, cmd) == WithTurn(data, i, t.(status := Interrupted, completedAt := Some(now)))
            case _ => true
  {
    StepCases(Some(data), cmd);
    assert FindTurn(data.turns, data.turns[i].id) == i;
    hide ReplayedFrom, HasTurn, FindTurn, MergeBlock, DataOk, Trim;
  }

  function WithTurn(data: SessionData, i: nat, turn: Turn): SessionState
    requires i < |data.turns|
  {
    Some(data.(turns := data.turns[i := turn]))
  }

  /** Commands about a turn that does not exist are rejected as such. */
  lemma UnknownTurnsAreRejected(data: SessionData, cmd: Command)
    requires cmd.AppendAssistantBlock? || cmd.CompleteTurn? || cmd.FailTurn? || cmd.InterruptTurn?
    ensures RejectedWith(data, cmd, UnknownTurn(cmd.turnId)) <==> !HasTurn(data.turns, cmd.turnId)
  {
    StepCases(Some(data), cmd);
    hide ReplayedFrom, HasTurn;
  }

  /** Where no session lives, only a start does anything: a running session as asked for, with nothing in it yet. */
  lemma NoSessionExactly(cmd: Command)
    ensures var after := ReplayedFrom(None, EventsOf(None, cmd));
            if cmd.Start? then
              && Decide(None, cmd).Ok? && after.Some?
              && var data := after.value;
              && data.config == cmd.config && data.envMode == cmd.envMode && data.createdAt == cmd.now
              && data.status == Running && data.turns == [] && data.providerSessionId == None
              && data.title == None && data.pinnedAt == None
            else Decide(None, cmd) == Err(NotFound) && after == None
  {
    StepCases(None, cmd);
    hide ReplayedFrom;
  }

  /** The one event no command is answered with: old logs may mark a session as errored. Without a session no event but a start counts. */
  lemma OtherEventsExactly(state: SessionState, event: Event)
    ensures state.Some? && event.SessionErrored? ==> Applied(state, event) == Some(state.value.(status := Errored))
    ensures state.None? && !event.SessionStarted? ==> Applied(state, event) == None
  {
  }

  // ----- Repeated commands -----

  /** Commands that set something say nothing when repeated. */
  lemma RepeatedCommandIsSilent(data: SessionData, cmd: Command)
    requires DataOk(data) && Decide(Some(data), cmd).Ok?
    requires cmd.SetEnvMode? || cmd.Stop? || cmd.CompleteTurn? || cmd.AttachProviderSession? || cmd.Rename?
    ensures Decide(ReplayedFrom(Some(data), EventsOf(Some(data), cmd)), cmd) == Ok([])
  {
    StepCases(Some(data), cmd);
    var events := EventsOf(Some(data), cmd);
    if events != [] {
      match cmd
      case CompleteTurn(id, usage, now) => RepeatedCompletion(data, id, usage, now);
      case Rename(title) => RepeatedRename(data, title);
      case _ =>
    }
    hide ReplayedFrom, Updated, HasTurn, FindTurn, DataOk, Trim;
  }

  lemma RepeatedRename(data: SessionData, title: string)
    ensures DecideOn(data.(title := Some(Trim(title))), Rename(title)).Ok? ==>
              DecideOn(data.(title := Some(Trim(title))), Rename(title)) == Ok([])
  {
    hide Trim;
  }

  lemma RepeatedCompletion(data: SessionData, id: string, usage: Usage, now: Time)
    ensures var event := TurnCompleted(id, usage, now);
            var n, turns := FindTurn(data.turns, id), AppliedTo(data, event).turns;
            FindTurn(turns, id) == n && |turns| == |data.turns| && (n < |turns| ==> turns[n].status == Completed)
  {
    UpdatedFinds(data.turns, id, (t: Turn) => t.(status := Completed, completedAt := Some(now), usage := usage), id);
    hide HasTurn;
  }
}
