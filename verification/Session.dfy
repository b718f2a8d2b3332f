/** The session aggregate: commands become events, events fold into the state. */
module Session {
  import opened Options
  import opened Text

  type Time = int

  datatype Block =
    | TextBlock(text: string)
    | Thinking(text: string)
    | ToolUse(id: string, name: string, input: string)
    | ToolResult(toolUseId: string, output: string, isError: bool)

  datatype TurnStatus = Streaming | Completed | Failed | Interrupted

  datatype Usage = Usage(totalCostUsd: Option<real>, inputTokens: Option<nat>, outputTokens: Option<nat>)

  const NO_USAGE := Usage(None, None, None)

  datatype Turn = Turn(
    id: string, userText: string, blocks: seq<Block>, status: TurnStatus,
    startedAt: Time, completedAt: Option<Time>, usage: Usage, errorMessage: Option<string>)

  datatype SessionStatus = Idle | Running | Stopped | Errored

  datatype EnvMode = DefaultEnv | WorktreeEnv

  /** What a session is started with and keeps. */
  datatype Config = Config(
    id: nat, projectId: nat, worktreeId: Option<nat>, providerId: string, model: string,
    thinking: string, runtime: string, kind: string)

  datatype SessionData = SessionData(
    config: Config, createdAt: Time, status: SessionStatus, turns: seq<Turn>,
    providerSessionId: Option<string>, title: Option<string>, envMode: EnvMode, pinnedAt: Option<Time>)

  type SessionState = Option<SessionData>

  datatype Command =
    | Start(config: Config, envMode: EnvMode, now: Time)
    | SetEnvMode(mode: EnvMode)
    | Stop(now: Time)
    | StartTurn(turnId: string, userText: string, now: Time)
    | AppendAssistantBlock(turnId: string, block: Block)
    | CompleteTurn(turnId: string, usage: Usage, now: Time)
    | FailTurn(turnId: string, message: string, now: Time)
    | InterruptTurn(turnId: string, now: Time)
    | AttachProviderSession(providerSessionId: string)
    | Resume(now: Time)
    | Rename(title: string)
    | Delete(now: Time)
    | TogglePin(now: Time)

  datatype Event =
    | SessionStarted(config: Config, envMode: EnvMode, createdAt: Time)
    | SessionEnvModeChanged(mode: EnvMode)
    | SessionStopped(at: Time)
    | SessionErrored(at: Time, message: string)
    | TurnStarted(turnId: string, userText: string, startedAt: Time)
    | TurnAssistantBlockAppended(turnId: string, block: Block)
    | TurnCompleted(turnId: string, usage: Usage, completedAt: Time)
    | TurnFailed(turnId: string, message: string, completedAt: Time)
    | TurnInterrupted(turnId: string, at: Time)
    | ProviderSessionAttached(providerSessionId: string)
    | SessionResumed(at: Time)
    | SessionRenamed(title: string)
    | SessionDeleted(at: Time)
    | SessionPinToggled(pinnedAt: Option<Time>)

  datatype Error =
    | AlreadyExists
    | NotFound
    | NotRunning
    | UnknownTurn(what: string)
    | TurnNotStreaming(turnId: string)
    | NotResumable
    | NoProviderSession
    | EmptyTitle

  // ----- Turns -----

  predicate HasTurn(turns: seq<Turn>, id: string) {
    exists i :: 0 <= i < |turns| && turns[i].id == id
  }

  /** Position of the first turn with this id, or the number of turns. */
  function FindTurn(turns: seq<Turn>, id: string): (n: nat)
    ensures n <= |turns| && (n < |turns| <==> HasTurn(turns, id))
    ensures n < |turns| ==> turns[n].id == id
    ensures forall i :: 0 <= i < n ==> turns[i].id != id
  {
    if turns == [] || turns[0].id == id then 0
    else
      assert forall i :: 1 <= i < |turns| ==> turns[i] == turns[1..][i - 1];
      1 + FindTurn(turns[1..], id)
  }

  function Updated(turns: seq<Turn>, id: string, change: Turn -> Turn): seq<Turn> {
    var n := FindTurn(turns, id);
    if n < |turns| then turns[n := change(turns[n])] else turns
  }

  /** Consecutive text blocks are merged, other blocks get their own entry. */
  function MergeBlock(blocks: seq<Block>, incoming: Block): seq<Block> {
    var n := |blocks|;
    if incoming.TextBlock? && n > 0 && blocks[n - 1].TextBlock?
    then blocks[n - 1 := TextBlock(blocks[n - 1].text + incoming.text)]
    else blocks + [incoming]
  }

  // ----- Deciding -----

  function DecideOn(data: SessionData, cmd: Command): Result<seq<Event>, Error> {
    match cmd
    case Start(_, _, _) => Err(AlreadyExists)
    case SetEnvMode(mode) => if data.envMode == mode then Ok([]) else Ok([SessionEnvModeChanged(mode)])
    case Stop(now) => if data.status == Stopped then Ok([]) else Ok([SessionStopped(now)])
    case StartTurn(turnId, userText, now) =>
      if data.status == Stopped then Err(NotRunning)
      else if HasTurn(data.turns, turnId) then Err(UnknownTurn("duplicate " + turnId))
      else Ok([TurnStarted(turnId, userText, now)])
    case AppendAssistantBlock(turnId, block) =>
      var n := FindTurn(data.turns, turnId);
      if n == |data.turns| then Err(UnknownTurn(turnId))
      else if data.turns[n].status != Streaming then Err(TurnNotStreaming(turnId))
      else Ok([TurnAssistantBlockAppended(turnId, block)])
    case CompleteTurn(turnId, usage, now) =>
      var n := FindTurn(data.turns, turnId);
      if n == |data.turns| then Err(UnknownTurn(turnId))
      else if data.turns[n].status != Streaming then Ok([])
      else Ok([TurnCompleted(turnId, usage, now)])
    case FailTurn(turnId, message, now) =>
      if !HasTurn(data.turns, turnId) then Err(UnknownTurn(turnId)) else Ok([TurnFailed(turnId, message, now)])
    case InterruptTurn(turnId, now) =>
      if !HasTurn(data.turns, turnId) then Err(UnknownTurn(turnId)) else Ok([TurnInterrupted(turnId, now)])
    case AttachProviderSession(id) =>
      if data.providerSessionId == Some(id) then Ok([]) else Ok([ProviderSessionAttached(id)])
    case Resume(now) =>
      if data.status != Stopped && data.status != Errored then Err(NotResumable)
      else if data.providerSessionId.None? then Err(NoProviderSession)
      else Ok([SessionResumed(now)])
    case Rename(title) =>
      var trimmed := Trim(title);
      if trimmed == "" then Err(EmptyTitle)
      else if data.title == Some(trimmed) then Ok([])
      else Ok([SessionRenamed(trimmed)])
    case Delete(now) => Ok([SessionDeleted(now)])
    case TogglePin(now) => Ok([SessionPinToggled(if data.pinnedAt.Some? then None else Some(now))])
  }

  function Decide(state: SessionState, cmd: Command): Result<seq<Event>, Error> {
    match state
    case Some(data) => DecideOn(data, cmd)
    case None => if cmd.Start? then Ok([SessionStarted(cmd.config, cmd.envMode, cmd.now)]) else Err(NotFound)
  }

  // ----- Applying -----

  function AppliedTo(data: SessionData, event: Event): SessionData
    requires !event.SessionStarted? && !event.SessionDeleted?
  {
    match event
    case SessionEnvModeChanged(mode) => data.(envMode := mode)
    case SessionStopped(_) => data.(status := Stopped)
    case SessionErrored(_, _) => data.(status := Errored)
    case TurnStarted(turnId, userText, startedAt) =>
      data.(turns := data.turns + [Turn(turnId, userText, [], Streaming, startedAt, None, NO_USAGE, None)])
    case TurnAssistantBlockAppended(turnId, block) =>
      data.(turns := Updated(data.turns, turnId, (t: Turn) => t.(blocks := MergeBlock(t.blocks, block))))
    case TurnCompleted(turnId, usage, at) =>
      data.(turns := Updated(data.turns, turnId,
                             (t: Turn) => t.(status := Completed, completedAt := Some(at), usage := usage)))
    case TurnFailed(turnId, message, at) =>
      data.(turns := Updated(data.turns, turnId,
                             (t: Turn) => t.(status := Failed, completedAt := Some(at), errorMessage := Some(message))))
    case TurnInterrupted(turnId, at) =>
      data.(turns := Updated(data.turns, turnId, (t: Turn) => t.(status := Interrupted, completedAt := Some(at))))
    case ProviderSessionAttached(id) => data.(providerSessionId := Some(id))
    case SessionResumed(_) => data.(status := Running)
    case SessionRenamed(title) => data.(title := Some(title))
    case SessionPinToggled(pinnedAt) => data.(pinnedAt := pinnedAt)
  }

  function Applied(state: SessionState, event: Event): SessionState {
    if event.SessionStarted? then
      Some(SessionData(event.config, event.createdAt, Running, [], None, None, event.envMode, None))
    else if state.None? || event.SessionDeleted? then None
    else Some(AppliedTo(state.value, event))
  }

  function ReplayedFrom(state: SessionState, events: seq<Event>): SessionState {
    if events == [] then state else Applied(ReplayedFrom(state, events[..|events| - 1]), events[|events| - 1])
  }

  function Replayed(events: seq<Event>): SessionState {
    ReplayedFrom(None, events)
  }

  class Aggregate {
    var inner: SessionState

    constructor ()
      ensures inner == None
    {
      inner := None;
    }

    method Append(n: nat, incoming: Block)
      requires inner.Some? && n < |inner.value.turns|
      modifies this
      ensures inner == Some(old(inner).value.(turns := old(inner).value.turns[n :=
                old(inner).value.turns[n].(blocks := MergeBlock(old(inner).value.turns[n].blocks, incoming))]))
    {
      var turns := inner.value.turns;
      var blocks := turns[n].blocks;
      var last := |blocks| - 1;
      if incoming.TextBlock? && last >= 0 && blocks[last].TextBlock? {
        blocks := blocks[last := TextBlock(blocks[last].text + incoming.text)];
      } else {
        blocks := blocks + [incoming];
      }
      inner := Some(inner.value.(turns := turns[n := turns[n].(blocks := blocks)]));
    }

    method Apply(event: Event)
      modifies this
      ensures inner == Applied(old(inner), event)
    {
      if event.SessionStarted? {
        inner := Some(SessionData(event.config, event.createdAt, Running, [], None, None, event.envMode, None));
        return;
      }
      if inner.None? {
        return;
      }
      if event.SessionDeleted? {
        inner := None;
        return;
      }
      var data := inner.value;
      match event
      case SessionEnvModeChanged(mode) => inner := Some(data.(envMode := mode));
      case SessionStopped(_) => inner := Some(data.(status := Stopped));
      case SessionErrored(_, _) => inner := Some(data.(status := Errored));
      case TurnStarted(turnId, userText, startedAt) =>
        var turn := Turn(turnId, userText, [], Streaming, startedAt, None, NO_USAGE, None);
        inner := Some(data.(turns := data.turns + [turn]));
      case TurnAssistantBlockAppended(turnId, block) =>
        var n := FindTurn(data.turns, turnId);
        if n < |data.turns| {
          Append(n, block);
        }
      case TurnCompleted(turnId, usage, at) =>
        var n := FindTurn(data.turns, turnId);
        if n < |data.turns| {
          var turn := data.turns[n].(status := Completed, completedAt := Some(at), usage := usage);
          inner := Some(data.(turns := data.turns[n := turn]));
        }
      case TurnFailed(turnId, message, at) =>
        var n := FindTurn(data.turns, turnId);
        if n < |data.turns| {
          var turn := data.turns[n].(status := Failed, completedAt := Some(at), errorMessage := Some(message));
          inner := Some(data.(turns := data.turns[n := turn]));
        }
      case TurnInterrupted(turnId, at) =>
        var n := FindTurn(data.turns, turnId);
        if n < |data.turns| {
          var turn := data.turns[n].(status := Interrupted, completedAt := Some(at));
          inner := Some(data.(turns := data.turns[n := turn]));
        }
      case ProviderSessionAttached(id) => inner := Some(data.(providerSessionId := Some(id)));
      case SessionResumed(_) => inner := Some(data.(status := Running));
      case SessionRenamed(title) => inner := Some(data.(title := Some(title)));
      case SessionPinToggled(pinnedAt) => inner := Some(data.(pinnedAt := pinnedAt));
    }

    method Replay(events: seq<Event>)
      modifies this
      ensures inner == Replayed(events)
    {
      inner := None;
      for i := 0 to |events|
        invariant inner == Replayed(events[..i])
      {
        assert events[..i + 1][..i] == events[..i];
        Apply(events[i]);
      }
      assert events[..|events|] == events;
    }
  }

  // ----- Runs -----

  /** Carrying out a command: the events it is accepted with are stored and applied, a rejected one does nothing. */
  function EventsOf(state: SessionState, cmd: Command): seq<Event> {
    match Decide(state, cmd) case Ok(events) => events case Err(_) => []
  }

  function After(cmds: seq<Command>): SessionState {
    if cmds == [] then None
    else
      var before := After(cmds[..|cmds| - 1]);
      ReplayedFrom(before, EventsOf(before, cmds[|cmds| - 1]))
  }

  /** The event log of a run. */
  function Log(cmds: seq<Command>): seq<Event> {
    if cmds == [] then []
    else Log(cmds[..|cmds| - 1]) + EventsOf(After(cmds[..|cmds| - 1]), cmds[|cmds| - 1])
  }
}
