/**
 * The per-session watchdog: polls the terminal, debounces, acts once per settled screen and
 * re-sends a swallowed Enter. Everything outside the loop is an input of the poll: whether the
 * session is still engaged, the turn state, the screen, the clock and the Supervisor's answer.
 * Engagement is arbitrary at every check, because re-engaging a terminal starts a second
 * watchdog and may keep the first one alive.
 */
module Watchdog {
  import opened Options
  import opened Guardrails
  import P = Pilot

  const RESPOND_DEBOUNCE_MS := 1000
  const START_TIMEOUT_MS := 1300
  const MAX_SUBMIT_RETRIES := 3

  const ENTER := "\r"
  const ESCAPE := "\U{1b}"
  const ARROW_DOWN := "\U{1b}[B"

  /** `menuSteps` finds the "don't ask again" option of a menu on screen. */
  datatype Config = Config(pilot: P.Config, menuSteps: string -> nat)

  /**
   * One turn of the loop. `at` is the clock when the state was read, `after` the clock when the
   * step or the re-send it led to was over; `menu` is the screen as re-read while acting.
   */
  datatype Poll = Poll(
    engagedBefore: bool, engagedAfter: bool,
    busy: bool, needsInput: bool, tail: string, at: int,
    answer: P.Answer, menu: string, after: int)

  datatype Phase = Observe | AwaitingStart(since: int, retries: nat)

  datatype WatchState = WatchState(
    phase: Phase, stableFp: Option<u64>, stableSince: int, lastActed: Option<u64>,
    pilot: P.PilotState, running: bool)

  datatype Event =
    | Waited
    | Drove(record: P.StepRecord, keys: seq<string>)
    | Resent
    | GaveUp
    | Left

  function Fp(c: Config, p: Poll): u64 {
    P.Fingerprint(c.pilot, p.tail)
  }

  function AskOf(p: Poll): P.Ask {
    if p.needsInput then P.Permission(None, p.tail) else P.TurnEnded(p.tail)
  }

  function Repeat<T>(x: T, n: nat): seq<T> {
    if n == 0 then [] else Repeat(x, n - 1) + [x]
  }

  /** What is written to the terminal to carry out an action. */
  function Keys(c: Config, a: P.Action, menu: string): seq<string> {
    match a
    case DoApprove => [ENTER]
    case DoApproveAlways => Repeat(ARROW_DOWN, c.menuSteps(menu)) + [ENTER]
    case DoReject(reason) => [ESCAPE, reason, ENTER]
    case DoReply(text) => [text, ENTER]
    case Halt(_) => []
  }

  /** Whatever submits input ends with Enter; approving moves down the menu by exactly its option. */
  lemma {:induction false} SubmittedInputEndsWithEnter(c: Config, a: P.Action, menu: string)
    ensures var keys := Keys(c, a, menu);
            && (keys == [] <==> a.Halt?)
            && (keys != [] ==> keys[|keys| - 1] == ENTER)
            && (a.DoApprove? || a.DoApproveAlways? ==>
                  && |keys| == (if a.DoApprove? then 0 else c.menuSteps(menu)) + 1
                  && forall k :: 0 <= k < |keys| - 1 ==> keys[k] == ARROW_DOWN)
  {
    if a.DoApproveAlways? {
      RepeatIsConstant(ARROW_DOWN, c.menuSteps(menu));
    }
  }

  lemma {:induction false} RepeatIsConstant<T>(x: T, n: nat)
    ensures |Repeat(x, n)| == n && forall k :: 0 <= k < n ==> Repeat(x, n)[k] == x
  {
    if n > 0 {
      RepeatIsConstant(x, n - 1);
    }
  }

  /** Did the step submit input, so that the turn should start? */
  predicate Submitted(r: P.StepRecord) {
    r.outcome.Ok? && !r.outcome.value.Halt?
  }

  function Drive(c: Config, s: WatchState, p: Poll): (WatchState, Event) {
    var (pilot, record) := P.Step(c.pilot, s.pilot, AskOf(p), p.answer);
    var s1 := s.(lastActed := Some(Fp(c, p)), pilot := pilot);
    var keys := if record.outcome.Ok? then Keys(c, record.outcome.value, p.menu) else [];
    (if Submitted(record) then s1.(phase := AwaitingStart(p.after, 0)) else s1, Drove(record, keys))
  }

  function Tick(c: Config, s: WatchState, p: Poll): (WatchState, Event) {
    var fp := Fp(c, p);
    if !p.engagedBefore || !p.engagedAfter then (s.(running := false), Left)
    else if s.phase.Observe? then
      if p.busy then (s.(stableFp := None), Waited)
      else if s.stableFp != Some(fp) then (s.(stableFp := Some(fp), stableSince := p.at), Waited)
      else if p.at - s.stableSince < RESPOND_DEBOUNCE_MS then (s, Waited)
      else if s.lastActed == Some(fp) then (s, Waited)
      else Drive(c, s, p)
    else
      if p.busy || s.lastActed != Some(fp) then (s.(phase := Observe, stableFp := None), Waited)
      else if p.at - s.phase.since < START_TIMEOUT_MS then (s, Waited)
      else if s.phase.retries >= MAX_SUBMIT_RETRIES then (s.(running := false), GaveUp)
      else (s.(phase := AwaitingStart(p.after, s.phase.retries + 1)), Resent)
  }

  function Start(at: int): WatchState {
    WatchState(Observe, None, at, None, P.FRESH, true)
  }

  /** The loop over a list of polls: the state it reaches and one event per poll until it returns. */
  function Run(c: Config, start: int, polls: seq<Poll>): (r: (WatchState, seq<Event>))
    ensures |r.1| <= |polls| && (r.0.running ==> |r.1| == |polls|)
  {
    if polls == [] then (Start(start), [])
    else
      var (s, events) := Run(c, start, polls[..|polls| - 1]);
      if !s.running then (s, events)
      else
        var (s', e) := Tick(c, s, polls[|polls| - 1]);
        (s', events + [e])
  }

  /** Carries an action out on the terminal, returning what was written. */
  method Act(c: Config, a: P.Action, menu: string) returns (keys: seq<string>, submitted: bool)
    ensures keys == Keys(c, a, menu)
    ensures submitted <==> !a.Halt?
  {
    match a
    case DoApprove => return [ENTER], true;
    case DoApproveAlways =>
      keys := [];
      for i := 0 to c.menuSteps(menu)
        invariant keys == Repeat(ARROW_DOWN, i)
      {
        keys := keys + [ARROW_DOWN];
      }
      return keys + [ENTER], true;
    case DoReject(reason) => return [ESCAPE, reason, ENTER], true;
    case DoReply(text) => return [text, ENTER], true;
    case Halt(_) => return [], false;
  }

  /** The loop itself, over its local variables and the pilot it owns. */
  method Watch(c: Config, start: int, polls: seq<Poll>) returns (events: seq<Event>)
    ensures events == Run(c, start, polls).1
  {
    var pilot := new P.Autopilot(c.pilot);
    var phase := Observe;
    var stableFp: Option<u64> := None;
    var stableSince := start;
    var lastActed: Option<u64> := None;
    events := [];
    assert polls[..0] == [];
    for i := 0 to |polls|
      invariant pilot.config == c.pilot && pilot.Valid()
      invariant fresh(pilot.loopGuard) && fresh(pilot.budget)
      invariant (WatchState(phase, stableFp, stableSince, lastActed, pilot.State(), true), events) ==
                Run(c, start, polls[..i])
    {
      var p := polls[i];
      ghost var before := WatchState(phase, stableFp, stableSince, lastActed, pilot.State(), true);
      RunTick(c, start, polls, i);
      if !p.engagedBefore || !p.engagedAfter {
        events := events + [Left];
        RunStopped(c, start, polls, i + 1);
        return;
      }
      var fp := Fp(c, p);
      match phase
      case Observe =>
        if p.busy {
          stableFp := None;
          events := events + [Waited];
          continue;
        }
        if stableFp != Some(fp) {
          stableFp, stableSince := Some(fp), p.at;
          events := events + [Waited];
          continue;
        }
        if p.at - stableSince < RESPOND_DEBOUNCE_MS || lastActed == Some(fp) {
          events := events + [Waited];
          continue;
        }
        lastActed := Some(fp);
        var record := pilot.RunStep(AskOf(p), p.answer);
        var keys, submitted := [], false;
        if record.outcome.Ok? {
          keys, submitted := Act(c, record.outcome.value, p.menu);
        }
        if submitted {
          phase := AwaitingStart(p.after, 0);
        }
        events := events + [Drove(record, keys)];
        assert Tick(c, before, p) == Drive(c, before, p);
      case AwaitingStart(since, retries) =>
        if p.busy || lastActed != Some(fp) {
          phase, stableFp := Observe, None;
          events := events + [Waited];
          continue;
        }
        if p.at - since < START_TIMEOUT_MS {
          events := events + [Waited];
          continue;
        }
        if retries >= MAX_SUBMIT_RETRIES {
          events := events + [GaveUp];
          RunStopped(c, start, polls, i + 1);
          return;
        }
        phase := AwaitingStart(p.after, retries + 1);
        events := events + [Resent];
    }
    assert polls[..|polls|] == polls;
  }

  lemma RunTick(c: Config, start: int, polls: seq<Poll>, i: nat)
    requires i < |polls|
    ensures var (s, events) := Run(c, start, polls[..i]);
            Run(c, start, polls[..i + 1]) ==
            if !s.running then (s, events)
            else (Tick(c, s, polls[i]).0, events + [Tick(c, s, polls[i]).1])
  {
    assert polls[..i + 1][..i] == polls[..i];
  }

  lemma {:induction false} RunStopped(c: Config, start: int, polls: seq<Poll>, i: nat)
    requires i <= |polls| && !Run(c, start, polls[..i]).0.running
    ensures Run(c, start, polls) == Run(c, start, polls[..i])
    decreases |polls| - i
  {
    if i == |polls| {
      assert polls[..i] == polls;
    } else {
      RunTick(c, start, polls, i);
      RunStopped(c, start, polls, i + 1);
    }
  }
}
