/** What holds of every run of the watchdog, whatever the polls show. */
module WatchdogRuns {
  import opened Options
  import opened Guardrails
  import opened Watchdog
  import P = Pilot
  import Text

  // ----- Counting -----

  function Consults(events: seq<Event>): nat {
    if events == [] then 0
    else
      var e := events[|events| - 1];
      Consults(events[..|events| - 1]) + if e.Drove? && e.record.consulted then 1 else 0
  }

  function Submits(events: seq<Event>): nat {
    if events == [] then 0
    else
      var e := events[|events| - 1];
      Submits(events[..|events| - 1]) + if e.Drove? && Submitted(e.record) then 1 else 0
  }

  function Resends(events: seq<Event>): nat {
    if events == [] then 0
    else Resends(events[..|events| - 1]) + if events[|events| - 1].Resent? then 1 else 0
  }

  /** Enter re-sends since the last drive. */
  function ResendsSinceDrive(events: seq<Event>): nat {
    if events == [] || events[|events| - 1].Drove? then 0
    else ResendsSinceDrive(events[..|events| - 1]) + if events[|events| - 1].Resent? then 1 else 0
  }

  /** Index of the last drive, -1 if there is none. */
  function LastDrive(events: seq<Event>): (d: int)
    ensures -1 <= d < |events|
    ensures d >= 0 ==> events[d].Drove?
    ensures forall k :: d < k < |events| ==> !events[k].Drove?
  {
    if events == [] then -1
    else if events[|events| - 1].Drove? then |events| - 1
    else LastDrive(events[..|events| - 1])
  }

  lemma RunEmpty(c: Config, start: int)
    ensures Run(c, start, []) == (Start(start), [])
  {
  }

  /** Unfolds the last poll of a run that was still going on. */
  lemma RunSnoc(c: Config, start: int, polls: seq<Poll>)
    requires polls != []
    ensures var (s, events) := Run(c, start, polls[..|polls| - 1]);
            var (s', events') := Run(c, start, polls);
            var (t, e) := Tick(c, s, polls[|polls| - 1]);
            && (!s.running ==> s' == s && events' == events)
            && (s.running ==> |events| == |polls| - 1 && s' == t && events' == events + [e] &&
                              events'[..|events|] == events)
  {
  }

  /** The events of a run, one by one: event i is the tick of poll i in the state before it. */
  lemma {:induction false} EventAt(c: Config, start: int, polls: seq<Poll>, i: nat)
    requires i < |Run(c, start, polls).1|
    ensures var (s, events) := Run(c, start, polls[..i]);
            && s.running
            && events == Run(c, start, polls).1[..i]
            && |events| == i
            && Run(c, start, polls).1[i] == Tick(c, s, polls[i]).1
  {
    RunSnoc(c, start, polls);
    var front := polls[..|polls| - 1];
    var (s, events) := Run(c, start, front);
    if i < |events| {
      EventAt(c, start, front, i);
      assert front[..i] == polls[..i];
      assert Run(c, start, polls).1[..i] == events[..i];
    } else {
      assert i == |polls| - 1 && polls[..i] == front;
    }
  }

  /** What a step can have done, seen from the watchdog. */
  lemma DriveEffect(c: Config, s: WatchState, p: Poll)
    requires s.phase.Observe?
    ensures var (s', e) := Drive(c, s, p);
            && e.Drove?
            && s'.lastActed == Some(Fp(c, p))
            && s'.running == s.running
            && (s'.stableFp, s'.stableSince) == (s.stableFp, s.stableSince)
            && s'.phase == (if Submitted(e.record) then AwaitingStart(p.after, 0) else Observe)
            && (Submitted(e.record) ==> e.record.consulted)
            && (e.record.consulted ==> s'.pilot.guard.steps == s.pilot.guard.steps + 1 <= c.pilot.guard.maxSteps)
            && s'.pilot.guard.steps >= s.pilot.guard.steps
  {
  }

  /** Only a drive touches the pilot, and it runs one step of it. */
  lemma TickPilot(c: Config, s: WatchState, p: Poll)
    ensures var (s', e) := Tick(c, s, p);
            if e.Drove? then (s'.pilot, e.record) == P.Step(c.pilot, s.pilot, AskOf(p), p.answer)
            else s'.pilot == s.pilot
  {
    hide P.Step;
  }

  lemma {:induction false} CountingInvariant(c: Config, start: int, polls: seq<Poll>)
    ensures var (s, events) := Run(c, start, polls);
            && Consults(events) <= s.pilot.guard.steps
            && Consults(events) <= c.pilot.guard.maxSteps
            && Submits(events) <= Consults(events)
            && Resends(events) <= 3 * Submits(events)
            && ResendsSinceDrive(events) <= 3
            && (s.phase.AwaitingStart? ==>
                  && s.phase.retries <= 3
                  && ResendsSinceDrive(events) == s.phase.retries
                  && Resends(events) + 3 <= 3 * Submits(events) + s.phase.retries)
  {
    hide P.Step;
    hide Run;
    hide Fp;
    RunEmpty(c, start);
    if polls == [] {
    } else {
      var front, p := polls[..|polls| - 1], polls[|polls| - 1];
      CountingInvariant(c, start, front);
      RunSnoc(c, start, polls);
      var (s, events) := Run(c, start, front);
      if s.running && s.phase.Observe? {
        DriveEffect(c, s, p);
      }
    }
  }

  /**
   * One watchdog asks the Supervisor at most 40 times, and re-sends Enter at most 3 times
   * after a submitting action and so at most 120 times, over any run. (Every prefix of a run is a run.)
   */
  lemma RunIsBounded(c: Config, start: int, polls: seq<Poll>)
    requires c.pilot.guard == DEFAULT_GUARD
    ensures var events := Run(c, start, polls).1;
            && Consults(events) <= 40
            && Submits(events) <= Consults(events)
            && ResendsSinceDrive(events) <= 3
            && Resends(events) <= 3 * Submits(events) <= 120
  {
    CountingInvariant(c, start, polls);
  }

  // ----- The pilot inside the loop -----

  function PilotInputs(c: Config, start: int, polls: seq<Poll>): seq<P.StepInput> {
    if polls == [] then []
    else
      var front, p := polls[..|polls| - 1], polls[|polls| - 1];
      var s := Run(c, start, front).0;
      PilotInputs(c, start, front) +
      if s.running && Tick(c, s, p).1.Drove? then [P.StepInput(AskOf(p), p.answer)] else []
  }

  function Records(events: seq<Event>): seq<P.StepRecord> {
    if events == [] then []
    else
      var e := events[|events| - 1];
      Records(events[..|events| - 1]) + if e.Drove? then [e.record] else []
  }

  /** The drives of a run are a run of the decision pipeline, so all its laws hold of the watchdog. */
  lemma {:induction false} DrivesAreAPilotRun(c: Config, start: int, polls: seq<Poll>)
    ensures var (s, events) := Run(c, start, polls);
            P.Run(c.pilot, PilotInputs(c, start, polls)) == (s.pilot, Records(events))
  {
    hide P.Step;
    hide Tick;
    hide Run;
    if polls == [] {
      assert Run(c, start, polls) == (Start(start), []) by { RunEmpty(c, start); }
    } else {
      var front, p := polls[..|polls| - 1], polls[|polls| - 1];
      DrivesAreAPilotRun(c, start, front);
      RunSnoc(c, start, polls);
      var (s, events) := Run(c, start, front);
      var inputs := PilotInputs(c, start, front);
      var events' := Run(c, start, polls).1;
      if s.running {
        var e := Tick(c, s, p).1;
        TickPilot(c, s, p);
        assert events' == events + [e] && events'[..|events|] == events;
        if e.Drove? {
          assert PilotInputs(c, start, polls) == inputs + [P.StepInput(AskOf(p), p.answer)];
          assert (inputs + [P.StepInput(AskOf(p), p.answer)])[..|inputs|] == inputs;
          assert Records(events') == Records(events) + [e.record];
        } else {
          assert PilotInputs(c, start, polls) == inputs;
          assert Records(events') == Records(events);
        }
      } else {
        assert PilotInputs(c, start, polls) == inputs;
      }
    }
  }

  /** A settled-turn budget bounds the replies of a watchdog too. */
  lemma SettledRepliesOfRun(c: Config, start: int, polls: seq<Poll>)
    requires c.pilot.maxTurns.Some?
    ensures P.SettledReplies(Records(Run(c, start, polls).1)) <=
            if c.pilot.maxTurns.value == 0 then 0 else c.pilot.maxTurns.value - 1
  {
    DrivesAreAPilotRun(c, start, polls);
    P.SettledRepliesBounded(c.pilot, PilotInputs(c, start, polls));
  }

  /** A menu whose text is denylisted is never asked about and never typed at. */
  lemma DenylistedMenuIsLeftAlone(c: Config, start: int, polls: seq<Poll>, i: nat)
    requires i < |Run(c, start, polls).1|
    requires polls[i].needsInput && FirstMatch(c.pilot.rules, polls[i].tail).Some?
    ensures var e := Run(c, start, polls).1[i];
            e.Drove? ==> e.keys == [] && !e.record.consulted && !Submitted(e.record)
  {
    hide Run;
    EventAt(c, start, polls, i);
  }

  // ----- What a poll leads to -----

  /** Polls are told apart by the words on their screens. */
  lemma FpIsTheScreen(c: Config, p: Poll)
    ensures Fp(c, p) == c.pilot.digest(Text.JoinWords(Text.Words(p.tail)))
  {
  }

  lemma TickLeaves(c: Config, s: WatchState, p: Poll)
    ensures var (s', e) := Tick(c, s, p);
            && (e == Left <==> !p.engagedBefore || !p.engagedAfter)
            && (e == Left || e == GaveUp ==> !s'.running)
            && (e != Left && e != GaveUp ==> s'.running == s.running)
  {
    hide P.Step, Fp;
  }

  /** The loop is left exactly on the first poll that finds the session disengaged; nothing is typed on it or after it. */
  lemma LeftExactly(c: Config, start: int, polls: seq<Poll>, i: nat)
    requires i < |Run(c, start, polls).1|
    ensures var events := Run(c, start, polls).1;
            && i < |polls|
            && (events[i] == Left <==> !polls[i].engagedBefore || !polls[i].engagedAfter)
            && (events[i] == Left || events[i] == GaveUp ==> i == |events| - 1 && !Run(c, start, polls).0.running)
  {
    EventAt(c, start, polls, i);
    var s := Run(c, start, polls[..i]).0;
    TickLeaves(c, s, polls[i]);
    RunTick(c, start, polls, i);
    if !Tick(c, s, polls[i]).0.running {
      RunStopped(c, start, polls, i + 1);
    }
    hide Run, Tick;
  }

  /**
   * A drive asks about what is on screen: the menu if one waits for input, else the settled turn. What it types is
   * written out for every action; a halt or a failed Supervisor types nothing.
   */
  lemma DriveTypesExactly(c: Config, start: int, polls: seq<Poll>, i: nat)
    requires i < |Run(c, start, polls).1| && Run(c, start, polls).1[i].Drove?
    ensures i < |polls|
    ensures var (r, keys, p) := (Run(c, start, polls).1[i].record, Run(c, start, polls).1[i].keys, polls[i]);
            && r.ask == (if p.needsInput then P.Permission(None, p.tail) else P.TurnEnded(p.tail))
            && (r.outcome.Err? ==> keys == [])
            && (r.outcome.Ok? ==>
                  match r.outcome.value
                  case DoApprove => keys == ["\r"]
                  case DoApproveAlways =>
                    && |keys| == c.menuSteps(p.menu) + 1 && keys[|keys| - 1] == "\r"
                    && forall k :: 0 <= k < |keys| - 1 ==> keys[k] == "\U{1b}[B"
                  case DoReject(reason) => keys == ["\U{1b}", reason, "\r"]
                  case DoReply(text) => keys == [text, "\r"]
                  case Halt(_) => keys == [])
  {
    EventAt(c, start, polls, i);
    var s := Run(c, start, polls[..i]).0;
    DriveTypes(c, s, polls[i]);
    if Tick(c, s, polls[i]).1.record.outcome.Ok? {
      SubmittedInputEndsWithEnter(c, Tick(c, s, polls[i]).1.record.outcome.value, polls[i].menu);
    }
    hide Run, Tick, P.Step;
  }

  lemma DriveTypes(c: Config, s: WatchState, p: Poll)
    requires Tick(c, s, p).1.Drove?
    ensures var e := Tick(c, s, p).1;
            && e.record.ask == (if p.needsInput then P.Permission(None, p.tail) else P.TurnEnded(p.tail))
            && e.keys == if e.record.outcome.Ok? then Keys(c, e.record.outcome.value, p.menu) else []
  {
    P.StepEffect(c.pilot, s.pilot, AskOf(p), p.answer);
    hide P.Step, Keys, Fp;
  }

  // ----- Why a drive happened -----

  lemma {:induction false} LastActedIsLastDrive(c: Config, start: int, polls: seq<Poll>)
    ensures var (s, events) := Run(c, start, polls);
            && s.lastActed == if LastDrive(events) < 0 then None else Some(Fp(c, polls[LastDrive(events)]))
  {
    hide P.Step;
    hide Run;
    hide Fp;
    RunEmpty(c, start);
    if polls == [] {
    } else {
      var front, p := polls[..|polls| - 1], polls[|polls| - 1];
      LastActedIsLastDrive(c, start, front);
      RunSnoc(c, start, polls);
      var (s, events) := Run(c, start, front);
      if s.running && s.phase.Observe? {
        DriveEffect(c, s, p);
      }
    }
  }

  /** While observing, a recorded fingerprint has been on an idle screen ever since `stableSince`. */
  lemma {:induction false} StableSince(c: Config, start: int, polls: seq<Poll>) returns (j: nat)
    requires var s := Run(c, start, polls).0; s.running && s.phase.Observe? && s.stableFp.Some?
    ensures var s := Run(c, start, polls).0;
            && j < |polls|
            && s.stableSince == polls[j].at
            && forall k :: j <= k < |polls| ==> !polls[k].busy && Some(Fp(c, polls[k])) == s.stableFp
  {
    hide P.Step;
    hide Fp;
    RunSnoc(c, start, polls);
    var front, p := polls[..|polls| - 1], polls[|polls| - 1];
    var (s, events) := Run(c, start, front);
    if s.phase.Observe? {
      DriveEffect(c, s, p);
      if s.stableFp == Some(Fp(c, p)) {
        j := StableSince(c, start, front);
        assert forall k :: j <= k < |front| ==> front[k] == polls[k];
      } else {
        j := |polls| - 1;
      }
    } else {
      assert false;
    }
  }

  /**
   * A drive acts on a screen that was idle and unchanged at every poll from some poll j on, at
   * least 1000 ms earlier, and that differs from the screen of the previous drive.
   */
  lemma DriveIsJustified(c: Config, start: int, polls: seq<Poll>, i: nat) returns (j: nat)
    requires i < |Run(c, start, polls).1| && Run(c, start, polls).1[i].Drove?
    ensures j < i < |polls|
    ensures forall k :: j <= k <= i ==> !polls[k].busy && Fp(c, polls[k]) == Fp(c, polls[i])
    ensures polls[i].at - polls[j].at >= 1000
    ensures var d := LastDrive(Run(c, start, polls).1[..i]);
            d >= 0 ==> Fp(c, polls[d]) != Fp(c, polls[i])
  {
    hide P.Step;
    hide Run;
    EventAt(c, start, polls, i);
    j := StableSince(c, start, polls[..i]);
    LastActedIsLastDrive(c, start, polls[..i]);
  }

  predicate WellTimed(polls: seq<Poll>) {
    forall j, k :: 0 <= j < k < |polls| ==> polls[j].at <= polls[k].at
  }

  /** Poll k was observed, left the loop running and showed screen fp, idle. */
  ghost predicate ObservedIdle(c: Config, start: int, polls: seq<Poll>, k: nat, fp: u64)
    requires k < |polls|
  {
    && !polls[k].busy
    && Fp(c, polls[k]) == fp
    && Run(c, start, polls[..k]).0.phase.Observe?
    && Run(c, start, polls[..k + 1]).0.running
  }

  ghost predicate IdleStretch(c: Config, start: int, polls: seq<Poll>, j: nat, n: nat, fp: u64)
    requires j <= n <= |polls|
  {
    forall k :: j <= k < n ==> ObservedIdle(c, start, polls, k, fp)
  }

  lemma {:induction false} StretchIsRemembered(c: Config, start: int, polls: seq<Poll>, j: nat, n: nat, fp: u64)
    requires WellTimed(polls) && j < n < |polls|
    requires IdleStretch(c, start, polls, j, n, fp)
    requires Run(c, start, polls[..n]).0.phase.Observe?
    ensures var s := Run(c, start, polls[..n]).0;
            s.running && s.stableFp == Some(fp) && s.stableSince <= polls[j].at
    decreases n - j
  {
    hide P.Step, Fp, Run;
    assert ObservedIdle(c, start, polls, n - 1, fp);
    var s := Run(c, start, polls[..n - 1]).0;
    RunTick(c, start, polls, n - 1);
    DriveEffect(c, s, polls[n - 1]);
    if n - 1 > j {
      StretchIsRemembered(c, start, polls, j, n - 1, fp);
    } else if s.stableFp == Some(fp) {
      var j0 := StableSince(c, start, polls[..j]);
    }
  }

  /** The converse: a screen idle and unchanged for 1000 ms that is not the one last acted on is acted on. */
  lemma SettledScreenIsDriven(c: Config, start: int, polls: seq<Poll>, i: nat, j: nat)
    requires WellTimed(polls) && j < i < |polls|
    requires IdleStretch(c, start, polls, j, i, Fp(c, polls[i]))
    requires Run(c, start, polls[..i]).0.phase.Observe?
    requires !polls[i].busy && polls[i].engagedBefore && polls[i].engagedAfter
    requires polls[i].at - polls[j].at >= 1000
    requires var d := LastDrive(Run(c, start, polls[..i]).1);
             d < 0 || Fp(c, polls[d]) != Fp(c, polls[i])
    ensures Run(c, start, polls[..i]).0.running
    ensures Tick(c, Run(c, start, polls[..i]).0, polls[i]).1.Drove?
  {
    StretchIsRemembered(c, start, polls, j, i, Fp(c, polls[i]));
    LastActedIsLastDrive(c, start, polls[..i]);
  }

  // ----- Why an Enter was re-sent -----

  /** `m` submitted or re-sent at `since`; after it there was only waiting on the idle acted-on screen. */
  ghost predicate AwaitingFrom(c: Config, polls: seq<Poll>, events: seq<Event>, since: int, m: nat) {
    var d := LastDrive(events);
    && |events| == |polls|
    && 0 <= d <= m < |polls|
    && Submitted(events[d].record)
    && (events[m].Resent? || m == d)
    && since == polls[m].after
    && (forall k :: m < k < |polls| ==> events[k].Waited? && !polls[k].busy && Fp(c, polls[k]) == Fp(c, polls[d]))
  }

  lemma AwaitingOneMore(c: Config, polls: seq<Poll>, events: seq<Event>, since: int, m: nat, p: Poll, e: Event)
    requires AwaitingFrom(c, polls, events, since, m)
    ensures e.Resent? ==> AwaitingFrom(c, polls + [p], events + [e], p.after, |polls|)
    ensures e.Waited? && !p.busy && Fp(c, p) == Fp(c, polls[LastDrive(events)]) ==>
              AwaitingFrom(c, polls + [p], events + [e], since, m)
  {
    hide P.Fingerprint;
    assert (events + [e])[..|events|] == events;
  }

  lemma {:induction false} AwaitingSince(c: Config, start: int, polls: seq<Poll>) returns (m: nat)
    requires var s := Run(c, start, polls).0; s.running && s.phase.AwaitingStart?
    ensures var (s, events) := Run(c, start, polls);
            AwaitingFrom(c, polls, events, s.phase.since, m)
  {
    hide P.Step;
    hide Run;
    RunEmpty(c, start);
    RunSnoc(c, start, polls);
    var front, p := polls[..|polls| - 1], polls[|polls| - 1];
    var (s, events) := Run(c, start, front);
    var e := Tick(c, s, p).1;
    assert polls == front + [p];
    if s.phase.Observe? {
      DriveEffect(c, s, p);
      m := |polls| - 1;
    } else {
      m := AwaitingSince(c, start, front);
      LastActedIsLastDrive(c, start, front);
      AwaitingOneMore(c, front, events, s.phase.since, m, p, e);
      m := if e.Resent? then |front| else m;
    }
  }

  /**
   * An Enter is re-sent only on the idle screen the last drive submitted to, at least 1300 ms after
   * that drive or the last re-send, with nothing but waiting on that screen in between.
   */
  lemma ResendIsJustified(c: Config, start: int, polls: seq<Poll>, i: nat) returns (d: nat, m: nat)
    requires i < |Run(c, start, polls).1| && Run(c, start, polls).1[i].Resent?
    ensures var events := Run(c, start, polls).1;
            && d == LastDrive(events[..i]) && d <= m < i < |polls|
            && Submitted(events[d].record)
            && (events[m].Resent? || m == d)
            && polls[i].at - polls[m].after >= 1300
            && (forall k :: m < k < i ==> events[k].Waited?)
            && (forall k :: m < k <= i ==> !polls[k].busy && Fp(c, polls[k]) == Fp(c, polls[d]))
  {
    hide P.Step;
    hide Run;
    EventAt(c, start, polls, i);
    m := AwaitingSince(c, start, polls[..i]);
    LastActedIsLastDrive(c, start, polls[..i]);
    d := LastDrive(Run(c, start, polls).1[..i]);
  }

  lemma AwaitingOneLess(c: Config, polls: seq<Poll>, events: seq<Event>, since: int, m: nat, p: Poll, e: Event)
    requires |events| == |polls| && m < |polls| && AwaitingFrom(c, polls + [p], events + [e], since, m)
    ensures AwaitingFrom(c, polls, events, since, m)
    ensures e.Waited? && !p.busy && Fp(c, p) == Fp(c, polls[LastDrive(events)])
  {
    hide P.Fingerprint;
    var all, ps := events + [e], polls + [p];
    assert all[..|events|] == events && all[|events|] == e && ps[|polls|] == p;
    assert forall k :: 0 <= k < |polls| ==> ps[k] == polls[k] && all[k] == events[k];
  }

  lemma AwaitingLast(c: Config, polls: seq<Poll>, events: seq<Event>, since: int, m: nat)
    requires AwaitingFrom(c, polls, events, since, m) && m == |polls| - 1
    ensures |events| == |polls| && since == polls[m].after
    ensures events[m].Resent? || (events[m].Drove? && Submitted(events[m].record))
  {
    hide Fp;
  }

  /** What the history shows the loop remembers: when it submitted or re-sent last, and how often it has re-sent. */
  lemma {:induction false} AwaitingIsRemembered(c: Config, start: int, polls: seq<Poll>, since: int, m: nat)
    requires AwaitingFrom(c, polls, Run(c, start, polls).1, since, m)
    ensures var (s, events) := Run(c, start, polls);
            s.running && s.phase == AwaitingStart(since, ResendsSinceDrive(events))
  {
    hide P.Step;
    hide Run;
    RunSnoc(c, start, polls);
    CountingInvariant(c, start, polls);
    var front, p := polls[..|polls| - 1], polls[|polls| - 1];
    var (s, events) := Run(c, start, front);
    RunLength(c, start, front);
    assert polls == front + [p];
    var e := Tick(c, s, p).1;
    if m == |polls| - 1 {
      AwaitingLast(c, polls, Run(c, start, polls).1, since, m);
      hide AwaitingFrom, Fp;
      if s.phase.Observe? {
        DriveEffect(c, s, p);
      }
    } else {
      hide Fp;
      AwaitingOneLess(c, front, events, since, m, p, e);
      AwaitingIsRemembered(c, start, front, since, m);
      LastActedIsLastDrive(c, start, front);
    }
  }

  lemma RunLength(c: Config, start: int, polls: seq<Poll>)
    ensures |Run(c, start, polls).1| <= |polls|
  {
  }

  /** The poll finds, 1300 ms after the last submission or re-send, the idle screen it went to, and nothing but waiting since. */
  ghost predicate Unstarted(c: Config, polls: seq<Poll>, events: seq<Event>, p: Poll) {
    exists since, m :: AwaitingFrom(c, polls, events, since, m) && UnstartedSince(c, polls, events, p, since)
  }

  predicate UnstartedSince(c: Config, polls: seq<Poll>, events: seq<Event>, p: Poll, since: int) {
    var d := LastDrive(events);
    0 <= d < |polls| && !p.busy && Fp(c, p) == Fp(c, polls[d]) && p.at - since >= 1300
  }

  /** Exactly when Enter is re-sent, and when the watchdog gives up instead. */
  lemma ResendExactly(c: Config, start: int, polls: seq<Poll>, p: Poll)
    requires Run(c, start, polls).0.running && p.engagedBefore && p.engagedAfter
    ensures var (s, events) := Run(c, start, polls);
            var e := Tick(c, s, p).1;
            && (e.Resent? <==> Unstarted(c, polls, events, p) && ResendsSinceDrive(events) < 3)
            && (e.GaveUp? <==> Unstarted(c, polls, events, p) && ResendsSinceDrive(events) >= 3)
  {
    var (s, events) := Run(c, start, polls);
    var e := Tick(c, s, p).1;
    hide P.Step, Run, Fp, AwaitingFrom;
    CountingInvariant(c, start, polls);
    LastActedIsLastDrive(c, start, polls);
    if e.Resent? || e.GaveUp? {
      var m := AwaitingSince(c, start, polls);
      assert UnstartedSince(c, polls, events, p, s.phase.since);
    }
    if Unstarted(c, polls, events, p) {
      var since, m :| AwaitingFrom(c, polls, events, since, m) && UnstartedSince(c, polls, events, p, since);
      AwaitingIsRemembered(c, start, polls, since, m);
    }
  }

  // ----- Loops -----

  /** The fingerprints driven on, in order. */
  function DrivenScreens(c: Config, polls: seq<Poll>, events: seq<Event>): seq<u64>
    requires |events| <= |polls|
  {
    if events == [] then []
    else
      var n := |events| - 1;
      DrivenScreens(c, polls, events[..n]) + if events[n].Drove? then [Fp(c, polls[n])] else []
  }

  predicate NoStutter(s: seq<u64>) {
    forall k :: 0 < k < |s| ==> s[k - 1] != s[k]
  }

  lemma {:induction false} OccurrencesOfSparse(s: seq<u64>, h: u64)
    requires NoStutter(s)
    ensures 2 * Occurrences(s, h) <= |s| + 1
    ensures s != [] && s[|s| - 1] != h ==> 2 * Occurrences(s, h) <= |s|
  {
    if s == [] {
    } else {
      OccurrencesOfSparse(s[..|s| - 1], h);
    }
  }

  lemma {:induction false} OccurrencesOfTail(s: seq<u64>, n: nat, h: u64)
    ensures Occurrences(LastOf(s, n), h) <= Occurrences(s, h)
  {
    if |s| <= n || n == 0 {
    } else {
      OccurrencesOfTail(s[..|s| - 1], n - 1, h);
      assert LastOf(s, n)[..n - 1] == LastOf(s[..|s| - 1], n - 1);
    }
  }

  /** Consecutive drives differ. */
  lemma {:induction false} DrivenScreensNeverStutter(c: Config, start: int, polls: seq<Poll>)
    ensures var (s, events) := Run(c, start, polls);
            && var driven := DrivenScreens(c, polls, events);
            && NoStutter(driven)
            && s.lastActed == if driven == [] then None else Some(driven[|driven| - 1])
  {
    hide P.Step;
    hide Run;
    RunEmpty(c, start);
    if polls != [] {
      var front, p := polls[..|polls| - 1], polls[|polls| - 1];
      DrivenScreensNeverStutter(c, start, front);
      RunSnoc(c, start, polls);
      var (s, events) := Run(c, start, front);
      DrivenScreensLocal(c, front, polls, events);
      hide Fp, NoStutter, DrivenScreens;
      var driven := DrivenScreens(c, polls, events);
      if s.running {
        var e := Tick(c, s, p).1;
        DrivenSnoc(c, polls, events, e);
        if s.phase.Observe? {
          DriveEffect(c, s, p);
          StutterSnoc(driven, Fp(c, p));
        }
      }
    }
  }

  lemma DrivenSnoc(c: Config, polls: seq<Poll>, events: seq<Event>, e: Event)
    requires |events| < |polls|
    ensures DrivenScreens(c, polls, events + [e]) ==
            if e.Drove? then DrivenScreens(c, polls, events) + [Fp(c, polls[|events|])] else DrivenScreens(c, polls, events)
  {
    hide Fp;
    assert (events + [e])[..|events|] == events;
  }

  lemma StutterSnoc(driven: seq<u64>, fp: u64)
    ensures NoStutter(driven) && (driven == [] || driven[|driven| - 1] != fp) ==> NoStutter(driven + [fp])
  {
  }

  /** Every screen the loop guard counted was driven on. */
  lemma {:induction false} ObservedWereDriven(c: Config, start: int, polls: seq<Poll>, h: u64)
    ensures Occurrences(P.Observed(c.pilot, PilotInputs(c, start, polls)), h) <=
            Occurrences(DrivenScreens(c, polls, Run(c, start, polls).1), h)
  {
    hide P.Fingerprint;
    hide P.Forbidden;
    hide P.ScreenText;
    hide AskOf;
    hide Tick;
    hide Run;
    if polls == [] {
    } else {
      var front, p := polls[..|polls| - 1], polls[|polls| - 1];
      ObservedWereDriven(c, start, front, h);
      RunSnoc(c, start, polls);
      var (s, events) := Run(c, start, front);
      DrivenScreensLocal(c, front, polls, events);
      var inputs, driven := PilotInputs(c, start, front), DrivenScreens(c, polls, events);
      var events' := Run(c, start, polls).1;
      if s.running && Tick(c, s, p).1.Drove? {
        assert PilotInputs(c, start, polls) == inputs + [P.StepInput(AskOf(p), p.answer)];
        ObservedSnoc(c, inputs, p, h);
        assert DrivenScreens(c, polls, events') == driven + [Fp(c, p)];
        OccurrencesSnoc(driven, Fp(c, p), h);
      } else {
        assert PilotInputs(c, start, polls) == inputs;
        assert DrivenScreens(c, polls, events') == driven;
      }
    }
  }

  lemma OccurrencesSnoc(s: seq<u64>, x: u64, h: u64)
    ensures Occurrences(s + [x], h) == Occurrences(s, h) + if x == h then 1 else 0
  {
    assert (s + [x])[..|s|] == s;
  }

  lemma ObservedSnoc(c: Config, inputs: seq<P.StepInput>, p: Poll, h: u64)
    ensures Occurrences(P.Observed(c.pilot, inputs + [P.StepInput(AskOf(p), p.answer)]), h) <=
            Occurrences(P.Observed(c.pilot, inputs), h) + if Fp(c, p) == h then 1 else 0
  {
    hide P.Fingerprint;
    hide P.Forbidden;
    assert (inputs + [P.StepInput(AskOf(p), p.answer)])[..|inputs|] == inputs;
    var hs := P.Observed(c.pilot, inputs);
    assert P.ScreenText(AskOf(p)) == p.tail;
    assert hs + [] == hs;
    OccurrencesSnoc(hs, Fp(c, p), h);
  }

  lemma {:induction false} DrivenScreensLocal(c: Config, a: seq<Poll>, b: seq<Poll>, events: seq<Event>)
    requires |events| <= |a| <= |b| && a == b[..|a|]
    ensures DrivenScreens(c, a, events) == DrivenScreens(c, b, events)
  {
    if events == [] {
    } else {
      DrivenScreensLocal(c, a, b, events[..|events| - 1]);
    }
  }

  /**
   * Because a screen is never driven twice running, the loop detector cannot fire before the fifth
   * drive: the halting drive and two earlier ones saw one screen, with another screen in between each.
   */
  lemma LoopHaltTakesFiveDrives(c: Config, start: int, polls: seq<Poll>)
    requires c.pilot.guard == DEFAULT_GUARD && polls != []
    requires var (s, p) := (Run(c, start, polls[..|polls| - 1]).0, polls[|polls| - 1]);
             s.running && Tick(c, s, p).1.Drove? && Tick(c, s, p).1.record.outcome == Ok(P.Halt(P.Looping))
    ensures |DrivenScreens(c, polls, Run(c, start, polls).1)| >= 5
  {
    hide P.Step;
    hide Run;
    hide P.Fingerprint;
    var front, p := polls[..|polls| - 1], polls[|polls| - 1];
    var (s, h) := (Run(c, start, front).0, Fp(c, p));
    var inputs := PilotInputs(c, start, front);
    DrivesAreAPilotRun(c, start, front);
    TickPilot(c, s, p);
    P.LoopHaltExactly(c.pilot, inputs, AskOf(p), p.answer);
    assert P.ScreenText(AskOf(p)) == p.tail;
    OccurrencesOfTail(P.Observed(c.pilot, inputs) + [h], 6, h);
    OccurrencesSnoc(P.Observed(c.pilot, inputs), h, h);
    ObservedWereDriven(c, start, front, h);
    RunSnoc(c, start, polls);
    DrivenScreensLocal(c, front, polls, Run(c, start, front).1);
    OccurrencesSnoc(DrivenScreens(c, front, Run(c, start, front).1), h, h);
    DrivenScreensNeverStutter(c, start, polls);
    OccurrencesOfSparse(DrivenScreens(c, polls, Run(c, start, polls).1), h);
  }
}
