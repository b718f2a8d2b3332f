/** The decision pipeline of the auto-pilot: denylist, loop guard, Supervisor, budget. */
module Pilot {
  import opened Options
  import opened Guardrails
  import Text

  datatype Ask =
    | Permission(command: Option<string>, rawPrompt: string)
    | TurnEnded(lastOutput: string)

  datatype Decision =
    | Approve
    | ApproveAlways
    | Reject(reason: string)
    | Reply(text: string)
    | Done(summary: string)
    | Escalate(why: string)

  datatype HaltReason =
    | MissionDone(summary: string)
    | Escalated(why: string)
    | Denylisted(name: string)
    | Looping
    | BudgetExhausted

  datatype Action =
    | DoApprove
    | DoApproveAlways
    | DoReject(reason: string)
    | DoReply(text: string)
    | Halt(why: HaltReason)

  /** A decision with the Supervisor's one-line rationale, if it gives one. */
  datatype Verdict = Verdict(decision: Decision, reasoning: Option<string>)

  /** What the Supervisor backend answers when it is consulted. */
  type Answer = Result<Verdict, string>

  /** `digest` is the string hash; the rules of the denylist are predicates on text. */
  datatype Config = Config(rules: seq<Rule>, guard: GuardConfig, maxTurns: Option<nat>, digest: string -> u64)

  datatype PilotState = PilotState(guard: GuardState, turns: nat)

  const FRESH := PilotState(FRESH_GUARD, 0)

  /** Denylisted text is the concrete command when known, the raw prompt otherwise. */
  function ApprovalText(ask: Ask): Option<string> {
    match ask
    case Permission(Some(command), _) => Some(command)
    case Permission(None, rawPrompt) => Some(rawPrompt)
    case TurnEnded(_) => None
  }

  function Forbidden(c: Config, ask: Ask): Option<string> {
    match ApprovalText(ask)
    case Some(text) => FirstMatch(c.rules, text)
    case None => None
  }

  function ScreenText(ask: Ask): string {
    match ask
    case Permission(_, rawPrompt) => rawPrompt
    case TurnEnded(lastOutput) => lastOutput
  }

  function Fingerprint(c: Config, text: string): u64 {
    c.digest(Text.CollapseSpace(text))
  }

  /** A cosmetic redraw keeps the fingerprint; with a collision-free digest nothing else does. */
  lemma FingerprintIsTheScreen(c: Config, a: string, b: string)
    ensures Text.Words(a) == Text.Words(b) ==> Fingerprint(c, a) == Fingerprint(c, b)
    ensures (forall x, y :: c.digest(x) == c.digest(y) ==> x == y) ==>
              (Fingerprint(c, a) == Fingerprint(c, b) <==> Text.Words(a) == Text.Words(b))
  {
    Text.CollapseIgnoresRedraws(a, b);
  }

  function PreCheck(c: Config, s: PilotState, ask: Ask): (PilotState, Option<Action>) {
    var forbidden := Forbidden(c, ask);
    if forbidden.Some? then (s, Some(Halt(Denylisted(forbidden.value))))
    else
      var (guard, verdict) := Observe(c.guard, s.guard, Fingerprint(c, ScreenText(ask)));
      (s.(guard := guard),
       match verdict
       case Fine => None
       case Repeating => Some(Halt(Looping))
       case TooManySteps => Some(Halt(BudgetExhausted)))
  }

  function PostDecision(c: Config, s: PilotState, ask: Ask, d: Decision): (PilotState, Action) {
    match d
    case Approve | ApproveAlways =>
      var forbidden := Forbidden(c, ask);
      (s, if forbidden.Some? then Halt(Denylisted(forbidden.value))
          else if d.ApproveAlways? then DoApproveAlways else DoApprove)
    case Reject(reason) => (s, DoReject(reason))
    case Reply(text) =>
      if ask.TurnEnded? then
        var charged := s.(turns := s.turns + 1);
        (charged, if Exhausted(c.maxTurns, charged.turns) then Halt(BudgetExhausted) else DoReply(text))
      else (s, DoReply(text))
    case Done(summary) => (s, Halt(MissionDone(summary)))
    case Escalate(why) => (s, Halt(Escalated(why)))
  }

  /** What one step did: `consulted` says whether the Supervisor was asked, `reasoning` what it gave as its rationale. */
  datatype StepRecord = StepRecord(ask: Ask, outcome: Result<Action, string>, consulted: bool, reasoning: Option<string>)

  /** `answer` is what the Supervisor would reply; it is looked at only if it is consulted. */
  function Step(c: Config, s: PilotState, ask: Ask, answer: Answer): (PilotState, StepRecord) {
    var (s1, halt) := PreCheck(c, s, ask);
    if halt.Some? then (s1, StepRecord(ask, Ok(halt.value), false, None))
    else if answer.Err? then (s1, StepRecord(ask, Err(answer.error), true, None))
    else
      var (s2, action) := PostDecision(c, s1, ask, answer.value.decision);
      (s2, StepRecord(ask, Ok(action), true, answer.value.reasoning))
  }

  class Autopilot {
    const config: Config
    const loopGuard: LoopGuard
    const budget: Budget

    constructor (config: Config)
      ensures Valid() && State() == FRESH && this.config == config
      ensures fresh(loopGuard) && fresh(budget)
    {
      this.config := config;
      loopGuard := new LoopGuard(config.guard);
      budget := new Budget(config.maxTurns);
    }

    ghost predicate Valid() {
      loopGuard.config == config.guard && budget.maxTurns == config.maxTurns
    }

    ghost function State(): PilotState
      reads loopGuard, budget
    {
      PilotState(loopGuard.State(), budget.turns)
    }

    method PreCheckStep(ask: Ask) returns (halt: Option<Action>)
      requires Valid()
      modifies loopGuard
      ensures (State(), halt) == PreCheck(config, old(State()), ask)
    {
      var forbidden := Forbidden(config, ask);
      if forbidden.Some? {
        return Some(Halt(Denylisted(forbidden.value)));
      }
      var verdict := loopGuard.ObserveStep(Fingerprint(config, ScreenText(ask)));
      match verdict
      case Fine => halt := None;
      case Repeating => halt := Some(Halt(Looping));
      case TooManySteps => halt := Some(Halt(BudgetExhausted));
    }

    method PostDecisionStep(ask: Ask, d: Decision) returns (action: Action)
      requires Valid()
      modifies budget
      ensures (State(), action) == PostDecision(config, old(State()), ask, d)
    {
      match d
      case Approve | ApproveAlways =>
        var forbidden := Forbidden(config, ask);
        if forbidden.Some? {
          return Halt(Denylisted(forbidden.value));
        }
        action := if d.ApproveAlways? then DoApproveAlways else DoApprove;
      case Reject(reason) => action := DoReject(reason);
      case Reply(text) =>
        if ask.TurnEnded? {
          var more := budget.RecordTurn();
          if !more {
            return Halt(BudgetExhausted);
          }
        }
        action := DoReply(text);
      case Done(summary) => action := Halt(MissionDone(summary));
      case Escalate(why) => action := Halt(Escalated(why));
    }

    method RunStep(ask: Ask, answer: Answer) returns (r: StepRecord)
      requires Valid()
      modifies loopGuard, budget
      ensures (State(), r) == Step(config, old(State()), ask, answer)
    {
      var halt := PreCheckStep(ask);
      if halt.Some? {
        return StepRecord(ask, Ok(halt.value), false, None);
      }
      if answer.Err? {
        return StepRecord(ask, Err(answer.error), true, None);
      }
      var action := PostDecisionStep(ask, answer.value.decision);
      r := StepRecord(ask, Ok(action), true, answer.value.reasoning);
    }
  }

  // ----- Whole runs -----

  datatype StepInput = StepInput(ask: Ask, answer: Answer)

  /** A run from fresh: the final state and what every step did. */
  function Run(c: Config, inputs: seq<StepInput>): (PilotState, seq<StepRecord>) {
    if inputs == [] then (FRESH, [])
    else
      var last := inputs[|inputs| - 1];
      var (s, records) := Run(c, inputs[..|inputs| - 1]);
      var (s', r) := Step(c, s, last.ask, last.answer);
      (s', records + [r])
  }

  /** The fingerprints the loop guard saw: those of the asks the denylist let through. */
  function Observed(c: Config, inputs: seq<StepInput>): seq<u64> {
    if inputs == [] then []
    else
      var ask := inputs[|inputs| - 1].ask;
      Observed(c, inputs[..|inputs| - 1]) +
      if Forbidden(c, ask).Some? then [] else [Fingerprint(c, ScreenText(ask))]
  }

  function Consultations(records: seq<StepRecord>): nat {
    if records == [] then 0
    else Consultations(records[..|records| - 1]) + if records[|records| - 1].consulted then 1 else 0
  }

  /** Replies that were sent to a settled turn. */
  function SettledReplies(records: seq<StepRecord>): nat {
    if records == [] then 0
    else
      var r := records[|records| - 1];
      SettledReplies(records[..|records| - 1]) +
      if r.ask.TurnEnded? && r.outcome.Ok? && r.outcome.value.DoReply? then 1 else 0
  }

  /** What one step does to the guard and the turn count. */
  lemma StepEffect(c: Config, s: PilotState, ask: Ask, answer: Answer)
    ensures var (s', r) := Step(c, s, ask, answer);
            && r.ask == ask
            && s'.guard == (if Forbidden(c, ask).Some? then s.guard
                            else Observe(c.guard, s.guard, Fingerprint(c, ScreenText(ask))).0)
            && (r.consulted ==> Forbidden(c, ask).None? &&
                                Observe(c.guard, s.guard, Fingerprint(c, ScreenText(ask))).1 == Fine)
            && s.turns <= s'.turns
            && (r.outcome.Ok? && r.outcome.value.DoReply? && ask.TurnEnded? ==>
                  s'.turns == s.turns + 1 && !Exhausted(c.maxTurns, s'.turns))
  {
    hide Observe, Fingerprint, Forbidden, Exhausted;
  }

  /** How the guard's verdict decides between halting and consulting. */
  lemma StepOutcome(c: Config, s: PilotState, ask: Ask, answer: Answer)
    ensures var (s', r) := Step(c, s, ask, answer);
            var (guard, verdict) := Observe(c.guard, s.guard, Fingerprint(c, ScreenText(ask)));
            && (Forbidden(c, ask).None? ==> s'.guard == guard)
            && (r.outcome == Ok(Halt(Looping)) <==> Forbidden(c, ask).None? && verdict == Repeating)
            && (!r.consulted && r.outcome == Ok(Halt(BudgetExhausted)) <==>
                  Forbidden(c, ask).None? && verdict == TooManySteps)
            && (r.consulted <==> Forbidden(c, ask).None? && verdict == Fine)
  {
    hide Observe, Fingerprint, Forbidden, Exhausted;
  }

  lemma RunSnoc(c: Config, inputs: seq<StepInput>)
    requires inputs != []
    ensures var last := inputs[|inputs| - 1];
            var (s, records) := Run(c, inputs[..|inputs| - 1]);
            var (s', r) := Step(c, s, last.ask, last.answer);
            && Run(c, inputs) == (s', records + [r])
            && (records + [r])[..|records|] == records
  {
  }

  lemma {:induction false} RunKeepsGuardHistory(c: Config, inputs: seq<StepInput>)
    ensures Run(c, inputs).0.guard == GuardAfter(c.guard, Observed(c, inputs))
  {
    if inputs == [] {
    } else {
      var front, last := inputs[..|inputs| - 1], inputs[|inputs| - 1];
      RunKeepsGuardHistory(c, front);
      RunSnoc(c, inputs);
      StepEffect(c, Run(c, front).0, last.ask, last.answer);
      var hs, h := Observed(c, front), Fingerprint(c, ScreenText(last.ask));
      assert (hs + [h])[..|hs|] == hs;
      if Forbidden(c, last.ask).Some? {
        assert Observed(c, inputs) == hs;
      } else {
        assert Observed(c, inputs) == hs + [h];
      }
    }
  }

  /**
   * In any run the next step halts for looping exactly when its ask is not denylisted, the step cap
   * is not reached and its fingerprint fills the repeat limit within the last observations; it halts
   * on the step cap, without asking the Supervisor, exactly from the observation after the cap on.
   */
  lemma LoopHaltExactly(c: Config, inputs: seq<StepInput>, ask: Ask, answer: Answer)
    ensures var (s', r) := Step(c, Run(c, inputs).0, ask, answer);
            var hs := Observed(c, inputs);
            var h := Fingerprint(c, ScreenText(ask));
            && (r.outcome == Ok(Halt(Looping)) <==>
                  && Forbidden(c, ask).None?
                  && |hs| < c.guard.maxSteps
                  && Occurrences(LastOf(hs + [h], c.guard.window), h) >= c.guard.repeatLimit)
            && (!r.consulted && r.outcome == Ok(Halt(BudgetExhausted)) <==>
                  Forbidden(c, ask).None? && |hs| >= c.guard.maxSteps)
            && (Forbidden(c, ask).None? && |hs| < c.guard.maxSteps ==>
                  s'.guard.recent == LastOf(hs + [h], c.guard.window))
  {
    var hs := Observed(c, inputs);
    var h := Fingerprint(c, ScreenText(ask));
    var s := Run(c, inputs).0;
    RunKeepsGuardHistory(c, inputs);
    GuardVerdict(c.guard, hs, h);
    StepOutcome(c, s, ask, answer);
    if |hs| < c.guard.maxSteps {
      GuardHistory(c.guard, hs + [h]);
      assert (hs + [h])[..|hs|] == hs;
    }
  }

  /** Consultations never outnumber the observations that passed, hence never the step cap. */
  lemma {:induction false} ConsultationsBounded(c: Config, inputs: seq<StepInput>)
    ensures Consultations(Run(c, inputs).1) <= |Observed(c, inputs)|
    ensures Consultations(Run(c, inputs).1) <= c.guard.maxSteps
  {
    if inputs == [] {
    } else {
      var front := inputs[..|inputs| - 1];
      var records := Run(c, inputs).1;
      ConsultationsBounded(c, front);
      RunKeepsGuardHistory(c, front);
      GuardHistory(c.guard, Observed(c, front));
      assert records[..|records| - 1] == Run(c, front).1;
    }
  }

  /**
   * Whatever the state of the guard and the Supervisor's answer, a denylisted request halts
   * the pilot under the first matching rule, unasked and uncounted; and conversely only such a request does.
   */
  lemma DenylistAlwaysWins(c: Config, s: PilotState, ask: Ask, answer: Answer)
    ensures var (s', r) := Step(c, s, ask, answer);
            && (Forbidden(c, ask).Some? ==>
                  s' == s && !r.consulted && r.outcome == Ok(Halt(Denylisted(Forbidden(c, ask).value))))
            && (Forbidden(c, ask).None? ==>
                  !(r.outcome.Ok? && r.outcome.value.Halt? && r.outcome.value.why.Denylisted?))
    ensures forall d :: Forbidden(c, ask).Some? && (d == Approve || d == ApproveAlways) ==>
                          PostDecision(c, s, ask, d).1 == Halt(Denylisted(Forbidden(c, ask).value))
  {
  }

  /** A budget of m lets at most max(0, m - 1) replies to settled turns through, in any run. */
  lemma {:induction false} SettledRepliesBounded(c: Config, inputs: seq<StepInput>)
    requires c.maxTurns.Some?
    ensures var replies := SettledReplies(Run(c, inputs).1);
            && replies <= Run(c, inputs).0.turns
            && replies <= if c.maxTurns.value == 0 then 0 else c.maxTurns.value - 1
  {
    if inputs == [] {
    } else {
      var front, last := inputs[..|inputs| - 1], inputs[|inputs| - 1];
      SettledRepliesBounded(c, front);
      RunSnoc(c, inputs);
      StepEffect(c, Run(c, front).0, last.ask, last.answer);
    }
  }

  /** How often the Supervisor answered a settled turn with a reply, whether or not it was sent. */
  function RepliesDecided(inputs: seq<StepInput>, records: seq<StepRecord>): nat
    requires |records| == |inputs|
  {
    if inputs == [] then 0
    else
      var last := inputs[|inputs| - 1];
      RepliesDecided(inputs[..|inputs| - 1], records[..|records| - 1]) +
      if records[|records| - 1].consulted && last.ask.TurnEnded? && last.answer.Ok? && last.answer.value.decision.Reply?
      then 1 else 0
  }

  lemma StepCharges(c: Config, s: PilotState, ask: Ask, answer: Answer)
    ensures var (s', r) := Step(c, s, ask, answer);
            s'.turns == s.turns + if r.consulted && ask.TurnEnded? && answer.Ok? && answer.value.decision.Reply? then 1 else 0
  {
    hide Observe, Fingerprint, Forbidden, Exhausted;
  }

  lemma {:induction false} TurnsAreRepliesDecided(c: Config, inputs: seq<StepInput>)
    ensures |Run(c, inputs).1| == |inputs|
    ensures Run(c, inputs).0.turns == RepliesDecided(inputs, Run(c, inputs).1)
  {
    if inputs == [] {
    } else {
      var front, last := inputs[..|inputs| - 1], inputs[|inputs| - 1];
      TurnsAreRepliesDecided(c, front);
      RunSnoc(c, inputs);
      StepCharges(c, Run(c, front).0, last.ask, last.answer);
      hide Run, Step;
    }
  }

  /**
   * A consulted reply to a settled turn is sent exactly while fewer than m - 1 such replies were
   * decided before it in the run, and halts the run otherwise; without a budget it is always sent.
   */
  lemma SettledReplyExactly(c: Config, inputs: seq<StepInput>, ask: Ask, text: string, why: Option<string>)
    requires ask.TurnEnded?
    requires Step(c, Run(c, inputs).0, ask, Ok(Verdict(Reply(text), why))).1.consulted
    ensures |Run(c, inputs).1| == |inputs|
    ensures var decided := RepliesDecided(inputs, Run(c, inputs).1);
            Step(c, Run(c, inputs).0, ask, Ok(Verdict(Reply(text), why))).1.outcome ==
            if c.maxTurns.None? || decided + 1 < c.maxTurns.value then Ok(DoReply(text)) else Ok(Halt(BudgetExhausted))
  {
    TurnsAreRepliesDecided(c, inputs);
  }

  // ----- What a step leads to -----

  /**
   * The text the denylist sees is the concrete command of a permission request if it is known, else its prompt, and
   * nothing of a settled turn; a step halts under the first rule that matches it, and under no rule otherwise.
   */
  lemma DenylistedExactly(c: Config, inputs: seq<StepInput>, ask: Ask, answer: Answer, name: string)
    ensures Step(c, Run(c, inputs).0, ask, answer).1.outcome == Ok(Halt(Denylisted(name))) <==>
            match ask
            case Permission(Some(command), _) => FirstMatch(c.rules, command) == Some(name)
            case Permission(None, prompt) => FirstMatch(c.rules, prompt) == Some(name)
            case TurnEnded(_) => false
  {
    DenylistAlwaysWins(c, Run(c, inputs).0, ask, answer);
    hide Step, Run;
  }

  /** What the loop guard looks at: the prompt of a request, the output of a settled turn, spaces collapsed. */
  lemma FingerprintOf(c: Config, ask: Ask)
    ensures Fingerprint(c, ScreenText(ask)) ==
            c.digest(Text.JoinWords(Text.Words(
              match ask case Permission(_, prompt) => prompt case TurnEnded(output) => output)))
  {
  }

  /** The Supervisor is asked exactly if no rule matches, steps are left and the screen is no repeat. */
  lemma ConsultedExactly(c: Config, inputs: seq<StepInput>, ask: Ask, answer: Answer)
    ensures var hs, h := Observed(c, inputs), Fingerprint(c, ScreenText(ask));
            Step(c, Run(c, inputs).0, ask, answer).1.consulted <==>
            && Forbidden(c, ask).None? && |hs| < c.guard.maxSteps
            && Occurrences(LastOf(hs + [h], c.guard.window), h) < c.guard.repeatLimit
  {
    RunKeepsGuardHistory(c, inputs);
    GuardVerdict(c.guard, Observed(c, inputs), Fingerprint(c, ScreenText(ask)));
    StepOutcome(c, Run(c, inputs).0, ask, answer);
    hide Step, Run, Observe, Forbidden, Fingerprint, Occurrences;
  }

  /**
   * When the Supervisor is asked, its decision alone says which action follows, one action for each decision; only a
   * reply to a settled turn may be stopped by the budget instead. Its rationale comes along, its failure is passed on.
   */
  lemma ActionExactly(c: Config, inputs: seq<StepInput>, ask: Ask, answer: Answer)
    requires Step(c, Run(c, inputs).0, ask, answer).1.consulted
    ensures var outcome := Step(c, Run(c, inputs).0, ask, answer).1.outcome;
            if answer.Err? then outcome == Err(answer.error)
            else
              var d := answer.value.decision;
              && (outcome == Ok(DoApprove) <==> d == Approve)
              && (outcome == Ok(DoApproveAlways) <==> d == ApproveAlways)
              && (forall reason :: outcome == Ok(DoReject(reason)) <==> d == Reject(reason))
              && (ask.Permission? ==> forall text :: outcome == Ok(DoReply(text)) <==> d == Reply(text))
              && (ask.TurnEnded? ==> forall text :: outcome == Ok(DoReply(text)) ==> d == Reply(text))
              && (forall summary :: outcome == Ok(Halt(MissionDone(summary))) <==> d == Done(summary))
              && (forall why :: outcome == Ok(Halt(Escalated(why))) <==> d == Escalate(why))
    ensures Step(c, Run(c, inputs).0, ask, answer).1.reasoning ==
            if answer.Ok? then answer.value.reasoning else None
  {
    var s := Run(c, inputs).0;
    StepOutcome(c, s, ask, answer);
    hide Run, Observe, Fingerprint, Forbidden, Exhausted;
  }
}
