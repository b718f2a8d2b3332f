/**
 * The rails around the auto-pilot: the denylist, the loop detector and the turn budget.
 * Regex contents and the hash function are parameters.
 */
module Guardrails {
  import opened Options

  type u64 = n: int | 0 <= n < 0x1_0000_0000_0000_0000

  // ----- Denylist -----

  datatype Rule = Rule(name: string, matches: string -> bool)

  function FirstMatch(rules: seq<Rule>, text: string): (r: Option<string>)
    ensures r.None? <==> forall i :: 0 <= i < |rules| ==> !rules[i].matches(text)
    ensures r.Some? ==> exists i :: 0 <= i < |rules| && rules[i].matches(text) && r.value == rules[i].name &&
                                    forall j :: 0 <= j < i ==> !rules[j].matches(text)
  {
    if rules == [] then None
    else if rules[0].matches(text) then Some(rules[0].name)
    else
      var rest := FirstMatch(rules[1..], text);
      assert forall i :: 1 <= i < |rules| ==> rules[i] == rules[1..][i - 1];
      assert rest.Some? ==> exists i :: 1 <= i < |rules| && rules[i].matches(text) && rest.value == rules[i].name &&
                                        forall j :: 0 <= j < i ==> !rules[j].matches(text) by {
        if rest.Some? {
          var i :| 0 <= i < |rules[1..]| && rules[1..][i].matches(text) && rest.value == rules[1..][i].name &&
                   forall j :: 0 <= j < i ==> !rules[1..][j].matches(text);
          assert rules[i + 1] == rules[1..][i];
          forall j | 0 <= j < i + 1 ensures !rules[j].matches(text) {
            if j > 0 { assert rules[j] == rules[1..][j - 1]; }
          }
        }
      }
      rest
  }

  // ----- Loop guard -----

  datatype LoopVerdict = Fine | Repeating | TooManySteps

  datatype GuardConfig = GuardConfig(window: nat, repeatLimit: nat, maxSteps: nat)

  /** A fingerprint seen 3 times within 6 observations is a loop; 40 steps end the run. */
  const DEFAULT_GUARD := GuardConfig(6, 3, 40)

  datatype GuardState = GuardState(recent: seq<u64>, steps: nat)

  const FRESH_GUARD := GuardState([], 0)

  function Occurrences(s: seq<u64>, h: u64): nat {
    if s == [] then 0
    else Occurrences(s[..|s| - 1], h) + if s[|s| - 1] == h then 1 else 0
  }

  function LastOf<T>(s: seq<T>, n: nat): seq<T> {
    if |s| <= n then s else s[|s| - n..]
  }

  function Observe(c: GuardConfig, g: GuardState, h: u64): (GuardState, LoopVerdict) {
    if g.steps + 1 > c.maxSteps then (g.(steps := g.steps + 1), TooManySteps)
    else
      var recent := LastOf(g.recent + [h], c.window);
      (GuardState(recent, g.steps + 1), if Occurrences(recent, h) >= c.repeatLimit then Repeating else Fine)
  }

  lemma {:induction false} OccurrencesCount(s: seq<u64>, h: u64)
    ensures Occurrences(s, h) == multiset(s)[h]
  {
    if s != [] {
      OccurrencesCount(s[..|s| - 1], h);
      assert s == s[..|s| - 1] + [s[|s| - 1]];
    }
  }

  class LoopGuard {
    const config: GuardConfig
    var recent: seq<u64>
    var steps: nat

    constructor (config: GuardConfig)
      ensures State() == FRESH_GUARD && this.config == config
    {
      this.config := config;
      recent, steps := [], 0;
    }

    ghost function State(): GuardState
      reads this
    {
      GuardState(recent, steps)
    }

    method ObserveStep(h: u64) returns (v: LoopVerdict)
      modifies this
      ensures (State(), v) == Observe(config, old(State()), h)
    {
      steps := steps + 1;
      if steps > config.maxSteps {
        return TooManySteps;
      }
      recent := recent + [h];
      ghost var pushed := recent;
      while |recent| > config.window
        invariant |recent| <= |pushed| && recent == pushed[|pushed| - |recent|..]
        invariant |recent| == |pushed| || |recent| >= config.window
        invariant steps == old(steps) + 1
      {
        recent := recent[1..];
      }
      assert recent == LastOf(pushed, config.window);
      var repeats := CountOf(recent, h);
      v := if repeats >= config.repeatLimit then Repeating else Fine;
    }
  }

  method CountOf(s: seq<u64>, h: u64) returns (n: nat)
    ensures n == Occurrences(s, h)
  {
    n := 0;
    for i := 0 to |s|
      invariant n == Occurrences(s[..i], h)
    {
      assert s[..i + 1][..i] == s[..i];
      n := n + if s[i] == h then 1 else 0;
    }
    assert s[..|s|] == s;
  }

  /** The guard after observing `hs` in order, from fresh. */
  function GuardAfter(c: GuardConfig, hs: seq<u64>): GuardState {
    if hs == [] then FRESH_GUARD
    else Observe(c, GuardAfter(c, hs[..|hs| - 1]), hs[|hs| - 1]).0
  }

  lemma LastOfLast(front: seq<u64>, h: u64, window: nat)
    ensures LastOf(LastOf(front, window) + [h], window) == LastOf(front + [h], window)
  {
  }

  /**
   * Whatever was observed, the queue is the window-sized tail of the observations made
   * before the step cap, and every observation was counted.
   */
  lemma {:induction false} GuardHistory(c: GuardConfig, hs: seq<u64>)
    ensures GuardAfter(c, hs).steps == |hs|
    ensures GuardAfter(c, hs).recent ==
            LastOf(if |hs| <= c.maxSteps then hs else hs[..c.maxSteps], c.window)
  {
    if hs == [] {
    } else {
      var front := hs[..|hs| - 1];
      GuardHistory(c, front);
      if |hs| <= c.maxSteps {
        assert hs == front + [hs[|hs| - 1]];
        LastOfLast(front, hs[|hs| - 1], c.window);
      } else {
        assert hs[..c.maxSteps] == front[..c.maxSteps];
      }
      hide LastOf, Occurrences;
    }
  }

  /** Until the cap the guard stops exactly on a fingerprint that fills `repeatLimit` places of the window. */
  lemma GuardVerdict(c: GuardConfig, hs: seq<u64>, h: u64)
    ensures var v := Observe(c, GuardAfter(c, hs), h).1;
            && (v == TooManySteps <==> |hs| >= c.maxSteps)
            && (v == Repeating <==> |hs| < c.maxSteps &&
                                    Occurrences(LastOf(hs + [h], c.window), h) >= c.repeatLimit)
  {
    GuardHistory(c, hs);
    if |hs| < c.maxSteps {
      GuardHistory(c, hs + [h]);
      assert (hs + [h])[..|hs|] == hs;
    }
  }

  /** The tail of at most `n` elements, and all of them if there are no more. */
  lemma LastOfIsTail<T>(s: seq<T>, n: nat)
    ensures |LastOf(s, n)| == (if |s| < n then |s| else n)
    ensures exists front :: s == front + LastOf(s, n)
  {
    assert s == s[..|s| - |LastOf(s, n)|] + LastOf(s, n);
  }

  /** As configured, the guard stops at the third sight of a screen within six steps, and after forty steps. */
  lemma DefaultGuardStops(hs: seq<u64>, h: u64)
    ensures var v := Observe(DEFAULT_GUARD, GuardAfter(DEFAULT_GUARD, hs), h).1;
            var recent := if |hs| < 6 then hs + [h] else hs[|hs| - 5..] + [h];
            && (v == TooManySteps <==> |hs| >= 40)
            && (v == Repeating <==> |hs| < 40 && multiset(recent)[h] >= 3)
  {
    GuardVerdict(DEFAULT_GUARD, hs, h);
    var recent := if |hs| < 6 then hs + [h] else hs[|hs| - 5..] + [h];
    assert LastOf(hs + [h], 6) == recent;
    OccurrencesCount(recent, h);
    hide Occurrences, Observe, LastOf, GuardAfter;
  }

  // ----- Turn budget -----

  class Budget {
    const maxTurns: Option<nat>
    var turns: nat

    constructor (maxTurns: Option<nat>)
      ensures this.maxTurns == maxTurns && turns == 0
    {
      this.maxTurns := maxTurns;
      turns := 0;
    }

    predicate IsExhausted()
      reads this
    {
      Exhausted(maxTurns, turns)
    }

    method RecordTurn() returns (more: bool)
      modifies this
      ensures turns == old(turns) + 1
      ensures more <==> !Exhausted(maxTurns, turns)
    {
      turns := turns + 1;
      more := !IsExhausted();
    }
  }

  predicate Exhausted(maxTurns: Option<nat>, turns: nat) {
    maxTurns.Some? && turns >= maxTurns.value
  }
}
