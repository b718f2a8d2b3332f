/** Waiting for a flycheck through a channel that shows only the latest progress snapshot. */
module LspFlycheck {
  import opened Options
  import opened LspClient
  import opened LspClientRuns

  const START_GRACE := 3000
  const FLYCHECK_TIMEOUT := 120000

  datatype Verdict = Finished | NothingRan | StillRunning

  /**
   * One look at the channel: which snapshot it shows, how long the wait has lasted (in milliseconds),
   * and whether the wait for the next change that follows runs into its timeout.
   */
  datatype Look = Look(at: nat, elapsed: nat, quiet: bool)

  /** Looks go forward in time; snapshots between two of them are never seen. */
  predicate Schedule(looks: seq<Look>, start: nat, count: nat) {
    && (forall i :: 0 <= i < |looks| ==> start <= looks[i].at < count)
    && (forall i, j :: 0 <= i < j < |looks| ==> looks[i].at <= looks[j].at)
  }

  predicate Running(snaps: seq<Progress>, looks: seq<Look>, i: nat)
    requires i < |looks| && looks[i].at < |snaps|
  {
    FlycheckRunning(snaps[looks[i].at])
  }

  predicate Completed(snaps: seq<Progress>, start: nat, looks: seq<Look>, i: nat)
    requires start < |snaps| && i < |looks| && looks[i].at < |snaps|
  {
    snaps[looks[i].at].completions != snaps[start].completions
  }

  predicate GivesUp(look: Look, limit: nat) {
    look.elapsed > limit || look.quiet
  }

  /** The looks before `n` see no check and no completion in time. */
  predicate WaitsForStart(snaps: seq<Progress>, start: nat, looks: seq<Look>, n: nat)
    requires start < |snaps| && Schedule(looks, start, |snaps|) && n <= |looks|
  {
    forall i :: 0 <= i < n ==>
      !Running(snaps, looks, i) && !Completed(snaps, start, looks, i) && !GivesUp(looks[i], START_GRACE)
  }

  /** The looks from `m` to `n` see a check running in time. */
  predicate WaitsForEnd(snaps: seq<Progress>, start: nat, looks: seq<Look>, m: nat, n: nat)
    requires Schedule(looks, start, |snaps|) && m <= n <= |looks|
  {
    forall i :: m <= i < n ==> Running(snaps, looks, i) && !GivesUp(looks[i], FLYCHECK_TIMEOUT)
  }

  /** Look `n` ends the wait while no check has been seen. */
  predicate EndsEarly(snaps: seq<Progress>, start: nat, looks: seq<Look>, n: nat, verdict: Verdict)
    requires start < |snaps| && Schedule(looks, start, |snaps|) && n < |looks|
  {
    && !Running(snaps, looks, n)
    && if Completed(snaps, start, looks, n) then verdict == Finished
       else GivesUp(looks[n], START_GRACE) && verdict == NothingRan
  }

  /** A check was seen running at look `m`; look `n` ends the wait. */
  predicate EndsLate(snaps: seq<Progress>, start: nat, looks: seq<Look>, m: nat, n: nat, verdict: Verdict)
    requires start < |snaps| && Schedule(looks, start, |snaps|) && m < n < |looks|
  {
    && Running(snaps, looks, m)
    && WaitsForEnd(snaps, start, looks, m + 1, n)
    && if !Running(snaps, looks, n) then verdict == Finished
       else GivesUp(looks[n], FLYCHECK_TIMEOUT) && verdict == StillRunning
  }

  /** `None` as long as the wait goes on; `last` is the look that ends it, `seen` the look that saw a check running. */
  method WaitForFlycheck(snaps: seq<Progress>, start: nat, looks: seq<Look>)
    returns (verdict: Option<Verdict>, seen: nat, last: nat)
    requires start < |snaps| && Schedule(looks, start, |snaps|)
    ensures verdict.Some? ==>
              && seen <= last < |looks| && WaitsForStart(snaps, start, looks, seen)
              && if seen == last then EndsEarly(snaps, start, looks, last, verdict.value)
                 else EndsLate(snaps, start, looks, seen, last, verdict.value)
    ensures verdict.None? ==>
              && seen <= last == |looks| && WaitsForStart(snaps, start, looks, seen)
              && (seen < last ==> Running(snaps, looks, seen) && WaitsForEnd(snaps, start, looks, seen + 1, last))
  {
    var baseline := snaps[start].completions;
    last := 0;
    hide FlycheckRunning;
    while true
      invariant last <= |looks| && WaitsForStart(snaps, start, looks, last)
      decreases |looks| - last
    {
      seen := last;
      if last == |looks| {
        return None, seen, last;
      }
      var look := looks[last];
      if FlycheckRunning(snaps[look.at]) {
        break;
      }
      if snaps[look.at].completions != baseline {
        return Some(Finished), seen, last;
      }
      if look.elapsed > START_GRACE || look.quiet {
        return Some(NothingRan), seen, last;
      }
      last := last + 1;
    }
    last := last + 1;
    while last < |looks|
      invariant seen < last <= |looks| && Running(snaps, looks, seen)
      invariant WaitsForStart(snaps, start, looks, seen) && WaitsForEnd(snaps, start, looks, seen + 1, last)
    {
      var look := looks[last];
      if !FlycheckRunning(snaps[look.at]) {
        return Some(Finished), seen, last;
      }
      if look.elapsed > FLYCHECK_TIMEOUT || look.quiet {
        return Some(StillRunning), seen, last;
      }
      last := last + 1;
    }
    return None, seen, last;
  }

  // ----- The verdict in terms of what was seen -----

  /** Look `i` shows a token of a flycheck. */
  predicate Seen(snaps: seq<Progress>, looks: seq<Look>, i: nat)
    requires i < |looks| && looks[i].at < |snaps|
  {
    exists token <- snaps[looks[i].at].active :: NamesFlycheck(token)
  }

  predicate SeenBefore(snaps: seq<Progress>, start: nat, looks: seq<Look>, n: nat)
    requires Schedule(looks, start, |snaps|) && n <= |looks|
  {
    exists i :: 0 <= i < n && Seen(snaps, looks, i)
  }

  /** The wait goes on after look `i`: a check runs, within two minutes, or none was seen or counted, within three seconds. */
  predicate GoesOn(snaps: seq<Progress>, start: nat, looks: seq<Look>, i: nat)
    requires start < |snaps| && Schedule(looks, start, |snaps|) && i < |looks|
  {
    if SeenBefore(snaps, start, looks, i) then Seen(snaps, looks, i) && looks[i].elapsed <= 120000 && !looks[i].quiet
    else Seen(snaps, looks, i) || (!Completed(snaps, start, looks, i) && looks[i].elapsed <= 3000 && !looks[i].quiet)
  }

  lemma SeenIsRunning(snaps: seq<Progress>, looks: seq<Look>, i: nat)
    requires i < |looks| && looks[i].at < |snaps|
    ensures Seen(snaps, looks, i) <==> Running(snaps, looks, i)
  {
    forall token ensures IsFlycheck(token) <==> NamesFlycheck(token) {
      FlycheckExactly(token);
    }
    hide IsFlycheck, NamesFlycheck;
  }

  /**
   * The wait goes on at every look but the last, and there the verdict depends only on what was seen: finished if no
   * check runs and one was seen or counted, nothing if none was, still running if one runs after it was seen before.
   */
  lemma VerdictExactly(snaps: seq<Progress>, start: nat, looks: seq<Look>, seen: nat, last: nat, verdict: Verdict)
    requires start < |snaps| && Schedule(looks, start, |snaps|)
    requires seen <= last < |looks| && WaitsForStart(snaps, start, looks, seen)
    requires if seen == last then EndsEarly(snaps, start, looks, last, verdict)
             else EndsLate(snaps, start, looks, seen, last, verdict)
    ensures forall i :: 0 <= i < last ==> GoesOn(snaps, start, looks, i)
    ensures !GoesOn(snaps, start, looks, last)
    ensures var before := SeenBefore(snaps, start, looks, last);
            && (verdict == Finished <==> !Seen(snaps, looks, last) && (before || Completed(snaps, start, looks, last)))
            && (verdict == NothingRan <==> !Seen(snaps, looks, last) && !before && !Completed(snaps, start, looks, last))
            && (verdict == StillRunning <==> Seen(snaps, looks, last) && before)
  {
    forall i | 0 <= i < |looks| ensures Seen(snaps, looks, i) <==> Running(snaps, looks, i) {
      SeenIsRunning(snaps, looks, i);
    }
    hide Seen, Running, Completed;
    forall i | 0 <= i <= last ensures SeenBefore(snaps, start, looks, i) <==> i > seen {
      if i > seen {
        assert Seen(snaps, looks, seen);
      }
    }
  }

  // ----- What the verdict says about the server -----

  /** The snapshots an execution went through. */
  ghost predicate IsHistory(snaps: seq<Progress>, steps: seq<Step>) {
    && |snaps| == |steps| + 1
    && forall k :: 0 <= k < |snaps| ==> Possible(steps[..k]) && snaps[k] == After(steps[..k]).client.progress
  }

  predicate CompletedBetween(steps: seq<Step>, a: nat, b: nat) {
    exists j :: a <= j < b <= |steps| && Completes(steps[j])
  }

  lemma {:induction false} CountGrows(steps: seq<Step>, a: nat, b: nat)
    requires a <= b <= |steps|
    ensures Completions(steps[..a]) <= Completions(steps[..b])
    ensures Completions(steps[..a]) < Completions(steps[..b]) <==> CompletedBetween(steps, a, b)
  {
    if a < b {
      CountGrows(steps, a, b - 1);
      assert steps[..b][..b - 1] == steps[..b - 1];
      hide Completes;
      assert CompletedBetween(steps, a, b) <==> CompletedBetween(steps, a, b - 1) || Completes(steps[b - 1]) by {
        if CompletedBetween(steps, a, b - 1) {
          var j :| a <= j < b - 1 && Completes(steps[j]);
        }
      }
    }
  }

  lemma {:induction false} StaysActive(snaps: seq<Progress>, steps: seq<Step>, a: nat, b: nat, token: string)
    requires IsHistory(snaps, steps) && a <= b < |snaps| && token in snaps[a].active
    requires forall j :: a <= j < b ==> !Ends(steps[j], token)
    ensures token in snaps[b].active
  {
    if a < b {
      StaysActive(snaps, steps, a, b - 1, token);
      assert steps[..b][..b - 1] == steps[..b - 1];
      StepKeepsActive(After(steps[..b - 1]), steps[b - 1], token);
      hide Ends, Begins, Apply;
    }
  }

  /** A check that was running and no longer is has ended, or the server has. */
  lemma StoppedMeansCompleted(snaps: seq<Progress>, steps: seq<Step>, a: nat, b: nat)
    requires IsHistory(snaps, steps) && a <= b < |snaps|
    requires FlycheckRunning(snaps[a]) && !FlycheckRunning(snaps[b])
    ensures CompletedBetween(steps, a, b)
  {
    var token :| token in snaps[a].active && IsFlycheck(token);
    if forall j :: a <= j < b ==> !Ends(steps[j], token) {
      StaysActive(snaps, steps, a, b, token);
      assert false;
    }
    var j :| a <= j < b && Ends(steps[j], token);
    FlycheckExactly(token);
    hide IsFlycheck, NamesFlycheck;
  }

  lemma CounterTells(snaps: seq<Progress>, steps: seq<Step>, a: nat, b: nat)
    requires IsHistory(snaps, steps) && a <= b < |snaps|
    ensures snaps[a].completions != snaps[b].completions ==> CompletedBetween(steps, a, b)
    ensures Completions(steps) < WRAP && snaps[a].completions == snaps[b].completions ==> !CompletedBetween(steps, a, b)
  {
    CounterExactly(steps[..a]);
    CounterExactly(steps[..b]);
    CountGrows(steps, a, b);
    CountGrows(steps, b, |steps|);
    assert steps[..|steps|] == steps;
    hide CompletedBetween;
  }

  /** `Finished` is only said after a flycheck, or the server, ended since the wait began, and none is running. */
  lemma FinishedIsTrue(snaps: seq<Progress>, steps: seq<Step>, start: nat, looks: seq<Look>, seen: nat, last: nat)
    requires IsHistory(snaps, steps) && start < |snaps| && Schedule(looks, start, |snaps|) && seen <= last < |looks|
    requires if seen == last then EndsEarly(snaps, start, looks, last, Finished)
             else EndsLate(snaps, start, looks, seen, last, Finished)
    ensures CompletedBetween(steps, start, looks[last].at)
    ensures !FlycheckRunning(snaps[looks[last].at])
  {
    if seen == last {
      CounterTells(snaps, steps, start, looks[last].at);
    } else {
      var (a, b) := (looks[seen].at, looks[last].at);
      StoppedMeansCompleted(snaps, steps, a, b);
      var j :| a <= j < b <= |steps| && Completes(steps[j]);
      assert start <= j < b && Completes(steps[j]);
    }
  }

  // ----- Did a check run, or did the server die? -----

  predicate CheckEndedBetween(steps: seq<Step>, a: nat, b: nat) {
    exists j :: a <= j < b <= |steps| && EndsCheck(steps[j])
  }

  function CheckEnds(steps: seq<Step>): nat {
    if steps == [] then 0 else CheckEnds(steps[..|steps| - 1]) + if EndsCheck(steps[|steps| - 1]) then 1 else 0
  }

  /** A completion is the end of a check, or the one end of the server. */
  lemma {:induction false} CompletionsSplit(steps: seq<Step>)
    requires Possible(steps)
    ensures Completions(steps) == CheckEnds(steps) + if After(steps).reading then 0 else 1
  {
    if steps != [] {
      var front, step := steps[..|steps| - 1], steps[|steps| - 1];
      CompletionsSplit(front);
      assert Completes(step) <==> step.ReaderStops? || EndsCheck(step);
      assert After(steps).reading <==> After(front).reading && !step.ReaderStops?;
      hide NamesFlycheck, Dispatched, Drained;
    }
  }

  lemma {:induction false} CheckEndsGrow(steps: seq<Step>, a: nat, b: nat)
    requires a <= b <= |steps|
    ensures CheckEnds(steps[..a]) <= CheckEnds(steps[..b])
    ensures CheckEnds(steps[..a]) < CheckEnds(steps[..b]) <==> CheckEndedBetween(steps, a, b)
  {
    if a < b {
      CheckEndsGrow(steps, a, b - 1);
      assert steps[..b][..b - 1] == steps[..b - 1];
      hide EndsCheck;
      assert CheckEndedBetween(steps, a, b) <==> CheckEndedBetween(steps, a, b - 1) || EndsCheck(steps[b - 1]) by {
        if CheckEndedBetween(steps, a, b - 1) {
          var j :| a <= j < b - 1 && EndsCheck(steps[j]);
        }
      }
    }
  }

  /** Between two points a check ended exactly if more completions were counted than the server's death accounts for. */
  lemma CheckEndedExactly(steps: seq<Step>, a: nat, b: nat)
    requires Possible(steps) && a <= b <= |steps|
    ensures Possible(steps[..a]) && Possible(steps[..b])
    ensures CheckEndedBetween(steps, a, b) <==>
            Completions(steps[..b]) - Completions(steps[..a]) >
            if After(steps[..a]).reading && !After(steps[..b]).reading then 1 else 0
    ensures After(steps[..b]).reading ==> After(steps[..a]).reading
  {
    PrefixPossible(steps, a);
    PrefixPossible(steps, b);
    CompletionsSplit(steps[..a]);
    CompletionsSplit(steps[..b]);
    CheckEndsGrow(steps, a, b);
    DeadStaysDead(steps, a, b);
    hide CheckEndedBetween, Completions, CheckEnds;
  }

  lemma {:induction false} DeadStaysDead(steps: seq<Step>, a: nat, b: nat)
    requires Possible(steps) && a <= b <= |steps|
    ensures Possible(steps[..a]) && Possible(steps[..b])
    ensures After(steps[..b]).reading ==> After(steps[..a]).reading
  {
    PrefixPossible(steps, a);
    PrefixPossible(steps, b);
    if a < b {
      DeadStaysDead(steps, a, b - 1);
      assert steps[..b][..b - 1] == steps[..b - 1];
      hide Dispatched, Drained;
    }
  }

  lemma SnapshotCounts(snaps: seq<Progress>, steps: seq<Step>, k: nat)
    requires IsHistory(snaps, steps) && k < |snaps|
    ensures Completions(steps) < WRAP ==> snaps[k].completions == Completions(steps[..k])
  {
    CounterExactly(steps[..k]);
    CountGrows(steps, k, |steps|);
    assert steps[..|steps|] == steps;
  }

  /**
   * `Finished` means that a check ended since the wait began exactly if the server did not die meanwhile, or a
   * second completion was counted beside its death; below 2^64 completions the snapshots show the counts.
   */
  lemma FinishedMeansCheckedExactly(
    snaps: seq<Progress>, steps: seq<Step>, start: nat, looks: seq<Look>, seen: nat, last: nat)
    requires IsHistory(snaps, steps) && start < |snaps| && Schedule(looks, start, |snaps|) && seen <= last < |looks|
    requires if seen == last then EndsEarly(snaps, start, looks, last, Finished)
             else EndsLate(snaps, start, looks, seen, last, Finished)
    ensures Possible(steps[..start]) && Possible(steps[..looks[last].at])
    ensures var died := After(steps[..start]).reading && !After(steps[..looks[last].at]).reading;
            CheckEndedBetween(steps, start, looks[last].at) <==>
            !died || Completions(steps[..looks[last].at]) - Completions(steps[..start]) > 1
    ensures Completions(steps) < WRAP ==>
              && snaps[start].completions == Completions(steps[..start])
              && snaps[looks[last].at].completions == Completions(steps[..looks[last].at])
  {
    SnapshotCounts(snaps, steps, start);
    SnapshotCounts(snaps, steps, looks[last].at);
    FinishedIsTrue(snaps, steps, start, looks, seen, last);
    assert steps[..|steps|] == steps && Possible(steps[..|steps|]);
    CheckEndedExactly(steps, start, looks[last].at);
    CountGrows(steps, start, looks[last].at);
    hide Completions, CheckEndedBetween, CompletedBetween, FlycheckRunning, WaitsForEnd, EndsEarly, EndsLate;
  }

  /** A server that dies while idle: the wait reports a finished check, and none has ended. */
  lemma DeadServerReadsAsFinished()
    ensures var (steps, looks) := ([ReaderStops], [Look(1, 0, false)]);
            var snaps := [Progress({}, 0), Progress({}, 1)];
            && IsHistory(snaps, steps) && Schedule(looks, 0, |snaps|)
            && EndsEarly(snaps, 0, looks, 0, Finished)
            && !CheckEndedBetween(steps, 0, 1)
  {
    var steps, snaps := [ReaderStops], [Progress({}, 0), Progress({}, 1)];
    assert steps[..0] == [] && steps[..1] == steps;
    assert Possible(steps) && After(steps) == Apply(START, ReaderStops);
    forall k | 0 <= k < |snaps| ensures Possible(steps[..k]) && snaps[k] == After(steps[..k]).client.progress {
      assert k == 0 || k == 1;
    }
  }

  /**
   * `NothingRan` is only said if no look saw a check, and none, nor the server, ended from the start of the
   * wait up to the last look, as long as the counter has not gone around.
   */
  lemma NothingRanIsTrue(snaps: seq<Progress>, steps: seq<Step>, start: nat, looks: seq<Look>, last: nat)
    requires IsHistory(snaps, steps) && start < |snaps| && Schedule(looks, start, |snaps|) && last < |looks|
    requires WaitsForStart(snaps, start, looks, last) && EndsEarly(snaps, start, looks, last, NothingRan)
    ensures forall i :: 0 <= i <= last ==> !Running(snaps, looks, i)
    ensures Completions(steps) < WRAP ==> !CompletedBetween(steps, start, looks[last].at)
  {
    CounterTells(snaps, steps, start, looks[last].at);
    hide FlycheckRunning;
  }

  /** `StillRunning` is only said while a flycheck has begun and not ended. */
  lemma StillRunningIsTrue(snaps: seq<Progress>, steps: seq<Step>, start: nat, looks: seq<Look>, seen: nat, last: nat)
    requires IsHistory(snaps, steps) && start < |snaps| && Schedule(looks, start, |snaps|) && seen < last < |looks|
    requires EndsLate(snaps, start, looks, seen, last, StillRunning)
    ensures exists token, i :: NamesFlycheck(token) && OpenSince(steps[..looks[last].at], token, i)
  {
    var k := looks[last].at;
    assert FlycheckRunning(snaps[k]);
    var token :| token in snaps[k].active && IsFlycheck(token);
    FlycheckExactly(token);
    ActiveExactly(steps[..k], token);
    var i :| OpenSince(steps[..k], token, i);
  }
}
