/** What holds of the request table, the replies and the progress state in every interleaving. */
module LspClientRuns {
  import opened Options
  import opened LspClient

  // ----- What settles a request -----

  /** The step answers request `id`: a response with that id, or the end of the server. */
  predicate Answers(step: Step, id: int) {
    step.ReaderStops? || (step.Deliver? && step.frame.name == None && step.frame.id == Some(Number(id)))
  }

  function AnswerOf(step: Step): Answer {
    if step.Deliver? then step.frame.answer else ServerGone
  }

  predicate RegisteredIn(steps: seq<Step>, id: int) {
    exists k :: 0 <= k < |steps| && steps[k] == Register(id)
  }

  /** The first answer to `id` after it was registered. */
  function FirstAnswer(steps: seq<Step>, id: int): Option<Answer> {
    if steps == [] then None
    else
      var front, last := steps[..|steps| - 1], steps[|steps| - 1];
      if FirstAnswer(front, id).Some? then FirstAnswer(front, id)
      else if RegisteredIn(front, id) && Answers(last, id) then Some(AnswerOf(last))
      else None
  }

  /** The same in terms of positions. */
  lemma {:induction false} FirstAnswerIsFirst(steps: seq<Step>, id: int)
    ensures match FirstAnswer(steps, id)
            case None => forall k, j :: 0 <= k < j < |steps| && steps[k] == Register(id) ==> !Answers(steps[j], id)
            case Some(a) => exists j :: FirstAnswerAt(steps, id, j) && AnswerOf(steps[j]) == a
  {
    if steps != [] {
      var n := |steps| - 1;
      var front := steps[..n];
      FirstAnswerIsFirst(front, id);
      assert forall i :: 0 <= i < n ==> steps[i] == front[i];
      if FirstAnswer(front, id).Some? {
        var j :| FirstAnswerAt(front, id, j) && AnswerOf(front[j]) == FirstAnswer(front, id).value;
        assert FirstAnswerAt(steps, id, j);
      } else if RegisteredIn(front, id) && Answers(steps[n], id) {
        assert FirstAnswerAt(steps, id, n);
      }
    }
  }

  predicate FirstAnswerAt(steps: seq<Step>, id: int, j: int) {
    && 0 <= j < |steps| && Answers(steps[j], id)
    && RegisteredIn(steps[..j], id)
    && forall k, i :: 0 <= k < i < j && steps[k] == Register(id) ==> !Answers(steps[i], id)
  }

  // ----- The invariant -----

  predicate CallOk(c: Client, id: int, first: Option<Answer>)
    requires id in c.calls
  {
    var call := c.calls[id];
    && (id in c.pending ==> call.mailbox.None? && first.None?)
    && (id !in c.pending && call.outcome.None? ==> call.mailbox.Some?)
    && (call.mailbox.Some? ==> first == call.mailbox)
    && (call.outcome.Some? && call.outcome.value.Answered? ==> call.mailbox == Some(call.outcome.value.answer))
    && (!call.sent ==> call.outcome.None? || call.outcome == Some(NotSent))
  }

  ghost predicate TablesOk(c: Client, steps: seq<Step>) {
    && c.pending <= c.calls.Keys
    && (forall id :: id in c.calls <==> RegisteredIn(steps, id))
    && (forall id <- c.calls :: id < c.nextId && id !in c.taken)
    && (forall id <- c.taken :: id < c.nextId)
  }

  ghost predicate CallsOk(c: Client, steps: seq<Step>) {
    forall id <- c.calls :: CallOk(c, id, FirstAnswer(steps, id))
  }

  lemma RegisteredSnoc(front: seq<Step>, step: Step, id: int)
    ensures RegisteredIn(front + [step], id) <==> RegisteredIn(front, id) || step == Register(id)
  {
    assert forall i :: 0 <= i < |front| ==> (front + [step])[i] == front[i];
    assert (front + [step])[|front|] == step;
  }

  lemma {:induction false} UnregisteredHasNoAnswer(steps: seq<Step>, id: int)
    requires !RegisteredIn(steps, id)
    ensures FirstAnswer(steps, id) == None
  {
    if steps != [] {
      var n := |steps| - 1;
      assert steps == steps[..n] + [steps[n]];
      RegisteredSnoc(steps[..n], steps[n], id);
      UnregisteredHasNoAnswer(steps[..n], id);
    }
  }

  lemma FirstAnswerSnoc(front: seq<Step>, step: Step, id: int)
    ensures FirstAnswer(front + [step], id) ==
            if FirstAnswer(front, id).Some? then FirstAnswer(front, id)
            else if RegisteredIn(front, id) && Answers(step, id) then Some(AnswerOf(step))
            else None
  {
    assert (front + [step])[..|front|] == front;
  }

  lemma StepKeepsTables(s: System, front: seq<Step>, step: Step)
    requires TablesOk(s.client, front) && Enabled(s, step)
    ensures TablesOk(Apply(s, step).client, front + [step])
  {
    hide CallsOk, RegisteredIn;
    forall id ensures RegisteredIn(front + [step], id) <==> RegisteredIn(front, id) || step == Register(id) {
      RegisteredSnoc(front, step, id);
    }
  }

  lemma StepKeepsCall(s: System, front: seq<Step>, step: Step, id: int)
    requires TablesOk(s.client, front) && Enabled(s, step) && id in Apply(s, step).client.calls
    requires id in s.client.calls ==> CallOk(s.client, id, FirstAnswer(front, id))
    ensures CallOk(Apply(s, step).client, id, FirstAnswer(front + [step], id))
  {
    FirstAnswerSnoc(front, step, id);
    if !RegisteredIn(front, id) {
      UnregisteredHasNoAnswer(front, id);
    }
    hide FirstAnswer, RegisteredIn, Tracked;
  }

  lemma {:induction false} InvariantHolds(steps: seq<Step>)
    requires Possible(steps)
    ensures TablesOk(After(steps).client, steps) && CallsOk(After(steps).client, steps)
  {
    if steps != [] {
      var n := |steps| - 1;
      var front, step := steps[..n], steps[n];
      InvariantHolds(front);
      assert steps == front + [step];
      var s, s' := After(front), After(steps);
      StepKeepsTables(s, front, step);
      forall id <- s'.client.calls ensures CallOk(s'.client, id, FirstAnswer(steps, id)) {
        StepKeepsCall(s, front, step, id);
      }
      hide TablesOk;
    }
  }

  // ----- Outcomes -----

  lemma {:induction false} PrefixPossible(steps: seq<Step>, n: nat)
    requires Possible(steps) && n <= |steps|
    ensures Possible(steps[..n])
  {
    if n == |steps| {
      assert steps[..n] == steps;
    } else {
      PrefixPossible(steps[..|steps| - 1], n);
      assert steps[..|steps| - 1][..n] == steps[..n];
    }
  }

  /** A caller is told the first answer to its own id after it registered, and nothing else. */
  lemma OutcomeIsFirstAnswer(steps: seq<Step>, id: int)
    requires Possible(steps) && id in After(steps).client.calls
    ensures var outcome := After(steps).client.calls[id].outcome;
            outcome.Some? && outcome.value.Answered? ==>
              exists j :: FirstAnswerAt(steps, id, j) && AnswerOf(steps[j]) == outcome.value.answer
  {
    InvariantHolds(steps);
    FirstAnswerIsFirst(steps, id);
    assert CallOk(After(steps).client, id, FirstAnswer(steps, id));
  }

  /** Once answered, a request has left the table, and its answer is there for the caller who still listens. */
  lemma AnswerIsNeverLost(steps: seq<Step>, id: int, j: nat)
    requires Possible(steps) && j < |steps| && RegisteredIn(steps[..j], id) && Answers(steps[j], id)
    ensures var c := After(steps).client;
            && id in c.calls && id !in c.pending && FirstAnswer(steps, id).Some?
            && (c.calls[id].outcome.None? ==> c.calls[id].mailbox == FirstAnswer(steps, id))
  {
    InvariantHolds(steps);
    FirstAnswerIsFirst(steps, id);
    var k :| 0 <= k < |steps[..j]| && steps[..j][k] == Register(id);
    assert steps[k] == Register(id);
    assert id in After(steps).client.calls;
    assert CallOk(After(steps).client, id, FirstAnswer(steps, id));
  }

  /** The end of the server empties the table and leaves no caller waiting. */
  lemma DeathDrains(steps: seq<Step>)
    requires Possible(steps) && steps != [] && steps[|steps| - 1].ReaderStops?
    ensures var c := After(steps).client;
            && c.pending == {}
            && forall id <- c.calls :: c.calls[id].outcome.None? ==> c.calls[id].mailbox.Some?
  {
    InvariantHolds(steps);
    forall id | id in After(steps).client.calls
      ensures CallOk(After(steps).client, id, FirstAnswer(steps, id))
    {
    }
  }

  lemma StepKeepsOutcome(s: System, front: seq<Step>, step: Step, id: int)
    requires TablesOk(s.client, front) && Enabled(s, step)
    requires id in s.client.calls && s.client.calls[id].outcome.Some?
    ensures id in Apply(s, step).client.calls
    ensures Apply(s, step).client.calls[id] == s.client.calls[id]
  {
  }

  /** A caller is told once: no later step changes its outcome, nor reaches the channel it no longer listens to. */
  lemma {:induction false} OutcomesAreFinal(steps: seq<Step>, n: nat, id: int)
    requires Possible(steps) && n <= |steps|
    ensures Possible(steps[..n])
    ensures id in After(steps[..n]).client.calls && After(steps[..n]).client.calls[id].outcome.Some? ==>
              && id in After(steps).client.calls
              && After(steps).client.calls[id] == After(steps[..n]).client.calls[id]
  {
    PrefixPossible(steps, n);
    if n == |steps| {
      assert steps[..n] == steps;
    } else {
      var front := steps[..|steps| - 1];
      OutcomesAreFinal(front, n, id);
      assert front[..n] == steps[..n];
      InvariantHolds(front);
      if id in After(front).client.calls && After(front).client.calls[id].outcome.Some? {
        StepKeepsOutcome(After(front), front, steps[|steps| - 1], id);
      }
      hide TablesOk, CallsOk;
    }
  }

  lemma ExpiresUnanswered(s: System, front: seq<Step>, step: Step, id: int)
    requires TablesOk(s.client, front) && CallsOk(s.client, front) && Enabled(s, step)
    requires id in Apply(s, step).client.calls && Apply(s, step).client.calls[id].outcome == Some(TimedOut)
    requires id in s.client.calls ==> s.client.calls[id].outcome != Some(TimedOut)
    ensures step == Expire(id) && FirstAnswer(front, id) == None
  {
    hide FirstAnswer, RegisteredIn;
    assert step == Expire(id) by { hide TablesOk, CallsOk; }
    assert CallOk(s.client, id, FirstAnswer(front, id));
  }

  /** A request times out only while no answer to it has come. */
  lemma {:induction false} TimeoutsAreUnanswered(steps: seq<Step>, id: int)
    requires Possible(steps) && id in After(steps).client.calls
    requires After(steps).client.calls[id].outcome == Some(TimedOut)
    ensures exists k :: 0 <= k < |steps| && steps[k] == Expire(id) && FirstAnswer(steps[..k], id) == None
  {
    var n := |steps| - 1;
    var front := steps[..n];
    InvariantHolds(front);
    var c := After(front).client;
    hide TablesOk, CallsOk, FirstAnswer;
    if id in c.calls && c.calls[id].outcome == Some(TimedOut) {
      TimeoutsAreUnanswered(front, id);
      var k :| 0 <= k < n && front[k] == Expire(id) && FirstAnswer(front[..k], id) == None;
      assert steps[k] == Expire(id) && steps[..k] == front[..k];
    } else {
      ExpiresUnanswered(After(front), front, steps[n], id);
      assert steps[n] == Expire(id) && steps[..n] == front;
    }
  }

  // ----- Replies to the server -----

  /** The messages handled while answers could still be sent. */
  function Heard(steps: seq<Step>): seq<Frame> {
    if steps == [] then []
    else
      var front, last := steps[..|steps| - 1], steps[|steps| - 1];
      Heard(front) + if last.Deliver? && WriterStops !in front then [last.frame] else []
  }

  /** The server waits for a reply: a request with an id whose method is not one of those handled as notifications. */
  predicate Expects(f: Frame) {
    && f.name.Some? && f.id.Some?
    && f.name.value != "textDocument/publishDiagnostics" && f.name.value != "$/progress"
    && f.name.value != "window/logMessage" && f.name.value != "window/showMessage"
  }

  /** The methods accepted whatever they ask. */
  predicate AlwaysAccepted(name: string) {
    name == "window/workDoneProgress/create" || name == "client/registerCapability" || name == "client/unregisterCapability"
  }

  function RequestsIn(frames: seq<Frame>): (rs: seq<Frame>)
    ensures forall i :: 0 <= i < |rs| ==> Expects(rs[i])
  {
    if frames == [] then []
    else
      var last := frames[|frames| - 1];
      RequestsIn(frames[..|frames| - 1]) + if Expects(last) then [last] else []
  }

  /** Each request gets a reply with its own id: acceptance for three methods, for any other a refusal that names it. */
  predicate Replies(request: Frame, reply: Reply) {
    && Expects(request)
    && if AlwaysAccepted(request.name.value) then reply == Accepted(request.id.value)
       else reply == Declined(request.id.value, request.name.value)
  }

  predicate OneReplyEach(requests: seq<Frame>, replies: seq<Reply>) {
    |replies| == |requests| && forall i :: 0 <= i < |requests| ==> Replies(requests[i], replies[i])
  }

  lemma HeardSnoc(front: seq<Step>, step: Step)
    ensures Heard(front + [step]) == Heard(front) + if step.Deliver? && WriterStops !in front then [step.frame] else []
  {
    assert (front + [step])[..|front|] == front;
  }

  lemma ReplySnoc(heard: seq<Frame>, step: Step, open: bool, replies: seq<Reply>)
    requires OneReplyEach(RequestsIn(heard), replies)
    ensures OneReplyEach(RequestsIn(heard + if step.Deliver? && open then [step.frame] else []),
                         replies + if step.Deliver? && open && IsServerRequest(step.frame) then [ReplyTo(step.frame)] else [])
  {
    if step.Deliver? && open {
      var frame := step.frame;
      RepliesAsExpected(frame);
      assert (heard + [frame])[..|heard|] == heard;
      hide ReplyTo, IsServerRequest, Expects, Replies;
    } else {
      assert heard + [] == heard && replies + [] == replies;
    }
  }

  lemma RepliesAsExpected(frame: Frame)
    ensures IsServerRequest(frame) <==> Expects(frame)
    ensures IsServerRequest(frame) ==> Replies(frame, ReplyTo(frame))
  {
  }

  lemma StepReplies(s: System, step: Step)
    requires Enabled(s, step)
    ensures Apply(s, step).client.replies == s.client.replies +
            if step.Deliver? && s.open && IsServerRequest(step.frame) then [ReplyTo(step.frame)] else []
  {
    hide ReplyTo, IsNotification;
  }

  lemma {:induction false} OpenExactly(steps: seq<Step>)
    requires Possible(steps)
    ensures After(steps).open <==> WriterStops !in steps
  {
    if steps != [] {
      var n := |steps| - 1;
      OpenExactly(steps[..n]);
      assert steps == steps[..n] + [steps[n]];
      assert After(steps).open == (After(steps[..n]).open && !steps[n].WriterStops?);
      hide Apply, Enabled;
    }
  }

  /** Every request the server made while the pipe was open got one reply, with its own id, in order. */
  lemma {:induction false} EveryRequestGetsOneReply(steps: seq<Step>)
    requires Possible(steps)
    ensures OneReplyEach(RequestsIn(Heard(steps)), After(steps).client.replies)
  {
    if steps != [] {
      var n := |steps| - 1;
      var front, step := steps[..n], steps[n];
      hide Apply, Enabled, OneReplyEach, RequestsIn, Heard, IsServerRequest, ReplyTo, Expects;
      EveryRequestGetsOneReply(front);
      OpenExactly(front);
      StepReplies(After(front), step);
      HeardSnoc(front, step);
      assert steps == front + [step];
      ReplySnoc(Heard(front), step, After(front).open, After(front).client.replies);
    } else {
      NothingHeard();
    }
  }

  lemma NothingHeard()
    ensures OneReplyEach(RequestsIn(Heard([])), [])
  {
  }

  // ----- Progress -----

  predicate Begins(step: Step, token: string) {
    step.Deliver? && step.frame.name == Some("$/progress") && step.frame.progress == Some((token, Begin))
  }

  predicate Ends(step: Step, token: string) {
    step.ReaderStops? || (step.Deliver? && step.frame.name == Some("$/progress") && step.frame.progress == Some((token, End)))
  }

  /** The last edge of the token up to here is the beginning at `i`. */
  predicate OpenSince(steps: seq<Step>, token: string, i: int) {
    0 <= i < |steps| && Begins(steps[i], token) && forall j :: i < j < |steps| ==> !Ends(steps[j], token)
  }

  lemma OpenSnoc(front: seq<Step>, step: Step, token: string, i: int)
    ensures OpenSince(front + [step], token, i) <==>
            (OpenSince(front, token, i) && !Ends(step, token)) || (i == |front| && Begins(step, token))
  {
    assert forall j :: 0 <= j < |front| ==> (front + [step])[j] == front[j];
    assert (front + [step])[|front|] == step;
    hide Begins, Ends;
  }

  lemma StepKeepsActive(s: System, step: Step, token: string)
    requires Enabled(s, step)
    ensures token in Apply(s, step).client.progress.active <==>
            Begins(step, token) || (token in s.client.progress.active && !Ends(step, token))
  {
  }

  /** The active tokens are those whose last edge is a beginning. */
  lemma {:induction false} ActiveExactly(steps: seq<Step>, token: string)
    requires Possible(steps)
    ensures token in After(steps).client.progress.active <==> exists i :: OpenSince(steps, token, i)
  {
    if steps != [] {
      var n := |steps| - 1;
      var front, step := steps[..n], steps[n];
      ActiveExactly(front, token);
      assert steps == front + [step];
      StepKeepsActive(After(front), step, token);
      forall i ensures OpenSince(steps, token, i) <==>
                       (OpenSince(front, token, i) && !Ends(step, token)) || (i == n && Begins(step, token))
      {
        OpenSnoc(front, step, token, i);
      }
      hide OpenSince, Begins, Ends, Apply;
      assert Begins(step, token) ==> OpenSince(steps, token, n);
    }
  }

  /** A token names a flycheck if one of three words is in it, whatever the case of its letters. */
  predicate NamesFlycheck(token: string) {
    HasWord(token, "flycheck") || HasWord(token, "cargo check") || HasWord(token, "clippy")
  }

  /** `word`, in small letters, stands somewhere in `s`, in letters of either case. */
  predicate HasWord(s: string, word: string) {
    exists i :: 0 <= i <= |s| && WordAt(s, word, i)
  }

  predicate WordAt(s: string, word: string, i: int) {
    0 <= i <= |s| - |word| && forall k :: 0 <= k < |word| ==> SameLetter(s[i + k], word[k])
  }

  predicate SameLetter(c: char, small: char) {
    c == small || ('A' <= c <= 'Z' && c as int + 32 == small as int)
  }

  predicate IsSmall(word: string) {
    forall k :: 0 <= k < |word| ==> !('A' <= word[k] <= 'Z')
  }

  lemma ContainsIsHasWord(s: string, word: string)
    requires IsSmall(word)
    ensures Contains(Lower(s), word) <==> HasWord(s, word)
  {
    forall i | 0 <= i <= |s| ensures word <= Lower(s)[i..] <==> WordAt(s, word, i) {
      var rest := Lower(s)[i..];
      if |word| <= |rest| {
        assert word <= rest <==> forall k :: 0 <= k < |word| ==> word[k] == rest[k];
        assert forall k :: 0 <= k < |word| ==> rest[k] == Lower(s)[i + k];
        forall k | 0 <= k < |word| ensures word[k] == rest[k] <==> SameLetter(s[i + k], word[k]) {
        }
      }
    }
    if Contains(Lower(s), word) {
      var i :| 0 <= i <= |s| && word <= Lower(s)[i..];
      assert WordAt(s, word, i);
    }
    if HasWord(s, word) {
      var i :| 0 <= i <= |s| && WordAt(s, word, i);
      assert word <= Lower(s)[i..];
    }
  }

  lemma FlycheckExactly(token: string)
    ensures IsFlycheck(token) <==> NamesFlycheck(token)
  {
    hide Contains, HasWord, Lower;
    ContainsIsHasWord(token, "flycheck");
    ContainsIsHasWord(token, "cargo check");
    ContainsIsHasWord(token, "clippy");
  }

  /** The step ends a flycheck, or the server. */
  predicate Completes(step: Step) {
    step.ReaderStops? || EndsCheck(step)
  }

  predicate EndsCheck(step: Step) {
    && step.Deliver? && step.frame.name == Some("$/progress") && step.frame.progress.Some?
    && step.frame.progress.value.1 == End && NamesFlycheck(step.frame.progress.value.0)
  }

  function Completions(steps: seq<Step>): nat {
    if steps == [] then 0 else Completions(steps[..|steps| - 1]) + if Completes(steps[|steps| - 1]) then 1 else 0
  }

  lemma StepKeepsCount(s: System, step: Step, n: nat)
    requires Enabled(s, step) && s.client.progress.completions == n % WRAP
    ensures Apply(s, step).client.progress.completions == (n + if Completes(step) then 1 else 0) % WRAP
  {
    if step.Deliver? && step.frame.progress.Some? {
      FlycheckExactly(step.frame.progress.value.0);
    }
    hide IsFlycheck, NamesFlycheck;
  }

  /** The counter is the number of flycheck ends, and of the server's, in 64 bits. */
  lemma {:induction false} CounterExactly(steps: seq<Step>)
    requires Possible(steps)
    ensures After(steps).client.progress.completions == Completions(steps) % WRAP
  {
    if steps != [] {
      CounterExactly(steps[..|steps| - 1]);
      StepKeepsCount(After(steps[..|steps| - 1]), steps[|steps| - 1], Completions(steps[..|steps| - 1]));
      hide Completes, Apply;
    }
  }

  // ----- Published diagnostics -----

  predicate PublishesFor(step: Step, uri: string) {
    && step.Deliver? && step.frame.name == Some("textDocument/publishDiagnostics")
    && step.frame.published.Some? && step.frame.published.value.0 == uri
  }

  /** What was last published for a file. */
  function LastPublished(steps: seq<Step>, uri: string): seq<string> {
    if steps == [] then []
    else
      var last := steps[|steps| - 1];
      if PublishesFor(last, uri) then last.frame.published.value.1 else LastPublished(steps[..|steps| - 1], uri)
  }

  lemma StepKeepsCache(s: System, step: Step, uri: string)
    requires Enabled(s, step)
    ensures var (cache, cache') := (s.client.diagnostics, Apply(s, step).client.diagnostics);
            if PublishesFor(step, uri) then
              var found := step.frame.published.value.1;
              (uri in cache' <==> found != []) && (uri in cache' ==> cache'[uri] == found)
            else (uri in cache' <==> uri in cache) && (uri in cache' ==> cache'[uri] == cache[uri])
  {
    hide Tracked;
  }

  /** The cache holds, for every file, what was published for it last, if that was anything. */
  lemma {:induction false} CacheExactly(steps: seq<Step>, uri: string)
    requires Possible(steps)
    ensures var (cache, last) := (After(steps).client.diagnostics, LastPublished(steps, uri));
            (uri in cache <==> last != []) && (uri in cache ==> cache[uri] == last)
  {
    if steps != [] {
      CacheExactly(steps[..|steps| - 1], uri);
      StepKeepsCache(After(steps[..|steps| - 1]), steps[|steps| - 1], uri);
      hide PublishesFor, Apply;
    }
  }

  // ----- Ids, timers and cleaning up -----

  function IdsTaken(steps: seq<Step>): nat {
    if steps == [] then 0 else IdsTaken(steps[..|steps| - 1]) + if steps[|steps| - 1].TakeId? then 1 else 0
  }

  /** Ids are counted up from one. */
  lemma {:induction false} IdsAreCounted(steps: seq<Step>)
    requires Possible(steps)
    ensures After(steps).client.nextId == 1 + IdsTaken(steps)
  {
    if steps != [] {
      IdsAreCounted(steps[..|steps| - 1]);
      hide Dispatched, Drained;
    }
  }

  /** What a step on a request itself does: it goes out unless the writer is gone, takes what its channel holds, or gives up and leaves the table. */
  lemma RequestSteps(steps: seq<Step>, step: Step)
    requires Possible(steps) && Enabled(After(steps), step)
    ensures var (s, c') := (After(steps), Apply(After(steps), step).client);
            && (step.Register? ==> step.id in c'.pending && step.id in c'.calls && c'.calls[step.id] == Call(false, None, None))
            && (step.Submit? ==>
                  && step.id in c'.calls
                  && (WriterStops !in steps ==> c'.calls[step.id] == s.client.calls[step.id].(sent := true))
                  && (WriterStops in steps ==> c'.calls[step.id] == s.client.calls[step.id].(outcome := Some(NotSent))))
            && (step.Take? ==> step.id in c'.calls && AnswerTold(c'.calls[step.id]) == s.client.calls[step.id].mailbox)
            && (step.Expire? ==> step.id in c'.calls && c'.calls[step.id].outcome == Some(TimedOut))
            && (step.Cleanup? ==> step.id !in c'.pending && c'.pending == s.client.pending - {step.id})
  {
    OpenExactly(steps);
    hide Possible, After;
  }

  function AnswerTold(call: Call): Option<Answer> {
    if call.outcome.Some? && call.outcome.value.Answered? then Some(call.outcome.value.answer) else None
  }

  // ----- A request from beginning to end -----

  lemma PossibleSnoc(front: seq<Step>, step: Step)
    requires Possible(front) && Enabled(After(front), step)
    ensures Possible(front + [step]) && After(front + [step]) == Apply(After(front), step)
  {
    assert (front + [step])[..|front|] == front;
  }

  /** Requests can be made, answered and their callers told, and without an answer they can time out and be forgotten. */
  lemma RequestsCanEnd(frame: Frame)
    requires frame.name == None && frame.id == Some(Number(1))
    ensures var answered := [TakeId(1), Register(1), Submit(1), Deliver(frame), Take(1)];
            Possible(answered) && 1 in After(answered).client.calls
            && After(answered).client.calls[1].outcome == Some(Answered(frame.answer))
    ensures var expired := [TakeId(1), Register(1), Submit(1), Expire(1), Cleanup(1)];
            Possible(expired) && 1 in After(expired).client.calls
            && After(expired).client.calls[1].outcome == Some(TimedOut) && After(expired).client.pending == {}
  {
    var sent := [TakeId(1)] + [Register(1)] + [Submit(1)];
    PossibleSnoc([], TakeId(1));
    assert [] + [TakeId(1)] == [TakeId(1)];
    PossibleSnoc([TakeId(1)], Register(1));
    PossibleSnoc([TakeId(1)] + [Register(1)], Submit(1));
    PossibleSnoc(sent, Deliver(frame));
    PossibleSnoc(sent + [Deliver(frame)], Take(1));
    assert [TakeId(1), Register(1), Submit(1), Deliver(frame), Take(1)] == sent + [Deliver(frame)] + [Take(1)];
    PossibleSnoc(sent, Expire(1));
    PossibleSnoc(sent + [Expire(1)], Cleanup(1));
    assert [TakeId(1), Register(1), Submit(1), Expire(1), Cleanup(1)] == sent + [Expire(1)] + [Cleanup(1)];
  }
}
