# Verification of the Oxyris core protocols

A Dafny model of the stateful parts of Oxyris, and proofs of what they promise over whole runs.

- **Auto-pilot** (`Guardrails`, `Pilot`, `Watchdog`, `WatchdogRuns`): the polling loop that types into a coding
  session, with its debounce, its one action per settled screen and its Enter re-sends, and the decision pipeline it
  drives: denylist, sliding-window loop detector, Supervisor, turn budget. Screens, clocks, engagement and the
  Supervisor's answers are arbitrary inputs. All claims are about one watchdog; engaging a terminal again starts another.
- **Agent protocol** (`AgentRpc`, `AgentRpcRuns`, `AgentRpcTraces`): backend and agent joined by two FIFO pipes of frames, one agent
  task per request, streamed events, answers in any order, death of the agent, end of file. Every interleaving.
- **Language server client**: byte framing (`LspFraming`, `LspFramingLaws`), request table, server requests and
  `$/progress` (`LspClient`, `LspClientRuns`), waiting for a flycheck through a channel that coalesces snapshots
  (`LspFlycheck`), document synchronization against a server that replays the notifications (`LspDocuments`, `LspDocumentRuns`), and the
  quoting of the command line that starts a server (`ShellQuote`).
- **Symbol index** (`SymbolIndex`, `SymbolIndexRuns`): incremental updates against a full rebuild.
- **Dotenv** (`Dotenv`, `DotenvLaws`, `DotenvMerge`, `DotenvSubstitution`): parsing, rendering, merging, substitution.
- **Sessions** (`Session`, `SessionRuns`): the event-sourced session aggregate.
- **Content search** (`ContentSearch`): the capped search against the uncapped one.

`Text` and `Utf8` hold what these rely on of the Rust string library and of section 3 of RFC 3629, `Options` the
wrapper types. Where the source changes state step by step, a class or a method with a loop does what the source does
and is proved equal to a specification function; the laws are proved about those functions over arbitrary runs.

## Where the code falls short of its promise

Each of these is stated with the exact condition under which the promise holds, or with the case in which it fails.

- Rendering and parsing a dotenv file again loses the last of two carriage returns before a newline
  (`DotenvLaws.RoundTripExactly`, `DotenvLaws.DoubleCrIsLost`, `DotenvLaws.DoubleCrExample`).
- Merging the same overlay twice changes the result if it gives a key that the base lacks two different values
  (`DotenvMerge.MergeTwiceExactly`, `DotenvMerge.MergeTwiceDiffers`).
- Substitution copies bytes as if they were characters, which garbles text outside ASCII
  (`DotenvSubstitution.SubstitutedAsExpectedExactly`, `DotenvSubstitution.NonAsciiIsGarbled`).
- An incremental update leaves the old row of a file that has grown beyond 1 MB, become unreadable or ignored, or
  changed without a new stored mtime (`SymbolIndexRuns.UpdateAgreesExactly`, `SymbolIndexRuns.SameSecondEditIsMissed`,
  `SymbolIndexRuns.GrownFileStaysStale`).
- A full rebuild of an index that is not empty keeps the rows of files that are gone, ignored or no longer readable
  (`SymbolIndexRuns.RebuildAgreesExactly`).
- The client's document table is updated before the notification goes out, so once the channel is gone a push may
  report success although the server lacks its text: it has the text exactly if the push sent it, or it is the last
  text the channel took for that document, which the results of earlier calls show (`LspDocumentRuns.PushSeenExactly`,
  `LspDocumentRuns.TakenIsReported`, `LspDocumentRuns.LostPushLooksDone`).
- Document versions rise until the 32-bit counter wraps around (`LspDocumentRuns.VersionsRiseExactly`,
  `LspDocumentRuns.VersionCanFall`). The model wraps as release builds do; a build with overflow checks panics instead.
- `wait_for_flycheck` is documented to return true when a check ran to completion; it also does when the server has
  merely died. A check did end exactly if the server did not die during the wait, or a second completion was counted
  (`LspFlycheck.FinishedMeansCheckedExactly`, `LspFlycheck.DeadServerReadsAsFinished`).
- A turn that is over can still be turned into a failed one (`SessionRuns.FinishedTurnsCanStillFail`).

## Model

| member | source | states |
|---|---|---|
| Text.CollapseIgnoresRedraws | crates/oxyris-supervisor/src/guardrails.rs:218-220 | two screens collapse to the same text exactly when they show the same words |
| Guardrails.FirstMatch | crates/oxyris-supervisor/src/guardrails.rs:91-100 | the name of the first rule that matches, none exactly if no rule does |
| Guardrails.LoopGuard.ObserveStep | crates/oxyris-supervisor/src/guardrails.rs:186-202 | pushing, dropping old entries and counting is one step of the specified guard |
| Guardrails.GuardHistory | crates/oxyris-supervisor/src/guardrails.rs:186-202 | until the step cap the queue is exactly the last min(steps, window) fingerprints |
| Guardrails.GuardVerdict | crates/oxyris-supervisor/src/guardrails.rs:186-202 | it reports a repeat iff the fingerprint occurs at least repeat_limit times there, and the step cap iff it is used up |
| Guardrails.DefaultGuardStops | crates/oxyris-supervisor/src/guardrails.rs:165-202 | as configured: a stop at the third sight of a screen within six steps, and after forty steps |
| Guardrails.LastOfIsTail | crates/oxyris-supervisor/src/guardrails.rs:192-195 | the queue keeps the tail of at most the window, and everything below it |
| Guardrails.Budget.RecordTurn | crates/oxyris-supervisor/src/guardrails.rs:239-246 | a turn is counted, and another one allowed iff fewer than the maximum were |
| Pilot.Autopilot.PreCheckStep | crates/oxyris-supervisor/src/controller.rs:65-81 | the in-place check is the specified one |
| Pilot.Autopilot.PostDecisionStep | crates/oxyris-supervisor/src/controller.rs:87-115 | the in-place post-check is the specified one |
| Pilot.Autopilot.RunStep | crates/oxyris-supervisor/src/controller.rs:120-130 | one step over guard and budget is the specified step: pre-check, Supervisor, post-check, with the rationale handed through |
| Pilot.FingerprintIsTheScreen | apps/desktop/src/infra/autopilot.rs:535-540 | redraws keep the fingerprint; with a collision-free digest nothing else does |
| Pilot.DenylistAlwaysWins | crates/oxyris-supervisor/src/controller.rs:65-100 | a denylisted request halts the pilot unasked, and is never approved whatever the Supervisor says |
| Pilot.LoopHaltExactly | crates/oxyris-supervisor/src/controller.rs:65-81 | over any run: when exactly a step halts for looping and when for the step cap, and what the queue holds |
| Pilot.DenylistedExactly | crates/oxyris-supervisor/src/controller.rs:65-71 | which text the denylist sees, and that a step halts under exactly the first rule that matches it |
| Pilot.FingerprintOf | crates/oxyris-supervisor/src/controller.rs:72-77 | the loop guard sees the prompt of a request or the output of a settled turn, spaces collapsed |
| Pilot.ConsultedExactly | crates/oxyris-supervisor/src/controller.rs:65-130 | the Supervisor is asked iff no rule matches, steps are left and the screen is no repeat |
| Pilot.ActionExactly | crates/oxyris-supervisor/src/controller.rs:87-130 | one action for each decision, both ways; failures and rationales are handed through |
| Pilot.ConsultationsBounded | crates/oxyris-supervisor/src/controller.rs:120-130 | over any run the Supervisor is consulted at most max_steps times |
| Pilot.SettledRepliesBounded | crates/oxyris-supervisor/src/controller.rs:87-115 | a budget of m lets at most max(0, m - 1) replies to settled turns through |
| Pilot.SettledReplyExactly | crates/oxyris-supervisor/src/controller.rs:87-115 | a decided reply is sent exactly while fewer than m - 1 were decided before |
| Watchdog.Act | apps/desktop/src/infra/autopilot.rs:428-491 | what is typed for an action, and whether it submits |
| Watchdog.SubmittedInputEndsWithEnter | apps/desktop/src/infra/autopilot.rs:428-497 | everything typed ends with Enter, and approving moves down by exactly its menu option |
| Watchdog.Watch | apps/desktop/src/infra/autopilot.rs:254-371 | the loop over its local variables produces the specified events |
| WatchdogRuns.RunIsBounded | apps/desktop/src/infra/autopilot.rs:254-425 | over any polls and answers: at most 40 consultations, 3 re-sends per submitting action, 120 re-sends |
| WatchdogRuns.LeftExactly | apps/desktop/src/infra/autopilot.rs:266-275 | the loop is left exactly on the first poll that finds the session disengaged; nothing is typed then or after |
| WatchdogRuns.DriveTypesExactly | apps/desktop/src/infra/autopilot.rs:303-325 | what a drive asks about, and every key it types for each action |
| WatchdogRuns.FpIsTheScreen | apps/desktop/src/infra/autopilot.rs:535-540 | polls are told apart by the words on the screen polled |
| WatchdogRuns.DriveIsJustified | apps/desktop/src/infra/autopilot.rs:284-329 | a drive acts on a screen idle and unchanged for at least 1000 ms that differs from the last one driven |
| WatchdogRuns.SettledScreenIsDriven | apps/desktop/src/infra/autopilot.rs:284-329 | conversely such a screen is driven |
| WatchdogRuns.ResendIsJustified | apps/desktop/src/infra/autopilot.rs:331-369 | Enter is re-sent only on the screen just acted on, at least 1300 ms after the act or the last re-send |
| WatchdogRuns.ResendExactly | apps/desktop/src/infra/autopilot.rs:331-369 | conversely: Enter is re-sent exactly when 1300 ms have passed on the idle screen acted on and fewer than 3 re-sends were made, and the watchdog gives up exactly then otherwise |
| WatchdogRuns.DrivesAreAPilotRun | apps/desktop/src/infra/autopilot.rs:376-425 | the drives of a watchdog are a run of the decision pipeline |
| WatchdogRuns.SettledRepliesOfRun | apps/desktop/src/infra/autopilot.rs:376-425 | the turn budget bounds the replies of a watchdog |
| WatchdogRuns.DenylistedMenuIsLeftAlone | apps/desktop/src/infra/autopilot.rs:376-425 | a denylisted menu is neither asked about nor typed at |
| WatchdogRuns.LoopHaltTakesFiveDrives | apps/desktop/src/infra/autopilot.rs:300-329 | as no screen is driven twice running, a halt for looping needs at least five drives |
| AgentRpc.AgentHandle.RegisterCall | apps/desktop/src/infra/agent_pool.rs:96-171 | a call enters the table, listening to events or not, with nothing received yet |
| AgentRpc.AgentHandle.RouteFrame | apps/desktop/src/infra/agent_pool.rs:403-432 | events go to listeners, a final frame resolves its call and removes it |
| AgentRpc.AgentHandle.DrainAtEof | apps/desktop/src/infra/agent_pool.rs:371-393 | the drain resolves every pending call to AgentGone once, in some order, and empties the table |
| AgentRpcRuns.ExecutionKeepsInvariant | apps/agent/src/main.rs:45-116 | every interleaving keeps tables, pipes, log and streams consistent |
| AgentRpcRuns.ResolvedAtMostOnceAndOwn | apps/desktop/src/infra/agent_pool.rs:96-130 | a call resolves at most once, with what the agent computed for its own id, or AgentGone after the end |
| AgentRpcRuns.StreamsAreComplete | apps/agent/src/ops/index.rs:153-178 | an answered streaming call holds exactly the events emitted for it, in order: the result is written only after the pump has drained the closed channel |
| AgentRpcRuns.EofResolvesAllPending | apps/desktop/src/infra/agent_pool.rs:371-393 | end of file tells AgentGone to exactly the pending calls and empties the table |
| AgentRpcRuns.EofLeavesNoCallOpen | apps/desktop/src/infra/agent_pool.rs:371-393 | after it every call issued before has been resolved exactly once |
| AgentRpcRuns.AnswersArrive | apps/desktop/src/infra/agent_pool.rs:371-432 | while both sides live no answer is lost: delivered, or in the pipe with its call pending |
| AgentRpcRuns.ResolutionsAreFinal | apps/desktop/src/infra/agent_pool.rs:403-432 | no step takes a resolution back or adds to a resolved call |
| AgentRpcTraces.AnswersAreComputed | apps/agent/src/main.rs:98-116 | a call is told what the work of its own id ended with, or the error it failed with, or AgentGone after the reader stopped |
| AgentRpcTraces.EventsAreProduced | apps/agent/src/ops/index.rs:153-178 | the events a call holds are those its own work produced, in order, all of them once it is answered |
| AgentRpcTraces.CallsAreIssued | apps/desktop/src/infra/agent_pool.rs:96-171 | a task works on the request of the one call with its id, and a call listens iff it was made to |
| AgentRpcTraces.RequestsArriveInOrder | apps/agent/src/main.rs:31-57 | the agent takes up requests in the order they were written |
| AgentRpcTraces.RoundTripIsPossible | apps/desktop/src/infra/agent_pool.rs:132-171 | a streaming call can be made, worked on and answered, and its caller then holds event and result |
| LspFraming.FrameWriter.WriterLoop | crates/oxyris-lsp/src/transport.rs:52-76 | what reaches a pipe that may break anywhere is exactly that much of the frames of the values that serialize |
| LspFraming.FrameReader.ReadHeaders | crates/oxyris-lsp/src/transport.rs:127-146 | the loop over header lines ends as specified: stream gone, undecodable line, or length and remaining bytes |
| LspFraming.FrameReader.ReaderLoop | crates/oxyris-lsp/src/transport.rs:87-112 | the messages handed on are the bodies of the stream that parse, in order |
| LspFramingLaws.StreamRoundTrip | crates/oxyris-lsp/src/transport.rs:56-112 | reading what was written gives back exactly the bodies, in order |
| LspFramingLaws.PrefixDecodes | crates/oxyris-lsp/src/transport.rs:87-146 | from any byte prefix the reader takes exactly the bodies that arrived whole |
| LspFramingLaws.BrokenPipe | crates/oxyris-lsp/src/transport.rs:56-112 | over a pipe that breaks anywhere it gets a prefix of the bodies, none of them garbled |
| LspFraming.SizeRoundTrip | crates/oxyris-lsp/src/transport.rs:64-64 | a printed length is read back as that length |
| LspFramingLaws.FrameFormat | crates/oxyris-lsp/src/transport.rs:64-70 | a frame is `Content-Length: `, the decimal length, two line ends and the body |
| LspFramingLaws.DecimalExactly | crates/oxyris-lsp/src/transport.rs:64-64 | the digits amount to the number, and only zero begins with a zero |
| LspFramingLaws.DigitsExactly | crates/oxyris-lsp/src/transport.rs:143-143 | digits are read by position |
| LspFramingLaws.ParseSizeExactly | crates/oxyris-lsp/src/transport.rs:143-143 | lengths are digits, with or without a plus, below 2^64, and nothing else |
| LspFramingLaws.HeaderEffect | crates/oxyris-lsp/src/transport.rs:131-145 | what each header line a server may send does to the length known, and which one ends the headers |
| LspFramingLaws.GarbledEnds | crates/oxyris-lsp/src/transport.rs:134-134 | a header line that is not UTF-8 ends the reading |
| LspFramingLaws.BodyFollows | crates/oxyris-lsp/src/transport.rs:97-103 | length zero is passed over, a whole body taken, a short one ends the reading |
| LspClient.Connection.TakeId | crates/oxyris-lsp/src/lib.rs:851-851 | a request takes the next id |
| LspClient.Connection.Register | crates/oxyris-lsp/src/lib.rs:852-853 | and enters the table, in a step of its own |
| LspClient.Connection.Dispatch | crates/oxyris-lsp/src/transport.rs:162-272 | a message does to table, diagnostics, progress and replies what is specified |
| LspClient.Connection.Drain | crates/oxyris-lsp/src/transport.rs:114-124 | the end of the reader tells ServerGone to everyone pending, clears the progress and counts once |
| LspClientRuns.InvariantHolds | crates/oxyris-lsp/src/lib.rs:844-883 | every interleaving keeps the table consistent with the first answer to each id |
| LspClientRuns.OutcomeIsFirstAnswer | crates/oxyris-lsp/src/transport.rs:162-194 | a caller is told the first answer to its own id after it registered, or the server's end, and nothing else |
| LspClientRuns.OutcomesAreFinal | crates/oxyris-lsp/src/lib.rs:865-883 | a caller is told once, and no later message reaches it |
| LspClientRuns.AnswerIsNeverLost | crates/oxyris-lsp/src/lib.rs:865-875 | an answered request has left the table, and its answer awaits the caller who still listens |
| LspClientRuns.TimeoutsAreUnanswered | crates/oxyris-lsp/src/lib.rs:869-874 | a request times out only while no answer to it has come |
| LspClientRuns.DeathDrains | crates/oxyris-lsp/src/transport.rs:114-118 | the server's end empties the table and leaves no caller waiting |
| LspClientRuns.EveryRequestGetsOneReply | crates/oxyris-lsp/src/transport.rs:200-271 | every server request outside the four methods handled as notifications gets one reply, with its own id, in order: acceptance for three methods, a refusal that names it for any other |
| LspClientRuns.ActiveExactly | crates/oxyris-lsp/src/transport.rs:218-243 | the active tokens are exactly those whose last edge is a begin |
| LspClientRuns.CounterExactly | crates/oxyris-lsp/src/transport.rs:121-124 | the counter is the number of flycheck ends, plus the server's, modulo 2^64 |
| LspClientRuns.CacheExactly | crates/oxyris-lsp/src/transport.rs:201-217 | the cache holds for every file what was published for it last, if that was anything |
| LspClientRuns.FlycheckExactly | crates/oxyris-lsp/src/transport.rs:44-47 | a token names a flycheck iff one of three words stands in it, in letters of either case |
| LspClientRuns.IdsAreCounted | crates/oxyris-lsp/src/lib.rs:851-851 | ids are counted up from one |
| LspClientRuns.RequestSteps | crates/oxyris-lsp/src/lib.rs:851-875 | what registering, submitting, taking the answer, expiring and cleaning up do |
| LspClientRuns.RequestsCanEnd | crates/oxyris-lsp/src/lib.rs:844-883 | a request can be answered and its caller told, or time out and be forgotten |
| LspFlycheck.WaitForFlycheck | crates/oxyris-lsp/src/lib.rs:621-663 | which look at the coalescing channel ends the wait, and with which verdict |
| LspFlycheck.VerdictExactly | crates/oxyris-lsp/src/lib.rs:621-663 | the wait goes on at every look but the last, and there the verdict depends exactly on what was seen, counted and how long it took |
| LspFlycheck.FinishedIsTrue | crates/oxyris-lsp/src/lib.rs:612-663 | Ok(true) only after a flycheck or the server ended since the baseline, with none running at the end |
| LspFlycheck.CheckEndedExactly | crates/oxyris-lsp/src/transport.rs:114-124 | between two points a check ended iff more completions were counted than the server's death accounts for |
| LspFlycheck.FinishedMeansCheckedExactly | crates/oxyris-lsp/src/lib.rs:612-663 | after Ok(true) a check has ended since the baseline iff the server did not die meanwhile or a second completion was counted |
| LspFlycheck.DeadServerReadsAsFinished | crates/oxyris-lsp/src/lib.rs:640-642 | a wait that returns Ok(true) though no check ended |
| LspFlycheck.NothingRanIsTrue | crates/oxyris-lsp/src/lib.rs:629-649 | Ok(false) only if no look saw a check and, below 2^64 ends, none completed |
| LspFlycheck.StillRunningIsTrue | crates/oxyris-lsp/src/lib.rs:651-662 | a timeout only while a flycheck has begun and not ended |
| LspDocuments.Documents.EnsureOpen | crates/oxyris-lsp/src/lib.rs:323-348 | opens a document that is not open, once, and enters it only if the notification went out |
| LspDocuments.Documents.OpenOrUpdate | crates/oxyris-lsp/src/lib.rs:363-405 | opens or changes, or does nothing if the hash is the same |
| LspDocuments.Documents.SyncFromDisk | crates/oxyris-lsp/src/lib.rs:500-558 | as a push of the text on disk, with a save after a change |
| LspDocuments.Documents.Save | crates/oxyris-lsp/src/lib.rs:411-424 | saves only what is open |
| LspDocuments.Documents.CloseDocument | crates/oxyris-lsp/src/lib.rs:429-441 | closes only what is open |
| LspDocumentRuns.EveryRunKeeps | crates/oxyris-lsp/src/lib.rs:323-441 | over any calls and wherever the channel breaks: only notifications the server can accept, and its documents match the table as long as none was lost |
| LspDocumentRuns.NotesExactly | crates/oxyris-lsp/src/lib.rs:323-558 | the notifications of every call, written out, as many as the channel takes, and success iff it takes them all |
| LspDocumentRuns.FailsExactly | crates/oxyris-lsp/src/lib.rs:323-558 | when exactly a call fails for the file or the URI, and that nothing is sent then |
| LspDocumentRuns.TableExactly | crates/oxyris-lsp/src/lib.rs:323-558 | what the table holds after every call |
| LspDocumentRuns.VersionsRiseExactly | crates/oxyris-lsp/src/lib.rs:370-373 | a change raises the version exactly unless the 32-bit counter wraps |
| LspDocumentRuns.VersionCanFall | crates/oxyris-lsp/src/lib.rs:370-373 | the run in which it falls: the 2^31st push in a row that opens or changes a document |
| LspDocumentRuns.PushIsSeen | crates/oxyris-lsp/src/lib.rs:363-405 | after a successful push the server has the text, or one with its hash if nothing was sent |
| LspDocumentRuns.PushIsExact | crates/oxyris-lsp/src/lib.rs:363-405 | with an injective hash and no notification lost it has exactly the pushed text |
| LspDocumentRuns.PushSeenExactly | crates/oxyris-lsp/src/lib.rs:363-405 | over every run, whatever was lost: after a push that reports success the server has its text iff the push sent it or it is the last text taken for that document |
| LspDocumentRuns.TakenIsReported | crates/oxyris-lsp/src/lib.rs:323-558 | the results tell what was taken (an ensure that succeeds took something iff the document was not open), except for a sync that finds the channel gone between its change and its save |
| LspDocumentRuns.DeliveredIsAccepted | crates/oxyris-lsp/src/transport.rs:56-75 | where the pipe itself breaks the server has a prefix of the log and could accept all of it |
| LspDocumentRuns.LostPushLooksDone | crates/oxyris-lsp/src/lib.rs:368-404 | without a channel a repeated push reports nothing to send though nothing was sent |
| LspDocumentRuns.CallTouchesOne | crates/oxyris-lsp/src/lib.rs:323-558 | any call about one document leaves all others of the server alone |
| ShellQuote.ShellEscape | crates/oxyris-lsp/src/lib.rs:902-919 | the loop builds the specified quotation |
| ShellQuote.BuildCommand | crates/oxyris-lsp/src/lib.rs:188-193 | the command line is `exec` with the quoted binary and arguments |
| ShellQuote.ScanEscaped | crates/oxyris-lsp/src/lib.rs:902-919 | the shell reads a quoted string as one word, whatever its characters |
| ShellQuote.CommandLineSplits | crates/oxyris-lsp/src/lib.rs:188-193 | word splitting gives back exactly exec, the binary and every argument |
| ShellQuote.BareExactly | crates/oxyris-lsp/src/lib.rs:903-907 | exactly the non-empty strings of the plain characters stay unquoted |
| SymbolIndex.Index.UpsertFile | crates/oxyris-index/src/storage.rs:103-140 | replaces a file's row and all its symbols |
| SymbolIndex.Index.RemoveFile | crates/oxyris-index/src/storage.rs:142-145 | removes a file's row and its symbols |
| SymbolIndex.Index.IndexFile | crates/oxyris-index/src/lib.rs:175-213 | stores exactly what the extractor finds and returns how much |
| SymbolIndex.Index.Change | apps/agent/src/ops/index.rs:264-302 | the watcher's update of one path is the specified one |
| SymbolIndex.Index.RebuildAll | apps/agent/src/ops/index.rs:181-262 | which files are counted as indexed and which as skipped, what was extracted and read, and exactly which progress is told |
| SymbolIndex.CountIndexable | apps/agent/src/ops/index.rs:304-317 | counts the source files of the walk |
| SymbolIndexRuns.UpsertLaws | crates/oxyris-index/src/storage.rs:103-156 | what an upsert or a removal leaves under every path |
| SymbolIndexRuns.WantedExactly | apps/agent/src/ops/index.rs:199-240 | which files a rebuild indexes, and with what entry |
| SymbolIndexRuns.UpdateTouchesOne | apps/agent/src/ops/index.rs:264-302 | an update of one path leaves all others as they are |
| SymbolIndexRuns.FreshRebuildAgrees | apps/agent/src/ops/index.rs:181-262 | a rebuild from empty holds exactly what the tree calls for, in any walk order |
| SymbolIndexRuns.RebuildAgreesExactly | apps/agent/src/ops/index.rs:181-262 | over any index a rebuild is right at a path iff the walk finds a readable source there or nothing was stored for it |
| SymbolIndexRuns.RebuildStoresExtracted | apps/agent/src/ops/index.rs:181-262 | from empty the stored symbols are the extracted ones, each once |
| SymbolIndexRuns.IncrementalEqualsRebuild | apps/agent/src/ops/index.rs:134-302 | after any edits and any order and repetition of updates covering the dirty paths, the index is that of a fresh rebuild |
| SymbolIndexRuns.UpdateAgreesExactly | apps/agent/src/ops/index.rs:264-302 | when exactly one update makes the index right at its path, for any tree and any path |
| SymbolIndexRuns.SameSecondEditIsMissed | apps/agent/src/ops/index.rs:337-348 | two edits within one second share an mtime, so the second is missed |
| SymbolIndexRuns.GrownFileStaysStale | apps/agent/src/ops/index.rs:264-302 | a file that has grown beyond 1 MB keeps its old row |
| Dotenv.DotenvFile.ParseContent | crates/oxyris-git/src/dotenv.rs:32-68 | the loop parses every line as specified |
| Dotenv.DotenvFile.RenderText | crates/oxyris-git/src/dotenv.rs:159-184 | the loop renders all lines in order |
| Dotenv.DotenvFile.Set | crates/oxyris-git/src/dotenv.rs:82-100 | overwrites the first line of the key, or appends one |
| Dotenv.DotenvFile.MergeWith | crates/oxyris-git/src/dotenv.rs:105-141 | the two passes over the overlay are the specified merge |
| Dotenv.DotenvFile.Substitute | crates/oxyris-git/src/dotenv.rs:150-156 | rewrites every value and nothing else |
| Dotenv.Get | crates/oxyris-git/src/dotenv.rs:71-78 | a key has a value iff some line defines it |
| Dotenv.FirstOf | crates/oxyris-git/src/dotenv.rs:71-78 | a key reads as the value of its first line |
| DotenvLaws.KeyLineParsesBack | crates/oxyris-git/src/dotenv.rs:44-66 | a rendered key line parses back to itself, whatever its value, with or without export |
| DotenvLaws.BlankOrComment | crates/oxyris-git/src/dotenv.rs:34-43 | spaces are a blank line, a line that begins with `#` is kept as a comment |
| DotenvLaws.MalformedLine | crates/oxyris-git/src/dotenv.rs:50-54 | a line without an equals sign is kept as a comment |
| DotenvLaws.AssignmentLine | crates/oxyris-git/src/dotenv.rs:44-66 | what an assignment is read as, exported and indented or not, and when it is kept as a comment instead |
| DotenvLaws.RenderedExactly | crates/oxyris-git/src/dotenv.rs:159-184 | the text of each line, written out, with its newline |
| DotenvLaws.ParsedLineIsWellFormed | crates/oxyris-git/src/dotenv.rs:34-66 | keys come out trimmed and without `=`, values are a tail of the line, malformed lines are kept whole |
| DotenvLaws.RoundTripExactly | crates/oxyris-git/src/dotenv.rs:32-184 | parse(render(parse(c))) = parse(c) iff no parsed line ends in a carriage return |
| DotenvLaws.RoundTripWithoutCr | crates/oxyris-git/src/dotenv.rs:32-184 | so always without carriage returns, and render after parse is idempotent |
| DotenvLaws.DoubleCrIsLost | crates/oxyris-git/src/dotenv.rs:34-34 | the family of files on which the round trip fails |
| DotenvLaws.DoubleCrExample | crates/oxyris-git/src/dotenv.rs:34-34 | one such file |
| DotenvMerge.MergeShape | crates/oxyris-git/src/dotenv.rs:102-141 | base lines keep position, key, kind and export; the first line of a key takes its last overlay value |
| DotenvMerge.MergeReads | crates/oxyris-git/src/dotenv.rs:105-141 | a base key reads as its last overlay value, an overlay-only key as its first, any other as before |
| DotenvMerge.SetExactly | crates/oxyris-git/src/dotenv.rs:82-100 | setting a key replaces the value of its first line or appends a plain line, and changes what no other key reads as |
| DotenvMerge.AppendedExactly | crates/oxyris-git/src/dotenv.rs:127-140 | appended are exactly the lines of new keys and the comments directly above them, in order |
| DotenvMerge.MergeTwiceExactly | crates/oxyris-git/src/dotenv.rs:105-141 | merging again changes nothing iff no overlay-only key has different first and last values |
| DotenvMerge.MergeTwice | crates/oxyris-git/src/dotenv.rs:105-141 | merging an overlay with distinct keys twice equals merging it once |
| DotenvMerge.MergeTwiceDiffers | crates/oxyris-git/src/dotenv.rs:105-141 | an overlay for which it does not |
| DotenvMerge.MergeCommutesWithMap | crates/oxyris-git/src/dotenv.rs:105-156 | merge commutes with substitution, line for line |
| DotenvMerge.MapExactly | crates/oxyris-git/src/dotenv.rs:150-156 | substitution rewrites the values of key lines and nothing else |
| DotenvSubstitution.SubstituteIn | crates/oxyris-git/src/dotenv.rs:191-211 | the loop over bytes computes the specified text |
| DotenvSubstitution.PiecesAreCanonical | crates/oxyris-git/src/dotenv.rs:195-215 | every value splits into references up to the next brace and single characters that begin none |
| DotenvSubstitution.PiecesAreUnique | crates/oxyris-git/src/dotenv.rs:195-215 | there is only one such split |
| DotenvSubstitution.SubstitutedAsExpectedExactly | crates/oxyris-git/src/dotenv.rs:191-211 | the output is that of the one-pass specification iff all copied characters are ASCII |
| DotenvSubstitution.AsciiAsExpected | crates/oxyris-git/src/dotenv.rs:191-211 | so on ASCII input it always is |
| DotenvSubstitution.UnknownIsLeftLiteral | crates/oxyris-git/src/dotenv.rs:147-149 | with no known name and no fallback the value stays as it is, iff its copied characters are ASCII |
| DotenvSubstitution.NonAsciiIsGarbled | crates/oxyris-git/src/dotenv.rs:207-207 | a value without references that comes out changed |
| DotenvSubstitution.GarbledExactly | crates/oxyris-git/src/dotenv.rs:207-208 | without references the output is the characters numbered like the bytes of the value |
| DotenvSubstitution.ExpandedInOrder | crates/oxyris-git/src/dotenv.rs:195-210 | the one-pass specification puts the pieces one after the other |
| DotenvSubstitution.ResolvesFallback | crates/oxyris-git/src/dotenv.rs:217-231 | `NAME:-fallback` gives a set, non-empty variable, else the fallback, which may hold `:-` itself; a bare name its variable or the reference itself |
| Session.Aggregate.Apply | apps/desktop/src/domain/session.rs:481-619 | applying an event in place is the specified transition |
| Session.Aggregate.Append | apps/desktop/src/domain/session.rs:625-633 | a block is merged into the turn's last text block or gets its own entry |
| Session.Aggregate.Replay | crates/oxyris-core/src/aggregate.rs:41-47 | the replay loop is the fold over the log |
| SessionRuns.CoalescedExactly | apps/desktop/src/domain/session.rs:625-633 | merging block by block gives the one list without adjacent text that says the same |
| SessionRuns.BlocksAreCoalesced | apps/desktop/src/domain/session.rs:548-554 | over any commands a turn's blocks are the one coalesced form of the blocks appended to it |
| SessionRuns.EveryStateOk | apps/desktop/src/domain/session.rs:306-619 | turn ids are unique, completed_at is set iff a turn is not Streaming, titles are trimmed, no session is Errored |
| SessionRuns.SessionsContinue | apps/desktop/src/domain/session.rs:306-619 | while a session lives turns keep order, ids and user text; a turn that left Streaming never returns and its blocks are frozen; text only grows; a provider session id is never lost |
| SessionRuns.FinishedTurnsCanStillFail | apps/desktop/src/domain/session.rs:407-423 | a turn that is over, however it ended, can still be reported as failed, with a new end time |
| SessionRuns.LogReplays | crates/oxyris-core/src/aggregate.rs:41-47 | the state commands lead to is the replay of their log, whole or in two pieces |
| SessionRuns.SessionCommandsExactly | apps/desktop/src/domain/session.rs:336-478 | what every command about the session leaves behind, whether or not an event was needed, and when it is rejected |
| SessionRuns.NoSessionExactly | apps/desktop/src/domain/session.rs:306-342 | without a session only a start does anything, and it leaves a running session as asked for, with nothing in it yet |
| SessionRuns.OtherEventsExactly | apps/desktop/src/domain/session.rs:523-527 | an old log may mark a session as errored; without a session no event but a start counts |
| SessionRuns.StartTurnExactly | apps/desktop/src/domain/session.rs:350-367 | a turn starts only in a session that is not stopped, under a new id, empty and streaming |
| SessionRuns.TurnCommandsExactly | apps/desktop/src/domain/session.rs:368-432 | appending and completing work only while the turn streams, failing and interrupting always, and only that turn changes |
| SessionRuns.UnknownTurnsAreRejected | apps/desktop/src/domain/session.rs:368-432 | a command about a turn is rejected as unknown iff no such turn exists |
| SessionRuns.RepeatedCommandIsSilent | apps/desktop/src/domain/session.rs:336-463 | setting, stopping, completing, attaching or renaming twice emits nothing the second time |
| ContentSearch.CapLine | apps/agent/src/ops/fs.rs:387-396 | the loop stops at the last character boundary within the limit |
| ContentSearch.CutIsLongestPrefix | apps/agent/src/ops/fs.rs:387-396 | a line is cut to its longest whole-character prefix of at most 500 bytes, at least 497 when cut |
| ContentSearch.SearchContent | apps/agent/src/ops/fs.rs:421-488 | the hits are the first total ones of the uncapped search; complete, file by file, unless truncated; if truncated, where it stopped and how many hits it has |
| ContentSearch.SearchedExactly | apps/agent/src/ops/fs.rs:434-451 | which entries are searched, and into which lines they fall |
| ContentSearch.SearchedNeedsText | apps/agent/src/ops/fs.rs:426-451 | nothing is searched that is not a readable UTF-8 text |
| ContentSearch.HitsAreMatchingLines | apps/agent/src/ops/fs.rs:455-476 | the uncapped search lists exactly the matching lines, each once, in order, numbered and cut, and only that list does |
| Utf8.DecodeEncode | apps/agent/src/ops/fs.rs:387-396 | decoding encoded text gives it back, so cutting at a boundary yields text |
| Utf8.KnownEncodings | apps/agent/src/ops/fs.rs:387-396 | characters of one, two, three and four bytes |
| Text.LinesAtEnd | crates/oxyris-git/src/dotenv.rs:34-34 | no text has no lines, and text after the last newline is a line |
| Text.LinesAtNewline | crates/oxyris-git/src/dotenv.rs:34-34 | a newline ends a line and takes one carriage return along |
| Text.TrimExactly | crates/oxyris-git/src/dotenv.rs:55-55 | trimming takes the spaces off both ends and nothing else |
| Text.JoinExactly | crates/oxyris-supervisor/src/guardrails.rs:218-220 | words are joined by single spaces |

## Left out

- Text and regex contents: the denylist's rules, the content matcher, the string hash and the symbol extractor are parameters.
- Supervisor backends, the mission prompt, parsing of the verdict, `dont_ask_again_steps` (a parameter) and UI events.
- `escapes_worktree`, which the controller does not call; `is_engaged` as such (engagement is an arbitrary input at every check).
- Step, turn and retry counters of the auto-pilot are unbounded integers; they stay below the machine's limits as long as a run has fewer than 2^32 turns.
- Liveness of calls made after an agent or a server has died; calls whose request could not be written to the agent, and undecodable frames.
- `unwatch`, and the order of a watch's batches, which tasks of their own may write in any order: no completeness is claimed for watch streams.
- SQLite errors, transactions and `indexed_at`; extractor errors; the row order of `list_symbols_in_file` within a line; a failed metadata read, which counts as unreadable.
- LspFraming.FrameReader.ReaderLoop: JSON parsing is a parameter; a length too large to allocate aborts the source.
- Deserializing a result into its type, `last_activity`, and workspace folders.
- LspDocumentRuns.EveryRunKeeps: calls run one at a time and distinct paths have distinct URIs; `sync_open_from_disk` forgets vanished files without closing them.
- LspDocumentRuns.PushIsSeen: success means that the channel took the notification; what is still queued when the pipe breaks is lost without notice, so the server then has a prefix of the log.
- `ensure_open` and the saves return nothing on success; the model's `Ok(true)` and `Ok(false)` tell whether something was sent.
- ShellQuote.CommandLineSplits: word splitting only; how `wsl.exe` passes the line on, and what `exec` does with its words.
- ContentSearch.SearchContent: the final sort of the result by path is left out; hidden and ignored files of the walk (the walk is an input).
- Dates, costs and identifiers of sessions are opaque values; the event store and the projections.
- Git and Docker wrappers, Tauri commands, settings, MCP tools, file watching, usage polling: foreign code, I/O or presentation.
- Project, worktree and action aggregates: the shape of sessions with only easy invariants.
