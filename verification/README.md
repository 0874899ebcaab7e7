# Verified models of the desktop assistant's protocols

Dafny models of the state machines that this repository relies on, with proofs about every input, every
run or every reachable state. `dafny verify dfyconfig.toml` checks the whole project.

What the code changes in place is a class whose methods carry the same branches and loops; each method is
proved against a function or a predicate, and the theorems are about those. What several processes or
threads do at once is a machine: a datatype of steps, a transition function, and a run as data (`Run` or
`History` with `Valid`, which says that every state follows from the one before by an enabled step), so
that a theorem about `Valid(run)` is one about every interleaving.

| file | models |
|---|---|
| `TaskQueue`, `TaskQueueRuns`, `TaskQueueFairness`, `TaskQueueTable` | the durable job queue: rows in rowid order, the operations, facts about whole runs, and the table changed in place |
| `BuildLock` | the project-wide build lock between processes that may be killed at any step |
| `VerifyGate` | the two-attempt gate, the input watch, and a world that writes to the inputs, loses change events and decides how steps end while the gate runs |
| `AffectedGraph`, `AffectedPlan` | reverse dependencies, the union of two graphs, owners of changed paths, and the plan made from them |
| `GitChanges`, `GitQuote`, `ChangeCollection` | reading git's NUL-separated lists and quoted paths back, byte by byte |
| `RustScanner`, `RustHeaders` | the index-jumping brace scanner against a lexer that reads one unit at a time; the two expressions that find test code, and the cut before a trailing test module |
| `SizeRatchet` | the module-size check and the registration of new files |
| `EventOrder` | the order of recognition events as a language, its automaton, and the guarded receiver |
| `CaptureWorklet` | the audio worklet that cuts a stream into frames |
| `CaptureAccount`, `CaptureAudio` | which part of the stream every final job holds, read off the events; preroll, utterance and final jobs as buffers on the heap that are zeroed in place |
| `CaptureEntries`, `DeliveryLog`, `RecognitionQueues` | the shown entries, their deliveries, and the two drainers of a capture over HTTP |
| `RealtimeAssembly`, `SpeechText` | the text of an utterance under racing events of the realtime recogniser |
| `VoicePolicy`, `VoicePolicyRuns` | the stored voice policy with revisions, and the one change a run may make |
| `DictionaryCache` | the cache whose callers load outside the lock |
| `RunCancellation` | the flag, lock and notification of a run's cancellation |

Some promises of the code do not hold without a condition. In these cases the model keeps the code as it is
and the condition is proved:

- A job of kind `terminal_question` has no overtaking bound at all (`TerminalQuestionIsOvertakenForEver`);
  every other job is claimed or cancelled within 3p+1 claims (`BoundedOvertaking`).
- A build group that was started but not yet tracked when its process dies is not in the owner file, and a
  second build can start beside it (`LostGroupLetsASecondBuildIn`); without such a loss there is one build
  group of any kind (`OneBuildUnlessLost`).
- The release of the lock clears the token in the owner file before it lets go, and that write can fail. Then
  the old token stays, and a process that was given it may inherit the lock while another one
  starts its build (`UnsavedReleaseLetsAnInheritorIn`); with a saved release or a living owner it cannot
  (`InheritedGrantIsSafe`).
- `splitNul` decodes each field on its own, and the decoder drops a leading byte order mark, so the printed
  paths come back exactly when none of them begins with one (`RoundTripUnlessMarked`).
- `unquoteGitPath` reads `\a \b \v \f \r` as the letters; the bytes come back exactly when the path has none
  of those five control bytes (`UnquoteUndoesGitPrint`). The text, decoded in the end, is the path exactly when
  moreover it does not begin with a byte order mark (`UnquotedTextIsThePath`).
- `unionGraphs` and `planAffected` test a fallback for truth but choose its text with `??`, so an empty
  fallback counts as none when it stands alone and hides the other one's text when it does not (`Falls`).
  So the composition covers what either graph says exactly unless the current graph has the empty text
  (`ExplainAffected`), and then a failure of the previous one goes unseen (`EmptyTextHidesAFailure`).
- A failure event that is not fatal is not bound to its utterance: it may name one that has ended
  (`FailureMayNameFinishedUtterance`).
- A tool call for silence from another conversation than its run's own silences the run but leaves the run's
  one change unused, and a later call lifts the silence (`ForeignSilenceCanBeLifted`); when the call is of
  the run's own conversation, or the change had been used before it, the silence lasts to the end of the run
  (`AskedSilenceIsKept`).
- An utterance whose early finals are all blank is completed with the interim text instead of no text
  (`TextIsJoinOfFinals`).
- The revision that guards the dictionary cache is never what decides: while the cache is empty it has not
  been raised, so a load is always installed or discarded for another one (`ReturnsWhatIsHeld`).

That a terminal row stays as it is, is a fact about the eight operations of `task_queue.rs`. It is not one
about the table: `src-tauri/src/runtime/conversation_check/queue_runtime.rs:221` sets an interrupted speech
row back to running, and writes of that kind are not steps of this model.

Assumptions that stand for what cannot be seen from these files: generated ids and owners are new; process
and group ids are not reused; fingerprints and scans tell contents apart; a write to the inputs leaves a change
event that is delivered by the time the gate has yielded, unless the watch could not be started, has
overflowed, or reports an error by then; no microphone frame arrives once its capture has
stopped; state listeners neither throw nor call back into the capture.

## Model

| member | source | states |
|---|---|---|
| `TaskQueue.StepKeeps` | src-tauri/src/task_queue.rs:61-243 | every operation keeps all rows in place, never touches a terminal row, and keeps "running exactly when owned and leased" and the unique (scope, kind, key, generation) |
| `TaskQueue.HeldAtMostOnce` | src-tauri/src/task_queue.rs:160-173 | in a sound table a job's id, owner and generation match at most one running row, so a settle reports success for one row or none |
| `TaskQueueRuns.RunIsSound` | src-tauri/src/task_queue.rs:61-243 | the table invariant holds before and after every operation of every run |
| `TaskQueueRuns.RowsContinue` | src-tauri/src/task_queue.rs:61-243 | across any stretch of any run a row keeps its place and identity, and a terminal row stays exactly as it is |
| `TaskQueueRuns.AttemptsAreBounded` | src-tauri/src/task_queue.rs:136-235 | a row's attempts never exceed 3 plus the recoveries that replayed it, and `fail` requeues it at most twice ever |
| `TaskQueueRuns.OneRowPerOwner` | src-tauri/src/task_queue.rs:136-142 | with fresh owners one owner is never on two rows |
| `TaskQueueRuns.OwnersComeFromClaims` | src-tauri/src/task_queue.rs:136-158 | a row that has an owner got it from an earlier claim of the run |
| `TaskQueueRuns.SettleNeedsHolder` | src-tauri/src/task_queue.rs:160-212 | a settle succeeds only for a row held under the job's owner and generation; otherwise it changes nothing |
| `TaskQueueRuns.SettledAtMostOnce` | src-tauri/src/task_queue.rs:109-212 | in every run with fresh owners a claim is settled successfully at most once |
| `TaskQueueRuns.StaleJobIsRejectedForEver` | src-tauri/src/task_queue.rs:160-243 | a job value from before a settle, recovery or cancellation of its row is refused by every later settle and changes nothing |
| `TaskQueueRuns.DownstreamOnlyAfterCompletion` | src-tauri/src/task_queue.rs:307-370 | when downstream jobs are enqueued in the transaction that finishes the upstream one, in every interleaving a downstream row exists only beside a completed upstream row |
| `TaskQueueRuns.PublishedAtMostOnce` | src-tauri/src/task_queue.rs:307-370 | of all transactions that publish downstream of one row at most one commits |
| `TaskQueueRuns.PendingStaysBounded` | src-tauri/src/task_queue.rs:85-96 | when every enqueue for a scope, lane and kind carries a bound of at most M, queued and running jobs there never exceed M |
| `TaskQueueFairness.WaitingIsPaidFor` | src-tauri/src/task_queue.rs:109-197 | while an ordinary available row waits, every claim on its lane is paid out of the remaining attempts of the rows ahead of it |
| `TaskQueueFairness.BoundedOvertaking` | src-tauri/src/task_queue.rs:109-197 | with a steady clock and no recovery a waiting ordinary row with p rows ahead in its lane is claimed or cancelled within 3p+1 successful claims |
| `TaskQueueFairness.TerminalQuestionIsOvertakenForEver` | src-tauri/src/task_queue.rs:113-118 | for every n there is such a run with n claims on the lane while the terminal question at its head still waits |
| `TaskQueueTable.JobTable.Enqueue` | src-tauri/src/task_queue.rs:61-107 | prior row, conflict, bound and insertion, as the specification has them |
| `TaskQueueTable.JobTable.Claim` | src-tauri/src/task_queue.rs:109-158 | takes the first ready row by rank and rowid, terminal questions last, and hands it out under the new owner |
| `TaskQueueTable.JobTable.Finish` | src-tauri/src/task_queue.rs:160-173 | completes exactly the rows held under the job and says whether there was one |
| `TaskQueueTable.JobTable.Fail` | src-tauri/src/task_queue.rs:175-197 | permanent errors end the job; others requeue it with its delay until the third attempt |
| `TaskQueueTable.JobTable.FailTerminal` | src-tauri/src/task_queue.rs:199-212 | the held row fails for good, with the clipped error |
| `TaskQueueTable.JobTable.Recover` | src-tauri/src/task_queue.rs:214-235 | lane by lane the loops do what one pass over the table does: running rows of replay lanes queue again, pending rows of interrupt lanes end |
| `TaskQueueTable.JobTable.CancelKey` | src-tauri/src/task_queue.rs:237-243 | cancels the pending rows of the key and counts them |
| `BuildLock.StepKeepsInv` | scripts/verification-lock.ts:58-123 | every step of any process, death included, keeps: one holder of the database, no reused group, and a live tracked group is the one in the owner file |
| `BuildLock.MutualExclusion` | scripts/verification-lock.ts:58-123 | in every run at most one tracked build group is alive, and the owner file names it |
| `BuildLock.AcquisitionWaitsForOldBuild` | scripts/verification-lock.ts:76-106 | a process that has acquired the lock starts with no tracked build alive, whoever was killed before |
| `BuildLock.InheritedGrantIsSafe` | scripts/verification-lock.ts:67-75 | a lock is inherited only inside the build that owns it: while that owner has not finished, no other process works under the lock |
| `BuildLock.UnsavedReleaseLetsAnInheritorIn` | scripts/verification-lock.ts:67-123 | when the owner's release is not saved there are steps by which one waiting process inherits the lock from it while another starts a build of its own |
| `BuildLock.OneBuildUnlessLost` | scripts/verification-process.ts:172-220 | if no process ends while it looks after a live group the owner file does not name, at most one build group of any kind, tracked or not, is alive |
| `BuildLock.LostGroupLetsASecondBuildIn` | scripts/verification-process.ts:180-204 | after such a loss there are steps by which any waiting process starts a second build beside the lost group |
| `VerifyGate.RunVerification` | scripts/verify-run.ts:45-220 | zero only after a last attempt that ran exactly its planned steps, each noted by the world with status 0 and neither stopped nor thrown, between two measured, equal fingerprints; if it was narrow, under a watch that was available from before the planning, lost nothing and failed nowhere, with equal scans, and without a write to the inputs in the whole window; once wide, wide for good |
| `VerifyGate.RunAttempt` | scripts/verify-run.ts:99-207 | fails exactly when a step did not pass, with its code; otherwise the log entry is true of the contents the inputs have had and of the steps the world ran, and the judgement is the one the fingerprints and the watch deserve: a narrow attempt passes only with a calm watch and untouched inputs |
| `VerifyGate.Prepare` | scripts/verify-run.ts:80-98 | fingerprint and plan; a narrow plan is refused when the watch was not attached or its opening scan failed, and one that is not refused was made under an open window |
| `VerifyGate.SelectedPlan` | scripts/verify-run.ts:428-461 | narrow steps only for an allowed change under an attached watch, planned from the present contents; a wide choice freezes the context |
| `VerifyGate.RunSteps` | scripts/verify-run.ts:248-317 | no failure exactly when all the steps ran, in order, and each passed; else the first that did not pass is the last one run, and its code, never zero, is reported |
| `VerifyGate.InputWatch.Begin` | scripts/verify-input-watch.ts:76-85 | the window starts at the present generation; the baseline is what the inputs hold then, if they can be read, and a failed scan marks the watch |
| `VerifyGate.InputWatch.Deliver` | scripts/verify-input-watch.ts:44-60 | every delivered event raises the generation of a watch that could be started and has not overflowed; overflow from the limit on, failure on a reported error, and neither is taken back |
| `VerifyGate.InputWatch.FinalScan` | scripts/verify-input-watch.ts:86-95 | scanned exactly when both scans were good, matched exactly when they were also equal; the generation is the end of the window and a failed scan marks the watch |
| `VerifyGate.OpenWatch` | scripts/verify-run.ts:74-79 | a required watch is opened before the plan, and the context calls it attached exactly when it could be started and its first scan was good |
| `VerifyGate.Reopen` | scripts/verify-run.ts:165-173 | a narrow attempt whose inputs changed opens a new window; attached again exactly when the watch is available, has not failed or overflowed, and the new scan is good |
| `VerifyGate.Close` | scripts/verify-run.ts:120-123 | final scan, fingerprint, and the yield after which every write up to the final scan has been counted unless the watch is known to have failed |
| `AffectedGraph.DependentsOf` | scripts/verify-affected-graph.ts:44-59 | terminates with exactly the packages that have a dependency path into the changed ones, the changed ones included; nothing when the graph has a fallback |
| `AffectedGraph.SaturatedHoldsAllReaching` | scripts/verify-affected-graph.ts:46-57 | a selection that no pass can grow contains every package with a path into it |
| `AffectedGraph.UnionGraphs` | scripts/verify-affected-graph.ts:24-42 | the union has exactly the edges of both graphs, or falls back when either does |
| `AffectedGraph.UnionClosureContainsBoth` | scripts/verify-affected-graph.ts:24-59 | whatever reaches the changed packages in either graph reaches them in the union |
| `AffectedPlan.ExplainAffected` | scripts/verify-affected-plan.ts:121-151 | the whole composition: widens exactly for an unreadable list, unreadable manifests, an unparsed graph that is not hidden, or a wide path; else the packages are exactly what reaches a changed path's packages through the edges of both graphs |
| `AffectedPlan.EmptyTextHidesAFailure` | scripts/verify-affected-graph.ts:24-42 | with an empty text in the current graph a failure to parse the previous one does not widen the gate |
| `AffectedPlan.MergeOwners` | scripts/verify-affected-inputs.ts:173-189 | merging owners keeps every package, test and contract of every path, adds no other, and takes the widest width, which is that of some path |
| `AffectedPlan.PlanAffected` | scripts/verify-affected-plan.ts:38-74 | widens exactly when an input could not be read or some path widens; else holds, and holds only, the closure of each changed path's packages and its tests and contracts |
| `AffectedPlan.MergedClosure` | scripts/verify-affected-plan.ts:53-56 | the closure of the merged packages is the union of the closures of each path's packages |
| `GitChanges.SplitNul` | scripts/verify-affected-changes.ts:144-159 | the fields of the one way to cut the bytes at NULs, decoded; null when a NUL is missing at the end or a field is not UTF-8 |
| `GitChanges.EncodeIsInjective` | scripts/verify-affected-changes.ts:144-159 | two lists of NUL-free fields with the same NUL-terminated text are the same list |
| `GitChanges.ReadRecords` | scripts/verify-affected-changes.ts:167-183 | the index loop reads what the recursive reading of the fields says |
| `GitChanges.ParseNulNameStatus` | scripts/verify-affected-changes.ts:161-184 | the parser is the split followed by that reading |
| `GitChanges.PrefixParsesToPrefix` | scripts/verify-affected-changes.ts:144-184 | every prefix of a print is refused, or is itself the print of the first k records and decodes to exactly those |
| `GitChanges.WholePrintParses` | scripts/verify-affected-changes.ts:161-184 | a whole print is always accepted |
| `GitChanges.RoundTripUnlessMarked` | scripts/verify-affected-changes.ts:144-184 | the parsed entries are the printed ones exactly when no path begins with a byte order mark |
| `ChangeCollection.CollectNulChanges` | scripts/verify-affected-changes.ts:108-142 | widens exactly when git failed, the base is unknown or a list cannot be read; else holds exactly the named paths, each with exactly its reasons, none twice |
| `ChangeCollection.PrintsAreCollected` | scripts/verify-affected-changes.ts:108-184 | for whole prints of both lists and of the untracked files, the collected paths with their reasons are exactly the printed ones as the decoder hands them over |
| `ChangeCollection.UnmarkedIsMeant` | scripts/verify-affected-changes.ts:108-184 | a record whose paths do not begin with a byte order mark is collected under its own name, whatever the others are |
| `GitQuote.ReadToken` | scripts/verify-affected-changes.ts:82-103 | one turn of the loop reads exactly one plain unit or escape |
| `GitQuote.UnquoteGitPath` | scripts/verify-affected-changes.ts:78-105 | the index loop is the token-by-token reading of the body; a path that is not quoted comes back as it is |
| `GitQuote.QuotedBodyReadsBack` | scripts/verify-affected-changes.ts:82-103 | the body of any quoted path reads back byte by byte, with the five letter escapes read as letters |
| `GitQuote.UnquoteUndoesGitPrint` | scripts/verify-affected-changes.ts:78-105 | unquoting what git printed gives the bytes back exactly when none of them is one of the five |
| `GitQuote.UnquotedTextIsThePath` | scripts/verify-affected-changes.ts:78-105 | the decoded text of an unquoted UTF-8 path is the path exactly when it has none of the five bytes and no leading byte order mark |
| `RustScanner.MatchingRustBrace` | scripts/module-size.ts:70-118 | the index-jumping scanner returns the first unit at which the one-unit-at-a-time lexer sees the brace closed in code, or null when there is none |
| `RustScanner.QuotedLiteralEnd` | scripts/module-size.ts:120-126 | the lexer stays in the string up to the returned quote and no brace closes on the way |
| `RustScanner.LineCommentEnd` | scripts/module-size.ts:75-79 | a line comment runs to its newline, where the lexer is back in code |
| `RustScanner.BlockCommentEnd` | scripts/module-size.ts:80-96 | the loop leaves a nested comment where the lexer does |
| `RustScanner.RustCharLiteralEnd` | scripts/module-size.ts:128-136 | the loop computes the file's own rule: a quote within 16 units with no bare white space before it |
| `RustScanner.RawStringEnd` | scripts/module-size.ts:97-104 | the search for the terminator ends where the lexer leaves the raw string |
| `RustHeaders.HeaderAtMatches` | scripts/module-size.ts:48-52 | matching the header from left to right without going back finds, at any unit, exactly the brace at which the expression matches |
| `RustHeaders.AllHeadersAreMatches` | scripts/module-size.ts:48-52 | the headers found are matches of the expression, in order and without overlap |
| `RustHeaders.NoMatchIsMissed` | scripts/module-size.ts:48-52 | wherever the expression matches, a header is found there or one is under way |
| `RustHeaders.FindHeaders` | scripts/module-size.ts:48-52 | the loop finds exactly the leftmost match and then the next one behind it, to the end |
| `RustHeaders.TestOnlyMatches` | scripts/module-size.ts:47 | a file is all tests exactly when the inner attribute stands at its start after white space only |
| `RustHeaders.ProductionSource` | scripts/module-size.ts:45-62 | no cut outside Rust, nothing of a test-only file; else the text before the last header whose body runs, balanced, to trailing white space, or the whole text when there is none |
| `SizeRatchet.Evaluate` | scripts/module-size.ts:191-231 | the failures are exactly the reportable ones, of every kind |
| `SizeRatchet.EvaluateRecord` | scripts/module-size.ts:197-219 | one record is blamed for a missing entry, its ratchet and its budget exactly when each rule says so |
| `SizeRatchet.SupplementBaseline` | scripts/module-size-baseline.ts:4-23 | refuses when the old values blame anything; else keeps every entry and adds the new files with their sizes |
| `SizeRatchet.RegistrationLeavesOnlyStale` | scripts/module-size-baseline.ts:4-23 | after a registration the same records are blamed for nothing but stale entries |
| `SizeRatchet.EntriesNeverChange` | scripts/module-size-baseline.ts:4-23 | no sequence of edits and registrations changes an existing entry, so none raises its ceiling |
| `SizeRatchet.RegisteredWithinBudget` | scripts/module-size-baseline.ts:5-20 | an entry added by a registration is within the hard budget of its path |
| `SizeRatchet.RegisteredFilesStayWithinBudget` | scripts/module-size.ts:211-218 | a file first registered this way is within its hard budget in every later tree that passes |
| `EventOrder.Order.Accept` | src/lib/ipcEventOrder.ts:17-54 | the four flags and the map accept an event exactly when the language allows it after the accepted ones; a refused event leaves no trace |
| `EventOrder.Receiver.Receive` | src/lib/ipcValidation.ts:236-263 | after any values the delivered events are exactly their longest prefix that parses and lies in the language |
| `EventOrder.LongestIsUnique` | src/lib/ipcValidation.ts:236-263 | that prefix is determined by the values |
| `EventOrder.StaysLongest` | src/lib/ipcValidation.ts:245-260 | after the first refused value nothing makes it longer |
| `EventOrder.FailureMayNameFinishedUtterance` | src/lib/ipcEventOrder.ts:36-39 | a failure that is not fatal may follow the final of the utterance it names |
| `EventOrder.FinalIsLast` | src/lib/ipcEventOrder.ts:40-52 | nothing speaks of an utterance after its final or discard |
| `EventOrder.RevisionsIncrease` | src/lib/ipcEventOrder.ts:46-51 | the revisions of an utterance strictly increase from one |
| `CaptureWorklet.VoiceCaptureProcessor.Process` | public/audio/voice-capture-processor.js:19-36 | however the input is chunked, what was posted is exactly the full frames of the whole stream and the buffer holds the rest |
| `CaptureWorklet.VoiceCaptureProcessor.Flush` | public/audio/voice-capture-processor.js:7-16 | posts the rest, if any, then the acknowledgement, and starts over |
| `CaptureWorklet.FramesConserveSamples` | public/audio/voice-capture-processor.js:19-36 | the frames followed by the rest are the stream |
| `CaptureAudio.Capture.AddFrame` | src/lib/conversationAsrCapture.ts:384-438 | one frame appends exactly its samples to the accepted stream and its event to the account: afterwards the jobs, the open utterance and the preroll are again exactly what the account says of all events so far, every job holds its segment of the stream, no open utterance has reached its limit and no partial is overdue |
| `CaptureAudio.Capture.PushPreroll` | src/lib/conversationAsrCapture.ts:392-400 | the preroll is the end of the stream cut as the account cuts it: frames go from the front, zeroed, while what is left exceeds half a second and the new frame |
| `CaptureAudio.Capture.TrimPreroll` | src/lib/conversationAsrCapture.ts:394-398 | the shedding loop keeps exactly the frames from the first one that the rule keeps, and zeroes those before it |
| `CaptureAudio.Capture.StartUtterance` | src/lib/conversationAsrCapture.ts:401-409 | the utterance begins with exactly the retained preroll, at the present end of the stream less its samples |
| `CaptureAudio.Capture.TakeIn` | src/lib/conversationAsrCapture.ts:390-421 | a frame joins the open utterance, or the preroll, which becomes an utterance when the frame has speech in it |
| `CaptureAudio.Capture.Settle` | src/lib/conversationAsrCapture.ts:422-437 | an utterance that is due is handed on up to the present end of the stream and nothing else changes in the account; a partial is queued when one is due |
| `CaptureAudio.Capture.FinalizeUtterance` | src/lib/conversationAsrCapture.ts:340-382 | a long enough utterance becomes the next final job, from the start of its preroll to the present end of the stream; a short one hands on nothing; the utterance's own buffers are zeroed either way, and a waiting partial only if it is this utterance's |
| `CaptureAudio.Capture.QueuePartial` | src/lib/conversationAsrCapture.ts:220-228 | the waiting partial is a fresh copy of the utterance so far; the one it replaces is zeroed |
| `CaptureAudio.Capture.CloseMicrophone` | src/lib/conversationAsrCapture.ts:629-630 | the last utterance is finalised, or else the preroll cleared, what was held is zeroed, and the account takes the closing in |
| `CaptureAudio.SamplesOf` | src/lib/conversationAsrCapture.ts:210-218 | one fresh array with the samples of all frames in order |
| `CaptureAudio.Capture.NothingHandedTwice` | src/lib/conversationAsrCapture.ts:340-382 | the first n final jobs together are no longer than the stream up to the end of the nth: no sample reaches two |
| `CaptureAccount.FinalsAreTheUtterances` | src/lib/conversationAsrCapture.ts:340-438 | the final jobs of any sequence of frames and closings are exactly the utterances read off it: from the retained preroll of the first frame with speech through every later frame up to the first that ends it, unless shorter than a tenth of a second |
| `CaptureAccount.PrerollIsBounded` | src/lib/conversationAsrCapture.ts:392-409 | a final job begins at most half a second and one frame, the one with the speech, before its utterance was noticed |
| `CaptureAccount.FinalsAreInOrder` | src/lib/conversationAsrCapture.ts:340-438 | the final jobs lie in the stream one behind the other, and before everything still held |
| `CaptureEntries.FindAfterUpdate` | src/lib/conversationAsrState.ts:46-50 | after an update a look-up gives the changed entry under the updated id and what it gave before under any other |
| `DeliveryLog.GrantsAreSeparated` | src/lib/conversationAsrDelivery.ts:4-36 | between two delivery grants of one entry there is a failed delivery |
| `DeliveryLog.AgreesLogged` | src/lib/conversationAsrDelivery.ts:4-36 | a grant or failure keeps the marks of the entries equal to the open grants of the log |
| `RecognitionQueues.Recognizer.RestIsSettled` | src/lib/conversationAsrCapture.ts:610-678 | in every reachable idle state nothing waits and every entry is completed or failed |
| `RecognitionQueues.Recognizer.FirstInFirstOut` | src/lib/conversationAsrCapture.ts:229-256 | in every reachable state the ids taken from the final queue are the first ids put in, in order, none twice |
| `RecognitionQueues.Recognizer.FinalizeUtterance` | src/lib/conversationAsrCapture.ts:340-382 | the new entry has the text shown, joins the queue or fails when eight wait, leaves the other entries alone, and no partial of it waits any more |
| `RecognitionQueues.Recognizer.NextFinal` | src/lib/conversationAsrCapture.ts:245-256 | the drainer takes the oldest job and marks its entry, or rests exactly when none waits |
| `RecognitionQueues.Recognizer.FinishFinal` | src/lib/conversationAsrCapture.ts:287-333 | a result settles the transcribing entry of its own job and changes no other |
| `RecognitionQueues.Recognizer.EnqueuePartial` | src/lib/conversationAsrCapture.ts:220-228 | the newest partial waits behind a busy drainer or is taken at once |
| `RecognitionQueues.Recognizer.FinishPartial` | src/lib/conversationAsrCapture.ts:287-333 | partial text changes what is shown only while its utterance is still the current one, never after it has ended |
| `RecognitionQueues.Recognizer.Succeeded` | src/lib/conversationAsrCapture.ts:288-291 | a success clears a shown error exactly when it is of the same or an earlier request, and nothing else |
| `RecognitionQueues.Recognizer.Closed` | src/lib/conversationAsrCapture.ts:624-641 | after the microphone is closed the drains awaited are the last ones there will be |
| `RecognitionQueues.Recognizer.Drained` | src/lib/conversationAsrCapture.ts:641-642 | once the awaited drains have ended every entry is settled |
| `RecognitionQueues.Recognizer.QueueDelivery` | src/lib/conversationAsrDelivery.ts:4-16 | granted exactly for a completed entry with text and no open grant, which is then marked |
| `RecognitionQueues.Recognizer.FailDelivery` | src/lib/conversationAsrDelivery.ts:18-22 | returns exactly an open grant of an entry with a provider, whose entry fails |
| `RecognitionQueues.Recognizer.RetryDelivery` | src/lib/conversationAsrDelivery.ts:24-36 | grants again exactly a failed, unmarked entry with text and provider, and hands out its text |
| `RealtimeAssembly.RealtimeCapture.OnFinal` | src/lib/conversationAsrCapture.ts:137-157 | an entry that waits is completed, for the only time, with the trimmed join of all finals received for it; settled entries never change |
| `RealtimeAssembly.RealtimeCapture.Finalize` | src/lib/conversationAsrCapture.ts:340-382 | the new entry is complete at once exactly when a final has come and nothing was said after it, failed exactly when a failure with a message came early and no such final, else waiting |
| `RealtimeAssembly.RealtimeCapture.OnPartial` | src/lib/conversationAsrCapture.ts:131-136 | shows all finals of the current utterance so far followed by the partial |
| `RealtimeAssembly.RealtimeCapture.OnSpeechStarted` | src/lib/conversationAsrCapture.ts:128-130 | speech after an early final makes the utterance wait for another one |
| `RealtimeAssembly.RealtimeCapture.OnFailed` | src/lib/conversationAsrCapture.ts:158-168 | fails exactly the waiting entry it names; settled entries never change; without a name the capture stops |
| `RealtimeAssembly.RealtimeCapture.OnStopped` | src/lib/conversationAsrCapture.ts:169-173 | every entry that still waits fails, settled ones stay |
| `RealtimeAssembly.RealtimeCapture.Finish` | src/lib/conversationAsrCapture.ts:631-668 | a stop leaves no entry waiting and nothing kept |
| `RealtimeAssembly.UnfinishedMeans` | src/lib/conversationAsrCapture.ts:126-157 | waiting for another final means: some speech after a final, or some partial after completed text, that no final has followed |
| `RealtimeAssembly.TextIsJoinOfFinals` | src/lib/conversationAsrCapture.ts:359-374 | the text of a completed entry is the trimmed join of its finals in order, or what was shown when they are all blank |
| `SpeechText.TrimKeepsTheMiddle` | src/lib/conversationAsrCapture.ts:144-149 | trimming removes white space at the ends only |
| `VoicePolicy.ToolStoresOnce` | src-tauri/src/voice_behavior.rs:230-385 | a tool call stores something only as the first change of its run, for the run's own conversation, at the revision the run started with, and for an event not recorded before |
| `VoicePolicy.RevisionTellsChange` | src-tauri/src/voice_behavior.rs:334-362 | a step raises a row's revision by exactly one when a field changes and leaves the row alone otherwise |
| `VoicePolicy.VoiceBehavior.Execute` | src-tauri/src/voice_behavior.rs:166-214 | cache, validation, fail-closed silence, reservation and change, as the specification has them |
| `VoicePolicy.VoiceBehavior.StoreMutation` | src-tauri/src/voice_behavior.rs:288-385 | the transaction: unique event, conflict only recorded, fields and revision together |
| `VoicePolicy.VoiceBehavior.ReserveMutation` | src-tauri/src/voice_behavior.rs:230-264 | the refusals in order, and the one reservation |
| `VoicePolicy.VoiceBehavior.Update` | src-tauri/src/voice_behavior/persistence.rs:104-233 | an update from the settings page against its expected revision |
| `VoicePolicy.VoiceBehavior.FollowRuns` | src-tauri/src/voice_behavior/run_state.rs:5-34 | every run of the conversation follows, but a silent one is not made to speak |
| `VoicePolicyRuns.OneChangePerRun` | src-tauri/src/voice_behavior.rs:230-264 | two tool calls of one run that both change a stored policy have an end of that run between them |
| `VoicePolicyRuns.NoLostUpdate` | src-tauri/src/voice_behavior.rs:87-131 | the row a tool call changes is, in every field, the one its run began with; other rows stay |
| `VoicePolicyRuns.RevisionIsVersion` | src-tauri/src/voice_behavior.rs:334-362 | revisions never go down, and equal revisions mean equal rows |
| `VoicePolicyRuns.ReplayStoresNothing` | src-tauri/src/voice_behavior.rs:171-173 | while its run lives a call of its own conversation that comes again changes no stored policy |
| `VoicePolicyRuns.OneChangePerCall` | src-tauri/src/voice_behavior/persistence.rs:33-48 | no pair of run and call id ever changes a stored policy twice, even when the run id is used again |
| `VoicePolicyRuns.AskedSilenceIsKept` | src-tauri/src/voice_behavior.rs:185-195 | after a valid call for silence, of the run's own conversation or once the run's change has been used, the run stays silent to its end, through updates and calls alike |
| `VoicePolicyRuns.ForeignSilenceCanBeLifted` | src-tauri/src/voice_behavior.rs:189-252 | a valid call for silence from another conversation, made before the run's change has been used, silences the run, but a later call lifts it |
| `DictionaryCache.Cache.Settle` | src-tauri/src/tts_dictionary.rs:47-57 | keeps what is there, installs the load only at the revision it began with |
| `DictionaryCache.NeverEmptyAgain` | src-tauri/src/tts_dictionary.rs:31-74 | once filled the cache stays filled, and changes only by a publication |
| `DictionaryCache.PublishedStays` | src-tauri/src/tts_dictionary.rs:46-73 | after a publication the cache holds that dictionary or a later published one, however old a load is and wherever the revision has wrapped |
| `DictionaryCache.ReturnsWhatIsHeld` | src-tauri/src/tts_dictionary.rs:54-57 | a caller returns what the cache holds at that moment: no load is returned without being installed |
| `DictionaryCache.CallAfterPublication` | src-tauri/src/tts_dictionary.rs:36-45 | a call begun after a publication returns that dictionary or a later published one |
| `DictionaryCache.AllCallersAgree` | src-tauri/src/tts_dictionary.rs:46-57 | without publications every caller is given the one dictionary the cache holds |
| `RunCancellation.StepKeepsInv` | src-tauri/src/app_state.rs:65-106 | every step of every thread keeps the lock, flag and wake-up invariant |
| `RunCancellation.NoActionAfterCancel` | src-tauri/src/app_state.rs:66-95 | no action is under way when the flag is set, and none begins from then on |
| `RunCancellation.OneActionAtATime` | src-tauri/src/app_state.rs:82-95 | an action runs alone under the lock, before the flag and before any panic |
| `RunCancellation.NoLostWakeUp` | src-tauri/src/app_state.rs:66-105 | once some cancel has completed every waiting task can take its next step, and each of its steps brings it nearer to its return |
| `RunCancellation.ReturnMeansCancelled` | src-tauri/src/app_state.rs:97-105 | nobody returns from waiting without a cancel |

## Left out

- SQLite, Tauri and browser IPC, process spawning, signals, file scanning, hashing and git itself: they are tables, parameters or steps of the environment.
- Writes to `task_queue_jobs` by other modules (see the note above), the queue snapshot, and the lease value, which nothing compares.
- BuildLock, DictionaryCache and RunCancellation are machines over values: sharing between threads, and for the cache everything but its three critical sections, is a matter of steps, not of the heap.
- `BuildLock.MutualExclusion`: speaks of tracked groups; a group between its start and `track` is the subject of `BuildLock.OneBuildUnlessLost`.
- The two-second and fifteen-second timers of an abort, and interrupts after the last step of an attempt.
- A failed start-up of a capture, which drops preroll and utterance, is not an event of CaptureAccount and CaptureAudio.
- `GitQuote.UnquotedTextIsThePath`: for paths that are UTF-8; which replacement characters the lenient decoder puts in for others is left open.
- The watch's exclusion of paths: events stand for writes to included inputs only. Writes that the operating system does not report are outside, as the source's own limitation text says.
- Parsing of manifests and allowlist contents beyond membership; the order of the sorted lists that `dependentsOf`, `collectNulChanges` and the plan return; the candidate list, which only prefixes the same names.
- The text version of the name-status parser, which nothing but tests reads.
- `SizeRatchet.Evaluate`: the growth rule is any ceiling that is at least the identity, and the include scan's findings are an input.
- `runtimeEventOrder`: one flag, an easier automaton than the one modelled.
- The voice activity detector and the packetizer: what they say about a frame is a parameter; sending live packets and their backlog limit is not modelled.
- CaptureAudio covers the HTTP transport, where samples are kept; who drains the partial is in RecognitionQueues, which knows jobs by id only.
- `RecognitionQueues.Recognizer.FinishFinal`: upload and transcription are one await, since nothing but the job's own buffer changes between them.
- RealtimeAssembly leaves out the language of a text and events without an utterance id that have no effect; events of other sessions are ignored by the source's first line.
- Two tool calls of one run at the same time, and an update between the separate locks of one tool call: calls and updates are handled one at a time in VoicePolicy. Presentation, streaming switches and timestamps are left out; deleting a conversation with its policy too.
- Group-link completeness of process cleanup, schemas, user interface, speech text projection, and the native audio code.
