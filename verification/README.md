# rulisp verification

A Dafny model of the hard parts of rulisp, a bridge from Rust to Common Lisp,
and proofs about it. `dafny verify dfyconfig.toml` checks everything.

The project has five parts.

**The parked-request protocol of the httpd example** (`ParkMachine`,
`ParkOwnership`, `ParkOwnershipSteps`, `ParkFlow`, `ParkFlowSteps`,
`ParkTheorems`, `ParkAnswers`, `ParkOutcomes`, `ParkOrder`, `ParkProgress`, `ParkPullers`,
`ParkQueue`, `ParkPruning`). A step machine with one program counter per tokio
task and per Lisp thread; a step is one lock operation, atomic access or await.
Clients leave at any await, deadlines pass or do not, futures are dropped,
condition variables wake for no reason. One half of the invariant follows every
oneshot sender; the other follows the mutex, the slots, the wakeups and the
counters. `ParkAnswers` says whose answer a client gets, `ParkOutcomes` which step decided
what it is told, `ParkOrder` that requests are taken in the order in which they were parked,
`ParkProgress` that nobody is stuck. `ParkPullers` follows the condition variable of
`Svc::wait`. `ParkQueue` has the code under the lock as a class; `ParkPruning` shows
that the machine's entry-by-entry pruning, with clients leaving between the entries,
is its `retain`.

**The request lifecycle of the fetch example** (`FetchBody`, `FetchStream`,
`FetchVerdict`, `FetchAdmission`, `FetchReady`, `FetchShutdown`). The body queue as a class and as a machine of one task with any
number of readers; the admission permits, `in_flight`, the guard's order of
releases, the ready queue and the races with shutdown as a second machine. `FetchVerdict`
says how a transfer ends: with the error that ended it, or whole.

**`Inbox<T>`** (`InboxQueue`, `InboxProtocol`, `InboxTheorems`, `InboxCalls`). The code under the lock refines a
closable bounded FIFO; a machine of the two condition variables shows that no
wakeup is lost.

**The export compiler and the manifest** (`Sexp`, `Manifest`, `ManifestReader`,
`ManifestText`, `ManifestDecode`, `ManifestMarks`, `ManifestNames`,
`ManifestRoundTrip`, `ManifestPrinter`, `ManifestLayout`, `ManifestClosed`, `Classify`, `ClassifyGrammar`, `Abi`, `ExportEntry`, `ByteMemory`, `Shim`,
`ShimRun`, `Tunnel`, `TunnelShape`, `ShimTunnel`). Rust type trees are classified; from the classification come a shim and
metadata; the metadata is rendered as text; a reader of that text computes the C
signature again. The printer appends to one text as the original does and is proved
equal to a spelling in pieces, which is what the reader lemmas speak about; `ManifestLayout` spells it once more, to the
byte, as strings. `ExportEntry` says, over signatures alone, which entry the manifest has
for each. The shim's generated code is run over the words and the bytes of a call. `Tunnel` is the
callback flag over arbitrarily nested calls, `TunnelShape` says which shapes of calls can
trust it, and `ShimTunnel` joins shim and flag.

**Three smaller pieces** (`ResponseSplit` with `HeadText`, `HeadLength` and
`ByteSearch`, `HeaderCodec` with `HeaderAccept`, `CappedOutput`).

`Wrappers` has options and results. `Counting` counts the entries of a map that satisfy a predicate, and how one update
changes that count.

## Where a promise does not hold as it stands

For each of these the exact condition is stated as an if-and-only-if, and there is a
concrete failing input.

- Names are printed between bare quotes. A manifest reads back as what was rendered
  exactly when no name contains `"` or `\` (`ManifestRoundTrip.RoundTrip`); the
  check on explicit constructor names lets `\` through
  (`ManifestRoundTrip.BackslashNameLost`, `BackslashNameExample`). The "only if" half
  is a counting argument: reading needs two marks for each mark inside a string,
  rendering a name pays one.
- The wrapper calls a shim with the shim's own C parameters exactly when at most one
  parameter is a borrowed callback and every type that ends in a primitive's name is
  that primitive (`Abi.SignaturesAgree`). The macro accepts more callbacks and the
  loader refuses those functions (`TwoCallbacks`); the macro looks at the last path
  segment only, so an alias `m::i64` of `i32` is exported as 64 bits
  (`ShadowedScalar`).
- On the error path of a fetch request `settled` is visible before the capacity is
  back; on every other path it is not (`FetchAdmission.SettlesAfterReturn`,
  `ErrorSettlesFirst`).
- The macro promises to reject any named lifetime anywhere in a parameter type
  (crates/rulisp-macros/src/lib.rs:116-122). It looks at references, slices, tuples,
  parentheses and angle-bracketed type and lifetime arguments, and passes over arrays,
  pointers, fn pointers, trait objects, parenthesised and associated arguments and the
  qualified self. A type is refused exactly when it names a lifetime at a place the check
  looks at; the promise is kept exactly when no lifetime is named at a place it passes
  over, or one is named elsewhere too (`Classify.RejectsNamedExactly`).
  `&Foo<[&'static str; 2]>` is accepted as a handle
  (`ClassifyGrammar.NamedLifetimeAccepted`). No borrow that the shim makes can be named,
  even so (`BorrowsElided`).
- `next_ready` promises the id of a request that has settled
  (examples/fetch/src/lib.rs:328). The guard posts the id and then settles, so the id is
  that of a settled request exactly when the guard is gone or the work ended by an error
  (`FetchReady.ReadyIsSettled`, `ReadyBeforeSettled`). Its capacity is always back.
- For a callback-taking function that returned an Err, status 4 says whether one of
  its own callbacks failed exactly when `Tunnel.Agrees` holds of what happened in the
  call (`StatusIsOwnSignal`). Whatever the callbacks and the shims below may answer, it
  says so exactly when the shape of the calls is `TunnelShape.Safe`: the last closure that
  runs callback-taking shims comes after no borrowed callback and cannot leave the flag
  set (`ShapeDecides`). Calls without callback-taking shims below are safe
  (`PlainAgrees`); others can fail in either direction (`SignalForgotten`,
  `SignalBorrowed`). What status 4 means in general is the last write to the flag
  (`CallbackStatus`).
- A chunked response is cut off whole exactly when its chunks do not look like an end: a
  line `0` at their start or at the start of a line, and an empty line after it
  (`ResponseSplit.WrittenChunks`). The splitter searches for those bytes and does not
  follow the chunk sizes.
- The header codec is lossless exactly when no value starts with a space or a tab
  (`HeaderCodec.HeadersRoundTrip`, `BlankLost`). Its comment in the server calls it
  lossless (examples/httpd/src/lib.rs:80-81).

One comment is wrong about the code: examples/httpd/src/lib.rs:317-318 says a waiter may
see its sender dropped because `stop` drained it. The code answers 503 on every drained
entry, and no waiter ever sees a dropped sender (`ParkTheorems.FallbackUnreachable`).

## Model

| member | source | states |
|---|---|---|
| ParkTheorems.OneOwner | examples/httpd/src/lib.rs:179-326 | in every run, with clients leaving anywhere, the sender of a request is in exactly one place (pusher, queue, one thread, handle) and there once, or was consumed once; at most one send or drop ever |
| ParkTheorems.WaiterIsServed | examples/httpd/src/lib.rs:312-325 | a task that waits for its answer has it already, or a live sender exists outside the pusher; its sender was never destroyed unsent |
| ParkTheorems.FallbackUnreachable | examples/httpd/src/lib.rs:317-325 | no run has a step in which a live waiter gets the "sender dropped" 503 |
| ParkAnswers.AnswerIsDecided | examples/httpd/src/lib.rs:639-661 | in every state, r is the answer to a request, sent or on its way with one thread, if and only if an earlier step decided so: a handler answered r, its handle was freed (500), or a stopper drained it (503) |
| ParkAnswers.HandlerAnswers | examples/httpd/src/lib.rs:652-660 | from the step that takes the reply with r on, in every later state r was sent, or nothing was and a thread holds r |
| ParkAnswers.FreedAnswers | examples/httpd/src/lib.rs:639-650 | the same for a handle freed unanswered, with the 500 |
| ParkAnswers.ReceivedIsDecided | examples/httpd/src/lib.rs:319-325 | a client that gets a response gets r if and only if an earlier step decided to answer it with r |
| ParkAnswers.StepSettles | examples/httpd/src/lib.rs:245-251 | the answer to a request changes with the step that decides it and with no other |
| ParkOutcomes.OutcomeIsCause | examples/httpd/src/lib.rs:273-326 | a request has ended with an outcome (503, 408, 413, 504, a reply, left) if and only if an earlier step was the cause of that one |
| ParkOutcomes.DownTurnsAway | examples/httpd/src/lib.rs:273-276 | once the server is down, a request not past its first look takes no body slot, reads no body, and can only get the 503 |
| ParkOutcomes.RefusedGaveUp | examples/httpd/src/lib.rs:193-217 | a push gives a request back only after its deadline passed on a full queue, or it saw `down` under the lock |
| ParkOrder.TakesOldest | examples/httpd/src/lib.rs:233-242 | a take gives a request that was parked, and before every one it leaves |
| ParkOrder.TakenInOrder | examples/httpd/src/lib.rs:233-242 | of any two takes of a run, by any threads, the earlier gives the request that was parked earlier |
| ParkOrder.TurnedAwayUnseen | examples/httpd/src/lib.rs:285-311 | a request answered 503, 408 or 413 by `park` was not and will not be parked, and no queue, thread or handle ever has it |
| ParkOrder.ServedWasParked | examples/httpd/src/lib.rs:306-325 | a request that got a reply or a 504 was parked before, once |
| ParkProgress.NobodyStuck | examples/httpd/src/lib.rs:179-326 | in every reachable state every thread, and every task not ended or waiting for its answer, can step, or wants the mutex and its holder can |
| ParkProgress.AnsweredIsServed | examples/httpd/src/lib.rs:312-325 | a task that waits can take the very answer that was sent, or its sender is alive outside the pusher |
| ParkTheorems.NoLostSlot | examples/httpd/src/lib.rs:185-218 | a push that sleeps un-notified implies a full queue or a thread or task that still owes notify_waiters |
| ParkTheorems.QueueBounded | examples/httpd/src/lib.rs:201-210 | the queue never exceeds the capacity, which is what was asked for, clamped to 1..65536, and never changes |
| ParkTheorems.RefusedForCause | examples/httpd/src/lib.rs:198-215 | push gives a request back only if its last look under the lock saw `down`, or exactly `cap` survivors |
| ParkTheorems.StopIsFinal | examples/httpd/src/lib.rs:245-251 | after any stopper's drain step the queue is empty and the server down in every later state |
| ParkTheorems.DrainedGets503 | examples/httpd/src/lib.rs:245-251 | an entry a drain removed is, in every later state, in a stopper's list or was sent the 503 |
| ParkTheorems.Accounting | examples/httpd/src/lib.rs:566-579 | body slots held plus available equal `cap`; `in_flight` equals unanswered handles plus threads between counting and building or taking and subtracting; neither underflows |
| ParkTheorems.Reached | examples/httpd/src/lib.rs:185-326 | every state of every run satisfies the whole invariant |
| ParkOwnershipSteps.StepOwned | examples/httpd/src/lib.rs:179-326 | every step of every actor keeps the ownership invariant |
| ParkTheorems.StepKeepsFlow | examples/httpd/src/lib.rs:179-326 | every step keeps mutex, room, refusal, wakeup, permit, in_flight and stop facts |
| ParkFlowSteps.TaskMoveFlow | examples/httpd/src/lib.rs:185-218 | the moves of push and park keep the flow invariant |
| ParkFlowSteps.TaskActFlow | examples/httpd/src/lib.rs:273-326 | parking, pruning, receiving and leaving keep the flow invariant |
| ParkFlowSteps.ThreadMoveFlow | examples/httpd/src/lib.rs:221-251 | wait, take, pending and stop keep the flow invariant |
| ParkFlowSteps.ThreadActFlow | examples/httpd/src/lib.rs:639-661 | popping, draining, answering and freeing keep it, given that a handle is built once |
| ParkTheorems.BuildsOnce | examples/httpd/src/lib.rs:712-720 | the thread about to build a handle owns the only sender, so no unanswered handle exists yet |
| ParkPruning.PruneRetains | examples/httpd/src/lib.rs:179-183 | in every run, where the pruning loop of a push, wait, take or pending ends, the queue is what `retain` keeps: who was gone at its beginning is dropped, only who is gone at its end is, whoever leaves meanwhile |
| ParkPruning.LoopComes | examples/httpd/src/lib.rs:179-183 | the same at every moment of the loop, with the answers each entry got |
| ParkPruning.OthersLeaveIt | examples/httpd/src/lib.rs:185-251 | while one actor prunes under the lock no other step touches the queue or its place in it |
| ParkPullers.NoLostCall | examples/httpd/src/lib.rs:206-232 | while a puller sleeps unsignalled in `wait`, every parked request has its notify_one to come, or called another puller that is on its way to look, or called one that was told a request is parked; one call per request |
| ParkPullers.CalledIsTold | examples/httpd/src/lib.rs:221-231 | a called puller that looks while its request is parked answers true, for that request and no earlier one |
| ParkPullers.SettledAreTold | examples/httpd/src/lib.rs:221-231 | with only idle threads and sleeping pullers left and no push under way, each parked request was told to a puller |
| ParkPullers.StepPullers | examples/httpd/src/lib.rs:185-251 | every step, with timeouts and spurious wakes, keeps the puller invariant |
| ParkQueue.Svc.Prune | examples/httpd/src/lib.rs:179-183 | for any answers of `is_closed`, entry by entry: the kept entries in order; true exactly if an answer was yes, exactly if the queue got shorter |
| ParkQueue.Svc.PushTurn | examples/httpd/src/lib.rs:193-211 | refused when down; parked behind the kept entries; no slot exactly when `cap` entries remain, and then no answer was yes |
| ParkQueue.Svc.Take | examples/httpd/src/lib.rs:233-242 | takes the first kept entry; owes a notify exactly when the queue got shorter |
| ParkQueue.Svc.Drain | examples/httpd/src/lib.rs:245-246 | hands over the whole queue in order and leaves it empty |
| InboxQueue.ApplyAllFifo | crates/rulisp/src/inbox.rs:157-242 | under any operations received ++ queued = accepted, within capacity; nothing is accepted after close |
| InboxQueue.ClosedIsFinal | crates/rulisp/src/inbox.rs:210-242 | once a receive answers Closed, every accepted value was received and nothing changes any more |
| InboxQueue.DrainAfterClose | crates/rulisp/src/inbox.rs:210-242 | after close exactly the queued values come out, in order |
| InboxQueue.Inbox.constructor | crates/rulisp/src/inbox.rs:138-147 | an open empty inbox of capacity max(1, capacity) |
| InboxQueue.Inbox.TrySend | crates/rulisp/src/inbox.rs:157-169 | accepts at the back, or returns the value unchanged as closed (checked first) or full |
| InboxQueue.Inbox.SendTimeout | crates/rulisp/src/inbox.rs:174-204 | after the turns of others it acts once: appends, or hands the value back because closed, or full with the deadline passed |
| InboxQueue.Inbox.Recv | crates/rulisp/src/inbox.rs:210-236 | after the turns of others it acts once: the oldest value, Closed on a closed empty inbox, nothing on an open empty one past the deadline |
| InboxQueue.Inbox.Close | crates/rulisp/src/inbox.rs:238-242 | closes and keeps every value |
| InboxTheorems.NoLostWakeup | crates/rulisp/src/inbox.rs:157-242 | an unsignalled sleeping receiver implies queue length at most signalled receivers plus notifies to come; dually free slots for senders; once closed a notify_all is to come |
| InboxTheorems.SettledIsJustified | crates/rulisp/src/inbox.rs:157-242 | when only idle and sleeping threads are left, a sleeping receiver means empty and open, a sleeping sender full and open, never both |
| InboxTheorems.RunIsFifo | crates/rulisp/src/inbox.rs:157-242 | the FIFO law in lock order in every state of every run |
| InboxTheorems.ClosedForever | crates/rulisp/src/inbox.rs:210-242 | after one receive answered Closed every accepted value was received, nothing changes, and every later receive of the run answers Closed at its first turn |
| InboxTheorems.ReceivesInOrder | crates/rulisp/src/inbox.rs:210-236 | a receive that answers a value answers the oldest accepted value that was not received |
| InboxProtocol.StepKeeps | crates/rulisp/src/inbox.rs:157-242 | notify_one, notify_all, timeouts and spurious wakes keep the wakeup invariant |
| InboxCalls.CallStaysOpen | crates/rulisp/src/inbox.rs:174-236 | in every run a thread is in the call it began until a turn answers it: a send with its own value, asleep only if it may wait; who wakes looks again |
| InboxCalls.SendsItsValue | crates/rulisp/src/inbox.rs:157-204 | a turn of a send accepts the value of its own call, or nothing when the inbox is closed or full |
| FetchBody.ReadIntact | examples/fetch/src/lib.rs:611-645 | a read of any size keeps pushed = delivered ++ queued and an exact `buffered` that cannot go below zero |
| FetchBody.PushIntact | examples/fetch/src/lib.rs:743-748 | a pushed chunk keeps the same law |
| FetchBody.ReadAtMost | examples/fetch/src/lib.rs:623-637 | a read gives the next bytes, as many as asked for or the whole first chunk when that is less; the rest stays in its slot |
| FetchBody.ReadsReachDone | examples/fetch/src/lib.rs:524-527 | after settlement reads of any sizes reach `done` within a known bound, having delivered exactly what was pushed |
| FetchBody.Req.ReadNow | examples/fetch/src/lib.rs:623-645 | pops, splits and puts the rest back, subtracts, returns the slot only for a whole chunk; an error only when the queue is empty |
| FetchBody.Req.Read | examples/fetch/src/lib.rs:611-645 | waits only when there is nothing to give, then acts on the state it finds |
| FetchBody.Req.SettleWith | examples/fetch/src/lib.rs:151-162 | settled afterwards; the error is the first settlement's, and an earlier one is kept |
| FetchStream.BodyIntegrity | examples/fetch/src/lib.rs:714-751 | in every run delivered ++ queued = pushed, `buffered` exact, free permits + queued + in hand = queue_chunks, never more than the cap pushed |
| FetchStream.ErrorComesLast | examples/fetch/src/lib.rs:638-645 | a read answers an error only when every pushed byte was delivered |
| FetchStream.SettledShrinks | examples/fetch/src/lib.rs:524-527 | after settlement what remains plus the reads that found data never exceeds what remained, for any readers and sizes; pushed bytes and the error are fixed, `done` stays |
| FetchStream.EnoughReadsAreDone | examples/fetch/src/lib.rs:524-527 | so as many reads that find data as remained bring the run to `done` with every pushed byte delivered |
| FetchVerdict.FailsExactly | examples/fetch/src/lib.rs:638-644 | in every state of every run a read answers the error `why` if and only if the queue is empty, the request settled, and an earlier step ended the transfer with `why` |
| FetchVerdict.ErrorStands | examples/fetch/src/lib.rs:151-162 | once a step ended the transfer with an error, no later state has settled without it, and a read of a settled, empty body answers it |
| FetchVerdict.CleanEndIsWhole | examples/fetch/src/lib.rs:714-751 | a settled request has no error if and only if no step ended the transfer with one, and then every byte that arrived was pushed |
| FetchVerdict.CapExactly | examples/fetch/src/lib.rs:718-725 | an item is refused as too large if and only if a cap is set and the body with it exceeds the cap |
| FetchVerdict.CancelledNeverClean | examples/fetch/src/lib.rs:171-190 | a request cancelled before its guard looked at the token never settles without an error |
| FetchVerdict.WaitsForNothing | examples/fetch/src/lib.rs:618-622 | a read waits only if it found no chunk and no settlement |
| FetchAdmission.AdmissionConserved | examples/fetch/src/lib.rs:430-510 | available + held by starts + guarded + leaked permits = the maximum, which is clamped to 1..4096; one permit leaked for each start that found the runtime taken, and for nothing else; `in_flight` bounded and never below zero |
| FetchAdmission.CapacityBeforeCompletion | examples/fetch/src/lib.rs:171-190 | who sees `settled` on a request that did not end by an error finds permit, count and ready id returned |
| FetchAdmission.SettlesAfterReturn | examples/fetch/src/lib.rs:485-506 | the settling step comes after the return of capacity if and only if the request did not end by an error |
| FetchAdmission.ErrorSettlesFirst | examples/fetch/src/lib.rs:499-505 | a concrete run: settled while the only slot is still taken |
| FetchAdmission.AllReturns | examples/fetch/src/lib.rs:171-190 | when all guards are gone all capacity is back but for permits leaked to a taken runtime |
| FetchAdmission.ReportsItsEnd | examples/fetch/src/lib.rs:171-190 | a finished request reports its own error exactly when the work returned one, cancellation only when it was cancelled and always when that ended it, and nothing otherwise |
| FetchShutdown.DownStopsStarts | examples/fetch/src/lib.rs:430-431 | once `down` is stored no start begins, and no more requests come than starts were past their check |
| FetchShutdown.NoneAfterRuntime | examples/fetch/src/lib.rs:466-474 | once the runtime is taken no request is ever made |
| FetchReady.ReadyInOrder | examples/fetch/src/lib.rs:196-228 | over every run `next_ready` gives posted ids in posting order, each at most once, of requests whose capacity is back; one neither given nor queued was pushed out by READY_CAP newer posts |
| FetchReady.AnswerIsPost | examples/fetch/src/lib.rs:220-228 | the id answered is the post at the position taken, in that state and every later one |
| FetchReady.ReadyIsSettled | examples/fetch/src/lib.rs:171-190 | a posted id belongs to a settled request if and only if its guard is gone or its work ended by an error |
| FetchReady.ReadyBeforeSettled | examples/fetch/src/lib.rs:183-184 | a concrete run: `next_ready` gives the id of a request that is not settled |
| FetchAdmission.ReadyQ.Push | examples/fetch/src/lib.rs:209-219 | the newest ids in order, the oldest dropped at the cap |
| FetchAdmission.ReadyQ.Pop | examples/fetch/src/lib.rs:220-227 | the oldest id, or none exactly when empty |
| Sexp.ReadsBack | lisp/src/manifest.lisp:25-50 | a text that begins with the tokens of a form reads as that form, whatever follows |
| Sexp.ToksInjective | lisp/src/manifest.lisp:25-50 | a token sequence stands for at most one form |
| Sexp.RunEscaped | crates/rulisp-runtime/src/meta.rs:202-212 | the reader undoes `push_escaped` for every text |
| Sexp.SpelledTokens | crates/rulisp-runtime/src/meta.rs:104-345 | printed pieces lex to exactly their tokens when words never touch and names are clean |
| ManifestText.FnMeans | crates/rulisp-runtime/src/meta.rs:214-268 | whichever of the three layouts is chosen, the text of a function means the same form |
| ManifestText.TextReads | crates/rulisp-runtime/src/meta.rs:272-345 | the rendered manifest reads as exactly one form |
| ManifestDecode.TyDecode | crates/rulisp-runtime/src/meta.rs:104-149 | every type of the vocabulary decodes to itself |
| ManifestDecode.FnDecode | lisp/src/manifest.lisp:72-85 | every function entry decodes to its metadata, docs included |
| ManifestDecode.CrateDecode | lisp/src/manifest.lisp:123-152 | the whole form decodes to the crate and its error classes |
| ManifestRoundTrip.RoundTrip | crates/rulisp-runtime/src/meta.rs:272-345 | reading the rendered text gives back exactly the crate, for any docs and layout, if and only if no name has a quote or a backslash |
| ManifestRoundTrip.RenderedInjective | crates/rulisp-runtime/src/meta.rs:272-345 | two crates with clean names and one text are equal |
| ManifestRoundTrip.SeenExactly | crates/rulisp-runtime/src/meta.rs:302-309 | the error list has each error name of a function once, and never `Error` |
| ManifestRoundTrip.SeenInOrder | crates/rulisp-runtime/src/meta.rs:302-309 | in the order in which they first come up |
| ManifestRoundTrip.AcceptedNameClean | crates/rulisp-macros/src/lib.rs:1160-1173 | of the accepted constructor names exactly those with a backslash are not clean |
| ManifestRoundTrip.BackslashNameLost | crates/rulisp-macros/src/lib.rs:1160-1173 | a crate with such a constructor does not read back |
| ManifestRoundTrip.BackslashNameExample | crates/rulisp-macros/src/lib.rs:1160-1173 | one accepted name and the different name it reads as |
| ManifestMarks.ReadDue | lisp/src/manifest.lisp:25-50 | no text is read with fewer quotes and backslashes than its strings need |
| ManifestNames.CratePrice | lisp/src/manifest.lisp:123-152 | a form that decodes to a crate needs two marks for each mark in its names and docs |
| ManifestNames.CrateSpent | crates/rulisp-runtime/src/meta.rs:272-345 | the renderer prints one mark for each mark in a name, two for each in a doc |
| ManifestNames.OnlyClean | crates/rulisp-runtime/src/meta.rs:272-345 | a manifest that reads back has clean names only |
| ManifestLayout.FnTextIs | crates/rulisp-runtime/src/meta.rs:214-268 | a function is printed, to the byte, on a name line and one line, or two, or a line for each parameter: the first of these whose line has at most 100 bytes |
| ManifestLayout.TextIs | crates/rulisp-runtime/src/meta.rs:272-345 | the manifest is printed to the byte as the heading, the three lists and a line feed |
| ManifestLayout.TyTextIs | crates/rulisp-runtime/src/meta.rs:104-157 | the text of every type |
| ManifestLayout.Utf8Injective | crates/rulisp-runtime/src/meta.rs:248-268 | the bytes counted for the widths determine the text |
| ManifestClosed.LoadedClosed | lisp/src/codegen.lisp:28-66 | whatever text is read, every function read from it has types of the closed vocabulary only |
| ManifestPrinter.Out.PushEscaped | crates/rulisp-runtime/src/meta.rs:202-212 | the escaping loop appends the escaped text between quotes |
| ManifestPrinter.RenderTy | crates/rulisp-runtime/src/meta.rs:104-149 | appends the spelling of the type |
| ManifestPrinter.RenderParam | crates/rulisp-runtime/src/meta.rs:151-157 | appends the spelling of the parameter |
| ManifestPrinter.RenderResult | crates/rulisp-runtime/src/meta.rs:159-181 | appends the spelling of the result type |
| ManifestPrinter.RenderError | crates/rulisp-runtime/src/meta.rs:183-192 | appends the quoted name or nil |
| ManifestPrinter.RenderBody | crates/rulisp-runtime/src/meta.rs:225-268 | appends parameters and tail in the first layout that fits 100 bytes |
| ManifestPrinter.RenderFn | crates/rulisp-runtime/src/meta.rs:214-268 | appends the spelling of the function in its layout |
| ManifestPrinter.CollectErrors | crates/rulisp-runtime/src/meta.rs:302-309 | the loop computes the error list |
| ManifestPrinter.RenderManifest | crates/rulisp-runtime/src/meta.rs:272-345 | the text returned is the one the round trip is about |
| Classify.RejectsExactly | crates/rulisp-macros/src/lib.rs:123-164 | the lifetime check passes exactly when every lifetime at a place it looks at is elided |
| Classify.RejectsNamedExactly | crates/rulisp-macros/src/lib.rs:116-164 | elided types always pass; the check refuses exactly the types that mention a named lifetime anywhere, as promised, if and only if none is named at a place it passes over or one is named at a place it looks at |
| ClassifyGrammar.ClassifyExactly | crates/rulisp-macros/src/lib.rs:166-292 | a parameter type is accepted as a vocabulary entry exactly when it stands for it in the grammar and names no lifetime at a place the check looks at |
| ClassifyGrammar.AcceptedMentions | crates/rulisp-macros/src/lib.rs:116-164 | an accepted type mentions no named lifetime if and only if none stands at a place the check passes over |
| ClassifyGrammar.BorrowsElided | crates/rulisp-macros/src/lib.rs:116-164 | in every accepted type the borrows the shim makes are elided: the reference, the one in an option, a callback's lifetime and the references it is given |
| ClassifyGrammar.NamedLifetimeAccepted | crates/rulisp-macros/src/lib.rs:160-194 | `&Foo<[&'static str; 2]>` is accepted as a handle reference |
| ClassifyGrammar.ClassifyResultExactly | crates/rulisp-macros/src/lib.rs:308-388 | the same for results: handles only from constructors, no nested option, no option of bool or of a handle |
| ClassifyGrammar.CallbackExactly | crates/rulisp-macros/src/lib.rs:240-292 | a callback type is accepted exactly with a tuple of scalars, bools and strings and a unit result, which a stored one may leave out |
| Classify.CollectToks | crates/rulisp-macros/src/lib.rs:273-286 | the loop computes the callback's tokens, stopping at the first element it refuses |
| Abi.FnParamsExactly | crates/rulisp-macros/src/lib.rs:1009-1064 | accepted exactly when every input is accepted as its parameter, in order |
| Abi.CollectParams | crates/rulisp-macros/src/lib.rs:1009-1064 | the loop computes the parameters, stopping at the first input it refuses |
| Abi.ClassifyGood | crates/rulisp-macros/src/lib.rs:166-292 | every accepted parameter is in the vocabulary and its token names the type the shim is written with |
| Abi.ClassifyResultGood | crates/rulisp-macros/src/lib.rs:308-388 | the same for results |
| Abi.MetaValid | crates/rulisp-macros/src/lib.rs:771-859 | every accepted signature has metadata in the closed vocabulary: no nested option, no option of bool, callbacks of scalars and strings only |
| Abi.TrampolineAgrees | lisp/src/codegen.lisp:126-136 | the trampoline takes the parameters of the shim's callback pointer |
| Abi.SignaturesAgree | lisp/src/codegen.lisp:428-572 | for every accepted signature the wrapper calls with exactly the shim's C parameters if and only if at most one is a borrowed callback and every scalar type is the primitive it is called; refused exactly with more callbacks |
| Abi.ManifestDeterminesAbi | crates/rulisp-macros/src/lib.rs:472-719 | the same if-and-only-if for the signature computed from the rendered manifest text alone |
| ExportEntry.ManifestEntry | crates/rulisp-macros/src/lib.rs:771-859 | under clean names, entry i read from the rendered text is the only entry signature i has: its doc, names, symbol, parameter names and types; its error is e if and only if it returns a `Result` of two types, the second going by e |
| ExportEntry.ExportsExactly | crates/rulisp-macros/src/lib.rs:1009-1100 | the macro accepts a signature with this metadata if and only if it is its entry, no lifetime is named where the check looks, and it has a receiver if a method and none if a constructor |
| ExportEntry.SplitsExactly | crates/rulisp-macros/src/lib.rs:390-424 | exactly the paths ending in `Result` with two type arguments are split: the first succeeds, the second names the error |
| Abi.TwoCallbacks | lisp/src/codegen.lisp:538-540 | a signature the macro exports and the loader refuses |
| Abi.ShadowedScalar | crates/rulisp-macros/src/lib.rs:198-205 | a signature with an alias of `i32` named `i64`: exported, loaded, called with 64 bits for 32 |
| Shim.CbFfiTypes | crates/rulisp-macros/src/lib.rs:451-470 | the loop computes the callback's C types; the unreachable arm is unreachable |
| Shim.GenFn | crates/rulisp-macros/src/lib.rs:472-719 | one pass gives the C signature, the conversions with the right positions, and whether a borrowed callback is taken |
| Shim.DecodesArguments | crates/rulisp-macros/src/lib.rs:482-618 | for any encoding of the arguments, with elements of their width in memory, the conversions give them back in order, or the first present ill-formed string |
| Shim.ResultReadsBack | crates/rulisp-macros/src/lib.rs:632-719 | the wrapper reads back the returned value from the out-parameters by the manifest type, and frees exactly what was allocated |
| Shim.BufferPut | crates/rulisp-runtime/src/lib.rs:174-206 | a returned buffer is in memory where the out-parameters say, counted as one allocation unless empty |
| Shim.VecReadsBack | crates/rulisp-runtime/src/lib.rs:196-206 | a returned vector reads back element by element at its width |
| ShimRun.ShimPreservesMeaning | crates/rulisp-macros/src/lib.rs:721-769 | the whole call: status 3 without calling exactly when a present string is ill-formed, else the function gets the original arguments; relative to the state the function leaves, the shim writes only the result on 0 and nothing on 4, on 1 only the last error after the error's Display, on 2 only the last error after whichever of function and Display panicked; out-parameters change only on 0; the result reads back |
| ShimRun.WrapperPreservesMeaning | lisp/src/codegen.lisp:428-572 | the same for the words the wrapper sends, which knows the manifest's types only, when the scalar types are what they are called |
| Shim.SentEncodes | lisp/src/codegen.lisp:437-537 | what the wrapper sends by the manifest's type and element size encodes the value for the Rust type, if that is the type it is called |
| ShimRun.EndedReported | crates/rulisp-macros/src/lib.rs:736-755 | status 0, 1, 2 and 4 exactly in their cases (2 also for an Err whose Display panics), and what each adds to the state that user code left |
| ShimRun.Thread.Preludes | crates/rulisp-macros/src/lib.rs:482-618 | the conversions run in order with their early return |
| ShimRun.Thread.UserFn | crates/rulisp-macros/src/lib.rs:736-755 | the user function may leave memory, allocations, last error and flag in any state, not the out-parameters |
| ShimRun.Thread.ErrorText | crates/rulisp-macros/src/lib.rs:748-752 | the error's Display may do the same, and gives a text or a panic |
| ShimRun.Thread.Call | crates/rulisp-macros/src/lib.rs:721-769 | the shim's run has the state, status and call of the specification |
| ShimRun.Thread.SetLastError | crates/rulisp-runtime/src/lib.rs:55-63 | replaces both parts of the last error |
| Tunnel.FlagIsLastWrite | crates/rulisp-runtime/src/lib.rs:88-106 | over any call tree the flag is the last write in program order |
| Tunnel.CallbackStatus | crates/rulisp-macros/src/lib.rs:721-755 | status 4 exactly when a callback-taking function returned an Err and the last write in its extent is a set |
| Tunnel.PropagatedSignal | crates/rulisp/src/lib.rs:240-248 | a signal propagated with `?` is status 4 |
| Tunnel.PropagatesAtEveryDepth | crates/rulisp/src/lib.rs:240-248 | the same for every call at any depth of a tree that propagates |
| Tunnel.StatusIsOwnSignal | crates/rulisp-macros/src/lib.rs:721-755 | for a callback-taking function that failed, status 4 is "one of its own callbacks failed" exactly when the flag was left right, looking back from the end of its body |
| Tunnel.PlainAgrees | crates/rulisp-macros/src/lib.rs:721-755 | that is so without callback-taking shims below |
| Tunnel.PlainStatus | crates/rulisp-macros/src/lib.rs:721-755 | then status 4 is an Err with a failed callback |
| TunnelShape.ShapeDecides | crates/rulisp-macros/src/lib.rs:721-755 | for a shape of calls, status 4 is "one of its own callbacks failed" under every outcome of every callback and shim in it if and only if the shape is safe |
| TunnelShape.SafeAgrees | crates/rulisp-macros/src/lib.rs:721-755 | whatever is answered in a call of a safe shape, the flag is left right |
| TunnelShape.BadDisagrees | crates/rulisp-macros/src/lib.rs:721-755 | every shape that is not safe has answers that leave it wrong |
| ShimTunnel.StatusOfTree | crates/rulisp-macros/src/lib.rs:721-755 | a shim's status is that of the tree of calls in its extent, and so is the flag after it unless the error's Display ran and left another |
| ShimTunnel.ShimStatus4 | crates/rulisp-macros/src/lib.rs:721-755 | a shim returns 4 exactly when its function failed and the last write to the flag in its extent was a set |
| Tunnel.SignalForgotten | crates/rulisp-runtime/src/lib.rs:96-102 | a call whose failed callback is forgotten by a later callback-taking shim: status 1 |
| Tunnel.SignalBorrowed | crates/rulisp-runtime/src/lib.rs:96-102 | a call charged with a failure handled below: status 4 without a failed callback of its own |
| Tunnel.Tls.Shim | crates/rulisp-macros/src/lib.rs:721-769 | the in-place flag follows the specification |
| Tunnel.Tls.Invoke | crates/rulisp/src/lib.rs:209-248 | a borrowed callback's failure sets the flag, a stored one's does not |
| ByteSearch.FindIsFirst | examples/httpd/src/lib.rs:836-838 | `find` gives the first occurrence, or none when there is none |
| ResponseSplit.SplitExactly | examples/httpd/src/lib.rs:840-858 | bytes are split off exactly when they are one complete response: head to the first empty line, then Content-Length bytes, or chunks to the empty line after the first last-chunk |
| ResponseSplit.WrittenSplits | examples/httpd/src/lib.rs:840-858 | header lines with a first Content-Length line of n, whose text does not contain "transfer-encoding: chunked", an empty line and n bytes are cut off whole, whatever follows |
| ResponseSplit.ChunksAnnounced | examples/httpd/src/lib.rs:845-848 | a head announces chunks if and only if its lower-case text contains "transfer-encoding: chunked" |
| ResponseSplit.WrittenChunks | examples/httpd/src/lib.rs:845-849 | header lines whose text contains the phrase, an empty line, chunks and the terminator are cut off whole, whatever follows, if and only if the chunks do not look like an end |
| HeadText.AnnouncedLength | examples/httpd/src/lib.rs:850-855 | the length read from a written head is the number of its first Content-Length line, with any blanks around it, or 0 when no usize holds it |
| HeadText.NothingAnnounced | examples/httpd/src/lib.rs:850-855 | a head without such a line has length 0 |
| HeadLength.LengthOfHead | examples/httpd/src/lib.rs:850-855 | for any text: the length is the number on the first line, ended by LF or CRLF or the end, that begins with the key, blanks trimmed, or 0 when that is no number |
| HeadLength.LengthOfNone | examples/httpd/src/lib.rs:850-855 | for any text without such a line it is 0 |
| HeadLength.ParseExactly | examples/httpd/src/lib.rs:850-855 | a text is read as n if and only if it is a plus sign or none, zeros, the decimal digits of n, and a usize holds n |
| ResponseSplit.SplitStable | examples/httpd/src/lib.rs:842-858 | a complete response is the same on every extension of the buffer |
| ResponseSplit.SplitAllExact | examples/httpd/src/lib.rs:905-927 | responses and leftover concatenate to the stream, and nothing complete is left |
| ResponseSplit.ReadsAreOne | examples/httpd/src/lib.rs:905-927 | the read loop over any reads is one split of their concatenation |
| ResponseSplit.CutIndependent | examples/httpd/src/lib.rs:905-927 | two ways to cut one stream give the same responses and leftover |
| ResponseSplit.Slot.SplitResponse | examples/httpd/src/lib.rs:842-858 | drains exactly the response off the front, or nothing |
| ResponseSplit.Slot.OnRead | examples/httpd/src/lib.rs:911-919 | the inner loop ends and hands over every complete response in order |
| ResponseSplit.Slot.Finish | examples/httpd/src/lib.rs:866-877 | the leftover is handed over last; no byte is lost |
| HeaderCodec.HeadersRoundTrip | examples/fetch/src/lib.rs:65-119 | both decoders rebuild the encoded map with duplicates and their order, any octets, if and only if no value starts with a space or tab |
| HeaderCodec.FetchReads | examples/fetch/src/lib.rs:76-119 | the client's decoder gives every field back, leading blanks of values dropped |
| HeaderCodec.ServerReads | examples/httpd/src/lib.rs:96-122 | the server's decoder does too |
| HeaderCodec.BlankLost | examples/fetch/src/lib.rs:65-119 | a map that does not survive: both decoders give back another one |
| HeaderCodec.DecodersDiffer | examples/httpd/src/lib.rs:103-107 | a last line without CRLF: the server takes it, the client refuses |
| HeaderCodec.MapHolds | examples/httpd/src/lib.rs:96-122 | the map a decoder builds has every name of its fields with all its values in order |
| HeaderAccept.ServerAccepts | examples/httpd/src/lib.rs:96-122 | the server accepts a block as these fields if and only if every piece ended by LF ends in CR and each non-empty bare line is spaces, a token, spaces, a colon, spaces and value bytes, giving the fields in order, names lower-cased |
| HeaderAccept.FetchAccepts | examples/fetch/src/lib.rs:76-119 | the client does if and only if every non-empty piece ends in CR and each non-empty bare line is a token, a colon, blanks and value bytes |
| HeaderAccept.SplitLinesExact | examples/fetch/src/lib.rs:76-119 | the pieces of a block are what lies between its line feeds |
| HeaderAccept.ServerNormal | examples/httpd/src/lib.rs:80-122 | what the server accepts are valid fields, and encoding them again is read as the same by both decoders |
| HeaderAccept.FetchNormal | examples/fetch/src/lib.rs:65-119 | the same for the client |
| HeaderCodec.EncodeHeaders | examples/httpd/src/lib.rs:82-91 | the loop computes the block |
| HeaderCodec.FetchDecodeHeaders | examples/fetch/src/lib.rs:76-119 | the loop computes the decoding, stopping at the first bad line |
| HeaderCodec.ServerDecodeHeaders | examples/httpd/src/lib.rs:96-122 | the loop computes the decoding, stopping at the first bad line |
| CappedOutput.Captured.WriteVectored | examples/wasm/src/lib.rs:364-400 | appends the first min(room, total) bytes of the buffers to its own stream and returns that number; refused exactly for a non-empty write without room |
| CappedOutput.OneBudget | examples/wasm/src/lib.rs:324-328 | over any writes the two streams together hold min(cap, offered) bytes, each is the beginning of what was written to it, and all of it while the budget lasts |
| CappedOutput.RefusedExactly | examples/wasm/src/lib.rs:364-400 | in a run a write is refused exactly when it has bytes and the writes before it offered the whole budget |

## Left out

- Sockets, TLS, hyper, axum, reqwest and tokio internals: only the semantics of the semaphore, oneshot, Notify and condition variable that the code relies on.
- Clocks and fairness: a deadline has passed or has not; nothing is said about how long anything takes, and no liveness that rests on a fair scheduler.
- Mutex poisoning, allocation failure, and wrap-around of 64-bit counters and of `usize` sums other than the saturating one in the splitter.
- `Request::builder` and `respond`: validation of status and headers before an answer is sent; the machine takes any answer.
- Connection limits, the accept loop's watchdog, `respond_file` and body streaming from files.
- Redirects, proxies, header and status recording of a fetch request; only admission, body and settlement.
- The cancellation token wakes the task; the machine lets it be dropped at any later step, and its guard looks at the token in every case.
- The Lisp handle cells, generations, sessions and `on-dump`: the loader's state, not its reading of the manifest.
- The loader's checks of unique Lisp names, target and version; its reader's package hardening; case folding of symbols; schema and ABI numbers other than 1.
- The manifest is parsed by a reader written for this model: strings, keywords, integers, nil and lists; unknown keys are ignored as `getf` does.
- ManifestPrinter.RenderManifest: the string literals of the original are pushed token by token and the parameters are printed again instead of kept when the layout breaks; the text is the same.
- Shim.DecodesArguments: numbers are bit patterns and addresses are not aligned; the reading of a pattern as signed or floating is the same on both sides and not modelled.
- Aliases that shadow `u8`, `str` or `bool` where the macro tests for those names, and aliases inside a callback's tuple, whose pointer type is written with the token's primitive on both sides.
- Destructors of the error value and of the arguments, which run as the shim returns.
- Lossy UTF-8 decoding and lower-casing of a response head are one function from bytes to text; the splitter's line search and number parsing are modelled.
- Which lengths of header names and values the http crate refuses, other than the limit on names.
- Identifier hygiene, spans and texts of macro errors, attribute parsing, `camel_to_snake`, the module macro.
- The probe's "once" mode.
- A fetch body that is written to a file instead of the queue, and panics of the task: only the branch that queues chunks.
- FetchStream: a reader that waits may go on at any time, so that a push or a settlement wakes it is not shown; the wait is bounded.
- wasmi, fuel, the read-only directory, descriptor counting, the test server, `rx`, `wordbag`, tools and benchmarks.
