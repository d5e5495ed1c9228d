# Verified models of a diagnostic agent's kernel

The repository is a diagnostic agent: a Rust kernel runs chat turns and asks an operator, through a
Python gateway and a web page, to carry out proxied tool calls.  This project models the parts whose
correctness is hardest to see by reading and proves what they do, for every input and every
interleaving.

* **Proxy tools and sessions** (`ProxySlots`, `TurnLock`, `SessionSystem`, `SessionLives`,
  `CancelSemantics`, with `Scripts` for concrete runs).  The executor, `deliver_proxy_result`,
  `cancel_turn`, the session actor and its workers are one transition system; its theorems hold in
  every state that any schedule of steps reaches.  A *handle* is one allocation of a session: its
  entry, its executor and its pending map.
* **The streaming pipeline** (`Utf8`, `Framing`, `Stream`, `SseParser`, `Assembler`, `AssemblerLaws`,
  `AssemblerReports`, `Printer`, `EndToEnd`).  The printer, the chunked server-sent-events parser (sections 9.2.5 and 9.2.6
  of the WHATWG HTML Standard) and both content-block assemblers, with the round trip through all three.
* **The prompt cache** (`Fnv`, `CachePaths`, `PromptCache`, `CacheRuns`, `CacheInterleavings`).  64-bit FNV-1a
  (draft-eastlake-fnv, section 2), directory names, the completion cache against a log of writes, its
  counters, restarts and concurrent callers.
* **Three smaller cores**: the approval-token ledger (`ApprovalLedger`, `LedgerRuns`), branch-lock
  collisions (`Ordering`, `BranchLock`), and skill-context injection with the chat connection and the
  history endpoint (`SkillContext`, `SkillBlocks`, `Gateway`).

Code that updates state in place appears as classes and loops, each proved against a function on
values; the lemmas are about those functions.  The concurrent protocols appear as state machines whose
actions are the code's steps, cut wherever another task can run in between.

## What is assumed

* `execute` runs to completion, and executes of one session do not overlap: an executor is `&mut self`
  behind the entry lock.  Memory is sequentially consistent.
* Time is not measured in the protocol: a timeout may win a race at any moment.  The cache takes its
  clock readings as parameters.
* `cancel_turn` is cut into reading the shared map, raising the flag and firing the token; that it is
  atomic is an assumption only of the theorems that say so.
* Session ids drawn by a create are fresh; the model allows repeats and the theorems say what follows.
* JSON is a codec with `decode(encode(e)) == e` that prints an event as one line starting with `{` and
  ending with `}`.  Requests carry their serialised bytes.  File writes of the cache succeed.
* Cache counters are unbounded.  Content-block indices are 32-bit, as on the wire.
* A user turn is stored as one text block of role `user`.

## Where the code differs from its comments or from what one would expect

* Comments at `rust/crates/agent-grpc-server/src/session_store.rs:420-431` and
  `rust/crates/agent-grpc-server/src/proxy_executor.rs:151-160` intend `cancel_turn` to end a wait, and a
  new turn to start uncancelled.  From the first turn command on, a cancel fires a token nobody waits on;
  a wait ends by cancel exactly when a cancel read the map before that command and fired after it
  (`CancelWakesIffStraddled`, `PlainCancelLeavesTheWait`, `StraddlingCancelWakes`).  A cancel that read the
  map before the first turn command, whenever it fires, also refuses every later execute of the handle for
  ever (`TokenFiredIffEarlyCancel`, `EarlyCancelShutsForGood`, `TurnCommandReopensIff`).  These laws are for
  session files that carry the requested id: with another id the turn command finds no shared entry to swap
  the token in, and a cancel of the file's id does end the wait (`MismatchedFileCancelWakes`).
* Serial turns, exactly-once delivery and checkpoint numbers hold per handle, and for a session id that is
  allocated once.  `Remove` leaves an unfinished turn its handle, and a resume starts another one under the
  same id with its counters at zero.  What then holds of the session depends on what its earlier handles had
  done by then:
  - turns stay serial if none has a turn left (`DrainedTurnsAreSerial`); with one left, two can run at once
    (`RemovalDuringTurnForks`);
  - instruction ids stay unique, and answers exactly-once, if moreover none ever handed out an id
    (`UnaskedIsExactlyOnce`, `UnaskedRefusesLateDelivery`); once the first card was answered or closed, the
    resumed session can take an answer for the same id again, a late one to the old card included, turns left
    or not (`ResumedRepeatsIds`).  An id is repeated exactly when two handles have each had one answered or
    closed (`IdsRepeatIff`);
  - checkpoint indices stay unique if moreover none ever ended a turn (`UnsavedNeverRepeats`); after one, the
    resumed session can save index 0 again (`ResumedRepeatsCheckpoints`).  An index is repeated exactly when
    two handles have each saved one (`CheckpointsRepeatIff`).

  These are facts about the session manager.  Its one caller of remove closes a session by cancelling, reading
  the usage and then removing (`rust/crates/agent-grpc-server/src/service.rs:254-258`).  Reading the usage takes
  the entry lock, so a turn under way when it is asked for has ended by the removal (`UsageWaitsForTheTurn`);
  two turns at once then need a turn that starts between the two commands.  Repeated ids and checkpoints need
  no such race.
* Frames depend on the chunking exactly when a CR LF CR LF precedes an LF LF (`ChunkingLaw`).
* The evaluation client's assembler reports the wrong tool when tool blocks overlap (`OverlapDiffers`)
  and adds a final stop to a stream without content where the kernel does not (`AssemblersAgree`).
* A lookup under way can delete a completion written after it began (`StaleLookupDropsFreshWrite`), and
  a clock set back can miss an entry the log still answers; exactly when is stated for one caller
  (`AgreesWithLogIff`) and for many (`SharedAgreesWithLogIff`).
* A resumed file that carries another session id leaves the two session maps with different keys
  (`ResumeAgreesIffFileMatches`).
* The gateway offers every active skill for every message, whatever its score, and none only while the
  user has no active skill.  A message typed at such a time leaves the gateway before one that still waits for
  its selection, and nothing else changes the order of leaving (`OvertakesIff`).  The kernel handles each message
  in a task of its own, so turns may run in another order still.  A message with a selection loses the
  attachments it was typed with, its fork reports among them (`ForkReportsKeptIff`).
* The history endpoint returns a wrong text when a skill's rendered text holds the end marker, and
  drops an empty message sent without a block (`HistoryComesBack`).

## Model

| member | source | states |
|---|---|---|
| ProxySlots.StepKeepsInv | rust/crates/agent-grpc-server/src/proxy_executor.rs:101-196 | Every step of the executor and of any number of concurrent deliveries keeps the invariant: ids follow the sequence number, the map holds at most the in-flight id, each channel has one receiver and at most one sender, cards carry the ids of their channels and the newest is the one waited on, and the log of acceptances and outcomes is in order. |
| ProxySlots.InstructionIdInjective | rust/crates/agent-grpc-server/src/proxy_executor.rs:88-91 | An instruction id determines its session id and number: one executor never repeats an id, and ids of different sessions never meet. |
| ProxySlots.InvGivesExactlyOnce | rust/crates/agent-grpc-server/src/proxy_executor.rs:115-232 | From the invariant: a result for an id follows an acceptance for it with that payload, no id is accepted or answered twice, nothing is accepted after an outcome. |
| ProxySlots.ExactlyOnceGivesReply | rust/crates/agent-grpc-server/src/proxy_executor.rs:198-231 | An `Ok` returned to the runtime is a text accepted as output for that id; an operator error is a text accepted as error. |
| ProxySlots.InvGivesSlotOwnership | rust/crates/agent-grpc-server/src/proxy_executor.rs:119-196 | The pending map is empty between executes and holds at most the in-flight id during one; registering overwrites nothing; a wait can never end `Disconnected`. |
| ProxySlots.LateDeliveryRefused | rust/crates/agent-grpc-server/src/session_store.rs:834-863 | Within one executor, a delivery for an id that has its outcome is answered false, whichever of its steps it has reached. |
| ProxySlots.StrayDeliveryRefused | rust/crates/agent-grpc-server/src/session_store.rs:834-842 | A delivery aimed at an instruction of another session is answered false. |
| ProxySlots.InvGivesCards | rust/crates/agent-grpc-server/src/proxy_executor.rs:132-149 | No instruction id stands on two cards, and while an execute waits the newest card carries the id it registered and no other. |
| ProxySlots.UndisturbedDeliveryAccepted | rust/crates/agent-grpc-server/src/session_store.rs:813-864 | An undisturbed delivery of the id on the newest card is answered true and its payload can then win the race. |
| TurnLock.StepKeepsInv | rust/crates/agent-grpc-server/src/session_store.rs:464-537 | Every step of every worker keeps: one lock holder, the sink set exactly during its turn, step indices in step with the checkpoints, published count as logged. |
| TurnLock.InvGivesSerialTurns | rust/crates/agent-grpc-server/src/session_store.rs:464-537 | At most one turn holds the entry, checkpoints are 0, 1, 2, ..., the sink is the running turn's sender. |
| TurnLock.StepTracks | rust/crates/agent-grpc-server/src/session_store.rs:509-531 | Each step keeps the entry in line with the work done on it: checkpoints carry the counts the turns ended with, in order, and the published count is that of the last turn that released the lock. |
| SessionSystem.StepKeepsAgree | rust/crates/agent-grpc-server/src/session_store.rs:368-407 | At each point inside each actor command the live map, the shared map and the counter are related as that point requires. |
| SessionSystem.StepKeepsRefs | rust/crates/agent-grpc-server/src/session_store.rs:420-442 | Tokens are never shared by two executors; a shared-map entry names an executor's own token only before that session's first turn command; a cancel under way can hold it only if it looked before that. |
| SessionSystem.StepKeepsWakes | rust/crates/agent-grpc-server/src/session_store.rs:866-880 | A wait sees its token fire, and an execute ends `Cancelled`, only on a session where a cancel straddled the first turn command. |
| SessionSystem.RunKeepsLocal | rust/crates/agent-grpc-server/src/session_store.rs:337-537 | Every schedule keeps every handle's executor and worker invariants, with executes only inside a running turn. |
| SessionSystem.RunKeepsSafe | rust/crates/agent-grpc-server/src/session_store.rs:337-880 | Every schedule with matching session files keeps the handle, map, token and wake-up invariants together. |
| SessionSystem.DeliveryIsExactlyOnce | rust/crates/agent-grpc-server/src/session_store.rs:813-864 | In every interleaving of actor, workers, executors, cancels and deliveries, per handle: exactly-once delivery, slot ownership, no `Disconnected` outcome. |
| SessionSystem.CardsNameTheWait | rust/crates/agent-grpc-server/src/proxy_executor.rs:132-149 | In every interleaving the newest card of a waiting handle names the instruction it waits on, and no id stands on two of its cards. |
| SessionSystem.AnswerToCardAccepted | rust/crates/agent-grpc-server/src/session_store.rs:813-864 | In every interleaving an undisturbed first answer to the newest card of a waiting handle is accepted and can win the race. |
| SessionSystem.RepliesAreDelivered | rust/crates/agent-grpc-server/src/proxy_executor.rs:171-232 | In every interleaving, operator text an execute returns was accepted earlier by its handle for its id, output as output and error as error. |
| SessionSystem.TurnsAreSerial | rust/crates/agent-grpc-server/src/session_store.rs:464-537 | In every interleaving, per handle: one turn at a time, checkpoint indices 0, 1, 2, ... each once, sink and executes only inside the running turn. |
| SessionSystem.CountsArePublished | rust/crates/agent-grpc-server/src/session_store.rs:509-531 | In every interleaving, read off the schedule: a handle publishes the count its last turn to release the lock ended with, or its initial one, and checkpoint k carries the count turn k ended with. |
| SessionSystem.MapsAgree | rust/crates/agent-grpc-server/src/session_store.rs:554-601 | Between commands the live map, the shared map and `active_count` agree; resuming a live session changes nothing and reports the count its last finished turn ended with, or the initial one. |
| SessionSystem.ResumeAgreesIffFileMatches | rust/crates/agent-grpc-server/src/session_store.rs:612-735 | A resume from disk leaves equal key sets if and only if the file carries the requested id. |
| SessionSystem.NewSessionReports | rust/crates/agent-grpc-server/src/session_store.rs:391-407 | A created session reports no messages, a loaded one those of its file, and the counter follows. |
| SessionSystem.RemoveForgets | rust/crates/agent-grpc-server/src/session_store.rs:554-572 | Remove takes the session and nothing else out of both maps; later deliveries and cancels find no session. |
| SessionSystem.StepKeepsOwn | rust/crates/agent-grpc-server/src/session_store.rs:337-348 | Until a session's first turn command its shared entry, and every cancel that read it, hold the executor's own token; that token has fired exactly when such a cancel has. |
| SessionSystem.CancelWakesIffStraddled | rust/crates/agent-grpc-server/src/session_store.rs:420-442 | In every reachable state after a session's first turn command no shared entry holds its executor's token; a wait can end by cancel if and only if a cancel straddled that command, and without one no execute ever ended so. |
| SessionSystem.TokenFiredIffEarlyCancel | rust/crates/agent-grpc-server/src/session_store.rs:866-880 | In every reachable state the executor's own token has fired if and only if a cancel that read the map before the first turn command has fired. |
| SessionLives.TwoHandlesIffReborn | rust/crates/agent-grpc-server/src/session_store.rs:391-402 | In every run two handles carry one session id if and only if the schedule allocates it twice. |
| SessionLives.RebornNeedsRemove | rust/crates/agent-grpc-server/src/session_store.rs:554-602 | Between two allocations of a session id lies its removal, or the second is a create under an id already used. |
| SessionLives.SessionIsExactlyOnce | rust/crates/agent-grpc-server/src/session_store.rs:813-864 | For a session id allocated once, across all handles of the kernel: at most one acceptance and one outcome per instruction id, in the same handle, and no acceptance after the outcome. |
| SessionLives.SessionRefusesLateDelivery | rust/crates/agent-grpc-server/src/session_store.rs:813-864 | For a session id allocated once, a delivery for an instruction that has its outcome is refused whichever handle it reaches. |
| SessionLives.SessionTurnsAreSerial | rust/crates/agent-grpc-server/src/session_store.rs:464-537 | For a session id allocated once, over all handles: one turn at a time, checkpoints 0, 1, 2, ... each once. |
| SessionLives.DrainedTurnsAreSerial | rust/crates/agent-grpc-server/src/session_store.rs:464-602 | A session id may be allocated repeatedly and its turns stay serial over all its handles, if at each allocation no earlier handle has a turn queued or under way. |
| SessionLives.IdsRepeatIff | rust/crates/agent-grpc-server/src/session_store.rs:664-731 | In every run an instruction id of a session is answered or closed in two handles if and only if two handles of the session have each had one answered or closed. |
| SessionLives.UnaskedIsExactlyOnce | rust/crates/agent-grpc-server/src/session_store.rs:813-864 | If at each allocation no earlier handle has a turn left or ever handed out an id, then across all handles an instruction id is answered and closed in one handle only, at most once each, the answer first. |
| SessionLives.UnaskedRefusesLateDelivery | rust/crates/agent-grpc-server/src/session_store.rs:813-864 | Under the same condition a delivery for an instruction that has its outcome is refused whichever handle it reaches. |
| SessionLives.CheckpointsRepeatIff | rust/crates/agent-grpc-server/src/session_store.rs:482-515 | In every run a checkpoint index of a session is saved in two handles if and only if two of its handles have each saved one. |
| SessionLives.UnsavedNeverRepeats | rust/crates/agent-grpc-server/src/session_store.rs:482-515 | If at each allocation no earlier handle has a turn left or ever ended one, no checkpoint index of the session is saved in two handles. |
| SessionLives.RemovalDuringTurnForks | rust/crates/agent-grpc-server/src/session_store.rs:554-735 | From every reachable state in which a live session has a turn queued or under way, removing and resuming it can lead to two turns of that session at once. |
| SessionLives.ResumedRepeatsIds | rust/crates/agent-grpc-server/src/session_store.rs:664-731 | From every reachable state with a live session, remove, resume, turn, card and answer lead to a second handle that accepts instruction 1 while the others stay as they were; if the first had one answered or closed, the id is answered or closed twice. |
| SessionLives.ResumedRepeatsCheckpoints | rust/crates/agent-grpc-server/src/session_store.rs:717-731 | From every reachable state with a live session, remove, resume and a whole turn lead to a second handle that saves checkpoint 0; if the first had saved one, the index is saved twice. |
| SessionLives.UsageWaitsForTheTurn | rust/crates/agent-grpc-server/src/session_store.rs:539-553 | A turn under way when the usage is asked for has finished, its execute too, whenever the entry lock is free to read it. |
| SessionLives.RemovedAndResumedForks | rust/crates/agent-grpc-server/src/session_store.rs:554-735 | A reachable run with two turns of one session at once, both waiting under the same instruction id, and an answer accepted for it twice. |
| CancelSemantics.CancelGate | rust/crates/agent-grpc-server/src/proxy_executor.rs:106-115 | From a cancel until the session's next turn command, or for ever once the executor's own token has fired, every check is refused and sequence number, pending map, channels and dispatched cards stay as they were. |
| CancelSemantics.TurnCommandReopensIff | rust/crates/agent-grpc-server/src/session_store.rs:416-442 | In every reachable state a turn command lifts the gate if and only if no early cancel of the session has fired. |
| CancelSemantics.AtomicNeverStraddles | rust/crates/agent-grpc-server/src/session_store.rs:866-880 | If every `cancel_turn` that finds its session is atomic, no run has a straddling cancel; cancels of absent sessions may occur anywhere. |
| CancelSemantics.AtomicCancelNeverWakes | rust/crates/agent-grpc-server/src/proxy_executor.rs:161-191 | With atomic cancels no wait is ever woken by a cancel, although the race has an arm for it. |
| CancelSemantics.StraddlingCancelWakes | rust/crates/agent-grpc-server/src/session_store.rs:866-880 | A reachable run in which a cancel read before and fired after the first turn command wakes a wait. |
| CancelSemantics.PlainCancelLeavesTheWait | rust/crates/agent-grpc-server/src/session_store.rs:866-880 | A reachable run in which a completed cancel leaves a wait going, flag up and token not fired. |
| CancelSemantics.EarlyCancelShutsForGood | rust/crates/agent-grpc-server/src/session_store.rs:420-426 | A reachable run in which a cancel over before the first turn command leaves every later execute refused, whatever happens next. |
| CancelSemantics.MismatchedFileCancelWakes | rust/crates/agent-grpc-server/src/session_store.rs:432-436 | A reachable run with a file of another id in which a whole cancel after the first turn command ends a wait. |
| Utf8.DecodeOfEncode | rust/crates/api/src/sse.rs:78-78 | Lossy UTF-8 decoding undoes encoding for every string. |
| Utf8.StrayByteIsReplaced | rust/crates/api/src/sse.rs:78-78 | A byte that cannot start a character becomes one replacement character. |
| Utf8.InterruptedIsReplaced | rust/crates/api/src/sse.rs:78-78 | An interrupted character becomes one replacement character and what interrupts it is read anew. |
| Framing.DrainConserves | rust/crates/api/src/sse.rs:59-79 | Drained frames, their separators and what stays in the buffer are the bytes that were there. |
| Framing.ChunksConserve | rust/crates/api/src/sse.rs:28-39 | The same for any stream pushed in any chunks. |
| Framing.SplitAfterCrlfDiffers | rust/crates/api/src/sse.rs:60-70 | Cutting right after a CR LF CR LF that precedes an LF LF gives other frames than one push. |
| Framing.ChunkingLaw | rust/crates/api/src/sse.rs:28-79 | All chunkings of a stream give the same frames and leftover if and only if no CR LF CR LF precedes an LF LF in it. |
| SseParser.ParseFrame | rust/crates/api/src/sse.rs:86-128 | The line loop computes `FrameEvent`, about which the next two laws are proved. |
| SseParser.FrameMeaning | rust/crates/api/src/sse.rs:112-127 | A frame means nothing if and only if its last event name is `ping`, it has no data, or its data is `[DONE]`; otherwise what its data lines, trimmed and joined in order, decode to, and an error carries them. |
| SseParser.LinesCutAtBreaks | rust/crates/api/src/sse.rs:99-99 | Lines end at LF or CR LF, neither of which belongs to the line. |
| SseParser.CommentsChangeNothing | rust/crates/api/src/sse.rs:99-110 | Frames whose lines differ only in comment lines mean the same. |
| SseParser.Parser.NextFrame | rust/crates/api/src/sse.rs:59-79 | Takes the next cut off the buffer and returns its decoded text. |
| SseParser.Parser.Push | rust/crates/api/src/sse.rs:28-39 | The events and the buffer after a push are those of draining buffer plus chunk, stopping at the first frame that does not parse. |
| SseParser.FailedPushLeavesRest | rust/crates/api/src/sse.rs:32-36 | A failed push reports the first frame that does not parse; that frame is gone, everything behind it is still buffered, and the events before it are lost. |
| SseParser.Parser.Finish | rust/crates/api/src/sse.rs:41-51 | Empties the buffer and returns what its text means as one last frame. |
| SseParser.PushChunksIsDrain | rust/crates/api/src/sse.rs:28-39 | If all frames parse, pushing chunks one by one gives the events and leftover of draining them chunk by chunk. |
| SseParser.ChunkedEvents | rust/crates/api/src/sse.rs:28-39 | A stream without a CR LF CR LF before an LF LF, whose frames parse, gives the same events and leftover under every chunking. |
| Assembler.StreamAndCollect | rust/crates/agent-grpc-server/src/real_client.rs:196-305 | The loop over pending tools and thoughts computes `Collect`, about which the assembler laws are proved. |
| Assembler.PushOutputBlock | rust/crates/agent-grpc-server/src/real_client.rs:309-342 | One content block is pushed as the indexed state says: text, pending tool, pending thought, or nothing. |
| Assembler.ConsumeStream | rust/crates/agent-eval/src/main.rs:106-184 | The single-slot loop computes `Consume`. |
| AssemblerLaws.AssemblersAgree | rust/crates/agent-eval/src/main.rs:115-183 | When one tool block is open at a time, the indexed assembler without thoughts equals the single-slot one if and only if there is a `message_stop` or content; otherwise the latter has one more stop. |
| AssemblerLaws.OverlapDiffers | rust/crates/agent-eval/src/main.rs:115-183 | With overlapping tool blocks the two assemblers disagree. |
| AssemblerLaws.InterleavingIndependent | rust/crates/agent-grpc-server/src/real_client.rs:207-305 | Any reordering that keeps each block's own order and the order of events with output leaves the result unchanged. |
| AssemblerLaws.ToolInputIsItsFragments | rust/crates/agent-grpc-server/src/real_client.rs:212-294 | A completed tool's input is its initial input followed by the fragments of its own index, whatever is interleaved. |
| AssemblerReports.CollectReports | rust/crates/agent-grpc-server/src/real_client.rs:207-305 | For every stream the kernel's assembler reports exactly the non-empty texts (starts, deltas and `message_start` blocks), the usages and the stops, in order, plus one stop if there was none and something was said or called. |
| AssemblerReports.ConsumeReports | rust/crates/agent-eval/src/main.rs:115-183 | For every stream the evaluation client reports the same without `message_start`, and always ends in a stop. |
| AssemblerReports.GatheredOnlyAtStop | rust/crates/agent-grpc-server/src/real_client.rs:280-292 | Tools and thoughts are reported only when their block stops, and a stop of a block with neither changes nothing. |
| AssemblerReports.ThoughtIsItsFragments | rust/crates/agent-grpc-server/src/real_client.rs:255-286 | A completed thought is its initial text and the thought fragments of its index, signed with its initial signature and the signature fragments of its index, whatever is interleaved. |
| Printer.AppendSse | rust/crates/mock-anthropic-service/src/lib.rs:1044-1049 | Appends one event's frame to what was printed before. |
| Printer.AppendDeltas | rust/crates/mock-anthropic-service/src/lib.rs:884-894 | The fragment loop prints one delta per fragment, in order. |
| Printer.AppendTool | rust/crates/mock-anthropic-service/src/lib.rs:870-902 | Prints one tool's start, fragments and stop. |
| Printer.AppendTools | rust/crates/mock-anthropic-service/src/lib.rs:869-903 | The tool loop prints every tool under its position. |
| Printer.ToolUsesSse | rust/crates/mock-anthropic-service/src/lib.rs:846-915 | The body is the printing of the opening, every tool's block under its position, usage and stop. |
| EndToEnd.FrameRoundTrip | rust/crates/mock-anthropic-service/src/lib.rs:1044-1049 | A printed frame parses back to its event. |
| EndToEnd.FrameTellsItsKind | rust/crates/mock-anthropic-service/src/lib.rs:1044-1049 | A printed frame carries the wire name of the event's kind and the event's object. |
| EndToEnd.PrintParse | rust/crates/api/src/sse.rs:28-128 | Any list of events, printed and cut into any byte chunks, parses back exactly with an empty buffer. |
| EndToEnd.CollectTools | rust/crates/agent-grpc-server/src/real_client.rs:207-305 | The kernel's assembler turns the events of a tool list into the calls with joined fragments, then usage, then stop. |
| EndToEnd.ConsumeTools | rust/crates/agent-eval/src/main.rs:115-183 | So does the evaluation client's. |
| EndToEnd.ToolsSurviveTheWire | rust/crates/mock-anthropic-service/src/lib.rs:846-915 | Any list of tool uses with any fragments, printed, cut anywhere, parsed and assembled by either assembler gives exactly those calls in order, then usage, then stop. |
| Fnv.StableHashBytes | rust/crates/api/src/prompt_cache.rs:492-499 | The loop computes the 64-bit FNV-1a hash. |
| Fnv.HashOfNothing | rust/crates/api/src/prompt_cache.rs:16-16 | The hash of no bytes is the published offset basis. |
| Fnv.HashOfLetter | rust/crates/api/src/prompt_cache.rs:492-499 | The hash of "a" is the published FNV-1a value. |
| Fnv.MixInjective | rust/crates/api/src/prompt_cache.rs:494-497 | One hash step is injective in the running hash and in the byte. |
| Fnv.OneByteEditChangesHash | rust/crates/api/src/prompt_cache.rs:492-499 | Byte strings that differ in exactly one byte never hash alike. |
| CachePaths.SegmentIsSafe | rust/crates/api/src/prompt_cache.rs:447-461 | A segment holds only letters, digits and dashes; a long id's segment has exactly 80 characters. |
| CachePaths.SegmentShowsTheId | rust/crates/api/src/prompt_cache.rs:447-460 | A segment shows the id with a dash for every other character: all of a short one, at least 63 characters of a long one. |
| CachePaths.LongSegmentsCarryTheHash | rust/crates/api/src/prompt_cache.rs:455-460 | Long ids share a segment only if their hashes collide. |
| CachePaths.OneByteEditChangesSegment | rust/crates/api/src/prompt_cache.rs:447-465 | Long ids one byte apart get different segments. |
| CachePaths.ShortSegmentsShared | rust/crates/api/src/prompt_cache.rs:447-454 | Short ids share a segment exactly when they differ only in replaced characters. |
| PromptCache.KeyShape | rust/crates/api/src/prompt_cache.rs:435-440 | A key is `v1-` and sixteen hexadecimal digits that read back to the hash of the whole request. |
| PromptCache.KeysEqualIff | rust/crates/api/src/prompt_cache.rs:435-445 | Two requests share a key if and only if their whole serialised bytes hash alike. |
| PromptCache.EditIsNamed | rust/crates/api/src/prompt_cache.rs:314-382 | A break after a one-byte edit of one part names that part and no other. |
| PromptCache.VersionChangeIsExpected | rust/crates/api/src/prompt_cache.rs:314-335 | A prompt tracked under another fingerprint version always gives an expected break. |
| PromptCache.Store.WithConfig | rust/crates/api/src/prompt_cache.rs:120-132 | Opening reads counters and previous prompt from their files. |
| PromptCache.Store.PersistState | rust/crates/api/src/prompt_cache.rs:398-404 | Writes counters, and the previous prompt if there is one. |
| PromptCache.Store.LookupCompletion | rust/crates/api/src/prompt_cache.rs:145-193 | Answer and whole new state of a lookup: miss, stale or expired entry deleted and counted, or hit counted. |
| PromptCache.Store.RecordUsageInternal | rust/crates/api/src/prompt_cache.rs:209-243 | Answer and whole new state of a record: break detected and counted, usage tracked, response stored, state persisted. |
| CacheRuns.EntriesExactly | rust/crates/api/src/prompt_cache.rs:145-193 | After any run under any clock the stored entry is the newest write, unless a lookup since has seen that write unusable. |
| CacheRuns.RequestsAreSeparate | rust/crates/api/src/prompt_cache.rs:145-193 | Recording a request anywhere in a run never changes the answer to one whose bytes are one byte away, and requests with equal bytes always get the same answer. |
| CacheRuns.LastFiguresTell | rust/crates/api/src/prompt_cache.rs:384-396 | What each operation leaves in the reported last tokens, source, request, key and break reason. |
| CacheRuns.AgreesWithLogIff | rust/crates/api/src/prompt_cache.rs:145-193 | A lookup answers as a plain log of writes exactly when the newest write is not both usable now and seen unusable since it was written. |
| CacheRuns.LookupAgreesWithLog | rust/crates/api/src/prompt_cache.rs:145-193 | With a clock that never goes back a lookup hits exactly when the newest write has version 1 and is younger than the time to live, and returns it. |
| CacheRuns.ClockSetBackMisses | rust/crates/api/src/prompt_cache.rs:170-178 | With the clock set back the cache can miss where the log answers. |
| CacheRuns.RestartsAreInvisible | rust/crates/api/src/prompt_cache.rs:120-132 | Re-opening the cache between any operations changes neither state nor answers. |
| CacheRuns.BreaksCompareWithNewest | rust/crates/api/src/prompt_cache.rs:209-231 | After any run a record is compared with the newest prompt that was recorded or answered from the cache. |
| CacheRuns.RepeatedPromptBreaks | rust/crates/api/src/prompt_cache.rs:314-382 | After any run, recording the newest prompt again reports a break if and only if the drop reaches the minimum, and an unexpected one if and only if within the prompt's time to live. |
| CacheRuns.EditedPromptBreaks | rust/crates/api/src/prompt_cache.rs:314-382 | After any run, recording a prompt one byte away from the newest in model, system, tools or messages never reports an unexpected break. |
| CacheRuns.HitsWereRecorded | rust/crates/api/src/prompt_cache.rs:145-193 | With any number of interleaved callers a hit returns only what was recorded earlier for that key, or was on disk at the start. |
| CacheRuns.StaleLookupDropsFreshWrite | rust/crates/api/src/prompt_cache.rs:145-193 | A lookup that read an expired entry deletes the fresh one written before it finished. |
| CacheInterleavings.SharedEntriesExactly | rust/crates/api/src/prompt_cache.rs:145-193 | In every interleaving the entry under a key is the newest one stored, unless a lookup that had read an unusable entry, from whichever store, ended since. |
| CacheInterleavings.SharedAgreesWithLogIff | rust/crates/api/src/prompt_cache.rs:145-193 | In every interleaving a lookup answers as the log of writes stood at its own begin if and only if the newest store of then is not both usable now and dropped by a lookup before. |
| CacheRuns.CountersConserve | rust/crates/api/src/prompt_cache.rs:215-242 | Over every interleaving, restarts included: hits plus misses are lookups, writes are recorded responses, expected and unexpected breaks are each what the records reported, token totals are sums over hits and records. |
| ApprovalLedger.BuiltAsCalled | rust/crates/runtime/src/approval_tokens.rs:133-184 | What a chain of builder calls sets: granted once approved, the latest deadline, the latest maximum but at least one, the hops in order. |
| ApprovalLedger.AuditIsTraceable | rust/crates/runtime/src/approval_tokens.rs:314-345 | An audit extends the recorded chain, opens with the approver's grant if there was none, and names a delegated executor, with at most two added hops. |
| ApprovalLedger.Ledger.Insert | rust/crates/runtime/src/approval_tokens.rs:218-220 | The new ledger is the old one with the grant under its token. |
| ApprovalLedger.Ledger.Revoke | rust/crates/runtime/src/approval_tokens.rs:227-234 | New ledger and answer of a revocation. |
| ApprovalLedger.Ledger.Verify | rust/crates/runtime/src/approval_tokens.rs:236-249 | Answer of a verification; the ledger is untouched. |
| ApprovalLedger.Ledger.Consume | rust/crates/runtime/src/approval_tokens.rs:251-268 | New ledger and answer of a consumption; the use counter cannot overflow. |
| LedgerRuns.LedgerFollowsHistory | rust/crates/runtime/src/approval_tokens.rs:212-312 | After any history a token's record is its newest insert with the fitting requests since then spent, up to the budget, and revoked if a revocation followed. |
| LedgerRuns.ConsumeDecided | rust/crates/runtime/src/approval_tokens.rs:251-312 | A request is accepted if and only if the newest insert was granted, is not revoked since, fits the request, and has more uses than fitting requests came before. |
| LedgerRuns.AnswersDecided | rust/crates/runtime/src/approval_tokens.rs:236-345 | After any history, what every verify and consume is told: no approval, or the first objection in order with both scopes or both actors, or an audit with the grant's data and its count of uses. |
| LedgerRuns.RevocationTells | rust/crates/runtime/src/approval_tokens.rs:227-234 | A revocation answers with an audit of the record, now revoked, for its executor. |
| LedgerRuns.RevokedStaysRefused | rust/crates/runtime/src/approval_tokens.rs:227-234 | After a revocation every verify and consume is refused until the token is inserted again. |
| LedgerRuns.UsesAreAcceptances | rust/crates/runtime/src/approval_tokens.rs:262-265 | The use counter is the count at insertion plus the accepted requests since. |
| LedgerRuns.BudgetIsKept | rust/crates/runtime/src/approval_tokens.rs:133-184 | For grants made by any chain of builder calls, accepted requests between two inserts equal `uses` and never exceed `max_uses`, which is at least one. |
| LedgerRuns.VerifyForetellsConsume | rust/crates/runtime/src/approval_tokens.rs:236-268 | Verify changes nothing and succeeds exactly when consume would, with the same objection otherwise. |
| LedgerRuns.DifferentTokensCommute | rust/crates/runtime/src/approval_tokens.rs:218-268 | Operations on different tokens commute and do not change each other's answers. |
| LedgerRuns.TokensAreIsolated | rust/crates/runtime/src/approval_tokens.rs:218-268 | A token's record and every answer about it depend only on the operations that name it. |
| Ordering.Canonical | rust/crates/runtime/src/branch_lock.rs:41-48 | A strictly increasing sequence is determined by its elements. |
| BranchLock.OverlapIsMeeting | rust/crates/runtime/src/branch_lock.rs:65-77 | Modules overlap exactly when one's '/'-separated components are a prefix of the other's, and the shared scope is the shorter. |
| BranchLock.OverlappingModules | rust/crates/runtime/src/branch_lock.rs:51-63 | Strictly sorted, and holds exactly the scopes some module of each side share. |
| BranchLock.DetectBranchLockCollisions | rust/crates/runtime/src/branch_lock.rs:23-49 | Strictly sorted by branch, module and lanes, and holds exactly the collisions of same-branch pairs, earlier lane first. |
| BranchLock.ReportIsCanonical | rust/crates/runtime/src/branch_lock.rs:41-48 | There is only one such report for given intents. |
| BranchLock.ReportIsOrdered | rust/crates/runtime/src/branch_lock.rs:41-46 | Entries are ordered by branch, then scope, then first lane, then second lane, each by code point. |
| BranchLock.AddingKeepsCollisions | rust/crates/runtime/src/branch_lock.rs:23-39 | Adding an intent at any place never removes a collision. |
| SkillContext.BuildContextFromIds | skills/simple_matcher.py:230-260 | The loop builds the block of the selected skills, case file before knowledge file before database, unknown ids skipped, nothing for no ids. |
| SkillContext.BuildContext | rust/crates/agent-grpc-server/src/skill_engine.rs:352-390 | The loop builds the block of the matched skills, rendered from the last loaded skill of each id. |
| SkillBlocks.KernelBlockHolds | rust/crates/agent-grpc-server/src/skill_engine.rs:362-385 | The kernel's block has one part per matched id, in order: the name, content, category (of a case) and description (if any) of the last skill loaded under it; unknown ids add nothing. |
| SkillBlocks.BlockHoldsContent | rust/crates/agent-grpc-server/src/skill_engine.rs:362-389 | The text of the block holds the content of the last skill loaded under each matched id. |
| SkillBlocks.GatewayBlockHolds | skills/simple_matcher.py:238-258 | The gateway's block has one part per selected id, in order: the case file's text, else the knowledge file's, else the database skill's fields with their fallbacks, else nothing. |
| SkillContext.InjectedLooksLike | rust/crates/agent-grpc-server/src/session_store.rs:472-476 | An injected message is the header, an empty line, the block's lines, the end marker, a rule between empty lines, and the text. |
| SkillContext.SelectionInOrder | rust/crates/agent-grpc-server/src/skill_engine.rs:285-297 | Selection goes through the ids one by one, in order. |
| SkillContext.SelectionIsKnown | rust/crates/agent-grpc-server/src/skill_engine.rs:285-297 | Selection keeps exactly the ids that are known, and each renders. |
| SkillContext.StripUndoesInjection | python/server.py:735-744 | The history endpoint returns the text before injection if and only if no rendered line holds the end marker. |
| SkillContext.StripKeepsPlainText | python/server.py:735-744 | A text sent without a block comes back unchanged if and only if it does not start with the header and hold the end marker. |
| Gateway.Connection.Receive | python/server.py:1250-1375 | Pending message, kernel traffic and replies after each inbound message of a connection. |
| Gateway.PendingIsWaiting | python/server.py:1276-1354 | After any traffic the pending slot holds exactly the one matched message that no selection, cancel or newer matched message has ended. |
| Gateway.SentExactly | python/server.py:1276-1349 | An event sends a chat message to the kernel exactly when a typed message leaves there, and sends that message with its selection. |
| Gateway.RepliesExactly | python/server.py:1279-1375 | Which events forward a cancel or a result, and which of the three replies each event gets. |
| Gateway.LeavesOnce | python/server.py:1307-1349 | No message reaches the kernel twice and no event hands over two. |
| Gateway.OvertakesIff | python/server.py:1276-1349 | Of two messages that both leave the gateway, the later leaves first if and only if no skills were offered for it and the earlier was still waiting. |
| Gateway.UnofferedOvertakesWaiting | python/server.py:1276-1306 | It happens, when the user's active skills are emptied between two messages. |
| Gateway.ForkReportsPrecedeText | rust/crates/agent-grpc-server/src/service.rs:446-472 | Without fork attachments the text is what was typed; otherwise it ends with what was typed unless that is blank. |
| Gateway.ForkReportsReachText | rust/crates/agent-grpc-server/src/service.rs:446-472 | The task and the content of every fork report stand in the turn's text. |
| Gateway.SelectionOverridesMatcher | rust/crates/agent-grpc-server/src/service.rs:479-507 | With the marker the kernel takes the known selected ids, and nothing for none; without it, what its matcher finds. |
| Gateway.SelectedIdsAreTheRows | rust/crates/agent-grpc-server/src/service.rs:485-490 | The selected ids are the contents of the selection rows, in order. |
| Gateway.TurnHoldsSkills | rust/crates/agent-grpc-server/src/service.rs:509-526 | The turn's text holds the content of every skill the kernel matched for it. |
| Gateway.ForkReportsKeptIff | python/server.py:1307-1348 | A leaving message keeps its fork reports if and only if it has none or no skills were offered for it. |
| Gateway.AtMostOneBlock | rust/crates/agent-grpc-server/src/service.rs:441-526 | Over any traffic, gateway and kernel together prepend at most one block: the turn runs with that block, or none, and the operator's text. |
| Gateway.SessionHistory | python/server.py:703-748 | The loop computes the messages shown, `user` messages stripped and empty ones dropped. |
| Gateway.TurnComesBack | python/server.py:735-744 | One stored turn is shown with its text if and only if its block, or the bare text, is recoverable. |
| Gateway.HistoryComesBack | python/server.py:703-748 | A whole conversation is returned as typed and said, nothing lost or left over, if and only if every operator turn is recoverable. |
| Gateway.TrafficComesBack | python/server.py:703-748 | For any traffic and any order its turns run in, they are stored as the texts gateway and kernel made, and the history shows exactly their texts in that order if and only if every turn is recoverable. |

## Left out

- AssemblerLaws.AssemblersAgree: that tool blocks do not overlap is a sufficient condition only; streams with overlapping blocks can still agree by coincidence of ids and fragments.
- Printer.ToolUsesSse: bounded by 2^32 tools, because block indices are 32-bit for the reader.
- ProxySlots.ExactlyOnceGivesReply: the text of a failed dispatch omits the channel's own error detail.
- SessionSystem.CancelWakesIffStraddled: speaks of the executor's wait; the runtime's own use of the flag and token inside `run_turn` is not modelled.
- Liveness: no claim that a wait ends, that turns run in command order, or that a reconnecting client receives every card.
- The order of the race: `select!` prefers cancel to result to timeout; the model lets any ready arm win.
- `run_turn`, sessions, persistence back ends, checkpoints on disk and `GetUsage`: opaque steps or absent.
- `emit` and the forwarding of events, cards and timeouts to clients, and the cards' contents.
- Skill scoring and matching, whose two implementations use different word rules; file skills enter with their rendered text.
- Reading of session files line by line and of JSON records: the history works on parsed messages.
- Provider clients, gRPC, HTTP, WebSocket and file plumbing, authentication, logging and configuration.
- The user interface, the databases, archived code, scripts, hooks, shell execution and generated stubs.
