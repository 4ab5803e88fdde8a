# Verified models of the WAPI runtimes

Dafny models of the parts of this repository that are state machines, codecs or numeric kernels, with
proofs about every input and every run:

- **I/O engine of the service worker** (`GuestMemory`, `IoLedger`, `IoEngine`, `IoLosses`, `IoCompletions`, class
  `SwHost`): submit, host callbacks in any order, poll, wait, cancel, flush, over a byte-level guest memory; what
  becomes of every op, and what can be lost and what cannot.
- **C# completion dispatch on top of it** (`IoDispatch`): tokens, the callback dictionary, re-entrant submits.
- **makeWasmFunc** (`WasmFunc`): its bytes against a decoder written from sections 5.2 to 5.5 of the
  WebAssembly Core Specification 1.0.
- **Service manager** (`ServiceManager`, `ServiceJoins`, class `ServiceWorker`): joins with one step per `await`, handles,
  reference counts, removal.
- **Announced services** (`ServiceRegistry`): heartbeats, expiry, list and statistics, keys.
- **Base64 transport** (`Base64`): section 4 of RFC 4648, with the browser's forgiving decoder.
- **Tracker** (`Adsr`, `Waveforms`, `Tracker`, `TrackerLaws`): the envelope, the oscillators, and the chunked renderer.
- **Game** (`FixedStep`, `Ai`, `Enemies`, `Music`, `Sprites`): the time accumulator, the enemy table, music
  streaming and sprite batching.
- **Guest bump allocator** (`BumpHeap`, `BumpRealloc`, `BumpLayout`, class `BumpAllocator`): headers and data in one
  wrapping 32-bit memory.
- **Shared-memory borrows** (`Borrow`, `BorrowAnswers`, class `SharedMemory`): the reader-writer protocol the header
  promises.

Where the source updates objects, globals or arrays, a class has those fields and each method is proved equal
to a step of a specification function; the theorems are about all sequences of such steps. Floating point is
modelled by the reals. The proofs found these places where the code does not do what its comments or headers
say, or fails in a family of inputs; each is stated exactly:

- The worker's engine loses a completion when the guest has grown its memory since the last view refresh, the
  callback reports through a result pointer, and it stores no payload (`IoEngine.CompletesUnlessViewsAreStale`);
  `IoLosses.LosesExactly` lists all the steps that lose anything, by guards on the state before them, and
  `IoLosses.RunLosesExactly` the runs.
- `makeWasmFunc` is right exactly for signatures of at most 123 parameters and results
  (`WasmFunc.DecodesExactlyWhenShort`).
- Two joins of one service whose byte lookups overlap both register; the second record overwrites the first, and
  when the first user leaves, the second user's service is torn down (`ServiceManager.OverlapTearsDown`;
  `ServiceManager.TidyExactly` says exactly which steps break uniqueness). The comment calls the early error a
  cycle check, but every join gets it between the moment another join of the key starts to compile and the first
  moment one of them ends (`ServiceManager.LoopErrorExactly`).
- `bump_alloc` wraps 32-bit addresses silently: an allocation that is not refused is sound exactly when the exact
  end of the block is below 4 GiB (`BumpHeap.SoundExactlyWhenItFits`), and a request of 4 GiB on any heap with room for
  a header is granted with not one byte reserved (`BumpHeap.HugeRequestIsGranted`).
- A memory of 4 GiB reads as empty in 32 bits, so that `bump_alloc` refuses every block but one that ends in the last
  page (`BumpLayout.FullMemoryRefuses`).
- `bump_realloc` reads the size 16 bytes below the data: the block's size if no padding lies between header and
  data, its alignment if eight bytes do, and 0 from the padding itself if more do (`BumpRealloc.SizeFound`). Blocks
  asked for with alignments up to 8 never have padding, so on every run they keep their data
  (`BumpRealloc.SmallAlignmentsSurvive`); any other block does exactly when whatever is not copied is zero
  (`BumpRealloc.ReallocOnRunsExactly`). `BumpRealloc.DataIsLost` and `BumpRealloc.DataIsLostFromAlignedBase` are losses.
- A frame that finds less than five steps owed catches up; one that finds more than eight throws time away; in
  between the debt is carried into the next frame (`FixedStep.KeepsUpExactly`).
- The renderer promises the number of contributing notes and returns the number of note-chunk pairs, which is the
  same exactly when no chunk boundary falls inside a note (`Tracker.ResultCountsNotesExactly`); the pairs include
  empty notes that are never heard (`Tracker.OverlapsExactly`).
- The envelope has a jump exactly when a ramp of length zero has a height to cover: at note-on, at the peak or at
  note-off (`Adsr.SmoothExactly`).
- The event layout and the opcode, event and error numbers follow `runtime/browser/sw_host.js`; they differ from
  `include/wapi/wapi.h`, lines 128-160 and 1290-1306. The "soft clip" of `examples/hello_game/tracker.c:248` is
  a hard clip. The error bound claimed for the sine at lines 42-43 of that file is false at both ends of its range
  (`Waveforms.SineMissesAtPi`). The header of
  the borrow protocol says both that the application always succeeds and that a lender loses access; the
  application always succeeds here.

## Model

| member | source | states |
|---|---|---|
| IoEngine.AtMostOneCompletionInOrder | runtime/browser/sw_host.js:305-493 | From a fresh engine, over every interleaving of submits, host callbacks, cancels, polls, flushes and memory growth: no submission is pushed twice; the events neither flushed nor lost are delivered followed by queued, in push order; every other pushed event was flushed or lost; a pending submission has no event |
| IoCompletions.EveryOpHasItsPlace | runtime/browser/sw_host.js:305-493 | From a fresh engine, on every run that loses nothing: the submissions are the ops of all the submits, LOG excepted, one for one and in order, each in exactly one place, none of them lost |
| IoCompletions.RunEntersEveryOp | runtime/browser/sw_host.js:683-688 | On every run, whatever it loses: each op that a submit gets to, up to and including the first that throws, is one submission of its own, in order, but LOG is none, and nothing else is one |
| IoCompletions.SubmitPlaces | runtime/browser/sw_host.js:305-493 | A submit that does not throw puts timers, fetches, connects and supported compressions in flight, and every other op but LOG in the queue |
| IoCompletions.SubmitPends | runtime/browser/sw_host.js:336-440 | Each op that completes later becomes one pending entry, under the next token, carrying that op and, for a connect, the next handle; nothing else joins the pending map |
| IoCompletions.SubmitAnswers | runtime/browser/sw_host.js:323-486 | Each other op but LOG is answered by one queued event with its own user data: OK, not supported, bad handle, or try again, told before the call from the ops, the sockets and the messages waiting; nothing else joins the queue |
| IoCompletions.StaysPending | runtime/browser/sw_host.js:336-460 | A pending op stays pending through any run without its own callback and without a cancel of its user data |
| IoCompletions.CallbackCompletes | runtime/browser/sw_host.js:339-446 | The callback of a pending op takes its entry out and queues one event with its user data and its code: OK, an error for each rejection, overflow for a compression that does not fit |
| IoCompletions.CallbackStores | runtime/browser/sw_host.js:363-375 | The guest finds the first min(length, room) bytes of the body in its buffer, and their number, or the new socket handle, in its result slot; without either, memory is unchanged |
| IoCompletions.CallbackSockets | runtime/browser/sw_host.js:432-446 | A socket opens exactly when its connect succeeds and is gone when that fails; no other callback changes one |
| IoCompletions.MessageArrives | runtime/browser/sw_host.js:447-454 | An arriving message goes behind the messages waiting on its socket |
| IoCompletions.CancelCloses | runtime/browser/sw_host.js:428-434 | A cancelled connect closes its socket and leaves all others as they were |
| IoCompletions.AnswerStores | runtime/browser/sw_host.js:324-486 | An op answered at once stores in its result slot the length sent, the number of bytes received, or 0; any other leaves memory alone |
| IoCompletions.ReceiveStores | runtime/browser/sw_host.js:468-486 | A receive puts the start of the oldest waiting message into the guest buffer |
| IoCompletions.LostCallback | runtime/browser/sw_host.js:363-391 | A callback one of whose stores throws is lost: its entry is gone and nothing is queued; a payload that fits is in memory all the same |
| IoCompletions.LostOp | runtime/browser/sw_host.js:324-486 | An op that throws inside a submit is lost and queues nothing; a received payload that fits is in memory all the same |
| IoCompletions.ViewsFollow | runtime/browser/sw_host.js:305-375 | Views turn stale exactly when the guest grows its memory, and live again exactly when an op is dispatched, an event handed out or a payload stored |
| IoCompletions.PollWritesOnlyTheEvent | runtime/browser/sw_host.js:290-298 | A poll with nothing queued changes nothing; otherwise it writes the 128 bytes of the event, zeros where no field is, and no others |
| IoCompletions.SocketTurns | runtime/browser/sw_host.js:458-461 | A socket that opens or closes by itself changes nothing but that |
| IoLosses.EventsAreFirstInFirstOut | runtime/browser/sw_host.js:278-285 | On every run without flushes and with event pointers in memory, delivered followed by queued is exactly the sequence of pushes |
| IoLosses.LosesExactly | runtime/browser/sw_host.js:305-493 | In every reachable state a step loses a submission or an event if and only if it is a submit with an op that answers at once through a result pointer without room for eight bytes, or that receives a waiting message into a range ending outside memory; a poll of an event into fewer than 24 bytes; or a live callback whose payload or report ends outside memory, or that reports without a payload through stale views |
| IoLosses.SubmitThrowsExactly | runtime/browser/sw_host.js:305-493 | A submit throws if and only if one of its ops does, told before the call from the sockets, the messages waiting on them and the earlier receives of the same batch |
| IoLosses.RunLosesExactly | runtime/browser/sw_host.js:305-493 | A run that starts with nothing lost ends with nothing lost if and only if none of its steps is, in the state it meets, one of those that lose something |
| IoLosses.CarefulGuestsLoseNothing | runtime/browser/sw_host.js:363-375 | On every run whose ops and event pointers lie in memory, and whose callbacks find live views when they report without a payload, nothing is lost: every pushed event is delivered, queued or flushed |
| IoLosses.SteadyGuestsLoseNothing | runtime/browser/sw_host.js:305-493 | A guest that keeps its buffers and event pointers in memory and does not grow it loses nothing on any run |
| IoEngine.NothingAfterTheEnd | runtime/browser/sw_host.js:689-715 | A submission that was cancelled, flushed or lost stays so in every later state, and no event or pending entry of it exists again |
| IoEngine.NextInv | runtime/browser/sw_host.js:305-493 | Every step keeps each submission in exactly one place (pending, queued, delivered, cancelled, flushed, lost), only ever moves it forward, and never reuses a token |
| IoEngine.DeadTokenIsInert | runtime/browser/sw_host.js:339-343 | A host callback whose token has left the pending map changes nothing, neither memory nor queue, however much later it fires |
| IoEngine.CancelExact | runtime/browser/sw_host.js:689-698 | cancel answers OK exactly when a pending op carries the user data; it then removes the oldest such token and nothing else; otherwise it changes nothing |
| IoEngine.FirstWithIsOldest | runtime/browser/sw_host.js:690-691 | The first match in Map insertion order is the one with the smallest token |
| IoEngine.FlushExact | runtime/browser/sw_host.js:711-714 | flush(t) leaves exactly the events of other types (none for 0), in order, and touches no pending op and no delivered event |
| IoEngine.PolledEventReadsBack | runtime/browser/sw_host.js:290-298 | What the guest reads back little-endian at the event pointer is the polled event: type, user data, 32-bit two's complement result, flags |
| IoEngine.CompletesUnlessViewsAreStale | runtime/browser/sw_host.js:363-375 | For buffers in range a live callback's completion is lost if and only if the views are stale, a result pointer is given and no payload is stored; otherwise its completion is the newest queued event |
| IoEngine.LostConnect | runtime/browser/sw_host.js:428-440 | The losing case occurs: connect with a result pointer, guest memory grown meanwhile, socket opens |
| IoEngine.SettleWritesOnlyItsBuffers | runtime/browser/sw_host.js:367-374 | A settling callback changes no byte outside its own payload buffer and result slot |
| IoLedger.RegisterInv | runtime/browser/sw_host.js:338-347 | Entering the pending map under a fresh token keeps the bookkeeping invariant |
| IoLedger.FinishInv | runtime/browser/sw_host.js:278-285 | Deleting a live token and pushing its completion moves exactly that submission from pending to queued |
| IoLedger.DropInv | runtime/browser/sw_host.js:689-698 | Removing a token without a completion moves exactly that submission and keeps the others in token order |
| IoLedger.ShiftInv | runtime/browser/sw_host.js:699-705 | Shifting the queue's head out moves exactly that event and keeps delivered followed by queued equal to what was pushed and kept |
| IoLedger.FlushInv | runtime/browser/sw_host.js:711-715 | Filtering the queue keeps the invariant and the order |
| GuestMemory.LittleEndianRoundTrip | runtime/browser/sw_host.js:290-298 | A little-endian store of any width reads back as the number stored |
| SwHost.SwHost.DispatchOp | runtime/browser/sw_host.js:305-493 | Dispatching one op, opcode by opcode, is the specification's step, including the error answers and the store that throws |
| SwHost.SwHost.Submit | runtime/browser/sw_host.js:683-688 | Ops are dispatched in order until one throws |
| SwHost.SwHost.OnSettled | runtime/browser/sw_host.js:339-446 | A callback looks its token up first; live, it deletes it, stores payload and result, and completes |
| SwHost.SwHost.PushIoCompletion | runtime/browser/sw_host.js:278-285 | One completion event is appended, for the submission's own user data |
| SwHost.SwHost.Cancel | runtime/browser/sw_host.js:689-698 | The loop over the Map removes the first match and closes its socket |
| SwHost.SwHost.Poll | runtime/browser/sw_host.js:699-705 | The head is removed and its 128-byte image written, or the call traps after removing it |
| SwHost.SwHost.Wait | runtime/browser/sw_host.js:706-710 | wait is poll, whatever the timeout |
| SwHost.SwHost.Flush | runtime/browser/sw_host.js:711-715 | The queue is emptied or filtered by type |
| IoDispatch.EachCallbackRunsOnce | bindings/csharp/wapi.cs:1535-1637 | Composed with the engine, over every run with re-entrant submits: callback invocations are the delivered completions one for one, in order, with their results; no token runs twice; each run is of the callback submitted under that token; the counts taken plus the counter equal the runs |
| IoDispatch.EverySubmissionReachesTheEngine | bindings/csharp/wapi.cs:1550-1557 | On every run the submissions of the engine are the tokens of the ops given to Submit, LOG excepted, in the order of the calls, re-entrant ones included: each has exactly one, and its callback has run exactly when that one is delivered |
| IoDispatch.SubmitsTheOp | bindings/csharp/wapi.cs:1550-1557 | A call of Submit is one submit of that very op, under the next token |
| IoDispatch.RunSubmits | bindings/csharp/wapi.cs:1614-1626 | On every run the submissions are those of the program and those of the callbacks that ran, all of them, in that order |
| IoDispatch.PumpRunsTheOldest | bindings/csharp/wapi.cs:1614-1626 | With an event waiting, a pump runs the callback submitted under the token of the oldest, with its result and flags |
| IoDispatch.NopRunsItsCallback | bindings/csharp/wapi.cs:1550-1626 | A NOP submitted on an idle engine has its callback run, with OK, by the next pump |
| IoDispatch.TakeCountsSinceTheLast | bindings/csharp/wapi.cs:1632-1637 | Taking the count returns the runs since it was last taken and starts again from 0 |
| IoDispatch.AnyUseRunsAtMostOnce | bindings/csharp/wapi.cs:1543-1637 | Whatever is done to the engine through its vtable and whatever events DispatchCompletion is handed: no token's callback runs twice, each run is of the callback submitted under that token, a callback waits exactly until it has run, and the counts taken plus the counter equal the runs |
| IoDispatch.Io.Initialize | bindings/csharp/wapi.cs:1535-1541 | The dictionary is empty, the next token 1, the counter 0 |
| IoDispatch.Io.Submit | bindings/csharp/wapi.cs:1550-1557 | The callback is stored under the next token, which becomes the op's user data, and the op is submitted |
| IoDispatch.Io.DispatchCompletion | bindings/csharp/wapi.cs:1614-1626 | A known token is removed before its callback runs, which may submit more; the counter rises after it; an unknown token changes nothing |
| IoDispatch.Io.TakeCompletionCount | bindings/csharp/wapi.cs:1632-1637 | The counter is returned and reset |
| WasmFunc.DecodesExactlyWhenShort | runtime/browser/sw_host.js:244-274 | The bytes decode to one type equal to the signature, one import "h"."f" of it and one export "w" of function 0 if and only if parameters and results number at most 123 |
| WasmFunc.HighSizeByte | runtime/browser/sw_host.js:253-255 | A size byte with its high bit set is read as a longer LEB128 number, and the module no longer decodes as intended |
| WasmFunc.LowSizeByte | runtime/browser/sw_host.js:253-269 | A size that lost its high bits cuts the section short, and the module no longer decodes as intended |
| WasmFunc.FuncTypeDecodes | runtime/browser/sw_host.js:246-250 | The type bytes decode to the signature, parameters and results in order |
| WasmFunc.TailDecodes | runtime/browser/sw_host.js:256-266 | The import and export sections decode to the one function import and the one export |
| WasmFunc.StartsWithMagic | runtime/browser/sw_host.js:252-254 | The module starts with the eight bytes of magic number and version, and is as long as its parts |
| WasmFunc.EmptySignatureBytes | runtime/browser/sw_host.js:246-266 | The three sections for the empty signature, byte for byte |
| ServiceManager.EveryRunKeepsTheBooks | runtime/browser/sw.js:272-386 | With no scheduling assumption: every record ever created, overwritten ones included, has refcount equal to its handle set's size; every live handle is in its record's set; every registered record is under its own key and has a live handle |
| ServiceJoins.HandleExactly | runtime/browser/sw.js:282-363 | On every run a join gets its handle if and only if its awaits settled so: bytes cached, compiled, instantiated; or, with a url, bytes missing, fetched, read, their hash matching, stored, compiled, instantiated. It fails if and only if an await rejects, or one says no that is not the lookup of a join with a url |
| ServiceJoins.JoinRemembers | runtime/browser/sw.js:272-284 | On every run a join under way has the hash, name and url of the call that began it |
| ServiceJoins.SettlementSpares | runtime/browser/sw.js:282-363 | A settlement changes no other join, and no table unless it ends in a handle |
| ServiceJoins.HandleInstalls | runtime/browser/sw.js:334-363 | The handle is the only user of a new record of the hash, name and url asked for, registered under their key |
| ServiceJoins.ExitingInstanceInstalls | runtime/browser/sw.js:323-353 | An instance that exits while it initialises is registered all the same, as after an exit of what its key held before |
| ServiceJoins.JoinReplies | runtime/browser/sw.js:272-284 | A call of join fails without a hash, is refused while its key is being made, attaches to a registered service, and otherwise begins to wait; nothing changes where it fails or is refused |
| ServiceJoins.JoinAttaches | runtime/browser/sw.js:358-363 | Attaching adds the next handle to the registered record, and to no other |
| ServiceJoins.ReleaseSparesOthers | runtime/browser/sw.js:366-376 | Releasing a handle that is not the last of its record takes away that handle and nothing else |
| ServiceJoins.ReleaseOfTheLast | runtime/browser/sw.js:366-386 | Releasing the last takes down the registration of its key, and the handles on what is registered there, and nothing else |
| ServiceJoins.ExitTakesDown | runtime/browser/sw.js:323-326 | An exit takes down the registration of its key and the handles on it, and nothing else |
| ServiceManager.HandlesIncrease | runtime/browser/sw.js:359-363 | Handle numbers are given out in strictly increasing order over any run, so never reused |
| ServiceManager.SecondReleaseDoesNothing | runtime/browser/sw.js:366-376 | Releasing a handle twice, with any steps in between, answers not ok the second time and changes nothing |
| ServiceManager.TidyExactly | runtime/browser/sw.js:342-353 | From a state where all live handles of a key name its registered record, a step keeps that property if and only if it is not a join finishing under a key registered meanwhile |
| ServiceManager.RegisteredExactlyWhileUsed | runtime/browser/sw.js:272-386 | On every run in which no join of a key starts while another awaits its bytes: a key is registered exactly while it has a live handle, live handles map to the registered record, and no key has two records in use |
| ServiceManager.LoopErrorExactly | runtime/browser/sw.js:276-280 | On every run a join is answered with the loop error if and only if a join of its key has begun to compile and none has ended since |
| ServiceManager.LoopErrorWhileMaking | runtime/browser/sw.js:313-356 | Where byte lookups of a key do not overlap, that is exactly while a join of the key compiles or instantiates |
| ServiceManager.OverlapTearsDown | runtime/browser/sw.js:282-357 | Without the assumption: two overlapping joins leave two records in use, and releasing the first user's handle removes the second user's handle and service |
| ServiceManager.NextInv | runtime/browser/sw.js:272-386 | Each atomic step of join, release and exit keeps the per-record invariant |
| ServiceManager.SettledTable | runtime/browser/sw.js:282-357 | Of all the awaits of a join only the last one touches the service tables |
| ServiceWorker.ServiceWorker.ServicesJoin | runtime/browser/sw.js:272-284 | The synchronous part: missing hash, join while compiling, attach to a registered service, or start waiting |
| ServiceWorker.ServiceWorker.Resume | runtime/browser/sw.js:284-363 | The part from one await to the next, with every miss, refusal, mismatch and rejection, and the registration at the end |
| ServiceWorker.ServiceWorker.ServicesRelease | runtime/browser/sw.js:366-376 | An unknown handle is refused; otherwise it leaves the map and its record, and a record left with none takes its key's service down |
| ServiceWorker.ServiceWorker.RemoveService | runtime/browser/sw.js:378-386 | The registered record's handles and registration are deleted, nothing else |
| ServiceWorker.ServiceWorker.OnExit | runtime/browser/sw.js:323-326 | An instance's exit removes whatever is registered under its key |
| ServiceRegistry.ListedExactlyWhileFresh | runtime/browser/sw.js:210-246 | Over every history of announcements, withdrawals and reports with a forward clock: a report shows a key exactly when its last announcement, not withdrawn since, is at most 15000 ms old |
| ServiceRegistry.KeptExactly | runtime/browser/sw.js:210-217 | Reaping keeps exactly the entries heartbeated within 15000 ms |
| ServiceRegistry.KeptAgain | runtime/browser/sw.js:210-217 | An earlier reap makes no difference to a later one |
| ServiceRegistry.BeatAnnounced | runtime/browser/sw.js:219-241 | An announcement refreshes or creates its own key's entry and changes no other key's heartbeat |
| ServiceRegistry.AnnouncementEnters | runtime/browser/sw.js:219-241 | A first announcement adds an entry at the end, with one user unless it says otherwise; a later one replaces in place exactly the fields that the page sent; no other entry changes |
| ServiceRegistry.KeysNeverCollide | runtime/browser/sw.js:254-256 | Colon-free hashes with any names have equal keys only when both parts are equal |
| ServiceRegistry.CollidesExactlyWithColon | runtime/browser/sw.js:254-256 | A hash shares a key with a shorter one if and only if it contains a colon |
| ServiceRegistry.ListThenStats | runtime/browser/sw.js:388-432 | At one instant the statistics are the list's row count and the sums of its users and pending columns, whenever the rows were stamped |
| ServiceRegistry.RowsShow | runtime/browser/sw.js:388-415 | Each row shows the fields, users, pending operations and age of its service |
| ServiceRegistry.EachRowCounts | runtime/browser/sw.js:417-432 | The statistics count each row once, with its users and its pending operations |
| ServiceRegistry.ServiceRegistry.ReapAnnounced | runtime/browser/sw.js:210-217 | The deleting walk over the map leaves exactly the entries still alive |
| ServiceRegistry.ServiceRegistry.ServicesAnnounce | runtime/browser/sw.js:219-241 | A known key keeps what the page left out and is refreshed; a new one is added; a missing hash is refused |
| ServiceRegistry.ServiceRegistry.ServicesWithdraw | runtime/browser/sw.js:243-246 | The key is no longer listed; every entry of another key, and no other entry, remains, in its place and with its heartbeat |
| ServiceRegistry.ServiceRegistry.ServicesList | runtime/browser/sw.js:388-415 | One row per running service, then one per announcement still alive, page rows with nothing pending |
| ServiceRegistry.ServiceRegistry.ServicesStats | runtime/browser/sw.js:417-432 | The accumulated totals are those of the list's rows |
| Base64.RoundTrip | runtime/browser/sw.js:81-95 | Decoding what was encoded gives back every byte array, in all three padding cases |
| Base64.ReencodesExactlyWhenCanonical | runtime/browser/sw.js:81-95 | A text decodes to bytes that encode to the same text if and only if it is whole quads of digits, the last completed by padding, with zero spare bits |
| Base64.StandardAlphabet | runtime/browser/sw.js:81-88 | The digits are those of table 1 of RFC 4648 |
| Base64.StandardTexts | runtime/browser/sw.js:81-88 | The test vectors of RFC 4648 for one, two and three bytes |
| Base64.WhiteSpaceIsSkipped | runtime/browser/sw.js:90-95 | White space anywhere in a text makes no difference to the decoder |
| Base64.PaddingIsOptional | runtime/browser/sw.js:90-95 | An encoding without its padding decodes to the same bytes |
| Base64.StrangersAreRefused | runtime/browser/sw.js:90-95 | A text with a character that is neither digit, padding nor white space is refused |
| Base64.BytesToB64 | runtime/browser/sw.js:81-88 | The 32 KB-slice loop encodes the whole array |
| Base64.B64ToBytes | runtime/browser/sw.js:90-95 | The loop copies every decoded byte; undecodable text throws |
| Adsr.EnvelopeBounds | examples/hello_game/tracker.c:94-126 | The envelope is in [0, 1] for every time, any attack, decay and release, and a sustain in [0, 1] |
| Adsr.EnvelopeLipschitz | examples/hello_game/tracker.c:94-126 | For positive times the envelope changes by at most max(1/attack, (1-sustain)/decay, 1/release) per second anywhere, across note-off in any phase |
| Adsr.SmoothExactly | examples/hello_game/tracker.c:94-126 | For every note length and all times not negative, some slope bounds the envelope everywhere if and only if it has no jump: no zero attack of a note that starts above 0, no zero decay below the peak that is reached, no zero release from a level other than 0 |
| Adsr.EnvelopeCorners | examples/hello_game/tracker.c:94-126 | Silence before note-on and after the release, 1 at the end of the attack, the sustain level from the end of the decay to note-off |
| Adsr.EnvelopeStraight | examples/hello_game/tracker.c:94-126 | Along each ramp the level half way is half way |
| Adsr.NoAttackJumps | examples/hello_game/tracker.c:98-123 | A zero attack makes the envelope jump at note-on, so the positivity is needed |
| Waveforms.WrapPhase | examples/hello_game/tracker.c:217-219 | The two loops bring a phase to its wrapped value |
| Waveforms.WrapRange | examples/hello_game/tracker.c:217-219 | Wrapped phases lie in [0, 2 pi], above 0 for positive phases |
| Waveforms.WaveBounds | examples/hello_game/tracker.c:210-242 | Saw, square, triangle and silence stay in [-1, 1] for every phase |
| Waveforms.WavePeriodic | examples/hello_game/tracker.c:210-242 | Every oscillator repeats every 2 pi of positive phase |
| Waveforms.SquareShape | examples/hello_game/tracker.c:226-231 | The square is 1 for the first half of a period and -1 for the second; an unknown waveform is silent |
| Waveforms.SawShape | examples/hello_game/tracker.c:214-225 | The saw rises in a straight line from -1 to 1 over a period |
| Waveforms.TriangleShape | examples/hello_game/tracker.c:232-242 | The triangle rises in a straight line from -1 to 1 over half a period and comes down the same way |
| Waveforms.SineShape | examples/hello_game/tracker.c:44-54 | The sine is odd, 0 at 0, and within a ten-thousandth of a half at pi/6 and of 1 at pi/2 |
| Waveforms.SineMissesAtPi | examples/hello_game/tracker.c:42-54 | At pi and -pi the sine is off by more than 0.038, so the error bound of 0.0011 that its comment claims is false there |
| Waveforms.SineSample | examples/hello_game/tracker.c:44-54 | The wrapping loops and the polynomial compute the polynomial of the wrapped phase |
| Waveforms.WaveSample | examples/hello_game/tracker.c:210-242 | The switch over waveforms is the oscillator function |
| Waveforms.MidiToHz | examples/hello_game/tracker.c:69-82 | The multiplying loops give the note's frequency, notes above 127 clamped |
| Waveforms.HzStep | examples/hello_game/tracker.c:69-82 | Neighbouring notes differ by the same ratio across the whole table |
| Waveforms.HzAnchors | examples/hello_game/tracker.c:69-82 | Note 69 is 440 Hz, and notes above 127 sound like note 127 |
| Tracker.TrackerRender | examples/hello_game/tracker.c:146-262 | For every playable request each output sample is the clamped sum over the sounding notes of wave times envelope times velocity times volume, written once, independent of chunk boundaries; nothing beyond the request is written; refused requests write nothing; the result counts overlapping note-chunk pairs |
| TrackerLaws.SampleIsTheMix | examples/hello_game/tracker.c:248-254 | A sample is its whole mix, clipped, scaled to 16 bits, its fraction dropped |
| TrackerLaws.MixAdds | examples/hello_game/tracker.c:176-246 | Two lists of notes together sound as the sum of each alone |
| TrackerLaws.VolumeScalesTheShare | examples/hello_game/tracker.c:243-243 | Making an instrument c times as loud makes its share of every sample c times as large and leaves the rest of the mix alone |
| TrackerLaws.SilentNoteAddsNothing | examples/hello_game/tracker.c:192-243 | A note without velocity, or of an instrument without volume, adds nothing |
| TrackerLaws.LaterNotesSoundTheSame | examples/hello_game/tracker.c:196-206 | Starting all notes d samples later moves the sound by d samples and does nothing else to it |
| TrackerLaws.NoteSoundsThroughItsTail | examples/hello_game/tracker.c:181-187 | A note sounds from its start for as many whole samples as its length and its release last |
| TrackerLaws.VoiceIsProduct | examples/hello_game/tracker.c:207-243 | A voice is oscillator times envelope times velocity over 127 times volume |
| TrackerLaws.OscillatorIs | examples/hello_game/tracker.c:189-244 | The oscillator stands where d samples of its pitch at the rate of the song take it |
| TrackerLaws.LoudnessIs | examples/hello_game/tracker.c:191-209 | The envelope is that of d samples in seconds, for a note held for its length in seconds |
| TrackerLaws.SustainedSquare | examples/hello_game/tracker.c:146-262 | The sample of a song of one square note at its sustain level is plus or minus sustain times velocity over 127 times volume, clipped and truncated to 16 bits |
| Tracker.MixChunk | examples/hello_game/tracker.c:170-246 | A cleared chunk gets every note's share, and the notes overlapping it are counted |
| Tracker.MixNote | examples/hello_game/tracker.c:189-245 | One note's samples in a chunk, with its phase accumulator started at the note's own origin, advance the per-sample sum by that note |
| Tracker.QuantiseChunk | examples/hello_game/tracker.c:248-254 | Each mixed sample is clipped and truncated to 16 bits |
| Tracker.QuantiseFaithful | examples/hello_game/tracker.c:248-254 | Quantisation stays within 16 bits, is monotone and odd, and is within one step of the exact value inside [-1, 1] |
| Tracker.SilentNotesAddNothing | examples/hello_game/tracker.c:176-187 | Notes that do not sound at a sample leave its value alone |
| Tracker.ResultCountsNotesExactly | examples/hello_game/tracker.c:163-187 | The count returned is at least the number of notes that overlap some chunk, and equals it if and only if no boundary between two chunks of the output falls inside a note |
| Tracker.OverlapsExactly | examples/hello_game/tracker.c:181-187 | A note is counted for a chunk exactly when it sounds at some sample of it, or is empty and starts strictly inside it |
| FixedStep.StepsFollowTime | examples/hello_game/game.c:1157-1175 | From any state owing less than a step, the initial one included, with every positive gap at most four steps, no restart, and any backward jumps of the clock: the steps taken are the whole steps in the sum of the positive gaps, the remainder is owed, nothing is thrown away |
| FixedStep.SpeedIndependentOfFrameRate | examples/hello_game/game.c:1140-1175 | However the same time is cut into such frames, the simulation steps and the debt left are the same |
| FixedStep.SameStretchSameSteps | examples/hello_game/game.c:1140-1175 | With a forward clock the time is the last timestamp less the first, so two ways of cutting one stretch end in the same state |
| FixedStep.TimeIsConserved | examples/hello_game/game.c:1157-1175 | On every run, with clock jumps and restarts: time credited equals steps taken times the step, plus what is owed, plus what was thrown away; at most four steps are owed after a frame |
| FixedStep.KeepsUpExactly | examples/hello_game/game.c:1166-1175 | From less than one step owed, a frame keeps up if and only if it brings the debt below five steps, and throws time away if and only if beyond eight |
| FixedStep.TimeCredited | examples/hello_game/game.c:1153-1166 | The first timestamp of all, and one that goes back, credit no time; any other credits the time since the last |
| FixedStep.RestartForgetsTheDebt | examples/hello_game/game.c:869-879 | A frame that restarts the round goes on as from no debt |
| FixedStep.SixtyStepsASecond | examples/hello_game/game.c:1157-1175 | Sixty steps are a second, but for what the integer division drops |
| FixedStep.GameClock.WapiFrame | examples/hello_game/game.c:1153-1175 | The loop takes as many steps as the closed form says and leaves its remainder |
| Enemies.NeverMoreThanEight | examples/hello_game/game.c:881-893 | On every run, whatever the random draws, the player's path, restarts and the path that moves enemies: at most eight enemies are alive, lives never exceed three, and the round is over exactly when they have run out |
| Enemies.SpawnNeverFails | examples/hello_game/game.c:881-893 | On every run a due spawn finds a free slot and puts the new enemy there, disturbing no other |
| Enemies.AtMostEight | examples/hello_game/game.c:944-981 | Enemies born on fortieth steps and falling at least two pixels a step leave at most eight above the floor |
| Enemies.EitherPathFalls | examples/hello_game/game.c:962-981 | Whichever path moves it, a living enemy falls by its speed and is retired exactly when past 600 |
| Enemies.EachKillCostsALife | examples/hello_game/game.c:984-994 | Exactly the living enemies within eight pixels of the player die, as many lives are lost as enemies die, and the round is over once a hit leaves none |
| Enemies.RestartsAfterTheEnd | examples/hello_game/game.c:869-879 | Input after the end starts a round like the first; before it changes nothing, and after it no step does |
| Enemies.SpawnedAtTheTop | examples/hello_game/game.c:881-893 | An enemy starts white and alive at the top edge, within the walls, drifting by at most one pixel a step and falling by two to four |
| Enemies.AnyStartCanBeDrawn | examples/hello_game/game.c:881-893 | Every whole position between the walls, and every hundredth in the range of either speed, can be drawn |
| Enemies.NoSpawnBetween | examples/hello_game/game.c:944-950 | No step but every fortieth adds an enemy |
| Enemies.LocalPathDrifts | examples/hello_game/game.c:973-981 | Where no module moves it, an enemy drifts on past the walls; the dead stay as they are |
| Enemies.NextInv | examples/hello_game/game.c:944-994 | Every step and restart keeps the lifetime bounds and the distinct births |
| Enemies.Game.SpawnEnemy | examples/hello_game/game.c:881-893 | The first dead slot is filled from the draw; a full table is left alone |
| Enemies.Game.AdvanceLocally | examples/hello_game/game.c:973-981 | Every living enemy moves and retires past the floor |
| Enemies.Game.AdvanceByModule | examples/hello_game/game.c:964-972 | Through shared memory and back every enemy is as the child module ticks it |
| Enemies.Game.Collide | examples/hello_game/game.c:984-994 | Enemies touching the player die, each costing a life; the round ends when lives run out |
| Enemies.Game.SimStep | examples/hello_game/game.c:944-994 | A step spawns, moves and collides in that order, and does nothing once the round is over |
| Enemies.Game.OnRestartInput | examples/hello_game/game.c:1012-1040 | A key, click or button restarts the round only once it is over |
| Enemies.Game.ResetRound | examples/hello_game/game.c:869-879 | All slots are freed, lives are three, the step counter is zero |
| Ai.AiTick | examples/hello_game/ai.c:34-70 | Out-of-range counts do nothing; otherwise exactly the first 256 at most are ticked, the dead skipped, and the survivors counted |
| Ai.TickedInBounds | examples/hello_game/ai.c:44-62 | A ticked living enemy is between the walls and above the floor, its fall speed unchanged |
| Ai.TurnsBackAtTheWalls | examples/hello_game/ai.c:47-58 | A ticked enemy goes straight on between the walls, and stops and turns back at a wall |
| Ai.SurvivorsAreCounted | examples/hello_game/ai.c:44-62 | The count returned is that of the living who do not fall past the floor |
| Music.MusicPlayer.PumpMusic | examples/hello_game/game.c:797-810 | After any calls the samples pushed are a prefix of the loop repeated forever and the cursor is their number modulo the loop; the call terminates, having pushed exactly what fills the queue |
| Music.Continues | examples/hello_game/game.c:800-808 | A put from the cursor continues the endless loop without a seam, wrapping exactly at its end |
| Music.PumpedFillsTheQueue | examples/hello_game/game.c:799-809 | A call that finds the queue below the target leaves it at least at the target and less than a chunk above it; otherwise it pushes nothing |
| Music.PutsAreWhole | examples/hello_game/game.c:799-806 | A put is 2048 samples, or what is left of the loop |
| Music.QueueStaysBounded | examples/hello_game/game.c:797-810 | Over any calls and playback the queue stays below the target plus a chunk |
| Sprites.SpriteBatch.BuildSprites | examples/hello_game/game.c:1046-1074 | The buffers hold the first 64 sprites of the frame: living enemies in slot order, coin, life pips, player last |
| Sprites.SpriteBatch.PushSprite | examples/hello_game/game.c:208-230 | Four corners and six indices are appended, or nothing when there is no room |
| Sprites.BuffersOfSprite | examples/hello_game/game.c:218-229 | Each sprite's part of the buffers is its own four corners and six indices naming exactly them |
| Sprites.QuadShowsTheTile | examples/hello_game/game.c:208-221 | The corners of a sprite make a square of its size and show the whole of its tile |
| Sprites.QuadHasTheColour | examples/hello_game/game.c:208-221 | All four corners have the four bytes of its colour |
| Sprites.LivingAreDrawn | examples/hello_game/game.c:1046-1074 | An enemy is drawn, as a white tile 2 where it is, exactly when it is alive |
| Sprites.DrawnOnTop | examples/hello_game/game.c:1046-1074 | Over the enemies come the coin, blinking at its end, one pip for each life, and the player last, pink while a hit lasts |
| Sprites.IndicesInRange | examples/hello_game/game.c:222-227 | Every index names a vertex pushed this frame and fits 16 bits |
| Sprites.NothingIsDropped | examples/hello_game/game.c:1046-1074 | A frame is drawn whole exactly when it has at most 64 sprites; 32 slots and three lives make at most 37 |
| Sprites.EveryFrameIsDrawnWhole | examples/hello_game/game.c:1046-1074 | On every run of the game no sprite is ever dropped, and a frame has at most 13 |
| BumpHeap.EveryRunKeepsBlocksApart | bindings/c/wapi_reactor.c:184-224 | After any sequence of allocations, reallocations, frees and client writes: each block is aligned and in memory, its header intact, and apart from every other block's header and data |
| BumpHeap.SoundExactlyWhenItFits | bindings/c/wapi_reactor.c:184-199 | An allocation the host does not refuse gives an aligned block above all others and inside memory if and only if its exact end is below 2 to the 32 |
| BumpLayout.RefusedExactly | bindings/c/wapi_reactor.c:167-192 | An allocation that fits returns null if and only if it ends beyond memory and the host does not grow memory, or cannot by whole pages within 4 GiB; otherwise memory grows by the least number of pages that reaches the end |
| BumpLayout.RefusedByTheHostAlone | bindings/c/wapi_reactor.c:167-192 | Where memory is whole pages, below 4 GiB, it returns null if and only if it ends beyond memory and the host refuses |
| BumpLayout.FullMemoryRefuses | bindings/c/wapi_reactor.c:160-192 | On a memory of 4 GiB every allocation is refused but those that end in the last page |
| BumpLayout.BlockIsAsAsked | bindings/c/wapi_reactor.c:184-199 | The block made has the size asked for, the alignment raised to 8, and the next multiple of 8 for its header; the pointer is its data |
| BumpLayout.BlocksAreBackToBack | bindings/c/wapi_reactor.c:184-224 | On every run the blocks lie back to back from the heap base: nothing is wasted but what alignment needs |
| BumpHeap.HugeRequestIsGranted | bindings/c/wapi_reactor.c:184-199 | On any heap with an 8-aligned top and room for one more header, a request of 2 to the 32 bytes is granted without growth: the pointer returned is the new top, so nothing is reserved behind it |
| BumpHeap.RefusalChangesNothing | bindings/c/wapi_reactor.c:167-192 | Refused growth returns null and leaves memory, blocks and heap bounds unchanged |
| BumpHeap.AllocEffect | bindings/c/wapi_reactor.c:184-199 | The block's place, its header's bytes, and that no byte below the old top changes |
| BumpHeap.AlignWraps | bindings/c/wapi_reactor.c:155-158 | Rounding up on 32 bits is exact for powers of two unless the result passes 32 bits, when it is 0 |
| BumpRealloc.SmallAlignmentsSurvive | bindings/c/wapi_reactor.c:208-224 | After any sequence of allocations, reallocations, frees and client writes, reallocating a block asked for with an alignment of at most 8 preserves its first min(old, new) bytes, whatever memory held before |
| BumpRealloc.ReallocOnRunsExactly | bindings/c/wapi_reactor.c:208-224 | On every run over memory zeroed from the heap's base, reallocating any block preserves its first min(old, new) bytes if and only if those it does not copy are zero, and the block's padding follows from its address and alignment |
| BumpRealloc.PaddingOnRuns | bindings/c/wapi_reactor.c:187-190 | On every run a block's data is at the first address after its header that its alignment allows: no padding exactly when the header ends on a multiple of the alignment, and none ever for alignment 8 |
| BumpRealloc.AlignmentIsRecorded | bindings/c/wapi_reactor.c:187-197 | The new block records the alignment asked for, raised to 8 |
| BumpRealloc.ReallocPreservesExactly | bindings/c/wapi_reactor.c:208-224 | Reallocating any block preserves its first min(old, new) bytes if and only if those it does not copy are zero |
| BumpRealloc.CopiesEnoughExactly | bindings/c/wapi_reactor.c:213-222 | The number of bytes copied is min(old, new) if and only if no padding lies between header and data, or eight bytes do and the alignment gives the same number, or more do and there is nothing to copy |
| BumpRealloc.ReallocCopies | bindings/c/wapi_reactor.c:216-222 | The new block starts with as many of the old block's bytes as are copied, all min(old, new) of them for a block without padding |
| BumpRealloc.ReallocBytes | bindings/c/wapi_reactor.c:216-223 | Behind the copied bytes the new block is zero |
| BumpRealloc.EveryRunIsBlank | bindings/c/wapi_reactor.c:184-224 | On every legal run over memory zeroed from the heap's base, memory above the top and the padding of every block stay zero |
| BumpRealloc.DataIsLost | bindings/c/wapi_reactor.c:213-222 | On any heap with room, zero above its top, whose top is an odd multiple of 8, a set byte beyond the 16th of a 16-aligned new block is gone after a reallocation |
| BumpRealloc.DataIsLostFromAlignedBase | bindings/c/wapi_reactor.c:213-222 | From a heap base that is a multiple of 16 the same loss follows an allocation of 8 bytes |
| BumpHeap.ReallocKeeps | bindings/c/wapi_reactor.c:208-224 | Reallocation of any block keeps the invariant and every existing block byte for byte, granted or refused |
| BumpHeap.ReallocInBounds | bindings/c/wapi_reactor.c:219-222 | The copy loop stays inside memory even when the size it read is wrong |
| BumpHeap.AdjacentExactly | bindings/c/wapi_reactor.c:187-190 | Header and data touch exactly when the address after the header is aligned already, always for alignments up to 8 |
| BumpRealloc.SizeFound | bindings/c/wapi_reactor.c:213-214 | The size read 16 bytes below the data is the block's size without padding, its alignment with eight bytes of it, and 0 with more |
| BumpRealloc.SixteenAlignedIsMisread | bindings/c/wapi_reactor.c:213-214 | A 16-aligned block of any size placed after an odd multiple of 8 reads as 16 bytes long |
| BumpHeap.WriteSpares | bindings/c/wapi_reactor.c:177-182 | A client write inside one block changes no header and no other block |
| BumpAllocator.BumpAllocator.Allocate | bindings/c/wapi_reactor.c:184-199 | The wrapping address arithmetic, growth and header stores are the specification's allocation |
| BumpAllocator.BumpAllocator.Grow | bindings/c/wapi_reactor.c:167-175 | Memory grows by whole pages when needed and granted |
| BumpAllocator.BumpAllocator.Reallocate | bindings/c/wapi_reactor.c:208-224 | Null is allocated afresh; otherwise the header is read, a block allocated, and the bytes copied in a loop |
| BumpAllocator.BumpAllocator.Release | bindings/c/wapi_reactor.c:201-206 | free changes nothing |
| Borrow.ReadersOrOneWriter | include/wapi/wapi_module.h:461-490 | In every reachable state each region has no borrow, borrows for reading only, or exactly one borrow, for writing; every borrow names a live region |
| Borrow.OnlyWritersChangeBytes | include/wapi/wapi_module.h:424-459 | Whoever changes a byte of a region is the application, its borrower for writing, or its owner while it is not lent |
| Borrow.ReadLentIsFrozen | include/wapi/wapi_module.h:471-477 | A region lent for reading can be changed by the application alone |
| Borrow.WriteLentIsPrivate | include/wapi/wapi_module.h:471-477 | A region lent for writing can be read or changed by its borrower or the application alone |
| Borrow.ReadsAreAllowed | include/wapi/wapi_module.h:424-443 | A read that returns a byte of a region was made by someone allowed to read that region |
| Borrow.BorrowIsStable | include/wapi/wapi_module.h:461-490 | Over any run through which a borrow lasts, its region and bytes stay the same but for writes of the application or of the borrower for writing |
| Borrow.ReclaimedForGood | include/wapi/wapi_module.h:519-528 | A reclaimed borrow never comes back: handles are not reused |
| Borrow.LoanLasts | include/wapi/wapi_module.h:340-347 | While a borrow lasts its region cannot be freed, moved or resized |
| BorrowAnswers.ReadExactly | include/wapi/wapi_module.h:429-443 | A read in memory is granted to the application, and to a child exactly within one region it borrows, or owns and has not lent for writing; it returns the bytes that are there |
| BorrowAnswers.WriteExactly | include/wapi/wapi_module.h:445-459 | A write in memory is granted to the application, and to a child exactly within one region it borrows for writing, or owns and has not lent; those bytes change and no others |
| BorrowAnswers.ReadsWhatWasWritten | include/wapi/wapi_module.h:424-459 | What was written is what is read, after any calls in between that do not write there |
| BorrowAnswers.LendExactly | include/wapi/wapi_module.h:461-517 | A borrow is granted if and only if the region lives, the caller commands it, and nobody borrows it for writing, or, for writing, at all; which error is answered otherwise |
| BorrowAnswers.ReadersShare | include/wapi/wapi_module.h:471-477 | A region lent for reading can be lent to another reader and to no writer |
| BorrowAnswers.ReclaimExactly | include/wapi/wapi_module.h:519-528 | A borrow in force is ended, and nothing else changes |
| BorrowAnswers.AllocExactly | include/wapi/wapi_module.h:357-367 | An allocation gives the offset chosen if and only if that is an aligned place in memory that meets no other region |
| BorrowAnswers.FreeExactly | include/wapi/wapi_module.h:369-382 | A region is freed if and only if the caller commands it and nobody borrows it |
| SharedMemory.SharedMemory.SharedAlloc | include/wapi/wapi_module.h:357-367 | A region of the caller at a vacant aligned offset, or 0 |
| SharedMemory.SharedMemory.SharedFree | include/wapi/wapi_module.h:369-382 | Refused to a child that does not own the region and while it is lent |
| SharedMemory.SharedMemory.SharedRead | include/wapi/wapi_module.h:429-443 | Out-of-range and unauthorised reads are refused; otherwise the bytes are copied |
| SharedMemory.SharedMemory.SharedWrite | include/wapi/wapi_module.h:445-459 | Out-of-range and unauthorised writes are refused; otherwise exactly the bytes written change |
| SharedMemory.SharedMemory.LendTo | include/wapi/wapi_module.h:495-517 | Lending is refused to a child that does not own the region and when a conflicting borrow exists |
| SharedMemory.SharedMemory.ReclaimLoan | include/wapi/wapi_module.h:519-528 | The borrow ends |

## Left out

- Decoding an op from its 80 bytes, and results that overwrite op structs: ops are read as values.
- Bodies of fetch, WebSocket, compression, SHA-256, IndexedDB, clocks and random sources: each is a
  nondeterministic outcome or a parameter. A WebSocket constructor that throws is not modelled.
- The serial numbers, submission counts, record positions, join numbers and births in the models identify things
  the source identifies by object or closure; nothing in the modelled code reads them.
- IoEngine.AtMostOneCompletionInOrder: covers one-shot completions; LOG has none by design, so its C# callback
  stays in the dictionary for ever.
- IoDispatch.EachCallbackRunsOnce: every submission and every poll goes through Io, although GetVtable hands the
  engine out and DispatchCompletion matches on user data alone. What holds when a program uses the engine beside Io is
  `IoDispatch.AnyUseRunsAtMostOnce`, which cannot say that the events dispatched are completions. Callbacks may
  re-enter Submit only and do not throw; the 64-bit wrap of the token counter is not modelled. A callback is a finite
  tree of the submits it makes, so one that resubmits itself for ever is represented, for any finite run, by as much
  of its unfolding as the run reaches.
- ServiceManager.EveryRunKeepsTheBooks: records live in a table instead of the heap, so object identity is a
  position; compiled modules and instances are not represented.
- ServiceRegistry.ListedExactlyWhileFresh: assumes a clock that does not run backwards.
- Cache metadata, hit and miss counters, and IndexedDB transactions of the worker.
- Tracker.TrackerRender: requests without noise instruments, negative releases or 32-bit wrap of a note's end, whose shared
  memory calls succeed; the noise waveform is global state. Rounding of floats, and the accuracy of the sine elsewhere, are
  not modelled.
- FixedStep.TimeIsConserved: 64-bit nanosecond counters are unbounded, which differs only after centuries.
- Player movement, the coin's placement and score, sounds, input and events other than restarts.
- Enemies.NeverMoreThanEight: module and shared-memory calls succeed, and the step counter does not wrap.
- Music.MusicPlayer.PumpMusic: puts succeed and the device plays between calls, not during one; a failing put
  would make the loop of the source spin.
- BumpHeap.AlignWraps: the bit mask is taken as rounding to a multiple, which it is for powers of two; other
  alignments above 8 are not modelled.
- BumpHeap.EveryRunKeepsBlocksApart: clients pass pointers they were given, write inside their blocks, and ask for
  what fits in 32 bits; nothing else grows the memory.
- BumpRealloc.EveryRunIsBlank: memory from the heap's base up is zero at the first allocation, as instantiation and
  memory.grow leave it.
- Borrow.ReadersOrOneWriter: shared_realloc is left out, since the header does not say what becomes of borrows; an
  unknown offset or borrow is refused with a code the header leaves open; whether a child can see its own region
  while the application lends it is settled by the exclusion rule.
- The free list of the worker's own allocator (nothing enters it), vtables, GPU, windows, popup, tooling, and the other
  capability headers, which declare without implementing.
