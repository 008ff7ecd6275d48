# Verified core of the Sentry native SDK

This project models the parts of the Sentry native SDK whose correctness is hardest to see from
the code, in Dafny 4.11, and proves what they promise. `dafny verify dfyconfig.toml` checks all of
it.

**Telemetry batcher** (`src/sentry_batcher.c`). Four protocols, each a step system in which any
number of threads move one atomic operation at a time, in any order. `BatcherRing` is the ring of
buffers: producers take and write slots, producers and the flusher rotate the ring, and the
flusher drains buffers oldest first. History variables record what each call was made with and
which slot it got, and but for the item of a call no step reads them; the invariant ties them to
the memory of the ring, and the theorems say that the ring is a first-in first-out queue:
`BatcherRingContents` finds every accepted item, at every moment of every run, at its place in the
emitted batches or in the ring. `BatcherRingFlush` says what every flush has emitted when it is
through, and `BatcherRingAlone` that a call which nobody interferes with comes to its end and does
all it can. `BatchTasks` is the life of a batch between a worker and crash dumpers, and
`BatchDump` what a dumper leaves behind; `BatcherRef` is the pin, acquire, swap and release
scheme, with `BatcherRefUse` on what its calls give, and `BatcherThread` the life of the batching
thread.

**Scope** (`src/sentry_scope.c`). `ScopeLifetime` is the global scope with its reference count,
thread-local nesting and waiting cleanup. `ScopeObservers` is the observer array with tombstones,
as a class; each method is proved to do what a plain list without tombstones does, for every tree
of callbacks that add, remove and notify. `ScopeObserversLife` follows one observer from its
registration to its removal. `ScopeLifetimeCalls` says what single calls achieve.

**JSON** (`src/sentry_json.c`, `src/sentry_value.c`, `vendor/jsmn.h`). `JsonWriter` is the
streaming writer with its comma bits, `JsonString` the escaping and the decoder that overwrites
its own buffer, `JsonReader` the reader that rebuilds a tree from tokens, and `Jsmn` the
tokenizer. The proofs meet in `JsonRoundTrip`: what the writer writes for any value, the tokenizer
and the reader turn back into that value, with its numbers reread and without what lies below 64
levels. An integer has one of the three types of the SDK. `JsonCanonical` adds that every text at
all reads as a proper value, and what becomes of that value when it is printed and read again. A
double is its bits; how the C library prints and reads doubles are two parameters, and the
theorems hold for all of them; the two counterexamples only need that `5.0` is printed as `5`.

**Envelopes** (`src/sentry_envelope.c`, `src/sentry_client_report.c`). `Envelope` is the
serializer and the pointer-moving parser, and `EnvelopeRoundTrip` says exactly which envelopes
survive both; `EnvelopeLength` and `EnvelopeAttachment` are two kinds that do not. `Discards` and
`ClientReport` are the accounting of dropped items.

**Retry queue and cache** (`src/sentry_retry.c`, `src/sentry_database.c`). `CacheName` prints and
parses file names, `RetryQueue` is the queue whose state is in those names, `RetryPass` what a
pass over it hands over, `RetryPoll` the two small state machines for polling and sealing, and
`CachePrune` the sort and the prune loop.

**Breadcrumb ring** (`src/sentry_ringbuffer.c`). `RingBuffer` is the modular-index ring.

Conventions: bytes are characters below 256; atomics are sequentially consistent; mutexes,
condition variables, thread spawn and join, and the background worker are primitives; clocks,
directory listings, send results and the outcome of writes are parameters. Fields called history,
`grants`, `writes`, `recorded`, `delivered`, `gen` or `cleaner` only keep the books.

Where the code and its promise differ, the code is modelled as it is and the exact condition is
proved. A flush can end before the items that were accepted before it: its rotation of the ring is
refused while a producer is counted by mistake in the next buffer (`FlushDrains`,
`RefusedByAStray`, and `RefusalHappens` for such a run); the items stay in the ring for the next
flush. Numbers do not always come back from their text. The three integer types are printed alike
and the reader picks the narrowest that fits, so an unsigned 5 comes back as a 32-bit integer,
which the unsigned accessor takes for zero (`IntegersAreNarrowed`, `UnsignedFiveIsNarrowed`); the
header `attachment_length` is such an integer (`AttachmentRefIsRestored`,
`AttachmentLengthIsNarrowed`). As for doubles, one that is printed without a point or exponent
comes back as an integer, one that is not finite as null, and one that needs 17 digits may come
back as another double. So a value survives writing and reading exactly if it fits 64 levels, each
of its integers has the narrowest type, and each of its doubles is finite, prints short and not as
an integer, and reads as itself (`WrittenIsRead`, `UnchangedIfNumbersSurvive`). What was read has
narrow integers, so printing it and reading it again is stable exactly if the doubles meet that
condition (`ReadingAgain`, and `FiveBecomesAnInteger` for the text `5.0`), and so is an envelope
that was parsed (`ParsedEnvelopeAgain`, and `LengthFiveIsLost` for an item with the length header
`5.0`, which parses, is written with the length `5` and then fails to parse). A payload of 2^31
bytes or more gets a length header that does not frame it (`AddedItemIsRestored`). Cache sizes
that add up past 2^64 bytes can make the prune loop keep too much (`Cleanup`,
`KeepsLongestPrefix`, `WrapAroundKeepsTooMuch`).

## Model

| member | source | states |
|---|---|---|
| `BatcherRingTheorems.RunKeepsInv` | src/sentry_batcher.c:559-701 | every state of every interleaving of producers and flushers satisfies the ring invariant: the sealed buffers are those from drain to active, the active one is sealed only at a swap, and slots, tickets and counters agree |
| `BatcherRingTheorems.FlushReadsOnlyWritten` | src/sentry_batcher.c:586-630 | when flush resets the index of a buffer, the buffer is sealed and not active, no producer that passed the recheck is inside it, and every slot below the limit was written in this generation |
| `BatcherRingTheorems.AcceptedExactlyOnce` | src/sentry_batcher.c:639-701 | each enqueue that returned true is in the queue exactly once, each that returned false is not in it, and there is one overflow discard for each false return |
| `BatcherRingTheorems.QueueHasNoDuplicates` | src/sentry_batcher.c:665-686 | no call has two places in the queue |
| `BatcherRingTheorems.FirstInFirstOut` | src/sentry_batcher.c:639-701 | if one enqueue returned true before another was called, its item comes first in the queue |
| `BatcherRingTheorems.BeforeIsReturnedBefore` | src/sentry_batcher.c:639-701 | what is recorded as earlier than a call is exactly the set of calls that had returned true when it was made |
| `BatcherRingTheorems.EmittedIsFront` | src/sentry_batcher.c:586-635 | at every moment the emitted batches, joined, are the front of the queue |
| `BatcherRingContents.RingHoldsTheQueue` | src/sentry_batcher.c:559-701 | at every moment of every run, whatever producers and the flusher are doing, the emitted batches followed by what the ring holds in drain order are as long as the queue, and the item of every call that has written it is at the place of the call |
| `BatcherRingContents.AcceptedIsHeld` | src/sentry_batcher.c:559-701 | an accepted item is never lost: at every moment it is in the emitted batches or in the ring, at the one place its call has in the queue |
| `BatcherRingContents.EmittedThenHeld` | src/sentry_batcher.c:559-701 | when no slot is half written, the emitted batches followed by the contents of the ring are exactly the items of the queue |
| `BatcherRingFlush.FlushDrains` | src/sentry_batcher.c:582-635 | for every flush of every run: when it is through, every generation before the one that was active at its start is emitted, and that one is emitted or has nothing in it exactly unless its rotation was refused |
| `BatcherRingFlush.FlushDelivers` | src/sentry_batcher.c:558-635 | a flush whose rotation was not refused emits every item that was accepted before it began, at its place |
| `BatcherRingFlush.RefusedByAStray` | src/sentry_batcher.c:194-215 | the rotation for a flush fails only if, when it looked, a producer was counted in the next buffer that was led there by an old index and is about to leave |
| `BatcherRingRefused.RefusalHappens` | src/sentry_batcher.c:590-600 | a run of two threads in which that happens: the flush ends and an accepted item is still in the ring |
| `BatcherRingAlone.FlushAloneEmitsAll` | src/sentry_batcher.c:558-635 | whenever all threads are outside, a flush that then runs alone ends, and everything accepted is emitted in order and the ring is empty |
| `BatcherRingAlone.EnqueueAloneIsAccepted` | src/sentry_batcher.c:639-701 | whenever all threads are outside, an enqueue that then runs alone ends; it returns true exactly if the active buffer has a free slot or the next buffer is free, rotates a buffer that it filled if the next one is free, and records one discard exactly if it returns false |
| `BatcherRingRotation.StepSeal` | src/sentry_batcher.c:207-208 | sealing the buffer that is rotated away keeps the invariant |
| `BatcherRingRotation.StepSwap` | src/sentry_batcher.c:210-214 | publishing the next buffer opens a new generation and keeps the invariant |
| `BatcherRingRotation.StepFlushUnseal` | src/sentry_batcher.c:626-629 | unsealing a drained buffer before the drain index moves keeps the invariant |
| `BatchTasks.RunKeepsInv` | src/sentry_batcher.c:217-501 | every state of every interleaving of workers and crash dumpers satisfies the batch-task invariant |
| `BatchTasks.DisposedExactlyOnce` | src/sentry_batcher.c:351-501 | items are released and the envelope is disposed of at most once, and exactly once when the worker is through and no dumper holds it |
| `BatchTasks.NothingTouchedAfterFree` | src/sentry_batcher.c:259-303 | workers use only items and envelopes they own, dumpers see only tasks that are not freed, and no task is claimed twice |
| `BatchTasks.DumpLoopTerminates` | src/sentry_batcher.c:460-501 | with a fixed task set, coming back to the head of the dump loop lowers the measure of unclaimed tasks and attempts left, which is never negative |
| `BatchTasks.DumpRoundsBounded` | src/sentry_batcher.c:460-501 | the dump loop goes around at most as often as that measure says at the start |
| `BatchDump.DumpLeavesNothing` | src/sentry_batcher.c:459-501 | a crash dumper leaves its loop only after giving up on the lock, or with every task of the list dumped, or after 200 attempts with every task dumped or a worker at it; what it claimed is serialized, released and written |
| `BatcherRef.RunKeepsInv` | src/sentry_batcher.c:86-161 | every state of every interleaving of pins, acquires, swaps and releases satisfies the reference invariant |
| `BatcherRef.NeverFreedWhileUsed` | src/sentry_batcher.c:57-161 | a pinned batcher is not freed before its unpin, an acquired one not before its release, and none is freed twice |
| `BatcherRefUse.AcquireGetsWhatIsInPlace` | src/sentry_batcher.c:122-132 | an acquire that returns gives a counted reference to the batcher that is in place at that moment, and nothing exactly if there is none |
| `BatcherRefUse.OnlyWayOut` | src/sentry_batcher.c:122-143 | an acquire returns only there, and a pin gives the batcher in place at its load and fails exactly if there is none |
| `BatcherRefUse.FreedExactlyWhenUnused` | src/sentry_batcher.c:57-73 | in every run a batcher is freed exactly if it is not in place, no thread has a reference to it and none is about to free it |
| `BatcherThread.RunKeepsInv` | src/sentry_batcher.c:703-890 | every state of every run of start, thread body, crash flush and shutdown satisfies the life-cycle invariant |
| `BatcherThread.JoinedExactlyOnce` | src/sentry_batcher.c:792-860 | the thread is joined at most once and only after it exited, and exactly once if it was spawned, when shutdown is over and the creators have left |
| `BatcherThread.LifeOnlyMovesForward` | src/sentry_batcher.c:703-890 | RUNNING is entered only from STARTING, and STOPPED is left only through startup, which comes once |
| `BatcherThread.SpawnedOnce` | src/sentry_batcher.c:792-818 | only the thread that won the start spawns, and only once |
| `BatcherThread.CrashStopsTheThread` | src/sentry_batcher.c:862-890 | once a crash flush has come to its flush, the batching thread is not in its loop, and never will be |
| `BatcherThread.StartsAlone` | src/sentry_batcher.c:792-818 | after startup the first producer starts the thread and the thread comes to its loop |
| `BatcherThread.StopsAlone` | src/sentry_batcher.c:820-860 | a shutdown stops the running thread and joins it |
| `ScopeLifetime.RunKeepsInv` | src/sentry_scope.c:388-536 | in every run the reference count is one more than the references threads hold, and every holder sees the data it was handed |
| `ScopeLifetime.ReleasedOnlyWhenIdle` | src/sentry_scope.c:467-494 | the scope data is released only when no thread holds a reference |
| `ScopeLifetime.HolderSeesItsData` | src/sentry_scope.c:441-536 | until a reference is given back, the scope holds the very generation of data the thread was handed |
| `ScopeLifetime.TopLevelGetsLiveScope` | src/sentry_scope.c:496-519 | a top-level getref takes its reference only while the scope is initialised and nobody tears it down, and gets the current data |
| `ScopeLifetime.NestedNeverWaits` | src/sentry_scope.c:496-519 | a getref by a holder never waits for a cleanup and gets the same data again |
| `ScopeLifetime.FreshAfterCleanup` | src/sentry_scope.c:388-408 | after a cleanup every getref is handed data that was initialised later |
| `ScopeLifetimeCalls.CleanupLeavesNoScope` | src/sentry_scope.c:467-494 | when a cleanup is about to return there is no live scope: its data is released, or another cleanup waits to release it |
| `ScopeLifetimeCalls.GetrefAlone` | src/sentry_scope.c:496-519 | a getref that finds the lock free and no cleanup under way, or that is nested, returns with one more reference to the data, which it makes if there is none |
| `ScopeLifetimeCalls.CleanupAlone` | src/sentry_scope.c:467-494 | a cleanup that finds the lock free and nobody holding the scope returns with the data released and nothing else changed |
| `ScopeObservers.Scope.AddObserver` | src/sentry_scope.c:593-620 | adding registers the observer behind all others under a new number, also during a notification |
| `ScopeObservers.Scope.RemoveObserver` | src/sentry_scope.c:622-660 | removing takes the observer out of the registered ones, by a tombstone during a notification and by shifting otherwise, and a removal is logged exactly if it was registered |
| `ScopeObservers.Scope.Shift` | src/sentry_scope.c:648-651 | the shift loop removes one entry and keeps the order of the others |
| `ScopeObservers.Scope.Compact` | src/sentry_scope.c:688-696 | the compaction loop removes exactly the tombstones |
| `ScopeObservers.Scope.EndNotify` | src/sentry_scope.c:681-701 | after the outermost end the array has no tombstones and the survivors keep their order; an inner end changes no entry |
| `ScopeObservers.Scope.TakeTurn` | src/sentry_scope.c:105-110 | one round of the loop calls the observer at that place if it is registered and listens, and lets its callback run |
| `ScopeObservers.Scope.VisitAll` | src/sentry_scope.c:102-109 | the loop over the array notifies what the reference notifies: the observers of the start that are still registered at their turn |
| `ScopeObservers.Scope.NotifyObservers` | src/sentry_scope.c:102-112 | a whole notification, with callbacks that add, remove and notify to any depth, does what the reference does |
| `ScopeObservers.Scope.Run` | src/sentry_scope.c:593-701 | every script of adds, removes and notifications leaves the registry, the log and the nesting level of the reference |
| `ScopeObserversOnce.NotifiedOnceInOrder` | src/sentry_scope.c:98-112 | a notification calls registered listeners in the order of registration, none twice and none added later, and each one exactly if it was not removed before its turn |
| `ScopeObserversOnce.AlwaysWellFormed` | src/sentry_scope.c:593-701 | every registry that callers can build satisfies what that theorem assumes |
| `ScopeObserversOnce.PerformEvolves` | src/sentry_scope.c:593-701 | whatever callbacks do, an observer is gone exactly if its removal is logged, and deeper notifications never call at an outer level |
| `ScopeObserversLife.AddedIsCalled` | src/sentry_scope.c:593-620 | whatever is done in between, a notification calls an observer that was added exactly if it listens to it and was removed neither before the notification began nor before its turn |
| `ScopeObserversLife.RemovedIsNeverCalled` | src/sentry_scope.c:622-660 | whatever callers and callbacks do, at any nesting level, nothing is logged of an observer after its removal: no notification calls it, not even one under way |
| `ScopeObserversLife.RemovalIsLogged` | src/sentry_scope.c:622-660 | at any moment, removing a registered observer unregisters it and logs that, and leaves all others registered |
| `ScopeObserversLife.NotifiedOfItsKind` | src/sentry_scope.c:102-112 | the calls of a notification are for what it notifies of |
| `JsonString.EscapeRoundTrip` | src/sentry_json.c:185-274 | decoding the escaped form of any byte string, zero bytes included, gives back that string |
| `JsonString.EscapedIsPrintable` | src/sentry_json.c:205-274 | escaped text holds no control character, so no zero byte and no line break |
| `JsonString.CodePointRoundTrip` | src/sentry_json.c:499-525 | every code point escaped by its number, with a surrogate pair where needed, decodes to its UTF-8 sequence, and half a pair is refused |
| `JsonString.EscapeIsStandard` | src/sentry_json.c:205-274 | every byte is escaped as section 7 of RFC 8259 says: by a two-character escape that stands for it, by its number if it is another control character, and otherwise by itself |
| `JsonString.StandardIsDecoded` | src/sentry_json.c:484-529 | each two-character escape of that standard decodes to what it stands for, and no other is known |
| `JsonString.Utf8IsRead` | src/sentry_string.c:233-261 | the UTF-8 sequence of a code point stands for that code point |
| `JsonString.ReadHex4` | src/sentry_json.c:450-471 | four hexadecimal digits give their value and anything else gives -1, without a read behind the terminator |
| `JsonString.ReadUnicode` | src/sentry_json.c:499-523 | a unicode escape gives its code point and its end, or an error where surrogates do not pair up |
| `JsonString.ReadPiece` | src/sentry_json.c:484-529 | one character or escape sequence is read as the decoder on text reads it |
| `JsonString.DecodeInPlace` | src/sentry_json.c:473-538 | decoding in place gives what the decoder on text gives, with its length and terminator, and neither reads nor changes anything behind the terminator |
| `Bytes.DecimalIsRead` | src/sentry_json.c:310-337 | a printed decimal number reads as that number |
| `JsonWriter.BitAfterSet` | src/sentry_json.c:143-154 | setting or clearing the comma bit of a level changes that bit and no other |
| `JsonWriter.Writer.SetComma` | src/sentry_json.c:143-154 | the comma bit of the current level becomes the given value, the bits of outer levels stay, and below level 64 nothing changes |
| `JsonWriter.Writer.CanWriteItem` | src/sentry_json.c:276-292 | an item may be written exactly above level 64, and a comma is written exactly if an item came before and no key did |
| `JsonWriter.Writer.WriteJsonStr` | src/sentry_json.c:205-274 | writing in runs of plain bytes gives the escaped string |
| `JsonWriter.Writer.WriteItem` | src/sentry_json.c:294-356 | a null, boolean or number is written after its comma, and not at all below level 64 |
| `JsonWriter.Writer.WriteString` | src/sentry_json.c:364-377 | a string is written quoted and escaped after its comma, and not at all below level 64 |
| `JsonWriter.Writer.WriteKey` | src/sentry_json.c:400-410 | a key is written with its colon after its comma, and the value that follows needs none |
| `JsonWriter.Writer.Open` | src/sentry_json.c:412-420 | a container starts one level deeper, with its bracket if it is above level 64 and no comma for its first item |
| `JsonWriter.Writer.Close` | src/sentry_json.c:422-428 | a container ends with its bracket exactly if it started with one |
| `JsonWriter.Writer.WriteList` | src/sentry_value.c:1459-1473 | a list is written as the printer prints the pruned list |
| `JsonWriter.Writer.WriteObject` | src/sentry_value.c:1474-1489 | an object is written as the printer prints the pruned object |
| `JsonWriter.Writer.WriteValue` | src/sentry_value.c:1426-1494 | at any level a value is written as the recursive printer prints it, pruned to the levels that are left |
| `JsonWriter.Writer.WriteDocument` | src/sentry_value.c:1496-1508 | a fresh writer writes what the recursive printer gives for the tree with everything below 64 levels dropped |
| `Json.PrunedFits` | src/sentry_json.c:137-141 | what the writer keeps has at most 64 levels |
| `Json.PruneKeepsWhatFits` | src/sentry_json.c:137-141 | dropping changes nothing exactly if the tree fits |
| `JsonReader.TokensToValue` | src/sentry_json.c:598-709 | the reader with its loops over children computes the recursive reader with its running offset |
| `JsonReader.Read` | src/sentry_json.c:598-709 | reading consumes at least one token and never more than there are |
| `JsonRebuild.ReadsTree` | src/sentry_json.c:598-709 | at the tokens of a value the reader gives back the value with its numbers reread, integers with the narrowest type and doubles as their text reads, and consumes exactly its tokens, if and only if its containers fit the levels that are left |
| `JsonRebuild.RebuildsDocument` | src/sentry_json.c:737-747 | the tokens of a whole document are used up and give the value with its numbers reread exactly if containers nest at most 64 deep, and otherwise reading fails |
| `JsonRebuild.UnchangedIfNumbersSurvive` | src/sentry_json.c:540-596 | rereading the numbers of a value changes nothing exactly if each integer has the narrowest type that holds it and each double is finite, has a text of less than 24 characters that is no integer, and is read as itself |
| `JsonRebuild.IntIsRead` | src/sentry_json.c:540-596 | every integer of 64 bits, signed or unsigned, reads back from its decimal text as the same number with the narrowest of the three integer types |
| `JsonRebuild.NewKeyIsAppended` | src/sentry_value.c:791-831 | setting a key that an object does not have appends it |
| `Envelope.SetThenGet` | src/sentry_value.c:791-831 | a key that was set is found with its last value, every other key as before, and the object grows exactly if the key is new |
| `Jsmn.Parse` | vendor/jsmn.h:268-453 | every string and primitive token of a successful parse lies within the text |
| `JsmnNesting.AcceptedIsNested` | vendor/jsmn.h:268-453 | in every text that is tokenized, every container is between its own brackets, every string between quotes, and of two tokens the later lies behind the earlier or inside of it |
| `JsonTokenize.EscapedIsSkipped` | vendor/jsmn.h:193-262 | the tokenizer finds the closing quote right behind an escaped string |
| `JsonTokenizeTrees.ScansValue` | vendor/jsmn.h:268-453 | over the text of a value the tokenizer adds the tokens of the value in preorder and counts one item for the token it belongs to |
| `JsonRoundTrip.CountAgrees` | src/sentry_json.c:717-735 | the counting pass finds as many tokens as the second pass makes |
| `JsonRoundTrip.TokenizesDocument` | src/sentry_json.c:717-735 | the text of a value gives exactly its tokens in the space that the first pass counted |
| `JsonRoundTrip.ParsesDocument` | src/sentry_json.c:711-747 | reading the text of a value gives back the value with its numbers reread if containers nest at most 64 deep, and null otherwise |
| `JsonRoundTrip.WrittenIsRead` | src/sentry_json.c:711-747 | what the writer writes for a value reads as the value with its numbers reread and without what lies below 64 levels, and as the value itself exactly if it has at most 64 levels, its integers have the narrowest type and its doubles survive |
| `JsonCanonical.ReadIsCanonical` | src/sentry_json.c:598-709 | whatever the tokens, what the reader builds has integers of the narrowest type, keys that are C strings and differ, and fits the levels that are left |
| `JsonCanonical.FromJsonIsCanonical` | src/sentry_json.c:711-747 | every text reads as such a value, with containers at most 64 deep |
| `JsonCanonical.LiteralsAreRead` | src/sentry_json.c:622-644 | the literals of RFC 8259 read as what they stand for |
| `JsonCanonical.ObjectIsStandard` | src/sentry_json.c:400-428 | an object is written with its braces, its members as a quoted key, a colon and the value, and a comma between them |
| `JsonCanonical.ListIsStandard` | src/sentry_json.c:412-428 | a list is written with its brackets and a comma between items |
| `JsonCanonical.ReadingAgain` | src/sentry_json.c:711-747 | for every text, printing what was read and reading it again gives the same value with its numbers reread, and the same value exactly if its doubles survive, since its integers are narrow already |
| `JsonCanonical.FiveBecomesAnInteger` | src/sentry_json.c:340-356 | where the C library prints the double of `5.0` as `5`, that text reads as a double, and what is printed for it as an integer |
| `JsonCanonical.IntegersAreNarrowed` | src/sentry_value.c:1239-1317 | every integer comes back from its text with the narrowest type; the signed accessors find the same number in it, and the unsigned one does so exactly for zero and above 2^63 - 1 |
| `JsonCanonical.UnsignedFiveIsNarrowed` | src/sentry_json.c:561-582 | the unsigned integer 5 is written as `5`, comes back as a 32-bit integer, and is zero when asked for as unsigned |
| `JsonRoundTrip.WriteAndRead` | src/sentry_value.c:1496-1508 | the writer object followed by the reader gives the value with its numbers reread and without what lies below 64 levels, and the value itself exactly if it fits, its integers have the narrowest type and its doubles survive |
| `Envelope.SerializeEnvelope` | src/sentry_envelope.c:869-915 | the serializer writes the header line and then each item as a header line and its payload bytes |
| `Envelope.LengthOf` | src/sentry_envelope.c:1156-1183 | the payload ends at the declared length, at the next line break without one, and is an error if the length is negative, too large or behind the end |
| `Envelope.ParseItem` | src/sentry_envelope.c:1138-1206 | one round of the parse loop reads the first item of the remaining text and moves behind it and the line breaks that follow |
| `Envelope.DeserializeEnvelope` | src/sentry_envelope.c:1104-1210 | the pointer-moving parser computes the parser on text, with its errors |
| `EnvelopeRoundTrip.HeaderLine` | src/sentry_envelope.c:869-880 | headers are written as one line that starts with a brace and reads as the headers with their numbers reread and without what lies below 64 levels, and as the headers themselves exactly if they fit, their integers have the narrowest type and their doubles survive |
| `EnvelopeRoundTrip.PayloadIsCut` | src/sentry_envelope.c:1156-1189 | the parser cuts the payload where it ends exactly if it is framed |
| `EnvelopeRoundTrip.EnvelopeIsRestored` | src/sentry_envelope.c:1104-1210 | writing and reading an envelope restores headers, items and payload bytes exactly if every length header is right, or absent with no line break in the payload, and all headers fit 64 levels and have integers of the narrowest type and doubles that survive |
| `EnvelopeRoundTrip.ParsedItemsAreFramed` | src/sentry_envelope.c:1104-1210 | every item that is parsed from any text is framed by its headers, whose integers have the narrowest type |
| `EnvelopeRoundTrip.ParsedEnvelopeAgain` | src/sentry_envelope.c:1104-1210 | for every text that parses, writing the envelope and reading it again gives the same envelope exactly if its headers and the headers of its items fit 64 levels and have doubles that survive |
| `EnvelopeLength.LengthFiveIsLost` | src/sentry_envelope.c:1156-1183 | an envelope whose item has the length header `5.0` parses with an empty payload, is written with the length header `5`, and then does not parse |
| `EnvelopeRoundTrip.AddedItemIsRestored` | src/sentry_envelope.c:243-269 | an item made for a payload in memory is restored exactly if the payload is shorter than 2^31 bytes |
| `EnvelopeAttachment.AttachmentRefIsRestored` | src/sentry_envelope.c:730-778 | the item that refers to an attachment is restored exactly if the attachment has more than 2^63 - 1 bytes and the payload, if there is one, less than 2^31 |
| `EnvelopeAttachment.AttachmentLengthIsNarrowed` | src/sentry_envelope.c:767-768 | the header `attachment_length` is read back as the narrowest integer, and the unsigned accessor finds the number that was written exactly if it is zero or above 2^63 - 1 |
| `EnvelopeAttachment.AttachmentEnvelopeChanges` | src/sentry_envelope.c:767-768 | an envelope with such an item for an attachment of up to 2^63 - 1 bytes is not what is read from its own text |
| `EnvelopeRoundTrip.EventIdsAgree` | src/sentry_envelope.c:355-374 | the raw event id is the parsed one whenever parsing succeeds, and a serialized envelope keeps its event id even if other headers or items do not survive |
| `EnvelopeRoundTrip.StringHeadersSurvive` | src/sentry_envelope.c:869-880 | every header that is a string comes back from the header line, whatever the other headers are |
| `EnvelopeRoundTrip.EventIsRestored` | src/sentry_envelope.c:1190-1199 | the event of an event or transaction item is restored from its payload with its numbers reread and without what lies below 64 levels, and is the same event exactly if it fits, its integers have the narrowest type and its doubles survive |
| `Discards.IsRatelimited` | src/sentry_envelope.c:168-199 | the loop over the parents gives the verdict on an item, which `HeldBackFor` states by the headers |
| `Discards.HeldBackFor` | src/sentry_envelope.c:168-199 | an item is held back exactly if there is a limiter, it is no client report, and the category of its type is disabled, or it is a plain attachment beside an item of a disabled error, transaction or feedback category |
| `Discards.AttachmentsFollowTheirParent` | src/sentry_envelope.c:186-197 | if an event, transaction or feedback is held back, so is every plain attachment of the envelope |
| `Discards.NoOrphans` | src/sentry_envelope.c:917-956 | what is serialized holds a plain attachment only together with every event, transaction and feedback of the envelope |
| `Discards.CategoriesAgree` | src/sentry_envelope.c:136-222 | which type string gives which category; the two categories of an item differ for minidumps and client reports only |
| `Discards.SerializeRatelimited` | src/sentry_envelope.c:917-956 | exactly the items that are not held back are serialized, in order, one back-off discard is recorded for each other, and nothing is sent if none is left |
| `Discards.KeptOrRecorded` | src/sentry_envelope.c:917-956 | every item is serialized or recorded as a back-off in its category, and none is both |
| `Discards.KeptInOrder` | src/sentry_envelope.c:917-956 | the items that are serialized are those that are not held back, in their order |
| `Discards.Discard` | src/sentry_envelope.c:1470-1494 | discarding records the items that are neither internal nor held back |
| `Discards.ExactlyOneDiscardPerItem` | src/sentry_envelope.c:1470-1494 | both together record in each category exactly one discard per item that is not internal, under back-off or the given reason only |
| `ClientReport.NothingIsLost` | src/sentry_client_report.c:9-66 | in every interleaving of discards, saves, deliveries and restores, cell by cell, what was recorded is what is pending, held and delivered |
| `ClientReport.QuietMeansAccounted` | src/sentry_client_report.c:36-66 | with no reporter at work, every discard is pending or was delivered |
| `ClientReport.DiscardsAreAccounted` | src/sentry_client_report.c:9-66 | for every history of calls: the sum of the positive quantities that were discarded in a cell is what is pending, held and delivered |
| `ClientReport.SaveTakesAll` | src/sentry_client_report.c:36-51 | a save that nobody interferes with takes all counts and leaves zeros, and a delivery delivers them |
| `ClientReport.RestoreGivesBack` | src/sentry_client_report.c:53-66 | a restore adds everything back that the reporter holds |
| `CacheName.NameRoundTrip` | src/sentry_database.c:551-610 | a made name parses back into every 64-bit timestamp, every count and every id of 36 characters, and a kept one is told apart |
| `CacheName.ParsedEndsWithId` | src/sentry_database.c:551-590 | every name that parses ends with its id and the suffix |
| `RetryQueue.Queue.Finish` | src/sentry_retry.c:94-154 | after a send the file is gone, its envelope is found under the next count after a network failure with attempts left, in the cache if a keep mode keeps it after the last one, or as the copy that is made after any other answer, and all other files stay |
| `RetryQueue.ResultSettles` | src/sentry_retry.c:94-154 | the same of the directory as a value, for every result and keep mode |
| `RetryQueue.Queue.Loop` | src/sentry_retry.c:226-247 | the send loop does to the store what a pass does, of which `PassStopsAtFailure` states what it hands over, where it ends and what it leaves alone |
| `RetryQueue.Queue.Send` | src/sentry_retry.c:156-254 | collecting, sorting and sending is a pass over exactly the due files of the listing, oldest first |
| `RetryPass.PassStopsAtFailure` | src/sentry_retry.c:226-247 | whatever arrives and goes in between, a pass comes to its files one after the other up to the first network failure; it hands over one envelope for each file that is there and can be read at its turn; and a file it did not come to is as it was, unless somebody else touched it or the failed envelope took its name |
| `RetryPass.UndisturbedPass` | src/sentry_retry.c:226-247 | when nobody interferes, the envelopes of the order are handed over once each, up to the first network failure and with it, or all if there is none, and the files behind it are untouched |
| `RetryQueue.OrderIsDueOldestFirst` | src/sentry_retry.c:80-92 | a pass takes exactly the due files of the listing, by timestamp, then by count, then by id |
| `RetryQueue.TextOrderIsByBytes` | src/sentry_retry.c:91 | ids are ordered by the first byte in which they differ |
| `RetryQueue.BackoffDoubles` | src/sentry_retry.c:65-71 | the wait before a retry is 15 minutes times two to the number of attempts, at most five |
| `RetryQueue.ResultDecides` | src/sentry_retry.c:94-154 | after a network failure with attempts left an envelope waits under its id with the next count, in every other case it waits no more, and other files stay |
| `RetryQueue.SendKeeps` | src/sentry_retry.c:94-154 | after any result, a waiting file still says how often its envelope was sent and no envelope waits twice |
| `RetryQueue.AtMostSixSends` | src/sentry_retry.c:94-254 | across any passes, restarts, arrivals and removals an envelope is handed to the send callback at most six times, and a waiting file counts its sends |
| `RetryPoll.RunKeepsInv` | src/sentry_retry.c:256-367 | in every interleaving of poll, enqueue, shutdown and seal at most one poll is queued, granted or being taken, and none while the state is idle |
| `RetryPoll.AtMostOnePoll` | src/sentry_retry.c:256-278 | never two polls in the queue, never one beside a thread that may submit one, never two threads that may |
| `RetryPoll.NoGrantAfterShutdown` | src/sentry_retry.c:308-318 | once SHUTDOWN is stored it stays and no poll is granted |
| `RetryPoll.SealedForGood` | src/sentry_retry.c:320-329 | SEALED is absorbing and no envelope is written from then on |
| `RetryPoll.NoWriteAfterSeal` | src/sentry_retry.c:345-357 | nothing is written after a call of seal has returned |
| `RetryPoll.EnqueueLeavesAPoll` | src/sentry_retry.c:345-367 | no wake-up is lost: when an enqueue that wrote its envelope returns, a poll that has not begun to send is queued or in the hands of a thread, or a shutdown has begun |
| `RetryPoll.EnqueueAlone` | src/sentry_retry.c:345-367 | an enqueue that finds the lock free and the queue not sealed writes its envelope and leaves a poll scheduled if none was |
| `CachePrune.Prune` | src/sentry_database.c:1130-1172 | the loop removes the entries that are too old or exceed a limit, and records overflow exactly for removed entries that are not too old |
| `CachePrune.Cleanup` | src/sentry_database.c:1130-1172 | for a listing in any order, the entries are put newest first and exactly the longest prefix that meets the age, size and item limits together is kept, if and only if no entry fits only because the size counter wrapped around; none does if all sizes add up to less than 2^64 bytes |
| `CachePrune.Sort` | src/sentry_database.c:917-933 | the sort gives the same entries, newest first |
| `CachePrune.KeepsLongestPrefix` | src/sentry_database.c:1130-1172 | exactly the longest newest-first prefix that meets the age, size and item limits together is kept, if and only if no entry fits only because the size counter wrapped around |
| `CachePrune.SmallSizesFit` | src/sentry_database.c:1141-1155 | sizes that add up to less than 2^64 bytes never wrap around |
| `CachePrune.WrapAroundKeepsTooMuch` | src/sentry_database.c:1141-1155 | two entries of 2^63 bytes are both kept under a limit of 2^63 bytes |
| `RingBuffer.RingBuffer.AppendValue` | src/sentry_ringbuffer.c:50-73 | after an append the list form is what it was with the value behind it, cut to its last values that the capacity has room for; it fails exactly with capacity zero |
| `RingBuffer.RingBuffer.Values` | src/sentry_ringbuffer.c:75-95 | the loop over the ring gives the values oldest first |
| `RingBuffer.RingBuffer.ChangeMaxSize` | src/sentry_ringbuffer.c:97-111 | the capacity becomes the given one exactly if the list form is empty, and the list form stays |
| `RingBuffer.AppendShifts` | src/sentry_ringbuffer.c:50-73 | one more value drops the oldest exactly if the ring is full |
| `RingBuffer.ListIsLastAppended` | src/sentry_ringbuffer.c:50-95 | after any history of appends the list form is the last values of the history, as many as fit |
| `RingBuffer.CapacityIsFixedOnceUsed` | src/sentry_ringbuffer.c:97-111 | once a value was kept, setting the capacity changes nothing |

## Left out

- Weak memory orders, liveness of spin waits and wall-clock back-off: atomics are sequentially consistent steps and only safety is proved, except for the bound on the dump loop.
- The fallback of the batcher when the thread pool cannot start (src/sentry_batcher.c:533-540), and the pool and background worker themselves.
- BatcherThread.JoinedExactlyOnce: one startup and one shutdown, as the SDK calls them.
- ScopeLifetime.RunKeepsInv: the path for signal handlers, which takes no lock, and scopes other than the global one.
- ScopeObservers.Scope.Run: a callback is a finite script per turn; adding the same observer object twice and failing allocation are not modelled.
- JsonWriter.Writer.WriteValue: a sink that fails part-way, and the 32-bit depth counter beyond 2^32 nested containers; timestamps and uuids are strings here.
- JsonReader.Read: a double is its bits; `strtod` and the printing of doubles with 16 digits are parameters, of which only the characters of the printed text are known.
- JsonRebuild.ReadsTree: keys are C strings; a key given with its length may hold a zero byte (src/sentry_value.c:833-839), and such keys are not modelled.
- Jsmn.Parse: the tokenizer is a function of the text, not a loop over a token array, and its positions are unbounded integers.
- Reference counting, freezing, merging and MessagePack of values; a value is an immutable tree.
- Raw envelopes beyond their event id, attachments, and writing envelopes to files.
- Discards.IsRatelimited: the limiter is a fixed set of disabled categories; parsing rate-limit headers is not modelled.
- ClientReport.NothingIsLost: counters are unbounded, and the reset at start-up is not a step.
- RetryQueue.AtMostSixSends: renames and removals succeed, and the process does not end between a send and the rename that follows it; sibling files of an envelope are not modelled.
- RetryQueue.Queue.Send: the returned number of files that are still waiting, and the check for user consent, are not modelled.
- CachePrune.Cleanup: sizes of sibling files are part of the entry size, and siblings are not removed here; the order of entries with equal times is not fixed, as `qsort` leaves it.
- Options, transports, backends, session tracking, the watchdog, module and register collection, and file system access: plumbing around this core.
