# Expert streaming engine: a verified model

This project models, in Dafny 4.11, the parts of a mixture-of-experts inference
engine whose correctness rests on more than one function: the streaming of expert
weights from disk through a byte-budgeted cache, the tokenizer, the key/value cache
and the token loop on top of it, the staging of experts onto a GPU, and two smaller
pieces (dense warm-up reads and the matrix-vector row kernel).
`dafny verify dfyconfig.toml` checks the whole project.

## How it is organised

**The expert cache.** `LruModel` gives the cache of `src/storage/lru_cache.h` as a
value (recency order, table, byte counter) with the functions its operations compute;
`LruProperties` proves what it promises over single calls and whole runs, `LruAdmission`
exactly which insertions are accepted; `ExpertLru` is the class with its linked list and
stored iterators, each method proved to compute those functions.

**The streaming pipeline.** `ExpertDisk` says where weights live and which bytes a key
stands for, with the synchronous loader as the simple specification. `Runs` coalesces
projections into merged shard reads. `Wiring`, `WiringSteps`, `Assembling` and
`AssemblySteps` describe assembly buffers filled by read callbacks in atomic steps: the
copy of a slice, the decrement of the counter, the exchange of the flag, the move into
the cache and the erasure from the in-flight set are separate steps. `Pipeline` is the
state machine of all threads: the forward thread staging batches, submitting reads and
serving getters through their residency checks, polling, time-out and synchronous
fallback; reader threads taking reads from the queue and running callbacks; the
in-flight mutex; the stop of the reader. A step is one access to shared state or one
critical section, so a run is any interleaving. `PipelineSafety` proves that no
interleaving changes a byte, `PipelineBooks` and `PipelineRuns` the counters, the queue
and the callbacks, `PipelineUnique` that nothing is staged twice,
`PipelineProgress` that the engine never locks up and always comes to rest,
`PipelineDelivery` what has been delivered by then, exactly, when reads may fail,
`PipelineCap` the bound on speculation, `RouterStaging` the batches built after routing,
`PipelineStaging` that a batch is staged as a whole, and `PipelineCache` that the cache
lives through a plain sequence of its own operations whatever the threads do.

**The tokenizer.** `Utf8`, `ByteLevel`, `Bpe`, `PreTokenize` and `TokenTables` are its
layers, `RoundTrip` the theorem that decoding undoes encoding (and exactly where it does
not), `Fallback` what is lost when a merge leads out of the vocabulary, `NativeTokenizer`
the class with its loops.

**Key/value cache and forward.** `KvModel` is a map from (kind, layer, head, position)
to vectors; `KvBuffers` and `KvCache` are the strided, growing buffers that hold it.
`ForwardModel` is the token loop with the numeric kernels as arbitrary deterministic
functions, `ForwardRuns` what it guarantees over calls, `ForwardReference` that it computes
what a transformer without a cache computes, `ForwardEngine` the loops on the strided cache.

**The GPU staging cache.** `GpuModel` models the copy stream as a queue of copies that the
device carries out in order at any time, a queued copy reading its pinned slot only when
it is carried out, and an event as a position in that queue. `GpuSafety` proves the
guarantees, `GpuRecency` exactly which experts are resident, `GpuFaults` exactly when a computation is right after failed stagings,
`GpuErrors` what failing computations can and cannot damage, `GpuCache` is the class.

**Smaller pieces.** `WarmUp` and `Gemv`.

## Assumptions

Sizes and counters are mathematical integers. Tensor locations lie inside their shards,
shard contents never change, the expert tables are complete for every layer, and expert
ids stay below the shared slots (`numLocalExperts <= 0xFF00`). Statements about one
unfinished assembly per key additionally assume different keys inside one batch, which
`RouterStaging.BatchKeysDistinct` shows for the batches built after routing. GPU keys are
those of layers from 1 on, as key 0 doubles as the mark for "nothing evicted". The compute
stream keeps a wait it was given even when the call fails afterwards, and a computation that
succeeds has passed all its waits, since its last copy to the host is synchronous. The
shapes of chunks are stated for character classes in which letters, numbers and spaces are
different things and newlines are spaces; that chunks tile the text needs no such condition.

## What the proofs found

- `ExpertLRU::insert` can refuse a block although the identical call repeated succeeds:
  the failing sweep uses soft protections up (`LruAdmission.RefusedThenAccepted` is such a
  cache). Which call of a series is accepted can be read off the cache before the first
  (`LruAdmission.InsertAdmissionExact`, `LruAdmission.RefusedThenAcceptedExact`). A
  refused replacement drops the old entry, and an accepted one loses the pin
  (`LruProperties.ReinsertUnpins`).
- The tokenizer's round trip breaks, for otherwise good tables, exactly when some added
  content, first of its kind in the sorted list, is not the content of the last token with
  its id (`RoundTrip.RoundTripIffSpecialsInvert`, `RoundTrip.SpecialsInvertUnlessMisled`).
  Two contents under one id can be enough (`RoundTrip.SharedIdBreaks`) and can be harmless
  (`RoundTrip.ShadowedIdIsHarmless`).
- `asciiCaseEq` folds no case, so upper-case contractions are not recognised
  (`PreTokenize.AsciiCaseEqFoldsNothing`); the last-resort branch of `preTokenize` is dead.
- The per-character fallback of `encodeChunk` drops the last byte of a piece when its
  symbol is one byte long (`Fallback.FallbackLoses`, `Fallback.TwoLettersLose`).
- `forward` on an input that is not strictly longer than what was already fed returns -1
  (`ForwardRuns.PieceByPieceToken`).
- A staging whose upload fails leaves the expert in the table; the next staging reports
  success without uploading (`GpuFaults.FailureStaysHidden`) and the computation reads
  whatever the slot holds (`GpuFaults.SpoiltReadsAsIs`). It is right exactly when the slot
  happens to hold the expert's own block (`GpuFaults.RightExactlyWhen`;
  `GpuFaults.FailedUploadServesStale` is a run in which it does not).
- A computation that fails after its wait was queued clears the mark of a pinned slot that
  may still have to be copied from. The slot is then safe to reuse exactly when that copy
  has been carried out (`GpuErrors.ClaimIsSafeExactly`); reused too early, it serves one
  expert another's weights (`GpuErrors.FailedComputeCorrupts`).
- One failed read keeps its experts' keys in flight for good: they are never staged or
  handed over again (`PipelineDelivery.LostForGood`, `PipelineDelivery.OneFailedRead`), and
  40 such keys end speculation (`PipelineDelivery.LostKeysEndSpeculation`). All other
  experts are delivered (`PipelineDelivery.QuietExactly`).
- The comment on the extra prefetch after routing speaks of the current layer, but the code
  stages those experts for the next layer; the code is followed.

## Model

| member | source | states |
|---|---|---|
| LruModel.InsertContents | src/storage/lru_cache.h:96-124 | Every insertion, accepted or refused, leaves a duplicate-free list naming exactly the table's keys, `used` equal to the bytes held and within the capacity; other keys keep their bytes, other pinned entries are untouched, and the inserted key holds exactly the new bytes or is gone |
| LruModel.EvictOneValid | src/storage/lru_cache.h:184-199 | One sweep keeps the whole representation invariant and, when it reports a victim, the list is shorter by exactly one |
| LruModel.MakeRoomValid | src/storage/lru_cache.h:109-113 | The eviction loop keeps the invariant; what is left is part of what was, with the same bytes, and every pinned entry is still there unchanged |
| LruModel.CopyToValid | src/storage/lru_cache.h:76-90 | Copying out, hit or miss, large enough destination or not, keeps the invariant and changes no entry |
| LruModel.BoostValid | src/storage/lru_cache.h:137-143 | A boost of a resident key by n leaves it protected from at least n sweeps, from no fewer than before, and from as many as one of the two; its bytes, its pin and every other entry stay, the key is first in the recency order, nobody is evicted, and an absent key changes nothing |
| LruAdmission.InsertAdmission | src/storage/lru_cache.h:92-124 | A block that fits beside everything pinned or soft-protected is always accepted; one that does not fit beside the pinned bytes is always refused |
| LruAdmission.InsertAdmissionExact | src/storage/lru_cache.h:92-124 | For every cache: an insertion is accepted if and only if the block fits beside the other entries that never make way, those pinned or protected more often than there are entries nearer the head that make way |
| LruAdmission.RefusedThenAcceptedExact | src/storage/lru_cache.h:109-114 | For every cache and every number n of refusals in a row: the identical call made once more is accepted if and only if the block fits beside the entries that stay when n more victims are counted |
| LruAdmission.MakeRoomStaying | src/storage/lru_cache.h:109-113 | An eviction loop that finds room does not change which entries make way in the end; one that finds none leaves exactly the bytes that stay and passes once more over each of their entries |
| LruProperties.MakeRoomSweeps | src/storage/lru_cache.h:109-113 | The eviction loop is a whole number of sweeps |
| LruProperties.SweepsAreNeeded | src/storage/lru_cache.h:109-113 | Before every sweep of an insertion the block did not fit, and only the last sweep may find no victim: eviction stops as soon as the block fits |
| LruProperties.ProtectionOutlives | src/storage/lru_cache.h:180-191 | Over any number of consecutive sweeps an unpinned entry with protection p is gone only after at least p sweeps have passed over it; while resident its protection is p less the passes; pinned it never changes |
| LruProperties.ProtectionOutlivesRun | src/storage/lru_cache.h:92-143 | Over every run that neither re-inserts nor boosts the key nor resizes, counting the sweeps of all its insertions that pass over the key unpinned: resident, its protection is what it was less that count and its bytes are unchanged; gone, it was charged at least as often as it was protected |
| LruProperties.BoostOutlives | src/storage/lru_cache.h:92-143 | From a boost of a resident key by n on, over every run that neither re-inserts it nor resizes the cache, further boosts included: it is gone only after at least n sweeps charged it, and while resident it is pinned or its protection and the charges add up to at least n |
| LruProperties.ResidentBytes | src/storage/lru_cache.h:96-124 | In every run, whatever is offered, replaced, evicted, refused, pinned, boosted or resized, a resident key holds the bytes of its last insertion whose block was not larger than the capacity of its time |
| LruProperties.PinnedSurvives | src/storage/lru_cache.h:126-131 | A pinned key stays resident and pinned with unchanged bytes through every run that neither re-inserts it nor resizes the cache |
| LruProperties.ReinsertUnpins | src/storage/lru_cache.h:101-123 | Re-inserting ends a pin: accepted, the new entry is unpinned; refused for want of room, the key is gone |
| LruProperties.OrderIsRecency | src/storage/lru_cache.h:59-143 | In every run the list is sorted by the time each key was last touched |
| LruProperties.VictimIsLeastRecent | src/storage/lru_cache.h:101-113 | After every run, in the first and every further sweep of the next insertion, of a new or a resident key: a sweep with a victim removes exactly the one key that is neither pinned nor protected and was touched longest ago |
| ExpertLru.IteratorPointsHome | src/storage/lru_cache.h:171-178 | Every stored list iterator denotes the node that holds its own key |
| ExpertLru.ExpertLRU.constructor | src/storage/lru_cache.h:46 | A new cache is empty, linked and within its capacity |
| ExpertLru.ExpertLRU.Resize | src/storage/lru_cache.h:49-57 | Clears list, table and byte counter and sets the capacity |
| ExpertLru.ExpertLRU.Contains | src/storage/lru_cache.h:145-148 | True exactly for resident keys |
| ExpertLru.ExpertLRU.CopyTo | src/storage/lru_cache.h:76-90 | Hit and large enough: exactly the entry's bytes at the front of the destination, the rest of it untouched; any hit, even too small, moves the key to the front |
| ExpertLru.ExpertLRU.EvictOne | src/storage/lru_cache.h:184-199 | Walking nodes from the tail does what the sweep of the model does, linked iterators included |
| ExpertLru.ExpertLRU.Erase | src/storage/lru_cache.h:101-107 | Drops the old entry with its bytes before a replacement |
| ExpertLru.ExpertLRU.EvictUntilFits | src/storage/lru_cache.h:109-113 | The guarded loop equals the unguarded one: the guard never cuts it short |
| ExpertLru.ExpertLRU.Insert | src/storage/lru_cache.h:96-124 | The linked cache after an insertion is the model's, and the result is the model's |
| ExpertLru.ExpertLRU.Pin | src/storage/lru_cache.h:127-131 | Pins a resident key, nothing otherwise |
| ExpertLru.ExpertLRU.Boost | src/storage/lru_cache.h:137-143 | The linked cache after a boost is the model's; a resident key's protection becomes the larger of the old one and the given number, its bytes and pin staying |
| ExpertDisk.LoadExpertFromDisk | src/engine/scheduler.cpp:579-601 | The synchronous loader returns nothing for an unknown or empty expert or when a shard of a non-empty projection cannot be mapped, otherwise exactly gate, up and down end to end |
| ExpertDisk.CopyParts | src/engine/scheduler.cpp:591-599 | The copy loop returns the concatenation of the projections' bytes, or nothing as soon as a shard cannot be mapped |
| ExpertDisk.OffsetsDisjoint | src/engine/scheduler.cpp:463-472 | Projections occupy disjoint, increasing stretches of the assembled block |
| ExpertDisk.PartsInPlace | src/engine/scheduler.cpp:463-472 | A block of the right size in which every non-empty projection stands at its offset is the block the synchronous loader builds |
| ExpertDisk.RoutedBlock | src/engine/scheduler.cpp:579-601 | The block of a routed expert is its gate, up and down projections, in this order, as they stand on disk |
| ExpertDisk.SharedBlock | src/engine/scheduler.cpp:424-448 | The block of a shared slot is the one projection of that slot; a key that names nothing has no bytes |
| Runs.MergeShard | src/engine/scheduler.cpp:484-507 | From the offset-sorted projections of a shard: each lands in exactly one run, in order and at its own offset; runs start and end with their slices; consecutive runs are more than the tolerated gap apart |
| Runs.GroupByShard | src/engine/scheduler.cpp:463-470 | Every projection is listed under its shard, in batch order |
| Runs.BuildRuns | src/engine/scheduler.cpp:481-508 | For any batch the runs carry exactly the batch's projections (as multisets), every run is tight, and any two runs of one shard are more than the gap apart |
| Runs.PaddingBounded | src/engine/scheduler.cpp:488-506 | The bytes a run reads that no slice covers are at most the gap times (slices - 1) |
| Runs.ReachCovers | src/engine/scheduler.cpp:500-505 | Every slice ends within its run |
| Wiring.StageParts | src/engine/scheduler.cpp:460-472 | The per-key loop queues one read for each non-empty projection with its offset in the block, and the counter ends at the number of non-empty projections |
| Wiring.BatchIosDistinct | src/engine/scheduler.cpp:405-472 | No projection of a batch is queued twice |
| Wiring.FlatUnique | src/engine/scheduler.cpp:486-508 | When all projections differ, each has one place in the runs |
| WiringSteps.CreateKeeps | src/engine/scheduler.cpp:450-461 | Making a private assembly keeps the pipeline invariant |
| WiringSteps.SliceFromPart | src/engine/scheduler.cpp:486-506 | Every slice of the runs of a batch is a non-empty projection of one of its assemblies, inside its run at the right offset |
| WiringSteps.PartInRuns | src/engine/scheduler.cpp:486-506 | Every non-empty projection of the batch is in some run |
| WiringSteps.SliceOnce | src/engine/scheduler.cpp:486-506 | Two slices for the same place of the same assembly are one slice |
| WiringSteps.RunsReadable | src/engine/scheduler.cpp:488-506 | With tensors inside their shards every run lies inside its shard |
| WiringSteps.WiredOffsets | src/engine/scheduler.cpp:456-470 | Right after wiring, the slices not yet counted down are exactly the non-empty projections, so the counter starts exact |
| WiringSteps.WireKeeps | src/engine/scheduler.cpp:475-508 | Wiring any regrouping of the batch into runs keeps the pipeline invariant |
| AssemblySteps.QuietKeeps | src/storage/iocp_reader_posix.cpp:38-96 | Submission, queueing, reading, failing and returning keep the invariant of every assembly |
| AssemblySteps.PendingAlive | src/engine/scheduler.cpp:555-571 | A slice not yet counted down keeps its assembly's buffer alive, uninserted and its counter positive |
| AssemblySteps.CopyIsSafe | src/engine/scheduler.cpp:555-559 | The copy of a slice reads inside the bytes read and writes inside a buffer that has not been moved out |
| AssemblySteps.CopyKeeps | src/engine/scheduler.cpp:555-559 | Copying a slice keeps the invariant: what was in place stays in place and the new slice is in place |
| AssemblySteps.DecKeeps | src/engine/scheduler.cpp:560 | Counting a slice down keeps the counter equal to the number of slices still to be counted |
| AssemblySteps.ExchangeIsFirst | src/engine/scheduler.cpp:560-562 | The inserted flag is never found set: one callback only sees the counter reach zero |
| AssemblySteps.BufferComplete | src/engine/scheduler.cpp:560-565 | When the counter is zero the buffer holds exactly the bytes the synchronous loader would produce |
| AssemblySteps.MoveKeeps | src/engine/scheduler.cpp:562-567 | The block handed to the cache is complete and is handed over for the first time; the invariant is kept |
| AssemblySteps.EraseKeeps | src/engine/scheduler.cpp:568 | Finishing the hand-over keeps the invariant |
| PipelineSafety.StepSafe | src/engine/scheduler.cpp:390-800 | Every step of every thread keeps: cache entries equal to the disk bytes of their keys, right answers, intact scratch buffers, sound assemblies |
| PipelineSafety.SchedulingChangesNoByte | src/engine/scheduler.cpp:390-800 | After any run, whatever the interleaving, evictions, failed reads and refused insertions: every cache entry is its key's disk bytes, every getter returned what the synchronous load returns, and every buffer handed out still shows its expert |
| PipelineSafety.CopiesAndHandoversAreSound | src/engine/scheduler.cpp:555-571 | In every reachable state a copy about to happen is inside live memory, the exchange is the first, and a buffer about to be moved is complete, fully counted down and not handed over before |
| PipelineSafety.CountersAreExact | src/engine/scheduler.cpp:456-565 | In every reachable state the counter of an assembly is the number of its slices not counted down, and every slice counted down stands in the buffer byte for byte |
| PipelineBooks.SubmitBooks | src/storage/iocp_reader_posix.cpp:85-96 | Counting a read as pending, then queueing it, or refusing it when stopped, keeps counter, queue and submission loop in step |
| PipelineBooks.TakeBooks | src/storage/iocp_reader_posix.cpp:44-51 | Taking the front of the queue keeps the queue exactly the waiting reads |
| PipelineBooks.CompleteBooks | src/storage/iocp_reader_posix.cpp:61-63 | Counting a returned read off keeps pending exact |
| PipelineBooks.EraseBooks | src/engine/scheduler.cpp:563-568 | Erasing the key and releasing the mutex leaves no key in flight without an unfinished assembly |
| PipelineRuns.BooksHold | src/storage/iocp_reader_posix.cpp:70-101 | In every reachable state pending is the number of submitted reads whose callback has not returned, the queue holds exactly the waiting reads without repetition, at most one callback is in the critical section, and every key in flight has an unfinished assembly |
| PipelineDelivery.QuietExactly | src/engine/scheduler.cpp:475-571 | In every run, failed reads and refused submissions included: when nothing is pending and the forward thread is idle, a staged expert has been handed over exactly once unless one of its own reads failed, one that lost a read was never handed over, and only keys that lost a read are in flight |
| PipelineDelivery.QuietInFlight | src/engine/scheduler.cpp:475-571 | With different keys inside each batch the in-flight set of a quiet pipeline is exactly the keys that lost a read |
| PipelineDelivery.QuietMeansDelivered | src/engine/scheduler.cpp:475-571 | When no read failed, a quiet pipeline has nothing in flight and has handed every assembly ever made over exactly once; PipelineStaging.BatchIsStaged says for which entries of a batch assemblies are made |
| PipelineDelivery.FailuresAreForGood | src/storage/iocp_reader_posix.cpp:52-63 | Over every run the failed reads are exactly those some step made fail: nothing else loses a read and no later step recovers one |
| PipelineDelivery.LostForGood | src/engine/scheduler.cpp:542-571 | With different keys inside each batch, from every reachable state in which an expert has lost a read, however the run goes on: its key stays in flight, its assembly is never handed over, and the key is never staged again |
| PipelineDelivery.LostKeysEndSpeculation | src/engine/scheduler.cpp:393-399 | With different keys inside each batch, once as many keys as the cap have lost a read, starting speculation does nothing in every later state |
| PipelineDelivery.OneFailedRead | src/engine/scheduler.cpp:542-571 | For every expert with data there is a run in which its first read alone fails and the engine comes to rest with its key in flight |
| PipelineDelivery.CanDeliver | src/engine/scheduler.cpp:390-571 | From every reachable state in which the reader runs and no read has failed some continuation delivers everything staged |
| PipelineRuns.CallbackOnce | src/storage/iocp_reader_posix.cpp:42-96 | Over every run the callback of a read runs as often as its phase says: never twice |
| PipelineRuns.CallbackBeforeCountdown | src/storage/iocp_reader_posix.cpp:61-63 | When the pending count is about to drop for a read, its callback has run exactly once |
| PipelineUnique.OneAssemblyPerKey | src/engine/scheduler.cpp:405-479 | With different keys inside each batch there is at most one unfinished assembly per key at any time, and the in-flight set is exactly the keys of the shared unfinished assemblies |
| PipelineStaging.BatchIsStaged | src/engine/scheduler.cpp:390-479 | In every run, for every accepted batch, demand or speculative: by the step that marks it, each entry with a layer in range and something to read is in flight and has an assembly made for this batch, unless its key was resident or in flight at some moment between start and mark; and a key newly in flight is wanted by the batch and was at some moment not resident and at some moment not in flight |
| PipelineStaging.OwnKeyIsStaged | src/engine/scheduler.cpp:683-685 | The same for the batch of one key that a getter stages for itself after a miss |
| PipelineStaging.NewKeysOneAssemblyEach | src/engine/scheduler.cpp:404-479 | A batch of different keys, none resident or in flight while it is staged, ends with every wanted key in flight and exactly one unfinished assembly for each |
| PipelineStaging.StagedIsDelivered | src/engine/scheduler.cpp:390-571 | From the batch to the cache, over every run: when the pipeline is quiet again, every wanted entry of an accepted batch that was never seen resident or in flight while it was staged has had an assembly, handed to the cache exactly once unless one of its reads failed |
| PipelineCache.CacheRunsAlone | src/engine/scheduler.cpp:390-800 | Every run of all threads, in any interleaving, leaves the cache as a plain sequence of cache operations would: callbacks and synchronous loads insert exactly the disk bytes of their key, getters copy and pin, nothing else touches it |
| PipelineCache.HandoversAreInsertions | src/engine/scheduler.cpp:560-567 | Over every run an assembly counts as handed over once for each step that inserts its block, and each such step is the insertion of exactly the key's disk bytes |
| PipelineCache.SettledPinStays | src/engine/scheduler.cpp:404-742 | A pinned resident expert that no assembly and no getter is still about to insert stays resident and pinned with its disk bytes through every continuation in which no wait for it times out, and it is never read again |
| PipelineCache.LoadHasReason | src/engine/scheduler.cpp:683-721 | A getter loads an expert synchronously only after its wait timed out or after it found the key not in flight once more |
| PipelineProgress.NotStuck | src/engine/scheduler.cpp:390-800 | In no reachable state is the engine stuck: while a call or a read is under way some thread of the engine can take a step other than polling in vain or failing a read |
| PipelineProgress.FutilePollIsIdle | src/engine/scheduler.cpp:771-780 | A poll that does not find its expert leaves the whole state as it is |
| PipelineProgress.StepNearer | src/engine/scheduler.cpp:390-800 | Every step of the forward thread or of a reader, save a poll in vain, lowers one measure: rank of the forward thread, then what is left of its batch, then the steps left to the reads |
| PipelineProgress.Settles | src/engine/scheduler.cpp:390-800 | From every reachable state finitely many steps of the engine's own threads, none a poll in vain and none a failing read, lead to rest: the forward thread idle and no read outstanding |
| PipelineProgress.EveryScheduleEnds | src/engine/scheduler.cpp:390-800 | From a reachable state no infinite schedule of the engine's own threads without polls in vain exists, however they are interleaved |
| PipelineCap.SpeculativeBatchIsBounded | src/engine/scheduler.cpp:393-399 | In every run, whatever demand staging and getters came before: from the start of a speculative batch of n entries that is not turned away until the batch after it is marked, fewer than 40 + n keys are in flight |
| RouterStaging.BatchFor | src/engine/scheduler.cpp:354-385 | The loop builds the batch of known experts followed by the three shared slots; its entries are exactly those, of the one layer |
| RouterStaging.BatchEntries | src/engine/scheduler.cpp:354-385 | An entry is in the batch if and only if it is of the layer and names a listed expert that exists or one of the three shared slots |
| RouterStaging.BatchKeysDistinct | src/engine/scheduler.cpp:354-385 | Different experts give a batch with pairwise different keys: neither the cut to 16 bits nor the shared slots make two entries meet |
| ByteLevel.BuildByteMap | src/tokenizer/native_tokenizer.cpp:18-33 | The table-filling loops produce the ByteLevel alphabet |
| ByteLevel.ByteToCpFacts | src/tokenizer/native_tokenizer.cpp:18-33 | The alphabet is injective, never uses U+0020 and stays below U+0144 |
| ByteLevel.FirstByteInverts | src/tokenizer/native_tokenizer.cpp:466-469 | The search loop of decode finds the byte a code point stands for |
| ByteLevel.SpelledReads | src/tokenizer/native_tokenizer.cpp:362-469 | Reading a spelled chunk byte by byte gives the chunk back |
| ByteLevel.SpelledHasNoSpace | src/tokenizer/native_tokenizer.cpp:362-366 | No spelled chunk contains a space |
| ByteLevel.Spell | src/tokenizer/native_tokenizer.cpp:360-366 | The spelling loop produces one symbol for each byte |
| ByteLevel.ReadToken | src/tokenizer/native_tokenizer.cpp:459-471 | The reading loop produces the bytes a token stands for |
| Bpe.PairLookup | src/tokenizer/native_tokenizer.cpp:173-180 | Looking up the string "a b" finds exactly the listed pair (a, b), with the rank of its last listing, for pieces without a space |
| Bpe.RanksBounded | src/tokenizer/native_tokenizer.cpp:173-180 | Ranks are positions in the list |
| Bpe.FindBestPair | src/tokenizer/native_tokenizer.cpp:337-346 | The scan finds the leftmost of the lowest-ranked adjacent pairs |
| Bpe.Merge | src/tokenizer/native_tokenizer.cpp:334-357 | The in-place merge loop terminates; its result is reached from the letters by joining, again and again, the leftmost of the adjacent pairs of lowest rank in the table, and no adjacent pair of the result has a rank |
| Bpe.MergedExactly | src/tokenizer/native_tokenizer.cpp:334-357 | That relation, stated by quantifiers over the table, leads from every word to one result only, and the merging computes it |
| Bpe.MergedJoin | src/tokenizer/native_tokenizer.cpp:347-355 | Merging preserves the concatenation of the pieces |
| Bpe.MergedIsStuck | src/tokenizer/native_tokenizer.cpp:347-355 | Merging ends with no adjacent pair in the merge table |
| Bpe.MergedKnown | src/tokenizer/native_tokenizer.cpp:334-374 | With every merge result in the vocabulary, merging known letters ends with known pieces only |
| Utf8.Sanitise | src/tokenizer/native_tokenizer.cpp:473-504 | The last pass of decode replaces exactly the bytes at which no UTF-8 character (RFC 3629, section 4) starts |
| Utf8.SanitisedIffWellFormed | src/tokenizer/native_tokenizer.cpp:473-504 | The last pass changes nothing if and only if the bytes are well-formed UTF-8 |
| Utf8.SanitisedIsWellFormed | src/tokenizer/native_tokenizer.cpp:473-504 | The output of decode is always well-formed UTF-8 |
| Utf8.SanitisedReplaces | src/tokenizer/native_tokenizer.cpp:473-504 | Well-formed text in front is kept as it is, and a byte at which no character starts becomes the three bytes of U+FFFD and takes nothing else with it |
| Utf8.LenientReadsBack | src/tokenizer/native_tokenizer.cpp:459-466 | Below U+0800 the lenient reader reads back what was encoded |
| PreTokenize.DecodeCps | src/tokenizer/native_tokenizer.cpp:95-110 | The loop splits any byte string into code points with increasing offsets |
| PreTokenize.NextChunk | src/tokenizer/native_tokenizer.cpp:250-326 | One round of the splitter takes the first alternative that matches |
| PreTokenize.SplitText | src/tokenizer/native_tokenizer.cpp:240-332 | The splitting loop computes the chunks of the text; when letters, numbers and spaces are different things and newlines are spaces, the text is cut from its first code point on into chunks of the declared shapes |
| PreTokenize.SplitTiles | src/tokenizer/native_tokenizer.cpp:240-332 | For every byte string and all character classes the chunks are non-empty and concatenate to the text |
| PreTokenize.ChunkExact | src/tokenizer/native_tokenizer.cpp:250-326 | The chunk at a position ends at j if and only if the code points up to j have the first fitting shape: a contraction; a whole run of letters with at most one mark in front; up to three numbers; a whole run of marks with at most one space in front and the newlines behind; white space up to its last newline, else all of it save the last of several spaces before something else |
| PreTokenize.SomeAlternativeMatches | src/tokenizer/native_tokenizer.cpp:252-326 | Some alternative always matches, so the last-resort branch of the splitter never fires |
| PreTokenize.AsciiCaseEqFoldsNothing | src/tokenizer/native_tokenizer.cpp:84-88 | The case-insensitive comparison of contractions is plain equality |
| RoundTrip.SpansTile | src/tokenizer/native_tokenizer.cpp:395-426 | The spans tile the text; each added span is the longest added token matching there, the first of its content; no added token matches anywhere inside a plain span |
| RoundTrip.ChunkDecodes | src/tokenizer/native_tokenizer.cpp:359-386 | The ids of a chunk decode to the bytes of the chunk |
| RoundTrip.BytesRoundTrip | src/tokenizer/native_tokenizer.cpp:388-472 | For a well-formed vocabulary the bytes collected from encode(t, false) are t, for every byte string t |
| RoundTrip.DecodeEncode | src/tokenizer/native_tokenizer.cpp:388-505 | decode(encode(t, false), false) is t with every stray byte replaced by U+FFFD, and is t if and only if t is well-formed UTF-8 |
| TokenTables.EndIdOnce | src/tokenizer/native_tokenizer.cpp:439-441 | With the end id asked for the ids are the plain ones or those and the end id, the plain ones exactly when the end id is unknown or already last; they end in a known end id, and asking once more changes nothing |
| RoundTrip.DecodeEncodeWithEnd | src/tokenizer/native_tokenizer.cpp:388-472 | For good tables decoding ids encoded with the end id gives the text, followed by what the end id stands for when it was added; with skipSpecial an end id that is an added token leaves no trace |
| RoundTrip.DecodeSkipsSpecials | src/tokenizer/native_tokenizer.cpp:445-457 | With skipSpecial decoding keeps exactly the text outside the added tokens |
| RoundTrip.RoundTripIffSpecialsInvert | src/tokenizer/native_tokenizer.cpp:446-457 | Among otherwise good tables the byte round trip holds on all texts if and only if the id of every added content leads back to it |
| RoundTrip.SpecialsInvertUnlessMisled | src/tokenizer/native_tokenizer.cpp:397-452 | The ids of added contents lead back if and only if no token that is the first of its content in the sorted list shares its id with a later one that is the last of the id and has another content |
| RoundTrip.SharedIdBreaks | src/tokenizer/native_tokenizer.cpp:446-452 | Two contents under one id break it |
| RoundTrip.ShadowedIdIsHarmless | src/tokenizer/native_tokenizer.cpp:397-452 | Two contents under one id do not break it when an earlier token shadows one of them |
| RoundTrip.ContentEncodes | src/tokenizer/native_tokenizer.cpp:397-408 | The content of an added token is encoded as one id |
| Fallback.FallbackLoses | src/tokenizer/native_tokenizer.cpp:375-383 | A piece missing from the vocabulary loses exactly its last byte, and only when that byte's symbol is one byte long |
| Fallback.ChunkDecodesIff | src/tokenizer/native_tokenizer.cpp:359-386 | Whatever the merges lead to, the ids of a chunk decode to it if and only if every piece they end with is in the vocabulary or ends with a symbol of two bytes |
| Fallback.TextDecodesIff | src/tokenizer/native_tokenizer.cpp:388-472 | The same for whole texts: the byte round trip of a text holds if and only if no chunk outside its added tokens ends in a piece that loses a byte |
| Fallback.TwoLettersLose | src/tokenizer/native_tokenizer.cpp:375-383 | A table with one merge whose result the vocabulary lacks, and a text of two letters that comes back without the second |
| NativeTokenizer.NativeBpeTokenizer.constructor | src/tokenizer/native_tokenizer.cpp:164-194 | Loading fills the id table, ranks the merges by position and sorts the added tokens longest first |
| NativeTokenizer.StableSortedFacts | src/tokenizer/native_tokenizer.cpp:189-192 | Sorting keeps every added token and puts longer contents first |
| NativeTokenizer.LoadedIdsInvert | src/tokenizer/native_tokenizer.cpp:164-171 | When ids are a bijection onto 0..n-1 the id table inverts the vocabulary |
| NativeTokenizer.LoadedTablesGood | src/tokenizer/native_tokenizer.cpp:164-194 | Conditions on the parsed vocabulary, merge list and added tokens under which the loaded tables are good and the added tokens sorted longest first |
| NativeTokenizer.LoadedRoundTripExact | src/tokenizer/native_tokenizer.cpp:164-506 | For a file that meets them the byte round trip holds on all texts if and only if the ids of its sorted added tokens lead back to their contents |
| NativeTokenizer.LoadedRoundTrip | src/tokenizer/native_tokenizer.cpp:164-506 | Loading such a file, encoding a text and decoding the ids returns the sanitised text, the text itself when it is well-formed |
| NativeTokenizer.NativeBpeTokenizer.EncodeChunk | src/tokenizer/native_tokenizer.cpp:359-386 | Spelling, merging and looking up, fallback included |
| NativeTokenizer.NativeBpeTokenizer.FindSpans | src/tokenizer/native_tokenizer.cpp:395-426 | The span loop computes the spans of the text |
| NativeTokenizer.NativeBpeTokenizer.Encode | src/tokenizer/native_tokenizer.cpp:388-443 | The ids of spans in order, with the end token appended unless it is there |
| NativeTokenizer.NativeBpeTokenizer.Decode | src/tokenizer/native_tokenizer.cpp:445-506 | The bytes of the ids, then the replacement pass |
| NativeTokenizer.NativeBpeTokenizer.RoundTripText | src/tokenizer/native_tokenizer.cpp:388-506 | On loaded tables that meet the conditions, decoding the encoding returns the sanitised text, the text itself when it is well-formed |
| KvModel.GrowthBounds | src/engine/kv_cache.cpp:31-42 | Growth covers the need, stays within max(1024, 2 * need) and at least doubles the old capacity |
| KvModel.GrowthPathIndependent | src/engine/kv_cache.cpp:37-42 | Growing for a and then for b ends at the capacity of growing for the larger at once |
| KvModel.CopyingIsLinear | src/engine/kv_cache.cpp:31-65 | Over any sequence of needs all capacities copied together are at most the final capacity |
| KvModel.LastWriteWins | src/engine/kv_cache.cpp:31-120 | Under any sequence of appends, reserves, advances and clears the cell of head h at a position holds, float for float, elements h * dim to h * dim + dim - 1 of the data last appended there; never appended to, it is as before, or zero |
| KvModel.PartsJoin | src/engine/kv_cache.cpp:71-76 | The parts the heads get, joined in order, are the appended data |
| KvBuffers.OffsetsApart | src/engine/kv_cache.cpp:99-111 | The head-major index is injective: different cells never overlap |
| KvBuffers.WriteToken | src/engine/kv_cache.cpp:71-76 | The per-head copy loop writes one token's cells and no other, and float i of head h is float h * dim + i of the data |
| KvBuffers.Rebase | src/engine/kv_cache.cpp:51-58 | The rebasing loop moves every head's cells to the new stride and leaves zeros behind them |
| KvBuffers.ResizeRebases | src/engine/kv_cache.cpp:61 | Resizing the position-major indexer keys keeps every cell |
| KvCache.NextCapacity | src/engine/kv_cache.cpp:37-42 | The doubling loop with its moving floor terminates with the modelled capacity |
| KvCache.KVCache.constructor | src/engine/kv_cache.cpp:5-24 | A new cache has no cells |
| KvCache.KVCache.Init | src/engine/kv_cache.cpp:5-24 | All buffers have their sizes, strides agree with the capacity, and fresh buffers are zero |
| KvCache.KVCache.Reserve | src/engine/kv_cache.cpp:26-29 | Room for the tokens, every cell kept |
| KvCache.KVCache.GrowTo | src/engine/kv_cache.cpp:31-65 | After growth every old cell reads as before and every new one as zero |
| KvCache.KVCache.RebaseAll | src/engine/kv_cache.cpp:48-64 | Rebasing all layers keeps every cell and makes strides and capacity agree again |
| KvCache.KVCache.AppendKey | src/engine/kv_cache.cpp:67-77 | Exactly the key cells of one layer and position change, growing first when needed, and float i of head h there is float h * qkTotal + i of the key; out-of-range calls change nothing |
| KvCache.KVCache.AppendValue | src/engine/kv_cache.cpp:79-89 | The same for values, whose stride is recomputed from the capacity and whose parts are vDim floats long |
| KvCache.KVCache.AppendIndexKey | src/engine/kv_cache.cpp:91-97 | The same for the indexer keys |
| KvCache.KVCache.GetKey | src/engine/kv_cache.cpp:99-104 | The cell of the map, or null exactly outside the range |
| KvCache.KVCache.GetValue | src/engine/kv_cache.cpp:106-111 | The same for values |
| KvCache.KVCache.GetIndexKey | src/engine/kv_cache.cpp:113-116 | The same for indexer keys |
| KvCache.KVCache.Clear | src/engine/kv_cache.cpp:118-120 | Only the token counter changes |
| ForwardModel.TopKIsBest | src/model/glm_forward.cpp:285-294 | The indexer selects exactly the min(k, length) best positions: every selected position beats every other, ties to the earlier one |
| ForwardModel.PickInRange | src/model/glm_forward.cpp:363-371 | The selection used and handed on is never empty and never names a position after the current token |
| ForwardRuns.CountersStayInStep | src/model/glm_forward.cpp:742-801 | The cache's token count and the engine's agree after every call, at the input's length when there was anything new: advance() never saturates |
| ForwardRuns.ResetForgets | src/model/glm_forward.cpp:160-163 | After a reset a whole conversation is answered alike whatever the cache held and however large it was: no stale cell influences anything |
| ForwardRuns.LayerAlike | src/model/glm_forward.cpp:297-404 | A layer's outcome depends only on cells written for this and earlier tokens |
| ForwardRuns.GrowLayer | src/model/glm_forward.cpp:747-778 | Growing the cache before or after a layer makes no difference |
| ForwardRuns.PieceByPieceState | src/model/glm_forward.cpp:733-801 | Feeding a prefix and then the whole input leaves the same cells, capacity, counters and selections as one call on the whole input |
| ForwardRuns.PieceByPieceToken | src/model/glm_forward.cpp:733-812 | The returned token is the same if and only if the second input is strictly longer than the prefix (or nothing was new to begin with); otherwise the second call returns -1 |
| ForwardReference.ForwardIsPlain | src/model/glm_forward.cpp:733-812 | The cached token loop refines the plain transformer that recomputes everything from the tokens: for an engine that has heard a prefix of the input the returned token is the one sampled from the plain state of the last position, the selections are the plain ones, and every cell of every layer, head and position holds its head's floats of the plain vectors |
| ForwardReference.ConversationIsPlain | src/model/glm_forward.cpp:160-812 | After a reset, whatever the cache held: each call of a growing conversation that brings new tokens returns what the plain transformer samples after the whole input, every other call -1 |
| ForwardReference.EachTokenAtItsPosition | src/model/glm_forward.cpp:755-762 | From any engine state, a call leaves in the first layer's key, value and indexer cells at each new position, head by head, the vectors derived from the embedding of exactly the token at that position of the input |
| ForwardReference.Causal | src/model/glm_forward.cpp:297-404 | The plain state of a position depends on the tokens up to it alone |
| ForwardReference.PlainSelection | src/model/glm_forward.cpp:285-371 | An indexer layer attends to exactly the indexTopk positions so far of highest score, ties to the earlier, any other layer to what the layer before it attended to, the first to all |
| ForwardReference.HeadOutIsSum | src/model/glm_forward.cpp:379-403 | For an adding kernel each float of a head's output is the sum over the selected positions of that position's softmax weight times that position's value |
| ForwardEngine.GLMForward.constructor | src/model/glm_forward.cpp:129-132 | A new engine has an initialised cache of 64 tokens |
| ForwardEngine.GLMForward.Reset | src/model/glm_forward.cpp:160-163 | Two counters are cleared, nothing else |
| ForwardEngine.GLMForward.DsaIndexer | src/model/glm_forward.cpp:236-295 | The indexer key is appended, every position so far is scored from the cache, the best are kept |
| ForwardEngine.GLMForward.HeadAttention | src/model/glm_forward.cpp:379-403 | The loops over the selected positions compute the head's weighted sum of cached values |
| ForwardEngine.GLMForward.AttentionLayer | src/model/glm_forward.cpp:297-404 | Key and value cells of the token are written, the selection made or reused, and all heads attend to the cached history |
| ForwardEngine.GLMForward.ForwardToken | src/model/glm_forward.cpp:758-801 | One token through all layers, then both counters advance |
| ForwardEngine.GLMForward.Forward | src/model/glm_forward.cpp:733-812 | The token loop on the strided cache computes the modelled forward: state and returned token; each new token is cached at its own position, and a conversation heard from its start is answered as the plain transformer answers it |
| GpuModel.KeysDiffer | src/compute/cuda_backend.cpp:221-223 | Keys of different layers or experts differ |
| GpuModel.KeyIsNotZero | src/compute/cuda_backend.cpp:331-356 | From layer 1 on no key is the value that marks that nothing was evicted |
| GpuSafety.ClaimIsSafe | src/compute/cuda_backend.cpp:290-304 | The pinned slot handed out is read by no queued copy |
| GpuSafety.StageInv | src/compute/cuda_backend.cpp:395-428 | Staging keeps: every queued copy's pinned slot is marked, recorded at its position and still holds its block; every resident expert's slot holds its weights or will, before its wait ends |
| GpuSafety.FaultInv | src/compute/cuda_backend.cpp:404-419 | A staging that fails spoils at most the expert it was for |
| GpuSafety.AwaitReads | src/compute/cuda_backend.cpp:438-451 | After the wait the slot the kernel reads holds the expert's weights and no queued copy targets it |
| GpuSafety.ReleaseInv | src/compute/cuda_backend.cpp:447-449 | Releasing the pinned slot at the wait is safe: its recorded copy has been carried out |
| GpuSafety.FfnReadsItsWeights | src/compute/cuda_backend.cpp:395-492 | Over every run of stagings, computations and asynchronous copies, with evictions, re-staging, slot reuse and failed stagings, a computation on an expert whose own last admission did not fail reads that expert's weights |
| GpuSafety.FfnWithoutErrors | src/compute/cuda_backend.cpp:395-492 | Without device errors every computation reads its expert's weights |
| GpuSafety.PinnedSlotsAreSafe | src/compute/cuda_backend.cpp:290-304 | In every run no pinned slot is overwritten while a queued copy still has to read it, and no two experts share a device slot |
| GpuSafety.EvictsLeastRecentlyStaged | src/compute/cuda_backend.cpp:331-361 | In every run nobody is evicted while a device slot is free, and the evicted expert is the one staged longest ago |
| GpuRecency.ResidentExactlyRecent | src/compute/cuda_backend.cpp:322-362 | After every run, failed stagings included, an expert is resident if and only if it was staged and fewer other experts were staged since than there are device slots |
| GpuFaults.SpoiltReadsAsIs | src/compute/cuda_backend.cpp:430-451 | Over every run: a resident expert whose last admission failed is not waited for, and its computation reads the device slot as it stands, the block of whichever expert was last written there or the initial content |
| GpuFaults.RightExactlyWhen | src/compute/cuda_backend.cpp:395-492 | After every run, failed stagings included, a resident expert reads its own weights, for every choice of weights and initial contents, if and only if its last admission did not fail or the last block carried into its slot was its own |
| GpuFaults.FailureStaysHidden | src/compute/cuda_backend.cpp:395-451 | In every run, from a failed staging on for as long as the expert stays resident: it keeps its slot, staging it again uploads nothing, touches no buffer and reports success, and computing on it waits for nothing and reads the slot as it stands |
| GpuErrors.ClaimIsSafeExactly | src/compute/cuda_backend.cpp:296-304 | Over every run with failing stagings and failing computations: the pinned slot handed out is read by no queued copy if and only if it was marked or the copy last recorded for it has been carried out |
| GpuErrors.RunMatched | src/compute/cuda_backend.cpp:430-492 | Every run with failing computations in which no pinned slot still to be copied from is overwritten is matched by a run without them |
| GpuErrors.ComputeReadsItsWeights | src/compute/cuda_backend.cpp:395-492 | In such a run a computation on a resident expert whose own last admission did not fail reads that expert's weights, whatever computations failed |
| GpuErrors.PlainRunIsSafe | src/compute/cuda_backend.cpp:290-304 | Without failing computations no pinned slot still to be copied from is overwritten |
| GpuErrors.FailedComputeCorrupts | src/compute/cuda_backend.cpp:430-492 | For every two experts and all weights: with one pinned slot, staging the first, failing to compute on it and staging the second makes the next computation on the first read the second's weights, though no staging failed |
| GpuCache.ExpertGpuCache.ClaimStageSlot | src/compute/cuda_backend.cpp:296-304 | Round-robin claim; a marked slot drains the stream first, and none is handed out when that fails |
| GpuCache.ExpertGpuCache.FindOldest | src/compute/cuda_backend.cpp:333-339 | The search loop finds the first slot with the smallest use stamp |
| GpuCache.ExpertGpuCache.FindFree | src/compute/cuda_backend.cpp:341-344 | The search loop finds the first unused slot |
| GpuCache.ExpertGpuCache.ForgetOwner | src/compute/cuda_backend.cpp:346-353 | The erase loop removes exactly the owner of the slot and reports it |
| GpuCache.ExpertGpuCache.AcquireSlot | src/compute/cuda_backend.cpp:322-362 | Lookup or admission as modelled; erasing by the reported key is right because no key is 0 |
| GpuCache.ExpertGpuCache.ExpertStage | src/compute/cuda_backend.cpp:395-428 | Admission, pinned copy and queued upload as modelled, with the result and the state after either device error |
| GpuCache.ExpertGpuCache.ExpertFfn | src/compute/cuda_backend.cpp:430-492 | Refusal for a non-resident expert, else the wait and the block the kernel reads; with an error before the wait nothing changes, behind it the marks are cleared and nobody waits |
| WarmUp.MergeShards | src/engine/scheduler.cpp:849-866 | Over all shards every listed range is inside a run of its shard, any two runs of a shard are disjoint, more than the gap apart, and every run is tight around listed ranges of its shard, each used at most as often as listed |
| WarmUp.MergeRanges | src/engine/scheduler.cpp:857-865 | Merging a shard's sorted ranges covers every range, leaves runs more than the gap apart behind the other shards' runs, and cuts the ranges into consecutive groups, one tight run for each |
| WarmUp.WarmPaddingBounded | src/engine/scheduler.cpp:857-865 | A tight run starts with a listed range, ends with one, and reads at most the gap for each range joined to the first beyond what they need |
| WarmUp.RunsDisjoint | src/engine/scheduler.cpp:858-865 | Any two merged runs of a shard are disjoint |
| WarmUp.ChunksTile | src/engine/scheduler.cpp:888-892 | The chunk loop cuts a run into non-empty pieces of at most one buffer that lie end to end from its start to its end |
| WarmUp.SubmitChunk | src/engine/scheduler.cpp:880-886 | A read goes to a buffer that no outstanding read targets |
| WarmUp.WarmAll | src/engine/scheduler.cpp:880-893 | Every chunk of every run is submitted once, in order, and reads outstanding at the same time always target different buffers |
| Gemv.UnrolledLanes | src/compute/cpu_kernels.cpp:56-65 | For every row length and any fused multiply-add the 16-wide loop performs the operations of the 8-wide loop in the same order |
| Gemv.PlainLanes | src/compute/cpu_kernels.cpp:62-65 | The 8-wide loop it is compared with |
| Gemv.LanesSumToDot | src/compute/cpu_kernels.cpp:67-74 | Over the reals the eight lanes and the horizontal sum add up to the dot product of the vectorised columns |
| Gemv.RowDot | src/compute/cpu_kernels.cpp:50-79 | Over the reals the row kernel, vectorised with scalar tail or scalar, is the dot product |
| Gemv.GemvRows | src/compute/cpu_kernels.cpp:43-95 | Each of the m outputs becomes alpha times the row's dot product plus beta times its old value, and no other element changes |

## Left out

- Telemetry: hit and miss counters, prefetched/used flags and everything that only feeds reports.
- `ExpertLRU::acquire` and `Scheduler::loadExpert`, which hand out or use a pointer after the lock is released; the engine reads through the copying getters.
- The scheduler is modelled as a state machine on values, not as a class, because its steps interleave with those of the reader threads; the number of threads is not fixed.
- Whether the forward thread pins a routed expert after a hit depends on access counts; in the model it may or may not. Shared projections are always pinned after a synchronous load, as in the code.
- The order in which merged runs are submitted: the model allows any order and any regrouping of the batch.
- The wake-up of `waitAll`, and fairness: that the scheduler runs the threads at all, and that a poll is followed by another step, which the time-out of the poll guarantees.
- The Windows completion-port reader, mapping of shards, file streams and the reading of the weight index.
- Prediction of the next layer's experts and the popularity filters: the model stages arbitrary batches.
- JSON parsing and the resolution of the end and begin tokens in `NativeBpeTokenizer::load`; the constructor starts from the parsed tables.
- The Unicode range tables: the character classes are parameters.
- Equality of `preTokenize` with the published regular expression; the shapes stated are those of the code's own alternatives.
- Floating-point values of attention, softmax, normalisation, rotary embedding, routing and sampling: kernels are arbitrary deterministic functions, and the matrix-vector sum is over the reals.
- The expert layers inside `forward`: the layer's MLP is one deterministic function of the hidden state; the restart of `moeLayer` from GPU to CPU is not modelled.
- GpuCache.ExpertGpuCache.FindOldest: starts from the first slot instead of the largest machine integer, which is the same while use stamps stay below it.
- Allocation and reconfiguration of the GPU cache, and use stamps wrapping around after 2^31 stagings.
- `computeAdaptiveConfig`, placement, configuration parsing, the command line and the subprocess pipes.
