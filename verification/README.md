# A verified model of LMCache's core

LMCache is a KV-cache layer for LLM serving. This project models its self-contained logic in Dafny and
proves what that logic is for. Each module follows one component.

* **Batch connector** (`Tiling`, `Connector`, `ConnectorInvariants`, `ConnectorCompletions`,
  `ConnectorOutcomes`, `ConnectorTheorems`, `ConnectorRuns`, `ConnectorErrors`,
  `ConnectorQueue`, `ConnectorProgress`). Submitters cut batches into tiles, worker
  threads run them, a shared counter elects who reports a batch, and a flag with an eventfd wakes the one
  consumer. `Connector.Step` is the step relation: one of 21 actions for each lock-held section, atomic
  operation, and eventfd read or write, for any number of workers, batches and interleavings. Fields of the
  history (where a tile is, who reports a batch, which key got which answer) are read by no step.
  The invariants are proved step by step, the theorems are about every reachable state; `ConnectorRuns` and
  `ConnectorErrors` say what a completion carries from the actions of the run alone, `ConnectorQueue` what the queue, the
  eventfd and the stop flag hold.
* **TTL lock** (`TtlLock`, `TtlInterleaving`, `TtlCounting`, `TtlCharges`). The lock as a sequential object against
  a history of leases, and its atomic operations under every interleaving: how many attempts they cost, which
  write each failure is charged to, and exactly when the counter can be trusted.
* **Bitmap and pattern matchers** (`Bitmaps`, `PatternMatcher`). The packed bytes against a sequence of
  booleans; the skipping range scan against a scan that steps by one.
* **Keys of token chunks** (`TokenChunks`, `SegmentSplit`). Chunking, prefix hashing and splitting at a
  separator. The hash is a function parameter, injective only where a lemma says so.
* **Texts and messages** (`Numerals`, `SlotMapping`, `SlotText`, `SlotGrammar`, `CacheKey`, `CacheKeyText`, `Utf8`,
  `WireMessage`, `WireLayout`).
  Slot ranges, cache key texts and the wire messages, each with its reader, and each described by itself as well,
  as a grammar or byte by byte; `Numerals` is Python's
  `int(text, base)` on ASCII digits and `strip`, `Utf8` is strict UTF-8 of RFC 3629, section 3.
* **Paged KV transfer** (`PagedKv`). Tensors are arrays of the same rank as in the code. A logical view
  (plane, layer, block, offset, element) hides the four page layouts. Which of several rows for one place is
  stored is a parameter, element by element.
* **Lazy pinned allocator** (`Alignment`, `AddressSpace`, `AlignedSpace`, `AddressManagers`, `LazyAllocators`,
  `LazyPool`). The first-fit address manager with coalescing, the expansion worker, and both together under every
  interleaving of allocations, frees, expansion steps and a stop request.
* **Policies** (`Fidelity`, `Prefetch`, `TokenPools`, `SmallTokenPools`, `TokenPoolSizes`). The per-prefix fidelity
  states over whole runs, the reference counts of prefetched and fetched objects (also of objects that several keys
  share, `Prefetch.ReturnedAndReleasedIff`), and the least-recently-used token pool of the trace analysis.

Components that change things step by step are classes and methods with loops; each such method is proved
against a function of its inputs or of the old state, and the properties are proved about that function.
The connector and the two interleaved models are state machines on values, because their steps interleave.

`Basics` and `Parsing` hold what several components share.

## Where the code does not do what it seems to promise

Each is stated for the code as it is, with the exact condition.

* The minimum with the number of items is meant to avoid empty tiles, and does not: `Tiling.NoEmptyTileIff`.
* Locks that race at an expired lease can count once: `TtlInterleaving.RacingLocksLoseCount` is such a schedule,
  and `TtlCounting.CountKeptIff` and `TtlCounting.NoLockLostIff` say exactly for which calls and cells the count
  is right in every interleaving.
* A key with a negative layer id, or with '@' in its model name or tags, does not read back: `CacheKey.ReadsBackIff`.
  A run of three or more slots that starts below zero does not either: `SlotText.PrintParseRoundTrip`.
* The length check of a request counts characters where the field holds bytes, and the padding is stripped with any
  outer white space of the key: `WireMessage.ClientRoundTrip`, `WireMessage.NotReadBack`.
* Splitting at a separator whose matches overlap is not undone by joining: `SegmentSplit.JoinRestoresTokens`.
* Keys identify prefixes only if NONE_HASH is not itself a hash value: `TokenChunks.CrossIndexKeys`.
* The synchronous retrieve compares with `end <`, so the last good chunk before a failure is marked as a hit but
  not returned, and its object keeps its reference: `Prefetch.MarkIsExactIff`, `Prefetch.LastGoodChunkIsLost`,
  `Prefetch.ReleasedIffKept`.
* A prefetched object whose key is fetched again is neither returned nor released: `Prefetch.HandledOnceIff`,
  `Prefetch.FetchedTwiceIsLost`.
* With an alignment above the pin chunk size the address space can grow past the pinned memory and past the buffer:
  `LazyPool.LiveBlocksArePinnedIff`, `LazyPool.LargeAlignmentOvercommits`.
* Adding a request under a stored identifier leaves the running total too high:
  `TokenPools.LRUTokenPool.AddRequest`, `TokenPools.CountsTwice`. A larger token pool can find less than a smaller one:
  `TokenPoolSizes.LargerFindsMoreIff`.

## Model

| member | source | states |
|---|---|---|
| Tiling.CreateTile | LMCache-precision-allfull/csrc/storage_backends/connector_base.h:250-273 | The loop fills a tile with exactly the keys, buffers and lengths of its index range, clipped at the end of the batch. |
| Tiling.TilesConcatenate | LMCache-precision-allfull/csrc/storage_backends/connector_base.h:62-71 | For any batch and any number of workers the tiles, put one after another, are the caller's list in order. |
| Tiling.OwnerTile | LMCache-precision-allfull/csrc/storage_backends/connector_base.h:234-238 | Every index of a batch lies in exactly one tile. |
| Tiling.TileSizeIsLeast | LMCache-precision-allfull/csrc/storage_backends/connector_base.h:234-238 | As many tiles as workers or items, whichever are fewer, and of the least size that covers every item. |
| Tiling.TileHolds | LMCache-precision-allfull/csrc/storage_backends/connector_base.h:250-273 | Item j of tile t is item t * size + j of the batch, up to the size of a tile or the end of the batch. |
| Tiling.NoEmptyTileIff | LMCache-precision-allfull/csrc/storage_backends/connector_base.h:236-237 | The minimum that should avoid empty tiles does so exactly when there are at least as many workers as items, or the items divide evenly, or there are no more workers than the quotient and the remainder together. |
| Tiling.EmptyTileExample | LMCache-precision-allfull/csrc/storage_backends/connector_base.h:236-238 | Five items on four workers: the fourth tile is empty. |
| ConnectorInvariants.LocatedStep | LMCache-precision-allfull/csrc/storage_backends/connector_base.h:275-431 | Every step keeps every tile of every batch in exactly one place: not yet enqueued, queued once, held by one worker, lost to a shutdown, or counted down. |
| ConnectorCompletions.ReportedStep | LMCache-precision-allfull/csrc/storage_backends/connector_base.h:402-431 | Every step keeps the reporter of each batch unique: the counter reaches zero for one worker only, and that worker publishes one completion. |
| ConnectorCompletions.WokenStep | LMCache-precision-allfull/csrc/storage_backends/connector_base.h:283-329 | Every step keeps the wake-up invariant that relates signaled_, the eventfd counter, the completion queue, the producers in flight and the consumer. |
| ConnectorOutcomes.InvStep | LMCache-precision-allfull/csrc/storage_backends/connector_base.h:331-431 | Every one of the 21 steps keeps the joint invariant of places, reporters, answers and errors. |
| ConnectorTheorems.NoLostWakeup | LMCache-precision-allfull/csrc/storage_backends/connector_base.h:130-157 | In every reachable state with the consumer outside a drain and no producer between its push and its eventfd write, a queued completion means a readable eventfd. |
| ConnectorTheorems.RemainingIsOutstanding | LMCache-precision-allfull/csrc/storage_backends/connector_base.h:412-414 | remaining_tiles is the number of tiles not yet enqueued, queued or in flight plus the number lost with workers that died in a shutdown; without a shutdown none is lost. |
| ConnectorTheorems.AtMostOneCompletion | LMCache-precision-allfull/csrc/storage_backends/connector_base.h:416-430 | A batch never gets two completions, and gets its one only after all its tiles were counted down. |
| ConnectorTheorems.ExactlyOneCompletion | LMCache-precision-allfull/csrc/storage_backends/connector_base.h:402-431 | Without a shutdown, once every tile is handled each batch has exactly one completion. |
| ConnectorTheorems.CompletionTellsOutcome | LMCache-precision-allfull/csrc/storage_backends/connector_base.h:403-424 | A completion is ok exactly when no tile failed; otherwise it carries the first non-empty error in the order the failing tiles reached the error section. |
| ConnectorTheorems.FirstNonEmptyIsFirst | LMCache-precision-allfull/csrc/storage_backends/connector_base.h:406-409 | What `first_error` holds: the first recorded error that is not empty, or nothing when all are empty. |
| ConnectorTheorems.ExistsAnswersMatchKeys | LMCache-precision-allfull/csrc/storage_backends/connector_base.h:374-380 | Byte k of a successful EXISTS completion is the one answer given for key k; other batches carry no bytes. |
| ConnectorTheorems.ExistsWritesDisjoint | LMCache-precision-allfull/csrc/storage_backends/connector_base.h:374-379 | Workers write EXISTS answers inside the result vector, and two workers never write the same element. |
| ConnectorRuns.AskedKeyIsSubmitted | LMCache-precision-allfull/csrc/storage_backends/connector_base.h:374-380 | In any run, the worker that asks for item k of a batch asks for the key submitted there. |
| ConnectorRuns.AnswersAreReported | LMCache-precision-allfull/csrc/storage_backends/connector_base.h:370-431 | In any run, an ok completion of an EXISTS batch has one byte for each submitted key, and the byte of key k is the one answer that the steps of the run gave for it: read off the actions alone. |
| ConnectorRuns.ByteIsAnAnswer | LMCache-precision-allfull/csrc/storage_backends/connector_base.h:374-380 | So byte k is one exactly when some step of the run is a yes taken while its worker held a request of that batch and stood at item k. |
| ConnectorErrors.ErrorsAreReported | LMCache-precision-allfull/csrc/storage_backends/connector_base.h:382-424 | In any run, a completion is ok exactly when no step of the run threw for its batch; otherwise the recorded texts are those thrown, and the error it carries is the first of them that is not empty. |
| ConnectorQueue.FirstInFirstOut | LMCache-precision-allfull/csrc/storage_backends/connector_base.h:275-358 | In any run tiles are handed to workers in the order in which they were enqueued, and those not handed out are still queued. |
| ConnectorQueue.EventfdCounts | LMCache-precision-allfull/csrc/storage_backends/connector_base.h:291-329 | In any run the eventfd counts the writes since the last read. |
| ConnectorQueue.StopIsClosed | LMCache-precision-allfull/csrc/storage_backends/connector_base.h:159-182 | A new connector is open, and closed exactly from a close() of the run on. |
| ConnectorProgress.WorkerNotStuck | LMCache-precision-allfull/csrc/storage_backends/connector_base.h:352-430 | A worker that holds a tile can always take its next step. |
| ConnectorProgress.IdleMeansReported | LMCache-precision-allfull/csrc/storage_backends/connector_base.h:336-431 | With no shutdown, an empty queue, idle workers and everything enqueued, every batch has its completion. |
| ConnectorProgress.NoDeadlock | LMCache-precision-allfull/csrc/storage_backends/connector_base.h:336-431 | While a worker is alive and no shutdown was requested, an unreported batch means that a step other than new input is possible. |
| ConnectorProgress.WorkDecreases | LMCache-precision-allfull/csrc/storage_backends/connector_base.h:130-431 | Every step that is not new input makes the remaining work smaller. |
| ConnectorProgress.RunsAreBounded | LMCache-precision-allfull/csrc/storage_backends/connector_base.h:130-431 | Without new input every run ends, within the work of its first state. |
| TtlLock.TTLLock.constructor | LMCache-precision-allfull/csrc/storage_manager/ttl_lock.cpp:8-11 | A new lock starts with no history, and its ttl is in milliseconds. |
| TtlLock.TTLLock.DoLock | LMCache-precision-allfull/csrc/storage_manager/ttl_lock.cpp:13-48 | The compare-and-swap loop, alone, performs one lock of the lease history. |
| TtlLock.TTLLock.DoUnlock | LMCache-precision-allfull/csrc/storage_manager/ttl_lock.cpp:50-66 | The loop, alone, performs one unlock, which never takes the counter below zero. |
| TtlLock.TTLLock.DoReset | LMCache-precision-allfull/csrc/storage_manager/ttl_lock.cpp:77-80 | Both stores perform one reset. |
| TtlLock.TTLLock.IsLocked | LMCache-precision-allfull/csrc/storage_manager/ttl_lock.cpp:68-75 | The answer is whether the lease of the history is held. |
| TtlLock.CellsTrackLease | LMCache-precision-allfull/csrc/storage_manager/ttl_lock.cpp:13-80 | After any history of calls at any clock values the two cells are those of the current lease: its clamped balance and its expiry. |
| TtlLock.LockedIffLeaseHeld | LMCache-precision-allfull/csrc/storage_manager/ttl_lock.cpp:68-75 | The lock is held exactly when no reset followed the latest lock, that lock is younger than the ttl and the clamped balance since the lease was opened is positive. |
| TtlInterleaving.CounterBounds | LMCache-precision-allfull/csrc/storage_manager/ttl_lock.cpp:25-80 | In every interleaving, from any cells, the counter is never negative and never above what it was at the start, or zero since a reset, plus the counter writes by lock since. |
| TtlInterleaving.FinishedHasWritten | LMCache-precision-allfull/csrc/storage_manager/ttl_lock.cpp:13-80 | A lock or reset that has returned has written both atomics; an unlock has written the counter at most once. |
| TtlInterleaving.StepsMean | LMCache-precision-allfull/csrc/storage_manager/ttl_lock.cpp:13-80 | A step changes at most one atomic; one that fails changes neither and begins the call again; an unlock returns without a write only from a counter that is not positive. |
| TtlInterleaving.FailureIsCharged | LMCache-precision-allfull/csrc/storage_manager/ttl_lock.cpp:26-66 | At a failing compare-exchange some other call has written since the attempt began, and the failing call itself has written nothing. |
| TtlCharges.FailuresAreCharged | LMCache-precision-allfull/csrc/storage_manager/ttl_lock.cpp:26-66 | In any run, from any cells, the failures of a call are charged to disjoint, non-empty stretches of the writes, none of them made by the call itself and at least one to the cell that failed to compare: a different write for every failure. |
| TtlInterleaving.AttemptsQuadratic | LMCache-precision-allfull/csrc/storage_manager/ttl_lock.cpp:13-66 | From any cells, n overlapping calls make at most n(2(n-1)+1) attempts in any schedule. |
| TtlInterleaving.SchedulesTerminate | LMCache-precision-allfull/csrc/storage_manager/ttl_lock.cpp:13-80 | From any cells, every schedule of n calls ends, within n(6(n-1)+4) atomic steps. |
| TtlInterleaving.UnfinishedCanStep | LMCache-precision-allfull/csrc/storage_manager/ttl_lock.cpp:13-80 | No call ever blocks. |
| TtlInterleaving.AloneIsSequential | LMCache-precision-allfull/csrc/storage_manager/ttl_lock.cpp:13-80 | A call that runs alone finishes within four steps with the effect of the sequential operation, and touches nothing else. |
| TtlInterleaving.RacingLocksLoseCount | LMCache-precision-allfull/csrc/storage_manager/ttl_lock.cpp:25-33 | Two locks racing at an expired lease can both succeed and leave the counter at one. |
| TtlCounting.CountKeptIff | LMCache-precision-allfull/csrc/storage_manager/ttl_lock.cpp:13-80 | For any calls and any starting cells: the counter equals the starting counter plus the locks minus the unlocks counted so far in every state of every interleaving, exactly when a reset meets only a zero counter and no locks, a lock that finds the lease expired is the only lock and meets a zero counter, and no lock comes a whole ttl after another. |
| TtlCounting.NoLockLostIff | LMCache-precision-allfull/csrc/storage_manager/ttl_lock.cpp:13-48 | For two or more locks, none a whole ttl after another: every interleaving ends with the count that every order of the locks ends with, exactly when none finds the lease expired. |
| TtlCounting.RaceEndsAtOne | LMCache-precision-allfull/csrc/storage_manager/ttl_lock.cpp:25-47 | With any lock that finds the lease expired, some interleaving of all the calls ends with the counter at one, however many locks there are. |
| TtlCounting.TurnsEndInRun | LMCache-precision-allfull/csrc/storage_manager/ttl_lock.cpp:13-80 | Any run of calls that do not overlap ends in the cells of the sequential lock after those calls, so is_locked answers as the history of leases says. |
| TtlCounting.EveryOrderRuns | LMCache-precision-allfull/csrc/storage_manager/ttl_lock.cpp:13-80 | The calls can run one at a time in any order. |
| Bitmaps.Bitmap.constructor | LMCache-precision-allfull/csrc/storage_manager/bitmap.cpp:19-20 | All bits start clear. |
| Bitmaps.Bitmap.Prefix | LMCache-precision-allfull/csrc/storage_manager/bitmap.cpp:22-37 | The first min(size, prefix) bits are set and no other. |
| Bitmaps.Bitmap.Set | LMCache-precision-allfull/csrc/storage_manager/bitmap.cpp:39-42 | One bit of the abstract sequence is set; an index past the size changes nothing. |
| Bitmaps.Bitmap.Clear | LMCache-precision-allfull/csrc/storage_manager/bitmap.cpp:44-47 | One bit of the abstract sequence is cleared; an index past the size changes nothing. |
| Bitmaps.Bitmap.Test | LMCache-precision-allfull/csrc/storage_manager/bitmap.cpp:49-52 | The bit at the index, false past the size. |
| Bitmaps.Bitmap.Popcount | LMCache-precision-allfull/csrc/storage_manager/bitmap.cpp:54-75 | The number of set bits among the first `size`, whatever the padding holds. |
| Bitmaps.Bitmap.Clz | LMCache-precision-allfull/csrc/storage_manager/bitmap.cpp:77-107 | The length of the run of zeros at the front, whatever the padding holds. |
| Bitmaps.Bitmap.Clo | LMCache-precision-allfull/csrc/storage_manager/bitmap.cpp:109-112 | The length of the run of ones at the front. |
| Bitmaps.Bitmap.And | LMCache-precision-allfull/csrc/storage_manager/bitmap.cpp:114-121 | Bitwise and on the common prefix of the two sizes. |
| Bitmaps.Bitmap.Or | LMCache-precision-allfull/csrc/storage_manager/bitmap.cpp:123-130 | Bitwise or on the common prefix of the two sizes, although padding bits may stay set. |
| Bitmaps.Bitmap.Not | LMCache-precision-allfull/csrc/storage_manager/bitmap.cpp:175-188 | Every bit is flipped. |
| Bitmaps.Bitmap.GetIndices | LMCache-precision-allfull/csrc/storage_manager/bitmap.cpp:132-148 | The positions of the set bits. |
| Bitmaps.Bitmap.GetIndicesSet | LMCache-precision-allfull/csrc/storage_manager/bitmap.cpp:150-153 | The same positions as a set. |
| Bitmaps.Bitmap.ToString | LMCache-precision-allfull/csrc/storage_manager/bitmap.cpp:155-173 | One character per bit, '1' where it is set. |
| Bitmaps.MasksAreShifts | LMCache-precision-allfull/csrc/storage_manager/bitmap.cpp:49-52 | The shift-and-test and the shifted masks of the code are the bit each stands for. |
| Bitmaps.IndicesMeaning | LMCache-precision-allfull/csrc/storage_manager/bitmap.cpp:132-148 | The indices ascend, are exactly the set positions, and there are popcount of them. |
| Bitmaps.CountOfNot | LMCache-precision-allfull/csrc/storage_manager/bitmap.cpp:175-188 | popcount of the complement is the size minus popcount. |
| Bitmaps.CountOfOrAnd | LMCache-precision-allfull/csrc/storage_manager/bitmap.cpp:114-130 | Inclusion and exclusion: popcounts of or and and add up to those of the operands. |
| Bitmaps.LeadingOnesOfAnd | LMCache-precision-allfull/csrc/storage_manager/bitmap.cpp:109-121 | clo of an intersection is the smaller clo, whatever the two sizes: the prefix found by both. |
| Bitmaps.LeadingZerosOfOr | LMCache-precision-allfull/csrc/storage_manager/bitmap.cpp:77-130 | clz of a union is the smaller clz. |
| Bitmaps.PrefixObservers | LMCache-precision-allfull/csrc/storage_manager/bitmap.cpp:22-37 | clo and popcount of a prefix bitmap are min(size, prefix). |
| Bitmaps.DeMorgan | LMCache-precision-allfull/csrc/storage_manager/bitmap.cpp:114-188 | De Morgan's laws and double complement. |
| PatternMatcher.MatchesAt | LMCache-precision-allfull/csrc/storage_manager/utils.cpp:53-63 | Whether the pattern occurs at the position. |
| PatternMatcher.MatchPositions | LMCache-precision-allfull/csrc/storage_manager/utils.cpp:15-40 | All occurrences, cast to int, in order. |
| PatternMatcher.PositionsMeaning | LMCache-precision-allfull/csrc/storage_manager/utils.cpp:15-40 | The positions are exactly the occurrences, ascending. |
| PatternMatcher.FindEnd | LMCache-precision-allfull/csrc/storage_manager/utils.cpp:80-93 | The first end pattern at or after the search start, or none. |
| PatternMatcher.Match | LMCache-precision-allfull/csrc/storage_manager/utils.cpp:66-105 | The scan that skips a whole start pattern when no end is found returns what a scan that steps by one returns. |
| PatternMatcher.ScanIsTheAnswer | LMCache-precision-allfull/csrc/storage_manager/utils.cpp:66-105 | Ordered disjoint ranges, each from a start pattern to the first end pattern behind it, that cover every start pattern with a later end: the result is this, and nothing else is. |
| PatternMatcher.CastsAreExact | LMCache-precision-allfull/csrc/storage_manager/utils.cpp:74-84 | Below 2^31 elements the casts to int change nothing. |
| TokenChunks.ProcessTokens | LMCache-precision-allfull/lmcache/v1/token_database.py:339-420 | With f the number of Falses in the mask, exactly the chunks from f / chunk size on, each with its span and the hash of its tokens behind those before, or exactly the given spans; a mask of m chunks of Falses before the Trues skips m chunks and an all-True mask none; and when each error is raised. |
| TokenChunks.ChunkHashMeans | LMCache-precision-allfull/lmcache/v1/token_database.py:329-336 | The hash of a chunk is the hash function on its own tokens behind the hash of the chunk before, or NONE_HASH. |
| TokenChunks.ChunkLoop | LMCache-precision-allfull/lmcache/v1/token_database.py:385-402 | Spans, chained hashes and keys of exactly the chunks the mask does not skip. |
| TokenChunks.OffsetLoop | LMCache-precision-allfull/lmcache/v1/token_database.py:403-418 | Spans from running offsets and keys from the given hashes, up to the shorter list. |
| TokenChunks.ChunksTile | LMCache-precision-allfull/lmcache/v1/token_database.py:318-327 | The spans tile the used part of the token list; the last one may be short. |
| TokenChunks.EqualPrefixEqualHash | LMCache-precision-allfull/lmcache/v1/token_database.py:329-336 | For any hash function, equal prefixes give equal chunk hashes. |
| TokenChunks.ChainInjective | LMCache-precision-allfull/lmcache/v1/token_database.py:223-336 | For an injective hash, chains of equal length agree exactly when their start values and prefixes do. |
| TokenChunks.SameIndexKeys | LMCache-precision-allfull/lmcache/v1/token_database.py:302-336 | For an injective hash the k-th keys of two token lists are equal exactly when the lists agree up to the end of chunk k. |
| TokenChunks.CrossIndexKeys | LMCache-precision-allfull/lmcache/v1/token_database.py:302-336 | Keys at different chunk indices collide exactly when NONE_HASH is the hash of a prefix and the rest agrees. |
| TokenChunks.KeyMeansPrefix | LMCache-precision-allfull/lmcache/v1/token_database.py:302-336 | When NONE_HASH is no hash value, equal keys of any two chunks mean equal token prefixes. |
| TokenChunks.NoneHashCollision | LMCache-precision-allfull/lmcache/v1/token_database.py:223-240 | An injective hash that takes the value NONE_HASH makes two different prefixes share a key. |
| SegmentSplit.FastSplit | LMCache-precision-allfull/lmcache/v1/token_database.py:441-462 | The pieces between the matches of the separator, and the extra yield and the error for an empty or too long separator. |
| SegmentSplit.ProcessSegments | LMCache-precision-allfull/lmcache/v1/token_database.py:499-533 | When matches do not overlap: exactly the stretches between separators that start behind the masked tokens, in order, each with its span and the hash of its own tokens; otherwise the entries of the pieces with their running spans. |
| SegmentSplit.ProcessBoth | LMCache-precision-allfull/lmcache/v1/token_database.py:499-533 | Of any two lists split at one separator without overlaps: equal pieces get equal identifiers for any hash, and only those when the hash is injective. |
| SegmentSplit.ApartMeans | LMCache-precision-allfull/lmcache/v1/token_database.py:446-458 | The matches found keep apart exactly when no separator begins inside another. |
| SegmentSplit.JoinRestoresTokens | LMCache-precision-allfull/lmcache/v1/token_database.py:441-462 | Joining the pieces with the separator gives back the tokens exactly when the matches do not overlap. |
| SegmentSplit.NoPieceContainsSeparator | LMCache-precision-allfull/lmcache/v1/token_database.py:441-462 | No piece contains the separator, for any separator of length at least one. |
| SegmentSplit.SpansLocatePieces | LMCache-precision-allfull/lmcache/v1/token_database.py:514-533 | Every reported span is where its piece sits exactly when the matches do not overlap. |
| SegmentSplit.OverlapExample | LMCache-precision-allfull/lmcache/v1/token_database.py:441-462 | Splitting 1,1,1 at 1,1 loses the round trip. |
| SlotMapping.CompressSlots | LMCache-precision-allfull/lmcache/utils.py:56-91 | The loop computes the run-by-run compression. |
| SlotMapping.AppendRangeOrElements | LMCache-precision-allfull/lmcache/utils.py:94-108 | A run of three or more becomes a range, a shorter one its elements. |
| SlotMapping.DecompressSlots | LMCache-precision-allfull/lmcache/utils.py:111-132 | Ranges are expanded in place. |
| SlotMapping.RoundTrip | LMCache-precision-allfull/lmcache/utils.py:56-132 | Decompressing the compressed list gives back every integer list. |
| SlotMapping.RangesAreMaximalRuns | LMCache-precision-allfull/lmcache/utils.py:79-91 | A range stands exactly where the list has a maximal +1 run of length three or more. |
| SlotText.ParseMixed | LMCache-precision-allfull/lmcache/utils.py:135-223 | The character loop and the part loop compute the reference parser, error cases included. |
| SlotGrammar.TextMeans | LMCache-precision-allfull/lmcache/utils.py:135-223 | Exactly these texts are read: without blanks they are parts that stand for items, and the slots are what the items expand to; every other text raises. |
| SlotGrammar.ScanMeans | LMCache-precision-allfull/lmcache/utils.py:153-186 | The character loop finds exactly the parts of the grammar: parts that end with a pair of brackets, or plain parts before a comma or the end, with commas between them. |
| SlotGrammar.PartMeans | LMCache-precision-allfull/lmcache/utils.py:188-210 | A part is read as the range it spells in brackets, in ascending order, or as the number it spells. |
| SlotText.PrintParseRoundTrip | LMCache-precision-allfull/lmcache/utils.py:135-223 | Printing a compressed list in the documented syntax and parsing it returns the list, and fails exactly when a maximal +1 run of three or more starts below zero. |
| SlotText.NegativeRunFails | LMCache-precision-allfull/lmcache/utils.py:135-223 | The list -3, -2, -1 does not come back. |
| SlotText.NonNegativeRoundTrip | LMCache-precision-allfull/lmcache/utils.py:135-223 | So it returns every list of non-negative slots. |
| SlotText.ParsePrintedItem | LMCache-precision-allfull/lmcache/utils.py:191-210 | A printed item reads back as itself unless it is a range that starts below zero. |
| Numerals.ParsePrinted | LMCache-precision-allfull/lmcache/utils.py:442-449 | A printed decimal or hexadecimal integer, signed, reads back as itself. |
| Numerals.DigitsMean | LMCache-precision-allfull/lmcache/utils.py:389-393 | A number prints as its digits, the most significant first, without a leading zero. |
| Numerals.ParseIntMeans | LMCache-precision-allfull/lmcache/utils.py:442-449 | An integer text is read exactly when it is blanks around an optional sign, for base 16 an optional 0x, and digits with single underscores, and as the value these spell. |
| CacheKey.ReadTagsLoop | LMCache-precision-allfull/lmcache/utils.py:435-441 | The tag loop fills the dictionary in order and rejects a part without '%'. |
| CacheKey.ReadsBackIff | LMCache-precision-allfull/lmcache/utils.py:317-577 | Any constructible key reads back from its text as an equal key of the same class exactly when its model name and tags have no '@', its tag names no '%', and its layer id is not negative. |
| CacheKey.ClassOf | LMCache-precision-allfull/lmcache/utils.py:330-336 | The class is decided right exactly for non-negative layer ids, whatever tags follow. |
| CacheKeyText.TextOf | LMCache-precision-allfull/lmcache/utils.py:389-393 | The text of a key field by field: model, sizes in decimal, hash in hexadecimal, dtype and layer between @ signs. |
| CacheKeyText.TextGrows | LMCache-precision-allfull/lmcache/utils.py:394-397 | Each further tag adds its name, a percent sign and its value; any other config entry adds nothing. |
| CacheKeyText.ReadTagsMeans | LMCache-precision-allfull/lmcache/utils.py:435-441 | Tags are read exactly when each has a percent sign, and then one after the other under the tag prefix. |
| CacheKey.NegativeLayer | LMCache-precision-allfull/lmcache/utils.py:330-336 | The text of a key with a negative layer id is rejected. |
| CacheKey.SameTextIffEqual | LMCache-precision-allfull/lmcache/utils.py:376-397 | Two printable keys, of any layer ids, have the same text exactly when they are equal: class, layer and tags included. |
| CacheKey.UnequalKeysShareText | LMCache-precision-allfull/lmcache/utils.py:376-397 | With an '@' in a tag value two unequal keys, one with one tag and one with two, have the same text. |
| CacheKeyText.ParseShortens | LMCache-precision-allfull/lmcache/utils.py:405-577 | Whatever text is read as a key, the key's own text is no longer: no text of a key is shorter than the printed one. |
| CacheKeyText.OwnTextIsShortest | LMCache-precision-allfull/lmcache/utils.py:405-577 | So no shorter text reads back as an equal key. |
| WireMessage.UnpackPacked | LMCache-precision-allfull/lmcache/v1/protocol.py:117-132 | Packing fails exactly when a field is no 32-bit integer; otherwise unpacking returns the fields, whatever follows them. |
| WireMessage.TablesReadBack | LMCache-precision-allfull/lmcache/v1/protocol.py:24-74 | The code tables are inverse to each other on every value they encode. |
| WireLayout.ClientLayout | LMCache-precision-allfull/lmcache/v1/protocol.py:176-189 | A request byte by byte: nine little-endian two's complement numbers in this order, then the UTF-8 key text, padded with blanks or cut at 186 bytes. |
| WireLayout.ClientErrors | LMCache-precision-allfull/lmcache/v1/protocol.py:166-189 | Which error a request that cannot be written ends in. |
| WireLayout.ClientRefused | LMCache-precision-allfull/lmcache/v1/protocol.py:191-204 | Which error a received request ends in, in the order of the checks, and what it is read as otherwise. |
| WireLayout.ServerLayout | LMCache-precision-allfull/lmcache/v1/protocol.py:225-239 | A reply byte by byte: the location last. |
| WireLayout.ServerRefused | LMCache-precision-allfull/lmcache/v1/protocol.py:245-257 | Which error a received reply ends in, and what it is read as otherwise. |
| WireLayout.RemoteLayout | LMCache-precision-allfull/lmcache/v1/protocol.py:106-126 | Metadata byte by byte: length, format, and twenty bytes for each group. |
| WireMessage.ClientRoundTrip | LMCache-precision-allfull/lmcache/v1/protocol.py:166-204 | A request serializes exactly when its key has at most 150 characters, its shape four dimensions, its tables entries and its fields 32 bits; it reads back equal exactly when moreover its key reads back from its text, and the text has no outer white space and takes at most 150 bytes. |
| WireMessage.CarriedIff | LMCache-precision-allfull/lmcache/v1/protocol.py:181-196 | The key that is read from the padded or cut field is the key sent exactly under those conditions on the key. |
| WireMessage.NotReadBack | LMCache-precision-allfull/lmcache/v1/protocol.py:166-204 | A key that begins with a blank, and one of a hundred two-byte letters, are serialized and not read back. |
| Utf8.DecodeMeans | LMCache-precision-allfull/lmcache/v1/protocol.py:181-196 | Strict UTF-8 decoding accepts exactly the encodings of texts, each as its own text. |
| Utf8.EncodeCharMeans | LMCache-precision-allfull/lmcache/v1/protocol.py:187-197 | The encoding of a character by its bits: the lead byte tells the length, the other bits are the code point's, and no shorter form would do. |
| Utf8.DecodeCut | LMCache-precision-allfull/lmcache/v1/protocol.py:181-196 | An encoding that is cut short decodes, if at all, to a shorter beginning of the text. |
| WireMessage.ServerRoundTrip | LMCache-precision-allfull/lmcache/v1/protocol.py:225-257 | A reply serializes exactly when its shape has four dimensions, its tables entries and its fields 32 bits, and then it reads back equal. |
| WireMessage.PrepareParams | LMCache-precision-allfull/lmcache/v1/protocol.py:106-115 | The loop lists length, format and five fields per group, or raises on the first bad group. |
| WireMessage.RemoteRoundTrip | LMCache-precision-allfull/lmcache/v1/protocol.py:117-146 | Metadata serializes exactly when it has the announced number of groups, each with four dimensions, a dtype of the table and 32-bit fields, and then it reads back equal, from a buffer of any length. |
| PagedKv.SlotIsPlace | LMCache-precision-allfull/lmcache/c_ops_python_fallback.py:89-92 | A slot is its block and offset, a negative one counted from the end: two slots share both exactly when they are the same counted from the front. |
| PagedKv.Reshape | LMCache-precision-allfull/lmcache/c_ops_python_fallback.py:117-119 | Splitting a row into heads is one-to-one and within bounds. |
| PagedKv.ScatterLayer | LMCache-precision-allfull/lmcache/c_ops_python_fallback.py:110-127 | The named places of a layer take host rows, each element that of a position that names the place, whichever wins when there are several; all other places keep theirs; in each of the three layer layouts. |
| PagedKv.GatherLayer | LMCache-precision-allfull/lmcache/c_ops_python_fallback.py:95-107 | The host rows of a layer take what the named places hold, in each of the three layer layouts; no other host element changes. |
| PagedKv.ScatterLayers | LMCache-precision-allfull/lmcache/c_ops_python_fallback.py:178-185 | The layer loop does so in every layer. |
| PagedKv.GatherLayers | LMCache-precision-allfull/lmcache/c_ops_python_fallback.py:178-183 | The layer loop does so for every layer. |
| PagedKv.ScatterFused | LMCache-precision-allfull/lmcache/c_ops_python_fallback.py:163-176 | The same for the fused layout with all layers in one tensor. |
| PagedKv.GatherFused | LMCache-precision-allfull/lmcache/c_ops_python_fallback.py:163-167 | The same for the fused layout with all layers in one tensor. |
| PagedKv.Transfer | LMCache-precision-allfull/lmcache/c_ops_python_fallback.py:130-185 | How every call ends, what moves, and what is left alone. On the tensors themselves, in each layout: after a read, element h * size + d of a host row is position d of head h at the slot's block and offset; after a store, every element at a listed place is that of the row that won it, and every other element is as it was. |
| PagedKv.RowMajor | LMCache-precision-allfull/lmcache/c_ops_python_fallback.py:107-119 | Position d of head h is element h * size + d of a row. |
| PagedKv.EndingMeans | LMCache-precision-allfull/lmcache/c_ops_python_fallback.py:141-185 | When each error is raised, in terms of the slots, the format and the sizes. |
| PagedKv.InPagesMeans | LMCache-precision-allfull/lmcache/c_ops_python_fallback.py:89-92 | Slots lie in the pages when each counts a token of some block, from the front or from the end. |
| PagedKv.RowPlaces | LMCache-precision-allfull/lmcache/c_ops_python_fallback.py:89-92 | The rows a failing store can reach are those whose slots lie in the pages, each at its slot's place. |
| PagedKv.DistinctHold | LMCache-precision-allfull/lmcache/c_ops_python_fallback.py:130-185 | With distinct slots every place holds the row of its own position. |
| PagedKv.NamedMeansListed | LMCache-precision-allfull/lmcache/c_ops_python_fallback.py:89-92 | A place is written exactly when its slot is listed, counted from the front or from the end. |
| PagedKv.StoreThenLoad | LMCache-precision-allfull/lmcache/c_ops_python_fallback.py:130-185 | Storing rows and reading them back turns each row, element by element, into the row that won its place; with distinct slots the host memory is as it was. |
| PagedKv.LoadThenStore | LMCache-precision-allfull/lmcache/c_ops_python_fallback.py:130-185 | Reading slots and storing them back leaves the pages as they were, repeated slots included. |
| PagedKv.SameContentsSameRows | LMCache-precision-allfull/lmcache/c_ops_python_fallback.py:95-107 | Pages of any two layouts with the same logical contents gather to the same rows. |
| PagedKv.CopyBetweenLayouts | LMCache-precision-allfull/lmcache/c_ops_python_fallback.py:130-185 | Gathering from one layout and scattering into another copies the logical contents, except the skipped prefix, repeated slots included. |
| Alignment.AlignToIsLeastMultiple | LMCache-precision-allfull/lmcache/v1/lazy_memory_allocator.py:49-60 | For a power of two, align_to is the least multiple that is not below the size, on unbounded integers. |
| Alignment.AlignsIff | LMCache-precision-allfull/lmcache/v1/lazy_memory_allocator.py:49-60 | align_to gives the least multiple for every size exactly when the alignment is a power of two; otherwise it is wrong already at size one. |
| Alignment.NotPowerOfTwo | LMCache-precision-allfull/lmcache/v1/lazy_memory_allocator.py:49-60 | 5 aligned to 6 gives 10, which is no multiple of 6. |
| Alignment.KeepLowBits | LMCache-precision-allfull/lmcache/v1/lazy_memory_allocator.py:231-236 | The bit test in the pin assertions is the remainder by the chunk size. |
| AddressSpace.NewSpaceOk | LMCache-precision-allfull/lmcache/v1/memory_management.py:969-988 | A new address space meets the invariant: coalesced free list, free and live blocks disjoint and covering every address, totals balanced. |
| AddressSpace.AllocateOk | LMCache-precision-allfull/lmcache/v1/memory_management.py:1051-1097 | Allocation fails exactly when no free block is large enough; otherwise the block is new, of the aligned size, and the invariant holds. |
| AddressSpace.ReleaseOk | LMCache-precision-allfull/lmcache/v1/memory_management.py:1193-1214 | Freeing a live block, with any of the four ways to coalesce, keeps the invariant. |
| AddressSpace.GrowOk | LMCache-precision-allfull/lmcache/v1/memory_management.py:1216-1232 | sbrk grows the space by the aligned size and keeps the invariant. |
| AddressSpace.CoalesceShape | LMCache-precision-allfull/lmcache/v1/memory_management.py:1015-1047 | Coalescing replaces the neighbours it touches by one block that spans them. |
| AddressManagers.AddressManager.Allocate | LMCache-precision-allfull/lmcache/v1/memory_management.py:1051-1097 | The first-fit loop performs the allocation of the model, or raises and changes nothing. |
| AddressManagers.AddressManager.Free | LMCache-precision-allfull/lmcache/v1/memory_management.py:1193-1214 | Exactly the freed block leaves the live blocks. |
| AddressManagers.AddressManager.Sbrk | LMCache-precision-allfull/lmcache/v1/memory_management.py:1216-1232 | The size grows by the aligned amount and live blocks stay. |
| LazyAllocators.LazyMemoryAllocator.Create | LMCache-precision-allfull/lmcache/v1/lazy_memory_allocator.py:77-134 | Construction raises exactly when the rounded initial size exceeds the rounded final size; otherwise all of the initial size is pinned and usable. |
| LazyAllocators.LazyMemoryAllocator.PinMemoryChunk | LMCache-precision-allfull/lmcache/v1/lazy_memory_allocator.py:223-242 | The assertions hold exactly for whole chunks inside the buffer, and then one record is added. |
| LazyAllocators.LazyMemoryAllocator.PinRound | LMCache-precision-allfull/lmcache/v1/lazy_memory_allocator.py:261-267 | One round pins sixteen chunks or up to the end; the records tile the pinned part. |
| LazyAllocators.LazyMemoryAllocator.ExpandOnce | LMCache-precision-allfull/lmcache/v1/lazy_memory_allocator.py:260-270 | One outer iteration pins and commits a round. |
| LazyAllocators.LazyMemoryAllocator.ExpandWorker | LMCache-precision-allfull/lmcache/v1/lazy_memory_allocator.py:255-270 | The worker ends, no assertion fails, everything is pinned unless it is stopped, and the address space is larger than the pinned size by exactly the excess of the rounded commits. |
| LazyAllocators.PinnedAddress | LMCache-precision-allfull/lmcache/v1/lazy_memory_allocator.py:223-242 | Every pinned address lies in one of the records. |
| LazyAllocators.SmallAlignmentsFit | LMCache-precision-allfull/lmcache/v1/lazy_memory_allocator.py:244-270 | A power-of-two alignment up to the chunk size has no excess over any growth. |
| LazyPool.StepOk | LMCache-precision-allfull/lmcache/v1/lazy_memory_allocator.py:141-270 | Every allocation, free, stop request and worker step keeps the pool invariant, for any power-of-two alignment. |
| LazyPool.PinsAndBlocks | LMCache-precision-allfull/lmcache/v1/lazy_memory_allocator.py:141-270 | In every interleaved run, for any power-of-two alignment, the records tile the pinned part, blocks in use are disjoint and inside the space, no assertion fails, and a worker that returns unstopped has committed everything. |
| LazyPool.LiveBlocksArePinned | LMCache-precision-allfull/lmcache/v1/lazy_memory_allocator.py:141-270 | When the excess of the commits is no more than the initial size is off the alignment, every address of a block in use is pinned, in every interleaved run. |
| LazyPool.LiveBlocksArePinnedIff | LMCache-precision-allfull/lmcache/v1/lazy_memory_allocator.py:141-270 | Exactly then: otherwise some run hands out a block that is not pinned. Alignments up to the pin chunk size always meet the condition. |
| LazyPool.SomeBlockIsNotPinned | LMCache-precision-allfull/lmcache/v1/lazy_memory_allocator.py:141-270 | The run that fails, for any sizes and alignment that do not meet the condition: the block reaches past the end of the buffer. |
| LazyPool.LargeAlignmentOvercommits | LMCache-precision-allfull/lmcache/v1/lazy_memory_allocator.py:141-270 | A pool of two chunks that grows to three with an alignment of two chunks, and the run in which a block reaches past the buffer. |
| AlignedSpace.LiveEnds | LMCache-precision-allfull/lmcache/v1/memory_management.py:1051-1097 | Blocks in use never reach past the last multiple of the alignment, although the space may end off it. |
| LazyPool.WorkerFinishes | LMCache-precision-allfull/lmcache/v1/lazy_memory_allocator.py:255-270 | The worker is never stuck and takes at most three steps per chunk and one more, whatever else happens. |
| LazyPool.StopEndsWorker | LMCache-precision-allfull/lmcache/v1/lazy_memory_allocator.py:255-270 | Once a stop is requested the worker takes at most eighteen more steps: the rest of a round of sixteen chunks, its commit and the test. |
| LazyPool.StopIsRequested | LMCache-precision-allfull/lmcache/v1/lazy_memory_allocator.py:193-196 | The stop flag is set exactly from a request on. |
| Fidelity.FidelityStateStore.Set | LMCache-precision-allfull/lmcache/v1/fidelity/state_store.py:33-37 | The state is replaced and the previous one, MISS by default, returned. |
| Fidelity.FidelityStateStore.Transition | LMCache-precision-allfull/lmcache/v1/fidelity/state_store.py:39-46 | Compare and set on the state. |
| Fidelity.HotnessTracker.RecordAccess | LMCache-precision-allfull/lmcache/v1/fidelity/hotness.py:14-18 | The count goes up by one and is hot from the threshold on. |
| Fidelity.CacheEngine.AfterStore | LMCache-precision-allfull/lmcache/v1/cache_engine.py:351-370 | The memory after a store, for every prefix and every early return. |
| Fidelity.CacheEngine.AfterRetrieve | LMCache-precision-allfull/lmcache/v1/cache_engine.py:372-406 | The memory after a retrieve, for every prefix and every early return. |
| Fidelity.FullReadyMeans | LMCache-precision-allfull/lmcache/v1/cache_engine.py:351-406 | In every run a prefix is FULL_READY exactly when the latest full-level event on it stored or found the copy. |
| Fidelity.MissMeans | LMCache-precision-allfull/lmcache/v1/cache_engine.py:351-406 | A prefix is MISS exactly while no copy of it was ever stored or found. |
| Fidelity.CounterMeans | LMCache-precision-allfull/lmcache/v1/cache_engine.py:372-406 | The access count is the number of base hits since the last full success. |
| Fidelity.HowStatesEnd | LMCache-precision-allfull/lmcache/v1/cache_engine.py:351-406 | FULL_READY ends only in FULL_EVICTED by a full miss, PROMOTING only in FULL_READY by a full success, and MISS is never entered again. |
| Fidelity.PromotionMeans | LMCache-precision-allfull/lmcache/v1/cache_engine.py:392-405 | Promotion starts exactly at a base hit that asks for it, in MISS or BASE_READY, that is at least the threshold-th since the last full success. |
| Fidelity.PromotingPersists | LMCache-precision-allfull/lmcache/v1/cache_engine.py:351-406 | PROMOTING survives everything but a full success. |
| Fidelity.PromotingIsHot | LMCache-precision-allfull/lmcache/v1/cache_engine.py:372-406 | A promoting prefix has been hit at least threshold times since its last full success. |
| Prefetch.BuildMap | LMCache-precision-allfull/lmcache/v1/cache_engine.py:2238-2247 | The map holds, for each key, the object fetched last. |
| Prefetch.TakeChunks | LMCache-precision-allfull/lmcache/v1/cache_engine.py:2249-2267 | Chunks are taken and marked up to the first one that is missing. |
| Prefetch.ReleaseUnused | LMCache-precision-allfull/lmcache/v1/cache_engine.py:2269-2272 | Every object of the map loses one reference for each of its keys that was not used, also when keys share it. |
| Prefetch.AsyncProcess | LMCache-precision-allfull/lmcache/v1/cache_engine.py:2206-2274 | Exactly the chunks before the first missing one are returned and marked; each fetched object is released once for every key that ended up with it and is not returned: fewer releases than references lower the count and free nothing, the one that takes the last reference frees it once. |
| Prefetch.MemoryObj.RefCountDown | LMCache-precision-allfull/lmcache/v1/memory_management.py:562-578 | One reference fewer, never below zero, and a free exactly when none is left and the object may be freed. |
| Prefetch.ReleasesMean | LMCache-precision-allfull/lmcache/v1/memory_management.py:562-578 | Of n releases those free that leave the count at zero, and the others lower it by one each. |
| Prefetch.OwnedAccount | LMCache-precision-allfull/lmcache/v1/cache_engine.py:2238-2272 | A result that is its own object is returned, or released once, or shadowed by a later result for its key and then neither. |
| Prefetch.HandledOnceIff | LMCache-precision-allfull/lmcache/v1/cache_engine.py:2238-2272 | For any results, shared objects included: an object is returned, or released exactly once, and not both, exactly when it has keys that ended up with it and all are asked for before the first missing chunk, or it has one such key and that is not. |
| Prefetch.ReturnedAndReleasedIff | LMCache-precision-allfull/lmcache/v1/cache_engine.py:2238-2272 | An object is both returned and released exactly when one of the keys that ended up with it is asked for in time and another is not. |
| Prefetch.KeysDecide | LMCache-precision-allfull/lmcache/v1/cache_engine.py:2238-2272 | An object is returned exactly when one of the keys that ended up with it is asked for in time, and released for exactly those that are not. |
| Prefetch.FetchedTwiceIsLost | LMCache-precision-allfull/lmcache/v1/cache_engine.py:2238-2272 | Two results for one key: the first object is neither returned nor released. |
| Prefetch.SharedIsReleased | LMCache-precision-allfull/lmcache/v1/cache_engine.py:2238-2272 | Two keys with one object, one of them asked for: the object is returned and released, and with one reference freed. |
| Prefetch.ReturnedOnce | LMCache-precision-allfull/lmcache/v1/cache_engine.py:2249-2267 | With distinct chunk keys no object is returned twice. |
| Prefetch.CollectLocation | LMCache-precision-allfull/lmcache/v1/cache_engine.py:2332-2347 | One location's chunks up to its first failure, and where it failed. |
| Prefetch.SyncProcess | LMCache-precision-allfull/lmcache/v1/cache_engine.py:2324-2357 | The returned chunks, the total size and every element of the mask, for any answers of the locations; no reference count changes. |
| Prefetch.AllHitsMean | LMCache-precision-allfull/lmcache/v1/cache_engine.py:2332-2347 | Retrieved are exactly the blocks before the first failure of their location, in order, with their objects. |
| Prefetch.LastFailedMeans | LMCache-precision-allfull/lmcache/v1/cache_engine.py:2340-2345 | The last failed start is the greatest start of a block that a location failed on. |
| Prefetch.KeepMeans | LMCache-precision-allfull/lmcache/v1/cache_engine.py:2349-2357 | A chunk is kept when it ends before the failed start, and the kept ones stay in order. |
| Prefetch.SyncRetrieve | LMCache-precision-allfull/lmcache/v1/cache_engine.py:1436-1479 | With the release behind the copy to the device: every retrieved object, returned or filtered out, is released once for each returned chunk that holds it, which frees it exactly when that takes its last reference. |
| Prefetch.ReleasedIffKept | LMCache-precision-allfull/lmcache/v1/cache_engine.py:2349-2357 | When each retrieved object is its own, exactly those whose chunk ends before the failed start get their reference back; the others keep it for good. |
| Prefetch.ReturnedIsMarked | LMCache-precision-allfull/lmcache/v1/cache_engine.py:2349-2357 | Every returned chunk is marked throughout. |
| Prefetch.MarkIsExactIff | LMCache-precision-allfull/lmcache/v1/cache_engine.py:2349-2357 | The mask marks exactly the returned chunks if and only if no retrieved chunk with tokens before the last failed start reaches it. |
| Prefetch.LastGoodChunkIsLost | LMCache-precision-allfull/lmcache/v1/cache_engine.py:2349-2357 | With one location and contiguous chunks, a failure after the first chunk always drops the chunk before it although it stays marked. |
| TokenPools.LRUTokenPool.CommonPrefix | LMCache-precision-allfull/examples/agents/prefix_analysis.py:56-61 | The length of the longest common prefix. |
| TokenPools.LRUTokenPool.FindBest | LMCache-precision-allfull/examples/agents/prefix_analysis.py:52-65 | The longest match over all stored requests and the first request that reaches it. |
| TokenPools.LRUTokenPool.LongestPrefixLen | LMCache-precision-allfull/examples/agents/prefix_analysis.py:44-69 | The match, and the matched request becomes the most recent; nothing else changes. |
| TokenPools.TouchMeans | LMCache-precision-allfull/examples/agents/prefix_analysis.py:52-69 | The first of the longest matches goes to the recent end and the others stay in their order; without a match nothing moves. |
| TokenPools.LRUTokenPool.Evict | LMCache-precision-allfull/examples/agents/prefix_analysis.py:128-135 | The oldest requests go, as many as the reference says. |
| TokenPools.LRUTokenPool.AddRequest | LMCache-precision-allfull/examples/agents/prefix_analysis.py:119-139 | The pool stays valid for a new identifier: the total is the stored tokens, within the bound unless one oversized request is alone. With a reused identifier the total is right exactly when the overwritten request had no tokens. |
| TokenPools.CountsTwice | LMCache-precision-allfull/examples/agents/prefix_analysis.py:119-139 | Two requests of one token under one identifier: the total is two and one token is stored. |
| TokenPools.EvictFits | LMCache-precision-allfull/examples/agents/prefix_analysis.py:128-135 | Eviction makes room or empties the pool, and takes no request more than needed. |
| TokenPools.LRUTokenPool.constructor | LMCache-precision-allfull/examples/agents/prefix_analysis.py:39-42 | A new pool is empty and valid. |
| TokenPools.CalculateHitRate | LMCache-precision-allfull/examples/agents/prefix_analysis.py:188-231 | The loop computes the hits of the trace over its tokens, as an exact ratio. |
| TokenPools.UnlimitedFindsMost | LMCache-precision-allfull/examples/agents/prefix_analysis.py:188-231 | On any trace no bounded pool finds more than the unlimited one. |
| TokenPools.UnlimitedFindsBest | LMCache-precision-allfull/examples/agents/prefix_analysis.py:44-69 | The unlimited pool finds, for each request, the longest prefix it shares with any earlier one. |
| TokenPools.RepeatedRequest | LMCache-precision-allfull/examples/agents/prefix_analysis.py:188-231 | A trace that repeats one request finds all of it from the second time on, in an unlimited pool. |
| TokenPools.PoolEntries | LMCache-precision-allfull/examples/agents/prefix_analysis.py:119-139 | A pool stores requests of the trace under their own identifiers; an unlimited one stores them all. |
| TokenPools.HitsWithinTokens | LMCache-precision-allfull/examples/agents/prefix_analysis.py:188-231 | A hit rate is never above one. |
| TokenPoolSizes.FindsMostIff | LMCache-precision-allfull/examples/agents/prefix_analysis.py:44-139 | A pool finds at least as much as every other one on all traces with at most t tokens before the last request exactly when it can hold t tokens. |
| TokenPoolSizes.LargerFindsMoreIff | LMCache-precision-allfull/examples/agents/prefix_analysis.py:44-139 | A pool finds at least as much as a given smaller one on all those traces exactly when it can hold t tokens or the smaller one has room for at most two. |
| SmallTokenPools.SmallFindsLess | LMCache-precision-allfull/examples/agents/prefix_analysis.py:44-139 | A pool with room for at most two tokens never finds more than a larger one, on any trace. |
| TokenPoolSizes.SmallerFindsMore | LMCache-precision-allfull/examples/agents/prefix_analysis.py:44-139 | For every size from three on and every larger one, a trace of four requests on which the smaller pool finds more. |
| TokenPoolSizes.LargerPoolCanFindLess | LMCache-precision-allfull/examples/agents/prefix_analysis.py:44-139 | The least such trace: room for three tokens finds two, room for four finds one. |

## Left out

- Weak memory orders: the atomics are sequentially consistent; condition-variable wake-ups are a worker's freedom to step.
- Connector `close()` after the stop flag: joining, closing the descriptor and clearing the queues; connection set-up is a step that succeeds or ends the worker, the single operations succeed or throw a `std::exception`, and other exceptions do not occur.
- Connector buffers: get and set tiles carry their keys only; buffers and lengths are in `Tiling.CreateTile`.
- Connector, LazyPool, TtlInterleaving and TtlCounting: modelled on values, not as heap objects, so aliasing of the shared batch state is not captured; future ids do not wrap at 64 bits.
- TtlLock.LockedIffLeaseHeld: for calls that do not overlap (`TtlCounting.TurnsEndInRun`); what overlap does to the count is `TtlCounting.CountKeptIff`. Clock values are unbounded integers.
- PatternMatcher.CastsAreExact: holds below 2^31 elements; beyond that the casts wrap as written out in the model.
- TokenChunks.KeyMeansPrefix: needs NONE_HASH outside the image of the hash; `TokenChunks.CrossIndexKeys` states the general case.
- Bytes chunk hashes, extra hash keys, and the choice of the hash function: the hash is any function.
- CacheKey: Python's Unicode digits and its limit on the length of integer texts are not modelled.
- CacheKey and WireLayout.ClientRefused: a key text that is refused is one error, a ValueError; the KeyError of an unknown element type name is not told apart.
- CacheKey.SameTextIffEqual: for model names and tags without '@' and tag names without '%'; with them unequal keys can share a text, as `CacheKey.UnequalKeysShareText` shows.
- WireMessage.ClientRoundTrip: texts are sequences of Unicode scalar values, so lone surrogates, which cannot be encoded, do not occur; integers are little-endian, as on the machines the code runs on.
- PagedKv.Transfer: tensors of matching shapes; which elements a store reaches before an IndexError is a parameter; devices, element type conversion and asynchronous copies are not modelled.
- PagedKv: `single_layer_kv_transfer`, which uses the same two layer helpers, and raw pointer arrays, which raise a TypeError.
- LazyAllocators and LazyPool: the address of the buffer, NUMA and the CUDA registration; a pin record is an offset and a size. Alignments are powers of two, as the code requires.
- AddressManagers: `batched_allocate` and `check_consistency`; the sorted list is a sequence with its insertion point.
- AddressSpace.ReleaseOk: for blocks that were handed out and not freed since, as callers must.
- Fidelity: calls are serialized, and the prefix identifier is an input (its digest of tokens is not modelled); reasons, times and log lines are left out.
- Fidelity: the policy that picks a level and the codec.
- Prefetch.AsyncProcess: decoding is the identity, and pins do not change during a call. The storage manager's answers are arbitrary inputs.
- Prefetch.SharedIsReleased: says what the code does with such a result; whether a backend ever returns one is not part of this model.
- Broadcasting to other ranks, remove-after-retrieve and the layer-wise generators are not modelled.
- TokenPools: substring matching; a trace numbers its requests 0, 1, 2 and so on.
- GPU kernels, pybind glue, sockets, event manager, configuration, statistics, tokenizers and plotting.
