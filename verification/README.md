# Verification of the lazyfree page cache

A Dafny 4.11 model of the page cache built on discardable memory, of the open-addressing
hash table that serves as its index, and of the fallthrough (read-through) cache on top.
`dafny verify dfyconfig.toml` checks everything.

## The system

The cache owns 32 chunks of 4096-byte pages. A chunk hands out pages from a bump pointer and
from a stack of released pages. When a lazyfree chunk is full it is given to the kernel with
`MADV_FREE`: from then on the kernel may replace any of its pages by zeros, at any moment,
until the page is written again. The cache notices this by keeping the lowest bit of every
page's last byte set and storing the true bit in a side bitset. Readers lock optimistically;
a reader that wants to write upgrades its lock in a race with the kernel. When no page is
free, a chunk chosen at random is dropped as a whole.

How this is modelled:

* **The kernel is an adversary.** `Memory` and the relation `CacheState.Evicts` let it zero any
  set of reclaimable pages before every single byte that the program loads or stores.
* **The environment chooses** the victim chunk, what a file-backed page reads as after
  `MADV_DONTNEED`, the initial contents of malloc'ed buffers, the hash function (any function
  from keys to 32 bits) and the refill function (any deterministic one).
* **Exits of the program** are outcomes: `Outcome` in `FallthroughCache`, `exited` and `None`
  results in `LazyfreeCache`. Which ones can happen is proved.

Two descriptions of the cache are kept side by side. The classes (`HashMap`, `MappedChunk`,
`Memory`, `RLock`, `LazyfreeCache`, `FallthroughCache`) follow the C code statement by
statement and update their fields in place. Each public method is proved to perform one step
of the protocol that `CacheSteps` defines on values (`ReadLockStep`, `WriteLockStep`, ...), and
`FallthroughCache.Get` and `Drop` one `FtStep` of `FallthroughSteps`. The theorems about all
steps and all runs are proved about those steps, and so hold of the methods.

| files | contents |
|---|---|
| `Words`, `Options`, `Bitset` | machine words, powers of two, the pigeonhole principle; the packed bitset |
| `ProbeTable`, `HashMap` | the probed table as a sequence; the hash table refining a finite map |
| `CacheState`, `CacheSteps` | the cache as a value; its operations and the steps of the lock protocol |
| `CacheInvariant`, `CacheSafety`, `ProtocolRuns` | the invariant; every step keeps it; whole runs, unlock soundness |
| `Allocation`, `UnlockEffects` | where an allocation takes its page; what the unlocks release |
| `Occupancy`, `Publication`, `OptimisticRead`, `ChunkDrops` | conservation of pages and index size; the upgrade race, the stolen bit, the eviction window; what is read is what was published; lock checks after a chunk drop |
| `FallthroughSteps`, `FallthroughRuns`, `FallthroughHits`, `FallthroughAgreement`, `FallthroughAnon`, `GetOutcomes`, `CollidingKeys`, `ExitRuns`, `KeyZero` | gets and drops as steps; transparency; hits and misses; the index against the reverse table; runs without lazyfree chunks; what a get can come to, told before it; nine keys that collide; runs that lead to an exit; key 0 |
| `UndisturbedRuns`, `StaleSlots`, `LockTruncation` | runs computed from a new cache; a key with two slots; locks in chunks of more than 65536 pages |
| `Memory`, `PageAccess`, `GenericCache`, `MappedChunk`, `LazyfreeCache`, `FallthroughCache` | the imperative model |

## What the proofs showed about the code

* `ft_cache_get` does not always refill. If the page is evicted between the first check and the
  last, the program exits (src/cache/fallthrough_cache.c:45-46, src/cache/lazyfree_cache.c:353-356).
  `ExitPossibleIff` says exactly when: the key is indexed, and its page is intact and reclaimable.
  `ExitIsReached` gives the run, from every new cache whose first chunk is lazyfree.
  The invariant says that only pages of lazyfree chunks are reclaimable, so other configurations never exit here.
* The comment "Already in hashmap and keys" (src/cache/lazyfree_cache.c:519) holds of `keys`
  only. Refilling a key whose page was evicted leaves its old slot owned by the key
  (`AgreementKeptIff`; `GetKeepsAgreementIff` tells it before the call; `RefillLeavesStaleSlot`
  gives the run). Dropping the old slot's chunk later takes the key out of the index although its
  new page is intact. A lock taken before on the new page can still be upgraded, and the page
  published, while the key is not in the index (`PublishedUnindexed`).
* README.md:138-139 of the repository says that the lock check fails for a key whose chunk was
  dropped. In a chunk that is not file-backed it does, in any later state of any run, if and only
  if the slot was not handed out again or its new page was evicted (`DroppedCheckFailsIff`, for
  slots that are neither write-locked nor released since). A slot handed out again makes the
  check succeed on another key's bytes: `ReusedPagePassesCheck` gives the run. A file-backed chunk
  is mapped MAP_SHARED, so `MADV_DONTNEED` gives the bytes back, and the check can succeed with
  the slot never used again (`DroppedFilePassesCheck`). The key comparison in
  `lazyfree_read_unlock` makes the protocol sound all the same: after an unlock that reports
  success, every read of the session was a read of the page last published (`UnlockSound`,
  `SessionReadsPublished`).
* Key 0 is not safe. `hmap_remove` never clears `key0`, and a released slot carries key 0, so
  get 0, drop 0, get k, drop k, get 0 returns k's bytes (`KeyZeroReadsAnotherKey`).
  `TransparentIffWithoutKeyZero` proves that this is the only such family. All other theorems
  about the cache are about keys other than 0.
* `hmap_put` ignores a failed insertion (src/cache/lazyfree_cache.c:229), so a key may be
  refilled and yet not be found again. Whether an insertion fails can be told from the hashes of
  the keys. Call the home of a key in a table of 2^31 slots its last home. A key is uncrowded if
  the window after its last home has a stretch of n slots that fewer than n other keys of the
  index could occupy; any key with fewer than eight others less than eight slots away is
  (`FewNeighboursUncrowded`). Insertion of a key that is there already or uncrowded succeeds, and
  that of a new key fails if eight others have its very last home (`ProbeTable.InsertionOutcome`,
  kept by `Put` and by everything above it). In a table of 2^31 slots it succeeds if and only if
  the window has room. All safety theorems hold with failing insertions. Those that promise a hit
  ask that the keys are uncrowded. Without that they can fail: from every new cache with pages
  there are runs that get nine keys with the same last home (`AskedRunExists`), and in all of
  them the ninth key misses on every call (`NinthKeyNeverHits`).
* The exits "Failed to find free page" and "free_pages_count > len" cannot be reached by a cache
  that has at least one page per chunk.
* A lock keeps 16 bits of its slot number. Nothing depends on them but the upgrade of a lock,
  which locks the right page for every lock of every run if and only if chunks have at most
  65536 pages (`UpgradesLockOwnPageIff`); with more, a lock on slot 65536 is upgraded to a write
  lock of slot 0 (`UpgradeGoesAstray`). The fallthrough cache never upgrades a lock
  (`MissAllocates`), so its theorems hold for chunks of any size.

## Model

| member | source | states |
|---|---|---|
| ProbeTable.HomeInRange | src/include/hashmap.h:617-621 | The first probed slot is below the capacity for every hash and every capacity up to 2^31, so the eight probes stay inside the allocation and below the sentinel. |
| ProbeTable.HomeDoubles | src/include/hashmap.h:617-621 | Doubling the capacity sends a key with home h to 2h or 2h + 1. |
| ProbeTable.HomeIsTopBits | src/include/hashmap.h:617-621 | The home is the number that the top log2 bits of the scrambled hash spell. |
| ProbeTable.ScrambleInverts | src/include/hashmap.h:617-621 | The 32-bit multiplication loses nothing: multiplying by 340573321 gives the hash back. |
| ProbeTable.LookupInWindow | src/include/hashmap.h:366-389 | Although removal leaves no tombstones, a key is in the map if and only if its own 8-slot window holds it. |
| ProbeTable.WriteUpdatesMap | src/include/hashmap.h:351-361 | Writing the slot where a probe lands is exactly the map update m[k := v], and the slot was blank exactly when k was new. |
| ProbeTable.WriteKeepsWellFormed | src/include/hashmap.h:336-364 | After such a write every key still sits in its window, and no key is stored twice. |
| ProbeTable.EraseUpdatesMap | src/include/hashmap.h:405-413 | Blanking a slot is exactly the removal of its key from the map, and keeps the table well formed. |
| ProbeTable.FirstFitWrite | src/include/hashmap.h:640-658 | In a table that never saw a removal, insertion leaves no blank slot between a key's home and the key. |
| ProbeTable.OriginsBound | src/include/hashmap.h:661-711 | The entries of an occupied run of the doubled table that starts after a blank at r - 1 come from old positions at or after r / 2. |
| ProbeTable.DoublingFits | src/include/hashmap.h:661-711 | Reinserting the entries of any well-formed table, in index order, into one of twice the capacity never meets a full window: one doubling always suffices. |
| ProbeTable.AtMostEightPerHome | src/include/hashmap.h:640-655 | No table stores more than eight keys with the same home. |
| ProbeTable.FullWindowIsCrowded | src/include/hashmap.h:640-655 | In a table of 2^31 slots a window full of other keys means a new and crowded key: every stretch of n slots of the window has at least n stored keys that their last homes allow there. |
| ProbeTable.FewNeighboursUncrowded | src/include/hashmap.h:640-655 | A key with fewer than eight others whose last home is less than eight slots from its own is uncrowded. |
| ProbeTable.NinthKeyIsNowhere | src/include/hashmap.h:617-655 | A key that has its last home in common with eight stored keys is in no table that stores them, whatever its capacity. |
| ProbeTable.FewKeysSpread | src/include/hashmap.h:617-621 | Whatever the hash function, up to eight keys never crowd each other out. |
| HashMap.RoundCapacity | src/include/hashmap.h:308-328 | Any request up to 2^31 becomes the least power of two that is at least 2 and not below it, which is 2 for requests below 2, and log2 matches. |
| HashMap.DoubledCapacity | src/include/hashmap.h:683-689 | The 32-bit doubling wraps to 0, and is refused, exactly at 2^31 slots. |
| HashMap.HashMap.constructor | src/include/hashmap.h:306-334 | A new table is well formed, has the least suitable capacity, stands for the empty map, and has all slots blank. |
| HashMap.HashMap.HashHelper | src/include/hashmap.h:623-659 | It succeeds if and only if the table is not at capacity and the window is not full of other keys, and then gives the key's slot or the first blank of the window. |
| HashMap.HashMap.Get | src/include/hashmap.h:366-389 | Returns what the finite map holds for the key, and nothing if it holds nothing. |
| HashMap.HashMap.Remove | src/include/hashmap.h:391-419 | The map loses exactly that key; the result says whether it was there. |
| HashMap.HashMap.Put | src/include/hashmap.h:336-364 | Result 0 means the map became m[k := v]; result 1 leaves the map as it was. It fails only for the null key or at 2^31 slots without room; there, if and only if there was no room before the call. From any table below 2^31 keys it succeeds for a key already there or left uncrowded by the stored ones, and fails for a new key that collides with eight. It terminates through the mutual recursion with the rehash. |
| HashMap.HashMap.Store | src/include/hashmap.h:351-363 | The update of the landing slot keeps size equal to the number of keys. |
| HashMap.HashMap.RehashHelper | src/include/hashmap.h:677-711 | Fails only at 2^31 slots and then before any entry was moved; otherwise the capacity doubles and the map is unchanged. |
| HashMap.HashMap.IteratePairs | src/include/hashmap.h:469-494 | Moving the entries never stops midway, loses none and adds none. |
| HashMap.HashMap.VisitPair | src/include/hashmap.h:477-491 | After the turn for slot i the new table stands for the entries of the old slots up to i. |
| HashMap.HashMap.RehashIterator | src/include/hashmap.h:661-672 | The nested put never rehashes: the new table's array stays the same and the caller is always told to blank the old entry. |
| HashMap.HashMap.EntryFits | src/include/hashmap.h:661-711 | At every moment of a rehash the next entry is new to the new table and has room there. |
| Bitset.BytesForIsLeast | src/include/bitset.h:14-19 | The allocation is the least number of bytes that holds all the bits. |
| Bitset.ByteBit | src/include/bitset.h:25-32 | Setting or clearing one bit of a byte reads back at that bit and changes no other. |
| Bitset.PutRefines | src/include/bitset.h:25-32 | On the packed bytes, storing bit i is the sequence update of position i and nothing else. |
| Bitset.Put | src/include/bitset.h:25-32 | The array refines a sequence of booleans, of which one position changes. |
| Bitset.Get | src/include/bitset.h:34-36 | Reads the boolean of that sequence. |
| CacheState.StolenBitRoundTrip | src/cache/lazyfree_cache.c:238-248 | Publishing a last byte and decoding it again gives the byte back, for all 256 bytes; the published byte is odd, hence never 0. |
| CacheSteps.StoreThenReclaim | src/cache/lazyfree_cache.c:504-513 | Reclaims of other pages after a store could as well have happened before it, since the stored page is safe. |
| CacheInvariant.FreeFits | src/cache/lazyfree_cache.c:272-289 | The free stack never holds more slots than are below the bump pointer. |
| CacheInvariant.PushKeepsChunk | src/cache/lazyfree_cache.c:277-288 | Releasing a slot in use keeps the stack duplicate-free and exactly the unowned slots below len, and never overflows it, so the exit in `cache_drop` is unreachable. |
| CacheInvariant.PopKeepsChunk | src/cache/lazyfree_cache.c:415-421 | A popped slot was unowned, so no slot is handed out twice. |
| CacheInvariant.BumpKeepsChunk | src/cache/lazyfree_cache.c:424-429 | Taking a blank page keeps the partition of the slots. |
| CacheSafety.CacheDropKeeps | src/cache/lazyfree_cache.c:272-289 | Releasing a slot in use keeps the invariant, cannot take the overflow exit, and leaves every other key's slots, bits and pages alone. |
| CacheSafety.DropChunkKeeps | src/cache/lazyfree_cache.c:379-402 | Dropping any chunk keeps the invariant and harms no key outside it. |
| CacheSafety.WalkFinds | src/cache/lazyfree_cache.c:442-459 | With a free page counted, at most one visit to each chunk finds one. |
| CacheSafety.AllocationFailsIffNoPages | src/cache/lazyfree_cache.c:436-462 | "Failed to find free page" is reached if and only if chunks have no pages at all. |
| CacheSafety.WriteAllocTakes | src/cache/lazyfree_cache.c:464-479 | The slot allocated is one that the chunk the loop stops at could hand out, in a state that keeps the invariant. |
| CacheSafety.WriteAllocKeeps | src/cache/lazyfree_cache.c:464-479 | Allocation, with or without a chunk drop, keeps the invariant and changes no other key's data except by losing it. |
| CacheSafety.FallbackPage | src/cache/lazyfree_cache.c:504-511 | A page that fails the check during an upgrade was evicted as a whole, and storing 0 leaves it all zero. |
| CacheSafety.WriteLockKeeps | src/cache/lazyfree_cache.c:482-526 | Every branch of the write lock keeps the invariant and leaves other keys alone. |
| CacheSafety.WriteUnlockKeeps | src/cache/lazyfree_cache.c:528-547 | So does publishing or dropping the write-locked page. |
| CacheSafety.ReadUnlockKeeps | src/cache/lazyfree_cache.c:338-375 | So does the read unlock, with or without drop. |
| CacheSafety.StepKeeps | src/cache/lazyfree_cache.c:291-547 | Every step of the protocol keeps the invariant: free-stack partition, index coherence, page count, write lock on a slot in use, every published page intact with an odd last byte or evicted whole. |
| CacheSafety.StepKeepsSeen | src/cache/lazyfree_cache.c:257-268 | A page that may be named in a lock stays one, so old locks remain safe to pass. |
| ProtocolRuns.InitialInv | src/cache/lazyfree_cache.c:110-167 | A new cache satisfies the invariant, whatever malloc returned. |
| ProtocolRuns.RunKeepsInv | src/cache/lazyfree_cache.c:291-547 | The invariant holds in every state of every run. |
| ProtocolRuns.LookupNeverMismatches | src/cache/lazyfree_cache.c:314-319 | In every state of every run, a key found in the index owns the slot, in use, that it leads to: the mismatch test never fires. |
| ProtocolRuns.LockStaysOk | src/cache/lazyfree_cache.c:257-268 | A lock handed out can be passed back after any run. |
| ProtocolRuns.UnwrittenIsUntouched | src/cache/lazyfree_cache.c:291-547 | Over any run without a write for key k, its own read sessions and drops included, a slot that still is k's has its bit and its bytes unchanged, or was evicted. |
| ProtocolRuns.UnlockSound | include/lazyfree_cache.h:23-26 | If the unlock reports success after any writes of other keys and any read sessions, drops and chunk drops, then in every state since the read lock the slot was in use by the key, with the bytes it had at the lock, and the lock's tail was their decoded last byte (no ABA). |
| Publication.WriteAllocMemory | src/cache/lazyfree_cache.c:436-479 | An allocation changes no page outside the dropped chunk, and makes reclaimable only pages of lazyfree chunks that it leaves behind. |
| Publication.PassedChunksAreFull | src/cache/lazyfree_cache.c:442-450 | Only a chunk without any page left is left behind. |
| Publication.UpgradeRace | src/cache/lazyfree_cache.c:504-525 | For every placement of evictions: if the first store found the page evicted, it is left all zero, and a slot is locked that nobody owned or that is in the chunk dropped for it; else the lock is on the same slot with exactly the published bytes and no longer reclaimable, or, for a slot number beyond 16 bits, on another slot, of which the last byte is decoded. |
| Publication.PublishStores | src/cache/lazyfree_cache.c:528-547 | A page its holder wrote to decodes, once published, to exactly what the holder left; its last byte is odd and it is not reclaimable. |
| Publication.PublishedSurvives | src/cache/lazyfree_cache.c:324-334 | Until the key is written again, whatever is read, dropped or written for other keys, the slot, if still the key's, decodes to what was published or was evicted. |
| Publication.PublishThenUpgrade | src/cache/lazyfree_cache.c:482-547 | Locking for write again after such a run, read sessions of the key included, gives back every byte, the last one included. |
| Publication.EvictionWindow | src/cache/lazyfree_cache.c:404-409 | A page becomes reclaimable only in a write lock that drops no chunk and whose allocation leaves its chunk, lazyfree and full, behind. |
| Allocation.AllocationPlace | src/cache/lazyfree_cache.c:379-462 | With a page free, an allocation takes it from the nearest chunk ahead in circular order that has one, makes it current, and gives the kernel exactly the lazyfree chunks on the way, all full. With none free, it takes the first page of the victim, which becomes current, and gives nothing. |
| Allocation.ReleasedIsReused | src/cache/lazyfree_cache.c:411-421 | A slot released in the current chunk is the next one allocated, and the free stack is then as it was. |
| UnlockEffects.WriteUnlockDrops | include/lazyfree_cache.h:39-40 | A write unlock with drop frees exactly the write-locked slot, takes exactly its key out of the index, counts the page as free, and touches no memory. |
| UnlockEffects.DroppedIsNotFound | include/lazyfree_cache.h:39-40 | So a lookup of that key then finds nothing. |
| UnlockEffects.WriteUnlockPublishes | src/cache/lazyfree_cache.c:528-547 | Without drop the slot stays in use by its key, and index, count and all other slots are as before. |
| UnlockEffects.UnlockValidIff | include/lazyfree_cache.h:23-26 | A read unlock reports success if and only if the lock is on a page that is in use by the lock's key. |
| UnlockEffects.ReadUnlockFrees | include/lazyfree_cache.h:23-26 | With drop and success it frees exactly that slot and key; otherwise only the kernel acts. |
| UnlockEffects.MissedLockIsInvalid | src/cache/lazyfree_cache.c:343-346 | A lock of a lookup that found no page, or an evicted one, gives failure in every later state, and changes nothing. |
| LockTruncation.UpgradeGoesAstray | src/cache/lazyfree_cache.c:516-525 | From every new cache with more than 65536 pages a chunk, a run after which a lock on slot 65536 is upgraded to a write lock of slot 0, while the index leads the key to slot 65536. |
| LockTruncation.UpgradesLockOwnPageIff | src/cache/lazyfree_cache.c:516-525 | Every upgrade of every run locks the page its lock is on if and only if chunks have at most 65536 pages. |
| OptimisticRead.PublishThenRead | include/cache.h:75-88 | A page last published by k, then read through a lock that k took, after any number of read sessions of k, while other keys write and pages and chunks are dropped: if the slot is still k's and the check succeeds, every slice read is that slice of the published page, last byte included. |
| OptimisticRead.SessionReadsPublished | include/lazyfree_cache.h:23-26 | A page last published by k, then any read session of k, the first or a later one, whose unlock reports success: in every state of the session every slice read through the lock is that slice of the published page, last byte included. |
| OptimisticRead.ReusedPagePassesCheck | README.md:138-139 | From every new cache, a run with nothing done for k after its read lock: k's chunk is dropped, q publishes into k's page, and k's lock passes the check and reads q's bytes. |
| ChunkDrops.StepKeepsBlank | src/cache/lazyfree_cache.c:291-547 | Every step of the protocol keeps the pages of blank slots zero, in a chunk that is not file-backed; dropping the chunk makes them so. |
| ChunkDrops.DroppedCheckFailsIff | README.md:138-139 | In every state of every run after the drop of a chunk that is not file-backed, the check of a lock on one of its slots, unless the slot is write-locked or was released since, fails if and only if the slot was not handed out again or its new page was evicted. |
| ChunkDrops.DroppedFilePassesCheck | src/cache/util.c:67-69 | From every new cache whose first chunk is file-backed and has two pages, a run with nothing done for k after its read lock: the chunk is dropped, and k's lock passes the check with the slot never used again. |
| Occupancy.Conservation | src/cache/lazyfree_cache.c:379-462 | `total_free_pages` equals the capacity less the number of slots in use, in every state that keeps the invariant. |
| Occupancy.IndexedSlotsDiffer | src/cache/lazyfree_cache.c:464-479 | The index never holds more keys than there are slots in use. |
| Occupancy.IndexBelowCapacityAtPut | src/cache/lazyfree_cache.c:464-479 | The index holds strictly fewer keys than the cache has pages whenever the cache inserts. |
| Occupancy.NeverFullAtPut | src/include/hashmap.h:631-634 | A table with a slot for every page is below capacity at every insertion the cache can make next, whatever chunk it drops first. |
| FallthroughSteps.MissAllocates | src/cache/fallthrough_cache.c:49-53 | After a failed check the write lock always allocates; it never upgrades. |
| FallthroughSteps.MissFills | src/cache/fallthrough_cache.c:49-55 | A miss leaves the key's new slot holding the refilled entry, intact and not reclaimable; apart from that slot data can only be lost. |
| FallthroughRuns.HitReads | src/cache/fallthrough_cache.c:34-43 | A hit gives the decoded entry of the key's slot as it was before the call, and changes nothing that the kernel does not. |
| FallthroughRuns.DropIsValid | src/cache/fallthrough_cache.c:64-66 | The result of `read_unlock` that a drop ignores is always true. |
| FallthroughRuns.DropReleases | src/cache/fallthrough_cache.c:59-69 | A drop that finds its page frees that slot, removes that key from the index, and leaves every other slot, key and mapping as it was. |
| FallthroughRuns.CallKeepsContent | src/cache/fallthrough_cache.c:29-69 | Every call keeps: each slot in use, stale ones included, holds its key's refill value or was evicted; and a get returns the refill value. |
| FallthroughRuns.Transparency | src/cache/fallthrough_cache.c:29-56 | Over every run from a new cache, of any size, on keys other than 0, under every behaviour of the kernel, each get that returns gives exactly the refill value of its key. |
| FallthroughHits.DropEffect | src/cache/fallthrough_cache.c:59-69 | After a drop, with either result, the next call for that key does not find it, whatever other keys do meanwhile. |
| FallthroughHits.MissProtects | src/cache/fallthrough_cache.c:49-55 | A refilled and indexed key is out of the kernel's reach when the call returns. |
| FallthroughHits.UncrowdedIsStored | src/cache/lazyfree_cache.c:222-230 | A refilled key that the indexed keys leave uncrowded is indexed. |
| FallthroughHits.NinthKeyIsNotStored | src/cache/lazyfree_cache.c:222-230 | A refilled key that collides with eight indexed keys is not, and the index is what it was. |
| FallthroughHits.NinthKeyMissesAgain | src/cache/lazyfree_cache.c:229 | So the next get of that key misses again. |
| CollidingKeys.NinthKeyNeverHits | src/cache/lazyfree_cache.c:229 | In every run from a new cache that gets nine keys with the same last home in turn and then the ninth over and over, under every behaviour of the kernel, each call misses and the ninth key is never indexed, while the first eight stay indexed. |
| CollidingKeys.AskedRunExists | src/cache/fallthrough_cache.c:29-56 | From every new cache and for any nine such keys there is such a run, of every length up to the number of pages. |
| FallthroughHits.ProtectedStays | src/cache/fallthrough_cache.c:29-69 | It stays so through any call that does not drop it, drops no chunk in which it has a slot, and does not leave its lazyfree chunk behind. |
| FallthroughHits.RefilledKeyHits | src/test.c:23-52 | So a key that was uncrowded when it was refilled hits every time over any such run. |
| FallthroughAgreement.AgreementKeptIff | src/cache/lazyfree_cache.c:475-519 | A call keeps the agreement of index and reverse table if and only if it is not a refill whose insertion failed, or of a key whose evicted page keeps its slot. |
| GetOutcomes.GetKeepsAgreementIff | src/cache/lazyfree_cache.c:475-519 | Told before the call, in a full cache as in any other: if the key is indexed or uncrowded, every get of it keeps the agreement if and only if the key is not indexed, or its page is intact and out of the kernel's reach. |
| GetOutcomes.GetCanMissIff | src/cache/fallthrough_cache.c:29-56 | A get of a key can miss if and only if the key is not indexed, or its page is evicted or within the kernel's reach. |
| FallthroughAgreement.StaleSlotUnmapsKey | src/cache/lazyfree_cache.c:386-391 | Dropping the chunk of a stale slot takes the key out of the index although its new slot is in use and intact. |
| StaleSlots.RefillLeavesStaleSlot | src/cache/lazyfree_cache.c:475-476 | From every new cache whose first chunk is lazyfree, a run that ends with a key owning two slots, the evicted one and the one the index leads to. |
| StaleSlots.PublishedUnindexed | src/cache/lazyfree_cache.c:515-547 | It goes on to a chunk drop after which k's lock is upgraded and its page published while k is not in the index. |
| FallthroughAnon.AnonRunAgrees | src/cache/cache.c:38-53 | Without lazyfree chunks, on keys that never crowd each other out, index and reverse table agree in every reachable state, and the index holds only keys that were asked for. |
| FallthroughAnon.IndexAgreesExactly | src/cache/lazyfree_cache.c:464-479 | In every state of such a run, index[k] is d if and only if slot d is in use by k. |
| FallthroughAnon.MissHasRoom | src/cache/lazyfree_cache.c:436-440 | Such a run that asks for at most as many keys as there are pages never drops a chunk. |
| FallthroughAnon.WorkingSetAlwaysHits | src/test.c:151-166 | In such a run every get of a key that was got before and not dropped is a hit. |
| KeyZero.KeyZeroReadsAnotherKey | src/cache/lazyfree_cache.c:222-234 | From every new cache with pages and for every k other than 0 there is a run of five calls that ends with a get of key 0 returning k's bytes. |
| KeyZero.TransparentIffWithoutKeyZero | src/cache/lazyfree_cache.c:209-234 | All runs on a set of keys are transparent if and only if key 0 is not in the set, given a key in it that refills differently from key 0. |
| Memory.Memory.Preempt | README.md:13-16 | The kernel may zero any set of reclaimable pages, and touches nothing else. |
| Memory.Memory.WriteByte | README.md:13-16 | A store may find its page evicted; afterwards the page is no longer reclaimable. |
| Memory.Memory.MadviseFree | src/cache/util.c:18-23 | All pages of the chunk become reclaimable, and none changes yet. |
| Memory.Memory.MadviseDontNeed | src/cache/lazyfree_cache.c:392-396 | The chunk's pages read as zeros for anonymous memory and as anything for a file; no other page changes. |
| PageAccess.TakePage | src/cache/lazyfree_cache.c:504-513 | The four accesses of the upgrade race amount to one store; it succeeds exactly when the first store found the page intact, and then restores byte 0. |
| PageAccess.ClearTail | src/cache/lazyfree_cache.c:238-242 | The lowest bit of the last byte is cleared in place; the byte read is the page's, or 0 if the page was evicted. |
| PageAccess.CopyIn | src/cache/fallthrough_cache.c:54 | The byte-by-byte copy overwrites exactly the given range of the page, and amounts to one store. |
| GenericCache.LockCheck | include/cache.h:35-37 | True exactly for a lock on a page whose last byte is not 0. |
| GenericCache.CopyOut | include/cache.h:80-82 | Unless the page was evicted by the end of the loop, all bytes copied are of one and the same page. |
| GenericCache.LazyfreeRead | include/cache.h:75-88 | Succeeds exactly when the page is intact at the end, and then the destination holds the page's slice, with the lock's byte for the page's last one; nothing beyond is written. |
| MappedChunk.MappedChunk.PushFree | src/cache/lazyfree_cache.c:278 | The chunk's abstract free stack grows by the slot; keys, bits and len stay. |
| MappedChunk.MappedChunk.PopFree | src/cache/lazyfree_cache.c:417 | It loses and returns its top. |
| MappedChunk.MappedChunk.Reset | src/cache/lazyfree_cache.c:391-401 | The keys below len are zeroed and no others; stack and len become empty. |
| LazyfreeCache.LazyfreeCache.constructor | src/cache/lazyfree_cache.c:110-167 | The new cache is in an initial state of the protocol, with the given hasher, as many pages a chunk as the capacity has room for, an index with a slot for every page and at most twice as many, and the chunks in order: first the lazyfree ones, then the anonymous ones, then the file-backed ones, as many as requested. |
| LazyfreeCache.LazyfreeCache.HmapGet | src/cache/lazyfree_cache.c:209-219 | Reads key0 or the index of the abstract state. |
| LazyfreeCache.LazyfreeCache.HmapPut | src/cache/lazyfree_cache.c:222-230 | Updates key0 or the index, or nothing when the insertion fails; whether it fails follows the hashes of the keys in the index. |
| LazyfreeCache.LazyfreeCache.ClaimPage | src/cache/lazyfree_cache.c:472-476 | Inserts into a table that is not full, which its caller provides; success follows the hashes of the keys in the index at that moment. |
| LazyfreeCache.LazyfreeCache.HmapRemove | src/cache/lazyfree_cache.c:232-234 | Removes the key from the index and never touches key0. |
| LazyfreeCache.LazyfreeCache.CacheDrop | src/cache/lazyfree_cache.c:272-289 | Exits exactly when the stack would exceed len, and else performs the release of the abstract state. |
| LazyfreeCache.LazyfreeCache.AllocCurrentChunk | src/cache/lazyfree_cache.c:411-434 | Takes the top of the stack, else a blank page, else nothing. |
| LazyfreeCache.LazyfreeCache.AdvanceChunk | src/cache/lazyfree_cache.c:404-409 | Gives a lazyfree chunk to the kernel and moves to the next chunk in circular order. |
| LazyfreeCache.LazyfreeCache.RemoveKeys | src/cache/lazyfree_cache.c:388-390 | The loop removes from the index exactly the keys of the slots below len. |
| LazyfreeCache.LazyfreeCache.DropNextChunk | src/cache/lazyfree_cache.c:379-402 | For an arbitrary victim, performs the chunk drop of the abstract state (what follows from it: `AllocationPlace`, `DropChunkKeeps`). |
| LazyfreeCache.LazyfreeCache.FindPage | src/cache/lazyfree_cache.c:442-459 | The loop makes at most one visit to each chunk and refines the recursive walk. |
| LazyfreeCache.LazyfreeCache.AllocNewPage | src/cache/lazyfree_cache.c:436-462 | Drops a chunk exactly when no page is counted free, then walks. |
| LazyfreeCache.LazyfreeCache.WriteAlloc | src/cache/lazyfree_cache.c:464-479 | Performs the allocation step, insertion outcome included; the index keeps a slot for every page. |
| LazyfreeCache.LazyfreeCache.ReadLock | src/cache/lazyfree_cache.c:291-335 | Performs one read-lock step with the kernel acting before both reads of the last byte. |
| LazyfreeCache.LazyfreeCache.CheckKey | src/cache/lazyfree_cache.c:257-268 | True exactly when the slot under the lock's pointer still carries the lock's key. |
| LazyfreeCache.LazyfreeCache.ReadUnlock | src/cache/lazyfree_cache.c:338-375 | Performs one read-unlock step, or exits because the page was evicted. |
| LazyfreeCache.LazyfreeCache.TryUpgrade | src/cache/lazyfree_cache.c:504-513 | The race, on the whole cache: only that page changes. |
| LazyfreeCache.LazyfreeCache.HoldPage | src/cache/lazyfree_cache.c:513-525 | The write lock goes to the slot the lock's 16-bit index names, and the last byte is decoded there, with the kernel acting before both accesses to it. |
| LazyfreeCache.LazyfreeCache.WriteLock | src/cache/lazyfree_cache.c:482-526 | Performs one write-lock step in each of its five branches, or reports that allocation failed in the state the step allocates in. A client's lock that was on a page and was not upgraded points to no page afterwards; any other lock is unchanged. |
| LazyfreeCache.LazyfreeCache.BitFromTail | src/cache/lazyfree_cache.c:244-248 | Keeps the bit aside and marks the page, with the kernel acting before both reads of the byte. |
| LazyfreeCache.LazyfreeCache.WriteUnlock | src/cache/lazyfree_cache.c:528-547 | Performs one write-unlock step, dropping or publishing (`WriteUnlockDrops`, `PublishStores`). |
| FallthroughCache.FallthroughCache.constructor | src/cache/fallthrough_cache.c:11-23 | A new fallthrough cache is valid and in an initial state, has room for the requested entries rounded down to a multiple of 32, and the requested chunks: none lazyfree in the anonymous and disk configurations, the first one lazyfree if any is. |
| FallthroughCache.FallthroughCache.Get | src/cache/fallthrough_cache.c:29-56 | On return the buffer holds the refill value, refilled once on a miss and never on a hit, the cache is valid, and the call was one step of the model; a key that is uncrowded when refilled will be found by the next get; the call fails to return only if the key's page was intact and was evicted during the call, or there are no pages. |
| FallthroughCache.FallthroughCache.Drop | src/cache/fallthrough_cache.c:59-69 | On return the cache is valid and the call was one drop step with that result; it fails to return only if the key's page was intact and was evicted during the call. |
| FallthroughCache.ExitPossibleIff | src/cache/fallthrough_cache.c:45-46 | The exit in the middle of a read is possible if and only if the key is indexed and its page intact and reclaimable. |
| ExitRuns.RunExposes | src/cache/lazyfree_cache.c:404-409 | In every run from a new cache whose first chunk is lazyfree that gets as many different keys as a chunk has pages, and one more, the first key's page ends within the kernel's reach, whatever the kernel does meanwhile. |
| ExitRuns.ExitIsReached | src/cache/fallthrough_cache.c:45-46 | From every such cache, and for any such keys, there is such a run after which a lookup of the first key finds its page, and then loses it. |
| FallthroughCache.NoFreePageIff | src/cache/lazyfree_cache.c:453-458 | After a failed lookup the allocation fails if and only if the cache has no pages. |

## Left out

- The calls to mmap, madvise and the files under ./tmp (src/cache/util.c): foreign code. Their effect on pages is an assumed relation.
- `hashmap_crc32_hasher`, `hashmap_memcmp_comparer` and the SSE, ARM and MSVC branches of hashmap.h: unused by the cache. Its own hasher is any function to 32 bits, and its comparer is equality of keys.
- `hashmap_remove_and_return_key`, `hashmap_iterate`, `hashmap_destroy`: not called on the cache's paths.
- The test x & (x - 1) in `hashmap_create_ex` is written as the power-of-two test it stands for.
- `hashmap_iterate_pairs` with callbacks other than the rehash: it has no other caller, so the callback's result 0 does not occur.
- src/include/random.h: the victim chunk is an arbitrary choice.
- src/cache/stub_cache.c: an implementation that always misses.
- Benchmarks, hit rates, latencies, statistics, verbose printing and the test drivers.
- `lazyfree_cache_free` and `ft_cache_destroy`: release of memory.
- Clients in several threads: include/lazyfree_cache.h:49 asks for a critical section. Calls are sequential; only the kernel is concurrent.
- Failing calloc and malloc, and the layout of structs and unions beyond "a packed descriptor decodes to itself".
- Widths of the counters: `total_free_pages`, `len`, `free_pages` and descriptor indexes are unbounded integers; the constructors bound them by 2^31.
- `ft_cache_init` with an entry size of 0: `lazyfree_read` would then write before its destination, so the model asks for at least one byte.
- Caches of more than 2^31 pages (8 TiB): the index is created with a 32-bit capacity, and rounding a larger request shifts by the width of the word. The constructors ask for at most that; the theorems about steps and runs do not.
- Key 0 in `FallthroughCache.Get` and `Drop`: excluded, for the reason `KeyZeroReadsAnotherKey` gives. The steps on values cover it.
- HashMap.HashMap.Put: below 2^31 slots, whether an insertion fails is told from the hashes except for a new, crowded key that fewer than eight stored keys share their last home with; then it depends on the order of earlier insertions and removals.
- ProtocolRuns.UnlockSound: asks that nothing is written for the lock's own key between lock and unlock, as README.md:143 of the repository does.
- LazyfreeCache.LazyfreeCache.WriteLock: after an exit nothing is promised about the cache.
