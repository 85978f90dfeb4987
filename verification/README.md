# Proofs about the core of the PHP engine

Dafny models of five components of the PHP source tree and proofs of what they promise. `dafny verify dfyconfig.toml`
checks everything.

## What is modelled

**The memory manager** (`Zend/zend_alloc.c`; 64-bit, non-debug, heap protection on). `ZendHeap.Heap` is an object with the
fields of `zend_mm_heap`; its methods follow the C functions and update chunk headers (`ChunkHeader.Header`: a bitmap of
eight words, the page map, the two page counters), free lists, the huge list and the counters in place. `HeapState` is the
same heap as a value with the blocks that are live in it, and `HeapState.Core` the invariant: every chunk's pages are
partitioned into free pages, large runs and small runs that bitmap, page map and counters agree on; every slot of a small
run is either live or on the free list of its bin, exactly once; every large run and every huge block is live; chunks and
huge blocks overlap nothing. `HeapOps` proves that each step keeps it, `HeapGc` and `ChunkSweep` are the theory of the
garbage collection, `HeapSteps` relates heaps before and after calls, `Bitset`, `PageSearch`, `Bins`, `PageMap` and `Limits`
hold the word-level and size arithmetic. Memory contents are a function from addresses to bytes that the methods write, so
that "the bytes of a block are as before" is a statement about it. The free lists are in that memory: only the address of
the first slot of each bin is a field, every slot starts with the address of the next one and ends with its byte-swapped
and masked shadow (`FreeLists`, `MemoryBytes`). The operating system is a sequence of answers to mapping requests; an answer
counts only if the region is aligned, lies in the address space and overlaps nothing mapped. The outcomes of an allocation
are a block, NULL, and a fatal error with its reason (`Exit`); the contracts say when a block is certain (`AtHand`, `Fits`,
`InPlace`) and what must have happened for each of the others (`Stopped`). The clients' blocks are the live ones except for
the nodes of the huge list. `HeapRun` puts whole runs together: the books of what a client stored follow its operations, and
memory holds what the last book says; if the system has enough answers, regions far enough apart from each other and from
what is mapped, no run ends for want of memory, and with room below the limit as well every operation is carried out. To
carry that through the runs, the ghost field `reach` of the heap notes how far apart the answers are. A book agrees with a
heap when it has the contents of its blocks, each made as requests make them: a small block is never of bin 0, a large one
has a page, a huge one is larger than any slot. `HeapLimit` drives a
new heap past its hard limit.

**The parallel test scheduler** (`run_all_tests_parallel` in `run-tests.php`). `ParallelRunner.Coordinator` has the
coordinator's variables as fields and one method for each message, `Ready` and `TestsFinished`; `Run` handles the messages of
any workers in any order. `Scheduler` is the same on values: what a message does is the function `Handled`, which the methods
are proved to compute, and `After` is a whole run. `SchedulerOrder` proves which tests keep their order. Worker processes
and sockets are reduced to which worker has not reported yet and which batch it runs.

**The diff engine** (`Differ` and `DiffOutputBuilder` in `run-tests.php`), with lines compared by plain equality.
`CommonSubsequence` has the divide-and-conquer algorithm with its rolling row, `Diff` the script and its printing.

**The thread-safe resource manager** (`TSRM/TSRM.c`). `Tsrm.Manager` has the global tables as fields, and every operation
that takes the mutex is one method. A ghost log records when the storage of a resource of a thread entry is set up
(allocated unless fast, constructed if there is a constructor) and torn down. `TsrmHistory` has whole histories: the
operations of all threads in any order.

**The arena and the modules.** `Arena.Arenas` is the checkpointed bump arena of `Zend/zend_arena.h`, `Modules` the in-place
dependency sort and the start of the extension modules of `Zend/zend_API.c`.

## What came out

- The field `free_tail` is a page index, not a number of pages as the comment on the chunk structure says, and in-place
  growth leaves it inside a run. What holds is that no run starts at or above it; this alone justifies the early exit of the page
  search and the bound of the sweep.
- `zend_mm_alloc_huge` checks the limit before the list node is allocated, and the node may bring in a chunk of its own. When
  the block fits and the system grants it, the limits hold afterwards if and only if room for a node was at hand (a free slot
  of its bin, a free page or a cached chunk) or the hard limit leaves room for a chunk more. `HeapLimit.PassHardLimit`
  is a run that ends above the hard limit. `zend_mm_check_limit` asserts before it subtracts that this has not happened
  (`Zend/zend_alloc.c:541`), and without debugging an assertion is an assumption for the compiler
  (`Zend/zend_portability.h:105-109`): what follows then is undefined. Where the subtraction is carried out,
  `hard_limit - real_size` wraps, and the limit stops no request that a process can make; the models follow that case.
- `zend_mm_realloc_huge` rounds sizes above 2^64 - 4096 up to zero without noticing; `zend_mm_alloc_huge` tests for it. If
  such a call returns a block, the block is empty and the invariant is broken; for every other size the promise is kept.
- `zend_mm_realloc_heap` with an explicit number of bytes to keep copies behind a new block that is smaller. The models
  require that the copy fits unless the block is certain to stay where it is, in which case nothing is copied.
- `zend_mm_realloc_heap` does not count both copies of a block that moves in the peak, except when a slot moves to a smaller
  bin: there the peak is not restored (`Zend/zend_alloc.c:1850-1859`). A request for a slot that ends with NULL has already
  raised the peak (`Zend/zend_alloc.c:1535-1541`).
- The arena serves a request with enough memory if and only if its size is at most 2^64 - 32. The last seven sizes round to no
  byte at all, and those between leave the mark of the new arena inside its own header. `TSRM_ALIGNED_SIZE` keeps a size if
  and only if it is at most 2^64 - 16.
- The scheduler takes a file name that PHP converts to false ("0") for the end of the queue. Every test is dispatched exactly
  once if and only if no name is false; with one, the last worker may end with tests undispatched, as it does for two
  workers wanted and the tests "a.phpt" and "0" that both conflict with "all". `stream_select` then has no stream to wait for
  and throws (`ext/standard/streamsfuncs.c:812-815`).
- The comment at `run-tests.php:1388` promises that tests with a common conflict key keep their order. For a test and a later
  one that share the key k this is so in every run of every set of tests if and only if the first has no key but k and k is
  the first key of the later one; so it holds for both orders if and only if neither has another key. Tests with the key
  "all" come in reverse order, because they are queued without being reversed.
- `zend_sort_modules` ends if and only if the dependencies of the modules not yet started are acyclic.

## Model

| member | source | states |
|---|---|---|
| `Bitset.TrailingOnes` | Zend/zend_alloc.c:719-754 | the portable count of trailing ones finds the lowest clear bit, and `w & (w + 1)` clears exactly the ones below it |
| `Bitset.TrailingZeros` | Zend/zend_bitset.h:48-83 | the portable count of trailing zeros finds the lowest set bit; likewise for `w \| (w - 1)` |
| `Bitset.SetBit` | Zend/zend_alloc.c:762-765 | sets one bit of the map and no other |
| `Bitset.ResetBit` | Zend/zend_alloc.c:767-770 | clears one bit of the map and no other |
| `Bitset.SetRange` | Zend/zend_alloc.c:772-802 | the word-wise operation sets exactly the bits of the range |
| `Bitset.ResetRange` | Zend/zend_alloc.c:804-834 | clears exactly the bits of the range |
| `Bitset.IsFreeRange` | Zend/zend_alloc.c:836-870 | true if and only if every bit of the range is clear |
| `PageSearch.FindPages` | Zend/zend_alloc.c:1114-1174 | the word-at-a-time scan returns the first of the shortest maximal free runs with enough pages, and -1 only if there is none |
| `ChunkHeader.Header.Find` | Zend/zend_alloc.c:1062-1174 | the search of one chunk is best fit on the pages of its runs and keeps "no run starts at or above the tail mark" |
| `ChunkHeader.TailMark` | Zend/zend_alloc.c:1143-1158 | under the invariant a set bit at or above the tail mark continues a run, so free pages there go to the end |
| `ChunkState.AllocRunInv` | Zend/zend_alloc.c:1241-1247 | taking a run keeps the partition, the counters and the tail mark |
| `ChunkState.FreeRunInv` | Zend/zend_alloc.c:1316-1328 | giving a run back keeps them |
| `ChunkState.ShrinkRunInv` | Zend/zend_alloc.c:1919-1938 | cutting a run in place keeps them |
| `ChunkState.GrowRunInv` | Zend/zend_alloc.c:1939-1965 | growing a run in place keeps them although the tail mark stays inside the run |
| `ChunkState.MarkSmallInv` | Zend/zend_alloc.c:1492-1502 | turning a large run into a small one keeps them |
| `ChunkState.AllFree` | Zend/zend_alloc.c:1316-1328 | the free counter reads 511 if and only if no page but the header is in use |
| `Bins.SizeToBinIsTightest` | Zend/zend_alloc.c:1348-1410 | the bin computed with shifts is the smallest that holds the size |
| `PageMap.WordsRoundTrip` | Zend/zend_alloc.c:193-215 | a page map word reads back as what was stored unless a nine-bit counter is to hold 512 |
| `PageMap.FullCounterFits` | Zend/zend_alloc.c:204-205 | a full free counter fits its field for every bin but bin 0 |
| `PageMap.CountingFitsWords` | Zend/zend_alloc.c:2230-2258 | at every moment of the counting of a collection, the entry at the first page of every run and those inside small runs fit their words and read back |
| `HeapOps.LiveBlocksDisjoint` | Zend/zend_alloc.c:1053-1573 | in every heap with the invariant, distinct live blocks do not overlap |
| `HeapOps.TakeRunCore` | Zend/zend_alloc.c:1228-1248 | handing out pages keeps the invariant of the whole heap |
| `HeapOps.DropRunCore` | Zend/zend_alloc.c:1316-1341 | taking a large block back keeps it |
| `HeapOps.TakeSlotCore` | Zend/zend_alloc.c:1531-1551 | handing out a free slot keeps it: the slot was not live and leaves the list |
| `HeapOps.GiveSlotCore` | Zend/zend_alloc.c:1553-1573 | freeing a slot keeps it |
| `HeapOps.SplitRunCore` | Zend/zend_alloc.c:1470-1529 | making a run of slots keeps it: one slot live, the others free once each |
| `HeapOps.ResizeRunCore` | Zend/zend_alloc.c:1919-1965 | cutting or growing a large block in place keeps it |
| `HeapOps.DeleteChunkCore` | Zend/zend_alloc.c:1278-1314 | deleting an empty chunk keeps it, whether it is cached, unmapped or swapped with a cached one |
| `HeapOps.AddHugeCore` | Zend/zend_alloc.c:1986-2004 | entering a huge block keeps it |
| `HeapOps.RemoveHugeCore` | Zend/zend_alloc.c:2006-2028 | unlinking a huge block keeps it |
| `HeapOps.ResizeHugeCore` | Zend/zend_alloc.c:2046-2064 | changing the size of a huge block keeps it when the room is there |
| `HeapSteps.BlockPage` | Zend/zend_alloc.c:1657-1680 | the page map entry of a live small or large block names the bin or page count it was made with: free is routed to the class that produced it |
| `HeapSteps.BlockForHolds` | Zend/zend_alloc.c:1603-1655 | the block a request is served with holds it and is the smallest of its class, if and only if the size can be rounded up without wrapping |
| `HeapSteps.AlignedSizeWraps` | Zend/zend_alloc.c:2076-2083 | rounding up to pages wraps, to zero, exactly for sizes above 2^64 - 4096 |
| `HeapSteps.CopyStaysInside` | Zend/zend_alloc.c:1710-1732 | copying n bytes into a block of u bytes writes nothing behind it, whatever memory holds, if and only if n <= u |
| `MemoryBytes.LoadShadowStored` | Zend/zend_alloc.c:1425-1441 | decoding the shadow of a link undoes encoding it, for every key |
| `MemoryBytes.ShadowGuards` | Zend/zend_alloc.c:1412-1441 | overwriting one byte of a shadow changes the one byte of the decoded pointer at the mirrored place: an overflow by one byte hits the most significant one |
| `MemoryBytes.KeyGuards` | Zend/zend_alloc.c:1412-1441 | a shadow made with another key decodes to another pointer |
| `FreeLists.LinkReads` | Zend/zend_alloc.c:1449-1459 | a stored link reads back, and its shadow agrees with it |
| `FreeLists.SlotWritten` | Zend/zend_alloc.c:1443-1447 | writing into a free slot changes no byte of a live block or of another free slot |
| `FreeLists.StillThreaded` | Zend/zend_alloc.c:1425-1459 | whatever a client writes into its blocks, every free list stays readable from its head |
| `ZendHeap.Heap.GetNextFreeSlot` | Zend/zend_alloc.c:1449-1459 | in a heap with the invariant the shadow check never fails, and the next slot of the list is read |
| `ZendHeap.Heap.FilterBin` | Zend/zend_alloc.c:2260-2293 | the pass over a list in memory leaves it threaded without the slots of full runs, in order, and touches no live block |
| `ZendHeap.Heap.DeleteChunk` | Zend/zend_alloc.c:1278-1314 | the chunk leaves the ring; deletion is delayed exactly when few chunks are mapped or the last deletions left as many (to the head of the cache), else the chunk with the larger number of it and the first cached one is unmapped; the deletion counters count; real_size stays what is mapped |
| `ZendHeap.Heap.CheckLimit` | Zend/zend_alloc.c:533-567 | success leaves room for the request below the limit (the hard limit on an infallible heap); failure only when there is none after collecting; the run ends exactly when the difference to the hard limit, which may wrap, is too small; garbage is reported exactly when the limit was passed and there was some |
| `ZendHeap.Heap.PassedLimitStopsNothing` | Zend/zend_alloc.c:542 | once real_size is above the hard limit, the check as written stops only requests of nearly 2^64 bytes (the assertion at line 541 excludes that state) |
| `ZendHeap.Heap.GetChunk` | Zend/zend_alloc.c:1176-1227 | appends one empty chunk: the first cached one if there is any, else certainly one when the limit has room and the system grants it; otherwise says what must have happened; real_peak and the peak number of chunks are maxima; ends (a second collection finds nothing) |
| `ZendHeap.Heap.CacheOrCheck` | Zend/zend_alloc.c:1178-1189 | the loop at get_chunk: with no chunk but the main one empty, the system is asked only when the cache is empty after whatever has been collected |
| `ZendHeap.Heap.MapOrCollect` | Zend/zend_alloc.c:1191-1201 | a request the system refuses is made once more if and only if a collection has freed pages, and then has the answer of the system |
| `ZendHeap.Heap.InitChunk` | Zend/zend_alloc.c:1017-1033 | the new chunk is the last of the ring and its number one more than that of the last before |
| `ZendHeap.Heap.AllocPages` | Zend/zend_alloc.c:1055-1249 | the first chunk of the ring with room gives its best fit and moves behind the main one when the search was long and the request small; without one the first pages of the first cached chunk are taken, and only if there is none of a mapped one, which moves likewise |
| `ZendHeap.Heap.AllocLarge` | Zend/zend_alloc.c:1251-1276 | a large block of just enough pages from that chunk; size grows by its pages, peak and real_peak are the maxima of the values so far; accounting and limits kept; a block is certain when pages are at hand |
| `ZendHeap.Heap.LinkSlots` | Zend/zend_alloc.c:1504-1519 | the loop links the slots behind the first in address order and writes nowhere else |
| `ZendHeap.Heap.AllocSmall` | Zend/zend_alloc.c:1470-1551 | the first slot of the bin's list becomes live, or the first of a new run whose others become the list; no live block changes a byte; the peak is the larger of the old one and the size with the block, real_peak likewise; a block is certain when the list is not empty or pages are at hand |
| `ZendHeap.Heap.FreeSmall` | Zend/zend_alloc.c:1553-1573 | the slot becomes the head of its list, in memory too; the other blocks keep their bytes |
| `ZendHeap.Heap.FreeLarge` | Zend/zend_alloc.c:1316-1341 | the pages are free again, and the chunk leaves the ring exactly when it is empty and not the main chunk |
| `ZendHeap.Heap.AllocHuge` | Zend/zend_alloc.c:2066-2122 | a huge block and its list node; if it fits and the system grants it, real_size grows by exactly what is mapped, and the limits hold if and only if a node was at hand or the hard limit has room for a chunk more; peak and real_peak are the maxima so far, and NULL leaves size and peak as they were |
| `HeapLimit.PassHardLimit` | Zend/zend_alloc.c:2066-2122 | a new heap with a hard limit of two chunks ends with three mapped |
| `ZendHeap.Heap.FreeHuge` | Zend/zend_alloc.c:2006-2137 | block and node are gone and the accounting is right again |
| `ZendHeap.Heap.AllocHeap` | Zend/zend_alloc.c:1603-1655 | the clients have one more block, of the kind the request calls for; NULL changes nothing for them; peak and real_peak are the maxima so far (a small request that fails counts in the peak, as in the source); a block is certain when one is at hand or fits, and NULL or a fatal error only when the limit, the system or the size stands in the way |
| `ZendHeap.Heap.FreeHeap` | Zend/zend_alloc.c:1657-1680 | exactly the given block is gone, no other block changes a byte |
| `ZendHeap.Heap.Size` | Zend/zend_alloc.c:1682-1708 | the usable size of the block |
| `ZendHeap.Heap.ReallocSlow` | Zend/zend_alloc.c:1710-1732 | the bytes to be kept are in the new block, one as for a new request; the peak is the maximum of the old one and the size now, so it does not count both copies; fails only for the reasons of AllocHeap |
| `ZendHeap.Heap.ReallocHuge` | Zend/zend_alloc.c:1734-1809 | the same for truncating, extending and moving a huge block; a returned block holds the size if and only if the size can be rounded up; in place when the system and the limit allow it |
| `ZendHeap.Heap.EmptyHuge` | Zend/zend_alloc.c:1759-1783 | what a size above 2^64 - 4096 does to a huge block: it keeps its list entry, has no byte, and the invariant is broken |
| `ZendHeap.Heap.ReallocHeap` | Zend/zend_alloc.c:1811-1977 | on every path the block afterwards is the old one if it is a slot of the right bin, else one as for a new request; the first min(old usable size, bytes asked to keep) bytes survive, as far as a block cut in place still has them, no other block changes, NULL leaves the block as it was; in place whenever the block can stay; the peak is the maximum so far, and counts both copies only when a slot moves to a smaller bin, as in the source; fails only for the reasons of AllocHeap, and empties a block only for a size that cannot be rounded up |
| `HeapSteps.NewBlockTight` | Zend/zend_alloc.c:1834-1938 | the block realloc leaves holds the size and is the smallest of its class that does; a slot that holds the size stays if and only if the size does not fit the next smaller bin, or just fills it |
| `ZendHeap.Heap.Gc` | Zend/zend_alloc.c:2209-2333 | frees exactly the small runs without a slot in use, takes exactly their slots from the lists, resets the counters, leaves no chunk but the main one empty, keeps all live blocks, returns 4096 times the pages freed; if that is 0 and no such chunk was empty, ring and cache are as before |
| `HeapSteps.NothingLeft` | Zend/zend_alloc.c:2209-2333 | after a collection there is nothing to collect: the next one returns 0 |
| `HeapGc.CountedFull` | Zend/zend_alloc.c:2230-2258 | the counters reach the number of slots exactly for the runs all of whose slots are on the list |
| `ChunkSweep.Sweep` | Zend/zend_alloc.c:2296-2321 | the walk over one chunk frees the full runs, resets the other counters and counts the pages |
| `Limits.ScaleIsExact` | Zend/zend_alloc.c:3067-3088 | scale_by_percent is min(SIZE_MAX, floor(value * percent / 100)); no intermediate value wraps |
| `Limits.HardAboveSoft` | Zend/zend_alloc.c:3090-3120 | the hard limit lies between the limit and ZEND_MM_LIMIT_MAX |
| `ZendHeap.Heap.UpdateHardLimit` | Zend/zend_alloc.c:3090-3120 | the hard limit is 1 GB above a limit over 1 GB, twice a smaller one, or floor(limit * percent / 100), cut off at 2^63 - 1 |
| `ZendHeap.Heap.SetMemoryLimit` | Zend/zend_alloc.c:3123-3152 | succeeds if and only if what is really in use fits; frees no more cached chunks than it must and never runs out of them |
| `ZendHeap.Heap.SetMemoryHardLimitPercent` | Zend/zend_alloc.c:3154-3172 | succeeds if and only if the percentage is admissible and the soft limit is not exceeded, also above the hard limit |
| `ZendHeap.Heap.Shutdown` | Zend/zend_alloc.c:2560-2650 | between requests: an empty heap with the invariant, zeroed cached chunks within the new average of the peaks, all counters started over, the new shadow key |
| `ZendHeap.Heap.constructor` | Zend/zend_alloc.c:2154-2207 | a new heap has the invariant, one empty chunk and the largest limits |
| `HeapRun.Run` | Zend/zend_alloc.c:1603-1977 | in any run of allocations, frees, reallocations, stores, collections and limit changes the books follow the operations, entries of exact lengths included, and memory holds what the last book says; without huge requests the limits are kept; a system with enough answers means that it never ends for want of memory, and room below the limit that every operation is carried out |
| `HeapRun.Do` | Zend/zend_alloc.c:1603-1977 | one operation and what it does to the book (a resize never takes the place of another block, and leaves an entry of exactly the length of the block that the size calls for); peak and real_peak never go down; a request is refused or fatal only when nothing is at hand and the limit, the system or the size stands in the way |
| `HeapRun.ResizedLengthIs` | Zend/zend_alloc.c:1834-1938 | the length of an entry after a resize follows from the one before: a slot of the right bin stays, all else is as for a new request |
| `HeapRun.KnownGrants` | Zend/zend_alloc.c:1176-1227 | a system whose answers are far enough apart from each other and from what is mapped grants whatever is asked next |
| `HeapRun.BookedBlocksDisjoint` | Zend/zend_alloc.c:1053-1977 | the client's blocks never overlap |
| `CommonSubsequence.LcsIsBound` | run-tests.php:4048-4091 | no common subsequence is longer than the recurrence says |
| `CommonSubsequence.LcsIsReached` | run-tests.php:4048-4091 | and one is as long |
| `CommonSubsequence.LcsReversed` | run-tests.php:4071 | reversing both lists changes nothing |
| `CommonSubsequence.SplitIsReached` | run-tests.php:4067-4091 | some cut of the second list attains the optimum over both halves |
| `CommonSubsequence.CommonSubsequenceLength` | run-tests.php:4093-4112 | the rolling row holds the optimum against every prefix |
| `CommonSubsequence.BestCut` | run-tests.php:4070-4082 | the loop settles on the last cut where both rows add up to most |
| `CommonSubsequence.CalculateCommonSubsequence` | run-tests.php:4048-4091 | ends with a common subsequence of maximal length |
| `Diff.GetArrayDiffParted` | run-tests.php:4008-4046 | sets the longest common head apart, then the longest common tail |
| `Diff.ScriptBound` | run-tests.php:3957-4006 | no script from one list to the other has fewer than \|from\| + \|to\| - 2 LCS changes |
| `Diff.DiffToArray` | run-tests.php:3957-4006 | kept and removed entries spell the first list, kept and added ones the second, line numbers are true, changes are fewest, and no added line comes right before a removed one |
| `Diff.GetDiff` | run-tests.php:4117-4181 | the output is the entries near a change with one separator for each gap |
| `Diff.RenderedIsFiltered` | run-tests.php:4117-4181 | printed are exactly the entries near a change, each once and in order |
| `Diff.PrintedIffNear` | run-tests.php:4140-4174 | an entry is printed if and only if it is a change or within the context of one |
| `Scheduler.NoConflict` | run-tests.php:1557-1571 | two busy workers never hold tests that share a key; a key that is waited for has a busy owner |
| `Scheduler.AllRunsAlone` | run-tests.php:1543-1548 | a test that conflicts with "all" runs only when one worker is left |
| `Scheduler.AtExit` | run-tests.php:1493-1584 | when the loop ends every test has been dispatched exactly once if and only if no name is false; tests with no key but one have kept their order, those with key "all" are reversed |
| `Scheduler.AllTestsInOrder` | run-tests.php:1543-1548 | the reverse is the order promised only if there is at most one such test |
| `Scheduler.Exclusion` | run-tests.php:1557-1571 | under the ownership of keys, tests with a common key are held by one worker |
| `Scheduler.HandledOk` | run-tests.php:1526-1584 | every message keeps the invariant, dispatches at most one test more than the maximum batch, and brings the end nearer |
| `Scheduler.BatchTaken` | run-tests.php:1543-1581 | with n the maximum batch, or the least positive number that times the workers reaches the number of parallel tests if that is smaller: when the tests on top of the queue have true names and free keys, a message dispatches exactly min(\|queue\|, n + 1) of them, in order; without any the worker ends |
| `Scheduler.BatchFull` | run-tests.php:1554-1581 | whatever the keys, it dispatches at most n + 1 tests, and fewer only if the queue runs out or a false name was on it |
| `Scheduler.RunOk` | run-tests.php:1493-1656 | the invariant holds after every run of messages |
| `SchedulerOrder.FirstKeyFollows` | run-tests.php:1388-1391 | in every run of every plan, a test whose first key is k does not overtake an earlier one that has no key but k |
| `SchedulerOrder.OrderKeptIff` | run-tests.php:1388-1391 | the order of a test and a later one that share the key k is kept in all runs of all plans if and only if the first has no key but k and k is the first key of the later one |
| `SchedulerOrder.OrderKeptIffOneKey` | run-tests.php:1388-1391 | it is kept whichever comes first if and only if neither has another key |
| `ParallelRunner.Coordinator.Requeue` | run-tests.php:1532-1537 | tests waiting for a released key go on top of the queue in their order; a false name drops the ones before it |
| `ParallelRunner.Coordinator.Pick` | run-tests.php:1557-1565 | exactly the batch of PickFrom: tests with free keys from the top of the queue, the others wait, a false name ends it |
| `ParallelRunner.Coordinator.Ready` | run-tests.php:1541-1584 | computes Handled, the state after the message, with a batch of min(\|queue\|, n + 1) tests when those on top have true names and free keys; keeps the invariant; undispatched tests plus live workers decrease |
| `ParallelRunner.Coordinator.TestsFinished` | run-tests.php:1526-1584 | the same, after releasing the keys of the worker in any order |
| `ParallelRunner.Coordinator.Run` | run-tests.php:1493-1656 | ends, in a state that a run of messages leads to; nothing is left and every test dispatched once unless a name is false |
| `ParallelRunner.Coordinator.constructor` | run-tests.php:1352-1400 | sequential tests set apart, the queue reversed, workers between one and the number of tests |
| `SchedulerOrder.FalseNameStrands` | run-tests.php:1557-1581 | with two tests "a.phpt" and "0" that conflict with "all" and two workers wanted, the last worker ends with the first test undispatched |
| `Tsrm.StoragesLiveOnce` | TSRM/TSRM.c:164-211 | in a state with the invariant each storage has been set up at most once, torn down at most once and after that, and is up if and only if its entry and id are |
| `Tsrm.FastStorages` | TSRM/TSRM.c:323-365 | fast storages are aligned, inside the entry's block and disjoint |
| `Tsrm.OneEntryPerThread` | TSRM/TSRM.c:447-466 | a thread has one entry, in the bucket of its hash, as long as the type table |
| `Tsrm.AlignedSizeWraps` | TSRM/TSRM.h:53-59 | rounding up keeps a size if and only if it is at most 2^64 - 16 |
| `Tsrm.UnbrokenLife` | TSRM/TSRM.c:164-211 | what the phases of a storage mean in numbers of events |
| `Tsrm.Manager.AllocateId` | TSRM/TSRM.c:277-311 | every thread has the new storage at once, set up; no other storage changes, and the log only grows |
| `Tsrm.Manager.AllocateFastId` | TSRM/TSRM.c:323-369 | the same inside the reserved tail |
| `Tsrm.Manager.Resource` | TSRM/TSRM.c:417-506 | a thread keeps its entry; a new thread gets one at the end of its chain, and one that finds a stale entry under its id has it replaced in its place: the state is exactly that of Joined or Replaced; of an entry torn down the larger id goes first, of one set up the smaller comes first, and the first is torn down before the second is set up |
| `Tsrm.Manager.FreeThread` | TSRM/TSRM.c:510-541 | the entry of the thread leaves its chain, its resources in reverse id order: of two storages torn down by the call the earlier has the larger id |
| `Tsrm.Manager.FreeId` | TSRM/TSRM.c:544-577 | the storage of the id goes in every entry and will not come back; other ids are not touched |
| `Tsrm.Manager.Shutdown` | TSRM/TSRM.c:183-235 | nothing that was set up survives, nothing is torn down twice, each entry goes in reverse id order, and a second call does nothing |
| `Tsrm.GoneInTurn` | TSRM/TSRM.c:164-177 | tearing down an entry takes the ids not removed from the largest to the smallest |
| `Tsrm.MadeInTurn` | TSRM/TSRM.c:395-410 | setting one up takes them from the smallest to the largest |
| `Tsrm.EnlargeStep` | TSRM/TSRM.c:248-273 | enlarging every entry keeps the invariant |
| `Tsrm.ReplaceStep` | TSRM/TSRM.c:484-497 | replacing a stale entry keeps it |
| `Tsrm.ExitStep` | TSRM/TSRM.c:510-541 | thread exit keeps it |
| `Tsrm.FreeIdStep` | TSRM/TSRM.c:544-577 | removing an id keeps it |
| `TsrmHistory.StepKeeps` | TSRM/TSRM.c:183-577 | every operation, whatever the thread, keeps the invariant and only adds to the log; after shutdown nothing changes |
| `TsrmHistory.EveryHistory` | TSRM/TSRM.c:183-577 | in every history a storage is set up at most once and torn down at most once, after it was set up; it is there exactly while its entry is in the table and its id not removed |
| `TsrmHistory.NoReturn` | TSRM/TSRM.c:183-577 | what has been torn down stays so in every history, and what is up stays up or is torn down |
| `TsrmHistory.NothingSurvives` | TSRM/TSRM.c:183-235 | after shutdown everything that was ever set up has been torn down exactly once |
| `TsrmHistory.StaleEntryGone` | TSRM/TSRM.c:484-497 | when a thread finds a stale entry under its id, all storages of that one are torn down, those of the new one set up, and no others change |
| `TsrmHistory.Run` | TSRM/TSRM.c:183-577 | any interleaving of operations on the manager is such a history |
| `Arena.ServedUnlessWrapped` | Zend/zend_arena.h:53-77 | a request gets enough memory if and only if its size is at most 2^64 - 32 |
| `Arena.Arenas.Alloc` | Zend/zend_arena.h:53-77 | for every size: the piece is large enough if and only if the size is at most 2^64 - 32, and the invariant (pieces apart, inside arenas, checkpoints valid) survives exactly these and the sizes that round to nothing; a new arena is as large as the current one, or as the piece needs if that is more |
| `Arena.Arenas.Release` | Zend/zend_arena.h:99-111 | chain and pointers are exactly those of the checkpoint, also when arenas touch, and what was handed out before stays |
| `Arena.Arenas.Contains` | Zend/zend_arena.h:113-122 | true exactly inside the used part of an arena, in particular for every byte of a piece |
| `Arena.GoesOn` | Zend/zend_arena.h:103-109 | the loop stays in no arena newer than the checkpoint, even one that touches its arena |
| `Modules.SortModules` | Zend/zend_API.c:2486-2518 | ends on acyclic dependencies with a permutation in which no module comes before one it depends on, the one the rounds of the loop lead to; a sorted array is left alone |
| `Modules.SortEndsIffAcyclic` | Zend/zend_API.c:2486-2518 | the loop with its retries ends if and only if the dependencies are acyclic |
| `Modules.RejectedIffBarred` | Zend/zend_API.c:2420-2453 | a module is rejected if and only if one it requires is absent or was itself rejected |
| `Modules.Registry.StartModule` | Zend/zend_API.c:2420-2476 | in sorted order the start fails exactly for the rejected modules |
| `Modules.Registry.Startup` | Zend/zend_API.c:2602-2606 | the registry keeps exactly the modules that are not rejected, started, in the order of the sort, which leaves a sorted registry as it is |

## Left out

- Ring, cache and huge list are sequences in the order of their links; the C pointers that form them are not fields, and the bytes of a huge list node are not written.
- Custom and tracked heaps, storage handlers, huge page advice, debug padding and leak reports, the full shutdown that only unmaps everything; how the shadow key is chosen.
- Error messages, delayed memory errors and bailout: a fatal error is the end of the run. The panic for a corrupted free list is proved never to be reached, for clients that write only into their blocks.
- MoveTo: frees the old block through FreeHeap where the C code calls zend_mm_free_small with the bin it knows; BlockPage shows that this is the same bin.
- CacheOrCheck: says that the cache is tried again after a collection for heaps in which no chunk but the main one is empty; every collection leaves the heap so, and it is not part of the invariant.
- ReallocHuge: requires what ReallocHeap does.
- ReallocHeap: requires that the bytes to be kept fit into the new block unless the block is certain to stay where it is; CopyStaysInside says why.
- ReallocSlow: requires that the bytes to be kept fit into the new block, which it copies them to.
- Run: that memory does not run out is shown for a system that gives no address twice during the run.
- Do: on a heap that an earlier realloc has emptied a block of, nothing is promised; the run stops there.
- Windows, where huge blocks are rounded to 2 MB.
- Sockets, processes, messages with test results, and the choice of conflicts from files in run-tests.php.
- TestsFinished: releases the keys of a worker in any order, where PHP goes by the order in which they were entered.
- Diff in regular expression mode, where equality is not symmetric, and the padding of line numbers in the printed text.
- A failing ts_allocate_fast_id, which uses up an id without a type, and failing allocations in TSRM.
- Handlers at the begin and end of a thread in TSRM, and constructors or destructors that call back into it.
- Reserve: requires that there are no entries and no fast resources yet, which is when the engine calls tsrm_reserve.
- The arena variant with tracking, zend_arena_calloc and zend_arena_destroy.
- Module startup functions that fail, which end the process, and the other hash tables of zend_API.c.
