/** The memory manager of Zend/zend_alloc.c (64-bit, non-debug, heap protection on): a heap object
    whose methods follow the C functions and are proved against the steps of HeapOps and HeapGc. */
module ZendHeap {
  import opened Bins
  import opened ChunkState
  import opened ChunkHeader
  import opened HeapState
  import HeapOps
  import opened HeapGc
  import opened HeapSteps
  import opened MemoryBytes
  import ChunkSweep
  import opened Limits
  import opened FreeLists
  import opened Sequences
  import opened Words

  class Heap {
    /** What lies at the addresses of mapped chunks. */
    var headers: map<nat, Header>
    /** The chunk ring from main_chunk on, and the cached_chunks list. */
    var ring: seq<nat>
    var cached: seq<nat>
    /** free_slot: the first free slot of each bin, or NULL. */
    var freeSlot: seq<nat>
    var huge: seq<HugeNode>
    var chunksCount: int
    var cachedCount: int
    var peakChunks: int
    var avgChunks: real
    var lastDeleteBoundary: int
    var lastDeleteCount: int
    var size: int
    var peak: int
    var realSize: int
    var realPeak: int
    var limit: int
    var hardLimit: int
    var hardLimitPercent: int
    var fallible: bool
    var shadowKey: nat
    /** The answers of the operating system to the next mapping requests. */
    var os: seq<Option<nat>>
    /** The bytes of memory. */
    var mem: nat -> byte

    /** Regions the OS has mapped and the heap has not recorded yet. */
    var pending: seq<(nat, nat)>
    ghost var chunks: map<nat, Chunk>
    /** The free list of each bin, slot by slot. */
    ghost var free: seq<seq<nat>>
    ghost var live: map<nat, Block>
    /** What is known of the answers: how far they are from each other and from everything mapped; 0 is nothing. */
    ghost var reach: nat
    ghost var Repr: set<object>

    ghost function State(): HeapState.Heap
      reads `chunks, `ring, `cached, `free, `huge, `live
    {
      HeapState.Heap(chunks, ring, cached, free, huge, live)
    }

    /** The headers are distinct objects and hold the chunk values. */
    ghost predicate Linked()
      reads `headers, `chunks, `Repr, `pending, `os, `huge, `reach, Repr
    {
      && this !in Repr && Spaced(reach, os, headers.Keys, huge, pending)
      && (forall b | b in headers :: ClearOf(pending, b, CHUNK_SIZE))
      && headers.Keys == chunks.Keys
      && (forall b | b in headers :: headers[b] in Repr && headers[b].freeMap in Repr && headers[b].pageMap in Repr)
      && (forall b | b in headers :: headers[b].Valid() && headers[b].State() == chunks[b])
      && Distinct(headers)
    }

    /** real_size is what is mapped, and the chunk counters count. */
    ghost predicate RealOk()
      reads `chunksCount, `cachedCount, `ring, `cached, `huge, `realSize, `realPeak
    {
      && chunksCount == |ring| && cachedCount == |cached|
      && realSize == CHUNK_SIZE * (|ring| + |cached|) + SumHuge(huge)
      && realSize <= realPeak
    }

    /** The same while n mapped bytes are not counted yet. */
    ghost predicate RealOkBut(n: int)
      reads `chunksCount, `cachedCount, `ring, `cached, `huge, `realSize, `realPeak
    {
      && chunksCount == |ring| && cachedCount == |cached|
      && realSize + n == CHUNK_SIZE * (|ring| + |cached|) + SumHuge(huge)
      && realSize <= realPeak
    }

    /** size is what is handed out. */
    ghost predicate SizeOk()
      reads `size, `live, `peak
    {
      size == SumLive(live) && size <= peak
    }

    /** Memory holds the free lists. */
    ghost predicate Threads()
      reads `free, `freeSlot, `mem, `shadowKey
    {
      Threaded(free, freeSlot, mem, shadowKey)
    }

    ghost predicate Steady()
      reads `headers, `chunks, `Repr, `pending, `os, `reach, Repr, `ring, `cached, `free, `huge, `live
      reads `chunksCount, `cachedCount, `realSize, `realPeak, `freeSlot, `mem, `shadowKey
    {
      Linked() && Core(State()) && Quiet(State()) && RealOk() && Threads()
    }

    ghost predicate Valid()
      reads this, Repr
    {
      Steady() && SizeOk()
    }

    /** Headers may go, and one may have changed; the others are as they were. */
    twostate lemma StillLinked(base: nat)
      requires old(Linked()) && Repr == old(Repr) && pending == old(pending) && headers.Keys == chunks.Keys
      requires os == old(os) && huge == old(huge) && reach == old(reach)
      requires forall b | b in headers :: b in old(headers) && headers[b] == old(headers[b])
      requires forall b | b in headers && b != base ::
        chunks[b] == old(chunks[b]) && unchanged(headers[b], headers[b].freeMap, headers[b].pageMap)
      requires base in headers ==> headers[base].Valid() && headers[base].State() == chunks[base]
      ensures Linked()
    {
      hide Header.Valid, Header.State;
      forall b | b in headers
        ensures headers[b].Valid() && headers[b].State() == chunks[b]
      {
        if b != base {
          assert old(headers[b].Valid()) && old(headers[b].State() == chunks[b]);
          headers[b].SameHeader();
        }
      }
    }

    /** Headers may go; the others are as they were. */
    twostate lemma StillLinkedLess()
      requires old(Linked()) && Repr == old(Repr) && pending == old(pending) && headers.Keys == chunks.Keys
      requires os == old(os) && huge == old(huge) && reach == old(reach)
      requires forall b | b in headers :: b in old(headers) && headers[b] == old(headers[b]) && chunks[b] == old(chunks[b])
      requires forall b | b in headers :: unchanged(headers[b], headers[b].freeMap, headers[b].pageMap)
      ensures Linked()
    {
      hide Header.Valid, Header.State;
      forall b | b in headers
        ensures headers[b].Valid() && headers[b].State() == chunks[b]
      {
        assert old(headers[b].Valid()) && old(headers[b].State() == chunks[b]);
        headers[b].SameHeader();
      }
    }

    lemma SteadyFacts()
      requires Steady()
      ensures this !in Repr && Linked() && Core(State()) && |free| == BINS && |ring| >= 1 && realSize <= realPeak
    {
      hide RingOk, RegionsOk, ChunksOk;
      CoreFree(State());
    }

    lemma ValidFacts()
      requires Valid()
      ensures this !in Repr && Linked() && Core(State()) && |free| == BINS && |ring| >= 1 && realSize <= realPeak
    {
      hide Steady, SizeOk;
      SteadyFacts();
    }

    /** A new header has come. */
    twostate lemma StillLinkedPlus(base: nat)
      requires old(Linked()) && base !in old(headers) && base in headers && pending == old(pending) && ClearOf(pending, base, CHUNK_SIZE)
      requires headers == old(headers)[base := headers[base]] && headers.Keys == chunks.Keys
      requires os == old(os) && huge == old(huge) && reach == old(reach) && Far(base)
      requires Repr == old(Repr) + {headers[base], headers[base].freeMap, headers[base].pageMap}
      requires fresh(headers[base]) && fresh(headers[base].freeMap) && fresh(headers[base].pageMap)
      requires forall b | b in old(headers) :: chunks[b] == old(chunks[b])
      requires forall b | b in old(headers) :: unchanged(headers[b], headers[b].freeMap, headers[b].pageMap)
      requires headers[base].Valid() && headers[base].State() == chunks[base]
      ensures Linked()
    {
      hide Header.Valid, Header.State, ClearOf, Distinct;
      forall b | b in headers
        ensures headers[b].Valid() && headers[b].State() == chunks[b]
      {
        if b != base {
          assert old(headers[b].Valid()) && old(headers[b].State() == chunks[b]);
          headers[b].SameHeader();
        }
      }
      DistinctPlus(old(headers), base, headers[base], old(Repr));
    }

    /** The address is far from what the OS will answer. */
    ghost predicate Far(p: nat)
      reads `os, `reach
    {
      reach > 0 ==> FarFrom(p, os, reach)
    }

    /** Regions, huge blocks or answers have come or gone; the chunks are as they were. */
    twostate lemma StillLinkedSpaced()
      requires old(Linked()) && headers == old(headers) && chunks == old(chunks) && Repr == old(Repr)
      requires pending != old(pending) ==> forall b | b in headers :: ClearOf(pending, b, CHUNK_SIZE)
      requires Spaced(reach, os, headers.Keys, huge, pending)
      requires forall b | b in headers :: unchanged(headers[b], headers[b].freeMap, headers[b].pageMap)
      ensures Linked()
    {
      hide Header.Valid, Header.State, Spaced;
      forall b | b in headers
        ensures headers[b].Valid() && headers[b].State() == chunks[b]
      {
        assert old(headers[b].Valid()) && old(headers[b].State() == chunks[b]);
        headers[b].SameHeader();
      }
    }

    /** From now on the answers of the OS are known to be n bytes apart. */
    ghost method Promise(n: nat)
      requires Valid() && Spaced(n, os, headers.Keys, huge, pending)
      modifies `reach
      ensures Valid() && reach == n
    {
      hide Spaced, Core, Quiet, SumLive, SumHuge, Threaded;
      reach := n;
      StillLinkedSpaced();
    }

    lemma ChunkFacts()
      requires Linked()
      ensures this !in Repr && headers.Keys == chunks.Keys
      ensures RingOk(State()) ==> (forall i | 0 <= i < |ring| :: ring[i] in headers) && (cached != [] ==> cached[0] in headers)
    {
    }

    // ---- one chunk -------------------------------------------------------------

    method FreeRunPages(base: nat, s: nat, n: nat)
      requires Linked() && base in chunks && 1 <= s && 1 <= n && s + n <= PAGES
      modifies `chunks, headers[base], headers[base].freeMap, headers[base].pageMap
      ensures Linked() && WellSized(old(chunks[base]))
      ensures chunks == old(chunks)[base := FreeRun(old(chunks[base]), s, n)]
    {
      hide FreeRun;
      headers[base].Sized();
      headers[base].FreePages(s, n);
      chunks := chunks[base := headers[base].State()];
      StillLinked(base);
    }

    method FindRunPages(base: nat, count: nat) returns (page: int)
      requires Linked() && base in chunks && Inv(chunks[base]) && 1 <= count < PAGES
      modifies `chunks, headers[base]
      ensures Linked() && base in chunks && WellSized(old(chunks[base])) && Inv(chunks[base])
      ensures chunks == old(chunks)[base := old(chunks[base]).(freeTail := chunks[base].freeTail)]
      ensures page == -1 || 1 <= page < chunks[base].freeTail
      ensures page > 0 ==> page + count <= PAGES && FreeRange(chunks[base], page, count)
      ensures page > 0 ==> exists len: nat :: BestFreeRun(chunks[base], page, len, count)
      ensures page == -1 ==> NoRoomIn(chunks[base], count)
    {
      hide Inv, BestFreeRun, MaximalFreeRun;
      headers[base].Sized();
      page := headers[base].Find(count);
      chunks := chunks[base := headers[base].State()];
      StillLinked(base);
    }

    method MarkRunPages(base: nat, page: nat, count: nat)
      requires Linked() && base in chunks && Inv(chunks[base]) && WellSized(chunks[base])
      requires 1 <= page <= chunks[base].freeTail && 1 <= count && FreeRange(chunks[base], page, count)
      modifies `chunks, headers[base], headers[base].freeMap, headers[base].pageMap
      ensures Linked() && WellSized(old(chunks[base]))
      ensures chunks == old(chunks)[base := AllocRun(old(chunks[base]), page, count, old(chunks[base]).freeTail)]
    {
      hide AllocRun, Inv, FreeRange;
      headers[base].Mark(page, count);
      chunks := chunks[base := headers[base].State()];
      StillLinked(base);
    }

    method MarkSmallPages(base: nat, page: nat, b: Bin)
      requires Linked() && base in chunks && page + BinPages(b) <= PAGES
      modifies `chunks, headers[base].pageMap
      ensures Linked() && WellSized(old(chunks[base]))
      ensures chunks == old(chunks)[base := MarkSmall(old(chunks[base]), page, b)]
    {
      hide MarkSmall, BinPages;
      headers[base].Sized();
      headers[base].MarkSmall(page, b);
      chunks := chunks[base := headers[base].State()];
      StillLinked(base);
    }

    method ShrinkRunPages(base: nat, page: nat, n: nat, m: nat)
      requires Linked() && base in chunks && 1 <= page && m < n && page + n <= PAGES
      modifies `chunks, headers[base], headers[base].freeMap, headers[base].pageMap
      ensures Linked() && WellSized(old(chunks[base]))
      ensures chunks == old(chunks)[base := ShrinkRun(old(chunks[base]), page, n, m)]
    {
      hide ShrinkRun;
      headers[base].Sized();
      headers[base].Shrink(page, n, m);
      chunks := chunks[base := headers[base].State()];
      StillLinked(base);
    }

    method TryGrowRunPages(base: nat, page: nat, n: nat, m: nat) returns (grown: bool)
      requires Linked() && base in chunks && 1 <= page && n < m && page + n <= PAGES
      modifies `chunks, headers[base], headers[base].freeMap, headers[base].pageMap
      ensures Linked() && WellSized(old(chunks[base]))
      ensures grown <==> page + m <= PAGES && FreeRange(old(chunks[base]), page + n, m - n)
      ensures chunks == if grown then old(chunks)[base := GrowRun(old(chunks[base]), page, n, m)] else old(chunks)
    {
      hide GrowRun, FreeRange;
      headers[base].Sized();
      grown := headers[base].TryGrow(page, n, m);
      chunks := chunks[base := headers[base].State()];
      StillLinked(base);
    }

    method SetCounter(base: nat, s: nat, b: Bin, k: nat)
      requires Linked() && base in chunks && s < PAGES
      modifies `chunks, headers[base].pageMap
      ensures Linked() && WellSized(old(chunks[base]))
      ensures chunks == old(chunks)[base := ChunkState.SetCounter(old(chunks[base]), s, b, k)]
    {
      hide ChunkState.SetCounter;
      headers[base].Sized();
      headers[base].SetCounter(s, b, k);
      chunks := chunks[base := headers[base].State()];
      StillLinked(base);
    }

    method SweepPages(base: nat) returns (collected: nat)
      requires Linked() && base in chunks && Inv(chunks[base])
      modifies `chunks, headers[base], headers[base].freeMap, headers[base].pageMap
      ensures Linked() && chunks.Keys == old(chunks.Keys) && base in chunks
      ensures chunks == old(chunks)[base := chunks[base]]
      ensures ChunkSweep.SweptTo(old(chunks[base]), chunks[base], PAGES)
      ensures WellSized(old(chunks[base])) && collected == |ChunkSweep.FullPages(old(chunks[base]), PAGES)|
    {
      hide Inv, ChunkSweep.SweptTo, ChunkSweep.FullPages;
      headers[base].Sized();
      collected := ChunkSweep.Sweep(headers[base]);
      chunks := chunks[base := headers[base].State()];
      StillLinked(base);
    }

    // ---- chunks ----------------------------------------------------------------

    /** zend_mm_chunk_free on a chunk: its header is gone. */
    method UnmapChunk(base: nat)
      requires Linked()
      modifies `headers, `chunks
      ensures Linked() && chunks == old(chunks) - {base} && headers == old(headers) - {base}
    {
      hide Threads, Linked;
      ChunkFacts();
      headers := headers - {base};
      chunks := chunks - {base};
      StillLinkedLess();
    }

    /** The counters of deletions are brought up to date, unless a chunk is cached. */
    method NoteDeletion()
      modifies `lastDeleteBoundary, `lastDeleteCount
      ensures Noted(cached == [], chunksCount, old(lastDeleteBoundary), old(lastDeleteCount), lastDeleteBoundary, lastDeleteCount)
    {
      if cached == [] {
        if chunksCount != lastDeleteBoundary {
          lastDeleteBoundary := chunksCount;
          lastDeleteCount := 0;
        } else {
          lastDeleteCount := lastDeleteCount + 1;
        }
      }
    }

    /** How a deletion that leaves count chunks changes the counters from (b, n) to (b', n'). */
    predicate Noted(counts: bool, count: int, b: int, n: int, b': int, n': int) {
      if counts then b' == count && n' == (if b == count then n + 1 else 0) else b' == b && n' == n
    }

    /** Whether deletion is delayed, with count chunks mapped. */
    predicate Delays(count: int, boundary: int, deletions: int)
      reads `chunksCount, `avgChunks
    {
      count as real < avgChunks + 0.1 || (chunksCount == boundary && deletions >= 4)
    }

    /** zend_mm_delete_chunk on the chunk at ring position i: kept in the cache while few chunks are mapped, else
        unmapped unless the first cached one is younger, which then goes instead. */
    method DeleteChunk(i: nat) returns (ghost how: HeapOps.Deletion)
      requires Linked() && RingOk(State()) && RealOk() && 1 <= i < |ring|
      modifies `ring, `cached, `headers, `chunks, `chunksCount, `cachedCount, `realSize, `lastDeleteBoundary, `lastDeleteCount
      ensures Linked() && RealOk() && realSize <= old(realSize)
      ensures how.Replace? ==> old(cached) != []
      ensures State() == HeapOps.DeleteChunk(old(State()), i, how)
      ensures how.Keep? <==>
                || (chunksCount + old(cachedCount)) as real < avgChunks + 0.1
                || (chunksCount == old(lastDeleteBoundary) && old(lastDeleteCount) >= 4)
      ensures chunksCount == old(chunksCount) - 1 && ring == old(ring)[..i] + old(ring)[i + 1..]
      ensures how.Keep? ==> cached == [old(ring)[i]] + old(cached) && chunks == old(chunks)
      ensures how.Unmap? ==> cached == old(cached) && chunks == old(chunks) - {old(ring)[i]}
      ensures how.Replace? ==> cached == [old(ring)[i]] + old(cached)[1..] && chunks == old(chunks) - {old(cached)[0]}
      ensures old(ring)[i] in old(chunks) && (old(cached) != [] ==> old(cached)[0] in old(chunks))
      ensures how.Unmap? ==> old(cached) == [] || old(chunks)[old(ring)[i]].num > old(chunks)[old(cached)[0]].num
      ensures how.Replace? ==> old(chunks)[old(ring)[i]].num <= old(chunks)[old(cached)[0]].num
      ensures !how.Keep? && old(cached) == [] ==>
                && lastDeleteBoundary == chunksCount
                && lastDeleteCount == if chunksCount == old(lastDeleteBoundary) then old(lastDeleteCount) + 1 else 0
      ensures how.Keep? || old(cached) != [] ==> lastDeleteBoundary == old(lastDeleteBoundary) && lastDeleteCount == old(lastDeleteCount)
      ensures headers.Keys <= old(headers.Keys)
    {
      hide RingOk, Linked, SumHuge, Header.State, Header.Valid;
      ChunkFacts();
      var base := ring[i];
      ring := HeapOps.Without(ring, i);
      chunksCount := chunksCount - 1;
      if Delays(chunksCount + cachedCount, lastDeleteBoundary, lastDeleteCount) {
        // delay deletion
        how := HeapOps.Keep;
        cachedCount := cachedCount + 1;
        cached := [base] + cached;
      } else {
        how := DropOrSwap(base);
      }
    }

    /** The chunk is unmapped, or the first cached one, whose place it takes. */
    method DropOrSwap(base: nat) returns (ghost how: HeapOps.Deletion)
      requires Linked() && base in chunks && (cached != [] ==> cached[0] in chunks)
      modifies `cached, `headers, `chunks, `realSize, `lastDeleteBoundary, `lastDeleteCount
      ensures Linked() && headers.Keys <= old(headers.Keys) && realSize == old(realSize) - CHUNK_SIZE
      ensures Noted(old(cached) == [], chunksCount, old(lastDeleteBoundary), old(lastDeleteCount), lastDeleteBoundary, lastDeleteCount)
      ensures how == if old(cached) == [] || old(chunks)[base].num > old(chunks)[old(cached)[0]].num then HeapOps.Unmap else HeapOps.Replace
      ensures how.Unmap? ==> chunks == old(chunks) - {base} && cached == old(cached)
      ensures how.Replace? ==> old(cached) != [] && chunks == old(chunks) - {old(cached)[0]} && cached == [base] + old(cached)[1..]
    {
      hide Linked, Noted;
      ChunkFacts();
      HeaderFacts(base);
      realSize := realSize - CHUNK_SIZE;
      NoteDeletion();
      if cached != [] {
        HeaderFacts(cached[0]);
      }
      if cached == [] || headers[base].num > headers[cached[0]].num {
        how := HeapOps.Unmap;
        UnmapChunk(base);
      } else {
        how := HeapOps.Replace;
        SwapCached(base);
      }
    }

    /** The chunk takes the place of the first cached one, which is unmapped. */
    method SwapCached(base: nat)
      requires Linked() && cached != []
      modifies `cached, `headers, `chunks
      ensures Linked() && chunks == old(chunks) - {old(cached)[0]} && headers == old(headers) - {old(cached)[0]}
      ensures cached == [base] + old(cached)[1..]
    {
      hide Threads, Linked;
      ChunkFacts();
      var first := cached[0];
      cached := [base] + cached[1..];
      UnmapChunk(first);
    }

    // ---- garbage collection ----------------------------------------------------

    /** The run of a slot: the page number, corrected by the offset of an NRUN entry. */
    method RunPage(a: nat) returns (base: nat, page: nat)
      requires Linked() && ChunkBase(a) in chunks && WellSized(chunks[ChunkBase(a)])
      requires var c := chunks[ChunkBase(a)]; var s := c.owner[PageOf(a)];
        && 1 <= s <= PageOf(a) && c.info[s].SRun?
        && (PageOf(a) == s || c.info[PageOf(a)] == NRun(c.info[s].bin, PageOf(a) - s))
      ensures base == ChunkBase(a) && base in headers && page == chunks[base].owner[PageOf(a)]
      ensures page < PAGES && headers[base].pageMap.Length == PAGES && headers[base].pageMap[page] == chunks[base].info[page]
    {
      hide ChunkBase, PageOf;
      base := ChunkBase(a);
      page := PageOf(a);
      ChunkFacts();
      HeaderFacts(base);
      var info := headers[base].pageMap[page];
      if info.IsLRun() {
        page := page - info.offset;
      }
    }

    lemma HeaderFacts(base: nat)
      requires Linked() && base in chunks
      ensures base in headers && headers[base].Valid() && headers[base].pageMap.Length == PAGES
      ensures headers[base] in Repr && headers[base].freeMap in Repr && headers[base].pageMap in Repr
      ensures headers[base].pageMap[..] == chunks[base].info && WellSized(chunks[base])
      ensures headers[base].freePages == chunks[base].freePages && headers[base].freeTail == chunks[base].freeTail
      ensures headers[base].num == chunks[base].num && headers[base].State() == chunks[base]
    {
    }

    /** The counting pass of zend_mm_gc for bin b. */
    method CountBin(b: Bin, ghost h0: HeapState.Heap) returns (hasFreePages: bool)
      requires Linked() && Core(h0) && |h0.free| == BINS && Counts(h0, State(), b, 0)
      requires |free| == BINS && free[b] == h0.free[b] && Threads()
      modifies `chunks, Repr
      ensures Linked() && Counts(h0, State(), b, |h0.free[b]|)
      ensures !hasFreePages ==> NoneFull(h0, b, |h0.free[b]|)
    {
      hide Threads, Linked, Core, Counts, ChunkBase, PageOf, BinElements, SlotsIn, ChunkState.SetCounter;
      hide ChunkState.Inv;
      hasFreePages := false;
      ghost var list := free[b];
      NoneFullStart(h0, b);
      ChunkFacts();
      ListAt(b, 0);
      var p := freeSlot[b];
      ghost var j := 0;
      while p != 0
        invariant j <= |list| && Linked() && Threads() && Counts(h0, State(), b, j)
        invariant p == Next(list, j - 1) && (p == 0 <==> j == |list|)
        invariant !hasFreePages ==> NoneFull(h0, b, j)
        decreases |list| - j
        modifies `chunks, Repr
      {
        CountStep(h0, State(), b, j);
        var base, page := RunPage(p);
        var counter := headers[base].pageMap[page].freeCounter + 1;
        if counter == BinElements(b) {
          hasFreePages := true;
        } else if !hasFreePages {
          NoneFullStep(h0, b, j, base, page);
        }
        HeaderFacts(base);
        SetCounter(base, page, b, counter);
        ListAt(b, j);
        p := GetNextFreeSlot(p, b, Next(list, j));
        j := j + 1;
        ListAt(b, j);
      }
    }

    /** Position j of the list of bin b. */
    lemma ListAt(b: Bin, j: nat)
      requires Threads() && |free| == BINS && j <= |free[b]|
      ensures Next(free[b], j - 1) == 0 <==> j == |free[b]|
      ensures j < |free[b]| ==> b >= 1 && LinkAt(mem, free[b][j], b, Next(free[b], j), shadowKey) && Next(free[b], j) < ADDRESS_END
      ensures |freeSlot| == BINS && freeSlot[b] == Next(free[b], -1)
    {
      hide Thread, LinkAt;
      ThreadAt(free[b], freeSlot[b], b, mem, shadowKey, j);
    }

    /** zend_mm_get_next_free_slot: the shadow of the link is as it should be. */
    method GetNextFreeSlot(slot: nat, b: Bin, ghost expected: nat) returns (next: nat)
      requires LinkAt(mem, slot, b, expected, shadowKey) && expected < ADDRESS_END
      ensures next == expected
    {
      hide LinkAt, LoadWord, LoadShadow, BinSize;
      LinkReads(mem, slot, b, expected, shadowKey);
      next := LoadWord(mem, slot);
      if next != 0 && next != LoadShadow(mem, slot + BinSize(b) - 8, shadowKey) {
        // zend_mm_panic
        assert false;
      }
    }

    /** The slot p between kept and rest leaves the free list of bin b: the slot before it, or the head, is set to next. */
    method UnlinkSlot(b: Bin, q: nat, p: nat, next: nat, ghost kept: seq<nat>, ghost rest: seq<nat>, ghost h0: HeapState.Heap)
      requires Core(h0) && |h0.free| == BINS && Threads() && |free| == BINS && SubLists(free, h0.free)
      requires free[b] == kept + [p] + rest && NoDup(free[b]) && b >= 1
      requires q == (if kept == [] then 0 else kept[|kept| - 1]) && next == Next(rest, -1)
      modifies `free, `freeSlot, `mem
      ensures Threads() && free == old(free)[b := kept + rest] && BlocksSame(h0.live, old(mem), mem)
    {
      hide Core, LinkAt, Thread, BinSize, BlocksSame, SlotsSame;
      ListAt(b, 0);
      ghost var heads, m := freeSlot, mem;
      if q == 0 {
        freeSlot := freeSlot[b := next];
      } else {
        SetNextFreeSlot(q, b, next);
      }
      free := free[b := kept + rest];
      UnlinkedIn(h0, old(free), heads, freeSlot, b, q, p, next, kept, rest, m, mem, shadowKey);
    }

    /** The list of bin b of h0 is filtered up to position j.  q is the last slot kept, NULL standing for the
        head; p is the next one to look at. */
    ghost predicate Filtering(h0: HeapState.Heap, b: Bin, j: nat, kept: seq<nat>, q: nat, p: nat)
      requires |h0.free| == BINS
      reads `free, `freeSlot, `mem, `shadowKey
    {
      var list := h0.free[b];
      && j <= |list| && kept == Keep(h0, list[..j]) && Threads() && SubLists(free, h0.free) && free[b] == kept + list[j..]
      && q == (if kept == [] then 0 else kept[|kept| - 1]) && p == Next(list, j - 1) && (p == 0 <==> j == |list|)
    }

    /** One round of the filtering loop. */
    method FilterOne(b: Bin, q0: nat, p0: nat, ghost j: nat, ghost kept0: seq<nat>, ghost h0: HeapState.Heap, ghost h: HeapState.Heap)
      returns (q: nat, p: nat, ghost kept: seq<nat>)
      requires Linked() && Core(h0) && |h0.free| == BINS && h.chunks == chunks && Counts(h0, h, b, |h0.free[b]|)
      requires p0 != 0 && Filtering(h0, b, j, kept0, q0, p0)
      modifies `free, `freeSlot, `mem
      ensures Filtering(h0, b, j + 1, kept, q, p) && |old(free)| == BINS && free == old(free)[b := free[b]]
      ensures BlocksSame(h0.live, old(mem), mem)
    {
      hide Threads, Linked, Core, Counts, ChunkBase, PageOf, BinElements, CollectableSlot, Collectable, IsSlot;
      hide ChunkState.Inv, BlocksSame, Keep, LinkAt;
      ghost var list := h0.free[b];
      FreeNoDup(h0, b);
      BlocksSameRefl(h0.live, mem);
      KeepStep(h0, list, j);
      FilterStep(h0, h, b, j);
      var base, page := RunPage(p0);
      KeptAt(kept0, list, j);
      ListAt(b, |kept0|);
      ListAt(b, |kept0| + 1);
      p := GetNextFreeSlot(p0, b, Next(list, j));
      if headers[base].pageMap[page].freeCounter == BinElements(b) {
        // remove from cache
        q, kept := q0, kept0;
        KeptNoDup(h0, list, j);
        UnlinkSlot(b, q0, p0, p, kept0, list[j + 1..], h0);
      } else {
        q, kept := p0, kept0 + [p0];
      }
    }

    /** The filtering pass of zend_mm_gc for bin b. */
    method FilterBin(b: Bin, ghost h0: HeapState.Heap)
      requires Linked() && Core(h0) && |h0.free| == BINS && Counts(h0, State(), b, |h0.free[b]|)
      requires |free| == BINS && free[b] == h0.free[b] && Threads() && SubLists(free, h0.free)
      modifies `free, `freeSlot, `mem
      ensures |free| == BINS && free == old(free)[b := Keep(h0, h0.free[b])]
      ensures Threads() && BlocksSame(h0.live, old(mem), mem)
    {
      hide Threads, Linked, Core, Counts, BlocksSame, CollectableSlot, Keep, SubLists;
      ChunkFacts();
      ghost var h := State();
      ghost var list := free[b];
      KeepAll(h0, []);
      ghost var kept, j := [], 0;
      ListAt(b, 0);
      BlocksSameRefl(h0.live, mem);
      var q, p := 0, freeSlot[b];
      assert list[..0] == [] && kept + list[0..] == free[b];
      while p != 0
        invariant |free| == BINS && Filtering(h0, b, j, kept, q, p) && free == old(free)[b := free[b]]
        invariant BlocksSame(h0.live, old(mem), mem)
        decreases |list| - j
      {
        ghost var m := mem;
        q, p, kept := FilterOne(b, q, p, j, kept, h0, h);
        BlocksSameTrans(h0.live, old(mem), m, mem);
        j := j + 1;
      }
      assert list[..|list|] == list && kept + list[|list|..] == kept;
    }

    /** Counting and filtering for bin b. */
    method CollectBin(b: Bin, ghost h0: HeapState.Heap)
      requires Linked() && Core(h0) && |h0.free| == BINS && Counts(h0, State(), b, 0) && Threads()
      requires |free| == BINS && free[b] == h0.free[b] && SubLists(free, h0.free)
      modifies `chunks, `free, `freeSlot, `mem, Repr
      ensures Linked() && Counts(h0, State(), b + 1, 0) && Threads() && BlocksSame(h0.live, old(mem), mem)
      ensures free == old(free)[b := Keep(h0, h0.free[b])]
    {
      hide Threads, Linked, Core, Counts, Keep, BlocksSame, SubLists;
      ChunkFacts();
      BlocksSameRefl(h0.live, mem);
      var hasFreePages := CountBin(b, h0);
      ghost var h := State();
      ChunkFacts();
      if hasFreePages {
        FilterBin(b, h0);
      } else {
        NoneFullKeeps(h0, b);
      }
      CountsFree(h0, h, State(), b);
      CountNextBin(h0, State(), b);
    }

    /** zend_mm_gc */
    method Gc() returns (bytes: nat)
      requires Steady()
      modifies `ring, `cached, `headers, `chunks, `chunksCount, `cachedCount, `realSize, `lastDeleteBoundary, `lastDeleteCount
      modifies `free, `freeSlot, `mem, Repr
      ensures Steady() && realSize <= old(realSize)
      ensures |old(free)| == BINS && Collected(old(State()), State())
      ensures bytes == PAGE_SIZE * CountPages(old(State()), old(ring))
      ensures |ring| >= 1 && ring[0] == old(ring)[0] && BlocksSame(old(live), old(mem), mem)
      ensures headers.Keys <= old(headers.Keys)
      ensures NoneEmpty(State(), |ring|)
      ensures old(NoneEmpty(State(), |ring|)) && bytes == 0 ==> ring == old(ring) && cached == old(cached)
    {
      hide Threads, Linked, Core, Quiet, Counts, Keep, BlocksSame, Collected, CountPages, Sweeping, CoreBut, NoneEmpty;
      ghost var h0 := State();
      CountStart(h0);
      ChunkFacts();
      BlocksSameRefl(live, mem);
      var i := 0;
      while i < BINS
        invariant i <= BINS && Linked() && Counts(h0, State(), i, 0) && RealOk()
        invariant |free| == BINS && forall b: Bin :: free[b] == if b < i then Keep(h0, h0.free[b]) else h0.free[b]
        invariant Threads() && BlocksSame(h0.live, old(mem), mem)
        modifies `chunks, `free, `freeSlot, `mem, Repr
      {
        ghost var m := mem;
        KeepSub(h0, free, i);
        CollectBin(i, h0);
        BlocksSameTrans(h0.live, old(mem), m, mem);
        i := i + 1;
      }
      bytes := GcSweep(h0);
      SweepDone(h0, State());
    }

    /** The chunk just swept is empty and not the main one: it is deleted. */
    method DropSwept(ghost h0: HeapState.Heap, ghost n: nat, k: nat)
      requires Core(h0) && |h0.free| == BINS && n < |h0.ring| && Linked() && RealOk() && Sweeping(h0, State(), n + 1)
      requires 1 <= k < |ring| && ring[k..] == h0.ring[n..] && ring[k] in chunks && Empty(chunks[ring[k]])
      modifies `ring, `cached, `headers, `chunks, `chunksCount, `cachedCount, `realSize, `lastDeleteBoundary, `lastDeleteCount
      ensures Linked() && RealOk() && realSize <= old(realSize) && Sweeping(h0, State(), n + 1)
      ensures k <= |ring| && ring[k..] == h0.ring[n + 1..] && ring[0] == old(ring)[0]
      ensures headers.Keys <= old(headers.Keys) && (old(NoneEmpty(State(), k)) ==> NoneEmpty(State(), k))
    {
      hide Threads, Linked, Core, RealOk, Empty, Sweeping, HeapOps.DeleteChunk;
      ghost var g := State();
      SweepingFacts2(h0, g, n + 1);
      assert ring[k] == ring[k..][0];
      ghost var how := DeleteChunk(k);
      SweepDelete(h0, g, n, k, how);
      RingAfter(g, k, how);
      NoneEmptyAfter(g, State(), k, how);
      assert g.ring[k + 1..] == g.ring[k..][1..];
    }

    lemma RingAfter(h: HeapState.Heap, i: nat, how: HeapOps.Deletion)
      requires 1 <= i < |h.ring| && (how.Replace? ==> h.cached != [])
      ensures var r := HeapOps.DeleteChunk(h, i, how).ring; i <= |r| && r[i..] == h.ring[i + 1..] && r[0] == h.ring[0]
    {
    }

    /** The pages of the chunk at ring position k, which was chunk n of the ring of h0, are swept. */
    method SweepAt(ghost h0: HeapState.Heap, ghost n: nat, k: nat) returns (pages: nat)
      requires Core(h0) && |h0.free| == BINS && n < |h0.ring| && Linked() && RealOk() && Sweeping(h0, State(), n)
      requires k < |ring| && ring[k..] == h0.ring[n..]
      modifies `chunks, Repr
      ensures Linked() && RealOk() && Sweeping(h0, State(), n + 1) && ring[k] == h0.ring[n] && ring[k] in chunks
      ensures pages == |CollectedPages(h0, h0.ring[n])|
      ensures old(NoneEmpty(State(), k)) ==>
                NoneEmpty(State(), k) && (chunks[ring[k]].freePages != PAGES - 1 || ring[k] == ring[0] ==> NoneEmpty(State(), k + 1))
      ensures NoneEmpty(h0, |h0.ring|) && pages == 0 && n >= 1 ==> chunks[ring[k]].freePages != PAGES - 1
    {
      hide Threads, Linked, RingOk, Core, ChunkState.Inv, Empty, Lost, RegionsOk, ChunksOk, Sweeping;
      hide ChunkSweep.SweptTo, ChunkSweep.FullPages, CollectedPages, NoneEmpty;
      ghost var h := State();
      var base := ring[k];
      assert base == h0.ring[n];
      ChunkFacts();
      SweepingFacts(h0, h, n, base);
      SweepingRing(h0, h, n);
      HeaderFacts(base);
      pages := SweepPages(base);
      SweepChunk(h0, h, n, chunks[base]);
      SweptSame(h0, h, n, chunks[base]);
      assert State() == HeapOps.WithChunk(h, base, chunks[base]);
      if NoneEmpty(h, k) { NoneEmptyMore(h, State(), k); }
    }

    /** One round of the sweep: chunk k of the ring, which was chunk n of the ring of h0. */
    method SweepOne(ghost h0: HeapState.Heap, ghost n: nat, k: nat, collected: nat) returns (sum: nat, next: nat)
      requires Core(h0) && |h0.free| == BINS && n < |h0.ring| && Linked() && RealOk() && Sweeping(h0, State(), n)
      requires k < |ring| && ring[k..] == h0.ring[n..] && collected == CountPages(h0, h0.ring[..n])
      modifies `ring, `cached, `headers, `chunks, `chunksCount, `cachedCount, `realSize, `lastDeleteBoundary, `lastDeleteCount
      modifies Repr
      ensures Linked() && RealOk() && realSize <= old(realSize) && Sweeping(h0, State(), n + 1)
      ensures 1 <= next <= |ring| && ring[next..] == h0.ring[n + 1..] && ring[0] == old(ring)[0]
      ensures sum == CountPages(h0, h0.ring[..n + 1]) && sum >= collected
      ensures NoneEmpty(h0, |h0.ring|) && sum == collected && k == n ==> next == k + 1 && ring == old(ring) && cached == old(cached)
      ensures headers.Keys <= old(headers.Keys) && (old(NoneEmpty(State(), k)) ==> NoneEmpty(State(), next))
    {
      hide Threads, Linked, RingOk, Core, ChunkState.Inv, Empty, Sweeping, CollectedPages, NoneEmpty;
      var base := ring[k];
      ChunkFacts();
      var pages := SweepAt(h0, n, k);
      assert h0.ring[..n + 1][..n] == h0.ring[..n];
      sum := collected + pages;
      SweepingFacts(h0, State(), n + 1, base);
      HeaderFacts(base);
      ChunkFacts();
      if headers[base].freePages == PAGES - 1 && base != ring[0] {
        AllFree(chunks[base]);
        DropSwept(h0, n, k);
        next := k;
      } else {
        assert ring[k..][1..] == ring[k + 1..] && h0.ring[n..][1..] == h0.ring[n + 1..];
        next := k + 1;
      }
    }

    /** The sweep of zend_mm_gc over the chunk ring. */
    method GcSweep(ghost h0: HeapState.Heap) returns (bytes: nat)
      requires Core(h0) && |h0.free| == BINS && Linked() && RealOk() && Counts(h0, State(), BINS, 0) && Filtered(h0, State())
      modifies `ring, `cached, `headers, `chunks, `chunksCount, `cachedCount, `realSize, `lastDeleteBoundary, `lastDeleteCount
      modifies Repr
      ensures Linked() && RealOk() && realSize <= old(realSize) && Sweeping(h0, State(), |h0.ring|)
      ensures bytes == PAGE_SIZE * CountPages(h0, h0.ring)
      ensures |ring| >= 1 && |h0.ring| >= 1 && ring[0] == h0.ring[0]
      ensures headers.Keys <= old(headers.Keys) && NoneEmpty(State(), |ring|)
      ensures NoneEmpty(h0, |h0.ring|) && bytes == 0 ==> ring == old(ring) && cached == old(cached)
    {
      hide Threads, Linked, RingOk, Core, Quiet, Counts, Filtered, ChunkState.Inv, Empty, Lost, Sweeping, RealOk;
      hide CollectedPages, CountPages;
      NoPages(h0);
      SweepStart(h0, State());
      CountsFrame(h0, State());
      CoreRing(h0);
      ChunkFacts();
      var collected, k := 0, 0;
      ghost var n := 0;
      assert h0.ring[..0] == [] && h0.ring[0..] == h0.ring;
      while k < |ring|
        invariant Linked() && RealOk() && realSize <= old(realSize) && n <= |h0.ring|
        invariant Sweeping(h0, State(), n) && headers.Keys <= old(headers.Keys)
        invariant k <= |ring| && ring[k..] == h0.ring[n..] && (k == 0 ==> n == 0) && (k > 0 ==> ring[0] == h0.ring[0])
        invariant NoneEmpty(h0, |h0.ring|) && collected == 0 ==> k == n && ring == old(ring) && cached == old(cached)
        invariant collected == CountPages(h0, h0.ring[..n]) && NoneEmpty(State(), k)
        decreases |h0.ring| - n
      {
        var base := ring[k];
        assert base == h0.ring[n];
        collected, k := SweepOne(h0, n, k, collected);
        n := n + 1;
      }
      assert h0.ring[..n] == h0.ring;
      bytes := PAGE_SIZE * collected;
    }

    // ---- the operating system and the limits -------------------------------------

    /** The region is aligned and nothing mapped overlaps it. */
    predicate IsFresh(ptr: nat, n: nat)
      reads `headers, `huge, `pending
    {
      FreshAmong(headers.Keys, huge, pending, ptr, n)
    }

    /** The OS grants the next request for n bytes. */
    ghost predicate Grants(n: nat)
      reads `os, `headers, `huge, `pending
    {
      GrantedAmong(os, headers.Keys, huge, pending, n)
    }

    /** zend_mm_chunk_alloc: the OS hands out a fresh aligned region or fails. */
    method MapRegion(n: nat) returns (p: Option<nat>)
      requires Steady()
      modifies `os
      ensures Steady() && |os| + 1 >= |old(os)| && (p.Some? ==> Far(p.value))
      ensures p.Some? ==> HeapOps.FreshRegion(State(), p.value, n) && ClearOf(pending, p.value, n)
      ensures p.Some? <==> old(Grants(n))
      ensures os == Later(old(os)) && (p.Some? ==> p == old(os)[0] && os == old(os)[1..])
    {
      hide Linked, Core, Quiet, SumHuge, Threaded, Spaced, FarFrom;
      ChunkFacts();
      SpacedNow();
      SpacedLater(reach, os, headers.Keys, huge, pending);
      p := None;
      if os != [] {
        p := os[0];
        os := os[1..];
        if p.Some? && !IsFresh(p.value, n) {
          p := None;
        }
      }
      StillLinkedSpaced();
    }

    ghost predicate LimitsOk()
      reads `limit, `hardLimit, `realSize
    {
      0 <= limit <= hardLimit <= LIMIT_MAX && realSize <= hardLimit
    }

    /** There is nothing to collect. */
    ghost predicate Exhausted()
      reads `chunks, `ring, `cached, `free, `huge, `live
    {
      |free| == BINS && CountPages(State(), ring) == 0
    }

    /** zend_mm_check_limit with gc enabled: ok is false for FAILURE; exit means the fatal error of the hard limit. */
    method CheckLimit(add: nat) returns (ok: bool, didGc: bool, exit: bool)
      requires Steady()
      modifies `ring, `cached, `headers, `chunks, `chunksCount, `cachedCount, `realSize, `lastDeleteBoundary, `lastDeleteCount
      modifies `free, `freeSlot, `mem, Repr
      ensures Steady() && realSize <= old(realSize) && headers.Keys <= old(headers.Keys)
      ensures |old(free)| == BINS && GcOrNot(old(State()), State())
      ensures |ring| >= 1 && ring[0] == old(ring)[0] && BlocksSame(old(live), old(mem), mem)
      ensures didGc <==> old(realSize) + add > limit && CountPages(old(State()), old(ring)) > 0
      ensures didGc ==> Collected(old(State()), State()) && CountPages(old(State()), old(ring)) > 0
      ensures old(realSize) + add <= limit ==> ok && !didGc && !exit && State() == old(State()) && realSize == old(realSize)
      ensures didGc || !ok || exit ==> Exhausted()
      ensures old(NoneEmpty(State(), |ring|)) ==> NoneEmpty(State(), |ring|) && (!didGc ==> cached == old(cached))
      ensures !ok ==> fallible && realSize + add > limit
      ensures exit <==> old(realSize) + add > limit && !fallible && add > SizeSub(hardLimit, realSize)
      ensures old(LimitsOk()) && exit ==> realSize + add > hardLimit
      ensures old(LimitsOk()) && ok && !exit ==> realSize + add <= if fallible then limit else hardLimit
    {
      hide NoneEmpty, BlocksSame, Threads, Linked, Core, Quiet, Collected, CountPages;
      CoreFree(State());
      ChunkFacts();
      BlocksSameRefl(live, mem);
      ok, didGc, exit := true, false, false;
      if limit < realSize || add > limit - realSize {
        ghost var h := State();
        var bytes := Gc();
        CoreFree(State());
        NothingLeft(h, State());
        didGc := bytes != 0;
        if !fallible && add > SizeSub(hardLimit, realSize) {
          exit := true;
          return;
        }
        // check the soft limit again as gc may have reduced memory usage
        if limit < realSize || add > limit - realSize {
          ok := !fallible;
        }
      }
    }

    /** Once real_size is above the hard limit the difference wraps, and the limit stops only requests above it:
        none that a process could make.  The assertion before the subtraction excludes this; where assertions are
        assumptions, the compiler need not carry out what is stated here. */
    lemma PassedLimitStopsNothing(add: nat)
      requires 0 <= hardLimit < realSize <= SIZE_MAX
      ensures add > SizeSub(hardLimit, realSize) <==> add > SIZE_MAX + 1 - (realSize - hardLimit)
    {
    }

    // ---- pages -----------------------------------------------------------------

    /** The page search in one chunk of the ring. */
    method FindIn(base: nat, count: nat) returns (page: int)
      requires Steady() && base in ring && base in chunks && 1 <= count < PAGES
      modifies `chunks, Repr
      ensures Steady() && base in chunks && chunks == old(chunks)[base := old(chunks[base]).(freeTail := chunks[base].freeTail)]
      ensures WellSized(chunks[base]) && Inv(chunks[base]) && chunks[base].owner == old(chunks[base]).owner
      ensures page == -1 || 1 <= page < chunks[base].freeTail
      ensures page > 0 ==> page + count <= PAGES && FreeRange(chunks[base], page, count)
      ensures page > 0 ==> exists len: nat :: BestFreeRun(chunks[base], page, len, count)
      ensures page == -1 ==> NoRoomIn(chunks[base], count)
    {
      hide Threads, Linked, Core, Quiet, ChunkState.Inv, BestFreeRun, MaximalFreeRun;
      ghost var h := State();
      ChunkFacts();
      HeaderFacts(base);
      HeapChunk(h, base);
      page := FindRunPages(base, count);
      HeapOps.SetTailCore(h, base, chunks[base].freeTail);
      assert State() == HeapOps.WithChunk(h, base, h.chunks[base].(freeTail := chunks[base].freeTail));
    }

    /** Marks the pages found as a live large run. */
    method MarkIn(base: nat, page: nat, count: nat)
      requires Steady() && base in ring && base in chunks && WellSized(chunks[base])
      requires 1 <= page <= chunks[base].freeTail && 1 <= count && FreeRange(chunks[base], page, count)
      modifies `chunks, `live, Repr
      ensures Steady() && PageAddr(base, page) !in old(live)
      ensures State() == HeapOps.TakeRun(old(State()), base, page, count, old(chunks[base]).freeTail)
      ensures LargeRunOf(chunks[base], page, count)
    {
      hide Threads, Linked, Core, Quiet, ChunkState.Inv;
      ghost var h := State();
      ChunkFacts();
      HeaderFacts(base);
      HeapChunk(h, base);
      HeapOps.TakeRunCore(h, base, page, count, chunks[base].freeTail);
      MarkRunPages(base, page, count);
      live := live[PageAddr(base, page) := Large(count)];
    }

    /** A new header for the mapped region at base. */
    method MapChunk(base: nat)
      requires Linked() && base !in chunks && ClearOf(pending, base, CHUNK_SIZE) && Far(base)
      modifies `headers, `chunks, `Repr
      ensures Linked() && Repr >= old(Repr) && fresh(Repr - old(Repr))
      ensures base in chunks && chunks == old(chunks)[base := chunks[base]] && Empty(chunks[base])
    {
      hide Empty, Threads, Linked, Header.State, Header.Valid;
      ChunkFacts();
      var header := new Header();
      headers := headers[base := header];
      chunks := chunks[base := header.State()];
      Repr := Repr + {header, header.freeMap, header.pageMap};
      StillLinkedPlus(base);
    }

    /** zend_mm_chunk_init: the chunk joins the ring at its end. */
    method InitChunk(base: nat)
      requires Linked() && base in chunks && Empty(chunks[base]) && |ring| >= 1 && ring[|ring| - 1] in chunks
      modifies `chunks, `ring, Repr
      ensures Linked() && ring == old(ring) + [base] && WellSized(old(chunks[base]))
      ensures |old(ring)| >= 1 && old(ring)[|old(ring)| - 1] in old(chunks) && base in chunks
      ensures chunks == old(chunks)[base := chunks[base]] && chunks[base].num == old(chunks)[old(ring)[|old(ring)| - 1]].num + 1
      ensures Inv(chunks[base]) && CountersZero(chunks[base]) && Empty(chunks[base])
    {
      hide Inv, Empty, CountersZero, Threads, Linked, ChunkState.Init;
      ChunkFacts();
      HeaderFacts(base);
      HeaderFacts(ring[|ring| - 1]);
      var prevNum := headers[ring[|ring| - 1]].num;
      InitInv(chunks[base].info, prevNum + 1);
      InitChunkPages(base, prevNum);
      ring := ring + [base];
    }

    method InitChunkPages(base: nat, prevNum: nat)
      requires Linked() && base in chunks && Empty(chunks[base])
      modifies `chunks, headers[base], headers[base].freeMap, headers[base].pageMap
      ensures Linked() && WellSized(old(chunks[base]))
      ensures chunks == old(chunks)[base := ChunkState.Init(old(chunks[base]).info, prevNum + 1)]
    {
      hide ChunkState.Init, Empty;
      headers[base].Sized();
      headers[base].Init(prevNum);
      chunks := chunks[base := headers[base].State()];
      StillLinked(base);
    }

    method MapAndInit(base: nat)
      requires Linked() && base !in chunks && ClearOf(pending, base, CHUNK_SIZE) && Far(base)
      requires |ring| >= 1 && ring[|ring| - 1] in chunks
      modifies `headers, `chunks, `ring, `Repr, Repr
      ensures Linked() && Repr >= old(Repr) && fresh(Repr - old(Repr)) && ring == old(ring) + [base]
      ensures base in chunks && chunks == old(chunks)[base := chunks[base]]
      ensures Inv(chunks[base]) && CountersZero(chunks[base]) && Empty(chunks[base])
    {
      hide Threads, Linked, ChunkState.Inv, Empty, CountersZero;
      ghost var old1 := chunks;
      ChunkFacts();
      MapChunk(base);
      ChunkFacts();
      InitChunk(base);
      assert chunks == old1[base := chunks[base]];
    }

    /** The head of the cache joins the ring. */
    method UseCachedChunk() returns (base: nat)
      requires Steady() && cached != []
      modifies `cached, `cachedCount, `chunksCount, `peakChunks, `chunks, `ring, Repr
      ensures base == old(cached)[0] && cached == old(cached)[1..] && peakChunks == Max(old(peakChunks), chunksCount)
      ensures Steady() && NewChunk(old(State()), State(), base) && |ring| + |cached| == old(|ring| + |cached|)
    {
      hide Threads, Linked, Core, Quiet, ChunkState.Inv, Empty, CountersZero, HeapOps.FreshRegion, SumHuge, NewChunk;
      ghost var h := State();
      ChunkFacts();
      CachedFacts(h);
      base := cached[0];
      TakeFromCache(base);
      ChunkFacts();
      NewChunkIs(h, State(), base, cached);
    }

    method TakeFromCache(base: nat)
      requires Linked() && cached != [] && base == cached[0] && base in chunks && Empty(chunks[base])
      requires |ring| >= 1 && ring[|ring| - 1] in chunks
      modifies `cached, `cachedCount, `chunksCount, `peakChunks, `chunks, `ring, Repr
      ensures Linked() && ring == old(ring) + [base] && cached == old(cached)[1..]
      ensures cachedCount == old(cachedCount) - 1 && chunksCount == old(chunksCount) + 1
      ensures peakChunks == Max(old(peakChunks), chunksCount)
      ensures base in chunks && chunks == old(chunks)[base := chunks[base]]
      ensures Inv(chunks[base]) && CountersZero(chunks[base]) && Empty(chunks[base])
    {
      hide Linked, ChunkState.Inv, Empty, CountersZero;
      ChunkFacts();
      InitChunk(base);
      ChunkFacts();
      cached, cachedCount := cached[1..], cachedCount - 1;
      CountChunk();
    }

    /** One more chunk is in use. */
    method CountChunk()
      modifies `chunksCount, `peakChunks
      ensures chunksCount == old(chunksCount) + 1 && peakChunks == Max(old(peakChunks), chunksCount)
    {
      chunksCount := chunksCount + 1;
      if chunksCount > peakChunks {
        peakChunks := chunksCount;
      }
    }

    /** n more bytes are mapped. */
    method CountReal(n: int)
      modifies `realSize, `realPeak
      ensures realSize == old(realSize) + n
      ensures realPeak == Max(old(realPeak), realSize)
    {
      realSize := realSize + n;
      if realPeak < realSize {
        realPeak := realSize;
      }
    }

    /** A region fresh from the OS joins the ring. */
    method UseMappedChunk(base: nat)
      requires Steady() && HeapOps.FreshRegion(State(), base, CHUNK_SIZE) && ClearOf(pending, base, CHUNK_SIZE) && Far(base)
      modifies `headers, `realSize, `realPeak, `chunksCount, `peakChunks, `chunks, `ring, `Repr, Repr
      ensures Steady() && Repr >= old(Repr) && fresh(Repr - old(Repr))
      ensures NewChunk(old(State()), State(), base) && |ring| + |cached| == old(|ring| + |cached|) + 1
      ensures realSize == old(realSize) + CHUNK_SIZE && realPeak == Max(old(realPeak), realSize)
      ensures peakChunks == Max(old(peakChunks), chunksCount)
    {
      hide Threads, Linked, Core, Quiet, ChunkState.Inv, Empty, CountersZero, HeapOps.FreshRegion, SumHuge, NewChunk;
      ghost var h := State();
      ChunkFacts();
      FreshBase(h, base);
      LastInRing(h);
      MapAndInit(base);
      ChunkFacts();
      NewChunkIs(h, State(), base, cached);
      CountMapped();
    }

    /** The accounting of a chunk that has joined the ring. */
    method CountMapped()
      requires Linked() && Core(State()) && Quiet(State()) && Threads() && chunksCount + 1 == |ring| && cachedCount == |cached|
      requires realSize + CHUNK_SIZE == CHUNK_SIZE * (|ring| + |cached|) + SumHuge(huge) && realSize <= realPeak
      modifies `realSize, `realPeak, `chunksCount, `peakChunks
      ensures Steady() && realSize == old(realSize) + CHUNK_SIZE && realPeak == Max(old(realPeak), realSize)
      ensures peakChunks == Max(old(peakChunks), chunksCount)
    {
      hide Threads, Linked, Core, Quiet, SumHuge;
      ChunkFacts();
      CountReal(CHUNK_SIZE);
      CountChunk();
    }

    /** Memory from the OS, if need be after a collection. */
    method MapOrCollect(n: nat) returns (p: Option<nat>)
      requires Steady() && 1 <= n
      modifies `ring, `cached, `headers, `chunks, `chunksCount, `cachedCount, `realSize, `lastDeleteBoundary, `lastDeleteCount
      modifies `free, `freeSlot, `mem, `os, Repr
      ensures Steady() && realSize <= old(realSize) && ListsKept(old(State()), State()) && headers.Keys <= old(headers.Keys)
      ensures BlocksSame(old(live), old(mem), mem) && |old(ring)| >= 1 && |ring| >= 1 && ring[0] == old(ring)[0]
      ensures p.Some? ==> HeapOps.FreshRegion(State(), p.value, n) && ClearOf(pending, p.value, n) && Far(p.value)
      ensures |os| + 2 >= |old(os)|
      ensures |old(free)| == BINS
      ensures !old(Grants(n)) ==>
                (p.Some? <==> CountPages(old(State()), old(ring)) > 0 && GrantedAmong(Later(old(os)), headers.Keys, huge, pending, n))
      ensures !old(Grants(n)) && p.Some? ==> p == Later(old(os))[0]
      ensures old(Grants(n)) ==> p.Some? && p == old(os)[0] && State() == old(State()) && realSize == old(realSize) && os == old(os)[1..]
    {
      hide Threads, Linked, Core, Quiet, RealOk, HeapOps.FreshRegion, ListsKept, Collected, Steady, ClearOf;
      hide CountPages, BlocksSame, GrantedAmong;
      ghost var h := State();
      SteadyFacts();
      KeptRefl(h);
      BlocksSameRefl(live, mem);
      p := MapRegion(n);
      if p.None? {
        // insufficient memory
        var collected := Gc();
        SteadyFacts();
        if collected != 0 {
          p := MapRegion(n);
        }
        GcKeeps(h, State());
      }
    }

    /** A chunk from the OS, with one more try after collecting garbage. */
    method MapNewChunk() returns (r: Outcome)
      requires Steady()
      modifies `ring, `cached, `headers, `chunks, `chunksCount, `cachedCount, `realSize, `lastDeleteBoundary, `lastDeleteCount
      modifies `free, `freeSlot, `mem, `os, `realPeak, `peakChunks, `Repr, Repr
      ensures r.Got? || r == Exit(OutOfMemory)
      ensures r.Got? ==> Steady() && Repr >= old(Repr) && fresh(Repr - old(Repr))
      ensures r.Got? ==> ListsKept(old(State()), State()) && |old(ring)| >= 1 && BlocksSame(old(live), old(mem), mem)
      ensures r.Got? ==> |ring| >= 2 && ring[|ring| - 1] == r.ptr && ring[0] == old(ring)[0]
      ensures r.Got? ==> r.ptr in chunks && Inv(chunks[r.ptr]) && Empty(chunks[r.ptr])
      ensures r.Got? ==> realPeak == Max(old(realPeak), realSize) && peakChunks == Max(old(peakChunks), chunksCount)
      ensures r.Got? ==> |os| + 2 >= |old(os)|
      ensures realSize <= if r.Got? then old(realSize) + CHUNK_SIZE else old(realSize)
      ensures old(Grants(CHUNK_SIZE)) ==> r.Got? && realSize == old(realSize) + CHUNK_SIZE
    {
      hide BlocksSame, Threads, Linked, Core, Quiet, Collected, ChunkState.Inv, Empty, RealOk, CountPages;
      hide HeapOps.FreshRegion;
      hide Steady, ListsKept, NewChunk, ClearOf, GrantedAmong;
      ghost var h := State();
      SteadyFacts();
      var p := MapOrCollect(CHUNK_SIZE);
      if p.None? {
        return Exit(OutOfMemory);
      }
      ghost var g := State();
      SteadyFacts();
      UseMappedChunk(p.value);
      NewChunkKeeps(g, State(), p.value);
      KeptTrans(h, g, State());
      r := Got(p.value);
    }

    /** The head of the cache joins the ring; no list changes. */
    method TakeCachedChunk() returns (base: nat)
      requires Steady() && cached != []
      modifies `cached, `cachedCount, `chunksCount, `peakChunks, `chunks, `ring, Repr
      ensures Steady() && ListsKept(old(State()), State())
      ensures |old(ring)| >= 1 && |ring| >= 2 && ring[|ring| - 1] == base && ring[0] == old(ring)[0]
      ensures base == old(cached)[0] && cached == old(cached)[1..] && peakChunks == Max(old(peakChunks), chunksCount)
      ensures base > 0 && base in chunks && Inv(chunks[base]) && Empty(chunks[base])
    {
      hide Threads, Linked, Core, Quiet, ChunkState.Inv, Empty, RealOk, Steady, ListsKept;
      SteadyFacts();
      ghost var h := State();
      base := UseCachedChunk();
      NewChunkKeeps(h, State(), base);
      SteadyFacts();
      HeapChunk(State(), base);
    }

    /** The limit check before a chunk is mapped.  again: garbage was collected, the cache is to be tried again. */
    method CheckChunkLimit() returns (r: Outcome, again: bool)
      requires Steady()
      modifies `ring, `cached, `headers, `chunks, `chunksCount, `cachedCount, `realSize, `lastDeleteBoundary, `lastDeleteCount
      modifies `free, `freeSlot, `mem, Repr
      ensures Steady() && realSize <= old(realSize) && headers.Keys <= old(headers.Keys)
      ensures ListsKept(old(State()), State()) && BlocksSame(old(live), old(mem), mem)
      ensures |old(ring)| >= 1 && |ring| >= 1 && ring[0] == old(ring)[0]
      ensures old(NoneEmpty(State(), |ring|)) ==> NoneEmpty(State(), |ring|) && (!again ==> cached == old(cached))
      ensures again ==> Exhausted() && !old(Exhausted())
      ensures old(realSize) + CHUNK_SIZE <= limit ==> r.Got? && !again && State() == old(State()) && realSize == old(realSize)
      ensures r.Null? ==> fallible && realSize + CHUNK_SIZE > limit && Exhausted()
      ensures r.Exit? ==> r == Exit(OverLimit) && !fallible && Exhausted() && (old(LimitsOk()) ==> realSize + CHUNK_SIZE > hardLimit)
      ensures r.Got? ==> r.ptr == 0
      ensures r.Got? && old(LimitsOk()) ==> realSize + CHUNK_SIZE <= if fallible then limit else hardLimit
    {
      hide NoneEmpty, BlocksSame, Threads, Linked, Core, Quiet, Collected, RealOk, CountPages, Steady, ListsKept;
      SteadyFacts();
      ghost var h := State();
      var ok, didGc, exit := CheckLimit(CHUNK_SIZE);
      GcKeeps(h, State());
      SteadyFacts();
      again := didGc;
      r := if exit then Exit(OverLimit) else if !ok then Null else Got(0);
    }

    /** The loop at get_chunk: a chunk from the cache, or the limit check, with a retry after collecting garbage;
        it ends because a second collection finds nothing.  r is Got(0) when a chunk is to be mapped. */
    method CacheOrCheck() returns (r: Outcome)
      requires Steady()
      modifies `ring, `cached, `headers, `chunks, `chunksCount, `cachedCount, `realSize, `lastDeleteBoundary, `lastDeleteCount
      modifies `free, `freeSlot, `mem, `peakChunks, Repr
      ensures Steady() && realSize <= old(realSize) && headers.Keys <= old(headers.Keys)
      ensures ListsKept(old(State()), State()) && BlocksSame(old(live), old(mem), mem) && huge == old(huge)
      ensures |old(ring)| >= 1 && |ring| >= 1 && ring[0] == old(ring)[0]
      ensures r.Got? && r.ptr != 0 ==> |ring| >= 2 && ring[|ring| - 1] == r.ptr && r.ptr in chunks && Inv(chunks[r.ptr]) && Empty(chunks[r.ptr])
      ensures r.Got? && r.ptr != 0 ==> peakChunks == Max(old(peakChunks), chunksCount)
      ensures r == Got(0) ==> peakChunks == old(peakChunks)
      ensures r == Got(0) && old(NoneEmpty(State(), |ring|)) ==> cached == []
      ensures old(cached) != [] ==> r == Got(old(cached)[0]) && cached == old(cached)[1..]
      ensures r == Got(0) && old(LimitsOk()) ==> realSize + CHUNK_SIZE <= if fallible then limit else hardLimit
      ensures Stopped(r, CHUNK_SIZE, old(LimitsOk())) && r != Exit(OutOfMemory)
      ensures old(cached) != [] ==> r.Got? && r.ptr != 0 && realSize == old(realSize)
      ensures old(cached) == [] && old(realSize) + CHUNK_SIZE <= limit ==> r == Got(0) && realSize == old(realSize)
    {
      hide NoneEmpty, BlocksSame, Threads, Linked, Core, Quiet, ChunkState.Inv, Empty, RealOk, Steady, ListsKept, Exhausted;
      SteadyFacts();
      ghost var h0 := State();
      KeptRefl(h0);
      BlocksSameRefl(live, mem);
      while true
        invariant Steady() && realSize <= old(realSize) && headers.Keys <= old(headers.Keys) && this !in Repr
        invariant |ring| >= 1 && ring[0] == h0.ring[0] && ListsKept(h0, State())
        invariant peakChunks == old(peakChunks) && (old(NoneEmpty(State(), |ring|)) ==> NoneEmpty(State(), |ring|))
        invariant live == h0.live && huge == h0.huge && BlocksSame(h0.live, old(mem), mem)
        invariant h0.cached != [] || old(realSize) + CHUNK_SIZE <= limit ==> State() == h0 && realSize == old(realSize)
        decreases !Exhausted()
        modifies `ring, `cached, `headers, `chunks, `chunksCount, `cachedCount, `realSize, `lastDeleteBoundary, `lastDeleteCount
        modifies `free, `freeSlot, `mem, `peakChunks, Repr
      {
        ghost var h, m := State(), mem;
        SteadyFacts();
        if cached != [] {
          var base := TakeCachedChunk();
          KeptTrans(h0, h, State());
          KeptLive(h0, State());
          return Got(base);
        }
        var again;
        r, again := CheckChunkLimit();
        BlocksSameTrans(h0.live, old(mem), m, mem);
        KeptTrans(h0, h, State());
        KeptLive(h0, State());
        SteadyFacts();
        if !r.Got? || !again {
          return;
        }
      }
    }

    /** The get_chunk part of zend_mm_alloc_pages: a chunk from the cache or from the OS, collecting garbage
        when a limit or the OS refuses one. */
    method GetChunk() returns (r: Outcome)
      requires Steady()
      modifies `ring, `cached, `headers, `chunks, `chunksCount, `cachedCount, `realSize, `lastDeleteBoundary, `lastDeleteCount
      modifies `free, `freeSlot, `mem, `os, `realPeak, `peakChunks, `Repr, Repr
      ensures !r.Exit? ==> Steady() && Repr >= old(Repr) && fresh(Repr - old(Repr))
      ensures !r.Exit? ==> ListsKept(old(State()), State()) && BlocksSame(old(live), old(mem), mem)
      ensures r.Got? ==> |ring| >= 2 && ring[|ring| - 1] == r.ptr && ring[0] == old(ring)[0]
      ensures r.Got? ==> r.ptr in chunks && Inv(chunks[r.ptr]) && Empty(chunks[r.ptr])
      ensures !r.Exit? ==> realPeak == Max(old(realPeak), realSize)
      ensures r.Got? ==> peakChunks == Max(old(peakChunks), chunksCount)
      ensures old(cached) != [] ==> r == Got(old(cached)[0]) && cached == old(cached)[1..]
      ensures !r.Exit? ==> |os| + 2 >= |old(os)|
      ensures realSize <= if r.Got? then old(realSize) + CHUNK_SIZE else old(realSize)
      ensures !r.Exit? && old(LimitsOk()) ==> LimitsOk()
      ensures old(cached) != [] ==> r.Got? && realSize == old(realSize) && os == old(os)
      ensures Stopped(r, CHUNK_SIZE, old(LimitsOk())) && (old(Grants(CHUNK_SIZE)) ==> r != Exit(OutOfMemory))
      ensures old(cached) == [] && old(realSize) + CHUNK_SIZE <= limit && old(Grants(CHUNK_SIZE)) ==>
                r.Got? && realSize == old(realSize) + CHUNK_SIZE
    {
      hide BlocksSame, Threads, Linked, Core, Quiet, ChunkState.Inv, Empty, RealOk, Steady, ListsKept, Exhausted;
      hide GrantedAmong;
      SteadyFacts();
      ghost var h0, m0 := State(), mem;
      r := CacheOrCheck();
      if r == Got(0) {
        SteadyFacts();
        ghost var h, m := State(), mem;
        StillGranted(os, old(headers.Keys), headers.Keys, huge, pending, CHUNK_SIZE);
        r := MapNewChunk();
        if r.Got? {
          BlocksSameTrans(h0.live, m0, m, mem);
          KeptTrans(h0, h, State());
        }
      }
    }

    /** What NULL and a fatal error mean when n more bytes were asked of the system. */
    ghost predicate Stopped(r: Outcome, n: int, limits: bool)
      reads `chunks, `ring, `cached, `free, `huge, `live, `fallible, `realSize, `limit, `hardLimit
    {
      && (r.Null? ==> fallible && realSize + n > limit && Exhausted())
      && (r == Exit(OverLimit) && limits ==> !fallible && realSize + n > hardLimit && Exhausted())
      && r != Exit(Overflow)
    }

    /** The found part of zend_mm_alloc_pages: pages of the chunk at ring position i become a large run. */
    method TakePages(i: nat, page: nat, count: nat, steps: nat) returns (ptr: nat)
      requires Steady() && i < |ring| && ring[i] in chunks && WellSized(chunks[ring[i]]) && (steps > 2 ==> i > 0)
      requires 1 <= page <= chunks[ring[i]].freeTail && 1 <= count && FreeRange(chunks[ring[i]], page, count)
      modifies `ring, `chunks, `live, Repr
      ensures Steady() && ptr == PageAddr(old(ring)[i], page)
      ensures PagesGiven(old(State()), State(), ptr, count)
      ensures ring == if steps > 2 && count < 8 then HeapOps.MoveToFrontRing(old(ring), i) else old(ring)
    {
      hide Threads, Linked, Core, Quiet, ChunkState.Inv, FreeRange, LargeRunOf;
      ghost var h := State();
      ChunkFacts();
      var base := ring[i];
      CoreFree(h);
      if steps > 2 && count < 8 {
        // move chunk into the head of the ring
        HeapOps.MoveToFrontCore(h, i);
        ring := HeapOps.MoveToFrontRing(ring, i);
      }
      HeapChunk(State(), base);
      ghost var g := State();
      MarkIn(base, page, count);
      ptr := PageAddr(base, page);
      GivenIs(h, g, State(), base, page, count);
    }

    /** No chunk has room: the first pages of another one are taken. */
    method AllocInNewChunk(count: nat, steps: nat, ghost h: HeapState.Heap) returns (r: Outcome)
      requires Steady() && 1 <= count < PAGES && TailsMoved(h, State()) && |h.free| == BINS
      modifies `ring, `cached, `headers, `chunks, `chunksCount, `cachedCount, `realSize, `lastDeleteBoundary, `lastDeleteCount
      modifies `free, `freeSlot, `mem, `os, `realPeak, `peakChunks, `live, `Repr, Repr
      ensures !r.Exit? ==> Steady() && Repr >= old(Repr) && fresh(Repr - old(Repr)) && BlocksSame(old(live), old(mem), mem)
      ensures r.Got? ==> PagesGiven(h, State(), r.ptr, count)
      ensures (r.Null? ==> ListsKept(h, State())) && (!r.Got? ==> realSize <= old(realSize))
      ensures Stopped(r, CHUNK_SIZE, old(LimitsOk())) && (old(Grants(CHUNK_SIZE)) ==> r != Exit(OutOfMemory))
      ensures old(cached) != [] ==> r.Got? && realSize == old(realSize) && os == old(os)
      ensures old(cached) == [] && old(realSize) + CHUNK_SIZE <= limit && old(Grants(CHUNK_SIZE)) ==>
                r.Got? && realSize == old(realSize) + CHUNK_SIZE
      ensures !r.Exit? ==> realSize <= old(realSize) + CHUNK_SIZE && |os| + 2 >= |old(os)|
      ensures !r.Exit? && old(LimitsOk()) ==> LimitsOk()
      ensures !r.Exit? ==> realPeak == Max(old(realPeak), realSize)
      ensures r.Got? ==> peakChunks == Max(old(peakChunks), chunksCount)
      ensures r.Got? ==> |ring| >= 2 && ring[0] == old(ring)[0] && r.ptr == PageAddr(ring[if steps > 2 && count < 8 then 1 else |ring| - 1], 1)
      ensures old(cached) != [] ==> r == Got(PageAddr(old(cached)[0], 1)) && cached == old(cached)[1..]
    {
      hide BlocksSame, Threads, Linked, Core, Quiet, ChunkState.Inv, Empty, RealOk, FreeRange;
      hide Steady, ListsKept, PagesGiven, TailsMoved, Exhausted, GrantedAmong;
      SteadyFacts();
      ghost var g := State();
      r := GetChunk();
      if r.Got? {
        EmptyHasRoom(chunks[r.ptr], count);
        SteadyFacts();
        ghost var g' := State();
        var ptr := TakePages(|ring| - 1, 1, count, steps);
        GivenAfterKept(h, g, g', State(), ptr, count);
        return Got(ptr);
      }
      if r.Null? {
        TailsKeepLists(h, g);
        KeptTrans(h, g, State());
      }
    }

    /** The search of zend_mm_alloc_pages: the first chunk of the ring with room and its best-fitting free run. */
    method FindRoom(count: nat) returns (i: nat, page: nat, steps: nat)
      requires Steady() && 1 <= count < PAGES
      modifies `chunks, Repr
      ensures Steady() && TailsMoved(old(State()), State()) && i <= |ring|
      ensures i == |ring| ==> steps == i - 1 && forall k | 0 <= k < |ring| :: NoRoomAt(old(State()), k, count)
      ensures i < |ring| ==>
                && ring[i] in chunks && WellSized(chunks[ring[i]]) && steps == i
                && 1 <= page <= chunks[ring[i]].freeTail && FreeRange(chunks[ring[i]], page, count)
      ensures i < |ring| ==>
                && FitsIn(old(State()), i, count, PageAddr(ring[i], page)) && PagesAtHand(old(State()), count)
                && FirstRoom(old(State()), i, count) && forall k | 0 <= k < |ring| :: FirstRoom(old(State()), k, count) ==> k == i
    {
      hide Threads, Linked, Core, Quiet, ChunkState.Inv, Empty, RealOk, NoRoomIn, NoRoomAt, FirstRoom, FitsIn;
      hide FreeRange;
      hide Steady, TailsMoved, PagesAtHand;
      SteadyFacts();
      ghost var h := State();
      TailsRefl(h);
      i, page, steps := 0, 0, 0;
      while i < |ring|
        invariant i <= |ring| && steps == (if i < |ring| then i else i - 1) && Steady() && TailsMoved(h, State())
        invariant forall k | 0 <= k < i :: NoRoomAt(h, k, count)
        modifies `chunks, Repr
      {
        SteadyFacts();
        ghost var g := State();
        var base := ring[i];
        HeapChunk(g, base);
        var found := FindIn(base, count);
        TailMoved(h, g, State(), base);
        TailsSame(h, State());
        if found > 0 {
          FoundIn(h, State(), i, found, count);
          page := found;
          return;
        }
        NoRoomStill(h, State(), i, count);
        i := i + 1;
        if i < |ring| {
          steps := steps + 1;
        }
      }
    }

    /** zend_mm_alloc_pages.  The first chunk of the ring with room gives its best-fitting free run;
        only when no chunk has room is another one brought in. */
    method AllocPages(count: nat) returns (r: Outcome)
      requires Steady() && 1 <= count < PAGES
      modifies `ring, `cached, `headers, `chunks, `chunksCount, `cachedCount, `realSize, `lastDeleteBoundary, `lastDeleteCount
      modifies `free, `freeSlot, `mem, `os, `realPeak, `peakChunks, `live, `Repr, Repr
      ensures !r.Exit? ==> Steady() && Repr >= old(Repr) && fresh(Repr - old(Repr)) && BlocksSame(old(live), old(mem), mem)
      ensures r.Got? ==> PagesGiven(old(State()), State(), r.ptr, count)
      ensures (r.Null? ==> ListsKept(old(State()), State())) && (!r.Got? ==> realSize <= old(realSize))
      ensures forall i | 0 <= i < |old(ring)| :: FirstRoom(old(State()), i, count) ==>
                r.Got? && FitsIn(old(State()), i, count, r.ptr) && peakChunks == old(peakChunks)
                && ring == if i > 2 && count < 8 then HeapOps.MoveToFrontRing(old(ring), i) else old(ring)
      ensures PagesAtHand(old(State()), count) ==> r.Got? && realSize == old(realSize) && os == old(os)
      ensures !PagesAtHand(old(State()), count) && old(realSize) + CHUNK_SIZE <= limit && old(Grants(CHUNK_SIZE)) ==>
                r.Got? && realSize == old(realSize) + CHUNK_SIZE
      ensures Stopped(r, CHUNK_SIZE, old(LimitsOk())) && (old(Grants(CHUNK_SIZE)) ==> r != Exit(OutOfMemory))
      ensures !r.Exit? ==> realSize <= old(realSize) + CHUNK_SIZE && |os| + 2 >= |old(os)|
      ensures !r.Exit? && old(LimitsOk()) ==> LimitsOk()
      ensures !r.Exit? ==> realPeak == Max(old(realPeak), realSize)
      ensures r.Got? && (forall i | 0 <= i < |old(ring)| :: !FirstRoom(old(State()), i, count)) ==>
                && peakChunks == Max(old(peakChunks), chunksCount) && |ring| >= 2 && ring[0] == old(ring)[0]
                && r.ptr == PageAddr(ring[if |old(ring)| > 3 && count < 8 then 1 else |ring| - 1], 1)
                && (old(cached) != [] ==> r == Got(PageAddr(old(cached)[0], 1)) && cached == old(cached)[1..])
    {
      hide BlocksSame, Threads, Linked, Core, Quiet, ChunkState.Inv, Empty, RealOk, NoRoomIn, NoRoomAt, FirstRoom;
      hide FitsIn, FreeRange;
      hide Steady, ListsKept, PagesGiven, TailsMoved, Exhausted, GrantedAmong, PagesAtHand, Grants, LimitsOk, WellSized;
      SteadyFacts();
      BlocksSameRefl(live, mem);
      ghost var h := State();
      var i, page, steps := FindRoom(count);
      ghost var g := State();
      TailsSame(h, g);
      if i < |ring| {
        var ptr := TakePages(i, page, count, steps);
        GivenAfterTails(h, g, State(), ptr, count);
        return Got(ptr);
      }
      NoFirstRoom(h, count);
      r := AllocInNewChunk(count, steps, h);
    }

    // ---- large and small blocks ----------------------------------------------------

    twostate predicate SettingsKept()
      reads `limit, `hardLimit, `hardLimitPercent, `fallible, `shadowKey, `reach
    {
      limit == old(limit) && hardLimit == old(hardLimit) && hardLimitPercent == old(hardLimitPercent)
      && fallible == old(fallible) && shadowKey == old(shadowKey) && reach == old(reach)
    }

    /** zend_mm_alloc_large */
    method AllocLarge(bytes: nat) returns (r: Outcome)
      requires Valid() && 1 <= bytes <= MAX_LARGE_SIZE
      modifies this, Repr
      ensures SettingsKept()
      ensures !r.Exit? ==> Valid() && Repr >= old(Repr) && fresh(Repr - old(Repr))
      ensures !r.Exit? ==> BlocksSame(old(live), old(mem), mem)
      ensures !r.Exit? ==> pending == old(pending) && realSize <= old(realSize) + CHUNK_SIZE && |os| + 2 >= |old(os)|
      ensures r.Got? ==> Gave(old(State()), State(), r.ptr, Large(PagesFor(bytes)))
      ensures r.Got? ==> PagesGiven(old(State()), State(), r.ptr, PagesFor(bytes))
      ensures (r.Null? ==> ListsKept(old(State()), State())) && (!r.Got? ==> realSize <= old(realSize))
      ensures forall i | 0 <= i < |old(ring)| :: FirstRoom(old(State()), i, PagesFor(bytes)) ==>
                r.Got? && FitsIn(old(State()), i, PagesFor(bytes), r.ptr)
                && ring == if i > 2 && PagesFor(bytes) < 8 then HeapOps.MoveToFrontRing(old(ring), i) else old(ring)
      ensures PagesAtHand(old(State()), PagesFor(bytes)) ==> r.Got? && realSize == old(realSize) && os == old(os)
      ensures !PagesAtHand(old(State()), PagesFor(bytes)) && old(realSize) + CHUNK_SIZE <= old(limit) && old(Grants(CHUNK_SIZE)) ==>
                r.Got? && realSize == old(realSize) + CHUNK_SIZE
      ensures Stopped(r, CHUNK_SIZE, old(LimitsOk())) && (old(Grants(CHUNK_SIZE)) ==> r != Exit(OutOfMemory))
      ensures !r.Exit? && old(LimitsOk()) ==> LimitsOk()
      ensures !r.Exit? ==> realPeak == Max(old(realPeak), realSize)
      ensures r.Got? ==> size == old(size) + PAGE_SIZE * PagesFor(bytes) && peak == Max(old(peak), size)
      ensures r.Null? ==> size == old(size) && peak == old(peak)
    {
      hide BlocksSame, Steady, Threads, Linked, Core, PagesGiven, ListsKept, SumLive, LimitsOk, Gave, PagesAtHand;
      hide Exhausted, GrantedAmong, FirstRoom, FitsIn;
      hide Quiet, RealOk, Stopped, Grants;
      ghost var h := State();
      SteadyFacts();
      var pages := PagesFor(bytes);
      r := AllocPages(pages);
      if r.Got? {
        GivenGave(h, State(), r.ptr, pages);
        SumLiveAdd(h.live, r.ptr, Large(pages));
        CountSize(pages * PAGE_SIZE);
      } else if r.Null? {
        KeptLive(h, State());
      }
    }

    /** size grows, and the peak with it. */
    method AddSize(n: int)
      modifies `size, `peak
      ensures size == old(size) + n && peak == Max(old(peak), size)
    {
      size := size + n;
      if peak < size {
        peak := size;
      }
    }

    /** The heap hands out n more bytes. */
    method CountSize(n: nat)
      requires Steady() && size + n == SumLive(live) && size <= peak
      modifies `size, `peak
      ensures Valid() && size == old(size) + n && peak == Max(old(peak), size)
    {
      hide Steady, SumLive;
      SteadyFacts();
      AddSize(n);
    }

    /** zend_mm_set_next_free_slot: the link at the start of a free slot and its shadow at the end. */
    method SetNextFreeSlot(slot: nat, b: Bin, next: nat)
      requires b >= 1
      modifies `mem
      ensures SameOutside(old(mem), mem, slot, BinSize(b)) && LinkAt(mem, slot, b, next, shadowKey)
    {
      hide LinkBytes, ShadowBytes, BinSize, LinkAt, SameOutside;
      BinFacts(b);
      WrittenLink(mem, slot, b, next, shadowKey);
      mem := Write(mem, slot, LinkBytes(next));
      mem := Write(mem, slot + BinSize(b) - 8, ShadowBytes(next, shadowKey));
    }

    /** Links the slots of a new run behind its first one into a list. */
    method LinkSlots(ptr: nat, b: Bin) returns (first: nat)
      requires b >= 1 && 0 < ptr <= ADDRESS_END - PAGE_SIZE * BinPages(b)
      modifies `mem
      ensures Thread(HeapOps.NewSlots(ptr, b), first, b, mem, shadowKey)
      ensures SameOutside(old(mem), mem, ptr, PAGE_SIZE * BinPages(b))
    {
      hide BinSize, BinPages, BinElements, LinkBytes, ShadowBytes, HeapOps.SlotAddr, LinkAt, SameOutside;
      hide HeapOps.NewSlots;
      BinFacts(b);
      LastSlot(ptr, b);
      SlotOfRun(ptr, b, 0);
      SlotOfRun(ptr, b, 1);
      SameOutsideRefl(mem, ptr, PAGE_SIZE * BinPages(b));
      var end := ptr + BinSize(b) * (BinElements(b) - 1);
      var p := ptr + BinSize(b);
      first := p;
      ghost var k := 1;
      while p != end
        invariant 1 <= k < BinElements(b) && p == HeapOps.SlotAddr(ptr, b, k)
        invariant LinkedUpTo(mem, ptr, b, k, shadowKey)
        invariant SameOutside(old(mem), mem, ptr, PAGE_SIZE * BinPages(b))
        decreases BinElements(b) - k
      {
        SlotOfRun(ptr, b, k);
        ghost var m := mem;
        SetNextFreeSlot(p, b, p + BinSize(b));
        LinkedMore(m, mem, ptr, b, k, shadowKey);
        SameOutsideMore(old(mem), m, mem, ptr, PAGE_SIZE * BinPages(b), p, BinSize(b));
        p := p + BinSize(b);
        k := k + 1;
      }
      SlotOfRun(ptr, b, k);
      // terminate list using NULL
      ghost var m := mem;
      WrittenEnd(mem, p, b, shadowKey);
      mem := Write(mem, p, LinkBytes(0));
      SameOutsideMore(old(mem), m, mem, ptr, PAGE_SIZE * BinPages(b), p, BinSize(b));
      LinkedAll(m, mem, ptr, b, shadowKey);
    }

    /** The free list of the bin is the slots of the new run at ptr but the first. */
    method ThreadSlots(ptr: nat, b: Bin, ghost g: HeapState.Heap)
      requires Threads() && b >= 1 && Core(g) && |g.free| == BINS && free == g.free && Has(g.live, ptr, Large(BinPages(b)))
      modifies `free, `freeSlot, `mem
      ensures Threads() && free == old(free)[b := HeapOps.NewSlots(ptr, b)]
      ensures SameOutside(old(mem), mem, ptr, PAGE_SIZE * BinPages(b))
    {
      hide Core, LinkAt, Thread, BinPages, SlotsSame, Threaded, SameOutside, HeapOps.NewSlots;
      ListAt(b, 0);
      BlockAddress(g, ptr);
      ghost var m, heads := mem, freeSlot;
      var first := LinkSlots(ptr, b);
      BlockWritten(g, ptr, PAGE_SIZE * BinPages(b), m, mem);
      ThreadedStays(free, freeSlot, m, mem, shadowKey);
      freeSlot := freeSlot[b := first];
      free := free[b := HeapOps.NewSlots(ptr, b)];
      ThreadedSet(g.free, heads, b, mem, shadowKey, HeapOps.NewSlots(ptr, b), first);
    }

    /** The rest of zend_mm_alloc_small_slow: fresh pages become a small run. */
    method SplitPages(ptr: nat, b: Bin, ghost h: HeapState.Heap)
      requires Steady() && b >= 1 && PagesGiven(h, State(), ptr, BinPages(b)) && h.free[b] == []
      requires size == SumLive(h.live) + BinSize(b) && size <= peak
      modifies `chunks, `free, `freeSlot, `live, `mem, Repr
      ensures Valid() && Gave(h, State(), ptr, Small(b)) && BlocksSame(h.live, old(mem), mem)
      ensures |free| == BINS && free[b] == HeapOps.NewSlots(ptr, b)
    {
      hide Threads, Linked, Core, Quiet, BinSize, BinPages, BinElements, HeapOps.NewSlots, SumLive, PagesGiven;
      hide ChunkBase, PageOf;
      hide HeapOps.SplitRun, Gave, BlocksSame;
      ghost var g := State();
      ChunkFacts();
      GivenPages(h, g, ptr, b);
      var base, page := ChunkBase(ptr), PageOf(ptr);
      HeaderFacts(base);
      HeapOps.SplitRunCore(g, base, page, b);
      MarkSmallPages(base, page, b);
      ThreadSlots(ptr, b, g);
      SumLiveAdd(h.live, ptr, Small(b));
      OutsideKeepsBlocks(g, ptr, old(mem), mem, PAGE_SIZE * BinPages(b));
      live := live[ptr := Small(b)];
      SplitIs(h, g, State(), ptr, b, base, page);
      assert Linked() && Core(State()) && Quiet(State()) && RealOk() && Threads();
    }

    /** The pages for a new run of the bin. */
    method RunPages(b: Bin) returns (r: Outcome)
      requires Steady()
      modifies `ring, `cached, `headers, `chunks, `chunksCount, `cachedCount, `realSize, `lastDeleteBoundary, `lastDeleteCount
      modifies `free, `freeSlot, `mem, `os, `realPeak, `peakChunks, `live, `Repr, Repr
      ensures !r.Exit? ==> Steady() && Repr >= old(Repr) && fresh(Repr - old(Repr)) && BlocksSame(old(live), old(mem), mem)
      ensures r.Got? ==> PagesGiven(old(State()), State(), r.ptr, BinPages(b))
      ensures (r.Null? ==> ListsKept(old(State()), State())) && (!r.Got? ==> realSize <= old(realSize))
      ensures PagesAtHand(old(State()), BinPages(b)) ==> r.Got? && realSize == old(realSize) && os == old(os)
      ensures !PagesAtHand(old(State()), BinPages(b)) && old(realSize) + CHUNK_SIZE <= limit && old(Grants(CHUNK_SIZE)) ==>
                r.Got? && realSize == old(realSize) + CHUNK_SIZE
      ensures Stopped(r, CHUNK_SIZE, old(LimitsOk())) && (old(Grants(CHUNK_SIZE)) ==> r != Exit(OutOfMemory))
      ensures !r.Exit? ==> realSize <= old(realSize) + CHUNK_SIZE && |os| + 2 >= |old(os)| && realPeak == Max(old(realPeak), realSize)
      ensures !r.Exit? && old(LimitsOk()) ==> LimitsOk()
    {
      hide Steady, BlocksSame, PagesGiven, ListsKept, BinSize, BinPages, BinElements, PagesAtHand, Exhausted, GrantedAmong;
      hide LimitsOk, Grants, FirstRoom, FitsIn, HeapOps.MoveToFrontRing, Stopped;
      BinFacts(b);
      r := AllocPages(BinPages(b));
    }

    /** zend_mm_alloc_small_slow; the caller has already counted the block in size. */
    method AllocSmallSlow(b: Bin) returns (r: Outcome)
      requires Steady() && b >= 1 && free[b] == [] && size == SumLive(live) + BinSize(b) && size <= peak
      modifies this, Repr
      ensures SettingsKept()
      ensures r.Got? ==> |free| == BINS && free[b] == HeapOps.NewSlots(r.ptr, b)
      ensures !r.Exit? ==> Valid() && Repr >= old(Repr) && fresh(Repr - old(Repr))
      ensures !r.Exit? ==> BlocksSame(old(live), old(mem), mem)
      ensures r.Got? ==> Gave(old(State()), State(), r.ptr, Small(b))
      ensures (r.Null? ==> ListsKept(old(State()), State())) && (!r.Got? ==> realSize <= old(realSize))
      ensures PagesAtHand(old(State()), BinPages(b)) ==> r.Got? && realSize == old(realSize) && os == old(os)
      ensures !PagesAtHand(old(State()), BinPages(b)) && old(realSize) + CHUNK_SIZE <= old(limit) && old(Grants(CHUNK_SIZE)) ==>
                r.Got? && realSize == old(realSize) + CHUNK_SIZE
      ensures Stopped(r, CHUNK_SIZE, old(LimitsOk())) && (old(Grants(CHUNK_SIZE)) ==> r != Exit(OutOfMemory))
      ensures !r.Exit? && old(LimitsOk()) ==> LimitsOk()
      ensures !r.Exit? ==> realPeak == Max(old(realPeak), realSize)
      ensures !r.Exit? ==> peak == old(peak) && size == if r.Got? then old(size) else old(size) - BinSize(b)
      ensures !r.Exit? ==> pending == old(pending) && realSize <= old(realSize) + CHUNK_SIZE && |os| + 2 >= |old(os)|
    {
      hide Steady, Threads, Linked, Core, PagesGiven, ListsKept, SumLive, BinSize, BinPages, BinElements, PagesAtHand;
      hide Exhausted, GrantedAmong;
      hide Gave, Quiet, RealOk, LimitsOk, Grants, FirstRoom, FitsIn, HeapOps.MoveToFrontRing;
      hide HeapOps.NewSlots;
      ghost var h := State();
      SteadyFacts();
      BinFacts(b);
      r := RunPages(b);
      if r.Null? {
        KeptLive(h, State());
        size := size - BinSize(b);
      } else if r.Got? {
        SplitPages(r.ptr, b, h);
      }
    }

    /** The first slot of the free list of bin b is taken off. */
    method PopSlot(b: Bin) returns (p: nat)
      requires Threads() && |free| == BINS && free[b] != []
      modifies `free, `freeSlot
      ensures Threads() && p == old(free)[b][0] && free == old(free)[b := old(free)[b][1..]]
    {
      hide LinkAt, Thread;
      ListAt(b, 0);
      ghost var list := free[b];
      p := freeSlot[b];
      var next := GetNextFreeSlot(p, b, Next(list, 0));
      Popped(list, p, b, mem, shadowKey);
      freeSlot := freeSlot[b := next];
      free := free[b := list[1..]];
      assert forall y: Bin | y != b :: Thread(old(free)[y], old(freeSlot)[y], y, mem, shadowKey);
    }

    /** The slot goes to the head of the free list of bin b. */
    method PushSlot(slot: nat, b: Bin, ghost h: HeapState.Heap)
      requires Threads() && b >= 1 && Core(h) && |h.free| == BINS && free == h.free && Has(h.live, slot, Small(b))
      requires 0 < slot < ADDRESS_END
      modifies `free, `freeSlot, `mem
      ensures Threads() && free == old(free)[b := [slot] + old(free)[b]]
      ensures SameOutside(old(mem), mem, slot, BinSize(b))
    {
      hide Core, LinkAt, Thread, BinSize, SlotsSame, Threaded, SameOutside;
      ListAt(b, 0);
      ghost var m, heads := mem, freeSlot;
      SetNextFreeSlot(slot, b, freeSlot[b]);
      BlockWritten(h, slot, BinSize(b), m, mem);
      ThreadedStays(free, freeSlot, m, mem, shadowKey);
      freeSlot := freeSlot[b := slot];
      free := free[b := [slot] + free[b]];
      ThreadedPush(h.free, heads, b, mem, shadowKey, slot);
    }

    /** The part of zend_mm_alloc_small that takes the first free slot. */
    method AllocFromList(b: Bin) returns (p: nat)
      requires Steady() && |free| == BINS && free[b] != [] && size == SumLive(live) + BinSize(b) && size <= peak
      modifies `free, `freeSlot, `live
      ensures Valid() && Gave(old(State()), State(), p, Small(b))
      ensures p == old(free)[b][0] && free == old(free)[b := old(free)[b][1..]]
    {
      hide Threads, Linked, Core, Quiet, SumLive, SumHuge, BinSize;
      ChunkFacts();
      ghost var h := State();
      HeapOps.TakeSlotCore(h, b);
      p := PopSlot(b);
      SumLiveAdd(live, p, Small(b));
      live := live[p := Small(b)];
    }

    /** zend_mm_alloc_small */
    method AllocSmall(b: Bin) returns (r: Outcome)
      requires Valid() && b >= 1
      modifies this, Repr
      ensures SettingsKept()
      ensures !r.Exit? ==> Valid() && Repr >= old(Repr) && fresh(Repr - old(Repr))
      ensures !r.Exit? ==> BlocksSame(old(live), old(mem), mem)
      ensures r.Got? ==> Gave(old(State()), State(), r.ptr, Small(b))
      ensures (r.Null? ==> ListsKept(old(State()), State())) && (!r.Got? ==> realSize <= old(realSize))
      ensures |old(free)| == BINS
      ensures old(free)[b] != [] ==> r == Got(old(free)[b][0]) && free == old(free)[b := old(free)[b][1..]]
      ensures r.Got? && old(free)[b] == [] ==> |free| == BINS && free[b] == HeapOps.NewSlots(r.ptr, b)
      ensures SmallAtHand(old(State()), b) ==> r.Got? && realSize == old(realSize) && os == old(os)
      ensures !SmallAtHand(old(State()), b) && old(realSize) + CHUNK_SIZE <= old(limit) && old(Grants(CHUNK_SIZE)) ==>
                r.Got? && realSize == old(realSize) + CHUNK_SIZE
      ensures Stopped(r, CHUNK_SIZE, old(LimitsOk())) && (old(Grants(CHUNK_SIZE)) ==> r != Exit(OutOfMemory))
      ensures !r.Exit? && old(LimitsOk()) ==> LimitsOk()
      ensures !r.Exit? ==> realPeak == Max(old(realPeak), realSize)
      ensures !r.Exit? ==> peak == Max(old(peak), old(size) + BinSize(b)) && size == if r.Got? then old(size) + BinSize(b) else old(size)
      ensures !r.Exit? ==> pending == old(pending) && realSize <= old(realSize) + CHUNK_SIZE && |os| + 2 >= |old(os)|
    {
      hide BlocksSame, Threads, Linked, Core, Quiet, RealOk, SumLive, BinSize, BinPages, ListsKept, PagesAtHand;
      hide Exhausted, GrantedAmong;
      hide HeapOps.NewSlots;
      ghost var h := State();
      SteadyFacts();
      AddSize(BinSize(b));
      ListAt(b, 0);
      if freeSlot[b] != 0 {
        BlocksSameRefl(live, mem);
        var p := AllocFromList(b);
        r := Got(p);
      } else {
        r := AllocSmallSlow(b);
      }
    }

    /** The invariant while `due` bytes of a huge block already unlinked are still counted. */
    ghost predicate ValidBut(due: int)
      reads this, Repr
    {
      && Linked() && Core(State()) && Quiet(State()) && Threads()
      && RealOkBut(-due) && size == SumLive(live) + due && size <= peak
    }

    lemma ValidIs()
      ensures ValidBut(0) <==> Valid()
    {
      hide Threads, Linked, Core, Quiet, SumLive, SumHuge;
    }

    /** zend_mm_free_small */
    method FreeSmall(ptr: nat, b: Bin, ghost due: int)
      requires ValidBut(due) && b >= 1 && Has(live, ptr, Small(b)) && !IsNode(State(), ptr)
      modifies `size, `free, `freeSlot, `live, `mem
      ensures |old(free)| == |freeSlot| == BINS && free == old(free)[b := [ptr] + old(free)[b]] && freeSlot[b] == ptr
      ensures ValidBut(due) && Took(old(State()), State(), ptr) && BlocksSame(live, old(mem), mem)
    {
      hide Threads, Linked, Core, Quiet, RealOkBut, SumLive, BinSize;
      ghost var h := State();
      ChunkFacts();
      CoreFree(h);
      HeapOps.GiveSlotCore(h, ptr, b);
      Freed(h, ptr);
      size := size - BinSize(b);
      BlockAddress(h, ptr);
      BinFacts(b);
      PushSlot(ptr, b, h);
      OutsideKeepsBlocks(h, ptr, old(mem), mem, BinSize(b));
      live := live - {ptr};
      ListAt(b, 0);
    }

    /** Gives the pages of a large run back. */
    method DropRunPages(base: nat, page: nat, n: nat)
      requires Steady() && base in ring && base in chunks && LargeRunOf(chunks[base], page, n)
      modifies `chunks, `live, Repr
      ensures Steady() && base in chunks && Took(old(State()), State(), PageAddr(base, page))
      ensures old(live)[PageAddr(base, page)] == Large(n)
      ensures ring == old(ring) && chunks[base].freePages == old(chunks[base]).freePages + n
    {
      hide Threads, Linked, Core, Quiet, LargeRunOf, ChunkState.Inv;
      ghost var h := State();
      ChunkFacts();
      HeapChunk(h, base);
      HeaderFacts(base);
      HeapOps.LiveLarge(h, base, page, n);
      RunLarge(chunks[base], page, n);
      HeapOps.DropRunCore(h, base, page, n);
      FreeRunPages(base, page, n);
      live := live - {PageAddr(base, page)};
      assert State() == HeapOps.DropRun(h, base, page, n);
    }

    /** The chunk is deleted when it is empty and not the main one. */
    method DeleteIfEmpty(base: nat)
      requires Steady() && base in ring && base in chunks
      modifies `ring, `cached, `headers, `chunks, `chunksCount, `cachedCount, `realSize, `lastDeleteBoundary, `lastDeleteCount
      ensures Steady() && realSize <= old(realSize) && |old(ring)| >= 1
      ensures base !in ring <==> base != old(ring)[0] && old(chunks[base]).freePages == PAGES - 1
    {
      hide Threads, Linked, Core, Quiet, SumHuge, ChunkState.Inv, Empty, RingOk, ChunksOk, HeapOps.DeleteChunk;
      ghost var h := State();
      ChunkFacts();
      HeapChunk(h, base);
      HeaderFacts(base);
      CoreRingChunks(h);
      if base != ring[0] && headers[base].freePages == PAGES - 1 {
        AllFree(chunks[base]);
        var i := IndexOf(ring, base);
        ghost var how := DeleteChunk(i);
        DeleteCore(h, i, how);
        LeavesRing(h, i, how);
      }
    }

    /** zend_mm_free_large */
    method FreeLarge(base: nat, page: nat, n: nat)
      requires Valid() && base in ring && base in chunks && LargeRunOf(chunks[base], page, n)
      modifies `ring, `cached, `headers, `chunks, `chunksCount, `cachedCount, `realSize, `lastDeleteBoundary, `lastDeleteCount
      modifies `size, `live, Repr
      ensures |old(ring)| >= 1 && (base !in ring <==> base != old(ring)[0] && old(chunks[base]).freePages + n == PAGES - 1)
      ensures Valid() && Took(old(State()), State(), PageAddr(base, page)) && realSize <= old(realSize)
    {
      hide Steady, Threads, Linked, Core, SumLive, LargeRunOf;
      ghost var h := State();
      SteadyFacts();
      size := size - n * PAGE_SIZE;
      DropRunPages(base, page, n);
      Freed(h, PageAddr(base, page));
      SteadyFacts();
      DeleteIfEmpty(base);
    }

    // ---- huge blocks -------------------------------------------------------------

    lemma SpacedNow()
      requires Linked()
      ensures Spaced(reach, os, headers.Keys, huge, pending)
    {
      hide Header.Valid, Header.State;
    }

    /** Mapped regions are remembered until they are recorded. */
    method SetPending(regions: seq<(nat, nat)>)
      requires Linked() && forall b | b in chunks :: ClearOf(regions, b, CHUNK_SIZE)
      requires forall k | 0 <= k < |regions| :: Far(regions[k].0)
      modifies `pending
      ensures Linked() && pending == regions
    {
      hide Threads, Linked, FarFrom, Answers;
      ChunkFacts();
      SpacedNow();
      pending := regions;
      StillLinkedSpaced();
    }

    /** zend_mm_add_huge_block: the node is a small block of its own. */
    method AddHugeBlock(ptr: nat, n: nat) returns (r: Outcome)
      requires Valid() && HeapOps.FreshRegion(State(), ptr, n) && ptr !in live && Far(ptr)
      requires forall b | b in chunks :: ClearOf([(ptr, n)], b, CHUNK_SIZE)
      requires pending == []
      modifies this, Repr
      ensures SettingsKept()
      ensures r.Got? || r.Exit?
      ensures r.Got? ==> Linked() && Core(State()) && Quiet(State()) && RealOkBut(n) && Threads() && pending == []
      ensures r.Got? ==> Repr >= old(Repr) && fresh(Repr - old(Repr))
      ensures r.Got? ==> BlocksSame(old(live), old(mem), mem) && HugeAdded(old(State()), State(), r.ptr, ptr, n)
      ensures r.Got? ==> size == SumLive(live) - n && size <= peak && realSize <= old(realSize) + CHUNK_SIZE
      ensures r.Got? ==> |os| + 2 >= |old(os)|
      ensures |old(free)| == BINS
      ensures r.Got? ==> realPeak == Max(old(realPeak), realSize)
      ensures r.Got? ==> size == old(size) + BinSize(NODE_BIN) && peak == Max(old(peak), size)
      ensures SmallAtHand(old(State()), NODE_BIN) ==> r.Got? && realSize == old(realSize)
      ensures !SmallAtHand(old(State()), NODE_BIN) && old(realSize) + CHUNK_SIZE <= old(limit) && old(NodeGranted(ptr, n)) ==>
                r.Got? && realSize == old(realSize) + CHUNK_SIZE
      ensures r.Exit? ==> r.why != Overflow && (old(NodeGranted(ptr, n)) ==> r.why != OutOfMemory)
      ensures old(LimitsOk()) && old(realSize) + CHUNK_SIZE <= old(hardLimit) ==> r != Exit(OverLimit)
    {
      hide Threads, Linked, Core, Quiet, RealOk, RealOkBut, SumLive, SumHuge, BinSize, HeapOps.FreshRegion, HugeAdded;
      hide BlocksSame, SmallAtHand, GrantedAmong;
      ghost var h := State();
      ChunkFacts();
      SetPending([(ptr, n)]);
      r := AllocNode();
      if r.Got? {
        RecordHuge(h, r.ptr, ptr, n);
      }
    }

    /** The OS grants a chunk for the node of the block just mapped at ptr. */
    ghost predicate NodeGranted(ptr: nat, n: nat)
      reads `os, `headers, `huge
    {
      GrantedAmong(os, headers.Keys, huge, [(ptr, n)], CHUNK_SIZE)
    }

    /** The small block for a node of the huge list, allocated as on an infallible heap. */
    method AllocNode() returns (r: Outcome)
      requires Valid()
      modifies this, Repr
      ensures SettingsKept()
      ensures r.Got? || r.Exit?
      ensures r.Got? ==> Valid() && Repr >= old(Repr) && fresh(Repr - old(Repr)) && pending == old(pending)
      ensures r.Got? ==> BlocksSame(old(live), old(mem), mem) && Gave(old(State()), State(), r.ptr, Small(NODE_BIN))
      ensures r.Got? ==> realSize <= old(realSize) + CHUNK_SIZE && |os| + 2 >= |old(os)|
      ensures |old(free)| == BINS
      ensures r.Got? ==> realPeak == Max(old(realPeak), realSize)
      ensures r.Got? ==> size == old(size) + BinSize(NODE_BIN) && peak == Max(old(peak), size)
      ensures SmallAtHand(old(State()), NODE_BIN) ==> r.Got? && realSize == old(realSize)
      ensures !SmallAtHand(old(State()), NODE_BIN) && old(realSize) + CHUNK_SIZE <= old(limit) && old(Grants(CHUNK_SIZE)) ==>
                r.Got? && realSize == old(realSize) + CHUNK_SIZE
      ensures r.Exit? ==> r.why != Overflow && (old(Grants(CHUNK_SIZE)) ==> r.why != OutOfMemory)
      ensures old(LimitsOk()) && old(realSize) + CHUNK_SIZE <= old(hardLimit) ==> r != Exit(OverLimit)
    {
      hide Threads, Linked, Core, Quiet, RealOk, SumLive, BlocksSame, Gave, SmallAtHand, Exhausted, GrantedAmong;
      ChunkFacts();
      var wasFallible := fallible;
      fallible := false;
      r := AllocSmall(SizeToBin(24));
      fallible := wasFallible;
    }

    lemma RegionStillFresh(h: HeapState.Heap, ptr: nat, n: nat)
      requires Linked() && pending == [(ptr, n)] && HeapOps.FreshRegion(h, ptr, n) && huge == h.huge
      ensures HeapOps.FreshRegion(State(), ptr, n)
    {
      forall b | b in chunks ensures Apart(b, CHUNK_SIZE, ptr, n) {
        assert ClearOf(pending, b, CHUNK_SIZE) && pending[0] == (ptr, n);
      }
      StillFresh(h, State(), ptr, n);
    }

    method SetHuge(nodes: seq<HugeNode>)
      requires Linked() && Spaced(reach, os, headers.Keys, nodes, pending)
      modifies `huge
      ensures Linked() && huge == nodes
    {
      hide Linked, Spaced;
      ChunkFacts();
      huge := nodes;
      StillLinkedSpaced();
    }

    /** Huge blocks that stay where they are, or go, are still far from the answers. */
    lemma SpacedLess(nodes: seq<HugeNode>)
      requires Linked() && forall j | 0 <= j < |nodes| :: exists i | 0 <= i < |huge| :: huge[i].ptr == nodes[j].ptr
      ensures Spaced(reach, os, headers.Keys, nodes, pending)
    {
      hide Header.Valid, Header.State, FarFrom, Answers;
    }

    lemma SpacedWithout(j: nat)
      requires Linked() && j < |huge|
      ensures Spaced(reach, os, headers.Keys, huge[..j] + huge[j + 1..], pending)
    {
      hide Header.Valid, Header.State, FarFrom, Answers;
      var nodes := huge[..j] + huge[j + 1..];
      assert forall i | 0 <= i < |nodes| :: nodes[i] == huge[if i < j then i else i + 1];
    }

    lemma SpacedResized(j: nat, n: nat)
      requires Linked() && j < |huge|
      ensures Spaced(reach, os, headers.Keys, huge[j := huge[j].(size := n)], pending)
    {
      hide Linked, Spaced;
      var nodes := huge[j := huge[j].(size := n)];
      forall i | 0 <= i < |nodes| ensures exists k | 0 <= k < |huge| :: huge[k].ptr == nodes[i].ptr {
        assert huge[i].ptr == nodes[i].ptr;
      }
      SpacedLess(nodes);
    }

    lemma PendingFar(ptr: nat, n: nat)
      requires Linked() && pending == [(ptr, n)]
      ensures Far(ptr)
    {
      hide Header.Valid, Header.State, FarFrom;
      assert pending[0].0 == ptr;
    }

    lemma SpacedPlus(node: nat, ptr: nat, n: nat)
      requires Linked() && Far(ptr)
      ensures Spaced(reach, os, headers.Keys, [HugeNode(node, ptr, n)] + huge, pending)
    {
      hide Header.Valid, Header.State, FarFrom, Answers;
    }

    /** The region is no longer pending, but in the list. */
    method EnterHuge(node: nat, ptr: nat, n: nat)
      requires Linked() && pending == [(ptr, n)]
      modifies `pending, `huge
      ensures Linked() && pending == [] && huge == [HugeNode(node, ptr, n)] + old(huge)
    {
      hide Linked, Spaced;
      PendingFar(ptr, n);
      SetPending([]);
      SpacedPlus(node, ptr, n);
      SetHuge([HugeNode(node, ptr, n)] + huge);
    }

    /** The new node enters the huge list. */
    method RecordHuge(ghost h: HeapState.Heap, node: nat, ptr: nat, n: nat)
      requires Valid() && Core(h) && HeapOps.FreshRegion(h, ptr, n) && Gave(h, State(), node, Small(NODE_BIN)) && pending == [(ptr, n)]
      modifies `pending, `huge, `live
      ensures Linked() && Core(State()) && Quiet(State()) && RealOkBut(n) && Threads() && pending == []
      ensures HugeAdded(h, State(), node, ptr, n) && size == SumLive(live) - n
    {
      hide Threads, Linked, Core, Quiet, SumLive, SumHuge, BinSize, HeapOps.FreshRegion;
      ChunkFacts();
      ghost var g := State();
      RegionStillFresh(h, ptr, n);
      NodeNew(h, node);
      HeapOps.AddHugeCore(g, node, ptr, n);
      GaveNode(h, g, HeapOps.AddHuge(g, node, ptr, n), node, ptr, n);
      SumHugeAdded(h, HeapOps.AddHuge(g, node, ptr, n), node, ptr, n);
      SumLiveAdd(h.live, node, Small(NODE_BIN));
      EnterHuge(node, ptr, n);
      live := live[ptr := Huge(n)];
      SumHugeAdd(h.huge, HugeNode(node, ptr, n));
    }

    /** The first part of zend_mm_alloc_huge: the limit check and the mapping of the region. */
    method MapHuge(newSize: nat) returns (r: Outcome)
      requires Steady() && 1 <= newSize
      modifies `ring, `cached, `headers, `chunks, `chunksCount, `cachedCount, `realSize, `lastDeleteBoundary, `lastDeleteCount
      modifies `free, `freeSlot, `mem, `os, Repr
      ensures !r.Exit? ==> Steady() && realSize <= old(realSize) && ListsKept(old(State()), State())
      ensures !r.Exit? ==> BlocksSame(old(live), old(mem), mem)
      ensures r.Got? ==> HeapOps.FreshRegion(State(), r.ptr, newSize) && ClearOf(pending, r.ptr, newSize) && Far(r.ptr)
      ensures !r.Exit? ==> |os| + 2 >= |old(os)|
      ensures r.Got? && old(LimitsOk()) ==> realSize + newSize <= if fallible then limit else hardLimit
      ensures r.Null? && old(LimitsOk()) ==> LimitsOk()
      ensures old(realSize) + newSize <= limit && old(Grants(newSize)) ==>
                r == Got(old(os)[0].value) && State() == old(State()) && realSize == old(realSize) && os == old(os)[1..]
      ensures Stopped(r, newSize, old(LimitsOk())) && (old(Grants(newSize)) ==> r != Exit(OutOfMemory) && os == old(os)[if r.Got? then 1 else 0..])
      ensures headers.Keys <= old(headers.Keys) && (old(Grants(newSize)) && r.Got? ==> r.ptr == old(os)[0].value)
    {
      hide Threads, Linked, Core, Quiet, RealOk, HeapOps.FreshRegion, ListsKept, Collected, Steady, ClearOf;
      hide CountPages, BlocksSame, GrantedAmong;
      ghost var h := State();
      SteadyFacts();
      KeptRefl(h);
      BlocksSameRefl(live, mem);
      var ok, didGc, exit := CheckLimit(newSize);
      if exit {
        return Exit(OverLimit);
      }
      GcKeeps(h, State());
      if !ok {
        return Null;
      }
      SteadyFacts();
      ghost var g, m := State(), mem;
      StillGranted(os, old(headers.Keys), headers.Keys, huge, pending, newSize);
      KeptLive(h, g);
      var p := MapOrCollect(newSize);
      if p.None? {
        return Exit(OutOfMemory);
      }
      BlocksSameTrans(h.live, old(mem), m, mem);
      KeptTrans(h, g, State());
      r := Got(p.value);
    }

    /** The OS grants a huge block of n bytes and, if the node needs one, a chunk. */
    ghost predicate GrantsHuge(n: nat)
      requires |free| == BINS
      reads `os, `headers, `huge, `pending, `chunks, `ring, `cached, `free, `live
    {
      Grants(n) && (SmallAtHand(State(), NODE_BIN) || BothGranted(os, headers.Keys, huge, n))
    }

    /** A block of n bytes fits without a collection, and the OS grants it. */
    ghost predicate HugeFits(n: nat)
      requires |free| == BINS
      reads `os, `headers, `huge, `pending, `chunks, `ring, `cached, `free, `live, `realSize, `limit
    {
      realSize + n <= limit && GrantsHuge(n)
    }

    /** The same for a size already rounded up. */
    method AllocAligned(n: nat) returns (r: Outcome)
      requires Valid() && n >= CHUNK_SIZE && pending == []
      modifies this, Repr
      ensures SettingsKept()
      ensures !r.Exit? ==> Valid() && Repr >= old(Repr) && fresh(Repr - old(Repr)) && pending == []
      ensures !r.Exit? ==> BlocksSame(old(live), old(mem), mem)
      ensures r.Got? ==> HugeMade(old(State()), State(), r.ptr, n)
      ensures r.Null? ==> ListsKept(old(State()), State())
      ensures !r.Exit? ==> realSize <= old(realSize) + n + CHUNK_SIZE && |os| + 4 >= |old(os)|
      ensures r.Got? && old(LimitsOk()) ==> realSize <= (if fallible then limit else hardLimit) + CHUNK_SIZE
      ensures r.Null? && old(LimitsOk()) ==> LimitsOk()
      ensures !r.Exit? ==> realPeak == Max(old(realPeak), realSize)
      ensures r.Got? ==> size == old(size) + BinSize(NODE_BIN) + n && peak == Max(old(peak), size)
      ensures r.Null? ==> size == old(size) && peak == old(peak)
      ensures |old(free)| == BINS
      ensures old(HugeFits(n)) ==>
                r.Got? && realSize == old(realSize) + n + (if SmallAtHand(old(State()), NODE_BIN) then 0 else CHUNK_SIZE)
      ensures old(HugeFits(n) && LimitsOk()) ==>
                (LimitsOk() <==> SmallAtHand(old(State()), NODE_BIN) || old(realSize) + n + CHUNK_SIZE <= hardLimit)
      ensures Stopped(r, n, old(LimitsOk()))
      ensures old(BothGranted(os, headers.Keys, huge, n)) ==> r != Exit(OutOfMemory)
    {
      hide Steady, Threads, Linked, Core, Quiet, RealOk, RealOkBut, SumLive, SumHuge, HeapOps.FreshRegion, HugeAdded;
      hide HugeMade, BlocksSame, ListsKept, ClearOf, AlignedSize;
      hide SmallAtHand, GrantedAmong, Exhausted, BinSize;
      ghost var h := State();
      SteadyFacts();
      KeptRefl(h);
      BlocksSameRefl(live, mem);
      r := MapHuge(n);
      if !r.Exit? {
        KeptLive(h, State());
      }
      if r.Got? {
        ghost var g, m := State(), mem;
        StillGranted(os, old(headers.Keys), headers.Keys, huge, [(r.ptr, n)], CHUNK_SIZE);
        r := RegisterHuge(r.ptr, n);
        if r.Got? {
          HugeMadeKept(h, g, State(), r.ptr, n);
          BlocksSameTrans(h.live, old(mem), m, mem);
        }
      }
    }

    /** zend_mm_alloc_huge.  The limit is checked before the node of the list is allocated.  When the block fits
        without a collection and the OS grants it, real_size stays below the hard limit if and only if the node
        finds room or its chunk fits as well. */
    method AllocHuge(bytes: nat) returns (r: Outcome)
      requires Valid() && MAX_LARGE_SIZE < bytes <= SIZE_MAX && pending == []
      modifies this, Repr
      ensures SettingsKept()
      ensures !r.Exit? ==> Valid() && Repr >= old(Repr) && fresh(Repr - old(Repr)) && pending == []
      ensures !r.Exit? ==> BlocksSame(old(live), old(mem), mem)
      ensures r.Got? ==> AlignedSize(bytes) >= bytes
      ensures r.Got? ==> HugeMade(old(State()), State(), r.ptr, AlignedSize(bytes))
      ensures r.Null? ==> ListsKept(old(State()), State())
      ensures !r.Exit? ==> realSize <= old(realSize) + AlignedSize(bytes) + CHUNK_SIZE && |os| + 4 >= |old(os)|
      ensures r.Got? && old(LimitsOk()) ==> realSize <= (if fallible then limit else hardLimit) + CHUNK_SIZE
      ensures r.Null? && old(LimitsOk()) ==> LimitsOk()
      ensures !r.Exit? ==> realPeak == Max(old(realPeak), realSize)
      ensures r.Got? ==> size == old(size) + BinSize(NODE_BIN) + AlignedSize(bytes) && peak == Max(old(peak), size)
      ensures r.Null? ==> size == old(size) && peak == old(peak)
      ensures |old(free)| == BINS && (AlignedSize(bytes) < bytes ==> r == if old(fallible) then Null else Exit(Overflow))
      ensures AlignedSize(bytes) >= bytes && old(HugeFits(AlignedSize(bytes))) ==>
                r.Got? && realSize == old(realSize) + AlignedSize(bytes) + NodeBytes(old(State()), bytes)
      ensures AlignedSize(bytes) >= bytes && old(HugeFits(AlignedSize(bytes)) && LimitsOk()) ==>
                (LimitsOk() <==> SmallAtHand(old(State()), NODE_BIN) || old(realSize) + AlignedSize(bytes) + CHUNK_SIZE <= hardLimit)
      ensures AlignedSize(bytes) >= bytes ==> Stopped(r, AlignedSize(bytes), old(LimitsOk()))
      ensures AlignedSize(bytes) >= bytes && old(BothGranted(os, headers.Keys, huge, AlignedSize(bytes))) ==> r != Exit(OutOfMemory)
    {
      hide Valid, Core, BinSize, HugeMade, BlocksSame, ListsKept, AlignedSize, SmallAtHand, GrantedAmong, Exhausted;
      ghost var h := State();
      ValidFacts();
      KeptRefl(h);
      BlocksSameRefl(live, mem);
      var newSize := AlignedSize(bytes);
      AlignedSizeWraps(bytes);
      if newSize < bytes {
        return if fallible then Null else Exit(Overflow);
      }
      r := AllocAligned(newSize);
    }

    /** The second part: the region is entered in the list and counted. */
    method RegisterHuge(ptr: nat, n: nat) returns (r: Outcome)
      requires Valid() && HeapOps.FreshRegion(State(), ptr, n) && pending == [] && Far(ptr)
      modifies this, Repr
      ensures SettingsKept()
      ensures r == Got(ptr) || r.Exit?
      ensures r.Got? ==> Valid() && Repr >= old(Repr) && fresh(Repr - old(Repr)) && pending == []
      ensures r.Got? ==> BlocksSame(old(live), old(mem), mem) && HugeMade(old(State()), State(), ptr, n)
      ensures r.Got? ==> realSize <= old(realSize) + n + CHUNK_SIZE && |os| + 2 >= |old(os)|
      ensures |old(free)| == BINS
      ensures r.Got? ==> realPeak == Max(old(realPeak), realSize)
      ensures r.Got? ==> size == old(size) + BinSize(NODE_BIN) + n && peak == Max(old(peak), size)
      ensures SmallAtHand(old(State()), NODE_BIN) ==> r.Got? && realSize == old(realSize) + n
      ensures !SmallAtHand(old(State()), NODE_BIN) && old(realSize) + CHUNK_SIZE <= old(limit) && old(NodeGranted(ptr, n)) ==>
                r.Got? && realSize == old(realSize) + n + CHUNK_SIZE
      ensures r.Exit? ==> r.why != Overflow && (old(NodeGranted(ptr, n)) ==> r.why != OutOfMemory)
      ensures old(LimitsOk()) && old(realSize) + CHUNK_SIZE <= old(hardLimit) ==> r != Exit(OverLimit)
    {
      hide Steady, Threads, Linked, Core, Quiet, RealOk, RealOkBut, SumLive, SumHuge, HeapOps.FreshRegion, HugeAdded;
      hide HugeMade, BlocksSame, ClearOf;
      hide SmallAtHand, GrantedAmong;
      ghost var h := State();
      SteadyFacts();
      FreshIsClear(h, ptr, n);
      r := AddHugeBlock(ptr, n);
      if r.Got? {
        HugeAddedKept(h, h, State(), r.ptr, ptr, n);
        CountHuge(n);
        r := Got(ptr);
      }
    }

    /** The accounting of a new or resized huge block. */
    method CountHuge(newSize: int)
      requires Linked() && Core(State()) && Quiet(State()) && Threads()
      requires RealOkBut(newSize) && size == SumLive(live) - newSize && size <= peak
      modifies `realSize, `realPeak, `size, `peak
      ensures Valid() && realSize == old(realSize) + newSize && realPeak == Max(old(realPeak), realSize)
      ensures size == old(size) + newSize && peak == Max(old(peak), size)
    {
      hide SumLive, SumHuge, Threads, Linked, Core, Quiet;
      ChunkFacts();
      CountReal(newSize);
      AddSize(newSize);
    }

    /** Walks the huge list. */
    method FindHuge(ptr: nat) returns (j: nat)
      ensures j <= |huge| && (j < |huge| ==> huge[j].ptr == ptr)
      ensures forall k | 0 <= k < j :: huge[k].ptr != ptr
    {
      j := 0;
      while j < |huge| && huge[j].ptr != ptr
        invariant j <= |huge| && forall k | 0 <= k < j :: huge[k].ptr != ptr
      {
        j := j + 1;
      }
    }

    /** zend_mm_free_heap for an address inside a chunk: the page map tells how the block was made. */
    method FreeInChunk(ptr: nat, ghost due: nat)
      requires ValidBut(due) && ptr in live && !live[ptr].Huge? && !IsNode(State(), ptr)
      requires due > 0 ==> live[ptr].Small?
      modifies `ring, `cached, `headers, `chunks, `chunksCount, `cachedCount, `realSize, `lastDeleteBoundary, `lastDeleteCount
      modifies `size, `free, `freeSlot, `live, `mem, Repr
      ensures ValidBut(due) && Took(old(State()), State(), ptr) && BlocksSame(live, old(mem), mem)
      ensures realSize <= old(realSize)
    {
      hide Threads, Linked, Core, Quiet, RealOk, RealOkBut, SumLive, SumHuge, BlocksSame, ChunkBase, PageOf, IsNode;
      hide ChunkState.Inv, Took;
      ghost var h := State();
      ChunkFacts();
      BlockPage(h, ptr);
      BlocksSameRefl(live - {ptr}, mem);
      var base, page := ChunkBase(ptr), PageOf(ptr);
      HeaderFacts(base);
      var info := headers[base].pageMap[page];
      if info.IsSRun() {
        FreeSmall(ptr, info.bin, due);
      } else {
        ValidIs();
        FreeLarge(base, page, info.pages);
        TookLive(h, State(), ptr);
        ValidIs();
      }
    }

    /** zend_mm_del_huge_block: the entry is unlinked and its node freed. */
    method DelHugeBlock(ptr: nat) returns (n: nat)
      requires Valid() && ptr in live && live[ptr].Huge?
      modifies `ring, `cached, `headers, `chunks, `chunksCount, `cachedCount, `realSize, `lastDeleteBoundary, `lastDeleteCount
      modifies `size, `free, `freeSlot, `live, `mem, `huge, Repr
      ensures ValidBut(n) && Huge(n) == old(live[ptr]) && BlocksSame(live, old(mem), mem) && realSize <= old(realSize)
      ensures HugeGone(old(State()), State(), ptr)
    {
      hide Steady, Threads, Linked, Core, Quiet, RealOk, SumLive, SumHuge, BlocksSame, IsNode, HugeTaken;
      ghost var h := State();
      SteadyFacts();
      var j := FindHuge(ptr);
      HugeFound(h, ptr, j);
      n := huge[j].size;
      var node := huge[j].node;
      UnlinkHuge(j);
      ghost var g := State();
      FreeInChunk(node, n);
      TakenIs(h, g, State(), j);
    }

    /** The entry at list position j leaves the huge list. */
    method UnlinkHuge(j: nat)
      requires Valid() && j < |huge|
      modifies `huge, `live
      ensures ValidBut(old(huge)[j].size) && State() == HeapOps.RemoveHuge(old(State()), j)
      ensures Has(live, old(huge)[j].node, Small(NODE_BIN)) && !IsNode(State(), old(huge)[j].node)
    {
      hide Threads, Linked, Core, Quiet, SumLive, SumHuge;
      ghost var h := State();
      ChunkFacts();
      HeapOps.RemoveHugeCore(h, j);
      HeapOps.HugePtrIsHuge(h, j);
      Freed(h, huge[j].ptr);
      SumHugeAt(huge, j);
      live := live - {huge[j].ptr};
      SpacedWithout(j);
      SetHuge(huge[..j] + huge[j + 1..]);
      assert State() == HeapOps.RemoveHuge(h, j);
    }

    /** zend_mm_free_huge */
    method FreeHuge(ptr: nat)
      requires Valid() && ptr in live && live[ptr].Huge?
      modifies `ring, `cached, `headers, `chunks, `chunksCount, `cachedCount, `realSize, `lastDeleteBoundary, `lastDeleteCount
      modifies `size, `free, `freeSlot, `live, `mem, `huge, Repr
      ensures Valid() && BlocksSame(live, old(mem), mem) && realSize <= old(realSize)
      ensures HugeGone(old(State()), State(), ptr)
    {
      hide Steady, Threads, Linked, Core, Quiet, SumLive, SumHuge, BlocksSame, HugeGone;
      var n := DelHugeBlock(ptr);
      ChunkFacts();
      realSize := realSize - n;
      size := size - n;
      ValidIs();
    }

    /** zend_mm_free_heap.  Clients may pass NULL or any block they hold, and nothing else of theirs changes. */
    method FreeHeap(ptr: nat)
      requires Valid() && (ptr == 0 || ptr in Clients(State()))
      modifies `ring, `cached, `headers, `chunks, `chunksCount, `cachedCount, `realSize, `lastDeleteBoundary, `lastDeleteCount
      modifies `size, `free, `freeSlot, `live, `mem, `huge, Repr
      ensures Valid() && realSize <= old(realSize)
      ensures Clients(State()) == old(Clients(State())) - {ptr} && BlocksSame(live, old(mem), mem)
      ensures live.Keys <= old(live.Keys)
    {
      hide Steady, Threads, Linked, Core, Quiet, SumLive, SumHuge, BlocksSame, HugeGone, IsNode, Took;
      ghost var h := State();
      SteadyFacts();
      BlocksSameRefl(live, mem);
      ClientAddress(h, ptr);
      if ptr % CHUNK_SIZE == 0 {
        if ptr != 0 {
          FreeHuge(ptr);
          HugeGoneClients(h, State(), ptr);
        }
      } else {
        ValidIs();
        FreeInChunk(ptr, 0);
        TookLive(h, State(), ptr);
        TookClients(h, State(), ptr);
        ValidIs();
      }
    }

    /** zend_mm_size */
    method Size(ptr: nat) returns (n: nat)
      requires Valid() && ptr in Clients(State())
      ensures n == Usable(live[ptr])
    {
      hide Steady, Threads, Linked, Core, Quiet, SumLive, SumHuge, IsNode, ChunkBase, PageOf, ChunkState.Inv;
      ghost var h := State();
      SteadyFacts();
      ClientAddress(h, ptr);
      if ptr % CHUNK_SIZE == 0 {
        var j := FindHuge(ptr);
        HugeFound(h, ptr, j);
        n := huge[j].size;
      } else {
        BlockPage(h, ptr);
        HeaderFacts(ChunkBase(ptr));
        var info := headers[ChunkBase(ptr)].pageMap[PageOf(ptr)];
        n := if info.IsSRun() then BinSize(info.bin) else info.pages * PAGE_SIZE;
      }
    }

    // ---- the entry points ----------------------------------------------------------

    /** A block of this size fits without a collection, and the OS grants what it takes. */
    ghost predicate Fits(size0: nat)
      requires |free| == BINS
      reads `os, `headers, `huge, `pending, `chunks, `ring, `cached, `free, `live, `realSize, `limit
    {
      if size0 <= MAX_LARGE_SIZE then realSize + CHUNK_SIZE <= limit && Grants(CHUNK_SIZE)
      else !Wraps(size0) && HugeFits(AlignedSize(size0))
    }

    /** The OS grants a chunk, or a huge block and a chunk. */
    ghost predicate GrantsAll(size0: nat)
      reads `os, `headers, `huge, `pending
    {
      if size0 <= MAX_LARGE_SIZE then Grants(CHUNK_SIZE) else BothGranted(os, headers.Keys, huge, AlignedSize(size0))
    }

    /** The same with the answers after the next one, which an attempt to resize in place uses up. */
    ghost predicate GrantsLater(size0: nat)
      reads `os, `headers, `huge
    {
      BothGranted(Later(os), headers.Keys, huge, AlignedSize(size0))
    }

    /** Below the hard limit there is room for the block and the chunk of its node. */
    predicate StaysBelow(size0: nat)
      reads `realSize, `hardLimit
    {
      size0 <= MAX_LARGE_SIZE || realSize + AlignedSize(size0) + CHUNK_SIZE <= hardLimit
    }

    /** Why a block of this size is not to be had. */
    ghost predicate StoppedFor(r: Outcome, size0: nat, limits: bool)
      reads `chunks, `ring, `cached, `free, `huge, `live, `fallible, `realSize, `limit, `hardLimit
    {
      && (!Wraps(size0) ==> Stopped(r, Need(size0), limits))
      && (Wraps(size0) && r.Null? ==> fallible)
    }

    /** real_peak is at least what it was and what is mapped now, and n more bytes than before at most. */
    twostate predicate RealPeakKept(n: nat)
      reads `realSize, `realPeak
    {
      old(realPeak) <= realPeak && realSize <= realPeak && (realPeak == old(realPeak) || realPeak <= old(realSize) + n)
    }

    /** zend_mm_alloc_heap.  The new block is the one BlockFor names; the clients' other blocks keep their places
        and contents, also when NULL is returned. */
    method AllocHeap(size0: nat) returns (r: Outcome)
      requires Valid() && size0 <= SIZE_MAX && pending == []
      modifies this, Repr
      ensures SettingsKept()
      ensures !r.Exit? ==> Valid() && Repr >= old(Repr) && fresh(Repr - old(Repr)) && pending == []
      ensures !r.Exit? ==> BlocksSame(old(live), old(mem), mem)
      ensures r.Got? ==> r.ptr !in old(Clients(State())) && Holds(BlockFor(size0), size0)
      ensures r.Got? ==> Clients(State()) == old(Clients(State()))[r.ptr := BlockFor(size0)]
      ensures r.Null? ==> Clients(State()) == old(Clients(State()))
      ensures !r.Exit? && old(LimitsOk() && StaysBelow(size0)) ==> LimitsOk()
      ensures |old(free)| == BINS && (AtHand(old(State()), size0) ==> r.Got? && realSize == old(realSize) && os == old(os))
      ensures !AtHand(old(State()), size0) && old(Fits(size0)) ==>
                r.Got? && realSize == old(realSize) + Need(size0) + NodeBytes(old(State()), size0)
      ensures StoppedFor(r, size0, old(LimitsOk())) && (old(GrantsAll(size0)) ==> r != Exit(OutOfMemory))
      ensures !r.Exit? ==> realSize <= old(realSize) + Need(size0) + CHUNK_SIZE && |os| + 4 >= |old(os)|
      ensures Wraps(size0) ==> r == if old(fallible) then Null else Exit(Overflow)
      ensures !r.Exit? ==> realPeak == Max(old(realPeak), realSize)
      ensures r.Got? ==> size == old(size) + Usable(BlockFor(size0)) + (if size0 <= MAX_LARGE_SIZE then 0 else BinSize(NODE_BIN))
      ensures r.Got? ==> peak == Max(old(peak), size)
      ensures r.Null? ==> size == old(size) && peak == (if size0 <= MAX_SMALL_SIZE then Max(old(peak), old(size) + Usable(BlockFor(size0))) else old(peak))
    {
      hide Steady, Threads, Linked, Core, Quiet, RealOk, SumLive, SumHuge, BlocksSame, ListsKept, Gave, HugeMade;
      hide BinSize, Clients;
      hide PagesAtHand, SmallAtHand, Exhausted, GrantedAmong, GrantsHuge, AlignedSize;
      ghost var h := State();
      SteadyFacts();
      BlocksSameRefl(live, mem);
      BlockForHolds(size0);
      AlignedSizeWraps(size0);
      var size := if size0 < MIN_USEABLE_BIN_SIZE then MIN_USEABLE_BIN_SIZE else size0;
      if size <= MAX_SMALL_SIZE {
        SizeToBinIsTightest(size);
        r := AllocSmall(SizeToBin(size));
      } else if size <= MAX_LARGE_SIZE {
        r := AllocLarge(size);
      } else {
        r := AllocHuge(size);
      }
      if !r.Exit? {
        OutcomeClients(h, State(), r, size0);
      }
    }

    /** memcpy into a live block */
    method CopyInto(to: nat, from: nat, n: nat)
      requires Valid() && to in live && n <= Usable(live[to])
      modifies `mem
      ensures Valid() && State() == old(State()) && mem == Copy(old(mem), to, from, n)
    {
      hide Linked, Core, Quiet, SumLive, SumHuge, Usable, Threaded, SameOutside;
      ghost var m := mem;
      ChunkFacts();
      mem := Copy(mem, to, from, n);
      CopiedOutside(m, to, from, n);
      StillThreaded(State(), freeSlot, to, n, m, mem, shadowKey);
    }

    /** The end of a reallocation that moves: copy the bytes and free the old block. */
    method MoveTo(to: nat, ptr: nat, n: nat, size: nat, ghost h: HeapState.Heap, ghost m: Memory)
      requires Valid() && Core(h) && ptr in Clients(h) && to !in Clients(h) && to in Clients(State())
      requires Clients(State()) == Clients(h)[to := Clients(State())[to]] && size <= Usable(live[to])
      requires live[to] == NewBlock(h.live[ptr], size)
      requires BlocksSame(h.live, m, mem) && n <= Usable(h.live[ptr]) && n <= Usable(live[to])
      modifies `ring, `cached, `headers, `chunks, `chunksCount, `cachedCount, `realSize, `lastDeleteBoundary, `lastDeleteCount
      modifies `size, `free, `freeSlot, `live, `mem, `huge, Repr
      ensures Valid() && realSize <= old(realSize)
      ensures Moved(Clients(h), Clients(State()), ptr, to, size)
      ensures BlocksSame(Clients(h) - {ptr}, m, mem) && SameBytes(m, ptr, mem, to, n)
    {
      hide Steady, Threads, Linked, Core, Quiet, RealOk, SumLive, SumHuge, BlocksSame, Clients, Usable, SameBytes, NewBlock;
      ghost var g := State();
      ghost var m1 := mem;
      SteadyFacts();
      ClientsLive(h);
      ClientsLive(g);
      CopyInto(to, ptr, n);
      OutsideKeepsBlocks(g, to, m1, mem, n);
      ghost var m2 := mem;
      FreeHeap(ptr);
      ClientsLive(State());
      MovedKeeps(Clients(h), h, g, State(), to, ptr, n, m, m1, m2, mem);
    }

    /** The peak does not count both copies of a block that has moved. */
    method RestorePeak(origPeak: int)
      requires Valid()
      modifies `peak
      ensures Valid() && peak == if origPeak > size then origPeak else size
    {
      hide Steady, SumLive;
      SteadyFacts();
      peak := if origPeak > size then origPeak else size;
    }

    /** The block goes to the one just allocated for size0. */
    method MoveGot(to: nat, ptr: nat, n: nat, size0: nat, ghost h: HeapState.Heap, ghost m: Memory)
      requires Valid() && Core(h) && ptr in Clients(h) && to !in Clients(h) && Holds(BlockFor(size0), size0)
      requires Clients(State()) == Clients(h)[to := BlockFor(size0)] && NewBlock(h.live[ptr], size0) == BlockFor(size0)
      requires BlocksSame(h.live, m, mem) && n <= Usable(h.live[ptr]) && n <= Usable(BlockFor(size0))
      modifies `ring, `cached, `headers, `chunks, `chunksCount, `cachedCount, `realSize, `lastDeleteBoundary, `lastDeleteCount
      modifies `size, `free, `freeSlot, `live, `mem, `huge, Repr
      ensures Valid() && realSize <= old(realSize)
      ensures Moved(Clients(h), Clients(State()), ptr, to, size0)
      ensures BlocksSame(Clients(h) - {ptr}, m, mem) && SameBytes(m, ptr, mem, to, n)
    {
      hide Valid, Core, BlocksSame, Clients, SameBytes, BlockFor, Moved, Holds, Usable, NewBlock;
      GotClient(h, State(), to, size0);
      ValidFacts();
      MoveTo(to, ptr, n, size0, h, m);
    }

    /** The second part of zend_mm_realloc_slow: the block goes to the one just allocated. */
    method MoveSlow(to: nat, ptr: nat, n: nat, size0: nat, origPeak: int, ghost h: HeapState.Heap, ghost m: Memory)
      requires Valid() && Core(h) && ptr in Clients(h) && to !in Clients(h) && Holds(BlockFor(size0), size0)
      requires Clients(State()) == Clients(h)[to := BlockFor(size0)] && NewBlock(h.live[ptr], size0) == BlockFor(size0)
      requires BlocksSame(h.live, m, mem) && n <= Usable(h.live[ptr]) && n <= Usable(BlockFor(size0))
      modifies `ring, `cached, `headers, `chunks, `chunksCount, `cachedCount, `realSize, `lastDeleteBoundary, `lastDeleteCount
      modifies `size, `peak, `free, `freeSlot, `live, `mem, `huge, Repr
      ensures Valid() && realSize <= old(realSize) && peak == if origPeak > size then origPeak else size
      ensures Moved(Clients(h), Clients(State()), ptr, to, size0)
      ensures BlocksSame(Clients(h) - {ptr}, m, mem) && SameBytes(m, ptr, mem, to, n)
    {
      hide Valid, Core, BlocksSame, Clients, SameBytes, BlockFor, Moved, Holds, Usable, NewBlock;
      ValidFacts();
      MoveGot(to, ptr, n, size0, h, m);
      RestorePeak(origPeak);
    }

    /** zend_mm_realloc_slow; the bytes to keep must fit the new block. */
    method ReallocSlow(ptr: nat, size0: nat, n: nat) returns (r: Outcome)
      requires Valid() && ptr in Clients(State()) && size0 <= SIZE_MAX && n <= Usable(live[ptr]) && pending == []
      requires (!Wraps(size0) ==> n <= Usable(BlockFor(size0))) && NewBlock(live[ptr], size0) == BlockFor(size0)
      modifies this, Repr
      ensures SettingsKept()
      ensures !r.Exit? ==> Valid() && Repr >= old(Repr) && fresh(Repr - old(Repr)) && pending == []
      ensures Reallocated(old(Clients(State())), old(mem), Clients(State()), mem, r, ptr, size0, n)
      ensures r.Got? ==> peak == Max(old(peak), size)
      ensures r.Null? ==> size == old(size) && peak == (if size0 <= MAX_SMALL_SIZE then Max(old(peak), old(size) + Usable(BlockFor(size0))) else old(peak))
      ensures !r.Exit? ==> RealPeakKept(Need(size0) + CHUNK_SIZE)
      ensures !r.Exit? && old(LimitsOk() && StaysBelow(size0)) ==> LimitsOk()
      ensures |old(free)| == BINS && (AtHand(old(State()), size0) || old(Fits(size0)) ==> r.Got?)
      ensures StoppedFor(r, size0, old(LimitsOk())) && (old(GrantsAll(size0)) ==> r != Exit(OutOfMemory))
      ensures !r.Exit? ==> realSize <= old(realSize) + Need(size0) + CHUNK_SIZE && |os| + 4 >= |old(os)|
      ensures Wraps(size0) ==> r == if old(fallible) then Null else Exit(Overflow)
    {
      hide Valid, Steady, Threads, Linked, Core, Quiet, RealOk, SumLive, SumHuge, BlocksSame, Clients, SameBytes;
      hide AtHand, Fits, GrantsAll, Exhausted, BlockFor, AlignedSize, Moved, Need, Holds, NewBlock;
      ghost var h := State();
      ghost var m := mem;
      ValidFacts();
      var origPeak := peak;
      r := AllocHeap(size0);
      if r.Got? {
        MoveSlow(r.ptr, ptr, n, size0, origPeak, h, m);
      } else if r.Null? {
        // original block is left untouched
        ClientsSame(h, m, mem, ptr);
      }
    }

    lemma ReallocatedInPlace(old0: map<nat, Block>, ptr: nat, b: Block, size: nat, n: nat, m: Memory, m': Memory)
      requires ptr in old0 && Clients(State()) == old0[ptr := b] && size <= Usable(b)
      requires BlocksSame(old0, m, m') && n <= Usable(old0[ptr]) && b == NewBlock(old0[ptr], size)
      ensures BlocksSame(old0 - {ptr}, m, m') && Moved(old0, Clients(State()), ptr, ptr, size) && SameBytes(m, ptr, m', ptr, n)
    {
      hide Clients, Usable, NewBlock;
    }

    /** The huge block at list position j changes its size where it is. */
    method ResizeHugeBlock(j: nat, n: nat)
      requires Valid() && j < |huge| && HeapOps.RoomFor(State(), j, n)
      modifies `huge, `live, `realSize, `realPeak, `size, `peak
      ensures Valid() && Clients(State()) == old(Clients(State()))[old(huge)[j].ptr := Huge(n)]
      ensures realSize == old(realSize) + n - old(huge)[j].size
      ensures peak == Max(old(peak), size) && realPeak == Max(old(realPeak), realSize)
    {
      hide Threads, Linked, Core, Quiet, SumLive, SumHuge, HeapOps.RoomFor, Clients;
      var oldSize := huge[j].size;
      ChangeHuge(j, n);
      CountHuge(n - oldSize);
    }

    /** zend_mm_change_huge_block_size; the accounting is still to come. */
    method ChangeHuge(j: nat, n: nat)
      requires Valid() && j < |huge| && HeapOps.RoomFor(State(), j, n)
      modifies `huge, `live
      ensures Linked() && Core(State()) && Quiet(State()) && Threads() && RealOkBut(n - old(huge)[j].size)
      ensures size == SumLive(live) - (n - old(huge)[j].size) && size <= peak
      ensures Clients(State()) == old(Clients(State()))[old(huge)[j].ptr := Huge(n)]
    {
      hide Threads, Linked, Core, Quiet, SumLive, SumHuge, HeapOps.RoomFor, Clients;
      ghost var h := State();
      ChunkFacts();
      HeapOps.ResizeHugeCore(h, j, n);
      HeapOps.HugePtrIsHuge(h, j);
      SumHugeAt(huge, j);
      SumLiveChange(live, huge[j].ptr, Huge(n));
      ResizeHugeClients(h, j, n);
      live := live[huge[j].ptr := Huge(n)];
      SpacedResized(j, n);
      SetHuge(huge[j := huge[j].(size := n)]);
      assert State() == HeapOps.ResizeHuge(h, j, n);
    }

    /** An answer of the OS is used up. */
    method DropAnswer()
      requires Valid()
      modifies `os
      ensures Valid() && os == Later(old(os))
    {
      hide Linked, Core, Quiet, SumLive, SumHuge, Threaded, Spaced, FarFrom;
      ChunkFacts();
      SpacedNow();
      SpacedLater(reach, os, headers.Keys, huge, pending);
      os := if os == [] then [] else os[1..];
      StillLinkedSpaced();
    }

    /** The OS gives up the tail of a region, or does not. */
    method TruncateRegion() returns (ok: bool)
      requires Valid()
      modifies `os
      ensures Valid()
      ensures ok == (old(os) != [] && old(os)[0].Some?) && os == Later(old(os))
    {
      ok := os != [] && os[0].Some?;
      DropAnswer();
    }

    /** The OS maps more room right behind a huge block, or fails. */
    method ExtendRegion(j: nat, n: nat) returns (ok: bool)
      requires Valid() && j < |huge| && n > 0
      modifies `os
      ensures Valid()
      ensures ok == (old(os) != [] && old(os)[0].Some? && HeapOps.RoomFor(State(), j, n)) && os == Later(old(os))
    {
      hide Header.Valid, Header.State, Core, Quiet, SumLive, SumHuge, Threaded, Spaced;
      ok := os != [] && os[0].Some? && huge[j].ptr + n <= ADDRESS_END
        && (forall b | b in headers :: Apart(b, CHUNK_SIZE, huge[j].ptr, n))
        && (forall i | 0 <= i < |huge| && i != j :: Apart(huge[i].ptr, huge[i].size, huge[j].ptr, n));
      DropAnswer();
    }

    /** The attempt of zend_mm_realloc_huge to give up the tail of the block. */
    method ShrinkInPlace(j: nat, n: nat) returns (ok: bool)
      requires Valid() && j < |huge| && 0 < n <= huge[j].size
      modifies `huge, `live, `realSize, `realPeak, `size, `peak, `os
      ensures Valid() && (ok ==> Clients(State()) == old(Clients(State()))[old(huge)[j].ptr := Huge(n)])
      ensures peak == Max(old(peak), size) && realPeak == Max(old(realPeak), realSize)
      ensures !ok ==> size == old(size) && State() == old(State())
      ensures realSize <= old(realSize) && (!ok ==> os == Later(old(os))) && |os| + 1 >= |old(os)|
      ensures ok == (n == old(huge)[j].size || (old(os) != [] && old(os)[0].Some?))
    {
      hide Steady, Threads, Linked, Core, Quiet, RealOk, SumLive, SumHuge, Clients, HeapOps.RoomFor;
      SteadyFacts();
      ok := true;
      if n < huge[j].size {
        ok := TruncateRegion();
      }
      if ok {
        HeapOps.ShrunkHugeFits(State(), j, n);
        ResizeHugeBlock(j, n);
      }
    }

    /** The attempt to map a tail right after the block, once the limit has been checked. */
    method ExtendInPlace(j: nat, n: nat) returns (ok: bool)
      requires Valid() && j < |huge| && n > 0
      modifies `huge, `live, `realSize, `realPeak, `size, `peak, `os
      ensures Valid() && (ok ==> Clients(State()) == old(Clients(State()))[old(huge)[j].ptr := Huge(n)])
      ensures peak == Max(old(peak), size) && realPeak == Max(old(realPeak), realSize)
      ensures !ok ==> size == old(size) && State() == old(State()) && os == Later(old(os))
      ensures ok == (old(os) != [] && old(os)[0].Some? && old(HeapOps.RoomFor(State(), j, n)))
      ensures |os| + 1 >= |old(os)|
      ensures realSize == old(realSize) + if ok then n - old(huge)[j].size else 0
    {
      hide Steady, Threads, Linked, Core, Quiet, RealOk, SumLive, SumHuge, Clients, HeapOps.RoomFor;
      SteadyFacts();
      ok := ExtendRegion(j, n);
      if ok {
        ResizeHugeBlock(j, n);
      }
    }

    /** The huge block at list position j can get n bytes where it is. */
    ghost predicate HugeInPlace(j: nat, n: nat)
      requires j < |huge|
      reads `os, `chunks, `ring, `cached, `free, `huge, `live, `realSize, `limit
    {
      || n == huge[j].size
      || (n < huge[j].size && os != [] && os[0].Some?)
      || (n > huge[j].size && os != [] && os[0].Some? && HeapOps.RoomFor(State(), j, n) && realSize + (n - huge[j].size) <= limit)
    }

    ghost predicate HugeStays(ptr: nat, n: nat)
      reads `os, `chunks, `ring, `cached, `free, `huge, `live, `realSize, `limit
    {
      exists j: nat :: j < |huge| && huge[j].ptr == ptr && HugeInPlace(j, n)
    }

    /** Once the limit has been checked, the attempt to map a tail right after the block. */
    method GrowInPlace(ptr: nat, j: nat, newSize: nat) returns (done: bool, r: Outcome)
      requires Valid() && j < |huge| && huge[j].ptr == ptr && newSize > huge[j].size
      modifies this, Repr
      ensures SettingsKept()
      ensures !done || !r.Exit? ==> Valid() && Repr == old(Repr) && pending == old(pending)
      ensures !done || !r.Exit? ==> BlocksSame(old(live), old(mem), mem)
      ensures !done || r.Null? ==> Clients(State()) == old(Clients(State())) && old(live) == live
      ensures done && r.Got? ==> r.ptr == ptr && Clients(State()) == old(Clients(State()))[ptr := Huge(newSize)]
      ensures !done || !r.Exit? ==> old(LimitsOk()) ==> LimitsOk()
      ensures !done ==> os == Later(old(os)) && headers.Keys <= old(headers.Keys) && huge == old(huge) && realSize <= old(realSize)
      ensures old(HugeInPlace(j, newSize)) ==> done && r.Got?
      ensures !done || !r.Exit? ==> realSize <= old(realSize) + newSize && |os| + 1 >= |old(os)|
      ensures old(realSize) + newSize <= old(limit) && done ==> r.Got?
      ensures !done || !r.Exit? ==> peak == Max(old(peak), size) && realPeak == Max(old(realPeak), realSize)
      ensures !done || r.Null? ==> size == old(size) && peak == old(peak) && realPeak == old(realPeak)
      ensures done ==> Stopped(r, newSize, old(LimitsOk())) && r != Exit(OutOfMemory)
    {
      hide Steady, Threads, Linked, Core, Quiet, RealOk, SumLive, SumHuge, Clients, ListsKept, BlocksSame;
      hide HeapOps.RoomFor, Exhausted, GrantedAmong, Later, GcOrNot, Collected, CountPages;
      ghost var h := State();
      SteadyFacts();
      BlocksSameRefl(live, mem);
      var ok, didGc, exit := CheckLimit(newSize - huge[j].size);
      if exit {
        return true, Exit(OverLimit);
      }
      GcKeeps(h, State());
      KeptClients(h, State());
      KeptLive(h, State());
      if !ok {
        return true, Null;
      }
      // try to map tail right after this block
      done := ExtendInPlace(j, newSize);
      r := if done then Got(ptr) else Null;
    }

    /** The in-place attempts of zend_mm_realloc_huge; done is false when the slow way is left. */
    method ResizeInPlace(ptr: nat, j: nat, newSize: nat) returns (done: bool, r: Outcome)
      requires Valid() && j < |huge| && huge[j].ptr == ptr && newSize > 0
      modifies this, Repr
      ensures SettingsKept()
      ensures !done || !r.Exit? ==> Valid() && Repr == old(Repr) && pending == old(pending)
      ensures !done || !r.Exit? ==> BlocksSame(old(live), old(mem), mem)
      ensures !done || r.Null? ==> Clients(State()) == old(Clients(State())) && old(live) == live
      ensures done && r.Got? ==> r.ptr == ptr && Clients(State()) == old(Clients(State()))[ptr := Huge(newSize)]
      ensures !done || !r.Exit? ==> old(LimitsOk()) ==> LimitsOk()
      ensures !done ==> os == Later(old(os)) && headers.Keys <= old(headers.Keys) && huge == old(huge) && realSize <= old(realSize)
      ensures old(HugeInPlace(j, newSize)) ==> done && r.Got?
      ensures !done || !r.Exit? ==> realSize <= old(realSize) + newSize && |os| + 1 >= |old(os)|
      ensures old(realSize) + newSize <= old(limit) && done ==> r.Got?
      ensures !done || !r.Exit? ==> peak == Max(old(peak), size) && realPeak == Max(old(realPeak), realSize)
      ensures !done || r.Null? ==> size == old(size) && peak == old(peak) && realPeak == old(realPeak)
      ensures done ==> Stopped(r, newSize, old(LimitsOk())) && r != Exit(OutOfMemory)
    {
      hide Steady, Threads, Linked, Core, Quiet, RealOk, SumLive, SumHuge, Clients, BlocksSame, HeapOps.RoomFor;
      hide Exhausted, Later;
      SteadyFacts();
      BlocksSameRefl(live, mem);
      if newSize <= huge[j].size {
        done := ShrinkInPlace(j, newSize);
        r := if done then Got(ptr) else Null;
      } else {
        done, r := GrowInPlace(ptr, j, newSize);
      }
    }

    /** The size wraps to 0: all of the block is given up, and its entry stays. */
    method EmptyHuge(j: nat)
      requires Valid() && j < |huge|
      modifies `huge, `live, `realSize, `size
      ensures Linked() && RealOk() && SizeOk() && Threads()
      ensures State() == HeapOps.ResizeHuge(old(State()), j, 0) && realSize == old(realSize) - old(huge)[j].size
      ensures size == old(size) - old(huge)[j].size
      ensures !Core(State()) && old(huge)[j].ptr in live
      ensures Clients(State()) == old(Clients(State()))[old(huge)[j].ptr := Huge(0)]
    {
      hide Threads, Linked, Quiet, SumLive, SumHuge, Clients, ChunksOk, FreeOk, LiveOk, CompleteBut, RingOk;
      ghost var h := State();
      ChunkFacts();
      HeapOps.HugePtrIsHuge(h, j);
      SumHugeAt(huge, j);
      SumLiveChange(live, huge[j].ptr, Huge(0));
      ResizeHugeClients(h, j, 0);
      realSize := realSize - huge[j].size;
      size := size - huge[j].size;
      live := live[huge[j].ptr := Huge(0)];
      SpacedResized(j, 0);
      SetHuge(huge[j := huge[j].(size := 0)]);
      assert huge[j].size == 0;
    }

    lemma NoCoreNotValid()
      requires !Core(State())
      ensures !Valid()
    {
    }

    /** The attempt to give up all of the block. */
    method EmptyInPlace(j: nat) returns (done: bool)
      requires Valid() && j < |huge| && huge[j].size > 0
      modifies `huge, `live, `realSize, `size, `os
      ensures done ==> !Valid() && Clients(State()) == old(Clients(State()))[old(huge)[j].ptr := Huge(0)]
      ensures !done ==> Valid() && State() == old(State()) && realSize == old(realSize) && size == old(size)
      ensures done == (old(os) != [] && old(os)[0].Some?) && os == Later(old(os)) && |os| + 1 >= |old(os)|
      ensures realSize <= old(realSize) && size <= old(size) && size <= peak && realSize <= realPeak
    {
      hide Steady, Threads, Linked, Core, Quiet, RealOk, SumLive, SumHuge, Clients, Later;
      SteadyFacts();
      done := TruncateRegion();
      LaterIs(old(os));
      if done {
        EmptyHuge(j);
        NoCoreNotValid();
      }
    }

    /** The in-place part of zend_mm_realloc_huge; done is false when the slow way is left. */
    method ReallocHugeInPlace(ptr: nat, j: nat, size0: nat, ghost copySize: nat) returns (done: bool, r: Outcome)
      requires Valid() && ptr in Clients(State()) && live[ptr].Huge? && pending == [] && MAX_LARGE_SIZE < size0 <= SIZE_MAX
      requires j < |huge| && huge[j].ptr == ptr && huge[j].size == Usable(live[ptr]) && huge[j].size > 0
      requires forall k | 0 <= k < |huge| && huge[k].ptr == ptr :: k == j
      modifies this, Repr
      ensures SettingsKept()
      ensures !done || (!Wraps(size0) && !r.Exit?) ==> Valid() && Repr == old(Repr) && pending == []
      ensures done && !Wraps(size0) ==>
                Reallocated(old(Clients(State())), old(mem), Clients(State()), mem, r, ptr, size0, Kept(old(live[ptr]), size0, copySize))
      ensures done && Wraps(size0) ==> Emptied(old(Clients(State())), Clients(State()), r, ptr) && mem == old(mem) && !Valid()
      ensures done && r.Got? ==> (Moved(old(Clients(State())), Clients(State()), ptr, r.ptr, size0) <==> !Wraps(size0))
      ensures !done ==> Clients(State()) == old(Clients(State())) && live == old(live) && BlocksSame(old(Clients(State())), old(mem), mem)
      ensures !done ==> os == Later(old(os)) && headers.Keys <= old(headers.Keys) && huge == old(huge) && realSize <= old(realSize)
      ensures (!done || (!Wraps(size0) && !r.Exit?)) && old(LimitsOk()) ==> LimitsOk()
      ensures old(HugeStays(ptr, AlignedSize(size0))) ==> done && r == Got(ptr)
      ensures done && !Wraps(size0) && old(realSize) + AlignedSize(size0) <= old(limit) ==> r.Got?
      ensures !done || !r.Exit? ==> realSize <= old(realSize) + AlignedSize(size0) && |os| + 1 >= |old(os)|
      ensures !done || !r.Exit? ==> peak == Max(old(peak), size) && realPeak == Max(old(realPeak), realSize)
      ensures !done || r.Null? ==> size == old(size) && peak == old(peak) && realPeak == old(realPeak)
      ensures done ==> StoppedFor(r, size0, old(LimitsOk())) && r != Exit(OutOfMemory)
    {
      hide Steady, Threads, Linked, Core, Quiet, RealOk, SumLive, SumHuge, Clients, BlocksSame, SameBytes, Exhausted;
      hide GrantedAmong, HeapOps.RoomFor, BlockFor, AlignedSize;
      ghost var h, m := State(), mem;
      SteadyFacts();
      ClientsLive(h);
      AlignedSizeWraps(size0);
      HugeFor(size0);
      BlocksSameRefl(h.live, mem);
      ClientsSame(h, m, mem, ptr);
      assert HugeStays(ptr, AlignedSize(size0)) ==> HugeInPlace(j, AlignedSize(size0));
      var newSize := AlignedSize(size0);
      if newSize == 0 {
        done := EmptyInPlace(j);
        r := Got(ptr);
      } else {
        done, r := ResizeInPlace(ptr, j, newSize);
        if !done || !r.Exit? {
          ClientsSame(h, m, mem, ptr);
        }
        if done && r.Got? {
          ReallocatedInPlace(Clients(h), ptr, Huge(newSize), size0, Kept(h.live[ptr], size0, copySize), m, mem);
        }
      }
    }

    /** zend_mm_realloc_huge.  It keeps its promise if and only if the size can be rounded up: a size above
        2^64 - 4096 becomes 0, and when the OS gives up the tail, the caller gets back a block without a byte. */
    method ReallocHuge(ptr: nat, size0: nat, copySize: nat) returns (r: Outcome)
      requires Valid() && ptr in Clients(State()) && live[ptr].Huge? && pending == [] && size0 <= SIZE_MAX
      requires (MAX_LARGE_SIZE < size0 && HugeStays(ptr, AlignedSize(size0))) || CopyFits(live[ptr], size0, copySize)
      modifies this, Repr
      ensures SettingsKept()
      ensures !r.Exit? && !(r.Got? && Wraps(size0)) ==>
                Valid() && Repr >= old(Repr) && fresh(Repr - old(Repr)) && pending == []
      ensures !(r.Got? && Wraps(size0)) ==>
                Reallocated(old(Clients(State())), old(mem), Clients(State()), mem, r, ptr, size0, Kept(old(live[ptr]), size0, copySize))
      ensures r.Got? && Wraps(size0) ==> Emptied(old(Clients(State())), Clients(State()), r, ptr) && mem == old(mem) && !Valid()
      ensures r.Got? ==> (Moved(old(Clients(State())), Clients(State()), ptr, r.ptr, size0) <==> !Wraps(size0))
      ensures !r.Exit? && !(r.Got? && Wraps(size0)) && old(LimitsOk() && StaysBelow(size0)) ==> LimitsOk()
      ensures |old(free)| == BINS && (size0 <= MAX_LARGE_SIZE && (AtHand(old(State()), size0) || old(Fits(size0))) ==> r.Got?)
      ensures MAX_LARGE_SIZE < size0 && old(HugeStays(ptr, AlignedSize(size0))) ==> r == Got(ptr)
      ensures MAX_LARGE_SIZE < size0 && !Wraps(size0) && old(realSize) + AlignedSize(size0) <= old(limit) && old(GrantsLater(size0)) ==> r.Got?
      ensures !r.Exit? ==> realSize <= old(realSize) + Need(size0) + CHUNK_SIZE && |os| + 5 >= |old(os)|
      ensures StoppedFor(r, size0, old(LimitsOk()))
      ensures r.Got? ==> peak == Max(old(peak), size)
      ensures r.Null? ==> size == old(size) && peak == (if size0 <= MAX_SMALL_SIZE then Max(old(peak), old(size) + Usable(BlockFor(size0))) else old(peak))
      ensures !r.Exit? ==> RealPeakKept(Need(size0) + CHUNK_SIZE)
      ensures Wraps(size0) && r.Exit? ==> r == Exit(Overflow)
      ensures r == Exit(OutOfMemory) ==> if size0 <= MAX_LARGE_SIZE then !old(Grants(CHUNK_SIZE))
                                         else !old(GrantsLater(size0))
    {
      hide Steady, Threads, Linked, Core, Quiet, RealOk, SumLive, SumHuge, Clients, BlocksSame, SameBytes, Exhausted;
      hide GrantedAmong, BothGranted, HeapOps.RoomFor, AtHand, Fits, BlockFor, AlignedSize, HugeInPlace, Moved;
      ghost var h := State();
      SteadyFacts();
      ClientAddress(h, ptr);
      var j := FindHuge(ptr);
      HugeFound(h, ptr, j);
      ClientsLive(h);
      OnlyPosition(h, j);
      ghost var m := mem;
      BlocksSameRefl(Clients(h), mem);
      var oldSize := huge[j].size;
      if size0 > MAX_LARGE_SIZE {
        var done;
        done, r := ReallocHugeInPlace(ptr, j, size0, copySize);
        if done {
          return;
        }
        EnoughFits(size0);
      }
      ghost var m1 := mem;
      StillBothGranted(os, old(headers.Keys), headers.Keys, huge, AlignedSize(size0));
      r := ReallocSlow(ptr, size0, Min(oldSize, copySize));
      ReallocatedLater(Clients(h), m, m1, Clients(State()), mem, r, ptr, size0, Min(oldSize, copySize));
      ReallocatedWeaker(Clients(h), m, Clients(State()), mem, r, ptr, size0, size0, Min(oldSize, copySize), Kept(h.live[ptr], size0, copySize));
    }

    lemma BothIsFirst(n: nat)
      requires BothGranted(os, headers.Keys, huge, n) && pending == []
      ensures Grants(n)
    {
      hide FreshAmong;
    }

    /** Below the limit, and granted. */
    lemma EnoughFits(size0: nat)
      requires Valid() && pending == [] && MAX_LARGE_SIZE < size0
      ensures |free| == BINS
      ensures !Wraps(size0) && realSize + AlignedSize(size0) <= limit && BothGranted(os, headers.Keys, huge, AlignedSize(size0)) ==> Fits(size0)
    {
      hide Linked, Core, Quiet, RealOk, Threads, SumLive, GrantedAmong, AlignedSize;
      CoreFree(State());
    }

    /** zend_mm_alloc_small for a size that fits a bin. */
    method AllocSmallFor(size0: nat) returns (r: Outcome)
      requires Valid() && MIN_USEABLE_BIN_SIZE <= size0 <= MAX_SMALL_SIZE && pending == []
      modifies this, Repr
      ensures SettingsKept()
      ensures !r.Exit? ==> Valid() && Repr >= old(Repr) && fresh(Repr - old(Repr)) && pending == []
      ensures !r.Exit? ==> BlocksSame(old(live), old(mem), mem)
      ensures r.Got? ==> r.ptr !in old(Clients(State())) && Holds(BlockFor(size0), size0)
      ensures r.Got? ==> Clients(State()) == old(Clients(State()))[r.ptr := BlockFor(size0)]
      ensures r.Null? ==> Clients(State()) == old(Clients(State()))
      ensures !r.Exit? && old(LimitsOk()) ==> LimitsOk()
      ensures |old(free)| == BINS && (AtHand(old(State()), size0) || old(Fits(size0)) ==> r.Got?)
      ensures !r.Exit? ==> realSize <= old(realSize) + CHUNK_SIZE && |os| + 2 >= |old(os)|
      ensures StoppedFor(r, size0, old(LimitsOk())) && (old(Grants(CHUNK_SIZE)) ==> r != Exit(OutOfMemory))
      ensures r.Null? ==> size == old(size)
      ensures !r.Exit? ==> peak == Max(old(peak), old(size) + Usable(BlockFor(size0))) && RealPeakKept(CHUNK_SIZE)
    {
      hide Steady, Threads, Linked, Core, Quiet, RealOk, SumLive, SumHuge, BlocksSame, Clients, ListsKept;
      hide Gave, BinSize, SmallAtHand, Exhausted, GrantedAmong, Stopped;
      ghost var h := State();
      SteadyFacts();
      BlockForHolds(size0);
      SizeToBinIsTightest(size0);
      r := AllocSmall(SizeToBin(size0));
      if !r.Exit? {
        SteadyFacts();
        OutcomeClients(h, State(), r, size0);
      }
    }

    /** The moves of zend_mm_realloc_heap between bins; size fits a bin. */
    method MoveSmall(ptr: nat, size0: nat, n: nat) returns (r: Outcome)
      requires Valid() && ptr in Clients(State()) && n <= Usable(live[ptr]) && n <= size0 && pending == []
      requires MIN_USEABLE_BIN_SIZE <= size0 <= MAX_SMALL_SIZE && NewBlock(live[ptr], size0) == BlockFor(size0)
      modifies this, Repr
      ensures SettingsKept()
      ensures !r.Exit? ==> Valid() && Repr >= old(Repr) && fresh(Repr - old(Repr)) && pending == []
      ensures Reallocated(old(Clients(State())), old(mem), Clients(State()), mem, r, ptr, size0, n)
      ensures !r.Exit? && old(LimitsOk()) ==> LimitsOk()
      ensures |old(free)| == BINS && (AtHand(old(State()), size0) || old(Fits(size0)) ==> r.Got?)
      ensures !r.Exit? ==> realSize <= old(realSize) + CHUNK_SIZE && |os| + 2 >= |old(os)|
      ensures StoppedFor(r, size0, old(LimitsOk())) && (old(Grants(CHUNK_SIZE)) ==> r != Exit(OutOfMemory))
      ensures r.Null? ==> size == old(size)
      ensures !r.Exit? ==> peak == Max(old(peak), old(size) + Usable(BlockFor(size0))) && RealPeakKept(CHUNK_SIZE)
    {
      hide Valid, Core, BlocksSame, Clients, SameBytes, AtHand, Fits, Grants, BlockFor, Moved, Holds, NewBlock, Usable;
      hide Exhausted, StoppedFor;
      ghost var h := State();
      ghost var m := mem;
      ValidFacts();
      BinHolds(size0, n);
      r := AllocSmallFor(size0);
      if r.Got? {
        MoveGot(r.ptr, ptr, n, size0, h, m);
        GotIsNot(r, size0, old(LimitsOk()));
      } else if r.Null? {
        // original block is left untouched
        ClientsSame(h, m, mem, ptr);
      }
    }

    lemma GotIsNot(r: Outcome, size0: nat, limits: bool)
      requires r.Got?
      ensures StoppedFor(r, size0, limits)
    {
    }

    /** The in-place attempts on a large block: pages are given up, or free ones behind it are taken. */
    method ResizePages(base: nat, page: nat, n: nat, m: nat) returns (done: bool)
      requires Valid() && base in ring && base in chunks && LargeRunOf(chunks[base], page, n) && 1 <= m
      modifies `chunks, `live, `size, `peak, Repr
      ensures Valid() && (!done ==> State() == old(State()))
      ensures PageAddr(base, page) in old(Clients(State())) && WellSized(old(chunks)[base])
      ensures done <==> m <= n || (page + m <= PAGES && FreeRange(old(chunks)[base], page + n, m - n))
      ensures peak == Max(old(peak), size) && (!done ==> size == old(size))
      ensures done ==> Clients(State()) == old(Clients(State()))[PageAddr(base, page) := Large(m)]
    {
      hide Steady, Threads, Linked, Core, Quiet, RealOk, SumLive, SumHuge, Clients, FreeRange, ChunkState.Inv;
      hide LargeRunOf;
      ghost var h := State();
      SteadyFacts();
      HeaderFacts(base);
      HeapChunk(h, base);
      RunLarge(chunks[base], page, n);
      HeapOps.LiveLarge(h, base, page, n);
      LargeIsClient(h, PageAddr(base, page), n);
      done := true;
      if m < n {
        CutRun(base, page, n, m);
      } else if m > n {
        done := GrowRunInPlace(base, page, n, m);
      }
    }

    /** Free tail pages. */
    method CutRun(base: nat, page: nat, n: nat, m: nat)
      requires Valid() && base in ring && base in chunks && LargeRunOf(chunks[base], page, n) && 1 <= m < n
      requires PageAddr(base, page) in Clients(State()) && page + n <= PAGES && Has(live, PageAddr(base, page), Large(n))
      modifies `chunks, `live, `size, Repr
      ensures size <= old(size)
      ensures Valid() && Clients(State()) == old(Clients(State()))[PageAddr(base, page) := Large(m)]
    {
      hide Threads, Linked, Core, Quiet, RealOk, SumLive, Clients, ShrinkRun, ChunkState.Inv;
      ghost var h := State();
      ChunkFacts();
      HeaderFacts(base);
      HeapOps.ResizeRunCore(h, base, page, n, m);
      SumLiveChange(live, PageAddr(base, page), Large(m));
      size := size - (n - m) * PAGE_SIZE;
      ShrinkRunPages(base, page, n, m);
      live := live[PageAddr(base, page) := Large(m)];
      ResizedClients(h, State(), PageAddr(base, page), Large(m));
      assert State() == HeapOps.ResizeRun(h, base, page, n, m);
    }

    /** Try to allocate tail pages after this block. */
    method GrowRunInPlace(base: nat, page: nat, n: nat, m: nat) returns (grown: bool)
      requires Valid() && base in ring && base in chunks && LargeRunOf(chunks[base], page, n) && 1 <= n < m
      requires PageAddr(base, page) in Clients(State()) && page + n <= PAGES && Has(live, PageAddr(base, page), Large(n))
      modifies `chunks, `live, `size, `peak, Repr
      ensures Valid() && (!grown ==> State() == old(State()))
      ensures WellSized(old(chunks)[base]) && (grown <==> page + m <= PAGES && FreeRange(old(chunks)[base], page + n, m - n))
      ensures peak == Max(old(peak), size) && (!grown ==> size == old(size))
      ensures grown ==> Clients(State()) == old(Clients(State()))[PageAddr(base, page) := Large(m)]
    {
      hide Threads, Linked, Core, Quiet, RealOk, SumLive, Clients, GrowRun, FreeRange, ChunkState.Inv;
      ghost var h := State();
      ChunkFacts();
      HeaderFacts(base);
      grown := TryGrowRunPages(base, page, n, m);
      if grown {
        HeapOps.ResizeRunCore(h, base, page, n, m);
        SumLiveChange(live, PageAddr(base, page), Large(m));
        live := live[PageAddr(base, page) := Large(m)];
        ResizedClients(h, State(), PageAddr(base, page), Large(m));
        assert State() == HeapOps.ResizeRun(h, base, page, n, m);
        CountSize((m - n) * PAGE_SIZE);
      }
    }

    /** The part of zend_mm_realloc_heap for a small block that stays small. */
    method ReallocSmall(ptr: nat, bin: Bin, size0: nat, useCopy: bool, copySize: nat) returns (r: Outcome)
      requires Valid() && ptr in Clients(State()) && live[ptr] == Small(bin) && pending == []
      requires MIN_USEABLE_BIN_SIZE <= size0 <= MAX_SMALL_SIZE && (!useCopy ==> copySize <= size0)
      modifies this, Repr
      ensures SettingsKept()
      ensures !r.Exit? ==> Valid() && Repr >= old(Repr) && fresh(Repr - old(Repr)) && pending == []
      ensures Reallocated(old(Clients(State())), old(mem), Clients(State()), mem, r, ptr, size0, Min(Min(BinSize(bin), copySize), size0))
      ensures !r.Exit? && old(LimitsOk()) ==> LimitsOk()
      ensures SmallStays(bin, size0) ==> r == Got(ptr) && State() == old(State())
      ensures |old(free)| == BINS && (AtHand(old(State()), size0) || old(Fits(size0)) ==> r.Got?)
      ensures !r.Exit? ==> realSize <= old(realSize) + CHUNK_SIZE && |os| + 2 >= |old(os)|
      ensures StoppedFor(r, size0, old(LimitsOk())) && (old(Grants(CHUNK_SIZE)) ==> r != Exit(OutOfMemory))
      ensures r.Got? ==> peak == if Truncated(old(live)[ptr], size0) then Max(old(peak), old(size) + Usable(BlockFor(size0))) else Max(old(peak), size)
      ensures r.Null? ==> size == old(size) && peak == Max(old(peak), old(size) + Usable(BlockFor(size0)))
      ensures !r.Exit? ==> RealPeakKept(CHUNK_SIZE)
    {
      hide Steady, Threads, Linked, Core, Quiet, RealOk, SumLive, SumHuge, Clients, BlocksSame, Moved, SameBytes;
      hide BinSize, AtHand, Fits, Exhausted, GrantedAmong;
      ghost var h := State();
      SteadyFacts();
      ClientsLive(h);
      BinFacts(bin);
      var oldSize := BinSize(bin);
      var n := Min(oldSize, copySize);
      ghost var count, kept := n, Min(n, size0);
      if size0 <= oldSize {
        if bin > 0 && size0 < BinSize(bin - 1) {
          // truncation
          count := if useCopy then Min(size0, copySize) else size0;
          r := MoveSmall(ptr, size0, if useCopy then Min(size0, copySize) else size0);
          TruncatedIs(bin, size0);
        } else {
          // reallocation in-place
          TruncatedIs(bin, size0);
          SameClients(h, ptr, Small(bin));
          BlocksSameRefl(Clients(h), mem);
          ReallocatedInPlace(Clients(h), ptr, Small(bin), size0, n, mem, mem);
          r := Got(ptr);
        }
      } else {
        // small extension
        TruncatedIs(bin, size0);
        var origPeak := peak;
        count := if useCopy then n else oldSize;
        r := MoveSmall(ptr, size0, if useCopy then n else oldSize);
        if r.Got? {
          RestorePeak(origPeak);
        }
      }
      ReallocatedWeaker(Clients(h), old(mem), Clients(State()), mem, r, ptr, size0, size0, count, kept);
    }

    /** The large block at ptr can get a large size where it is. */
    ghost predicate LargeInPlace(ptr: nat, n: nat, size0: nat)
      reads `chunks
    {
      && MAX_SMALL_SIZE < size0 <= MAX_LARGE_SIZE && ChunkBase(ptr) in chunks && WellSized(chunks[ChunkBase(ptr)])
      && var m := PagesFor(size0);
        m <= n || (PageOf(ptr) + m <= PAGES && FreeRange(chunks[ChunkBase(ptr)], PageOf(ptr) + n, m - n))
    }

    /** The part of zend_mm_realloc_heap for pages: in place if they allow it, else the slow way. */
    method ReallocPages(ptr: nat, size: nat, copySize: nat) returns (r: Outcome)
      requires Valid() && ptr in Clients(State()) && !live[ptr].Huge? && pending == []
      requires MIN_USEABLE_BIN_SIZE <= size <= SIZE_MAX && (live[ptr].Small? ==> size > MAX_SMALL_SIZE)
      requires (live[ptr].Large? && LargeInPlace(ptr, live[ptr].pages, size)) || CopyFits(live[ptr], size, copySize)
      modifies this, Repr
      ensures SettingsKept()
      ensures !r.Exit? ==> Valid() && Repr >= old(Repr) && fresh(Repr - old(Repr)) && pending == []
      ensures Reallocated(old(Clients(State())), old(mem), Clients(State()), mem, r, ptr, size, Kept(old(live[ptr]), size, copySize))
      ensures !r.Exit? && old(LimitsOk() && StaysBelow(size)) ==> LimitsOk()
      ensures old(live[ptr].Large? && LargeInPlace(ptr, live[ptr].pages, size)) ==> r == Got(ptr)
      ensures |old(free)| == BINS && (AtHand(old(State()), size) || old(Fits(size)) ==> r.Got?)
      ensures !r.Exit? ==> realSize <= old(realSize) + Need(size) + CHUNK_SIZE && |os| + 4 >= |old(os)|
      ensures StoppedFor(r, size, old(LimitsOk())) && (old(GrantsAll(size)) ==> r != Exit(OutOfMemory))
      ensures r.Got? ==> peak == Max(old(peak), this.size)
      ensures r.Null? ==> this.size == old(this.size) && peak == (if size <= MAX_SMALL_SIZE then Max(old(peak), old(this.size) + Usable(BlockFor(size))) else old(peak))
      ensures !r.Exit? ==> RealPeakKept(Need(size) + CHUNK_SIZE)
      ensures Wraps(size) ==> r == if old(fallible) then Null else Exit(Overflow)
    {
      hide Steady, Threads, Linked, Core, Quiet, RealOk, SumLive, SumHuge, Clients, BlocksSame, Moved, SameBytes;
      hide BinSize, ChunkBase, PageOf, ChunkState.Inv;
      hide AtHand, Fits, GrantsAll, Exhausted, FreeRange, AlignedSize, StoppedFor, Need;
      ghost var h := State();
      SteadyFacts();
      ClientsLive(h);
      BlockPage(h, ptr);
      var base, page := ChunkBase(ptr), PageOf(ptr);
      HeaderFacts(base);
      var info := headers[base].pageMap[page];
      var oldSize := if info.IsSRun() then BinSize(info.bin) else info.pages * PAGE_SIZE;
      if !info.IsSRun() && MAX_SMALL_SIZE < size <= MAX_LARGE_SIZE {
        var newPages := PagesFor(size);
        var done := ResizePages(base, page, info.pages, newPages);
        if done {
          BlocksSameRefl(Clients(h), mem);
          ReallocatedInPlace(Clients(h), ptr, Large(newPages), size, Kept(h.live[ptr], size, copySize), mem, mem);
          GotIsNot(Got(ptr), size, old(LimitsOk()));
          return Got(ptr);
        }
      }
      r := ReallocSlow(ptr, size, Min(oldSize, copySize));
      ReallocatedWeaker(Clients(h), old(mem), Clients(State()), mem, r, ptr, size, size, Min(oldSize, copySize), Kept(h.live[ptr], size, copySize));
    }

    /** zend_mm_realloc_heap on a block of a chunk. */
    method ReallocInChunk(ptr: nat, size0: nat, useCopy: bool, copySize: nat) returns (r: Outcome)
      requires Valid() && ptr in Clients(State()) && !live[ptr].Huge? && pending == []
      requires size0 <= SIZE_MAX && (!useCopy ==> copySize == size0)
      requires (live[ptr].Large? && LargeInPlace(ptr, live[ptr].pages, size0)) || CopyFits(live[ptr], size0, copySize)
      modifies this, Repr
      ensures SettingsKept()
      ensures !r.Exit? ==> Valid() && Repr >= old(Repr) && fresh(Repr - old(Repr)) && pending == []
      ensures Reallocated(old(Clients(State())), old(mem), Clients(State()), mem, r, ptr, size0, Kept(old(live[ptr]), size0, copySize))
      ensures !r.Exit? && old(LimitsOk() && StaysBelow(size0)) ==> LimitsOk()
      ensures old(live[ptr]).Small? && SmallStays(old(live[ptr]).bin, Raised(size0)) ==> r == Got(ptr)
      ensures old(live[ptr].Large? && LargeInPlace(ptr, live[ptr].pages, size0)) ==> r == Got(ptr)
      ensures |old(free)| == BINS && (AtHand(old(State()), size0) || old(Fits(size0)) ==> r.Got?)
      ensures !r.Exit? ==> realSize <= old(realSize) + Need(size0) + CHUNK_SIZE && |os| + 4 >= |old(os)|
      ensures StoppedFor(r, size0, old(LimitsOk())) && (old(GrantsAll(size0)) ==> r != Exit(OutOfMemory))
      ensures r.Got? ==> peak == if Truncated(old(live)[ptr], size0) then Max(old(peak), old(size) + Usable(BlockFor(size0))) else Max(old(peak), size)
      ensures r.Null? ==> size == old(size) && peak == (if size0 <= MAX_SMALL_SIZE then Max(old(peak), old(size) + Usable(BlockFor(size0))) else old(peak))
      ensures !r.Exit? ==> RealPeakKept(Need(size0) + CHUNK_SIZE)
      ensures Wraps(size0) ==> r == if old(fallible) then Null else Exit(Overflow)
    {
      hide Steady, Threads, Linked, Core, Quiet, RealOk, SumLive, SumHuge, Clients, BlocksSame, Moved, SameBytes;
      hide BinSize, ChunkBase, PageOf, ChunkState.Inv;
      hide AtHand, HugeFits, BothGranted, GrantedAmong, Stopped, FreeRange, AlignedSize, Need, Reallocated, BlockFor;
      ghost var h := State();
      SteadyFacts();
      ClientsLive(h);
      BlockPage(h, ptr);
      RaisedIsSame(h, size0);
      var base, page := ChunkBase(ptr), PageOf(ptr);
      HeaderFacts(base);
      var info := headers[base].pageMap[page];
      var size := if size0 < MIN_USEABLE_BIN_SIZE then MIN_USEABLE_BIN_SIZE else size0;
      ghost var n := Kept(h.live[ptr], size, copySize);
      if info.IsSRun() && size <= MAX_SMALL_SIZE {
        r := ReallocSmall(ptr, info.bin, size, useCopy, copySize);
      } else {
        r := ReallocPages(ptr, size, copySize);
      }
      ReallocatedWeaker(Clients(h), old(mem), Clients(State()), mem, r, ptr, size, size0, n, Kept(h.live[ptr], size0, copySize));
    }

    /** The block can get the size where it is. */
    ghost predicate InPlace(ptr: nat, size0: nat)
      reads `os, `chunks, `ring, `cached, `free, `huge, `live, `realSize, `limit
    {
      && ptr in live
      && match live[ptr]
         case Small(b) => SmallStays(b, Raised(size0))
         case Large(n) => LargeInPlace(ptr, n, size0)
         case Huge(_) => MAX_LARGE_SIZE < size0 && HugeStays(ptr, AlignedSize(size0))
    }

    /** The limit has room for another block of that size, and the OS grants one, also after an attempt to resize in place. */
    ghost predicate Surely(ptr: nat, size0: nat)
      reads `os, `headers, `huge, `pending, `chunks, `ring, `cached, `free, `live, `realSize, `limit
    {
      && |free| == BINS && !Wraps(size0) && Fits(size0)
      && (ptr in live && live[ptr].Huge? && MAX_LARGE_SIZE < size0 ==> GrantsLater(size0))
    }

    lemma SurelyIs(ptr: nat, size0: nat)
      requires Surely(ptr, size0)
      ensures |free| == BINS && Fits(size0) && !Wraps(size0)
      ensures MAX_LARGE_SIZE < size0 ==> realSize + AlignedSize(size0) <= limit
      ensures ptr in live && live[ptr].Huge? && MAX_LARGE_SIZE < size0 ==> GrantsLater(size0)
    {
      hide GrantedAmong, BothGranted, AlignedSize;
    }

    /** zend_mm_realloc_heap: _zend_mm_realloc passes size0 as copySize, _zend_mm_realloc2 what its caller says
        is worth keeping of the block. */
    method ReallocHeap(ptr: nat, size0: nat, useCopy: bool, copySize: nat) returns (r: Outcome)
      requires Valid() && (ptr == 0 || ptr in Clients(State())) && pending == []
      requires size0 <= SIZE_MAX && (!useCopy ==> copySize == size0) && (ptr in live ==> InPlace(ptr, size0) || CopyFits(live[ptr], size0, copySize))
      modifies this, Repr
      ensures SettingsKept()
      ensures !r.Exit? && !(r.Got? && Wraps(size0)) ==>
                Valid() && Repr >= old(Repr) && fresh(Repr - old(Repr)) && pending == []
      ensures ptr != 0 && !(r.Got? && Wraps(size0)) ==>
                Reallocated(old(Clients(State())), old(mem), Clients(State()), mem, r, ptr, size0, Kept(old(live[ptr]), size0, copySize))
      ensures r.Got? && ptr != 0 && !Wraps(size0) ==>
                var b := old(live)[ptr];
                Has(live, r.ptr, if b.Small? && SmallStays(b.bin, Raised(size0)) then b else BlockFor(size0))
      ensures r.Got? && Wraps(size0) ==>
                ptr in old(live) && old(live)[ptr].Huge? && Emptied(old(Clients(State())), Clients(State()), r, ptr) && mem == old(mem) && !Valid()
      ensures r.Got? && ptr == 0 ==> r.ptr !in old(Clients(State())) && Holds(BlockFor(size0), size0)
      ensures r.Got? && ptr == 0 ==> Clients(State()) == old(Clients(State()))[r.ptr := BlockFor(size0)]
      ensures !r.Exit? && ptr == 0 ==> BlocksSame(old(live), old(mem), mem)
      ensures r.Null? ==> Clients(State()) == old(Clients(State()))
      ensures !r.Exit? && !(r.Got? && Wraps(size0)) && old(LimitsOk() && StaysBelow(size0)) ==> LimitsOk()
      ensures old(InPlace(ptr, size0)) && ptr != 0 ==> r == Got(ptr)
      ensures |old(free)| == BINS && (AtHand(old(State()), size0) || (size0 <= MAX_LARGE_SIZE && old(Fits(size0))) ==> r.Got?)
      ensures old(Surely(ptr, size0)) ==> r.Got?
      ensures !r.Exit? ==> realSize <= old(realSize) + Need(size0) + CHUNK_SIZE && |os| + 5 >= |old(os)|
      ensures StoppedFor(r, size0, old(LimitsOk()))
      ensures r.Got? && ptr == 0 ==> peak == Max(old(peak), size)
      ensures r.Got? && ptr != 0 ==> peak == if Truncated(old(live)[ptr], size0) then Max(old(peak), old(size) + Usable(BlockFor(size0))) else Max(old(peak), size)
      ensures r.Null? ==> size == old(size) && peak == (if size0 <= MAX_SMALL_SIZE then Max(old(peak), old(size) + Usable(BlockFor(size0))) else old(peak))
      ensures !r.Exit? ==> RealPeakKept(Need(size0) + CHUNK_SIZE)
      ensures Wraps(size0) && r.Exit? ==> r == Exit(Overflow)
      ensures r == Exit(OutOfMemory) && (ptr == 0 || !old(live[ptr]).Huge?) ==> !old(GrantsAll(size0))
      ensures r == Exit(OutOfMemory) && ptr != 0 && old(live[ptr]).Huge? ==>
                if size0 <= MAX_LARGE_SIZE then !old(Grants(CHUNK_SIZE))
                else !old(GrantsLater(size0))
    {
      hide Steady, Threads, Linked, Core, Quiet, RealOk, SumLive, SumHuge, Clients, BlocksSame, Moved, SameBytes;
      hide BlockFor, Holds;
      hide AtHand, Fits, Stopped, GrantedAmong, BothGranted, HugeStays, LargeInPlace, AlignedSize, GrantsLater;
      ghost var h := State();
      SteadyFacts();
      ClientAddress(h, ptr);
      if Surely(ptr, size0) { SurelyIs(ptr, size0); }
      ZeroNoClient(h);
      if size0 > MAX_LARGE_SIZE { HugeNotAtHand(h, size0); }
      if ptr % CHUNK_SIZE == 0 {
        if ptr == 0 {
          r := AllocHeap(size0);
        } else {
          r := ReallocHuge(ptr, size0, copySize);
        }
      } else {
        r := ReallocInChunk(ptr, size0, useCopy, copySize);
      }
      if r.Got? && ptr != 0 && !Wraps(size0) {
        MovedBlock(h, old(mem), State(), mem, r, ptr, size0, Kept(h.live[ptr], size0, copySize));
      }
    }

    /** A client writes byte i of a block it holds. */
    method StoreByte(ptr: nat, i: nat, value: byte)
      requires Valid() && ptr in Clients(State()) && i < Usable(live[ptr])
      modifies `mem
      ensures Valid() && State() == old(State())
      ensures ByteAt(mem, ptr, i) == value && SameOutside(old(mem), mem, ptr + i, 1)
      ensures BlocksSame(live - {ptr}, old(mem), mem)
    {
      hide Linked, Core, Quiet, SumLive, SumHuge, BlocksSame, Usable, Threaded;
      ghost var m := mem;
      ChunkFacts();
      ClientsLive(State());
      mem := Write(mem, ptr + i, [value]);
      OutsideKeepsBlocks(State(), ptr, m, mem, Usable(live[ptr]));
      StillThreaded(State(), freeSlot, ptr, Usable(live[ptr]), m, mem, shadowKey);
    }

    // ---- limits --------------------------------------------------------------------

    ghost predicate PercentOk()
      reads `hardLimitPercent
    {
      hardLimitPercent == -1 || 100 <= hardLimitPercent <= LONG_MAX
    }

    /** zend_mm_update_hard_limit */
    method UpdateHardLimit()
      requires 0 <= limit <= LIMIT_MAX && realSize <= limit && PercentOk()
      modifies `hardLimit
      ensures LimitsOk() && hardLimit == HardLimitFor(limit, hardLimitPercent)
      ensures hardLimitPercent == -1 ==> hardLimit == Min(if limit > 0x4000_0000 then limit + 0x4000_0000 else 2 * limit, 0x7FFF_FFFF_FFFF_FFFF)
      ensures hardLimitPercent != -1 ==> hardLimit == Min(limit * hardLimitPercent / 100, 0x7FFF_FFFF_FFFF_FFFF)
    {
      HardAboveSoft(limit, hardLimitPercent);
      HardLimitIs(limit, hardLimitPercent);
      var percent := hardLimitPercent;
      if percent == -1 {
        // for memory limit >= 1G, use a fixed 1G buffer
        if limit > ONE_GB {
          hardLimit := if SizeSub(LIMIT_MAX, limit) < ONE_GB then LIMIT_MAX else limit + ONE_GB;
          return;
        }
        percent := 200;
        TwoHundredPercent(limit);
      }
      ScaleIsExact(limit, percent);
      hardLimit := ScaleByPercent(limit, percent);
      if hardLimit > LIMIT_MAX {
        hardLimit := LIMIT_MAX;
      }
    }

    /** Unmaps the first cached chunk. */
    method DropCachedChunk()
      requires Steady() && cached != []
      modifies `headers, `chunks, `cached, `cachedCount, `realSize
      ensures Steady() && State() == HeapOps.DropCached(old(State())) && realSize == old(realSize) - CHUNK_SIZE
    {
      hide Threads, Linked, Core, Quiet, SumHuge;
      ghost var h := State();
      ChunkFacts();
      HeapOps.DropCachedCore(h);
      var p := cached[0];
      cached := cached[1..];
      UnmapChunk(p);
      cachedCount := cachedCount - 1;
      realSize := realSize - CHUNK_SIZE;
      assert State() == HeapOps.DropCached(h);
    }

    /** The wanted limit, cut off at ZEND_MM_LIMIT_MAX. */
    function Cut(memoryLimit: nat): nat { if memoryLimit > LIMIT_MAX then LIMIT_MAX else memoryLimit }

    lemma CachedAreReal()
      requires Steady()
      ensures realSize >= CHUNK_SIZE * (1 + |cached|) && cachedCount == |cached|
    {
      hide Threads, Linked, Core, Quiet, SumHuge;
      CoreFree(State());
      SumHugeNatural(huge);
    }

    /** Free some cached chunks to fit into new memory limit. */
    method DropToFit(memoryLimit: nat)
      requires Steady() && memoryLimit < realSize && memoryLimit >= realSize - CHUNK_SIZE * |cached|
      modifies `headers, `chunks, `cached, `cachedCount, `realSize
      ensures Steady() && Suffix(cached, old(cached)) && realSize <= memoryLimit < realSize + CHUNK_SIZE
      ensures realSize == old(realSize) - CHUNK_SIZE * (|old(cached)| - |cached|)
    {
      hide Steady, Suffix;
      SteadyFacts();
      SuffixAll(cached);
      while true
        invariant Steady() && Suffix(cached, old(cached)) && this !in Repr
        invariant memoryLimit < realSize && memoryLimit >= realSize - CHUNK_SIZE * |cached|
        invariant realSize == old(realSize) - CHUNK_SIZE * (|old(cached)| - |cached|)
        decreases |cached|
        modifies `headers, `chunks, `cached, `cachedCount, `realSize
      {
        SuffixTail(cached, old(cached));
        DropCachedChunk();
        SteadyFacts();
        if memoryLimit >= realSize {
          break;
        }
      }
    }

    /** zend_set_memory_limit.  It succeeds exactly when what is really in use fits the limit, and frees no more
        cached chunks than it must; the loop never runs out of them. */
    method SetMemoryLimit(memoryLimit0: nat) returns (ok: bool)
      requires Valid() && PercentOk()
      modifies `headers, `chunks, `cached, `cachedCount, `realSize, `limit, `hardLimit
      ensures Valid() && live == old(live) && huge == old(huge) && ring == old(ring) && free == old(free)
      ensures ok <==> Min(memoryLimit0, LIMIT_MAX) >= old(realSize) - CHUNK_SIZE * |old(cached)|
      ensures ok ==> limit == Min(memoryLimit0, LIMIT_MAX) && realSize <= limit && LimitsOk() && hardLimit == HardLimitFor(limit, hardLimitPercent)
      ensures Suffix(cached, old(cached))
      ensures realSize == old(realSize) - CHUNK_SIZE * (|old(cached)| - |cached|)
      ensures ok && cached != old(cached) ==> realSize + CHUNK_SIZE > limit
      ensures !ok ==> State() == old(State()) && limit == old(limit) && hardLimit == old(hardLimit)
      ensures Cut(memoryLimit0) >= old(realSize) ==> ok && State() == old(State()) && headers == old(headers)
    {
      hide Steady, Threads, Linked, Core, Quiet, SumHuge, SumLive, Suffix;
      SteadyFacts();
      SuffixAll(cached);
      CachedAreReal();
      var memoryLimit := Cut(memoryLimit0);
      if memoryLimit < realSize {
        if memoryLimit < realSize - cachedCount * CHUNK_SIZE {
          return false;
        }
        DropToFit(memoryLimit);
      }
      limit := memoryLimit;
      UpdateHardLimit();
      ok := true;
    }

    /** zend_set_memory_hard_limit_percent; it refuses to act while the soft limit is exceeded. */
    method SetMemoryHardLimitPercent(percent: int) returns (ok: bool)
      requires 0 <= limit <= LIMIT_MAX && percent <= LONG_MAX
      modifies `hardLimitPercent, `hardLimit
      ensures ok <==> (percent == -1 || percent >= 100) && realSize <= limit
      ensures ok ==> hardLimitPercent == percent && hardLimit == HardLimitFor(limit, percent)
      ensures !ok ==> hardLimitPercent == old(hardLimitPercent) && hardLimit == old(hardLimit)
      ensures ok || old(LimitsOk()) ==> LimitsOk()
    {
      if (percent < 100 && percent != -1) || realSize > limit {
        return false;
      }
      hardLimitPercent := percent;
      UpdateHardLimit();
      ok := true;
    }

    // ---- the life of a heap --------------------------------------------------------

    /** zend_mm_init on a region the OS handed out. */
    constructor (base: nat, key: nat, answers: seq<Option<nat>>, memory: Memory)
      requires ChunkPlace(base)
      ensures Valid() && LimitsOk() && PercentOk() && fresh(Repr) && pending == []
      ensures ring == [base] && HeapOps.Pristine(State()) && chunks[base] == ChunkState.Init(Zeroed().info, 0)
      ensures cached == [] && size == 0 && realSize == CHUNK_SIZE && limit == LIMIT_MAX && !fallible
      ensures os == answers && mem == memory && hardLimitPercent == -1 && shadowKey == key
      ensures chunksCount == peakChunks == 1 && avgChunks == 1.0 && lastDeleteBoundary == lastDeleteCount == 0
      ensures peak == 0 && realPeak == CHUNK_SIZE
    {
      hide Threaded, Core, Quiet, HeapOps.Pristine, ChunkState.Init, ChunkState.Inv, CountersZero, Empty, Zeroed;
      hide Header.Valid, Header.State;
      hide NoLists, NoHeads, Spaced;
      var header := new Header();
      header.Clear();
      header.InitMain();
      headers := map[base := header];
      chunks := map[base := ChunkState.Init(Zeroed().info, 0)];
      Repr := {header, header.freeMap, header.pageMap};
      ring, cached, free, huge, live, pending := [base], [], NoLists(), [], map[], [];
      freeSlot := NoHeads();
      chunksCount, cachedCount, peakChunks, avgChunks := 1, 0, 1, 1.0;
      lastDeleteBoundary, lastDeleteCount := 0, 0;
      size, peak, realSize, realPeak := 0, 0, CHUNK_SIZE, CHUNK_SIZE;
      limit, hardLimit, hardLimitPercent, fallible := LIMIT_MAX, LIMIT_MAX, -1, false;
      shadowKey, os, mem, reach := key, answers, memory, 0;
      new;
      hide Linked, Steady, Valid;
      LinkedOne(base);
      NewIsValid(base);
    }

    lemma NewIsValid(base: nat)
      requires Linked() && live == map[] && huge == [] && cached == [] && ring == [base] && ChunkPlace(base)
      requires chunks == map[base := ChunkState.Init(Zeroed().info, 0)] && free == NoLists() && freeSlot == NoHeads()
      requires chunksCount == 1 && cachedCount == 0 && realSize == realPeak == CHUNK_SIZE && size == peak == 0
      ensures Valid() && HeapOps.Pristine(State())
    {
      hide Linked, Core, Quiet, Threaded, NoLists, NoHeads, HeapOps.Pristine, ChunkState.Init, Zeroed;
      EmptyThreads(free, freeSlot, mem, shadowKey);
      NewIsPristine(State(), base);
    }

    lemma LinkedOne(base: nat)
      requires base in headers && headers.Keys == {base} && chunks.Keys == {base} && pending == [] && this !in Repr && reach == 0
      requires headers[base] in Repr && headers[base].freeMap in Repr && headers[base].pageMap in Repr
      requires headers[base].Valid() && headers[base].State() == chunks[base]
      ensures Linked()
    {
      hide Header.Valid, Header.State;
    }

    method ClearChunk(base: nat)
      requires Linked() && base in chunks
      modifies `chunks, Repr
      ensures Linked() && chunks == old(chunks)[base := Zeroed()]
    {
      hide Threads, Linked, Zeroed;
      ChunkFacts();
      HeaderFacts(base);
      ClearHeader(base);
    }

    method ClearHeader(base: nat)
      requires Linked() && base in chunks
      modifies `chunks, headers[base], headers[base].freeMap, headers[base].pageMap
      ensures Linked() && chunks == old(chunks)[base := Zeroed()]
    {
      hide Zeroed;
      headers[base].Clear();
      chunks := chunks[base := headers[base].State()];
      StillLinked(base);
    }

    method InitMainHeader(base: nat)
      requires Linked() && base in chunks && chunks[base] == Zeroed()
      modifies `chunks, headers[base], headers[base].freeMap, headers[base].pageMap
      ensures Linked() && chunks == old(chunks)[base := ChunkState.Init(Zeroed().info, 0)]
    {
      hide Zeroed, ChunkState.Init;
      headers[base].InitMain();
      chunks := chunks[base := headers[base].State()];
      StillLinked(base);
    }

    ghost function Lists(): HeapState.Heap
      reads `chunks, `ring, `cached
    {
      HeapState.Heap(chunks, ring, cached, [], [], map[])
    }

    /** All that holds while zend_mm_shutdown is at work. */
    ghost predicate Ringed()
      reads `headers, `chunks, `Repr, `pending, `os, `huge, `reach, Repr, `ring, `cached, `chunksCount, `cachedCount
    {
      && Linked() && RingOk(Lists()) && chunksCount == |ring| && cachedCount == |cached|
      && forall b | b in chunks :: ChunkPlace(b)
    }

    /** Move all chunks except of the first one into the cache. */
    method CacheAll()
      requires Ringed()
      modifies `ring, `cached, `chunksCount, `cachedCount
      ensures Ringed() && ring == old(ring)[..1] && cached == Reversed(old(ring)[1..]) + old(cached)
    {
      hide Threads, Linked, RingOk, Reversed;
      RingedFacts();
      ghost var rest := ring[1..];
      while |ring| > 1
        invariant Ringed() && ring == old(ring)[..1] + rest
        invariant Reversed(old(ring)[1..]) + old(cached) == Reversed(rest) + cached
        decreases |ring|
      {
        ghost var h := Lists();
        HeapOps.CacheSecondRing(h);
        var p := ring[1];
        assert rest[0] == p && ring[2..] == rest[1..];
        ReversedFirst(rest);
        ring := [ring[0]] + ring[2..];
        cached := [p] + cached;
        chunksCount := chunksCount - 1;
        cachedCount := cachedCount + 1;
        rest := rest[1..];
        assert Lists() == HeapOps.CacheSecond(h);
      }
      assert rest == [];
      ReversedFirst(rest);
    }

    lemma RingedFacts()
      requires Ringed()
      ensures this !in Repr && Linked() && |ring| >= 1 && chunksCount == |ring| && cachedCount == |cached|
    {
      hide Header.Valid, Header.State;
    }

    /** Free some cached chunks to keep average count. */
    method DropByAverage()
      requires Ringed()
      modifies `cached, `cachedCount, `headers, `chunks
      ensures Ringed() && Suffix(cached, old(cached))
      ensures cached == [] || |cached| as real + 0.9 <= avgChunks
      ensures cached != old(cached) ==> (|cached| + 1) as real + 0.9 > avgChunks
    {
      hide Ringed, Suffix;
      RingedFacts();
      SuffixAll(cached);
      while cachedCount as real + 0.9 > avgChunks && cached != []
        invariant Ringed() && this !in Repr && Suffix(cached, old(cached)) && cachedCount == |cached|
        invariant cached != old(cached) ==> (|cached| + 1) as real + 0.9 > avgChunks
        decreases |cached|
      {
        SuffixTail(cached, old(cached));
        DropOne();
        RingedFacts();
      }
    }

    /** The first cached chunk is unmapped. */
    method DropOne()
      requires Ringed() && cached != []
      modifies `cached, `cachedCount, `headers, `chunks
      ensures Ringed() && cached == old(cached)[1..]
    {
      hide Threads, Linked, RingOk;
      ChunkFacts();
      HeapOps.DropCachedRing(Lists());
      ghost var h := Lists();
      var p := cached[0];
      cached := cached[1..];
      UnmapChunk(p);
      cachedCount := cachedCount - 1;
      assert Lists() == HeapOps.DropCached(h);
    }

    /** Clear cached chunks. */
    method ClearCached()
      requires Ringed()
      modifies `chunks, Repr
      ensures Ringed() && chunks.Keys == old(chunks.Keys)
      ensures forall i | 0 <= i < |cached| :: cached[i] in chunks && chunks[cached[i]] == Zeroed()
    {
      hide Ringed, Zeroed;
      var i := 0;
      RingedRepr();
      while i < |cached|
        invariant i <= |cached| && Ringed() && chunks.Keys == old(chunks.Keys) && this !in Repr
        invariant forall k | 0 <= k < i :: cached[k] in chunks && chunks[cached[k]] == Zeroed()
        modifies `chunks, Repr
      {
        ClearCachedAt(i);
        i := i + 1;
      }
    }

    lemma RingedRepr()
      requires Ringed()
      ensures this !in Repr
    {
    }

    method ClearCachedAt(i: nat)
      requires Ringed() && i < |cached|
      modifies `chunks, Repr
      ensures Ringed() && cached[i] in chunks && chunks == old(chunks)[cached[i] := Zeroed()] && chunks.Keys == old(chunks.Keys)
    {
      hide Linked, Zeroed;
      ChunkFacts();
      ClearChunk(cached[i]);
    }

    /** The main chunk is as after zend_mm_init, and the cached chunks are zero bytes. */
    ghost predicate Cleared()
      reads `chunks, `ring, `cached
    {
      && |ring| == 1 && ring[0] in chunks && chunks[ring[0]] == ChunkState.Init(Zeroed().info, 0)
      && forall i | 0 <= i < |cached| :: cached[i] in chunks && chunks[cached[i]] == Zeroed()
    }

    /** zend_mm_shutdown between requests (full is false).  All blocks are gone; some empty chunks stay cached. */
    method Shutdown(newKey: nat)
      requires Valid() && pending == []
      modifies this, Repr
      ensures Valid() && HeapOps.Pristine(State()) && Cleared() && ring == old(ring)[..1]
      ensures size == peak == 0 && realSize == realPeak == CHUNK_SIZE * (1 + |cached|) && realSize <= old(realSize)
      ensures cached == [] || |cached| as real + 0.9 <= avgChunks
      ensures 2.0 * avgChunks == old(avgChunks + peakChunks as real)
      ensures limit == old(limit) && hardLimit == old(hardLimit) && fallible == old(fallible) && mem == old(mem)
      ensures shadowKey == newKey && chunksCount == peakChunks == 1 && lastDeleteBoundary == lastDeleteCount == 0
      ensures hardLimitPercent == old(hardLimitPercent) && os == old(os)
      ensures Suffix(cached, Reversed(old(ring)[1..]) + old(cached))
    {
      hide Valid, Ringed, HeapOps.Pristine, Suffix, Reversed, Cleared, SizeOk;
      Ready();
      RingedFacts();
      TrimAndClear();
      RingedFacts();
      ResetFields(newKey);
    }

    /** The chunks are back in the cache or unmapped, and those kept are cleared. */
    method TrimAndClear()
      requires Ringed()
      modifies `ring, `cached, `chunksCount, `cachedCount, `avgChunks, `headers, `chunks, Repr
      ensures Ringed() && Cleared() && |old(ring)| >= 1 && ring == old(ring)[..1] && |cached| <= |old(ring)| - 1 + |old(cached)|
      ensures cached == [] || |cached| as real + 0.9 <= avgChunks
      ensures 2.0 * avgChunks == old(avgChunks + peakChunks as real)
      ensures Suffix(cached, Reversed(old(ring)[1..]) + old(cached))
    {
      hide Ringed, Suffix, Reversed, Cleared;
      RingedFacts();
      TrimCache();
      RingedFacts();
      SuffixLength(cached, Reversed(old(ring)[1..]), old(cached));
      ClearChunks();
    }

    lemma Ready()
      requires Valid()
      ensures Ringed() && |ring| >= 1 && realSize >= CHUNK_SIZE * (|ring| + |cached|)
    {
      hide Threads, Linked, ChunksOk, FreeOk, LiveOk, CompleteBut, SumLive, SumHuge;
    }

    lemma NowPristine()
      requires Ringed() && Cleared() && huge == [] && live == map[] && |free| == BINS && forall b: Bin :: free[b] == []
      ensures HeapOps.Pristine(State()) && Linked() && this !in Repr
    {
      hide Threads, Linked, ChunkState.Init, ChunkState.Inv, CountersZero;
      ChunkFacts();
      InitInv(Zeroed().info, 0);
    }

    /** The accounting starts over. */
    method ResetFields(newKey: nat)
      requires Ringed() && Cleared()
      modifies `huge, `live, `free, `freeSlot, `size, `peak, `realSize, `realPeak, `chunksCount, `peakChunks
      modifies `lastDeleteBoundary, `lastDeleteCount, `shadowKey
      ensures Valid() && HeapOps.Pristine(State())
      ensures shadowKey == newKey && chunksCount == peakChunks == 1 && lastDeleteBoundary == lastDeleteCount == 0
      ensures size == peak == 0 && realSize == realPeak == CHUNK_SIZE * (1 + |cached|)
    {
      hide Threads, Linked, Core, Quiet, Ringed, Cleared, HeapOps.Pristine;
      RingedFacts();
      ResetCounters(newKey);
      ForgetBlocks();
      OneInRing();
      chunksCount := 1;
      assert Steady() && SizeOk();
    }

    method ResetCounters(newKey: nat)
      modifies `size, `peak, `realSize, `realPeak, `peakChunks, `lastDeleteBoundary, `lastDeleteCount, `shadowKey
      ensures shadowKey == newKey && peakChunks == 1 && lastDeleteBoundary == lastDeleteCount == 0
      ensures size == peak == 0 && realSize == realPeak == CHUNK_SIZE * (1 + cachedCount)
    {
      size, peak := 0, 0;
      realSize := (cachedCount + 1) * CHUNK_SIZE;
      realPeak := (cachedCount + 1) * CHUNK_SIZE;
      peakChunks, lastDeleteBoundary, lastDeleteCount := 1, 0, 0;
      shadowKey := newKey;
    }

    method ForgetBlocks()
      requires Ringed() && Cleared()
      modifies `huge, `live, `free, `freeSlot
      ensures HeapOps.Pristine(State()) && Linked() && Core(State()) && Quiet(State()) && Threads() && this !in Repr
      ensures cachedCount == |cached| && huge == [] && live == map[]
    {
      hide Threaded, Linked, Core, Quiet, Cleared, HeapOps.Pristine, RingOk;
      RingedFacts();
      SpacedLess([]);
      SetHuge([]);
      live, free, freeSlot := map[], NoLists(), NoHeads();
      EmptyThreads(free, freeSlot, mem, shadowKey);
      NowPristine();
      HeapOps.PristineCore(State());
    }

    lemma OneInRing()
      requires Cleared()
      ensures |ring| == 1
    {
    }

    /** All chunks but the main one go to the cache, and the cache keeps some. */
    method TrimCache()
      requires Ringed()
      modifies `ring, `cached, `chunksCount, `cachedCount, `avgChunks, `headers, `chunks
      ensures Ringed() && |old(ring)| >= 1 && ring == old(ring)[..1]
      ensures cached == [] || |cached| as real + 0.9 <= avgChunks
      ensures 2.0 * avgChunks == old(avgChunks + peakChunks as real)
      ensures Suffix(cached, Reversed(old(ring)[1..]) + old(cached))
    {
      hide Ringed, Suffix, Reversed;
      RingedFacts();
      CacheAll();
      avgChunks := (avgChunks + peakChunks as real) / 2.0;
      DropByAverage();
    }

    method ClearChunks()
      requires Ringed() && |ring| == 1
      modifies `chunks, Repr
      ensures Ringed() && Cleared()
    {
      hide Ringed, Zeroed, ChunkState.Init;
      RingedFacts();
      ClearCached();
      RingedFacts();
      ResetMain();
    }

    /** Reinitialize the first chunk. */
    method ResetMain()
      requires Ringed() && |ring| == 1
      modifies `chunks, Repr
      ensures Ringed() && ring[0] in chunks && chunks == old(chunks)[ring[0] := ChunkState.Init(Zeroed().info, 0)]
      ensures ring[0] !in cached
    {
      hide Threads, Linked, Zeroed, ChunkState.Init, RingOk;
      ghost var h := Lists();
      RingMain(h);
      ChunkFacts();
      ClearChunk(ring[0]);
      ChunkFacts();
      HeaderFacts(ring[0]);
      InitMainHeader(ring[0]);
      RingSameKeys(h, Lists());
    }
  }
}
