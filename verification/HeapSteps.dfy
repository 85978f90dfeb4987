/** Relations between heap values before and after a call, and the facts about them that the methods
    of ZendHeap use. */
module HeapSteps {
  import opened Bins
  import opened ChunkState
  import opened ChunkHeader
  import opened HeapState
  import HeapOps
  import opened HeapGc
  import ChunkSweep
  import opened Limits
  import opened MemoryBytes
  import opened Words

  datatype Option<+T> = None | Some(value: T)

  /** The region is aligned and overlaps none of the chunks, huge blocks and regions just mapped. */
  predicate FreshAmong(keys: set<nat>, huge: seq<HugeNode>, pending: seq<(nat, nat)>, ptr: nat, n: nat) {
    && ClearOf(pending, ptr, n)
    && ptr > 0 && ptr % CHUNK_SIZE == 0 && n > 0 && ptr + n <= ADDRESS_END
    && (forall b | b in keys :: Apart(b, CHUNK_SIZE, ptr, n))
    && (forall j | 0 <= j < |huge| :: Apart(huge[j].ptr, huge[j].size, ptr, n))
  }

  /** The OS answers the next mapping request with such a region. */
  predicate GrantedAmong(os: seq<Option<nat>>, keys: set<nat>, huge: seq<HugeNode>, pending: seq<(nat, nat)>, n: nat) {
    os != [] && os[0].Some? && FreshAmong(keys, huge, pending, os[0].value, n)
  }

  /** The OS grants a huge block of n bytes and then a chunk. */
  predicate BothGranted(os: seq<Option<nat>>, keys: set<nat>, huge: seq<HugeNode>, n: nat) {
    GrantedAmong(os, keys, huge, [], n) && GrantedAmong(os[1..], keys, huge, [(os[0].value, n)], CHUNK_SIZE)
  }

  /** The answers of the OS after the next one. */
  function Later(os: seq<Option<nat>>): seq<Option<nat>> {
    if os == [] then [] else os[1..]
  }

  lemma LaterIs(os: seq<Option<nat>>)
    ensures |Later(os)| + 1 >= |os|
  {
  }

  lemma StillBothGranted(os: seq<Option<nat>>, keys: set<nat>, keys': set<nat>, huge: seq<HugeNode>, n: nat)
    requires keys' <= keys
    ensures BothGranted(os, keys, huge, n) ==> BothGranted(os, keys', huge, n)
  {
    hide GrantedAmong;
    StillGranted(os, keys, keys', huge, [], n);
    if BothGranted(os, keys, huge, n) {
      GrantedSome(os, keys, huge, [], n);
      StillGranted(os[1..], keys, keys', huge, [(os[0].value, n)], CHUNK_SIZE);
    }
  }

  lemma GrantedSome(os: seq<Option<nat>>, keys: set<nat>, huge: seq<HugeNode>, pending: seq<(nat, nat)>, n: nat)
    requires GrantedAmong(os, keys, huge, pending, n)
    ensures os != [] && os[0].Some?
  {
  }

  lemma StillGranted(os: seq<Option<nat>>, keys: set<nat>, keys': set<nat>, huge: seq<HugeNode>, pending: seq<(nat, nat)>, n: nat)
    requires keys' <= keys
    ensures GrantedAmong(os, keys, huge, pending, n) ==> GrantedAmong(os, keys', huge, pending, n)
  {
  }

  /** The address is at least `reach` bytes away from what the OS will answer. */
  predicate FarFrom(p: nat, os: seq<Option<nat>>, reach: nat) {
    forall i | 0 <= i < |os| && os[i].Some? :: Apart(p, reach, os[i].value, reach)
  }

  /** The answers are places for `reach` bytes, apart from each other. */
  predicate Answers(os: seq<Option<nat>>, reach: nat) {
    && reach >= CHUNK_SIZE
    && (forall i | 0 <= i < |os| :: os[i].Some? && os[i].value > 0 && os[i].value % CHUNK_SIZE == 0 && os[i].value + reach <= ADDRESS_END)
    && forall i, j | 0 <= i < j < |os| :: Apart(os[i].value, reach, os[j].value, reach)
  }

  /** So far apart are the answers from each other and from everything mapped; 0 is no promise. */
  ghost predicate Spaced(reach: nat, os: seq<Option<nat>>, keys: set<nat>, huge: seq<HugeNode>, pending: seq<(nat, nat)>) {
    reach > 0 ==>
      && Answers(os, reach)
      && (forall b | b in keys :: FarFrom(b, os, reach))
      && (forall j | 0 <= j < |huge| :: FarFrom(huge[j].ptr, os, reach))
      && forall k | 0 <= k < |pending| :: FarFrom(pending[k].0, os, reach)
  }

  /** After the next answer the others are still apart, from that one too. */
  lemma SpacedLater(reach: nat, os: seq<Option<nat>>, keys: set<nat>, huge: seq<HugeNode>, pending: seq<(nat, nat)>)
    requires Spaced(reach, os, keys, huge, pending)
    ensures Spaced(reach, Later(os), keys, huge, pending)
    ensures reach > 0 && os != [] && os[0].Some? ==> FarFrom(os[0].value, Later(os), reach)
  {
  }

  /** What is promised is granted, as long as no huge block is larger than the reach. */
  lemma SpacedGrants(reach: nat, os: seq<Option<nat>>, keys: set<nat>, huge: seq<HugeNode>, n: nat)
    requires reach > 0 && Spaced(reach, os, keys, huge, []) && 0 < n <= reach
    requires forall j | 0 <= j < |huge| :: huge[j].size <= reach
    ensures os != [] ==> GrantedAmong(os, keys, huge, [], n)
    ensures |os| >= 2 ==> BothGranted(os, keys, huge, n)
  {
  }

  /** The usable sizes of all live blocks. */
  ghost function SumLive(live: map<nat, Block>): nat {
    if live == map[] then 0
    else
      var a :| a in live;
      Usable(live[a]) + SumLive(live - {a})
  }

  ghost function SumHuge(huge: seq<HugeNode>): nat {
    if huge == [] then 0 else huge[0].size + SumHuge(huge[1..])
  }

  /** The region overlaps none of the given ones. */
  predicate ClearOf(regions: seq<(nat, nat)>, ptr: nat, n: nat) {
    forall k | 0 <= k < |regions| :: Apart(ptr, n, regions[k].0, regions[k].1)
  }

  /** The outcome of an allocation: a block, NULL, or the end of the run. */
  /** Why a run ends: the operating system has no memory, the hard limit, or a size too large to round up. */
  datatype Fatal = OutOfMemory | OverLimit | Overflow

  datatype Outcome = Got(ptr: nat) | Null | Exit(why: Fatal)

  /** Blocks are untouched, and lists that were empty still are. */
  ghost predicate ListsKept(h: Heap, g: Heap) {
    && g.live == h.live && g.huge == h.huge && |g.free| == |h.free| == BINS
    && forall b: Bin :: h.free[b] == [] ==> g.free[b] == []
  }

  lemma KeptRefl(h: Heap)
    requires |h.free| == BINS
    ensures ListsKept(h, h)
  {
  }

  lemma TailsRefl(h: Heap)
    ensures TailsMoved(h, h)
  {
  }

  lemma TailsSame(h: Heap, g: Heap)
    requires TailsMoved(h, g)
    ensures g.ring == h.ring && g.live == h.live && g.chunks.Keys == h.chunks.Keys
    ensures forall b | b in h.chunks :: WellSized(g.chunks[b]) == WellSized(h.chunks[b])
  {
  }

  lemma KeptTrans(h: Heap, g: Heap, k: Heap)
    requires ListsKept(h, g) && ListsKept(g, k)
    ensures ListsKept(h, k)
  {
  }

  lemma NewChunkKeeps(h: Heap, g: Heap, base: nat)
    requires NewChunk(h, g, base) && |h.free| == BINS
    ensures ListsKept(h, g)
    ensures base in g.chunks && Inv(g.chunks[base]) && Empty(g.chunks[base])
    ensures h.ring != [] ==> |g.ring| >= 2 && g.ring[0] == h.ring[0] && g.ring[|g.ring| - 1] == base
  {
    hide Inv, Empty;
  }

  lemma GcKeeps(h: Heap, g: Heap)
    requires |h.free| == BINS && GcOrNot(h, g)
    ensures ListsKept(h, g)
  {
    hide RunAt, Collectable, IsLarge;
    forall b: Bin | h.free[b] == [] && g != h ensures g.free[b] == [] {
      KeepIs(h, h.free[b]);
    }
  }

  lemma NothingLeft(h: Heap, g: Heap)
    requires |h.free| == BINS && Collected(h, g)
    ensures |g.free| == BINS && CountPages(g, g.ring) == 0
  {
    hide Collectable;
    forall i, s: nat | 0 <= i < |g.ring| ensures !Collectable(g, g.ring[i], s) { CollectedTwice(h, g, g.ring[i], s); }
    NothingToCount(g, g.ring);
  }

  /** A chunk joined the ring at its end; it is empty, and nothing else about the blocks changed. */
  ghost predicate NewChunk(h: Heap, g: Heap, base: nat) {
    && g.live == h.live && g.huge == h.huge && g.free == h.free
    && g.ring == h.ring + [base] && base in g.chunks && Inv(g.chunks[base]) && Empty(g.chunks[base])
    && base !in h.ring && (forall b | b in h.ring && b in h.chunks :: b in g.chunks && g.chunks[b] == h.chunks[b])
  }

  lemma NewChunkIs(h: Heap, g: Heap, base: nat, cached: seq<nat>)
    requires Core(h) && Quiet(h) && base in g.chunks && g == HeapOps.AddChunk(h, base, g.chunks[base], cached)
    requires Inv(g.chunks[base]) && CountersZero(g.chunks[base]) && Empty(g.chunks[base]) && ChunkPlace(base) && base !in h.ring
    requires (h.cached != [] && base == h.cached[0] && cached == h.cached[1..]) || (base !in h.chunks && cached == h.cached)
    requires forall j | 0 <= j < |h.huge| :: Apart(base, CHUNK_SIZE, h.huge[j].ptr, h.huge[j].size)
    ensures Core(g) && Quiet(g) && NewChunk(h, g, base)
  {
    hide Core, Quiet, Inv, Empty, CountersZero;
    HeapOps.AddChunkCore(h, base, g.chunks[base], cached);
  }

  lemma CachedFacts(h: Heap)
    requires Core(h)
    ensures h.cached != [] ==>
      var base := h.cached[0];
      base in h.chunks && Empty(h.chunks[base]) && base !in h.ring && ChunkPlace(base)
      && forall j | 0 <= j < |h.huge| :: Apart(base, CHUNK_SIZE, h.huge[j].ptr, h.huge[j].size)
    ensures |h.ring| >= 1 && h.ring[|h.ring| - 1] in h.chunks
  {
    hide Empty, Inv, FreeOk, LiveOk, CompleteBut;
  }

  /** A heap with one chunk as it is after initialisation, and nothing handed out. */
  lemma NewIsPristine(h: Heap, base: nat)
    requires ChunkPlace(base) && h.ring == [base] && h.cached == [] && h.chunks == map[base := ChunkState.Init(Zeroed().info, 0)]
    requires h.huge == [] && h.live == map[] && |h.free| == BINS && forall b: Bin :: h.free[b] == []
    ensures HeapOps.Pristine(h) && Core(h) && Quiet(h)
  {
    hide Core, Quiet, ChunkState.Init, Inv, CountersZero, Empty, Zeroed;
    InitInv(Zeroed().info, 0);
    HeapOps.PristineCore(h);
  }

  lemma LastInRing(h: Heap)
    requires Core(h)
    ensures |h.ring| >= 1 && h.ring[|h.ring| - 1] in h.chunks
  {
    CachedFacts(h);
  }

  lemma FreshBase(h: Heap, base: nat)
    requires Core(h) && HeapOps.FreshRegion(h, base, CHUNK_SIZE)
    ensures base !in h.chunks && base !in h.ring && ChunkPlace(base)
    ensures forall j | 0 <= j < |h.huge| :: Apart(base, CHUNK_SIZE, h.huge[j].ptr, h.huge[j].size)
  {
    hide Empty, Inv, FreeOk, LiveOk, CompleteBut;
  }

  lemma RingMain(h: Heap)
    requires RingOk(h)
    ensures |h.ring| >= 1 && h.ring[0] in h.chunks && h.ring[0] !in h.cached
  {
  }

  lemma RingSameKeys(h: Heap, g: Heap)
    requires RingOk(h) && g.ring == h.ring && g.cached == h.cached && g.chunks.Keys == h.chunks.Keys
    ensures RingOk(g)
  {
  }

  lemma CoreRingChunks(h: Heap)
    requires Core(h)
    ensures RingOk(h) && ChunksOk(h) && forall i | 0 <= i < |h.ring| :: h.ring[i] in h.chunks
  {
  }

  lemma LeavesRing(h: Heap, i: nat, how: HeapOps.Deletion)
    requires RingOk(h) && 1 <= i < |h.ring| && (how.Replace? ==> h.cached != [])
    ensures h.ring[i] !in HeapOps.DeleteChunk(h, i, how).ring
  {
    HeapOps.WithoutIs(h.ring, i);
  }

  lemma HeapChunk(h: Heap, base: nat)
    requires Core(h) && base in h.ring
    ensures base in h.chunks && WellSized(h.chunks[base]) && Inv(h.chunks[base]) && base % CHUNK_SIZE == 0 && base > 0
    ensures forall r | IsRun(h.chunks[base], r) :: r < h.chunks[base].freeTail
    ensures 1 <= h.chunks[base].freeTail <= PAGES
  {
    hide FreeOk, LiveOk, CompleteBut, Quiet, Counted;
    CoreChunk(h, base);
    var c := h.chunks[base];
    forall r | IsRun(c, r) ensures r < c.freeTail { assert RunOk(c, r); }
  }

  /** Subtraction of size_t values. */
  function SizeSub(a: int, b: int): int {
    (a - b) % (SIZE_MAX + 1)
  }

  ghost predicate GcOrNot(h: Heap, g: Heap)
    requires |h.free| == BINS
  {
    g == h || Collected(h, g)
  }

  lemma CoreFree(h: Heap)
    requires Core(h)
    ensures |h.free| == BINS && |h.ring| >= 1
  {
  }

  /** If no run of the bin is full, filtering would change nothing. */
  lemma NoneFullKeeps(h: Heap, b: Bin)
    requires Core(h) && |h.free| == BINS && NoneFull(h, b, |h.free[b]|)
    ensures Keep(h, h.free[b]) == h.free[b]
  {
    hide ChunkBase, PageOf, BinElements, Inv, SlotOffset, RegionsOk, LiveOk, CompleteBut, AllSlotsIn, SlotsIn, IsSlot;
    assert h.free[b][..|h.free[b]|] == h.free[b];
    forall x | x in h.free[b] ensures !CollectableSlot(h, x) {
      assert IsSlot(h, x, b);
      SlotRun(h, x, b);
      var base := ChunkBase(x);
      var s := h.chunks[base].owner[PageOf(x)];
      assert RunAt(h, base, s, s, b);
      SlotsInBound(h.free[b], base, s, b);
    }
    KeepAll(h, h.free[b]);
  }

  /** Counting looks at the chunks, not at the lists of the current heap. */
  lemma CountsFree(h0: Heap, h: Heap, h': Heap, b: Bin)
    requires |h0.free| == BINS && Counts(h0, h, b, |h0.free[b]|) && h' == h.(free := h'.free)
    ensures Counts(h0, h', b, |h0.free[b]|)
  {
    hide ChunkCounts;
  }

  lemma SweepingFacts(h0: Heap, h: Heap, n: nat, base: nat)
    requires |h0.free| == BINS && n <= |h0.ring| && Sweeping(h0, h, n) && base in h.ring
    ensures base in h.chunks && Inv(h.chunks[base]) && WellSized(h.chunks[base])
  {
    hide RegionsOk, FreeOk, LiveOk, CompleteBut, Unswept, RunsLeft, Lost;
    CoreChunk(h, base);
  }

  lemma SweepingFacts2(h0: Heap, h: Heap, n: nat)
    requires |h0.free| == BINS && n <= |h0.ring| && Sweeping(h0, h, n)
    ensures RingOk(h) && ChunksOk(h)
  {
  }

  /** None of the chunks at ring positions 1 to k - 1 is empty. */
  ghost predicate NoneEmpty(h: Heap, k: nat) {
    forall i | 1 <= i < k && i < |h.ring| :: h.ring[i] in h.chunks && h.chunks[h.ring[i]].freePages != PAGES - 1
  }

  lemma NoneEmptyAfter(h: Heap, g: Heap, k: nat, how: HeapOps.Deletion)
    requires RingOk(h) && 1 <= k < |h.ring| && (how.Replace? ==> h.cached != []) && g == HeapOps.DeleteChunk(h, k, how)
    ensures NoneEmpty(h, k) ==> NoneEmpty(g, k)
  {
  }

  lemma NoneEmptyMore(h: Heap, g: Heap, k: nat)
    requires RingOk(h) && k < |h.ring| && g.ring == h.ring && h.ring[k] in g.chunks
    requires g.chunks == h.chunks[h.ring[k] := g.chunks[h.ring[k]]] && NoneEmpty(h, k)
    ensures NoneEmpty(g, k)
    ensures g.chunks[h.ring[k]].freePages != PAGES - 1 || h.ring[k] == h.ring[0] ==> NoneEmpty(g, k + 1)
  {
  }

  /** A chunk without a full run has as many free pages after its sweep as before the collection. */
  lemma SweptSame(h0: Heap, h: Heap, n: nat, d: Chunk)
    requires Core(h0) && |h0.free| == BINS && n < |h0.ring| && Sweeping(h0, h, n)
    requires h0.ring[n] in h.chunks && ChunkSweep.SweptTo(h.chunks[h0.ring[n]], d, PAGES)
    ensures |ChunkSweep.FullPages(h.chunks[h0.ring[n]], PAGES)| == 0 && NoneEmpty(h0, |h0.ring|) && n >= 1 ==> d.freePages != PAGES - 1
  {
    hide RegionsOk, FreeOk, LiveOk, CompleteBut, RunsLeft, Lost, CoreBut, Partition;
    var base := h0.ring[n];
    assert base in h0.ring[n..];
    assert Unswept(h0, h, base);
    HeapChunk(h0, base);
    if |ChunkSweep.FullPages(h.chunks[base], PAGES)| == 0 {
      assert FreeSet(d) == FreeSet(h.chunks[base]) == FreeSet(h0.chunks[base]);
    }
  }

  lemma SweepingRing(h0: Heap, h: Heap, n: nat)
    requires |h0.free| == BINS && n <= |h0.ring| && Sweeping(h0, h, n)
    ensures RingOk(h)
  {
  }

  lemma FilterStep(h0: Heap, h: Heap, b: Bin, j: nat)
    requires Core(h0) && |h0.free| == BINS && Counts(h0, h, b, |h0.free[b]|) && j < |h0.free[b]|
    ensures var a := h0.free[b][j]; ChunkBase(a) in h.chunks && WellSized(h.chunks[ChunkBase(a)])
    ensures var a := h0.free[b][j]; var c := h.chunks[ChunkBase(a)]; var s := c.owner[PageOf(a)];
      && 1 <= s <= PageOf(a) && c.info[s].SRun? && c.info[s].bin == b
      && (PageOf(a) == s || c.info[PageOf(a)] == NRun(b, PageOf(a) - s))
      && (c.info[s].freeCounter == BinElements(b) <==> CollectableSlot(h0, a))
  {
    hide ChunkBase, PageOf, BinElements, Collectable, IsSlot, Inv, SlotOffset, CounterOnly, RegionsOk, LiveOk;
    hide CompleteBut;
    var a := h0.free[b][j];
    assert IsSlot(h0, a, b);
    SlotRun(h0, a, b);
    var base := ChunkBase(a);
    assert ChunkCounts(h0, h0.chunks[base], h.chunks[base], base, b, |h0.free[b]|);
    CounterOnlySame(h0.chunks[base], h.chunks[base]);
    CountedFull(h0, h, b, base, h0.chunks[base].owner[PageOf(a)]);
  }

  /** No run of the bin has all its slots among the first j of the list. */
  ghost predicate NoneFull(h: Heap, b: Bin, j: nat)
    requires |h.free| == BINS && j <= |h.free[b]|
  {
    forall base: nat, s: nat | RunAt(h, base, s, s, b) :: |SlotsIn(h.free[b][..j], base, s, b)| < BinElements(b)
  }

  lemma NoneFullStart(h: Heap, b: Bin)
    requires |h.free| == BINS
    ensures NoneFull(h, b, 0)
  {
    hide RunAt, SlotOffset, BinElements;
    BinFacts(b);
    assert forall base: nat, s: nat :: SlotsIn(h.free[b][..0], base, s, b) == {};
  }

  lemma NoneFullStep(h: Heap, b: Bin, j: nat, base: nat, s: nat)
    requires Core(h) && |h.free| == BINS && j < |h.free[b]| && NoneFull(h, b, j)
    requires base == ChunkBase(h.free[b][j]) && RunAt(h, base, s, s, b) && h.chunks[base].owner[PageOf(h.free[b][j])] == s
    requires |SlotsIn(h.free[b][..j + 1], base, s, b)| != BinElements(b)
    ensures NoneFull(h, b, j + 1)
  {
    hide SlotOffset, BinElements, SlotsIn, ChunkBase, PageOf, RegionsOk, LiveOk, CompleteBut, Inv, SmallRunOf, IsSlot;
    var a := h.free[b][j];
    assert IsSlot(h, a, b);
    forall r: nat, t: nat | RunAt(h, r, t, t, b)
      ensures |SlotsIn(h.free[b][..j + 1], r, t, b)| < BinElements(b)
    {
      SlotsInStep(h.free[b], j, r, t, b);
      SlotsInBound(h.free[b][..j + 1], r, t, b);
      if SlotOffset(a - PageAddr(r, t), b) {
        RunInRing(h, r, t, b);
        OneRun(h, a, r, t, b);
      }
    }
  }

  lemma RunInRing(h: Heap, base: nat, s: nat, b: Bin)
    requires Core(h) && RunAt(h, base, s, s, b)
    ensures base in h.ring && base in h.chunks && base % CHUNK_SIZE == 0 && Inv(h.chunks[base])
  {
    hide Inv, FreeOk, LiveOk, CompleteBut;
  }

  // ---- relations between the heap before and after ------------------------------

  /** Only tail marks moved. */
  ghost predicate TailsMoved(h: Heap, g: Heap) {
    && g == h.(chunks := g.chunks) && g.chunks.Keys == h.chunks.Keys
    && forall b | b in h.chunks :: g.chunks[b] == h.chunks[b].(freeTail := g.chunks[b].freeTail)
  }

  /** count pages at ptr became a live large block; the other blocks are untouched. */
  ghost predicate PagesGiven(h: Heap, g: Heap, ptr: nat, count: nat) {
    && ptr !in h.live && g.live == h.live[ptr := Large(count)] && g.huge == h.huge
    && |g.free| == |h.free| == BINS && (forall b: Bin :: h.free[b] == [] ==> g.free[b] == [])
    && ChunkBase(ptr) in g.ring && IsLarge(g, ptr, count)
  }

  ghost predicate NoRoomIn(c: Chunk, count: nat) {
    WellSized(c) && forall p: nat, len: nat | MaximalFreeRun(c, p, len) :: len < count
  }

  ghost predicate NoRoomAt(h: Heap, k: nat, count: nat) {
    k < |h.ring| && h.ring[k] in h.chunks && NoRoomIn(h.chunks[h.ring[k]], count)
  }

  /** The chunk at ring position i is the first with a free run of count pages. */
  ghost predicate FirstRoom(h: Heap, i: nat, count: nat) {
    i < |h.ring| && !NoRoomAt(h, i, count) && forall k | 0 <= k < i :: NoRoomAt(h, k, count)
  }

  /** No new memory is needed for count pages: a chunk of the ring has room, or a chunk is cached. */
  ghost predicate PagesAtHand(h: Heap, count: nat) {
    h.cached != [] || exists i :: FirstRoom(h, i, count)
  }

  /** No new memory is needed for a block of bin b. */
  ghost predicate SmallAtHand(h: Heap, b: Bin)
    requires |h.free| == BINS
  {
    h.free[b] != [] || PagesAtHand(h, BinPages(b))
  }

  /** ptr is the best fit in the chunk at ring position i. */
  ghost predicate FitsIn(h: Heap, i: nat, count: nat, ptr: nat) {
    && i < |h.ring| && h.ring[i] in h.chunks && WellSized(h.chunks[h.ring[i]])
    && exists page: nat, len: nat :: BestFreeRun(h.chunks[h.ring[i]], page, len, count) && ptr == PageAddr(h.ring[i], page)
  }

  lemma TailMoved(h: Heap, g: Heap, g': Heap, base: nat)
    requires TailsMoved(h, g) && base in g.chunks && base in g'.chunks
    requires g' == g.(chunks := g.chunks[base := g.chunks[base].(freeTail := g'.chunks[base].freeTail)])
    ensures TailsMoved(h, g')
  {
  }

  lemma SameFreeRuns(c: Chunk, tail: nat)
    requires WellSized(c)
    ensures forall p: nat, len: nat :: MaximalFreeRun(c.(freeTail := tail), p, len) <==> MaximalFreeRun(c, p, len)
  {
  }

  lemma NoRoomStill(h: Heap, g: Heap, i: nat, count: nat)
    requires TailsMoved(h, g) && i < |h.ring| && h.ring[i] in h.chunks && NoRoomIn(g.chunks[h.ring[i]], count)
    ensures NoRoomAt(h, i, count)
  {
    hide MaximalFreeRun;
    var c := h.chunks[h.ring[i]];
    SameFreeRuns(c, g.chunks[h.ring[i]].freeTail);
  }

  lemma FoundIn(h: Heap, g: Heap, i: nat, page: nat, count: nat)
    requires TailsMoved(h, g) && i < |h.ring| && h.ring[i] in h.chunks && WellSized(g.chunks[h.ring[i]]) && 1 <= count
    requires exists len: nat :: BestFreeRun(g.chunks[h.ring[i]], page, len, count)
    requires forall k | 0 <= k < i :: NoRoomAt(h, k, count)
    ensures FitsIn(h, i, count, PageAddr(h.ring[i], page)) && FirstRoom(h, i, count)
    ensures forall k | 0 <= k < |h.ring| :: FirstRoom(h, k, count) ==> k == i
    ensures PagesAtHand(h, count)
  {
    hide MaximalFreeRun;
    var c := h.chunks[h.ring[i]];
    var len: nat :| BestFreeRun(g.chunks[h.ring[i]], page, len, count);
    SameFreeRuns(c, g.chunks[h.ring[i]].freeTail);
    assert BestFreeRun(c, page, len, count);
    assert FirstRoom(h, i, count);
  }

  lemma NoFirstRoom(h: Heap, count: nat)
    requires forall k | 0 <= k < |h.ring| :: NoRoomAt(h, k, count)
    ensures forall i | 0 <= i < |h.ring| :: !FirstRoom(h, i, count)
    ensures PagesAtHand(h, count) <==> h.cached != []
  {
  }

  lemma EmptyHasRoom(c: Chunk, count: nat)
    requires Empty(c) && Inv(c) && 1 <= count < PAGES
    ensures WellSized(c) && FreeRange(c, 1, count) && 1 <= c.freeTail
  {
    hide Counted;
  }

  lemma GivenIs(h: Heap, g: Heap, k: Heap, base: nat, page: nat, count: nat)
    requires |h.free| == BINS && g == h.(ring := g.ring) && base in g.ring && base in g.chunks && base % CHUNK_SIZE == 0
    requires WellSized(g.chunks[base]) && 1 <= page && 1 <= count && page + count <= PAGES && PageAddr(base, page) !in g.live
    requires k == HeapOps.TakeRun(g, base, page, count, g.chunks[base].freeTail) && LargeRunOf(k.chunks[base], page, count)
    ensures PagesGiven(h, k, PageAddr(base, page), count)
  {
    hide LargeRunOf, ChunkBase, PageOf;
    HeapOps.PageStart(base, page);
  }

  lemma GivenAfterTails(h: Heap, g: Heap, k: Heap, ptr: nat, count: nat)
    requires TailsMoved(h, g) && PagesGiven(g, k, ptr, count)
    ensures PagesGiven(h, k, ptr, count)
  {
    hide IsLarge, ChunkBase;
  }

  lemma TailsKeepLists(h: Heap, g: Heap)
    requires TailsMoved(h, g) && |h.free| == BINS
    ensures ListsKept(h, g)
  {
  }

  lemma GivenAfterKept(h: Heap, g: Heap, g': Heap, k: Heap, ptr: nat, count: nat)
    requires TailsMoved(h, g) && ListsKept(g, g') && PagesGiven(g', k, ptr, count)
    ensures PagesGiven(h, k, ptr, count)
  {
    hide IsLarge, ChunkBase;
  }

  /** A block was handed out at ptr; nothing else changed for anybody. */
  ghost predicate Gave(h: Heap, g: Heap, ptr: nat, b: Block) {
    ptr !in h.live && g.live == h.live[ptr := b] && g.huge == h.huge
  }

  // ---- sums over the live blocks -----------------------------------------------

  lemma {:induction false} SumLiveAt(live: map<nat, Block>, a: nat)
    requires a in live
    ensures SumLive(live) == Usable(live[a]) + SumLive(live - {a})
    decreases |live|
  {
    hide Usable;
    var b :| b in live && SumLive(live) == Usable(live[b]) + SumLive(live - {b});
    if b != a {
      SumLiveAt(live - {b}, a);
      SumLiveAt(live - {a}, b);
      assert live - {b} - {a} == live - {a} - {b};
    }
  }

  lemma SumLiveAdd(live: map<nat, Block>, a: nat, b: Block)
    requires a !in live
    ensures SumLive(live[a := b]) == SumLive(live) + Usable(b)
  {
    SumLiveAt(live[a := b], a);
    assert live[a := b] - {a} == live;
  }

  lemma SumLiveChange(live: map<nat, Block>, a: nat, b: Block)
    requires a in live
    ensures SumLive(live[a := b]) == SumLive(live) - Usable(live[a]) + Usable(b)
  {
    SumLiveAt(live, a);
    SumLiveAt(live[a := b], a);
    assert live[a := b] - {a} == live - {a};
  }

  // ---- the contents of blocks -------------------------------------------------

  /** The contents of all the blocks in live are as before. */
  ghost predicate BlocksSame(live: map<nat, Block>, m: Memory, m': Memory) {
    forall a, i: nat | a in live && i < Usable(live[a]) :: ByteAt(m', a, i) == ByteAt(m, a, i)
  }

  lemma BlocksSameRefl(live: map<nat, Block>, m: Memory)
    ensures BlocksSame(live, m, m)
  {
  }

  lemma BlocksSameTrans(live: map<nat, Block>, m: Memory, m1: Memory, m2: Memory)
    requires BlocksSame(live, m, m1) && BlocksSame(live, m1, m2)
    ensures BlocksSame(live, m, m2)
  {
    hide Usable;
  }

  lemma OutsideKeepsBlocks(h: Heap, a: nat, m: Memory, m': Memory, n: nat)
    requires Core(h) && a in h.live && n <= Usable(h.live[a]) && SameOutside(m, m', a, n)
    ensures BlocksSame(h.live - {a}, m, m')
  {
    hide Core, Usable;
    forall x, i: nat | x in h.live - {a} && i < Usable(h.live[x])
      ensures ByteAt(m', x, i) == ByteAt(m, x, i)
    {
      HeapOps.LiveBlocksDisjoint(h, a, x);
    }
  }

  lemma GivenGave(h: Heap, g: Heap, ptr: nat, count: nat)
    requires PagesGiven(h, g, ptr, count)
    ensures Gave(h, g, ptr, Large(count))
  {
  }

  lemma KeptLive(h: Heap, g: Heap)
    requires ListsKept(h, g)
    ensures g.live == h.live && g.huge == h.huge
  {
  }

  /** The pages just given can be split into slots. */
  lemma GivenPages(h: Heap, g: Heap, ptr: nat, b: Bin)
    requires Core(g) && PagesGiven(h, g, ptr, BinPages(b)) && h.free[b] == []
    ensures var base, page := ChunkBase(ptr), PageOf(ptr);
      && base in g.ring && base in g.chunks && LargeRunOf(g.chunks[base], page, BinPages(b)) && ptr == PageAddr(base, page)
      && page + BinPages(b) <= PAGES && base % CHUNK_SIZE == 0
    ensures |g.free| == |h.free| == BINS && g.free[b] == [] && g.live == h.live[ptr := Large(BinPages(b))] && ptr !in h.live
    ensures g.huge == h.huge
  {
    hide ChunkBase, PageOf, BinPages;
    HeapChunk(g, ChunkBase(ptr));
    HeapOps.FreeLargeRuns(g.chunks[ChunkBase(ptr)], PageOf(ptr), BinPages(b));
  }

  /** Walking over the slots of a run. */
  lemma SlotOfRun(ptr: nat, b: Bin, k: nat)
    requires k < BinElements(b)
    ensures ptr <= HeapOps.SlotAddr(ptr, b, k)
    ensures HeapOps.SlotAddr(ptr, b, k) + BinSize(b) <= ptr + PAGE_SIZE * BinPages(b)
    ensures HeapOps.SlotAddr(ptr, b, k) + BinSize(b) == HeapOps.SlotAddr(ptr, b, k + 1)
    ensures k < BinElements(b) - 1 ==> HeapOps.SlotAddr(ptr, b, k) < HeapOps.SlotAddr(ptr, b, BinElements(b) - 1)
  {
    hide BinSize, BinPages, BinElements;
    BinFacts(b);
    MulMono(k + 1, BinElements(b), BinSize(b));
    if k < BinElements(b) - 1 {
      MulMono(k + 1, BinElements(b) - 1, BinSize(b));
    }
  }

  lemma LastSlot(ptr: nat, b: Bin)
    ensures BinElements(b) >= 4
    ensures HeapOps.SlotAddr(ptr, b, 0) == ptr
    ensures ptr + BinSize(b) * (BinElements(b) - 1) == HeapOps.SlotAddr(ptr, b, BinElements(b) - 1)
  {
    hide BinSize, BinPages, BinElements;
    BinFacts(b);
  }

  // ---- freeing ------------------------------------------------------------------

  function IndexOf(s: seq<nat>, x: nat): (i: nat)
    requires x in s
    ensures i < |s| && s[i] == x
  {
    if s[0] == x then 0 else 1 + IndexOf(s[1..], x)
  }

  ghost predicate IsNode(h: Heap, a: nat) {
    exists j | 0 <= j < |h.huge| :: h.huge[j].node == a
  }

  /** The blocks the clients of the heap hold: the live ones but for the nodes of the huge list. */
  ghost function Clients(h: Heap): map<nat, Block> {
    map a | a in h.live && !IsNode(h, a) :: h.live[a]
  }

  lemma GaveClients(h: Heap, g: Heap, ptr: nat, b: Block)
    requires Core(h) && Gave(h, g, ptr, b)
    ensures ptr !in Clients(h) && Clients(g) == Clients(h)[ptr := b]
  {
    hide RingOk, RegionsOk, ChunksOk, FreeOk, LiveOk;
  }

  /** Where a live small or large block lies, and what the page map says there: the routing of zend_mm_free_heap. */
  lemma BlockPage(h: Heap, a: nat)
    requires Core(h) && a in h.live && !h.live[a].Huge?
    ensures var base, page := ChunkBase(a), PageOf(a); base in h.ring && base in h.chunks && a % CHUNK_SIZE != 0
    ensures WellSized(h.chunks[ChunkBase(a)]) && Inv(h.chunks[ChunkBase(a)])
    ensures h.live[a].Small? ==>
      var i := h.chunks[ChunkBase(a)].info[PageOf(a)]; i.IsSRun() && i.bin == h.live[a].bin && h.live[a].bin >= 1
    ensures h.live[a].Large? ==>
      LargeRunOf(h.chunks[ChunkBase(a)], PageOf(a), h.live[a].pages) && a == PageAddr(ChunkBase(a), PageOf(a))
  {
    hide ChunkBase, PageOf, SlotOffset, BinPages, BinSize, Counted, FreeOk, CompleteBut, RegionsOk;
    HeapOps.CoreHuge(h);
    assert BlockOk(h, a, h.live[a]);
    if h.live[a].Small? {
      SlotRun(h, a, h.live[a].bin);
      assert RunOk(h.chunks[ChunkBase(a)], h.chunks[ChunkBase(a)].owner[PageOf(a)]);
    } else {
      HeapOps.ChunkOfRun(h, a, ChunkBase(a));
    }
    PageZero(a);
  }

  lemma PageZero(a: nat)
    ensures PageOf(a) >= 1 ==> a % CHUNK_SIZE != 0
  {
  }

  lemma HugeAligned(h: Heap, a: nat)
    requires Core(h) && a in h.live && h.live[a].Huge?
    ensures a % CHUNK_SIZE == 0 && a > 0 && IsHuge(h, a, h.live[a].bytes)
  {
    hide RingOk, ChunksOk, FreeOk, CompleteBut;
  }

  lemma Freed(h: Heap, ptr: nat)
    requires ptr in h.live
    ensures SumLive(h.live - {ptr}) == SumLive(h.live) - Usable(h.live[ptr])
  {
    SumLiveAt(h.live, ptr);
  }

  /** A block is gone; nothing else changed for anybody. */
  ghost predicate Took(h: Heap, g: Heap, ptr: nat) {
    ptr in h.live && g.live == h.live - {ptr} && g.huge == h.huge
  }

  lemma RunLarge(c: Chunk, s: nat, n: nat)
    requires Inv(c) && LargeRunOf(c, s, n)
    ensures 1 <= s && 1 <= n && s + n <= PAGES
  {
    HeapOps.FreeLargeRuns(c, s, n);
  }

  lemma DeleteCore(h: Heap, i: nat, how: HeapOps.Deletion)
    requires Core(h) && 1 <= i < |h.ring| && (how.Replace? ==> h.cached != [])
    requires h.ring[i] in h.chunks && Empty(h.chunks[h.ring[i]])
    ensures Core(HeapOps.DeleteChunk(h, i, how)) && (Quiet(h) ==> Quiet(HeapOps.DeleteChunk(h, i, how)))
    ensures HeapOps.DeleteChunk(h, i, how).live == h.live && HeapOps.DeleteChunk(h, i, how).huge == h.huge
  {
    HeapOps.DeleteChunkCore(h, i, how, {});
  }

  // ---- huge blocks --------------------------------------------------------------

  const REAL_PAGE_SIZE := 4096

  /** ZEND_MM_ALIGNED_SIZE_EX(size, REAL_PAGE_SIZE) in size_t arithmetic. */
  function AlignedSize(size: nat): nat {
    AlignUp(size, REAL_PAGE_SIZE)
  }

  /** Rounding up wraps exactly for the last 4095 sizes; zend_mm_alloc_huge tests for it. */
  lemma AlignedSizeWraps(size: nat)
    requires size <= SIZE_MAX
    ensures AlignedSize(size) < size <==> size > SIZE_MAX - REAL_PAGE_SIZE + 1
    ensures AlignedSize(size) < size ==> AlignedSize(size) == 0
    ensures AlignedSize(size) >= size > MAX_LARGE_SIZE ==> AlignedSize(size) >= CHUNK_SIZE
    ensures AlignedSize(size) >= size ==> AlignedSize(size) < size + REAL_PAGE_SIZE
  {
  }

  function HugeIndexOf(huge: seq<HugeNode>, ptr: nat): (i: nat)
    requires exists j | 0 <= j < |huge| :: huge[j].ptr == ptr
    ensures i < |huge| && huge[i].ptr == ptr
  {
    if huge[0].ptr == ptr then 0
    else
      assert exists j | 0 <= j < |huge[1..]| :: huge[1..][j].ptr == ptr by {
        var j :| 0 <= j < |huge| && huge[j].ptr == ptr;
        assert huge[1..][j - 1] == huge[j];
      }
      1 + HugeIndexOf(huge[1..], ptr)
  }

  lemma {:induction false} SumHugeAt(huge: seq<HugeNode>, j: nat)
    requires j < |huge|
    ensures SumHuge(huge[..j] + huge[j + 1..]) == SumHuge(huge) - huge[j].size
    ensures forall n :: SumHuge(huge[j := huge[j].(size := n)]) == SumHuge(huge) - huge[j].size + n
  {
    if j == 0 {
      assert huge[..0] + huge[1..] == huge[1..];
    } else {
      SumHugeAt(huge[1..], j - 1);
      assert (huge[..j] + huge[j + 1..])[1..] == huge[1..][..j - 1] + huge[1..][j..];
      forall n: nat ensures huge[j := huge[j].(size := n)][1..] == huge[1..][j - 1 := huge[j].(size := n)] {}
    }
  }

  lemma SumHugeAdd(huge: seq<HugeNode>, node: HugeNode)
    ensures SumHuge([node] + huge) == SumHuge(huge) + node.size
  {
    assert ([node] + huge)[1..] == huge;
  }

  /** A node was handed out: the region found before is still nobody's. */
  lemma StillFresh(h: Heap, g: Heap, ptr: nat, n: nat)
    requires HeapOps.FreshRegion(h, ptr, n) && g.huge == h.huge
    requires forall b | b in g.chunks :: Apart(b, CHUNK_SIZE, ptr, n)
    ensures HeapOps.FreshRegion(g, ptr, n)
  {
  }

  lemma NodeNew(h: Heap, node: nat)
    requires Core(h) && node !in h.live
    ensures forall j | 0 <= j < |h.huge| :: h.huge[j].node != node
  {
    HeapOps.CoreHuge(h);
  }

  /** A huge block and the node for it were handed out. */
  ghost predicate HugeAdded(h: Heap, g: Heap, node: nat, ptr: nat, n: nat) {
    && node !in h.live && ptr !in h.live && node != ptr
    && g.live == h.live[node := Small(NODE_BIN)][ptr := Huge(n)]
    && g.huge == [HugeNode(node, ptr, n)] + h.huge
  }

  ghost predicate HugeMade(h: Heap, g: Heap, ptr: nat, n: nat) {
    exists node: nat :: HugeAdded(h, g, node, ptr, n)
  }

  lemma HugeMadeClients(h: Heap, g: Heap, ptr: nat, n: nat)
    requires Core(h) && HugeMade(h, g, ptr, n)
    ensures ptr !in Clients(h) && Clients(g) == Clients(h)[ptr := Huge(n)]
  {
    hide Core;
    var node: nat :| HugeAdded(h, g, node, ptr, n);
    HugeAddedClients(h, g, node, ptr, n);
  }

  lemma HugeAddedClients(h: Heap, g: Heap, node: nat, ptr: nat, n: nat)
    requires Core(h) && HugeAdded(h, g, node, ptr, n)
    ensures ptr !in Clients(h) && Clients(g) == Clients(h)[ptr := Huge(n)]
  {
    hide RingOk, RegionsOk, ChunksOk, FreeOk, LiveOk;
    assert g.huge[0].node == node;
    assert forall j | 0 < j < |g.huge| :: g.huge[j] == h.huge[j - 1];
    assert forall j | 0 <= j < |h.huge| :: h.huge[j] == g.huge[j + 1];
    assert forall a :: IsNode(g, a) <==> a == node || IsNode(h, a);
  }

  lemma SumHugeAdded(h: Heap, g: Heap, node: nat, ptr: nat, n: nat)
    requires HugeAdded(h, g, node, ptr, n)
    ensures SumHuge(g.huge) == SumHuge(h.huge) + n
    ensures SumLive(g.live) == SumLive(h.live) + BinSize(NODE_BIN) + n
  {
    SumHugeAdd(h.huge, HugeNode(node, ptr, n));
    SumLiveAdd(h.live, node, Small(NODE_BIN));
    SumLiveAdd(h.live[node := Small(NODE_BIN)], ptr, Huge(n));
  }

  lemma GaveNode(h: Heap, g: Heap, k: Heap, node: nat, ptr: nat, n: nat)
    requires Core(h) && Gave(h, g, node, Small(NODE_BIN)) && k == HeapOps.AddHuge(g, node, ptr, n) && ptr !in g.live
    ensures HugeAdded(h, k, node, ptr, n)
  {
  }

  /** A huge block and its node are gone. */
  ghost predicate HugeTaken(h: Heap, g: Heap, j: nat) {
    && j < |h.huge| && h.huge[j].ptr in h.live && h.huge[j].node in h.live
    && g.huge == h.huge[..j] + h.huge[j + 1..]
    && g.live == h.live - {h.huge[j].ptr} - {h.huge[j].node}
  }

  ghost predicate HugeGone(h: Heap, g: Heap, ptr: nat) {
    exists j: nat :: HugeTaken(h, g, j) && h.huge[j].ptr == ptr
  }

  lemma HugeGoneClients(h: Heap, g: Heap, ptr: nat)
    requires Core(h) && HugeGone(h, g, ptr)
    ensures Clients(g) == Clients(h) - {ptr} && ptr in Clients(h) && g.live.Keys <= h.live.Keys
  {
    hide Core;
    var j: nat :| HugeTaken(h, g, j) && h.huge[j].ptr == ptr;
    HugeTakenClients(h, g, j);
  }

  lemma NodesLess(h: Heap, g: Heap, j: nat)
    requires HugeLive(h) && j < |h.huge| && g.huge == h.huge[..j] + h.huge[j + 1..]
    ensures IsNode(h, h.huge[j].node) && !IsNode(h, h.huge[j].ptr)
    ensures forall a | a != h.huge[j].node :: IsNode(g, a) <==> IsNode(h, a)
  {
    assert Has(h.live, h.huge[j].ptr, Huge(h.huge[j].size)) && Has(h.live, h.huge[j].node, Small(NODE_BIN));
    forall a | a != h.huge[j].node ensures IsNode(g, a) <==> IsNode(h, a) { NodeLess(h.huge, g.huge, j, a); }
  }

  lemma NodeLess(huge: seq<HugeNode>, rest: seq<HugeNode>, j: nat, a: nat)
    requires j < |huge| && rest == huge[..j] + huge[j + 1..] && a != huge[j].node
    ensures (exists k | 0 <= k < |rest| :: rest[k].node == a) <==> (exists k | 0 <= k < |huge| :: huge[k].node == a)
  {
    if exists k | 0 <= k < |huge| :: huge[k].node == a {
      var k :| 0 <= k < |huge| && huge[k].node == a;
      assert rest[if k < j then k else k - 1] == huge[k];
    }
  }

  lemma HugeTakenClients(h: Heap, g: Heap, j: nat)
    requires Core(h) && HugeTaken(h, g, j)
    ensures Clients(g) == Clients(h) - {h.huge[j].ptr} && h.huge[j].ptr in Clients(h)
  {
    hide Core, RegionsOk, LiveOk, HugeLive, IsNode;
    HeapOps.CoreHuge(h);
    NodesLess(h, g, j);
  }

  lemma TookClients(h: Heap, g: Heap, ptr: nat)
    requires Took(h, g, ptr) && !IsNode(h, ptr)
    ensures Clients(g) == Clients(h) - {ptr}
  {
  }

  /** A client block keeps its place but has another size. */
  ghost predicate Resized(h: Heap, g: Heap, ptr: nat, b: Block) {
    ptr in h.live && g.live == h.live[ptr := b] && |g.huge| == |h.huge|
    && forall j | 0 <= j < |h.huge| :: g.huge[j].node == h.huge[j].node && g.huge[j].ptr == h.huge[j].ptr
  }

  lemma ResizedClients(h: Heap, g: Heap, ptr: nat, b: Block)
    requires Resized(h, g, ptr, b) && ptr in Clients(h)
    ensures Clients(g) == Clients(h)[ptr := b]
  {
    assert forall a :: IsNode(g, a) <==> IsNode(h, a);
  }

  lemma FreshIsClear(h: Heap, ptr: nat, n: nat)
    requires Core(h) && HeapOps.FreshRegion(h, ptr, n)
    ensures forall b | b in h.chunks :: ClearOf([(ptr, n)], b, CHUNK_SIZE)
    ensures ptr !in h.live
  {
    HeapOps.CoreHuge(h);
    HeapOps.HugeAddress(h, ptr, n);
    HeapOps.NotLive(h, ptr);
  }

  lemma HugeAddedKept(h: Heap, g: Heap, k: Heap, node: nat, ptr: nat, n: nat)
    requires g.live == h.live && g.huge == h.huge && HugeAdded(g, k, node, ptr, n)
    ensures HugeMade(h, k, ptr, n)
  {
    assert HugeAdded(h, k, node, ptr, n);
  }

  lemma HugeFound(h: Heap, ptr: nat, j: nat)
    requires Core(h) && ptr in h.live && h.live[ptr].Huge? && j <= |h.huge|
    requires (j < |h.huge| ==> h.huge[j].ptr == ptr) && forall k | 0 <= k < j :: h.huge[k].ptr != ptr
    ensures j < |h.huge| && h.live[ptr] == Huge(h.huge[j].size)
    ensures Has(h.live, h.huge[j].node, Small(NODE_BIN))
  {
    hide Core, RegionsOk, LiveOk;
    HeapOps.CoreHuge(h);
    HugeAligned(h, ptr);
  }

  /** What a client can pass to free: NULL, a huge block at a chunk boundary, or a block inside a chunk. */
  lemma ClientAddress(h: Heap, ptr: nat)
    requires Core(h)
    ensures ptr in Clients(h) ==> ptr in h.live && !IsNode(h, ptr) && (h.live[ptr].Huge? <==> ptr % CHUNK_SIZE == 0)
    ensures ptr !in Clients(h) ==> Clients(h) - {ptr} == Clients(h)
    ensures 0 !in Clients(h)
  {
    hide Core, ChunkBase, PageOf, IsNode, Inv, SlotIn, LargeIn;
    if ptr in h.live && h.live[ptr].Huge? { HugeAligned(h, ptr); }
    if ptr in h.live && !h.live[ptr].Huge? { BlockPage(h, ptr); }
    if 0 in h.live && h.live[0].Huge? { HugeAligned(h, 0); }
    if 0 in h.live && !h.live[0].Huge? { BlockPage(h, 0); }
  }

  lemma TookLive(h: Heap, g: Heap, ptr: nat)
    requires Took(h, g, ptr)
    ensures g.live == h.live - {ptr}
  {
  }

  lemma TakenIs(h: Heap, g: Heap, k: Heap, j: nat)
    requires j < |h.huge| && g == HeapOps.RemoveHuge(h, j) && Took(g, k, h.huge[j].node) && h.huge[j].ptr in h.live
    ensures HugeGone(h, k, h.huge[j].ptr)
  {
    assert HugeTaken(h, k, j);
  }

  // ---- requests -----------------------------------------------------------------

  /** ZEND_MM_SIZE_TO_NUM */
  function PagesFor(bytes: nat): nat { (bytes + PAGE_SIZE - 1) / PAGE_SIZE }

  /** The kind of block zend_mm_alloc_heap serves a request with. */
  function BlockFor(size0: nat): Block {
    var size := if size0 < MIN_USEABLE_BIN_SIZE then MIN_USEABLE_BIN_SIZE else size0;
    if size <= MAX_SMALL_SIZE then
      SizeToBinIsTightest(size);
      Small(SizeToBin(size))
    else if size <= MAX_LARGE_SIZE then Large(PagesFor(size))
    else Huge(AlignedSize(size))
  }

  /** The size cannot be rounded up. */
  predicate Wraps(size: nat) {
    size > SIZE_MAX - REAL_PAGE_SIZE + 1
  }

  /** The bytes the system is asked for when such a block does not fit into what is mapped. */
  function Need(size: nat): nat {
    if size <= MAX_LARGE_SIZE then CHUNK_SIZE else AlignedSize(size)
  }

  /** No new memory is needed for a block of this size. */
  ghost predicate AtHand(h: Heap, size: nat)
    requires |h.free| == BINS
  {
    match BlockFor(size)
    case Small(b) => SmallAtHand(h, b)
    case Large(n) => PagesAtHand(h, n)
    case Huge(_) => false
  }

  /** zend_mm_realloc_heap raises small sizes to the smallest bin in use. */
  function Raised(size0: nat): nat { if size0 < MIN_USEABLE_BIN_SIZE then MIN_USEABLE_BIN_SIZE else size0 }

  lemma RaisedIsSame(h: Heap, size0: nat)
    requires |h.free| == BINS
    ensures BlockFor(Raised(size0)) == BlockFor(size0) && AtHand(h, Raised(size0)) == AtHand(h, size0)
    ensures Wraps(Raised(size0)) == Wraps(size0) && Need(Raised(size0)) == Need(size0)
  {
    hide SmallAtHand, PagesAtHand, AlignedSize;
  }

  lemma HugeNotAtHand(h: Heap, size: nat)
    requires |h.free| == BINS && size > MAX_LARGE_SIZE
    ensures !AtHand(h, size)
  {
  }

  /** The bytes that the node of a huge block takes besides. */
  ghost function NodeBytes(h: Heap, size: nat): nat
    requires |h.free| == BINS
  {
    if size <= MAX_LARGE_SIZE || SmallAtHand(h, NODE_BIN) then 0 else CHUNK_SIZE
  }

  /** The block can hold size bytes, and of its class it is the smallest that can. */
  predicate Holds(b: Block, size: nat) {
    && size <= Usable(b)
    && match b
       case Small(bin) => bin >= 1 && (bin > 1 ==> BinSize(bin - 1) < size)
       case Large(n) => PAGE_SIZE * n < size + PAGE_SIZE && size > MAX_SMALL_SIZE
       case Huge(n) => n < size + REAL_PAGE_SIZE && size > MAX_LARGE_SIZE
  }

  /** A request is served with a fitting block unless it is so large that rounding it up wraps around. */
  lemma BlockForHolds(size: nat)
    requires size <= SIZE_MAX
    ensures Holds(BlockFor(size), size) <==> size <= SIZE_MAX - REAL_PAGE_SIZE + 1
  {
    hide SizeToBin, BinSize;
    if size > MAX_LARGE_SIZE { AlignedSizeWraps(size); }
    var s := if size < MIN_USEABLE_BIN_SIZE then MIN_USEABLE_BIN_SIZE else size;
    if s <= MAX_SMALL_SIZE { SizeToBinIsTightest(s); SixteenIsBinOne(); }
  }

  lemma SixteenIsBinOne()
    ensures SizeToBin(16) == 1 && BinSize(1) == 16
  {
  }

  ghost predicate Served(h: Heap, g: Heap, r: Outcome, b: Block) {
    match r
    case Got(ptr) =>
      && (b.Huge? ==> HugeMade(h, g, ptr, b.bytes))
      && (!b.Huge? ==> Gave(h, g, ptr, b))
    case Null => ListsKept(h, g)
    case Exit(_) => true
  }

  lemma OutcomeClients(h: Heap, g: Heap, r: Outcome, size: nat)
    requires Core(h) && Served(h, g, r, BlockFor(size))
    ensures r.Got? ==> r.ptr !in Clients(h) && Clients(g) == Clients(h)[r.ptr := BlockFor(size)]
    ensures r.Null? ==> Clients(g) == Clients(h)
  {
    hide Core, Clients, ListsKept, HugeMade, Gave, BlockFor;
    var b := BlockFor(size);
    match r {
      case Got(ptr) =>
        if b.Huge? { HugeMadeClients(h, g, ptr, b.bytes); } else { GaveClients(h, g, ptr, b); }
      case Null => KeptClients(h, g);
      case Exit(_) =>
    }
  }

  lemma KeptClients(h: Heap, g: Heap)
    requires ListsKept(h, g)
    ensures Clients(g) == Clients(h)
  {
    assert forall a :: IsNode(g, a) <==> IsNode(h, a);
  }

  // ---- reallocation -------------------------------------------------------------

  /** A block of the bin is neither too small nor too large for the size. */
  predicate SmallStays(bin: Bin, size0: nat) {
    size0 <= BinSize(bin) && size0 <= MAX_SMALL_SIZE && (bin == 0 || BinSize(bin - 1) <= size0)
  }

  /** The block that realloc makes of b: the same if it is small and of the right size, else one as for a new request. */
  function NewBlock(b: Block, size: nat): Block {
    if b.Small? && SmallStays(b.bin, Raised(size)) then b else BlockFor(size)
  }

  /** The block goes to a smaller bin: the one case in which the source leaves in the peak the time both blocks were there. */
  predicate Truncated(b: Block, size: nat) {
    b.Small? && size <= MAX_SMALL_SIZE && NewBlock(b, size) != b && Usable(NewBlock(b, size)) < Usable(b)
  }

  lemma BinHolds(size: nat, n: nat)
    requires size <= MAX_SMALL_SIZE && n <= size
    ensures n <= Usable(BlockFor(size)) && !Wraps(size)
  {
    hide BlockFor, Usable, AlignedSize;
    BlockForHolds(size);
  }

  lemma TruncatedIs(bin: Bin, size: nat)
    requires MIN_USEABLE_BIN_SIZE <= size <= MAX_SMALL_SIZE
    ensures Truncated(Small(bin), size) <==> size <= BinSize(bin) && bin > 0 && size < BinSize(bin - 1)
  {
    hide AlignedSize, BinSize;
    BlockForHolds(size);
    SizeToBinIsTightest(size);
    var s := SizeToBin(size);
    BinFacts(bin);
    if bin > 0 && size < BinSize(bin - 1) {
      if s >= bin { BinsGrow(bin - 1, s - 1); }
      BinsGrow(s, bin - 1);
    }
  }

  lemma NewBlockRaised(b: Block, size: nat)
    ensures NewBlock(b, Raised(size)) == NewBlock(b, size)
  {
    hide AlignedSize, BinSize;
  }

  /** It holds the size and is the smallest of its class that does; a small block stays if and only if its bin is the
      smallest or the next one, with the size just filling the bin below. */
  lemma NewBlockTight(b: Block, size: nat)
    requires size <= SIZE_MAX && !Wraps(size) && (b.Small? ==> b.bin >= 1)
    ensures b.Small? ==> (NewBlock(b, size) == b <==> BinSize(b.bin - 1) <= Raised(size) <= BinSize(b.bin))
    ensures var n := NewBlock(b, size);
      && size <= Usable(n)
      && match n
         case Small(bin) => size <= MAX_SMALL_SIZE && bin >= 1 && (bin > 1 ==> BinSize(bin - 1) <= Raised(size)) && (n != b && bin > 1 ==> BinSize(bin - 1) < size)
         case Large(k) => MAX_SMALL_SIZE < size <= MAX_LARGE_SIZE && PAGE_SIZE * k < size + PAGE_SIZE
         case Huge(k) => MAX_LARGE_SIZE < size && k < size + REAL_PAGE_SIZE
  {
    hide AlignedSize, BinSize, SizeToBin;
    BlockForHolds(size);
    AlignedSizeWraps(size);
    if size <= MAX_SMALL_SIZE { SizeToBinIsTightest(Raised(size)); }
    if b.Small? { BinFacts(b.bin); BinsGrow(b.bin, 29); }
  }

  /** The block at a has become the block at b that the size calls for, and it holds size bytes. */
  ghost predicate Moved(old0: map<nat, Block>, now: map<nat, Block>, a: nat, b: nat, size: nat) {
    && a in old0 && b in now && now == (old0 - {a})[b := now[b]] && size <= Usable(now[b]) && (b in old0 ==> b == a)
    && now[b] == NewBlock(old0[a], size)
  }

  /** The bytes to keep fit the block to which b moves; moves between bins copy no more than the new size. */
  predicate CopyFits(b: Block, size: nat, copySize: nat) {
    Wraps(size) || Min(Usable(b), copySize) <= Usable(BlockFor(size)) || (b.Small? && size <= MAX_SMALL_SIZE)
  }

  /** The bytes that are kept; a block cut where it is loses the rest. */
  function Kept(b: Block, size: nat, copySize: nat): nat {
    var n := Min(Usable(b), copySize);
    if b.Small? && size <= MAX_SMALL_SIZE then Min(n, size) else Min(n, Usable(BlockFor(size)))
  }

  /** With the new size as copySize, as zend_mm_realloc calls it, they always fit. */
  lemma SizeCopyFits(b: Block, size: nat)
    requires size <= SIZE_MAX
    ensures CopyFits(b, size, size) && (!Wraps(size) ==> Kept(b, size, size) == Min(Usable(b), size))
  {
    hide BlockFor, Usable;
    BlockForHolds(size);
  }

  /** Copying n bytes into a block of u bytes changes nothing behind it, whatever memory holds, if and only if n <= u. */
  lemma CopyStaysInside(to: nat, from: nat, n: nat, u: nat)
    requires to != from
    ensures (forall m: Memory :: SameOutside(m, Copy(m, to, from, n), to, u)) <==> n <= u
  {
    if n > u {
      var m: Memory := (x: nat) => if x == to + u then 1 else 0;
      assert Copy(m, to, from, n)(to + u) == m(from + u) == 0;
      assert !SameOutside(m, Copy(m, to, from, n), to, u);
    }
  }

  /** The block at ptr has lost all its bytes. */
  ghost predicate Emptied(cs: map<nat, Block>, cs': map<nat, Block>, r: Outcome, ptr: nat) {
    r == Got(ptr) && ptr in cs && cs' == cs[ptr := Huge(0)]
  }

  /** An address is in the huge list at most once. */
  lemma OnlyPosition(h: Heap, j: nat)
    requires Core(h) && j < |h.huge|
    ensures h.huge[j].size > 0
    ensures forall k | 0 <= k < |h.huge| && h.huge[k].ptr == h.huge[j].ptr :: k == j
  {
    hide Core, HugeLive;
    HeapOps.CoreHuge(h);
    forall k | 0 <= k < |h.huge| && k != j ensures h.huge[k].ptr != h.huge[j].ptr {
      HeapOps.HugePtrsDiffer(h, j, k);
    }
  }

  /** What realloc promises unless the run ends.  n bytes of the old block are in the new one, which holds size
      bytes; the other blocks of the clients are as they were; and when NULL is returned all of them are. */
  ghost predicate Reallocated(cs: map<nat, Block>, m: Memory, cs': map<nat, Block>, m': Memory,
                              r: Outcome, ptr: nat, size: nat, n: nat) {
    && (!r.Exit? ==> BlocksSame(cs - {ptr}, m, m'))
    && (r.Got? ==> Moved(cs, cs', ptr, r.ptr, size) && SameBytes(m, ptr, m', r.ptr, n))
    && (r.Null? ==> cs' == cs && BlocksSame(cs, m, m'))
  }

  lemma MovedBlock(h: Heap, m: Memory, g: Heap, m': Memory, r: Outcome, ptr: nat, size: nat, n: nat)
    requires Reallocated(Clients(h), m, Clients(g), m', r, ptr, size, n) && r.Got? && ptr in Clients(h)
    ensures ptr in h.live && Has(g.live, r.ptr, NewBlock(h.live[ptr], size))
  {
    hide BlocksSame, SameBytes, Usable, NewBlock;
    ClientsLive(h);
    ClientsLive(g);
  }

  /** The same from an earlier memory in which the blocks had the same contents. */
  lemma ReallocatedLater(cs: map<nat, Block>, m: Memory, m1: Memory, cs': map<nat, Block>, m': Memory,
                         r: Outcome, ptr: nat, size: nat, n: nat)
    requires Reallocated(cs, m1, cs', m', r, ptr, size, n) && BlocksSame(cs, m, m1) && ptr in cs && n <= Usable(cs[ptr])
    ensures Reallocated(cs, m, cs', m', r, ptr, size, n)
  {
    hide Usable, Moved;
    if !r.Exit? {
      forall a, i: nat | a in cs - {ptr} && i < Usable((cs - {ptr})[a]) ensures ByteAt(m', a, i) == ByteAt(m, a, i) {
        assert (cs - {ptr})[a] == cs[a] && ByteAt(m1, a, i) == ByteAt(m, a, i);
      }
    }
  }

  lemma ReallocatedWeaker(cs: map<nat, Block>, m: Memory, cs': map<nat, Block>, m': Memory,
                          r: Outcome, ptr: nat, size: nat, size0: nat, n: nat, n0: nat)
    requires Reallocated(cs, m, cs', m', r, ptr, size, n) && size0 <= size && n0 <= n && (size0 == size || size == Raised(size0))
    ensures Reallocated(cs, m, cs', m', r, ptr, size0, n0)
  {
    if ptr in cs { NewBlockRaised(cs[ptr], size0); }
    hide BlocksSame, Usable, NewBlock;
  }

  lemma ClientsLive(h: Heap)
    ensures forall a | a in Clients(h) :: a in h.live && h.live[a] == Clients(h)[a]
  {
  }

  lemma ClientsSame(h: Heap, m: Memory, m': Memory, ptr: nat)
    requires BlocksSame(h.live, m, m')
    ensures BlocksSame(Clients(h), m, m') && BlocksSame(Clients(h) - {ptr}, m, m')
  {
    hide Usable, IsNode;
    ClientsLive(h);
  }

  lemma GotClient(h: Heap, g: Heap, to: nat, size: nat)
    requires Clients(g) == Clients(h)[to := BlockFor(size)] && Holds(BlockFor(size), size)
    ensures to in g.live && to in Clients(g) && g.live[to] == BlockFor(size) && size <= Usable(g.live[to])
    ensures g.live[to].Huge? ==> size > MAX_LARGE_SIZE && g.live[to].bytes == AlignedSize(size)
  {
    HugeFor(size);
    hide BlockFor, Usable, IsNode;
    ClientsLive(g);
  }

  lemma HugeFor(size: nat)
    ensures BlockFor(size).Huge? <==> size > MAX_LARGE_SIZE
    ensures size > MAX_LARGE_SIZE ==> BlockFor(size) == Huge(AlignedSize(size))
  {
    hide AlignedSize;
  }

  /** Alloc (m to m1), copy (m1 to m2) and free (m2 to m3) seen together. */
  lemma MovedKeeps(cs: map<nat, Block>, h: Heap, g: Heap, k: Heap, to: nat, ptr: nat, n: nat,
                   m: Memory, m1: Memory, m2: Memory, m3: Memory)
    requires BlocksSame(h.live, m, m1) && BlocksSame(g.live - {to}, m1, m2) && BlocksSame(k.live, m2, m3)
    requires m2 == Copy(m1, to, ptr, n) && ptr in h.live && to in k.live && to !in cs
    requires n <= Usable(h.live[ptr]) && n <= Usable(k.live[to])
    requires forall a | a in cs - {ptr} :: a in h.live && a in g.live && a in k.live
    requires forall a | a in cs - {ptr} :: h.live[a] == g.live[a] == k.live[a] == cs[a]
    ensures BlocksSame(cs - {ptr}, m, m3) && SameBytes(m, ptr, m3, to, n)
  {
    hide Usable;
    forall a, i: nat | a in cs - {ptr} && i < Usable(cs[a])
      ensures ByteAt(m3, a, i) == ByteAt(m, a, i)
    {
      assert a in g.live - {to} && (g.live - {to})[a] == cs[a];
      assert ByteAt(m3, a, i) == ByteAt(m2, a, i) == ByteAt(m1, a, i) == ByteAt(m, a, i);
    }
    forall i: nat | i < n
      ensures ByteAt(m3, to, i) == ByteAt(m, ptr, i)
    {
      assert ByteAt(m1, ptr, i) == ByteAt(m, ptr, i);
      assert ByteAt(m3, to, i) == ByteAt(m2, to, i);
    }
  }

  lemma ResizeHugeClients(h: Heap, j: nat, n: nat)
    requires Core(h) && j < |h.huge|
    ensures Clients(HeapOps.ResizeHuge(h, j, n)) == Clients(h)[h.huge[j].ptr := Huge(n)]
  {
    hide Core, RegionsOk, LiveOk, Clients;
    HeapOps.CoreHuge(h);
    PtrIsClient(h, j);
    ResizedClients(h, HeapOps.ResizeHuge(h, j, n), h.huge[j].ptr, Huge(n));
  }

  lemma PtrIsClient(h: Heap, j: nat)
    requires HugeLive(h) && j < |h.huge|
    ensures h.huge[j].ptr in Clients(h)
  {
    assert Has(h.live, h.huge[j].ptr, Huge(h.huge[j].size));
  }

  function Min(a: nat, b: nat): nat { if a < b then a else b }

  function Max(a: int, b: int): int { if a > b then a else b }

  lemma LargeIsClient(h: Heap, ptr: nat, n: nat)
    requires Core(h) && Has(h.live, ptr, Large(n))
    ensures ptr in Clients(h) && Clients(h)[ptr := Large(n)] == Clients(h)
  {
    hide Core, RegionsOk, LiveOk;
    HeapOps.CoreHuge(h);
    assert Clients(h)[ptr] == Large(n);
  }

  lemma SameClients(h: Heap, ptr: nat, b: Block)
    requires ptr in Clients(h) && h.live[ptr] == b
    ensures Clients(h)[ptr := b] == Clients(h)
  {
    hide IsNode;
  }

  lemma ZeroNoClient(h: Heap)
    requires Core(h)
    ensures 0 !in Clients(h)
  {
    hide Core, Clients;
    ClientAddress(h, 0);
  }

  /** s is what is left of t after dropping elements from its front. */
  predicate Suffix(s: seq<nat>, t: seq<nat>) {
    |s| <= |t| && s == t[|t| - |s|..]
  }

  lemma SuffixLength(s: seq<nat>, t: seq<nat>, u: seq<nat>)
    requires Suffix(s, t + u)
    ensures |s| <= |t| + |u|
  {
  }

  lemma SplitIs(h: Heap, g: Heap, k: Heap, ptr: nat, b: Bin, base: nat, page: nat)
    requires ptr == PageAddr(base, page) && base in g.chunks && WellSized(g.chunks[base]) && page + BinPages(b) <= PAGES && |g.free| == BINS
    requires ptr !in h.live && g.live == h.live[ptr := Large(BinPages(b))] && g.huge == h.huge
    requires k == g.(chunks := g.chunks[base := MarkSmall(g.chunks[base], page, b)],
                     free := g.free[b := HeapOps.NewSlots(ptr, b)], live := g.live[ptr := Small(b)])
    ensures k == HeapOps.SplitRun(g, base, page, b) && Gave(h, k, ptr, Small(b))
    ensures g.live - {ptr} == h.live && k.live == h.live[ptr := Small(b)]
  {
    hide BinPages, HeapOps.NewSlots, MarkSmall;
  }

  lemma HugeMadeKept(h: Heap, g: Heap, k: Heap, ptr: nat, n: nat)
    requires g.live == h.live && g.huge == h.huge && HugeMade(g, k, ptr, n)
    ensures HugeMade(h, k, ptr, n)
  {
    hide HugeAdded;
    var node: nat :| HugeAdded(g, k, node, ptr, n);
    HugeAddedKept(h, g, k, node, ptr, n);
  }

  lemma SuffixTail(s: seq<nat>, t: seq<nat>)
    requires Suffix(s, t) && s != []
    ensures Suffix(s[1..], t) && s[1..] != t
  {
  }

  lemma SuffixAll(t: seq<nat>)
    ensures Suffix(t, t)
  {
  }

  lemma SumHugeNatural(huge: seq<HugeNode>)
    ensures SumHuge(huge) >= 0
  {
  }
}
