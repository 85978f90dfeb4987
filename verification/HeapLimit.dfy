/** How a huge block gets past the hard limit of the allocator. */
module HeapLimit {
  import opened Bins
  import opened ChunkState
  import opened ChunkHeader
  import opened HeapState
  import opened Words
  import opened HeapSteps
  import opened MemoryBytes
  import opened Limits
  import HeapOps
  import ZendHeap

  /** An empty chunk has room for one run of all its pages. */
  lemma EmptyChunkFits(h: Heap)
    requires |h.ring| >= 1 && h.ring[0] in h.chunks && Empty(h.chunks[h.ring[0]]) && Inv(h.chunks[h.ring[0]])
    ensures PagesAtHand(h, PAGES - 1) && FirstRoom(h, 0, PAGES - 1)
  {
    var c := h.chunks[h.ring[0]];
    assert MaximalFreeRun(c, 1, PAGES - 1);
    assert !NoRoomAt(h, 0, PAGES - 1);
    assert FirstRoom(h, 0, PAGES - 1);
  }

  /** A chunk whose pages are one run has no free page. */
  lemma FullChunk(c: Chunk, s: nat)
    requires Inv(c) && LargeRunOf(c, s, PAGES - 1)
    ensures NoRoomIn(c, 1)
  {
    RunLarge(c, s, PAGES - 1);
    RunPages(c, s);
    forall p | 1 <= p < PAGES ensures c.owner[p] != FREE {
      assert s <= p < s + RunLength(c.info[s]);
    }
    forall p: nat, len: nat ensures MaximalFreeRun(c, p, len) ==> len < 1 {
      assert 1 <= p < PAGES ==> c.owner[p] != FREE;
    }
  }

  /** The only chunk is full: no page is at hand. */
  lemma NothingAtHand(h: Heap, ptr: nat)
    requires Core(h) && |h.ring| == 1 && h.cached == [] && |h.free| == BINS && h.free[NODE_BIN] == []
    requires ChunkBase(ptr) in h.ring && IsLarge(h, ptr, PAGES - 1)
    ensures !SmallAtHand(h, NODE_BIN)
  {
    hide Core, Inv, LargeRunOf, NoRoomIn, ChunkBase;
    HeapChunk(h, ChunkBase(ptr));
    FullChunk(h.chunks[ChunkBase(ptr)], PageOf(ptr));
    assert BinPages(NODE_BIN) == 1;
    NoFirstRoom(h, 1);
  }

  /** A new heap whose limit and hard limit are two chunks. */
  method LimitedHeap(memory: Memory, key: nat, answers: seq<Option<nat>>) returns (heap: ZendHeap.Heap)
    ensures heap.Valid() && fresh(heap) && fresh(heap.Repr) && heap.pending == [] && heap.os == answers && !heap.fallible
    ensures HeapOps.Pristine(heap.State()) && heap.ring == [CHUNK_SIZE] && heap.realSize == CHUNK_SIZE
    ensures heap.limit == heap.hardLimit == 2 * CHUNK_SIZE
  {
    hide ZendHeap.Heap.Steady, HeapOps.Pristine, Core, Quiet, SumLive;
    heap := new ZendHeap.Heap(CHUNK_SIZE, key, answers, memory);
    heap.SteadyFacts();
    var ok := heap.SetMemoryLimit(2 * CHUNK_SIZE);
    heap.SteadyFacts();
    ok := heap.SetMemoryHardLimitPercent(100);
    assert Percentage(2 * CHUNK_SIZE, 100) == 2 * CHUNK_SIZE;
  }

  /** All pages of the only chunk are handed out. */
  method FillChunk(heap: ZendHeap.Heap)
    requires heap.Valid() && HeapOps.Pristine(heap.State()) && heap.ring == [CHUNK_SIZE] && heap.realSize == CHUNK_SIZE && heap.pending == []
    modifies heap, heap.Repr
    ensures heap.Valid() && heap.pending == [] && heap.os == old(heap.os) && heap.realSize == CHUNK_SIZE && heap.SettingsKept()
    ensures heap.Repr >= old(heap.Repr) && fresh(heap.Repr - old(heap.Repr))
    ensures heap.huge == [] && heap.headers.Keys == {CHUNK_SIZE} && |heap.free| == BINS && !SmallAtHand(heap.State(), NODE_BIN)
  {
    hide ZendHeap.Heap.Steady, PagesAtHand, SmallAtHand, FirstRoom, FitsIn, Gave, HeapOps.Pristine, Core, Quiet;
    hide SumLive;
    StartHasRoom(heap);
    assert PagesFor(MAX_LARGE_SIZE) == PAGES - 1;
    ghost var h := heap.State();
    var r := heap.AllocLarge(MAX_LARGE_SIZE);
    assert FirstRoom(h, 0, PagesFor(MAX_LARGE_SIZE));
    heap.SteadyFacts();
    OneChunk(heap, CHUNK_SIZE);
    NothingAtHand(heap.State(), r.ptr);
  }

  /** With one chunk mapped and full, a limit of two chunks that is the hard limit as well, and an OS that grants two
      requests, a huge block of one chunk is handed out, and three chunks are mapped. */
  method PassHardLimit(memory: Memory, key: nat) returns (heap: ZendHeap.Heap, r: Outcome)
    ensures heap.Valid() && r.Got? && !heap.fallible
    ensures heap.realSize == 3 * CHUNK_SIZE && heap.limit == heap.hardLimit == 2 * CHUNK_SIZE
  {
    hide ZendHeap.Heap.Valid, SmallAtHand, HeapOps.Pristine, GrantedAmong, AlignedSize, HugeMade;
    var answers := [Some(2 * CHUNK_SIZE), Some(3 * CHUNK_SIZE)];
    heap := LimitedHeap(memory, key, answers);
    FillChunk(heap);
    OneChunkSize();
    TwoGranted(heap.os);
    r := heap.AllocHuge(CHUNK_SIZE);
  }

  lemma OneChunkSize()
    ensures AlignedSize(CHUNK_SIZE) == CHUNK_SIZE
  {
  }

  lemma StartHasRoom(heap: ZendHeap.Heap)
    requires heap.Valid() && HeapOps.Pristine(heap.State())
    ensures heap !in heap.Repr && heap.huge == []
    ensures PagesAtHand(heap.State(), PAGES - 1) && FirstRoom(heap.State(), 0, PAGES - 1) && |heap.free| == BINS && heap.free[NODE_BIN] == []
  {
    hide Core, Quiet, SumLive, Inv, Empty, CountersZero, PagesAtHand, FirstRoom;
    heap.SteadyFacts();
    EmptyChunkFits(heap.State());
  }

  lemma OneChunk(heap: ZendHeap.Heap, base: nat)
    requires heap.Valid() && heap.realSize == CHUNK_SIZE && heap.huge == [] && heap.ring == [base]
    ensures heap.cached == [] && heap.headers.Keys == {base}
  {
    hide HeapState.RegionsOk, HeapState.ChunksOk, FreeOk, LiveOk, CompleteBut, Quiet, SumLive, Header.Valid;
    hide Header.State;
    assert heap.cached == [];
    assert forall b | b in heap.headers :: b in heap.ring;
    assert base in heap.ring;
  }

  /** The OS has a region of one chunk twice. */
  lemma TwoGranted(os: seq<Option<nat>>)
    requires os == [Some(2 * CHUNK_SIZE), Some(3 * CHUNK_SIZE)]
    ensures BothGranted(os, {CHUNK_SIZE}, [], CHUNK_SIZE) && GrantedAmong(os, {CHUNK_SIZE}, [], [], CHUNK_SIZE)
  {
    assert os[1..] == [Some(3 * CHUNK_SIZE)];
  }
}
