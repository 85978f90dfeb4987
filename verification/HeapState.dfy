/** The whole heap as a value, the blocks that are live in it, and the invariant that every
    operation of Zend/zend_alloc.c restores. */
module HeapState {
  import opened Bins
  import opened ChunkState
  import opened Words

  datatype Block = Small(bin: Bin) | Large(pages: nat) | Huge(bytes: nat)

  /** The usable size of a block: what zend_mm_size reports. */
  function Usable(b: Block): nat {
    match b
    case Small(bin) => BinSize(bin)
    case Large(n) => PAGE_SIZE * n
    case Huge(n) => n
  }

  /** A node of the huge list; it occupies a small block itself. */
  datatype HugeNode = HugeNode(node: nat, ptr: nat, size: nat)

  /** One past the largest address. */
  const ADDRESS_END := 0x1_0000_0000_0000_0000

  /** The bin of sizeof(zend_mm_huge_list). */
  const NODE_BIN: Bin := 2

  /** chunks holds the header of every mapped chunk by address; ring lists the chunks in use from
      the main chunk on, cached the unused ones; free lists the free slots of each bin; live is
      what has been handed out and not taken back. */
  datatype Heap = Heap(chunks: map<nat, Chunk>, ring: seq<nat>, cached: seq<nat>, free: seq<seq<nat>>,
                       huge: seq<HugeNode>, live: map<nat, Block>)

  // ---- addresses ---------------------------------------------------------------

  /** ZEND_MM_ALIGNED_BASE(ptr, ZEND_MM_CHUNK_SIZE) */
  function ChunkBase(a: nat): nat { a - a % CHUNK_SIZE }

  /** The page number of an address inside its chunk. */
  function PageOf(a: nat): (p: nat)
    ensures p < PAGES
  {
    a % CHUNK_SIZE / PAGE_SIZE
  }

  /** ZEND_MM_PAGE_ADDR */
  function PageAddr(base: nat, page: nat): nat { base + PAGE_SIZE * page }

  lemma PageAddrParts(base: nat, off: nat)
    requires base % CHUNK_SIZE == 0 && off < CHUNK_SIZE
    ensures ChunkBase(base + off) == base && PageOf(base + off) == off / PAGE_SIZE
    ensures (base + off) % CHUNK_SIZE == off
  {
  }

  // ---- what the chunks say about an address ------------------------------------

  /** Page p belongs to a small run of bin b that starts at page s. */
  predicate SmallRunOf(c: Chunk, p: nat, s: int, b: Bin) {
    && WellSized(c) && p < PAGES && 1 <= s < PAGES && c.owner[p] == s && c.owner[s] == s
    && c.info[s].SRun? && c.info[s].bin == b
  }

  /** A large run of n pages starts at page s. */
  predicate LargeRunOf(c: Chunk, s: nat, n: nat) {
    WellSized(c) && 1 <= s < PAGES && c.owner[s] == s && c.info[s] == LRun(n)
  }

  predicate SlotIn(c: Chunk, base: nat, a: nat, b: Bin) {
    && WellSized(c)
    && var s := c.owner[PageOf(a)];
      SmallRunOf(c, PageOf(a), s, b) && SlotOffset(a - base - PAGE_SIZE * s, b)
  }

  predicate LargeIn(c: Chunk, base: nat, a: nat, n: nat) {
    a == PageAddr(base, PageOf(a)) && LargeRunOf(c, PageOf(a), n)
  }

  /** a is a slot of a small run of bin b. */
  predicate IsSlot(h: Heap, a: nat, b: Bin) {
    ChunkBase(a) in h.chunks && SlotIn(h.chunks[ChunkBase(a)], ChunkBase(a), a, b)
  }

  /** a is the start of a large run of n pages. */
  predicate IsLarge(h: Heap, a: nat, n: nat) {
    ChunkBase(a) in h.chunks && LargeIn(h.chunks[ChunkBase(a)], ChunkBase(a), a, n)
  }

  predicate IsHuge(h: Heap, a: nat, n: nat) {
    exists j | 0 <= j < |h.huge| :: h.huge[j].ptr == a && h.huge[j].size == n
  }

  predicate Has(live: map<nat, Block>, a: nat, b: Block) {
    a in live && live[a] == b
  }

  // ---- the invariant -----------------------------------------------------------

  ghost predicate NoDup<T>(s: seq<T>) {
    forall i, j | 0 <= i < j < |s| :: s[i] != s[j]
  }

  ghost predicate RingOk(h: Heap) {
    && |h.ring| >= 1 && NoDup(h.ring) && NoDup(h.cached)
    && (forall i | 0 <= i < |h.ring| :: h.ring[i] in h.chunks && h.ring[i] !in h.cached)
    && (forall i | 0 <= i < |h.cached| :: h.cached[i] in h.chunks)
    && (forall b | b in h.chunks :: b in h.ring || b in h.cached)
  }

  /** Where a chunk can be. */
  predicate ChunkPlace(b: nat) {
    0 < b <= ADDRESS_END - CHUNK_SIZE && b % CHUNK_SIZE == 0
  }

  /** Chunks and huge blocks are aligned and inside the address space, and huge blocks overlap nothing. */
  ghost predicate RegionsOk(h: Heap) {
    && (forall b | b in h.chunks :: ChunkPlace(b))
    && (forall j | 0 <= j < |h.huge| :: h.huge[j].ptr > 0 && h.huge[j].ptr % CHUNK_SIZE == 0 && h.huge[j].size > 0)
    && (forall j | 0 <= j < |h.huge| :: h.huge[j].ptr + h.huge[j].size <= ADDRESS_END)
    && (forall b, j | b in h.chunks && 0 <= j < |h.huge| :: Apart(b, CHUNK_SIZE, h.huge[j].ptr, h.huge[j].size))
    && (forall i, j | 0 <= i < j < |h.huge| :: Apart(h.huge[i].ptr, h.huge[i].size, h.huge[j].ptr, h.huge[j].size))
  }

  ghost predicate ChunksOk(h: Heap) {
    && (forall b | b in h.ring && b in h.chunks :: Inv(h.chunks[b]))
    && (forall b | b in h.cached && b in h.chunks :: Empty(h.chunks[b]))
  }

  ghost predicate Quiet(h: Heap) {
    forall b | b in h.ring && b in h.chunks :: CountersZero(h.chunks[b])
  }

  /** A free list holds slots of its bin, each once. */
  ghost predicate FreeOk(h: Heap) {
    && |h.free| == BINS
    && (forall b: Bin :: NoDup(h.free[b]))
    && (forall b: Bin, a | a in h.free[b] :: IsSlot(h, a, b))
  }

  predicate BlockOk(h: Heap, a: nat, block: Block)
    requires |h.free| == BINS
  {
    match block
    case Small(b) => IsSlot(h, a, b) && a !in h.free[b]
    case Large(n) => IsLarge(h, a, n)
    case Huge(n) => IsHuge(h, a, n)
  }

  /** Every live block is one the chunks or the huge list know, and not a free slot ... */
  ghost predicate LiveOk(h: Heap)
    requires |h.free| == BINS
  {
    forall a | a in h.live :: BlockOk(h, a, h.live[a])
  }

  /** ... and conversely every slot is free or live, every large run and huge block is live.
      In the middle of gc the slots in lost are neither: their runs are about to be freed. */
  ghost predicate CompleteBut(h: Heap, lost: set<nat>)
    requires |h.free| == BINS
  {
    && (forall a, b: Bin | IsSlot(h, a, b) :: a in h.free[b] || Has(h.live, a, Small(b)) || a in lost)
    && (forall a, n | IsLarge(h, a, n) :: Has(h.live, a, Large(n)))
    && HugeLive(h)
  }

  ghost predicate HugeLive(h: Heap) {
    && (forall j | 0 <= j < |h.huge| :: Has(h.live, h.huge[j].ptr, Huge(h.huge[j].size)))
    && (forall j | 0 <= j < |h.huge| :: Has(h.live, h.huge[j].node, Small(NODE_BIN)))
    && (forall i, j | 0 <= i < j < |h.huge| :: h.huge[i].node != h.huge[j].node)
  }

  /** The invariant between operations, up to the counters gc uses. */
  ghost predicate CoreBut(h: Heap, lost: set<nat>) {
    RingOk(h) && RegionsOk(h) && ChunksOk(h) && FreeOk(h) && LiveOk(h) && CompleteBut(h, lost)
  }

  ghost predicate Core(h: Heap) {
    CoreBut(h, {})
  }

  lemma CoreChunk(h: Heap, base: nat)
    requires RingOk(h) && ChunksOk(h) && base in h.ring
    ensures base in h.chunks && Inv(h.chunks[base]) && WellSized(h.chunks[base])
  {
    hide Empty, CountersZero, Counted;
  }
}
