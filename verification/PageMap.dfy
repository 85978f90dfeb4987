/** The 32-bit words of the page map: flags in the two top bits, a bin or page count below, and a counter of
    nine bits from bit 16 on.  PageInfo of module ChunkState is what such a word says. */
module PageMap {
  import opened Bins
  import opened ChunkState
  import opened HeapState
  import opened HeapGc

  const IS_LRUN := 0x4000_0000
  const IS_SRUN := 0x8000_0000
  const SHIFT := 0x1_0000

  /** The values the allocator puts into a map entry. */
  predicate Storable(i: PageInfo) {
    match i
    case FRun => true
    case LRun(n) => n <= PAGES
    case SRun(_, k) => k <= 512
    case NRun(_, off) => off < PAGES
  }

  /** ZEND_MM_FRUN, ZEND_MM_LRUN, ZEND_MM_SRUN_EX, ZEND_MM_NRUN; the parts do not overlap, so "or" is addition. */
  function Encode(i: PageInfo): (w: nat)
    requires Storable(i)
    ensures w < 0x1_0000_0000
  {
    match i
    case FRun => 0
    case LRun(n) => IS_LRUN + n
    case SRun(b, k) => IS_SRUN + b + k * SHIFT
    case NRun(b, off) => IS_SRUN + IS_LRUN + b + off * SHIFT
  }

  /** Reads a word with the masks of ZEND_MM_LRUN_PAGES, ZEND_MM_SRUN_BIN_NUM, ZEND_MM_SRUN_FREE_COUNTER and ZEND_MM_NRUN_OFFSET. */
  function Decode(w: nat): PageInfo
    requires w < 0x1_0000_0000 && (w >= IS_SRUN ==> w % 32 < BINS)
  {
    var srun, lrun := w / IS_SRUN % 2 == 1, w / IS_LRUN % 2 == 1;
    if srun && lrun then NRun(w % 32, w / SHIFT % 512)
    else if srun then SRun(w % 32, w / SHIFT % 512)
    else if lrun then LRun(w % 1024)
    else FRun
  }

  /** A word says what was put into it, unless that was the one counter value too large for nine bits. */
  lemma WordsRoundTrip(i: PageInfo)
    requires Storable(i)
    ensures Encode(i) >= IS_SRUN ==> Encode(i) % 32 < BINS
    ensures Decode(Encode(i)) == i <==> !(i.SRun? && i.freeCounter == 512)
  {
    match i {
      case FRun =>
      case LRun(n) => LargeWord(n);
      case SRun(b, k) => SmallWord(b, k);
      case NRun(b, off) => OffsetWord(b, off);
    }
  }

  lemma LargeWord(n: nat)
    requires n <= PAGES
    ensures Encode(LRun(n)) < IS_SRUN && Decode(Encode(LRun(n))) == LRun(n)
  {
    Parts(1, 0, n);
  }

  lemma SmallWord(b: Bin, k: nat)
    requires k <= 512
    ensures Encode(SRun(b, k)) % 32 == b && Decode(Encode(SRun(b, k))) == SRun(b, k % 512)
  {
    Parts(2, k, b);
  }

  lemma OffsetWord(b: Bin, off: nat)
    requires off < PAGES
    ensures Encode(NRun(b, off)) % 32 == b && Decode(Encode(NRun(b, off))) == NRun(b, off)
  {
    Parts(3, off, b);
  }

  lemma Parts(flags: nat, high: nat, low: nat)
    requires flags <= 3 && high <= 512 && low < SHIFT
    ensures var w := flags * IS_LRUN + high * SHIFT + low;
      w / IS_SRUN == flags / 2 && w / IS_LRUN == flags && w / SHIFT % 512 == high % 512 && w % 32 == low % 32 && w % 1024 == low % 1024
  {
    var w := flags * IS_LRUN + high * SHIFT + low;
    assert w / SHIFT == flags * 0x4000 + high;
  }

  /** So the counter of gc can reach the number of slots of every bin but bin 0, which heap protection leaves unused. */
  lemma FullCounterFits(b: Bin)
    ensures Storable(SRun(b, BinElements(b))) && Encode(SRun(b, BinElements(b))) % 32 < BINS
    ensures Decode(Encode(SRun(b, BinElements(b)))) == SRun(b, BinElements(b)) <==> b >= 1
  {
    BinFacts(b);
    Parts(2, BinElements(b), b);
    WordsRoundTrip(SRun(b, BinElements(b)));
  }

  /** In the middle of gc, after any number of slots has been counted, the map entries of every run fit their words:
      the entry at its first page, and in a small run those that lead there. */
  lemma CountingFitsWords(h0: Heap, h: Heap, b: nat, j: nat, base: nat, p: nat)
    requires Core(h0) && |h0.free| == BINS && (b < BINS ==> j <= |h0.free[b]|) && Counts(h0, h, b, j)
    requires base in h.ring && base in h.chunks && 1 <= p < PAGES && WellSized(h.chunks[base]) && h.chunks[base].owner[p] != FREE
    ensures var c := h.chunks[base]; var s := c.owner[p];
      && 1 <= s <= p && (p == s || c.info[s].SRun? ==> Storable(c.info[p]) && Fits(c.info[p]))
  {
    hide SlotOffset, BinSize, BinPages, BinElements, FreeOk, RegionsOk, LiveOk, CompleteBut, Expected, Counted;
    CoreChunk(h0, base);
    assert ChunkCounts(h0, h0.chunks[base], h.chunks[base], base, b, j);
    RunEntries(h.chunks[base], p);
    var c, s := h.chunks[base], h.chunks[base].owner[p];
    if c.info[s].SRun? {
      assert SmallRunOf(h0.chunks[base], s, s, c.info[s].bin);
      CounterBound(h0, base, s, c.info[s].bin, b, j);
      BinFacts(c.info[s].bin);
    }
    if p == s || c.info[s].SRun? {
      WordsRoundTrip(c.info[p]);
    }
  }

  /** The word reads back as the entry. */
  predicate Fits(i: PageInfo)
    requires Storable(i)
  {
    (Encode(i) >= IS_SRUN ==> Encode(i) % 32 < BINS) && Decode(Encode(i)) == i
  }

  lemma RunEntries(c: Chunk, p: nat)
    requires Partition(c) && 1 <= p < PAGES && c.owner[p] != FREE
    ensures var s := c.owner[p]; 1 <= s <= p && IsRun(c, s) && (c.info[s].LRun? || c.info[s].SRun?) && RunLength(c.info[s]) <= PAGES
    ensures var s := c.owner[p]; c.info[s].SRun? ==> c.info[s].bin >= 1 && (p > s ==> c.info[p] == NRun(c.info[s].bin, p - s))
  {
    hide BinPages;
    var s := c.owner[p];
    assert IsRun(c, s) && RunOk(c, s) && OwnedOk(c, s, p);
  }

  lemma CounterBound(h0: Heap, base: nat, s: nat, x: Bin, b: nat, j: nat)
    requires |h0.free| == BINS && (b < BINS ==> j <= |h0.free[b]|)
    ensures Expected(h0, base, s, x, b, j) <= BinElements(x)
  {
    hide SlotsIn, BinElements;
    SlotsInBound(h0.free[x], base, s, x);
    if x == b { SlotsInBound(h0.free[x][..j], base, s, x); }
  }
}
