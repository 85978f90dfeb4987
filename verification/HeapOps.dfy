/** The steps of the allocator on heap values, and the proof that each keeps the invariant. */
module HeapOps {
  import opened Bins
  import opened ChunkState
  import opened HeapState
  import opened Words

  // ---- what the page operations do to the runs of one chunk --------------------

  ghost predicate SameSmallRuns(c: Chunk, d: Chunk) {
    forall p: nat, s: int, b: Bin :: SmallRunOf(d, p, s, b) <==> SmallRunOf(c, p, s, b)
  }

  ghost predicate SameLargeRuns(c: Chunk, d: Chunk) {
    forall s: nat, n: nat :: LargeRunOf(d, s, n) <==> LargeRunOf(c, s, n)
  }

  /** The large run at s now has the given length (0: none); the others are as before. */
  ghost predicate LargeRunNow(c: Chunk, d: Chunk, s: nat, now: nat) {
    forall r: nat, n: nat :: LargeRunOf(d, r, n) <==> if r == s then n == now && now > 0 else LargeRunOf(c, r, n)
  }

  lemma AllocRunRuns(c: Chunk, s: nat, n: nat, tail: nat)
    requires Inv(c) && 1 <= s && 1 <= n && FreeRange(c, s, n)
    ensures SameSmallRuns(c, AllocRun(c, s, n, tail))
    ensures LargeRunNow(c, AllocRun(c, s, n, tail), s, n)
  {
  }

  lemma FreeLargeRuns(c: Chunk, s: nat, n: nat)
    requires Inv(c) && LargeRunOf(c, s, n)
    ensures 1 <= n && s + n <= PAGES
    ensures SameSmallRuns(c, FreeRun(c, s, n))
    ensures LargeRunNow(c, FreeRun(c, s, n), s, 0)
  {
    assert RunOk(c, s);
    RunPages(c, s);
    var d := FreeRun(c, s, n);
    forall p: nat, r: int, b: Bin | SmallRunOf(c, p, r, b) ensures SmallRunOf(d, p, r, b) { RunPages(c, r); }
  }

  lemma FreeSmallRuns(c: Chunk, s: nat, n: nat)
    requires Inv(c) && 1 <= s && IsRun(c, s) && c.info[s].SRun? && n == RunLength(c.info[s])
    ensures 1 <= n && s + n <= PAGES
    ensures SameLargeRuns(c, FreeRun(c, s, n))
    ensures forall p: nat, r: int, b: Bin :: SmallRunOf(FreeRun(c, s, n), p, r, b) <==> r != s && SmallRunOf(c, p, r, b)
  {
    hide BinPages;
    assert RunOk(c, s);
    RunPages(c, s);
  }

  lemma ShrinkRuns(c: Chunk, s: nat, n: nat, m: nat)
    requires Inv(c) && LargeRunOf(c, s, n) && 1 <= m < n
    ensures s + n <= PAGES && SameSmallRuns(c, ShrinkRun(c, s, n, m))
    ensures LargeRunNow(c, ShrinkRun(c, s, n, m), s, m)
  {
    assert RunOk(c, s);
    RunPages(c, s);
    var d := ShrinkRun(c, s, n, m);
    forall p: nat, r: int, b: Bin | SmallRunOf(c, p, r, b) ensures SmallRunOf(d, p, r, b) { RunPages(c, r); }
  }

  lemma GrowRuns(c: Chunk, s: nat, n: nat, m: nat)
    requires Inv(c) && LargeRunOf(c, s, n) && n < m && s + m <= PAGES && FreeRange(c, s + n, m - n)
    ensures SameSmallRuns(c, GrowRun(c, s, n, m))
    ensures LargeRunNow(c, GrowRun(c, s, n, m), s, m)
  {
    assert RunOk(c, s);
    RunPages(c, s);
  }

  lemma MarkSmallRuns(c: Chunk, s: nat, b: Bin)
    requires Inv(c) && LargeRunOf(c, s, BinPages(b))
    ensures s + BinPages(b) <= PAGES
    ensures forall p: nat, r: int, x: Bin :: SmallRunOf(MarkSmall(c, s, b), p, r, x) <==>
              (r == s && x == b && s <= p < s + BinPages(b)) || SmallRunOf(c, p, r, x)
    ensures LargeRunNow(c, MarkSmall(c, s, b), s, 0)
  {
    hide BinPages;
    assert RunOk(c, s);
    RunPages(c, s);
    var d := MarkSmall(c, s, b);
    forall p: nat, r: int, x: Bin
      ensures SmallRunOf(d, p, r, x) <==> (r == s && x == b && s <= p < s + BinPages(b)) || SmallRunOf(c, p, r, x)
    {
    }
  }

  lemma SetCounterRuns(c: Chunk, s: nat, b: Bin, k: nat)
    requires WellSized(c) && s < PAGES && c.info[s].SRun? && c.info[s].bin == b
    ensures SameSmallRuns(c, SetCounter(c, s, b, k)) && SameLargeRuns(c, SetCounter(c, s, b, k))
  {
  }

  lemma EmptyRuns(c: Chunk)
    requires Empty(c)
    ensures forall p: nat, s: int, b: Bin :: !SmallRunOf(c, p, s, b)
    ensures forall s: nat, n: nat :: !LargeRunOf(c, s, n)
  {
  }

  // ---- replacing one chunk of a heap -------------------------------------------

  function WithChunk(h: Heap, base: nat, c: Chunk): Heap {
    h.(chunks := h.chunks[base := c])
  }

  lemma SameSlots(h: Heap, base: nat, d: Chunk)
    requires base in h.chunks && SameSmallRuns(h.chunks[base], d) && WellSized(d) && WellSized(h.chunks[base])
    ensures forall a: nat, b: Bin :: IsSlot(WithChunk(h, base, d), a, b) <==> IsSlot(h, a, b)
  {
    hide SlotOffset, ChunkBase, PageOf;
  }

  lemma SameLarge(h: Heap, base: nat, d: Chunk)
    requires base in h.chunks && SameLargeRuns(h.chunks[base], d)
    ensures forall a: nat, n: nat :: IsLarge(WithChunk(h, base, d), a, n) <==> IsLarge(h, a, n)
  {
    hide ChunkBase, PageOf, LargeRunOf;
  }

  lemma PageStart(base: nat, s: nat)
    requires base % CHUNK_SIZE == 0 && s < PAGES
    ensures ChunkBase(PageAddr(base, s)) == base && PageOf(PageAddr(base, s)) == s
  {
    PageAddrParts(base, PAGE_SIZE * s);
  }

  lemma LargeNow(h: Heap, base: nat, d: Chunk, s: nat, now: nat)
    requires base in h.chunks && base % CHUNK_SIZE == 0 && s < PAGES && LargeRunNow(h.chunks[base], d, s, now)
    ensures forall a: nat, n: nat :: IsLarge(WithChunk(h, base, d), a, n) <==>
              if a == PageAddr(base, s) then n == now && now > 0 else IsLarge(h, a, n)
  {
    hide ChunkBase, PageOf, LargeRunOf;
    PageStart(base, s);
    var h' := WithChunk(h, base, d);
    forall a: nat, n: nat
      ensures IsLarge(h', a, n) <==> if a == PageAddr(base, s) then n == now && now > 0 else IsLarge(h, a, n)
    {
      if ChunkBase(a) == base && PageOf(a) == s && a != PageAddr(base, s) {
        assert !IsLarge(h', a, n) && !IsLarge(h, a, n);
      }
    }
  }

  lemma ChunkStepFrame(h: Heap, base: nat, d: Chunk)
    requires RingOk(h) && RegionsOk(h) && ChunksOk(h) && base in h.ring && Inv(d)
    ensures var h' := WithChunk(h, base, d);
      RingOk(h') && RegionsOk(h') && ChunksOk(h') && h'.chunks.Keys == h.chunks.Keys
    ensures Quiet(h) && CountersZero(d) ==> Quiet(WithChunk(h, base, d))
  {
    hide Inv, Empty, CountersZero;
  }

  /** A step that changes neither slots nor large runs nor who holds them. */
  lemma SameRunsStep(h: Heap, h': Heap, lost: set<nat>)
    requires CoreBut(h, lost) && RingOk(h') && RegionsOk(h') && ChunksOk(h')
    requires h'.free == h.free && h'.huge == h.huge && h'.live == h.live
    requires forall a: nat, b: Bin :: IsSlot(h', a, b) <==> IsSlot(h, a, b)
    requires forall a: nat, n: nat :: IsLarge(h', a, n) <==> IsLarge(h, a, n)
    ensures CoreBut(h', lost)
  {
    hide IsSlot, IsLarge, RingOk, RegionsOk, ChunksOk, HugeLive;
    HugeOnly(h, h');
    forall a | a in h'.live ensures BlockOk(h', a, h'.live[a]) { assert BlockOk(h, a, h.live[a]); }
    forall a: nat, b: Bin | IsSlot(h', a, b)
      ensures a in h'.free[b] || Has(h'.live, a, Small(b)) || a in lost
    {
      assert IsSlot(h, a, b);
    }
  }

  lemma HugeOnly(h: Heap, h': Heap)
    requires h'.huge == h.huge && h'.live == h.live
    ensures HugeLive(h') == HugeLive(h)
    ensures forall a: nat, n: nat :: IsHuge(h', a, n) <==> IsHuge(h, a, n)
  {
  }

  /** The chunks alone decide which addresses are slots and large runs. */
  lemma ChunksOnly(h: Heap, h': Heap)
    requires h'.chunks == h.chunks
    ensures forall a: nat, b: Bin :: IsSlot(h', a, b) <==> IsSlot(h, a, b)
    ensures forall a: nat, n: nat :: IsLarge(h', a, n) <==> IsLarge(h, a, n)
    ensures h'.ring == h.ring && h'.cached == h.cached ==>
      (RingOk(h) ==> RingOk(h')) && (ChunksOk(h) ==> ChunksOk(h')) && (Quiet(h) ==> Quiet(h'))
    ensures h'.huge == h.huge && RegionsOk(h) ==> RegionsOk(h')
  {
    hide Inv, CountersZero, Empty;
  }

  // ---- large runs --------------------------------------------------------------

  /** A large run is taken: pages [s, s + n) of chunk base. */
  function TakeRun(h: Heap, base: nat, s: nat, n: nat, tail: nat): Heap
    requires base in h.chunks && WellSized(h.chunks[base]) && 1 <= s && 1 <= n && s + n <= PAGES
  {
    WithChunk(h, base, AllocRun(h.chunks[base], s, n, tail)).(live := h.live[PageAddr(base, s) := Large(n)])
  }

  /** A large run is given back. */
  function DropRun(h: Heap, base: nat, s: nat, n: nat): Heap
    requires base in h.chunks && WellSized(h.chunks[base]) && 1 <= n && s + n <= PAGES
  {
    WithChunk(h, base, FreeRun(h.chunks[base], s, n)).(live := h.live - {PageAddr(base, s)})
  }

  /** A large run is cut or grown in place. */
  function ResizeRun(h: Heap, base: nat, s: nat, n: nat, m: nat): Heap
    requires base in h.chunks && WellSized(h.chunks[base]) && s + n <= PAGES && s + m <= PAGES && s < PAGES
  {
    var c := h.chunks[base];
    WithChunk(h, base, if m < n then ShrinkRun(c, s, n, m) else GrowRun(c, s, n, m))
      .(live := h.live[PageAddr(base, s) := Large(m)])
  }

  /** An address inside a chunk is not the start of a huge block. */
  lemma NotHuge(h: Heap, base: nat, a: nat)
    requires RegionsOk(h) && base in h.chunks && base <= a < base + CHUNK_SIZE
    ensures forall n :: !IsHuge(h, a, n)
  {
  }

  lemma FreePageNotLive(h: Heap, base: nat, s: nat)
    requires Core(h) && base in h.ring && 1 <= s < PAGES && h.chunks[base].owner[s] == FREE
    ensures PageAddr(base, s) !in h.live
  {
    hide ChunksOk, FreeOk, CompleteBut, ChunkBase, PageOf, IsHuge, SlotOffset;
    PageStart(base, s);
    var a := PageAddr(base, s);
    NotHuge(h, base, a);
  }

  /** The block at a has become a large run of now pages (0: it is gone), all else is as before. */
  lemma LargeBlockStep(h: Heap, h': Heap, a: nat, now: nat)
    requires Core(h) && RingOk(h') && RegionsOk(h') && ChunksOk(h')
    requires h'.free == h.free && h'.huge == h.huge
    requires forall x: nat, b: Bin :: IsSlot(h', x, b) <==> IsSlot(h, x, b)
    requires forall x: nat, n: nat :: IsLarge(h', x, n) <==> if x == a then n == now && now > 0 else IsLarge(h, x, n)
    requires a in h.live ==> h.live[a].Large?
    requires h'.live == if now > 0 then h.live[a := Large(now)] else h.live - {a}
    ensures Core(h')
  {
    hide IsSlot, IsLarge, RingOk, RegionsOk, ChunksOk;
    forall x | x in h'.live
      ensures BlockOk(h', x, h'.live[x])
    {
      assert x in h.live ==> BlockOk(h, x, h.live[x]);
    }
    forall x: nat, b: Bin | IsSlot(h', x, b)
      ensures x in h'.free[b] || Has(h'.live, x, Small(b))
    {
      assert x in h.free[b] || Has(h.live, x, Small(b));
    }
  }

  lemma TakeRunCore(h: Heap, base: nat, s: nat, n: nat, tail: nat)
    requires Core(h) && base in h.ring && base in h.chunks && 1 <= s && 1 <= n && WellSized(h.chunks[base])
    requires FreeRange(h.chunks[base], s, n) && TailOk(h.chunks[base], s, tail)
    ensures PageAddr(base, s) !in h.live
    ensures Core(TakeRun(h, base, s, n, tail))
    ensures Quiet(h) ==> Quiet(TakeRun(h, base, s, n, tail))
  {
    hide IsSlot, IsLarge, FreeOk, LiveOk, CompleteBut, Inv, CountersZero;
    var c := h.chunks[base];
    var d := AllocRun(c, s, n, tail);
    AllocRunInv(c, s, n, tail);
    AllocRunRuns(c, s, n, tail);
    ChunkStepFrame(h, base, d);
    SameSlots(h, base, d);
    LargeNow(h, base, d, s, n);
    FreePageNotLive(h, base, s);
    var h' := TakeRun(h, base, s, n, tail);
    ChunksOnly(WithChunk(h, base, d), h');
    LargeBlockStep(h, h', PageAddr(base, s), n);
  }

  lemma LiveLarge(h: Heap, base: nat, s: nat, n: nat)
    requires Core(h) && base in h.ring && base in h.chunks && LargeRunOf(h.chunks[base], s, n)
    ensures Has(h.live, PageAddr(base, s), Large(n)) && IsLarge(h, PageAddr(base, s), n)
  {
    hide ChunkBase, PageOf, IsSlot, FreeOk, LiveOk, Inv;
    PageStart(base, s);
  }

  lemma DropRunCore(h: Heap, base: nat, s: nat, n: nat)
    requires Core(h) && base in h.ring && base in h.chunks && LargeRunOf(h.chunks[base], s, n)
    ensures 1 <= n && s + n <= PAGES
    ensures Core(DropRun(h, base, s, n))
    ensures Quiet(h) ==> Quiet(DropRun(h, base, s, n))
  {
    hide IsSlot, IsLarge, FreeOk, LiveOk, CompleteBut, CountersZero, Partition, Counted;
    var c := h.chunks[base];
    FreeLargeRuns(c, s, n);
    FreeRunInv(c, s, n);
    var d := FreeRun(c, s, n);
    ChunkStepFrame(h, base, d);
    SameSlots(h, base, d);
    LargeNow(h, base, d, s, 0);
    LiveLarge(h, base, s, n);
    var h' := DropRun(h, base, s, n);
    ChunksOnly(WithChunk(h, base, d), h');
    LargeBlockStep(h, h', PageAddr(base, s), 0);
  }

  lemma ResizeRunCore(h: Heap, base: nat, s: nat, n: nat, m: nat)
    requires Core(h) && base in h.ring && base in h.chunks && LargeRunOf(h.chunks[base], s, n)
    requires 1 <= m && m != n && s + m <= PAGES
    requires n < m ==> FreeRange(h.chunks[base], s + n, m - n)
    ensures 1 <= n && s + n <= PAGES
    ensures Core(ResizeRun(h, base, s, n, m))
    ensures Quiet(h) ==> Quiet(ResizeRun(h, base, s, n, m))
  {
    hide IsSlot, IsLarge, FreeOk, LiveOk, CompleteBut, CountersZero, Partition, Counted;
    var c := h.chunks[base];
    FreeLargeRuns(c, s, n);
    if m < n {
      ShrinkRuns(c, s, n, m);
      ShrinkRunInv(c, s, n, m);
    } else {
      GrowRuns(c, s, n, m);
      GrowRunInv(c, s, n, m);
    }
    var d := if m < n then ShrinkRun(c, s, n, m) else GrowRun(c, s, n, m);
    ChunkStepFrame(h, base, d);
    SameSlots(h, base, d);
    LargeNow(h, base, d, s, m);
    LiveLarge(h, base, s, n);
    var h' := ResizeRun(h, base, s, n, m);
    ChunksOnly(WithChunk(h, base, d), h');
    LargeBlockStep(h, h', PageAddr(base, s), m);
  }

  // ---- small slots -------------------------------------------------------------

  /** The first free slot of a bin is handed out. */
  function TakeSlot(h: Heap, b: Bin): Heap
    requires |h.free| == BINS && h.free[b] != []
  {
    h.(free := h.free[b := h.free[b][1..]], live := h.live[h.free[b][0] := Small(b)])
  }

  /** A slot goes back to the head of its free list. */
  function GiveSlot(h: Heap, a: nat, b: Bin): Heap
    requires |h.free| == BINS
  {
    h.(free := h.free[b := [a] + h.free[b]], live := h.live - {a})
  }

  /** An address is a slot of one bin at most, and then neither a large run nor a huge block. */
  lemma OneKind(h: Heap, a: nat, b: Bin)
    requires Core(h) && IsSlot(h, a, b)
    ensures forall x: Bin :: IsSlot(h, a, x) ==> x == b
    ensures forall n :: !IsLarge(h, a, n)
    ensures forall n :: !IsHuge(h, a, n)
  {
    hide ChunksOk, FreeOk, LiveOk, CompleteBut, PageOf, SlotOffset, IsHuge;
    assert ChunkBase(a) <= a < ChunkBase(a) + CHUNK_SIZE;
    NotHuge(h, ChunkBase(a), a);
  }

  lemma FreeSlotNotLive(h: Heap, a: nat, b: Bin)
    requires Core(h) && a in h.free[b]
    ensures a !in h.live
    ensures forall x: Bin :: a in h.free[x] ==> x == b
  {
    hide IsSlot, IsLarge, IsHuge, RingOk, RegionsOk, ChunksOk, CompleteBut;
    assert IsSlot(h, a, b);
    OneKind(h, a, b);
    assert a in h.live ==> BlockOk(h, a, h.live[a]);
  }

  lemma TakeSlotCore(h: Heap, b: Bin)
    requires Core(h) && h.free[b] != []
    ensures h.free[b][0] !in h.live && IsSlot(h, h.free[b][0], b)
    ensures Core(TakeSlot(h, b))
    ensures Quiet(h) ==> Quiet(TakeSlot(h, b))
  {
    hide IsSlot, IsLarge, RingOk, RegionsOk, ChunksOk, Quiet;
    var a := h.free[b][0];
    var h' := TakeSlot(h, b);
    FreeSlotNotLive(h, a, b);
    OneKind(h, a, b);
    ChunksOnly(h, h');
    assert IsSlot(h, a, b);
    forall x | x in h'.live
      ensures BlockOk(h', x, h'.live[x])
    {
      assert x in h.live ==> BlockOk(h, x, h.live[x]);
    }
    forall x: nat, y: Bin | IsSlot(h', x, y)
      ensures x in h'.free[y] || Has(h'.live, x, Small(y))
    {
      assert x in h.free[y] || Has(h.live, x, Small(y));
    }
  }

  lemma GiveSlotCore(h: Heap, a: nat, b: Bin)
    requires Core(h) && Has(h.live, a, Small(b)) && forall j | 0 <= j < |h.huge| :: h.huge[j].node != a
    ensures Core(GiveSlot(h, a, b))
    ensures Quiet(h) ==> Quiet(GiveSlot(h, a, b))
  {
    hide IsSlot, IsLarge, RingOk, RegionsOk, ChunksOk, Quiet;
    var h' := GiveSlot(h, a, b);
    assert BlockOk(h, a, h.live[a]);
    OneKind(h, a, b);
    ChunksOnly(h, h');
    forall x | x in h'.live
      ensures BlockOk(h', x, h'.live[x])
    {
      assert BlockOk(h, x, h.live[x]);
    }
    forall x: nat, y: Bin | IsSlot(h', x, y)
      ensures x in h'.free[y] || Has(h'.live, x, Small(y))
    {
      assert x in h.free[y] || Has(h.live, x, Small(y));
    }
  }

  // ---- a new small run ---------------------------------------------------------

  /** Slot k of the run of bin b at address a. */
  function SlotAddr(a: nat, b: Bin, k: nat): nat { a + k * BinSize(b) }

  /** The slots of a new run behind its first one, in address order. */
  function NewSlots(a: nat, b: Bin): (r: seq<nat>)
    ensures BinElements(b) >= 1 && |r| == BinElements(b) - 1
    ensures forall k | 0 <= k < |r| :: r[k] == SlotAddr(a, b, k + 1)
  {
    BinFacts(b);
    seq(BinElements(b) - 1, k requires 0 <= k => SlotAddr(a, b, k + 1))
  }

  /** A large run becomes a small run of bin b: the first slot is handed out, the rest is free. */
  function SplitRun(h: Heap, base: nat, s: nat, b: Bin): Heap
    requires |h.free| == BINS && base in h.chunks && WellSized(h.chunks[base]) && s + BinPages(b) <= PAGES
  {
    var a := PageAddr(base, s);
    WithChunk(h, base, MarkSmall(h.chunks[base], s, b))
      .(free := h.free[b := NewSlots(a, b)], live := h.live[a := Small(b)])
  }

  /** Where the slots of the run at page s lie. */
  lemma SlotPlace(base: nat, s: nat, b: Bin, x: nat)
    requires base % CHUNK_SIZE == 0 && s + BinPages(b) <= PAGES
    ensures SlotOffset(x - PageAddr(base, s), b) ==>
      ChunkBase(x) == base && s <= PageOf(x) < s + BinPages(b) &&
      x + BinSize(b) <= PageAddr(base, s + BinPages(b))
  {
    hide BinSize, BinPages, BinElements, SlotOffset;
    var off := x - PageAddr(base, s);
    if SlotOffset(off, b) {
      SlotOffsetFits(off, b);
      BinFacts(b);
      PageAddrParts(base, PAGE_SIZE * s + off);
    }
  }

  lemma SlotAddrGrows(a: nat, b: Bin, k: nat, j: nat)
    requires k < j
    ensures SlotAddr(a, b, k) < SlotAddr(a, b, j)
  {
    hide BinSize;
    BinFacts(b);
    MulMono(k + 1, j, BinSize(b));
  }

  /** The slots of a run are the addresses SlotAddr counts out. */
  lemma SlotAddrIs(a: nat, b: Bin, k: nat)
    ensures SlotOffset(SlotAddr(a, b, k) - a, b) <==> k < BinElements(b)
    ensures SlotAddr(a, b, 0) == a
  {
    hide BinSize, BinElements, SlotOffset;
    SlotOffsetOf(b, k);
  }

  lemma SlotAddrOf(a: nat, b: Bin, x: nat) returns (k: nat)
    requires SlotOffset(x - a, b)
    ensures k < BinElements(b) && x == SlotAddr(a, b, k)
  {
    hide BinSize, BinElements, SlotOffset;
    k := SlotIndex(x - a, b);
  }

  lemma NewSlotsAre(a: nat, b: Bin)
    ensures forall x: nat :: x in NewSlots(a, b) <==> x != a && SlotOffset(x - a, b)
    ensures NoDup(NewSlots(a, b))
    ensures SlotOffset(0, b)
  {
    hide BinSize, BinPages, BinElements, SlotOffset, SlotAddr, NewSlots;
    BinFacts(b);
    var r := NewSlots(a, b);
    SlotAddrIs(a, b, 0);
    forall x: nat
      ensures x in r <==> x != a && SlotOffset(x - a, b)
    {
      if x in r {
        var k :| 0 <= k < |r| && r[k] == x;
        SlotAddrIs(a, b, k + 1);
        SlotAddrGrows(a, b, 0, k + 1);
      }
      if x != a && SlotOffset(x - a, b) {
        var k := SlotAddrOf(a, b, x);
        assert r[k - 1] == x;
      }
    }
    forall i, j | 0 <= i < j < |r| ensures r[i] != r[j] { SlotAddrGrows(a, b, i + 1, j + 1); }
  }

  lemma SplitRunSlots(h: Heap, base: nat, s: nat, b: Bin)
    requires |h.free| == BINS && base in h.chunks && base % CHUNK_SIZE == 0
    requires Inv(h.chunks[base]) && LargeRunOf(h.chunks[base], s, BinPages(b))
    ensures s + BinPages(b) <= PAGES && WellSized(h.chunks[base])
    ensures forall x: nat, y: Bin :: IsSlot(SplitRun(h, base, s, b), x, y) <==>
              IsSlot(h, x, y) || (y == b && SlotOffset(x - PageAddr(base, s), b))
    ensures forall x: nat, y: Bin :: SlotOffset(x - PageAddr(base, s), b) ==> !IsSlot(h, x, y)
  {
    hide BinSize, BinPages, BinElements, SlotOffset, ChunkBase, PageOf;
    var c := h.chunks[base];
    assert RunOk(c, s);
    RunPages(c, s);
    MarkSmallRuns(c, s, b);
    var h' := SplitRun(h, base, s, b);
    forall x: nat, y: Bin
      ensures IsSlot(h', x, y) <==> IsSlot(h, x, y) || (y == b && SlotOffset(x - PageAddr(base, s), b))
      ensures SlotOffset(x - PageAddr(base, s), b) ==> !IsSlot(h, x, y)
    {
      SlotPlace(base, s, b, x);
    }
  }

  /** What SplitRun changes, in terms of slots and large runs. */
  ghost predicate Splits(h: Heap, h': Heap, a: nat, b: Bin)
    requires |h.free| == BINS
  {
    && h'.free == h.free[b := NewSlots(a, b)] && h'.live == h.live[a := Small(b)] && h'.huge == h.huge
    && a in h.live && h.live[a].Large? && h.free[b] == []
    && (forall x: nat, y: Bin :: IsSlot(h', x, y) <==> IsSlot(h, x, y) || (y == b && SlotOffset(x - a, b)))
    && (forall x: nat, y: Bin :: SlotOffset(x - a, b) ==> !IsSlot(h, x, y))
    && (forall x: nat, n: nat :: IsLarge(h', x, n) <==> x != a && IsLarge(h, x, n))
  }

  lemma SplitsFree(h: Heap, h': Heap, a: nat, b: Bin)
    requires Core(h) && Splits(h, h', a, b)
    ensures FreeOk(h') && LiveOk(h')
  {
    hide IsSlot, IsLarge, RingOk, RegionsOk, ChunksOk, SlotOffset, NewSlots, CompleteBut;
    NewSlotsAre(a, b);
    forall y: Bin, x | x in h'.free[y] ensures IsSlot(h', x, y) {
      assert x in h.free[y] ==> IsSlot(h, x, y);
    }
    forall x | x in h'.live
      ensures BlockOk(h', x, h'.live[x])
    {
      assert BlockOk(h, x, h.live[x]);
    }
  }

  lemma SplitsComplete(h: Heap, h': Heap, a: nat, b: Bin)
    requires Core(h) && Splits(h, h', a, b) && FreeOk(h')
    ensures CompleteBut(h', {})
  {
    hide IsSlot, IsLarge, RingOk, RegionsOk, ChunksOk, SlotOffset, NewSlots, LiveOk;
    NewSlotsAre(a, b);
    forall x: nat, y: Bin | IsSlot(h', x, y)
      ensures x in h'.free[y] || Has(h'.live, x, Small(y))
    {
      if IsSlot(h, x, y) {
        assert x in h.free[y] || Has(h.live, x, Small(y));
      }
    }
  }

  lemma SplitRunCore(h: Heap, base: nat, s: nat, b: Bin)
    requires Core(h) && base in h.ring && base in h.chunks && LargeRunOf(h.chunks[base], s, BinPages(b))
    requires b >= 1 && |h.free| == BINS && h.free[b] == []
    ensures s + BinPages(b) <= PAGES && WellSized(h.chunks[base])
    ensures Core(SplitRun(h, base, s, b))
    ensures Quiet(h) ==> Quiet(SplitRun(h, base, s, b))
  {
    hide IsSlot, IsLarge, Partition, Counted, CountersZero, BinPages, SlotOffset, NewSlots;
    hide FreeOk, LiveOk, CompleteBut;
    var c := h.chunks[base];
    CoreChunk(h, base);
    FreeLargeRuns(c, s, BinPages(b));
    MarkSmallInv(c, s, b);
    MarkSmallRuns(c, s, b);
    var d := MarkSmall(c, s, b);
    ChunkStepFrame(h, base, d);
    LargeNow(h, base, d, s, 0);
    LiveLarge(h, base, s, BinPages(b));
    SplitRunSlots(h, base, s, b);
    var h' := SplitRun(h, base, s, b);
    ChunksOnly(WithChunk(h, base, d), h');
    SplitsFree(h, h', PageAddr(base, s), b);
    SplitsComplete(h, h', PageAddr(base, s), b);
  }

  // ---- chunks ------------------------------------------------------------------

  /** A chunk joins the ring, from the cache or from the OS. */
  function AddChunk(h: Heap, base: nat, c: Chunk, cached: seq<nat>): Heap {
    h.(chunks := h.chunks[base := c], ring := h.ring + [base], cached := cached)
  }

  lemma EmptyChunkStep(h: Heap, base: nat, c: Chunk)
    requires base !in h.chunks || Empty(h.chunks[base])
    requires Empty(c)
    ensures forall a: nat, b: Bin :: IsSlot(WithChunk(h, base, c), a, b) <==> IsSlot(h, a, b)
    ensures forall a: nat, n: nat :: IsLarge(WithChunk(h, base, c), a, n) <==> IsLarge(h, a, n)
  {
    hide Empty, ChunkBase, PageOf, SlotOffset, SmallRunOf, LargeRunOf;
    EmptyRuns(c);
    if base in h.chunks { EmptyRuns(h.chunks[base]); }
  }

  lemma AddChunkCore(h: Heap, base: nat, c: Chunk, cached: seq<nat>)
    requires Core(h) && Inv(c) && CountersZero(c) && Empty(c) && ChunkPlace(base)
    requires (h.cached != [] && base == h.cached[0] && cached == h.cached[1..]) || (base !in h.chunks && cached == h.cached)
    requires forall j | 0 <= j < |h.huge| :: Apart(base, CHUNK_SIZE, h.huge[j].ptr, h.huge[j].size)
    ensures Core(AddChunk(h, base, c, cached))
    ensures Quiet(h) ==> Quiet(AddChunk(h, base, c, cached))
  {
    hide Inv, Empty, CountersZero, IsSlot, IsLarge, FreeOk, LiveOk, CompleteBut;
    var h' := AddChunk(h, base, c, cached);
    assert base in h.chunks ==> Empty(h.chunks[base]);
    EmptyChunkStep(h, base, c);
    ChunksOnly(WithChunk(h, base, c), h');
    AddChunkRing(h, base, c, cached);
    assert RegionsOk(h') by {
      forall b, j | b in h'.chunks && 0 <= j < |h'.huge|
        ensures Apart(b, CHUNK_SIZE, h'.huge[j].ptr, h'.huge[j].size)
      {
        assert b == base || b in h.chunks;
      }
    }
    SameRunsStep(h, h', {});
  }

  lemma AddChunkRing(h: Heap, base: nat, c: Chunk, cached: seq<nat>)
    requires RingOk(h) && ChunksOk(h) && Inv(c) && CountersZero(c)
    requires (h.cached != [] && base == h.cached[0] && cached == h.cached[1..]) || (base !in h.chunks && cached == h.cached)
    ensures var h' := AddChunk(h, base, c, cached); RingOk(h') && ChunksOk(h') && (Quiet(h) ==> Quiet(h'))
  {
    hide Inv, Empty, CountersZero;
    var h' := AddChunk(h, base, c, cached);
    forall i | 0 <= i < |h'.cached|
      ensures h'.cached[i] in h.cached && h'.cached[i] != base && h'.cached[i] !in h.ring
    {
      if cached == h.cached {
        assert h'.cached[i] == h.cached[i];
      } else {
        assert h'.cached[i] == h.cached[i + 1];
      }
    }
    forall b | b in h'.chunks ensures b in h'.ring || b in h'.cached {
      if b != base {
        assert b in h.ring || b in h.cached;
      }
    }
    assert base !in h.ring;
    forall b | b in h'.ring ensures b == base || b in h.ring {}
  }

  function Without(s: seq<nat>, i: nat): seq<nat>
    requires i < |s|
  {
    s[..i] + s[i + 1..]
  }

  lemma WithoutIs(s: seq<nat>, i: nat)
    requires i < |s| && NoDup(s)
    ensures |Without(s, i)| == |s| - 1 && NoDup(Without(s, i))
    ensures forall x :: x in Without(s, i) <==> x in s && x != s[i]
  {
  }

  /** zend_mm_delete_chunk: the chunk at ring position i leaves the ring; it goes to the head of the
      cache (Keep), or is unmapped (Unmap), or takes the place of the cached chunk unmapped instead (Replace). */
  datatype Deletion = Keep | Unmap | Replace

  function DeleteChunk(h: Heap, i: nat, how: Deletion): Heap
    requires 1 <= i < |h.ring| && (how.Replace? ==> h.cached != [])
  {
    var g := h.(ring := Without(h.ring, i));
    match how
    case Keep => g.(cached := [h.ring[i]] + h.cached)
    case Unmap => g.(chunks := h.chunks - {h.ring[i]})
    case Replace => g.(chunks := h.chunks - {h.cached[0]}, cached := [h.ring[i]] + h.cached[1..])
  }

  lemma DeleteChunkRing(h: Heap, i: nat, how: Deletion)
    requires RingOk(h) && ChunksOk(h) && 1 <= i < |h.ring| && (how.Replace? ==> h.cached != [])
    requires h.ring[i] in h.chunks && Empty(h.chunks[h.ring[i]])
    ensures var h' := DeleteChunk(h, i, how); RingOk(h') && ChunksOk(h') && (Quiet(h) ==> Quiet(h'))
  {
    hide Inv, Empty, CountersZero, Without, NoDup;
    WithoutIs(h.ring, i);
    match how {
      case Keep => KeepRing(h, i);
      case Unmap => UnmapRing(h, i);
      case Replace => ReplaceRing(h, i);
    }
  }

  lemma KeepRing(h: Heap, i: nat)
    requires RingOk(h) && ChunksOk(h) && 1 <= i < |h.ring| && h.ring[i] in h.chunks && Empty(h.chunks[h.ring[i]])
    ensures var h' := DeleteChunk(h, i, Keep); RingOk(h') && ChunksOk(h') && (Quiet(h) ==> Quiet(h'))
  {
    hide Inv, Empty, CountersZero, Without;
    var h' := DeleteChunk(h, i, Keep);
    WithoutIs(h.ring, i);
    forall j | 0 <= j < |h'.ring| ensures h'.ring[j] in h.ring && h'.ring[j] != h.ring[i] { assert h'.ring[j] in h'.ring; }
    assert forall j | 0 < j < |h'.cached| :: h'.cached[j] == h.cached[j - 1];
  }

  lemma UnmapRing(h: Heap, i: nat)
    requires RingOk(h) && ChunksOk(h) && 1 <= i < |h.ring|
    ensures var h' := DeleteChunk(h, i, Unmap); RingOk(h') && ChunksOk(h') && (Quiet(h) ==> Quiet(h'))
  {
    hide Inv, Empty, CountersZero, Without;
    var h' := DeleteChunk(h, i, Unmap);
    WithoutIs(h.ring, i);
    forall j | 0 <= j < |h'.ring| ensures h'.ring[j] in h.ring && h'.ring[j] != h.ring[i] { assert h'.ring[j] in h'.ring; }
  }

  lemma ReplaceRing(h: Heap, i: nat)
    requires RingOk(h) && ChunksOk(h) && 1 <= i < |h.ring| && h.cached != []
    requires h.ring[i] in h.chunks && Empty(h.chunks[h.ring[i]])
    ensures var h' := DeleteChunk(h, i, Replace); RingOk(h') && ChunksOk(h') && (Quiet(h) ==> Quiet(h'))
  {
    hide Inv, Empty, CountersZero, Without;
    var h' := DeleteChunk(h, i, Replace);
    WithoutIs(h.ring, i);
    forall j | 0 <= j < |h'.ring| ensures h'.ring[j] in h.ring && h'.ring[j] != h.ring[i] { assert h'.ring[j] in h'.ring; }
    assert forall j | 0 < j < |h'.cached| :: h'.cached[j] == h.cached[j];
  }

  lemma RemoveEmptyChunk(h: Heap, h': Heap, base: nat)
    requires base in h.chunks && Empty(h.chunks[base]) && h'.chunks == h.chunks - {base}
    ensures forall a: nat, b: Bin :: IsSlot(h', a, b) <==> IsSlot(h, a, b)
    ensures forall a: nat, n: nat :: IsLarge(h', a, n) <==> IsLarge(h, a, n)
  {
    hide Empty, ChunkBase, PageOf, SlotOffset, SmallRunOf, LargeRunOf;
    EmptyRuns(h.chunks[base]);
  }

  lemma DeleteChunkCore(h: Heap, i: nat, how: Deletion, lost: set<nat>)
    requires CoreBut(h, lost) && 1 <= i < |h.ring| && (how.Replace? ==> h.cached != [])
    requires h.ring[i] in h.chunks && Empty(h.chunks[h.ring[i]])
    ensures CoreBut(DeleteChunk(h, i, how), lost)
    ensures Quiet(h) ==> Quiet(DeleteChunk(h, i, how))
    ensures forall a: nat, b: Bin :: IsSlot(DeleteChunk(h, i, how), a, b) <==> IsSlot(h, a, b)
    ensures forall a: nat, n: nat :: IsLarge(DeleteChunk(h, i, how), a, n) <==> IsLarge(h, a, n)
  {
    hide Inv, Empty, CountersZero, IsSlot, IsLarge, FreeOk, LiveOk, CompleteBut;
    var h' := DeleteChunk(h, i, how);
    DeleteChunkRing(h, i, how);
    match how {
      case Keep => ChunksOnly(h, h');
      case Unmap => RemoveEmptyChunk(h, h', h.ring[i]);
      case Replace => RemoveEmptyChunk(h, h', h.cached[0]);
    }
    SameRunsStep(h, h', lost);
  }

  /** The first cached chunk is unmapped. */
  function DropCached(h: Heap): Heap
    requires h.cached != []
  {
    h.(chunks := h.chunks - {h.cached[0]}, cached := h.cached[1..])
  }

  lemma DropCachedCore(h: Heap)
    requires Core(h) && h.cached != []
    ensures Core(DropCached(h))
    ensures Quiet(h) ==> Quiet(DropCached(h))
  {
    hide Inv, Empty, CountersZero, IsSlot, IsLarge, FreeOk, LiveOk, CompleteBut;
    var h' := DropCached(h);
    RemoveEmptyChunk(h, h', h.cached[0]);
    assert forall i | 0 <= i < |h'.cached| :: h'.cached[i] == h.cached[i + 1];
    SameRunsStep(h, h', {});
  }

  /** The second chunk of the ring goes to the head of the cache, whatever its state. */
  function CacheSecond(h: Heap): Heap
    requires |h.ring| >= 2
  {
    h.(ring := [h.ring[0]] + h.ring[2..], cached := [h.ring[1]] + h.cached)
  }

  lemma CacheSecondRing(h: Heap)
    requires RingOk(h) && |h.ring| >= 2
    ensures RingOk(CacheSecond(h))
  {
    var h' := CacheSecond(h);
    assert forall i | 1 <= i < |h'.ring| :: h'.ring[i] == h.ring[i + 1];
    assert forall i | 1 <= i < |h'.cached| :: h'.cached[i] == h.cached[i - 1];
    forall b | b in h'.chunks ensures b in h'.ring || b in h'.cached {
      if b in h.ring {
        var i :| 0 <= i < |h.ring| && h.ring[i] == b;
        assert i == 1 ==> h'.cached[0] == b;
        assert i == 0 ==> h'.ring[0] == b;
        assert i >= 2 ==> h'.ring[i - 1] == b;
      } else {
        var i :| 0 <= i < |h.cached| && h.cached[i] == b;
        assert h'.cached[i + 1] == b;
      }
    }
  }

  lemma DropCachedRing(h: Heap)
    requires RingOk(h) && h.cached != []
    ensures RingOk(DropCached(h))
  {
    var h' := DropCached(h);
    assert forall i | 0 <= i < |h'.cached| :: h'.cached[i] == h.cached[i + 1];
  }

  /** A heap with nothing but an empty main chunk and cached chunks. */
  ghost predicate Pristine(h: Heap) {
    && |h.ring| == 1 && NoDup(h.cached) && h.ring[0] !in h.cached && h.ring[0] in h.chunks
    && (forall i | 0 <= i < |h.cached| :: h.cached[i] in h.chunks)
    && (forall b | b in h.chunks :: ChunkPlace(b) && Empty(h.chunks[b]) && (b == h.ring[0] || b in h.cached))
    && Inv(h.chunks[h.ring[0]]) && CountersZero(h.chunks[h.ring[0]])
    && h.huge == [] && h.live == map[] && |h.free| == BINS && forall b: Bin :: h.free[b] == []
  }

  lemma PristineCore(h: Heap)
    requires Pristine(h)
    ensures Core(h) && Quiet(h)
  {
    hide Inv, Empty, CountersZero, SmallRunOf, LargeRunOf, SlotOffset, ChunkBase, PageOf;
    forall b | b in h.chunks
      ensures forall p: nat, s: int, x: Bin :: !SmallRunOf(h.chunks[b], p, s, x)
      ensures forall s: nat, n: nat :: !LargeRunOf(h.chunks[b], s, n)
    {
      EmptyRuns(h.chunks[b]);
    }
    forall a: nat, b: Bin ensures !IsSlot(h, a, b) {}
    forall a: nat, n: nat ensures !IsLarge(h, a, n) {}
  }

  /** The move-to-front of zend_mm_alloc_pages: the chunk at position i goes right behind the main chunk. */
  function MoveToFrontRing(ring: seq<nat>, i: nat): seq<nat>
    requires 1 <= i < |ring|
  {
    [ring[0], ring[i]] + Without(ring, i)[1..]
  }

  function MoveToFront(h: Heap, i: nat): Heap
    requires 1 <= i < |h.ring|
  {
    h.(ring := MoveToFrontRing(h.ring, i))
  }

  /** The chunk comes right behind the main one; the others keep their order. */
  lemma MoveToFrontIs(ring: seq<nat>, i: nat)
    requires 1 <= i < |ring|
    ensures var r := MoveToFrontRing(ring, i); |r| == |ring|
    ensures var r := MoveToFrontRing(ring, i);
      forall k | 0 <= k < |r| :: r[k] == ring[if k == 0 then 0 else if k == 1 then i else if k <= i then k - 1 else k]
    ensures var r := MoveToFrontRing(ring, i);
      forall k | 0 <= k < |r| :: ring[k] == r[if k == 0 then 0 else if k == i then 1 else if k < i then k + 1 else k]
  {
  }

  lemma MoveToFrontMembers(ring: seq<nat>, i: nat)
    requires 1 <= i < |ring| && NoDup(ring)
    ensures NoDup(MoveToFrontRing(ring, i))
    ensures forall x :: x in MoveToFrontRing(ring, i) <==> x in ring
  {
    hide MoveToFrontRing;
    MoveToFrontIs(ring, i);
  }

  lemma MoveToFrontCore(h: Heap, i: nat)
    requires Core(h) && 1 <= i < |h.ring|
    ensures Core(MoveToFront(h, i))
    ensures Quiet(h) ==> Quiet(MoveToFront(h, i))
    ensures forall x :: x in MoveToFront(h, i).ring <==> x in h.ring
  {
    hide Inv, Empty, CountersZero, IsSlot, IsLarge, FreeOk, LiveOk, CompleteBut, MoveToFrontRing, NoDup;
    var h' := MoveToFront(h, i);
    MoveToFrontMembers(h.ring, i);
    MoveToFrontIs(h.ring, i);
    ChunksOnly(h, h');
    RingMembers(h, h');
    SameRunsStep(h, h', {});
  }

  lemma RingMembers(h: Heap, h': Heap)
    requires RingOk(h) && ChunksOk(h) && NoDup(h'.ring) && h'.ring != []
    requires h'.chunks == h.chunks && h'.cached == h.cached && forall x :: x in h'.ring <==> x in h.ring
    ensures RingOk(h') && ChunksOk(h') && (Quiet(h) ==> Quiet(h'))
  {
    hide Inv, Empty, CountersZero, NoDup;
    forall i | 0 <= i < |h'.ring| ensures h'.ring[i] in h.ring { assert h'.ring[i] in h'.ring; }
  }

  // ---- huge blocks -------------------------------------------------------------

  /** A region of n bytes at ptr overlaps no chunk and no huge block. */
  ghost predicate FreshRegion(h: Heap, ptr: nat, n: nat) {
    && ptr > 0 && ptr % CHUNK_SIZE == 0 && n > 0 && ptr + n <= ADDRESS_END
    && (forall b | b in h.chunks :: Apart(b, CHUNK_SIZE, ptr, n))
    && (forall j | 0 <= j < |h.huge| :: Apart(h.huge[j].ptr, h.huge[j].size, ptr, n))
  }

  /** zend_mm_add_huge_block: the node, a live small block, enters the huge list. */
  function AddHuge(h: Heap, node: nat, ptr: nat, n: nat): Heap {
    h.(huge := [HugeNode(node, ptr, n)] + h.huge, live := h.live[ptr := Huge(n)])
  }

  /** The huge block at list position j is gone; its node is an ordinary live block now. */
  function RemoveHuge(h: Heap, j: nat): Heap
    requires j < |h.huge|
  {
    h.(huge := h.huge[..j] + h.huge[j + 1..], live := h.live - {h.huge[j].ptr})
  }

  /** The huge block at list position j now has n bytes. */
  function ResizeHuge(h: Heap, j: nat, n: nat): Heap
    requires j < |h.huge|
  {
    h.(huge := h.huge[j := h.huge[j].(size := n)], live := h.live[h.huge[j].ptr := Huge(n)])
  }

  lemma NotSlotOrLarge(h: Heap, a: nat)
    requires ChunkBase(a) !in h.chunks
    ensures forall b: Bin :: !IsSlot(h, a, b)
    ensures forall n :: !IsLarge(h, a, n)
  {
  }

  lemma HugeAddress(h: Heap, ptr: nat, n: nat)
    requires FreshRegion(h, ptr, n) && RegionsOk(h)
    ensures forall b: Bin :: !IsSlot(h, ptr, b)
    ensures forall m: nat :: !IsLarge(h, ptr, m) && !IsHuge(h, ptr, m)
  {
    hide SlotIn, LargeIn, PageOf;
    NotSlotOrLarge(h, ptr);
    forall m: nat ensures !IsHuge(h, ptr, m) {}
  }

  /** The huge list and the live map of h' differ from those of h only in the block at ptr. */
  lemma HugeStep(h: Heap, h': Heap, ptr: nat)
    requires Core(h) && RegionsOk(h') && HugeLive(h')
    requires h'.chunks == h.chunks && h'.ring == h.ring && h'.cached == h.cached && h'.free == h.free
    requires forall b: Bin :: !IsSlot(h, ptr, b)
    requires forall m :: !IsLarge(h, ptr, m)
    requires forall x: nat, m: nat :: x != ptr ==> (IsHuge(h', x, m) <==> IsHuge(h, x, m))
    requires forall x: nat, b :: x != ptr ==> (Has(h'.live, x, b) <==> Has(h.live, x, b))
    requires ptr in h'.live ==> BlockOk(h', ptr, h'.live[ptr])
    ensures Core(h')
    ensures Quiet(h) ==> Quiet(h')
  {
    hide IsSlot, IsLarge, IsHuge, RingOk, RegionsOk, ChunksOk, HugeLive, Quiet;
    ChunksOnly(h, h');
    forall x | x in h'.live
      ensures BlockOk(h', x, h'.live[x])
    {
      if x != ptr {
        assert Has(h.live, x, h'.live[x]);
        assert BlockOk(h, x, h.live[x]);
      }
    }
    forall x: nat, y: Bin | IsSlot(h', x, y)
      ensures x in h'.free[y] || Has(h'.live, x, Small(y))
    {
      assert x in h.free[y] || Has(h.live, x, Small(y));
    }
  }

  lemma CoreHuge(h: Heap)
    requires Core(h)
    ensures |h.free| == BINS && HugeLive(h) && RegionsOk(h) && LiveOk(h)
  {
  }

  lemma AddHugeList(h: Heap, node: nat, ptr: nat, n: nat)
    requires HugeLive(h) && RegionsOk(h) && FreshRegion(h, ptr, n) && ptr !in h.live && Has(h.live, node, Small(NODE_BIN))
    requires forall j | 0 <= j < |h.huge| :: h.huge[j].node != node
    ensures var h' := AddHuge(h, node, ptr, n); HugeLive(h') && RegionsOk(h') && IsHuge(h', ptr, n)
    ensures forall x: nat, m: nat :: x != ptr ==> (IsHuge(AddHuge(h, node, ptr, n), x, m) <==> IsHuge(h, x, m))
  {
    hide HugeLive, RegionsOk, FreshRegion;
    var h' := AddHuge(h, node, ptr, n);
    AddedRegions(h, h', node, ptr, n);
    AddedLive(h, h', node, ptr, n);
    assert h'.huge[0] == HugeNode(node, ptr, n);
    assert forall j | 0 < j < |h'.huge| :: h'.huge[j] == h.huge[j - 1];
    forall x: nat, m: nat | x != ptr
      ensures IsHuge(h', x, m) <==> IsHuge(h, x, m)
    {
      if IsHuge(h, x, m) {
        var j :| 0 <= j < |h.huge| && h.huge[j].ptr == x && h.huge[j].size == m;
        assert h'.huge[j + 1] == h.huge[j];
      }
    }
  }

  lemma AddedRegions(h: Heap, h': Heap, node: nat, ptr: nat, n: nat)
    requires RegionsOk(h) && FreshRegion(h, ptr, n) && h' == AddHuge(h, node, ptr, n)
    ensures RegionsOk(h')
  {
    assert h'.huge[0] == HugeNode(node, ptr, n);
    assert forall j | 0 < j < |h'.huge| :: h'.huge[j] == h.huge[j - 1];
  }

  lemma AddedLive(h: Heap, h': Heap, node: nat, ptr: nat, n: nat)
    requires HugeLive(h) && h' == AddHuge(h, node, ptr, n) && ptr !in h.live && Has(h.live, node, Small(NODE_BIN))
    requires forall j | 0 <= j < |h.huge| :: h.huge[j].node != node
    ensures HugeLive(h')
  {
    assert h'.huge[0] == HugeNode(node, ptr, n);
    assert forall j | 0 < j < |h'.huge| :: h'.huge[j] == h.huge[j - 1];
  }

  lemma AddHugeCore(h: Heap, node: nat, ptr: nat, n: nat)
    requires Core(h) && FreshRegion(h, ptr, n) && Has(h.live, node, Small(NODE_BIN))
    requires forall j | 0 <= j < |h.huge| :: h.huge[j].node != node
    ensures ptr !in h.live
    ensures Core(AddHuge(h, node, ptr, n))
    ensures Quiet(h) ==> Quiet(AddHuge(h, node, ptr, n))
  {
    hide Core, LiveOk, HugeLive, RegionsOk, FreshRegion, IsSlot, IsLarge, IsHuge, Quiet;
    CoreHuge(h);
    HugeAddress(h, ptr, n);
    NotLive(h, ptr);
    AddHugeList(h, node, ptr, n);
    HugeStep(h, AddHuge(h, node, ptr, n), ptr);
  }

  lemma NotLive(h: Heap, a: nat)
    requires |h.free| == BINS && LiveOk(h)
    requires (forall b: Bin :: !IsSlot(h, a, b)) && forall m: nat :: !IsLarge(h, a, m) && !IsHuge(h, a, m)
    ensures a !in h.live
  {
    hide IsSlot, IsLarge, IsHuge;
  }

  lemma HugePtrIsHuge(h: Heap, j: nat)
    requires Core(h) && j < |h.huge|
    ensures forall b: Bin :: !IsSlot(h, h.huge[j].ptr, b)
    ensures forall m :: !IsLarge(h, h.huge[j].ptr, m)
    ensures Has(h.live, h.huge[j].ptr, Huge(h.huge[j].size))
  {
    hide SlotIn, LargeIn, PageOf, ChunksOk, FreeOk, LiveOk;
    NotSlotOrLarge(h, h.huge[j].ptr);
  }

  lemma RemoveHugeIs(huge: seq<HugeNode>, rest: seq<HugeNode>, j: nat)
    requires j < |huge| && rest == huge[..j] + huge[j + 1..]
    ensures |rest| == |huge| - 1
    ensures forall k | 0 <= k < |rest| :: rest[k] == huge[if k < j then k else k + 1]
    ensures forall k | 0 <= k < |huge| && k != j :: huge[k] == rest[if k < j then k else k - 1]
  {
    forall k | 0 <= k < |rest| ensures rest[k] == huge[if k < j then k else k + 1] { RemainsAt(huge, rest, j, k); }
    forall k | 0 <= k < |huge| && k != j
      ensures huge[k] == rest[if k < j then k else k - 1]
    {
      RemainsAt(huge, rest, j, if k < j then k else k - 1);
    }
  }

  lemma RemainsAt(huge: seq<HugeNode>, rest: seq<HugeNode>, j: nat, k: nat)
    requires j < |huge| && rest == huge[..j] + huge[j + 1..] && k < |rest|
    ensures |rest| == |huge| - 1 && (k < j ==> rest[k] == huge[k]) && (k >= j ==> rest[k] == huge[k + 1])
  {
  }

  lemma HugePtrsDiffer(h: Heap, j: nat, k: nat)
    requires HugeLive(h) && RegionsOk(h) && j < |h.huge| && k < |h.huge| && j != k
    ensures h.huge[k].ptr != h.huge[j].ptr && h.huge[k].node != h.huge[j].node && h.huge[k].node != h.huge[j].ptr
  {
  }

  lemma RemoveHugeList(h: Heap, j: nat)
    requires HugeLive(h) && RegionsOk(h) && j < |h.huge|
    ensures var h' := RemoveHuge(h, j); HugeLive(h') && RegionsOk(h')
    ensures forall x: nat, m: nat :: x != h.huge[j].ptr ==> (IsHuge(RemoveHuge(h, j), x, m) <==> IsHuge(h, x, m))
    ensures Has(RemoveHuge(h, j).live, h.huge[j].node, Small(NODE_BIN))
    ensures forall k | 0 <= k < |RemoveHuge(h, j).huge| :: RemoveHuge(h, j).huge[k].node != h.huge[j].node
  {
    hide HugeLive, RegionsOk, RemoveHuge, IsHuge;
    var h' := RemoveHuge(h, j);
    RemovedNodes(h, h', j);
    RemovedRegions(h, h', j);
    RemovedLive(h, h', j);
    forall x: nat, m: nat | x != h.huge[j].ptr
      ensures IsHuge(h', x, m) <==> IsHuge(h, x, m)
    {
      RemovedIsHuge(h, h', j, x, m);
    }
  }

  lemma RemovedNodes(h: Heap, h': Heap, j: nat)
    requires HugeLive(h) && RegionsOk(h) && j < |h.huge| && h' == RemoveHuge(h, j)
    ensures forall k | 0 <= k < |h'.huge| ::
              h'.huge[k].ptr != h.huge[j].ptr && h'.huge[k].node != h.huge[j].node && h'.huge[k].node != h.huge[j].ptr
  {
    hide HugeLive, RegionsOk;
    RemoveHugeIs(h.huge, h'.huge, j);
    forall k | 0 <= k < |h'.huge|
      ensures h'.huge[k].ptr != h.huge[j].ptr && h'.huge[k].node != h.huge[j].node && h'.huge[k].node != h.huge[j].ptr
    {
      HugePtrsDiffer(h, j, if k < j then k else k + 1);
    }
  }

  lemma RemovedIsHuge(h: Heap, h': Heap, j: nat, x: nat, m: nat)
    requires j < |h.huge| && h' == RemoveHuge(h, j) && x != h.huge[j].ptr
    ensures IsHuge(h', x, m) <==> IsHuge(h, x, m)
  {
    RemoveHugeIs(h.huge, h'.huge, j);
    if IsHuge(h, x, m) {
      var k :| 0 <= k < |h.huge| && h.huge[k].ptr == x && h.huge[k].size == m;
      assert h'.huge[if k < j then k else k - 1] == h.huge[k];
    }
  }

  lemma RemovedRegions(h: Heap, h': Heap, j: nat)
    requires RegionsOk(h) && j < |h.huge| && h' == RemoveHuge(h, j)
    ensures RegionsOk(h')
  {
    RemoveHugeIs(h.huge, h'.huge, j);
  }

  lemma RemovedLive(h: Heap, h': Heap, j: nat)
    requires HugeLive(h) && j < |h.huge| && h' == RemoveHuge(h, j)
    requires forall k | 0 <= k < |h'.huge| :: h'.huge[k].ptr != h.huge[j].ptr && h'.huge[k].node != h.huge[j].ptr
    ensures HugeLive(h') && Has(h'.live, h.huge[j].node, Small(NODE_BIN))
  {
    RemoveHugeIs(h.huge, h'.huge, j);
    assert Has(h.live, h.huge[j].ptr, Huge(h.huge[j].size)) && Has(h.live, h.huge[j].node, Small(NODE_BIN));
  }

  lemma RemoveHugeCore(h: Heap, j: nat)
    requires Core(h) && j < |h.huge|
    ensures Core(RemoveHuge(h, j))
    ensures Quiet(h) ==> Quiet(RemoveHuge(h, j))
    ensures Has(RemoveHuge(h, j).live, h.huge[j].node, Small(NODE_BIN))
    ensures forall k | 0 <= k < |RemoveHuge(h, j).huge| :: RemoveHuge(h, j).huge[k].node != h.huge[j].node
  {
    hide Core, LiveOk, HugeLive, RegionsOk, IsSlot, IsLarge, IsHuge, Quiet;
    CoreHuge(h);
    HugePtrIsHuge(h, j);
    RemoveHugeList(h, j);
    HugeStep(h, RemoveHuge(h, j), h.huge[j].ptr);
  }

  /** The bytes a resized huge block covers are still nobody else's. */
  ghost predicate RoomFor(h: Heap, j: nat, n: nat)
    requires j < |h.huge|
  {
    && n > 0 && h.huge[j].ptr + n <= ADDRESS_END
    && (forall b | b in h.chunks :: Apart(b, CHUNK_SIZE, h.huge[j].ptr, n))
    && (forall i | 0 <= i < |h.huge| && i != j :: Apart(h.huge[i].ptr, h.huge[i].size, h.huge[j].ptr, n))
  }

  lemma ResizeHugeList(h: Heap, j: nat, n: nat)
    requires HugeLive(h) && RegionsOk(h) && j < |h.huge| && RoomFor(h, j, n)
    ensures var h' := ResizeHuge(h, j, n); HugeLive(h') && RegionsOk(h') && IsHuge(h', h.huge[j].ptr, n)
    ensures forall x: nat, m: nat :: x != h.huge[j].ptr ==> (IsHuge(ResizeHuge(h, j, n), x, m) <==> IsHuge(h, x, m))
  {
    var h' := ResizeHuge(h, j, n);
    var ptr := h.huge[j].ptr;
    assert h'.huge[j] == HugeNode(h.huge[j].node, ptr, n);
    assert forall k | 0 <= k < |h.huge| && k != j :: h'.huge[k] == h.huge[k] && h.huge[k].ptr != ptr;
    forall x: nat, m: nat | x != ptr
      ensures IsHuge(h', x, m) <==> IsHuge(h, x, m)
    {
      if IsHuge(h, x, m) {
        var k :| 0 <= k < |h.huge| && h.huge[k].ptr == x && h.huge[k].size == m;
        assert h'.huge[k] == h.huge[k];
      }
    }
  }

  lemma ResizeHugeCore(h: Heap, j: nat, n: nat)
    requires Core(h) && j < |h.huge| && RoomFor(h, j, n)
    ensures Core(ResizeHuge(h, j, n))
    ensures Quiet(h) ==> Quiet(ResizeHuge(h, j, n))
  {
    hide Core, LiveOk, HugeLive, RegionsOk, RoomFor, IsSlot, IsLarge, IsHuge, Quiet;
    CoreHuge(h);
    HugePtrIsHuge(h, j);
    ResizeHugeList(h, j, n);
    HugeStep(h, ResizeHuge(h, j, n), h.huge[j].ptr);
  }

  lemma ShrunkHugeFits(h: Heap, j: nat, n: nat)
    requires Core(h) && j < |h.huge| && 0 < n <= h.huge[j].size
    ensures RoomFor(h, j, n)
  {
    hide RingOk, ChunksOk, FreeOk, LiveOk, CompleteBut;
  }

  // ---- live blocks are disjoint ------------------------------------------------

  /** The run pages [s, s + n) of a chunk that hold a small or large block. */
  ghost predicate InRun(h: Heap, a: nat, base: nat, s: nat, n: nat) {
    && base in h.ring && base in h.chunks && Inv(h.chunks[base]) && base % CHUNK_SIZE == 0
    && 1 <= s && s + n <= PAGES && IsRun(h.chunks[base], s) && n == RunLength(h.chunks[base].info[s])
    && a in h.live && PageAddr(base, s) <= a && a + Usable(h.live[a]) <= PageAddr(base, s + n)
  }

  lemma OwnPage(c: Chunk, p: nat)
    requires Inv(c) && p < PAGES && c.owner[p] != FREE
    ensures IsRun(c, c.owner[p]) && RunOk(c, c.owner[p])
  {
  }

  lemma BlockRun(h: Heap, a: nat) returns (base: nat, s: nat, n: nat)
    requires Core(h) && a in h.live && !h.live[a].Huge?
    ensures InRun(h, a, base, s, n)
    ensures h.live[a].Large? ==> a == PageAddr(base, s) && h.chunks[base].info[s] == LRun(h.live[a].pages)
    ensures h.live[a].Small? ==> h.chunks[base].info[s].SRun? && h.chunks[base].info[s].bin == h.live[a].bin
    ensures h.live[a].Small? ==> SlotOffset(a - PageAddr(base, s), h.live[a].bin)
  {
    hide Inv, Empty, FreeOk, CompleteBut, SlotOffset, BinSize, BinPages, ChunkBase, PageOf;
    base := ChunkBase(a);
    CoreHuge(h);
    assert BlockOk(h, a, h.live[a]);
    ChunkOfRun(h, a, base);
    var c := h.chunks[base];
    s := c.owner[PageOf(a)];
    OwnPage(c, PageOf(a));
    n := RunLength(c.info[s]);
    if h.live[a].Small? {
      SlotPlace(base, s, h.live[a].bin, a);
      SlotOffsetFits(a - PageAddr(base, s), h.live[a].bin);
    }
  }

  lemma ChunkOfRun(h: Heap, a: nat, base: nat)
    requires RingOk(h) && ChunksOk(h) && base == ChunkBase(a) && base in h.chunks && WellSized(h.chunks[base])
    requires var s := h.chunks[base].owner[PageOf(a)]; 1 <= s < PAGES && h.chunks[base].owner[s] == s
    ensures base in h.ring && Inv(h.chunks[base])
  {
    hide Inv, PageOf, ChunkBase;
  }

  lemma RunsApart(c: Chunk, r: nat, s: nat)
    requires Inv(c) && IsRun(c, r) && IsRun(c, s) && r < s
    ensures r + RunLength(c.info[r]) <= s
  {
    RunPages(c, r);
  }

  lemma ChunksApart(base: nat, base': nat)
    requires base % CHUNK_SIZE == 0 && base' % CHUNK_SIZE == 0 && base < base'
    ensures base + CHUNK_SIZE <= base'
  {
  }

  /** Distinct live blocks never overlap. */
  lemma LiveBlocksDisjoint(h: Heap, a: nat, b: nat)
    requires Core(h) && a in h.live && b in h.live && a != b
    ensures Apart(a, Usable(h.live[a]), b, Usable(h.live[b]))
  {
    hide Core, InRun, Usable;
    if h.live[a].Huge? {
      HugeApart(h, a, b);
    } else if h.live[b].Huge? {
      HugeApart(h, b, a);
    } else {
      var base, s, n := BlockRun(h, a);
      var base', s', n' := BlockRun(h, b);
      RunBlocksApart(h, a, base, s, n, b, base', s', n');
    }
  }

  lemma RunBlocksApart(h: Heap, a: nat, base: nat, s: nat, n: nat, b: nat, base': nat, s': nat, n': nat)
    requires a != b && InRun(h, a, base, s, n) && InRun(h, b, base', s', n')
    requires !h.live[a].Huge? && !h.live[b].Huge?
    requires h.live[a].Large? ==> a == PageAddr(base, s) && h.chunks[base].info[s] == LRun(h.live[a].pages)
    requires h.live[b].Large? ==> b == PageAddr(base', s') && h.chunks[base'].info[s'] == LRun(h.live[b].pages)
    requires h.live[a].Small? ==> h.chunks[base].info[s].SRun? && h.chunks[base].info[s].bin == h.live[a].bin
    requires h.live[b].Small? ==> h.chunks[base'].info[s'].SRun? && h.chunks[base'].info[s'].bin == h.live[b].bin
    requires h.live[a].Small? ==> SlotOffset(a - PageAddr(base, s), h.live[a].bin)
    requires h.live[b].Small? ==> SlotOffset(b - PageAddr(base', s'), h.live[b].bin)
    ensures Apart(a, Usable(h.live[a]), b, Usable(h.live[b]))
  {
    hide Inv, BinSize, BinPages, SlotOffset;
    if base != base' {
      if base < base' { ChunksApart(base, base'); } else { ChunksApart(base', base); }
    } else if s < s' {
      RunsApart(h.chunks[base], s, s');
    } else if s' < s {
      RunsApart(h.chunks[base], s', s);
    } else {
      var x, y := a - PageAddr(base, s), b - PageAddr(base, s);
      if x < y { SlotsDisjoint(x, y, h.live[a].bin); } else { SlotsDisjoint(y, x, h.live[a].bin); }
    }
  }

  lemma HugeIndex(h: Heap, a: nat) returns (i: nat)
    requires |h.free| == BINS && LiveOk(h) && a in h.live && h.live[a].Huge?
    ensures i < |h.huge| && h.huge[i].ptr == a && h.huge[i].size == h.live[a].bytes
  {
    hide IsSlot, IsLarge;
    assert BlockOk(h, a, h.live[a]);
    i :| 0 <= i < |h.huge| && h.huge[i].ptr == a && h.huge[i].size == h.live[a].bytes;
  }

  lemma HugeApart(h: Heap, a: nat, b: nat)
    requires Core(h) && a in h.live && b in h.live && a != b && h.live[a].Huge?
    ensures Apart(a, Usable(h.live[a]), b, Usable(h.live[b]))
  {
    hide Core, LiveOk, HugeLive, Inv, BinSize, IsRun;
    CoreHuge(h);
    var i := HugeIndex(h, a);
    if h.live[b].Huge? {
      var j := HugeIndex(h, b);
    } else {
      var base, s, n := BlockRun(h, b);
      assert Apart(base, CHUNK_SIZE, h.huge[i].ptr, h.huge[i].size);
    }
  }

  // ---- the tail mark -----------------------------------------------------------

  /** The page search only moves the tail mark. */
  lemma SetTailCore(h: Heap, base: nat, tail: nat)
    requires Core(h) && base in h.ring && base in h.chunks && Inv(h.chunks[base].(freeTail := tail))
    ensures Core(WithChunk(h, base, h.chunks[base].(freeTail := tail)))
    ensures Quiet(h) ==> Quiet(WithChunk(h, base, h.chunks[base].(freeTail := tail)))
  {
    hide Inv, IsSlot, IsLarge, FreeOk, LiveOk, CompleteBut, RegionsOk;
    var c := h.chunks[base];
    var d := c.(freeTail := tail);
    CoreChunk(h, base);
    SameRunsTail(c, tail);
    ChunkStepFrame(h, base, d);
    SameSlots(h, base, d);
    SameLarge(h, base, d);
    SameRunsStep(h, WithChunk(h, base, d), {});
  }

  lemma SameRunsTail(c: Chunk, tail: nat)
    requires WellSized(c)
    ensures SameSmallRuns(c, c.(freeTail := tail)) && SameLargeRuns(c, c.(freeTail := tail))
    ensures CountersZero(c) ==> CountersZero(c.(freeTail := tail))
  {
  }
}
