/** zend_mm_gc on heap values: which runs it collects, and why its three passes - counting,
    filtering the free lists, sweeping the chunks - free exactly those. */
module HeapGc {
  import opened Bins
  import opened ChunkState
  import opened HeapState
  import opened Words
  import opened HeapOps
  import ChunkSweep

  // ---- what is collected -------------------------------------------------------

  ghost predicate RunAt(h: Heap, base: nat, p: nat, s: int, b: Bin) {
    base in h.chunks && SmallRunOf(h.chunks[base], p, s, b)
  }

  /** All slots of the run of bin b at page s are in the list. */
  ghost predicate AllSlotsIn(base: nat, s: nat, b: Bin, list: seq<nat>) {
    forall x: nat | SlotOffset(x - PageAddr(base, s), b) :: x in list
  }

  /** The small run at page s has no slot in use. */
  ghost predicate Collectable(h: Heap, base: nat, s: nat)
    requires |h.free| == BINS
  {
    && s < PAGES && base in h.chunks && WellSized(h.chunks[base])
    && var i := h.chunks[base].info[s];
      i.SRun? && RunAt(h, base, s, s, i.bin) && AllSlotsIn(base, s, i.bin, h.free[i.bin])
  }

  /** The page of a slot belongs to a run that is collected. */
  ghost predicate CollectableSlot(h: Heap, a: nat)
    requires |h.free| == BINS
  {
    && ChunkBase(a) in h.chunks && WellSized(h.chunks[ChunkBase(a)])
    && var s := h.chunks[ChunkBase(a)].owner[PageOf(a)];
      s >= 0 && Collectable(h, ChunkBase(a), s)
  }

  /** A free list without the slots of collected runs, in the same order. */
  ghost function Keep(h: Heap, list: seq<nat>): seq<nat>
    requires |h.free| == BINS
  {
    if list == [] then []
    else
      var n := |list| - 1;
      Keep(h, list[..n]) + if CollectableSlot(h, list[n]) then [] else [list[n]]
  }

  /** The pages of chunk base that are freed. */
  ghost function CollectedPages(h: Heap, base: nat): set<int>
    requires |h.free| == BINS
  {
    set p | 0 <= p < PAGES && base in h.chunks && WellSized(h.chunks[base]) && h.chunks[base].owner[p] >= 0
            && Collectable(h, base, h.chunks[base].owner[p])
  }

  ghost function CountPages(h: Heap, bases: seq<nat>): nat
    requires |h.free| == BINS
  {
    if bases == [] then 0
    else CountPages(h, bases[..|bases| - 1]) + |CollectedPages(h, bases[|bases| - 1])|
  }

  lemma NoPages(h: Heap)
    requires |h.free| == BINS
    ensures CountPages(h, []) == 0
  {
  }

  /** What gc achieves, from heap h to heap g. */
  ghost predicate Collected(h: Heap, g: Heap)
    requires |h.free| == BINS
  {
    && g.live == h.live && g.huge == h.huge && |g.free| == BINS
    && (forall b: Bin :: g.free[b] == Keep(h, h.free[b]))
    && (forall base: nat, p: nat, s: nat, b: Bin ::
          RunAt(g, base, p, s, b) <==> RunAt(h, base, p, s, b) && !Collectable(h, base, s))
    && (forall a: nat, n: nat :: IsLarge(g, a, n) <==> IsLarge(h, a, n))
  }

  lemma {:induction false} KeepIs(h: Heap, list: seq<nat>)
    requires |h.free| == BINS
    ensures forall x :: x in Keep(h, list) <==> x in list && !CollectableSlot(h, x)
  {
    hide CollectableSlot;
    if list != [] {
      KeepIs(h, list[..|list| - 1]);
      assert list == list[..|list| - 1] + [list[|list| - 1]];
    }
  }

  lemma {:induction false} KeepAll(h: Heap, list: seq<nat>)
    requires |h.free| == BINS && forall x | x in list :: !CollectableSlot(h, x)
    ensures Keep(h, list) == list
  {
    hide CollectableSlot;
    if list != [] {
      KeepAll(h, list[..|list| - 1]);
      assert list == list[..|list| - 1] + [list[|list| - 1]];
    }
  }

  /** After gc nothing is left to collect: a second gc returns 0. */
  lemma CollectedTwice(h: Heap, g: Heap, base: nat, s: nat)
    requires |h.free| == BINS && Collected(h, g)
    ensures !Collectable(g, base, s)
  {
    hide BinSize, BinPages, SlotOffset;
    forall b: Bin
      ensures AllSlotsIn(base, s, b, g.free[b]) ==> AllSlotsIn(base, s, b, h.free[b])
    {
      KeepIs(h, h.free[b]);
    }
    assert forall b: Bin :: RunAt(g, base, s, s, b) ==> RunAt(h, base, s, s, b);
  }

  lemma {:induction false} NothingToCount(h: Heap, bases: seq<nat>)
    requires |h.free| == BINS
    ensures (forall i, s: nat | 0 <= i < |bases| :: !Collectable(h, bases[i], s)) ==> CountPages(h, bases) == 0
  {
    hide Collectable;
    if bases != [] && forall i, s: nat | 0 <= i < |bases| :: !Collectable(h, bases[i], s) {
      var n := |bases| - 1;
      NothingToCount(h, bases[..n]);
      assert CollectedPages(h, bases[n]) == {};
    }
  }

  // ---- pass 1: counting --------------------------------------------------------

  /** The members of a list that are slots of the run at page s. */
  ghost function SlotsIn(list: seq<nat>, base: nat, s: nat, b: Bin): set<nat> {
    set x | x in list && SlotOffset(x - PageAddr(base, s), b)
  }

  ghost function FirstSlots(a: nat, b: Bin, n: nat): set<nat> {
    set k | 0 <= k < n :: SlotAddr(a, b, k)
  }

  lemma {:induction false} FirstSlotsSize(a: nat, b: Bin, n: nat)
    ensures |FirstSlots(a, b, n)| == n
  {
    hide SlotAddr;
    if n == 0 {
      assert FirstSlots(a, b, 0) == {};
    } else {
      FirstSlotsSize(a, b, n - 1);
      assert FirstSlots(a, b, n) == FirstSlots(a, b, n - 1) + {SlotAddr(a, b, n - 1)};
      forall k | 0 <= k < n - 1 ensures SlotAddr(a, b, k) != SlotAddr(a, b, n - 1) {
        SlotsApart(a, b, k, n - 1);
      }
    }
  }

  lemma SlotsApart(a: nat, b: Bin, k: nat, n: nat)
    requires k < n
    ensures SlotAddr(a, b, k) != SlotAddr(a, b, n)
  {
    hide BinSize;
    BinFacts(b);
    MulMono(k + 1, n, BinSize(b));
  }

  lemma SlotsInBound(list: seq<nat>, base: nat, s: nat, b: Bin)
    ensures |SlotsIn(list, base, s, b)| <= BinElements(b)
    ensures |SlotsIn(list, base, s, b)| == BinElements(b) <==> AllSlotsIn(base, s, b, list)
  {
    hide BinSize, BinElements, BinPages, SlotOffset;
    var a := PageAddr(base, s);
    var all := FirstSlots(a, b, BinElements(b));
    FirstSlotsSize(a, b, BinElements(b));
    forall x: nat ensures x in all <==> SlotOffset(x - a, b) {
      if SlotOffset(x - a, b) {
        var k := SlotIndex(x - a, b);
        assert SlotAddr(a, b, k) == x;
      }
      if x in all {
        var k :| 0 <= k < BinElements(b) && SlotAddr(a, b, k) == x;
        SlotOffsetOf(b, k);
      }
    }
    var found := SlotsIn(list, base, s, b);
    assert found <= all;
    Smaller(found, all);
    if AllSlotsIn(base, s, b, list) {
      assert found == all;
    } else if found == all {
      forall x: nat | SlotOffset(x - a, b) ensures x in list { assert x in all; }
    }
  }

  lemma SlotsInStep(list: seq<nat>, j: nat, base: nat, s: nat, b: Bin)
    requires j < |list| && NoDup(list)
    ensures |SlotsIn(list[..j + 1], base, s, b)| ==
            |SlotsIn(list[..j], base, s, b)| + if SlotOffset(list[j] - PageAddr(base, s), b) then 1 else 0
  {
    hide SlotOffset;
    assert list[..j + 1] == list[..j] + [list[j]];
    var before := SlotsIn(list[..j], base, s, b);
    if SlotOffset(list[j] - PageAddr(base, s), b) {
      assert SlotsIn(list[..j + 1], base, s, b) == before + {list[j]};
      assert list[j] !in list[..j];
    } else {
      assert SlotsIn(list[..j + 1], base, s, b) == before;
    }
  }

  /** c is c0 with other free counters. */
  ghost predicate CounterOnly(c0: Chunk, c: Chunk) {
    && WellSized(c0) && WellSized(c) && c.owner == c0.owner
    && forall p: nat | p < PAGES ::
         c.info[p] == c0.info[p] || (c0.info[p].SRun? && c.info[p].SRun? && c.info[p].bin == c0.info[p].bin)
  }

  lemma CounterOnlyRuns(c0: Chunk, c: Chunk)
    requires CounterOnly(c0, c)
    ensures SameSmallRuns(c0, c) && SameLargeRuns(c0, c)
  {
  }

  /** The counter of a run of bin x once bins below b and j slots of bin b have been counted. */
  ghost function Expected(h0: Heap, base: nat, s: nat, x: Bin, b: nat, j: nat): nat
    requires |h0.free| == BINS && (b < BINS ==> j <= |h0.free[b]|)
  {
    if x < b then |SlotsIn(h0.free[x], base, s, x)|
    else if x == b then |SlotsIn(h0.free[x][..j], base, s, x)|
    else 0
  }

  ghost predicate ChunkCounts(h0: Heap, c0: Chunk, c: Chunk, base: nat, b: nat, j: nat)
    requires |h0.free| == BINS && (b < BINS ==> j <= |h0.free[b]|)
  {
    && CounterOnly(c0, c) && Inv(c)
    && forall s: nat, x: Bin | SmallRunOf(c0, s, s, x) :: c.info[s] == SRun(x, Expected(h0, base, s, x, b, j))
  }

  /** Heap h is h0 in the middle of counting. */
  ghost predicate Counts(h0: Heap, h: Heap, b: nat, j: nat)
    requires |h0.free| == BINS && (b < BINS ==> j <= |h0.free[b]|)
  {
    && h.ring == h0.ring && h.cached == h0.cached && h.huge == h0.huge && h.live == h0.live
    && h.chunks.Keys == h0.chunks.Keys
    && (forall base | base in h.ring && base in h0.chunks :: ChunkCounts(h0, h0.chunks[base], h.chunks[base], base, b, j))
    && (forall base | base in h.cached && base in h0.chunks :: h.chunks[base] == h0.chunks[base])
  }

  lemma CountStart(h0: Heap)
    requires Core(h0) && Quiet(h0)
    ensures |h0.free| == BINS && Counts(h0, h0, 0, 0)
  {
    hide Inv, SlotOffset, RegionsOk, FreeOk, LiveOk, CompleteBut;
    CoreHuge(h0);
    assert forall base: nat, s: nat, x: Bin :: SlotsIn(h0.free[x][..0], base, s, x) == {};
    forall base | base in h0.ring && base in h0.chunks
      ensures ChunkCounts(h0, h0.chunks[base], h0.chunks[base], base, 0, 0)
    {
      CoreChunk(h0, base);
    }
  }

  lemma CountNextBin(h0: Heap, h: Heap, b: Bin)
    requires |h0.free| == BINS && Counts(h0, h, b, |h0.free[b]|)
    ensures Counts(h0, h, b + 1, 0)
  {
    hide Inv, SlotOffset, CounterOnly;
    assert h0.free[b][..|h0.free[b]|] == h0.free[b];
    forall base | base in h.ring && base in h0.chunks
      ensures ChunkCounts(h0, h0.chunks[base], h.chunks[base], base, b + 1, 0)
    {
      assert forall s: nat, x: Bin :: x == b + 1 ==> SlotsIn(h0.free[x][..0], base, s, x) == {};
    }
  }

  /** The page a slot lies on names its run, directly or through the offset of an NRUN entry. */
  lemma SlotRun(h0: Heap, a: nat, b: Bin)
    requires Core(h0) && IsSlot(h0, a, b)
    ensures var base, c := ChunkBase(a), h0.chunks[ChunkBase(a)];
      && base in h0.ring && base % CHUNK_SIZE == 0 && Inv(c) && WellSized(c)
      && var s := c.owner[PageOf(a)];
        && 1 <= s <= PageOf(a) && SmallRunOf(c, s, s, b) && SlotOffset(a - PageAddr(base, s), b)
        && (PageOf(a) == s || c.info[PageOf(a)] == NRun(b, PageOf(a) - s))
  {
    hide PageOf, ChunkBase, SlotOffset, FreeOk, LiveOk, CompleteBut, Counted, BinPages;
    var c := h0.chunks[ChunkBase(a)];
    var s := c.owner[PageOf(a)];
    ChunkOfRun(h0, a, ChunkBase(a));
    RunPages(c, s);
    assert OwnedOk(c, s, PageOf(a));
  }

  /** A slot lies in one run only. */
  lemma OneRun(h0: Heap, a: nat, base: nat, s: nat, b: Bin)
    requires base in h0.chunks && base % CHUNK_SIZE == 0 && Inv(h0.chunks[base]) && SmallRunOf(h0.chunks[base], s, s, b)
    requires SlotOffset(a - PageAddr(base, s), b)
    ensures ChunkBase(a) == base && h0.chunks[base].owner[PageOf(a)] == s
  {
    hide PageOf, ChunkBase, SlotOffset, Counted, BinPages;
    RunPages(h0.chunks[base], s);
    assert RunOk(h0.chunks[base], s);
    SlotPlace(base, s, b, a);
  }

  /** Counting one more slot. */
  lemma CountStep(h0: Heap, h: Heap, b: Bin, j: nat)
    requires Core(h0) && |h0.free| == BINS && j < |h0.free[b]| && Counts(h0, h, b, j)
    ensures var a := h0.free[b][j]; IsSlot(h0, a, b) && ChunkBase(a) in h.chunks && ChunkBase(a) in h.ring
    ensures var a := h0.free[b][j]; var base := ChunkBase(a); var c := h.chunks[base];
      && WellSized(c) && Inv(c) && h0.chunks[base].owner == c.owner
      && var s := c.owner[PageOf(a)];
        && 1 <= s <= PageOf(a)
        && c.info[s] == SRun(b, |SlotsIn(h0.free[b][..j], base, s, b)|)
        && (PageOf(a) == s || c.info[PageOf(a)] == NRun(b, PageOf(a) - s))
        && |SlotsIn(h0.free[b][..j + 1], base, s, b)| == |SlotsIn(h0.free[b][..j], base, s, b)| + 1
        && Counts(h0, WithChunk(h, base, SetCounter(c, s, b, |SlotsIn(h0.free[b][..j + 1], base, s, b)|)), b, j + 1)
  {
    hide PageOf, ChunkBase, SlotOffset, Inv, IsSlot, CounterOnly, RegionsOk, LiveOk, CompleteBut;
    var a := h0.free[b][j];
    assert IsSlot(h0, a, b);
    SlotRun(h0, a, b);
    var base := ChunkBase(a);
    var c0, c := h0.chunks[base], h.chunks[base];
    assert ChunkCounts(h0, c0, c, base, b, j);
    CounterOnlySame(c0, c);
    var s := c.owner[PageOf(a)];
    SlotsInStep(h0.free[b], j, base, s, b);
    var d := SetCounter(c, s, b, |SlotsIn(h0.free[b][..j + 1], base, s, b)|);
    SetCounterInv(c, s, b, |SlotsIn(h0.free[b][..j + 1], base, s, b)|);
    forall r | r in h.ring && r in h0.chunks
      ensures ChunkCounts(h0, h0.chunks[r], WithChunk(h, base, d).chunks[r], r, b, j + 1)
    {
      CoreChunk(h0, r);
      assert ChunkCounts(h0, h0.chunks[r], h.chunks[r], r, b, j);
      CountStepChunk(h0, h.chunks[r], WithChunk(h, base, d).chunks[r], r, b, j, base, s);
    }
  }

  lemma CounterOnlySame(c0: Chunk, c: Chunk)
    requires CounterOnly(c0, c)
    ensures c.owner == c0.owner && WellSized(c)
    ensures forall p: nat | p < PAGES && !c0.info[p].SRun? :: c.info[p] == c0.info[p]
  {
  }

  lemma CountStepChunk(h0: Heap, c: Chunk, d: Chunk, r: nat, b: Bin, j: nat, base: nat, s: nat)
    requires RegionsOk(h0) && FreeOk(h0) && j < |h0.free[b]| && r in h0.chunks && Inv(h0.chunks[r])
    requires ChunkCounts(h0, h0.chunks[r], c, r, b, j) && Inv(d)
    requires base == ChunkBase(h0.free[b][j]) && base in h0.chunks && SmallRunOf(h0.chunks[base], s, s, b)
    requires h0.chunks[base].owner[PageOf(h0.free[b][j])] == s && SlotOffset(h0.free[b][j] - PageAddr(base, s), b)
    requires d == if r == base then SetCounter(c, s, b, |SlotsIn(h0.free[b][..j + 1], base, s, b)|) else c
    ensures ChunkCounts(h0, h0.chunks[r], d, r, b, j + 1)
  {
    hide PageOf, ChunkBase, SlotOffset, Inv, IsSlot;
    var a := h0.free[b][j];
    var c0 := h0.chunks[r];
    assert NoDup(h0.free[b]);
    forall t: nat, x: Bin | SmallRunOf(c0, t, t, x)
      ensures d.info[t] == SRun(x, Expected(h0, r, t, x, b, j + 1))
    {
      if x == b {
        SlotsInStep(h0.free[b], j, r, t, b);
        if SlotOffset(a - PageAddr(r, t), b) {
          OneRun(h0, a, r, t, b);
        }
      }
    }
  }

  /** Once the whole list is counted, a full counter means a collectable run. */
  lemma CountedFull(h0: Heap, h: Heap, b: Bin, base: nat, s: nat)
    requires Core(h0) && |h0.free| == BINS && Counts(h0, h, b, |h0.free[b]|)
    requires base in h0.ring && base in h0.chunks && SmallRunOf(h0.chunks[base], s, s, b)
    ensures h.chunks[base].info[s].SRun? && h.chunks[base].info[s].bin == b
    ensures h.chunks[base].info[s].freeCounter <= BinElements(b)
    ensures h.chunks[base].info[s].freeCounter == BinElements(b) <==> Collectable(h0, base, s)
  {
    hide Inv, CounterOnly, SlotOffset, BinElements, Core;
    assert h0.free[b][..|h0.free[b]|] == h0.free[b];
    assert ChunkCounts(h0, h0.chunks[base], h.chunks[base], base, b, |h0.free[b]|);
    SlotsInBound(h0.free[b], base, s, b);
  }

  /** After the last bin a full counter marks exactly the collectable runs. */
  lemma CountDone(h0: Heap, h: Heap, base: nat, s: nat)
    requires |h0.free| == BINS && Counts(h0, h, BINS, 0)
    requires base in h0.ring && base in h0.chunks
    ensures ChunkSweep.FullRun(h.chunks[base], s) <==> Collectable(h0, base, s)
  {
    hide Inv, SlotOffset, BinElements;
    var c0, c := h0.chunks[base], h.chunks[base];
    assert ChunkCounts(h0, c0, c, base, BINS, 0);
    if WellSized(c0) && s < PAGES && c0.info[s].SRun? && SmallRunOf(c0, s, s, c0.info[s].bin) {
      var x := c0.info[s].bin;
      SlotsInBound(h0.free[x], base, s, x);
    }
  }

  // ---- pass 2: filtering -------------------------------------------------------

  lemma KeepNoDup(h: Heap, list: seq<nat>)
    requires |h.free| == BINS && NoDup(list)
    ensures NoDup(Keep(h, list))
  {
    hide CollectableSlot;
    if list != [] {
      var n := |list| - 1;
      assert NoDup(list[..n]);
      KeepNoDup(h, list[..n]);
      KeepIs(h, list[..n]);
    }
  }

  lemma KeepStep(h: Heap, list: seq<nat>, j: nat)
    requires |h.free| == BINS && j < |list|
    ensures Keep(h, list[..j + 1]) == Keep(h, list[..j]) + if CollectableSlot(h, list[j]) then [] else [list[j]]
  {
    hide CollectableSlot;
    assert list[..j + 1][..j] == list[..j];
  }

  /** The slots the filter takes off the free lists. */
  ghost function Lost(h0: Heap): set<nat>
    requires |h0.free| == BINS
  {
    set b: Bin, a | 0 <= b < BINS && a in h0.free[b] && CollectableSlot(h0, a) :: a
  }

  /** All free lists filtered. */
  ghost predicate Filtered(h0: Heap, h: Heap)
    requires |h0.free| == BINS
  {
    |h.free| == BINS && forall b: Bin :: h.free[b] == Keep(h0, h0.free[b])
  }

  lemma SameRunAt(h0: Heap, h: Heap)
    requires forall base: nat, p: nat, s: int, b: Bin :: RunAt(h, base, p, s, b) <==> RunAt(h0, base, p, s, b)
    ensures forall a: nat, b: Bin :: IsSlot(h, a, b) <==> IsSlot(h0, a, b)
  {
    hide ChunkBase, PageOf, SlotOffset;
    forall a: nat, b: Bin
      ensures IsSlot(h, a, b) <==> IsSlot(h0, a, b)
    {
      SlotIsRunAt(h, a, b);
      SlotIsRunAt(h0, a, b);
    }
  }

  lemma SlotIsRunAt(h: Heap, a: nat, b: Bin)
    ensures IsSlot(h, a, b) <==> exists s: nat :: RunAt(h, ChunkBase(a), PageOf(a), s, b) && SlotOffset(a - PageAddr(ChunkBase(a), s), b)
  {
    hide ChunkBase, PageOf, SlotOffset;
    if IsSlot(h, a, b) {
      assert RunAt(h, ChunkBase(a), PageOf(a), h.chunks[ChunkBase(a)].owner[PageOf(a)], b);
    }
  }

  lemma CountsSameRuns(h0: Heap, h: Heap)
    requires Core(h0) && |h0.free| == BINS && Counts(h0, h, BINS, 0)
    ensures forall base: nat, p: nat, s: int, b: Bin :: RunAt(h, base, p, s, b) <==> RunAt(h0, base, p, s, b)
    ensures forall a: nat, n: nat :: IsLarge(h, a, n) <==> IsLarge(h0, a, n)
    ensures RingOk(h) && RegionsOk(h) && ChunksOk(h)
  {
    hide Inv, Empty, SmallRunOf, LargeRunOf, CounterOnly, FreeOk, LiveOk, CompleteBut, ChunkBase, PageOf;
    forall base | base in h0.chunks
      ensures SameSmallRuns(h0.chunks[base], h.chunks[base]) && SameLargeRuns(h0.chunks[base], h.chunks[base])
    {
      if base in h0.ring {
        assert ChunkCounts(h0, h0.chunks[base], h.chunks[base], base, BINS, 0);
        CounterOnlyRuns(h0.chunks[base], h.chunks[base]);
      }
    }
    forall base | base in h.ring && base in h.chunks ensures Inv(h.chunks[base]) {
      assert ChunkCounts(h0, h0.chunks[base], h.chunks[base], base, BINS, 0);
    }
  }

  lemma FilteredCore(h0: Heap, h: Heap)
    requires Core(h0) && |h0.free| == BINS && Counts(h0, h, BINS, 0) && Filtered(h0, h)
    ensures CoreBut(h, Lost(h0))
  {
    hide IsSlot, IsLarge, RingOk, RegionsOk, ChunksOk, Counts, HugeLive, CollectableSlot, Lost;
    CountsSameRuns(h0, h);
    SameRunAt(h0, h);
    CountsFrame(h0, h);
    HugeOnly(h0, h);
    forall b: Bin
      ensures NoDup(h.free[b])
      ensures forall x :: x in h.free[b] <==> x in h0.free[b] && !CollectableSlot(h0, x)
    {
      KeepIs(h0, h0.free[b]);
      KeepNoDup(h0, h0.free[b]);
    }
    forall x | x in h.live ensures BlockOk(h, x, h.live[x]) { assert BlockOk(h0, x, h0.live[x]); }
    forall x: nat, b: Bin | IsSlot(h, x, b)
      ensures x in h.free[b] || Has(h.live, x, Small(b)) || x in Lost(h0)
    {
      assert IsSlot(h0, x, b);
      if x in h0.free[b] && CollectableSlot(h0, x) {
        LostIs(h0, x, b);
      }
    }
  }

  lemma CountsFrame(h0: Heap, h: Heap)
    requires |h0.free| == BINS && Counts(h0, h, BINS, 0)
    ensures h.ring == h0.ring && h.cached == h0.cached && h.huge == h0.huge && h.live == h0.live
  {
  }

  lemma LostIs(h0: Heap, x: nat, b: Bin)
    requires |h0.free| == BINS && x in h0.free[b] && CollectableSlot(h0, x)
    ensures x in Lost(h0)
  {
  }

  // ---- pass 3: sweeping the chunks ---------------------------------------------

  /** Heap h after the first k chunks of the ring of h0 have been swept and maybe deleted. */
  ghost predicate Sweeping(h0: Heap, h: Heap, k: nat)
    requires |h0.free| == BINS && k <= |h0.ring|
  {
    && CoreBut(h, Lost(h0)) && Filtered(h0, h) && h.live == h0.live && h.huge == h0.huge
    && RunsLeft(h0, h, k)
    && (forall a: nat, n: nat :: IsLarge(h, a, n) <==> IsLarge(h0, a, n))
    && (forall base | base in h.ring && base in h.chunks && base in h0.ring[..k] :: CountersZero(h.chunks[base]))
    && (forall base | base in h.ring :: base in h0.ring)
    && (forall base | base in h0.ring[k..] :: Unswept(h0, h, base))
  }

  ghost predicate RunsLeft(h0: Heap, h: Heap, k: nat)
    requires |h0.free| == BINS && k <= |h0.ring|
  {
    forall base: nat, p: nat, s: nat, b: Bin ::
      RunAt(h, base, p, s, b) <==> RunAt(h0, base, p, s, b) && !(base in h0.ring[..k] && Collectable(h0, base, s))
  }

  ghost predicate Unswept(h0: Heap, h: Heap, base: nat)
    requires |h0.free| == BINS
  {
    && base in h.ring && base in h.chunks && base in h0.chunks && h.chunks[base].owner == h0.chunks[base].owner
    && forall s: nat :: ChunkSweep.FullRun(h.chunks[base], s) <==> Collectable(h0, base, s)
  }

  lemma SweepStart(h0: Heap, h: Heap)
    requires Core(h0) && |h0.free| == BINS && Counts(h0, h, BINS, 0) && Filtered(h0, h)
    ensures Sweeping(h0, h, 0)
  {
    hide IsLarge, RunAt, Inv, Empty, RegionsOk, FreeOk, LiveOk, CompleteBut, Filtered, Collectable, CounterOnly, Lost;
    FilteredCore(h0, h);
    CountsSameRuns(h0, h);
    assert h0.ring[0..] == h0.ring;
    forall base | base in h0.ring
      ensures Unswept(h0, h, base)
    {
      assert ChunkCounts(h0, h0.chunks[base], h.chunks[base], base, BINS, 0);
      CounterOnlySame(h0.chunks[base], h.chunks[base]);
      forall s: nat ensures ChunkSweep.FullRun(h.chunks[base], s) <==> Collectable(h0, base, s) { CountDone(h0, h, base, s); }
    }
  }

  /** The step of the sweep on chunk k of the ring. */
  lemma SweepChunk(h0: Heap, h: Heap, k: nat, d: Chunk)
    requires Core(h0) && |h0.free| == BINS && k < |h0.ring| && Sweeping(h0, h, k)
    requires h0.ring[k] in h.chunks && ChunkSweep.SweptTo(h.chunks[h0.ring[k]], d, PAGES)
    ensures Sweeping(h0, WithChunk(h, h0.ring[k], d), k + 1)
    ensures |ChunkSweep.FullPages(h.chunks[h0.ring[k]], PAGES)| == |CollectedPages(h0, h0.ring[k])|
  {
    hide IsSlot, IsLarge, Inv, Empty, Lost, Collectable, CollectableSlot, CountersZero, FreeOk, LiveOk, CompleteBut;
    hide RegionsOk;
    var base := h0.ring[k];
    assert base in h0.ring[k..];
    assert Unswept(h0, h, base);
    var c := h.chunks[base];
    var h' := WithChunk(h, base, d);
    CoreChunk(h0, base);
    SweptFull(h0, c, base);
    SweptChunkFacts(c, d);
    ChunkStepFrame(h, base, d);
    SameLarge(h, base, d);
    SweepRuns(h0, h, k, d);
    SweepCore(h0, h, h', k);
    assert h0.ring[..k + 1] == h0.ring[..k] + [base];
    forall r | r in h0.ring[k + 1..] ensures Unswept(h0, h', r) {
      assert r in h0.ring[k..] && r != base;
      assert Unswept(h0, h, r);
    }
  }

  lemma SweptFull(h0: Heap, c: Chunk, base: nat)
    requires |h0.free| == BINS && base in h0.chunks && WellSized(h0.chunks[base])
    requires WellSized(c) && c.owner == h0.chunks[base].owner && Inv(c)
    requires forall s: nat :: ChunkSweep.FullRun(c, s) <==> Collectable(h0, base, s)
    ensures ChunkSweep.FullPages(c, PAGES) == CollectedPages(h0, base)
  {
    hide Collectable, ChunkSweep.FullRun;
    forall p | 0 <= p < PAGES
      ensures p in ChunkSweep.FullPages(c, PAGES) <==> p in CollectedPages(h0, base)
    {
      if c.owner[p] != FREE { OwnPage(c, p); }
      FullRunStart(c, c.owner[p]);
    }
  }

  lemma FullRunStart(c: Chunk, s: int)
    ensures ChunkSweep.FullRun(c, s) ==> 1 <= s < PAGES
  {
  }

  lemma SweptChunkFacts(c: Chunk, d: Chunk)
    requires ChunkSweep.SweptTo(c, d, PAGES)
    ensures WellSized(c) && WellSized(d) && Inv(d) && CountersZero(d) && SameLargeRuns(c, d)
  {
    hide BinPages;
    forall s: nat | IsRun(d, s) && d.info[s].SRun? ensures d.info[s].freeCounter == 0 {
      assert RunOk(d, s);
      if s > 0 { assert SmallRunOf(d, s, s, d.info[s].bin); }
    }
  }

  lemma SweepRuns(h0: Heap, h: Heap, k: nat, d: Chunk)
    requires |h0.free| == BINS && k < |h0.ring| && RunsLeft(h0, h, k) && NoDup(h0.ring)
    requires Unswept(h0, h, h0.ring[k]) && ChunkSweep.SweptTo(h.chunks[h0.ring[k]], d, PAGES)
    ensures RunsLeft(h0, WithChunk(h, h0.ring[k], d), k + 1)
  {
    hide Collectable, Inv, ChunkSweep.FullRun, SmallRunOf;
    var base := h0.ring[k];
    var h' := WithChunk(h, base, d);
    assert h0.ring[..k + 1] == h0.ring[..k] + [base] && base !in h0.ring[..k];
    forall r: nat, p: nat, s: nat, b: Bin
      ensures RunAt(h', r, p, s, b) <==> RunAt(h0, r, p, s, b) && !(r in h0.ring[..k + 1] && Collectable(h0, r, s))
    {
      assert RunAt(h, r, p, s, b) <==> RunAt(h0, r, p, s, b) && !(r in h0.ring[..k] && Collectable(h0, r, s));
      FullRunStart(h.chunks[base], s);
    }
  }

  lemma SweepCore(h0: Heap, h: Heap, h': Heap, k: nat)
    requires Core(h0) && |h0.free| == BINS && k < |h0.ring| && CoreBut(h, Lost(h0)) && Filtered(h0, h) && h.live == h0.live
    requires RunsLeft(h0, h, k) && RunsLeft(h0, h', k + 1)
    requires RingOk(h') && RegionsOk(h') && ChunksOk(h')
    requires h'.free == h.free && h'.huge == h.huge && h'.live == h.live
    requires forall a: nat, n: nat :: IsLarge(h', a, n) <==> IsLarge(h, a, n)
    ensures CoreBut(h', Lost(h0))
  {
    hide IsSlot, IsLarge, Collectable, CollectableSlot, RegionsOk, ChunksOk, Lost, HugeLive;
    HugeOnly(h, h');
    forall a: nat, b: Bin
      ensures IsSlot(h', a, b) ==> IsSlot(h, a, b)
      ensures IsSlot(h, a, b) && !IsSlot(h', a, b) ==> CollectableSlot(h0, a)
    {
      LosesOnlyCollectable(h0, h, h', k, a, b);
    }
    forall b: Bin ensures forall x :: x in h'.free[b] ==> !CollectableSlot(h0, x) && x in h.free[b] {
      KeepIs(h0, h0.free[b]);
    }
    forall x | x in h'.live ensures BlockOk(h', x, h'.live[x]) {
      assert BlockOk(h, x, h.live[x]);
      LiveNotCollectable(h0, x);
    }
    forall x: nat, b: Bin | IsSlot(h', x, b)
      ensures x in h'.free[b] || Has(h'.live, x, Small(b)) || x in Lost(h0)
    {
      assert IsSlot(h, x, b);
    }
  }

  lemma LosesOnlyCollectable(h0: Heap, h: Heap, h': Heap, k: nat, a: nat, b: Bin)
    requires |h0.free| == BINS && k < |h0.ring| && RunsLeft(h0, h, k) && RunsLeft(h0, h', k + 1)
    ensures IsSlot(h', a, b) ==> IsSlot(h, a, b)
    ensures IsSlot(h, a, b) && !IsSlot(h', a, b) ==> CollectableSlot(h0, a)
  {
    hide Collectable, SmallRunOf, ChunkBase, PageOf, SlotOffset;
    SlotIsRunAt(h, a, b);
    SlotIsRunAt(h', a, b);
    assert h0.ring[..k + 1] == h0.ring[..k] + [h0.ring[k]];
    if IsSlot(h, a, b) && !IsSlot(h', a, b) {
      var s: nat :| RunAt(h, ChunkBase(a), PageOf(a), s, b) && SlotOffset(a - PageAddr(ChunkBase(a), s), b);
      assert RunAt(h0, ChunkBase(a), PageOf(a), s, b) && Collectable(h0, ChunkBase(a), s);
      RunOwner(h0, ChunkBase(a), PageOf(a), s, b);
    }
  }

  lemma RunOwner(h: Heap, base: nat, p: nat, s: int, b: Bin)
    requires RunAt(h, base, p, s, b)
    ensures base in h.chunks && WellSized(h.chunks[base]) && p < PAGES && h.chunks[base].owner[p] == s && s >= 1
    ensures RunAt(h, base, s, s, b) && h.chunks[base].info[s].SRun? && h.chunks[base].info[s].bin == b
  {
  }

  /** A live block is never in a collected run: its slot is not on the free list. */
  lemma LiveNotCollectable(h: Heap, x: nat)
    requires Core(h) && |h.free| == BINS && x in h.live
    ensures h.live[x].Small? ==> !CollectableSlot(h, x)
  {
    hide ChunkBase, PageOf, SlotOffset, RingOk, RegionsOk, ChunksOk, FreeOk, CompleteBut;
    assert BlockOk(h, x, h.live[x]);
  }

  lemma SweepDelete(h0: Heap, h: Heap, k: nat, i: nat, how: Deletion)
    requires Core(h0) && |h0.free| == BINS && k < |h0.ring| && Sweeping(h0, h, k + 1)
    requires 1 <= i < |h.ring| && h.ring[i] == h0.ring[k] && (how.Replace? ==> h.cached != [])
    requires h.ring[i] in h.chunks && Empty(h.chunks[h.ring[i]])
    ensures Sweeping(h0, DeleteChunk(h, i, how), k + 1)
  {
    hide IsSlot, IsLarge, RingOk, Empty, Lost, Collectable, FreeOk, LiveOk, CompleteBut, RegionsOk, RunAt, Unswept;
    hide ChunksOk;
    var h' := DeleteChunk(h, i, how);
    DeleteChunkCore(h, i, how, Lost(h0));
    DeleteChunkRuns(h, i, how);
    assert NoDup(h0.ring) by { CoreRing(h0); }
    forall r | r in h'.ring ensures r in h.ring && (r in h'.chunks ==> r in h.chunks && h'.chunks[r] == h.chunks[r]) {
      DeleteChunkKeeps(h, i, how, r);
    }
    forall r | r in h0.ring[k + 1..] ensures Unswept(h0, h', r) {
      assert Unswept(h0, h, r);
      assert r != h0.ring[k];
      DeleteKeepsUnswept(h0, h, i, how, r);
    }
  }

  lemma CoreRing(h: Heap)
    requires Core(h)
    ensures RingOk(h) && NoDup(h.ring)
  {
  }

  lemma DeleteChunkKeeps(h: Heap, i: nat, how: Deletion, r: nat)
    requires RingOk(h) && 1 <= i < |h.ring| && (how.Replace? ==> h.cached != [])
    ensures r in DeleteChunk(h, i, how).ring <==> r in h.ring && r != h.ring[i]
    ensures r in h.ring && r != h.ring[i] ==>
      r in DeleteChunk(h, i, how).chunks && r in h.chunks && DeleteChunk(h, i, how).chunks[r] == h.chunks[r]
  {
    WithoutIs(h.ring, i);
  }

  lemma DeleteKeepsUnswept(h0: Heap, h: Heap, i: nat, how: Deletion, r: nat)
    requires RingOk(h) && 1 <= i < |h.ring| && (how.Replace? ==> h.cached != []) && r != h.ring[i]
    requires |h0.free| == BINS && Unswept(h0, h, r)
    ensures Unswept(h0, DeleteChunk(h, i, how), r)
  {
    hide RingOk, ChunkSweep.FullRun, Collectable;
    DeleteChunkKeeps(h, i, how, r);
  }

  lemma DeleteChunkRuns(h: Heap, i: nat, how: Deletion)
    requires RingOk(h) && ChunksOk(h) && 1 <= i < |h.ring| && (how.Replace? ==> h.cached != [])
    requires h.ring[i] in h.chunks && Empty(h.chunks[h.ring[i]])
    ensures forall base: nat, p: nat, s: int, b: Bin :: RunAt(DeleteChunk(h, i, how), base, p, s, b) <==> RunAt(h, base, p, s, b)
  {
    hide Empty, Inv, SmallRunOf;
    EmptyRuns(h.chunks[h.ring[i]]);
    if how.Replace? { EmptyRuns(h.chunks[h.cached[0]]); }
  }

  /** When the whole ring is swept, exactly the collectable runs are gone and the invariant is back. */
  lemma SweepDone(h0: Heap, h: Heap)
    requires Core(h0) && |h0.free| == BINS && Sweeping(h0, h, |h0.ring|)
    ensures Core(h) && Quiet(h) && Collected(h0, h)
  {
    hide IsSlot, IsLarge, Inv, Empty, Collectable, CountersZero, FreeOk, LiveOk, RegionsOk, HugeLive, Lost;
    assert h0.ring[..|h0.ring|] == h0.ring;
    forall base: nat, p: nat, s: nat, b: Bin
      ensures RunAt(h, base, p, s, b) <==> RunAt(h0, base, p, s, b) && !Collectable(h0, base, s)
    {
      CollectableInRing(h0, base, s);
    }
    forall x: nat, b: Bin | IsSlot(h, x, b)
      ensures x !in Lost(h0)
    {
      RemainingNotLost(h0, h, x, b);
    }
  }

  lemma CollectableInRing(h: Heap, base: nat, s: nat)
    requires RingOk(h) && ChunksOk(h) && |h.free| == BINS
    ensures Collectable(h, base, s) ==> base in h.ring
  {
    hide Inv, AllSlotsIn;
  }

  lemma RemainingNotLost(h0: Heap, h: Heap, x: nat, b: Bin)
    requires |h0.free| == BINS && IsSlot(h, x, b)
    requires forall base: nat, p: nat, s: nat, y: Bin ::
      RunAt(h, base, p, s, y) <==> RunAt(h0, base, p, s, y) && !Collectable(h0, base, s)
    ensures x !in Lost(h0)
  {
    hide Collectable, SmallRunOf, ChunkBase, PageOf, SlotOffset;
    SlotIsRunAt(h, x, b);
    var s: nat :| RunAt(h, ChunkBase(x), PageOf(x), s, b) && SlotOffset(x - PageAddr(ChunkBase(x), s), b);
    RunOwner(h0, ChunkBase(x), PageOf(x), s, b);
  }
}
