/** The free lists of Zend/zend_alloc.c as memory holds them: every free slot stores the address of the
    next one and, at its end, a shadow of that address. */
module FreeLists {
  import opened Bins
  import opened HeapState
  import opened Words
  import HeapOps
  import opened HeapGc
  import opened HeapSteps
  import opened MemoryBytes

  // ---- links -------------------------------------------------------------------

  /** The slot stores the address of the next one and, unless it is the last, its shadow. */
  ghost predicate LinkAt(m: Memory, slot: nat, b: Bin, next: nat, key: nat) {
    b >= 1 && Stored(m, slot, LinkBytes(next)) && (next != 0 ==> Stored(m, slot + BinSize(b) - 8, ShadowBytes(next, key)))
  }

  lemma LinkReads(m: Memory, slot: nat, b: Bin, next: nat, key: nat)
    requires LinkAt(m, slot, b, next, key) && next < ADDRESS_END
    ensures BinSize(b) >= 16 && LoadWord(m, slot) == next
    ensures next != 0 ==> LoadShadow(m, slot + BinSize(b) - 8, key) == next
  {
    hide LinkBytes, ShadowBytes, LoadWord, LoadShadow, Stored, BinSize;
    BinFacts(b);
    assert Power256(8) == ADDRESS_END;
    LoadStored(m, slot, next);
    if next != 0 {
      LoadShadowStored(m, slot + BinSize(b) - 8, next, key);
    }
  }

  lemma WrittenLink(m: Memory, slot: nat, b: Bin, next: nat, key: nat)
    requires b >= 1
    ensures BinSize(b) >= 16
    ensures var m' := Write(Write(m, slot, LinkBytes(next)), slot + BinSize(b) - 8, ShadowBytes(next, key));
      LinkAt(m', slot, b, next, key) && SameOutside(m, m', slot, BinSize(b))
  {
    hide LinkBytes, ShadowBytes, BinSize;
    BinFacts(b);
  }

  /** The last link of a new run has no shadow. */
  lemma WrittenEnd(m: Memory, slot: nat, b: Bin, key: nat)
    requires b >= 1
    ensures LinkAt(Write(m, slot, LinkBytes(0)), slot, b, 0, key)
    ensures SameOutside(m, Write(m, slot, LinkBytes(0)), slot, BinSize(b))
  {
    hide LinkBytes, BinSize;
    BinFacts(b);
  }

  lemma LinkStays(m: Memory, m': Memory, slot: nat, b: Bin, next: nat, key: nat)
    requires LinkAt(m, slot, b, next, key) && SameBytes(m, slot, m', slot, BinSize(b))
    ensures LinkAt(m', slot, b, next, key)
  {
    hide LinkBytes, ShadowBytes, BinSize, Stored, SameBytes;
    BinFacts(b);
    StoredStays(m, m', slot, BinSize(b), 0, LinkBytes(next));
    if next != 0 {
      StoredStays(m, m', slot, BinSize(b), BinSize(b) - 8, ShadowBytes(next, key));
    }
  }

  // ---- lists -------------------------------------------------------------------

  /** What follows position i of the list: a slot, or NULL. */
  function Next(list: seq<nat>, i: int): nat
    requires -1 <= i
  {
    if i + 1 < |list| then list[i + 1] else 0
  }

  /** Memory holds the list, and head is its first slot. */
  ghost predicate Thread(list: seq<nat>, head: nat, b: Bin, m: Memory, key: nat) {
    && head == Next(list, -1)
    && forall i | 0 <= i < |list| :: 0 < list[i] < ADDRESS_END && LinkAt(m, list[i], b, Next(list, i), key)
  }

  /** Memory holds the free list of every bin; no slot of bin 0 is ever free. */
  ghost predicate Threaded(free: seq<seq<nat>>, heads: seq<nat>, m: Memory, key: nat) {
    && |free| == BINS && |heads| == BINS
    && forall b: Bin :: Thread(free[b], heads[b], b, m, key)
  }

  /** The contents of all free slots but one are as before. */
  ghost predicate SlotsSame(free: seq<seq<nat>>, except: nat, m: Memory, m': Memory)
    requires |free| == BINS
  {
    forall b: Bin, x | x in free[b] && x != except :: SameBytes(m, x, m', x, BinSize(b))
  }

  lemma ThreadStays(list: seq<nat>, head: nat, b: Bin, m: Memory, m': Memory, key: nat)
    requires Thread(list, head, b, m, key) && forall x | x in list :: SameBytes(m, x, m', x, BinSize(b))
    ensures Thread(list, head, b, m', key)
  {
    hide LinkAt, SameBytes, BinSize;
    forall i | 0 <= i < |list| ensures LinkAt(m', list[i], b, Next(list, i), key) {
      LinkStays(m, m', list[i], b, Next(list, i), key);
    }
  }

  lemma ThreadedStays(free: seq<seq<nat>>, heads: seq<nat>, m: Memory, m': Memory, key: nat)
    requires Threaded(free, heads, m, key) && SlotsSame(free, 0, m, m')
    ensures Threaded(free, heads, m', key)
  {
    hide Thread, SameBytes, BinSize;
    forall b: Bin ensures Thread(free[b], heads[b], b, m', key) {
      ThreadNotNull(free[b], heads[b], b, m, key);
      ThreadStays(free[b], heads[b], b, m, m', key);
    }
  }

  lemma ThreadNotNull(list: seq<nat>, head: nat, b: Bin, m: Memory, key: nat)
    requires Thread(list, head, b, m, key)
    ensures forall x | x in list :: 0 < x < ADDRESS_END
    ensures list != [] ==> b >= 1 && LinkAt(m, list[0], b, Next(list, 0), key) && Next(list, 0) < ADDRESS_END
    ensures head == Next(list, -1)
  {
  }

  /** Position j of the list. */
  lemma ThreadAt(list: seq<nat>, head: nat, b: Bin, m: Memory, key: nat, j: nat)
    requires Thread(list, head, b, m, key) && j <= |list|
    ensures Next(list, j - 1) == 0 <==> j == |list|
    ensures j < |list| ==> b >= 1 && LinkAt(m, list[j], b, Next(list, j), key) && Next(list, j) < ADDRESS_END
    ensures head == Next(list, -1)
  {
  }

  lemma Pushed(list: seq<nat>, head: nat, b: Bin, m: Memory, key: nat, a: nat)
    requires Thread(list, head, b, m, key) && LinkAt(m, a, b, head, key) && 0 < a < ADDRESS_END
    ensures Thread([a] + list, a, b, m, key)
  {
    hide LinkAt;
    var l := [a] + list;
    forall i | 0 <= i < |l| ensures LinkAt(m, l[i], b, Next(l, i), key) {
      assert i > 0 ==> l[i] == list[i - 1] && Next(l, i) == Next(list, i - 1);
    }
  }

  lemma Popped(list: seq<nat>, head: nat, b: Bin, m: Memory, key: nat)
    requires Thread(list, head, b, m, key) && list != []
    ensures Thread(list[1..], Next(list, 0), b, m, key)
  {
    hide LinkAt;
    var l := list[1..];
    forall i | 0 <= i < |l| ensures LinkAt(m, l[i], b, Next(l, i), key) {
      assert l[i] == list[i + 1] && Next(l, i) == Next(list, i + 1);
    }
  }

  /** The slot between kept and rest is unlinked when the last slot of kept, or the head, points to rest. */
  lemma Unlinked(kept: seq<nat>, p: nat, rest: seq<nat>, head: nat, b: Bin, m: Memory, m': Memory, key: nat)
    requires Thread(kept + [p] + rest, head, b, m, key) && NoDup(kept + [p] + rest)
    requires var q := if kept == [] then 0 else kept[|kept| - 1];
      && (forall x | x in kept + rest && x != q :: SameBytes(m, x, m', x, BinSize(b)))
      && (kept != [] ==> LinkAt(m', q, b, Next(rest, -1), key))
    ensures Thread(kept + rest, if kept == [] then Next(rest, -1) else head, b, m', key)
  {
    hide LinkAt, SameBytes, BinSize;
    var list, l := kept + [p] + rest, kept + rest;
    var q := if kept == [] then 0 else kept[|kept| - 1];
    forall i | 0 <= i < |l| ensures 0 < l[i] < ADDRESS_END && LinkAt(m', l[i], b, Next(l, i), key) {
      var j := if i < |kept| then i else i + 1;
      assert l[i] == list[j];
      if i != |kept| - 1 {
        assert Next(l, i) == Next(list, j);
        assert kept != [] ==> list[|kept| - 1] == q;
        LinkStays(m, m', l[i], b, Next(l, i), key);
      }
    }
  }

  // ---- what writing into a slot or block leaves alone --------------------------

  /** The slot at position i of its free list is handed out. */
  ghost function TakeAny(h: Heap, b: Bin, i: nat): Heap
    requires |h.free| == BINS && i < |h.free[b]|
  {
    h.(free := h.free[b := HeapOps.Without(h.free[b], i)], live := h.live[h.free[b][i] := Small(b)])
  }

  lemma TakeAnyCore(h: Heap, b: Bin, i: nat)
    requires Core(h) && |h.free| == BINS && i < |h.free[b]|
    ensures h.free[b][i] !in h.live
    ensures Core(TakeAny(h, b, i))
  {
    hide IsSlot, IsLarge, RingOk, RegionsOk, ChunksOk, Quiet, HeapOps.Without;
    var a := h.free[b][i];
    var h' := TakeAny(h, b, i);
    HeapOps.WithoutIs(h.free[b], i);
    HeapOps.FreeSlotNotLive(h, a, b);
    HeapOps.OneKind(h, a, b);
    HeapOps.ChunksOnly(h, h');
    assert IsSlot(h, a, b);
    forall x | x in h'.live
      ensures BlockOk(h', x, h'.live[x])
    {
      assert x in h.live ==> BlockOk(h, x, h.live[x]);
    }
    forall x: nat, y: Bin | IsSlot(h', x, y)
      ensures x in h'.free[y] || Has(h'.live, x, Small(y))
    {
      assert x in h.free[y] || Has(h.live, x, Small(y));
    }
  }

  lemma IndexIn(s: seq<nat>, x: nat) returns (i: nat)
    requires x in s
    ensures i < |s| && s[i] == x
  {
    i :| 0 <= i < |s| && s[i] == x;
  }

  /** A free slot overlaps no live block ... */
  lemma FreeSlotApart(h: Heap, a: nat, b: Bin, x: nat)
    requires Core(h) && |h.free| == BINS && a in h.free[b] && x in h.live
    ensures Apart(a, BinSize(b), x, Usable(h.live[x]))
  {
    hide Core, BinSize, HeapOps.Without;
    var i := IndexIn(h.free[b], a);
    TakeAnyCore(h, b, i);
    HeapOps.LiveBlocksDisjoint(TakeAny(h, b, i), a, x);
  }

  lemma StillFree(h: Heap, b: Bin, i: nat, x: nat, y: Bin)
    requires Core(h) && |h.free| == BINS && i < |h.free[b]| && x in h.free[y] && x != h.free[b][i]
    ensures x in TakeAny(h, b, i).free[y]
  {
    hide IsSlot, RingOk, RegionsOk, ChunksOk, LiveOk, CompleteBut, HeapOps.Without;
    HeapOps.WithoutIs(h.free[b], i);
  }

  /** ... and no other free slot. */
  lemma FreeSlotsApart(h: Heap, a: nat, b: Bin, x: nat, y: Bin)
    requires Core(h) && |h.free| == BINS && a in h.free[b] && x in h.free[y] && x != a
    ensures Apart(a, BinSize(b), x, BinSize(y))
  {
    hide Core, BinSize, HeapOps.Without;
    var i := IndexIn(h.free[b], a);
    TakeAnyCore(h, b, i);
    StillFree(h, b, i, x, y);
    FreeSlotApart(TakeAny(h, b, i), x, y, a);
  }

  /** Writing into a free slot changes neither live blocks nor other free slots. */
  lemma SlotWritten(h: Heap, a: nat, b: Bin, m: Memory, m': Memory)
    requires Core(h) && |h.free| == BINS && a in h.free[b] && SameOutside(m, m', a, BinSize(b))
    ensures BlocksSame(h.live, m, m') && SlotsSame(h.free, a, m, m')
  {
    hide Core, BinSize, Usable;
    forall x, i: nat | x in h.live && i < Usable(h.live[x]) ensures ByteAt(m', x, i) == ByteAt(m, x, i) {
      FreeSlotApart(h, a, b, x);
    }
    forall y: Bin, x | x in h.free[y] && x != a ensures SameBytes(m, x, m', x, BinSize(y)) {
      FreeSlotsApart(h, a, b, x, y);
    }
  }

  /** Writing into a live block changes no free slot. */
  lemma BlockWritten(h: Heap, a: nat, n: nat, m: Memory, m': Memory)
    requires Core(h) && |h.free| == BINS && a in h.live && n <= Usable(h.live[a]) && SameOutside(m, m', a, n)
    ensures SlotsSame(h.free, 0, m, m')
  {
    hide Core, BinSize, Usable;
    forall y: Bin, x | x in h.free[y] && x != 0 ensures SameBytes(m, x, m', x, BinSize(y)) {
      FreeSlotApart(h, x, y, a);
    }
  }

  /** ... so the lists are still there. */
  lemma StillThreaded(h: Heap, heads: seq<nat>, a: nat, n: nat, m: Memory, m': Memory, key: nat)
    requires Core(h) && a in h.live && n <= Usable(h.live[a]) && SameOutside(m, m', a, n) && Threaded(h.free, heads, m, key)
    ensures Threaded(h.free, heads, m', key)
  {
    hide Core, Usable, Threaded, SlotsSame, SameOutside;
    CoreFree(h);
    BlockWritten(h, a, n, m, m');
    ThreadedStays(h.free, heads, m, m', key);
  }

  // ---- filtering a list --------------------------------------------------------

  ghost predicate SubLists(free: seq<seq<nat>>, free0: seq<seq<nat>>) {
    && |free| == BINS && |free0| == BINS
    && forall b: Bin, x | x in free[b] :: x in free0[b]
  }

  lemma UnlinkedIn(h0: Heap, free: seq<seq<nat>>, heads: seq<nat>, heads': seq<nat>, b: Bin, q: nat, p: nat, next: nat,
                   kept: seq<nat>, rest: seq<nat>, m: Memory, m': Memory, key: nat)
    requires Core(h0) && |h0.free| == BINS && Threaded(free, heads, m, key) && SubLists(free, h0.free)
    requires free[b] == kept + [p] + rest && NoDup(free[b])
    requires q == (if kept == [] then 0 else kept[|kept| - 1]) && next == Next(rest, -1)
    requires q == 0 ==> heads' == heads[b := next] && m' == m
    requires q != 0 ==> heads' == heads && SameOutside(m, m', q, BinSize(b)) && LinkAt(m', q, b, next, key)
    ensures Threaded(free[b := kept + rest], heads', m', key) && BlocksSame(h0.live, m, m')
  {
    hide Core, LinkAt, Thread, BinSize, BlocksSame, SameBytes, SameOutside, Next;
    assert Thread(free[b], heads[b], b, m, key);
    ThreadNotNull(free[b], heads[b], b, m, key);
    if kept == [] {
      BlocksSameRefl(h0.live, m);
      assert forall x: nat, n: nat :: SameBytes(m, x, m', x, n) by { SameBytesRefl(m); }
    } else {
      assert q in free[b] && q in h0.free[b];
      SlotWritten(h0, q, b, m, m');
    }
    Unlinked(kept, p, rest, heads[b], b, m, m', key);
    forall y: Bin ensures Thread(free[b := kept + rest][y], heads'[y], y, m', key) {
      if y != b {
        assert Thread(free[y], heads[y], y, m, key);
        if kept != [] {
          OneBin(h0, q, b, y);
        }
        ThreadStays(free[y], heads[y], y, m, m', key);
      }
    }
  }

  /** A free slot is on the list of one bin only. */
  lemma OneBin(h: Heap, a: nat, b: Bin, y: Bin)
    requires Core(h) && |h.free| == BINS && a in h.free[b] && y != b
    ensures a !in h.free[y]
  {
    hide Core;
    HeapOps.FreeSlotNotLive(h, a, b);
  }

  lemma FreeNoDup(h: Heap, b: Bin)
    requires Core(h)
    ensures |h.free| == BINS && NoDup(h.free[b])
  {
    hide NoDup;
  }

  lemma KeptAt(kept: seq<nat>, list: seq<nat>, j: nat)
    requires j < |list|
    ensures kept + list[j..] == kept + [list[j]] + list[j + 1..] && (kept + list[j..])[|kept|] == list[j]
    ensures Next(kept + list[j..], |kept|) == Next(list, j) == Next(list[j + 1..], -1)
    ensures Next(kept + list[j..], |kept| - 1) == list[j] == Next(list, j - 1)
    ensures kept + [list[j]] + list[j + 1..] == (kept + [list[j]]) + list[j + 1..]
  {
  }

  /** What is kept and the rest of the list have no slot twice. */
  lemma KeptNoDup(h: Heap, list: seq<nat>, j: nat)
    requires |h.free| == BINS && NoDup(list) && j <= |list|
    ensures NoDup(Keep(h, list[..j]) + list[j..])
  {
    hide CollectableSlot;
    KeepNoDup(h, list[..j]);
    KeepIs(h, list[..j]);
    var k := Keep(h, list[..j]);
    var l := k + list[j..];
    forall x, y | 0 <= x < y < |l| ensures l[x] != l[y] {
      if x < |k| <= y {
        assert l[x] in list[..j] && l[y] == list[j + (y - |k|)];
      }
    }
  }

  lemma KeepSub(h: Heap, free: seq<seq<nat>>, i: nat)
    requires |h.free| == BINS && |free| == BINS && forall b: Bin :: free[b] == if b < i then Keep(h, h.free[b]) else h.free[b]
    ensures SubLists(free, h.free)
  {
    hide CollectableSlot, Keep;
    forall b: Bin, x | x in free[b] ensures x in h.free[b] {
      KeepIs(h, h.free[b]);
    }
  }

  function NoLists(): (free: seq<seq<nat>>)
    ensures |free| == BINS && forall b: Bin :: free[b] == []
  {
    seq(BINS, _ => [])
  }

  function NoHeads(): (heads: seq<nat>)
    ensures |heads| == BINS && forall b: Bin :: heads[b] == 0
  {
    seq(BINS, _ => 0)
  }

  lemma EmptyThreads(free: seq<seq<nat>>, heads: seq<nat>, m: Memory, key: nat)
    requires |free| == BINS && |heads| == BINS && forall b: Bin :: free[b] == [] && heads[b] == 0
    ensures Threaded(free, heads, m, key)
  {
  }

  // ---- changing one list -------------------------------------------------------

  lemma ThreadedSet(free: seq<seq<nat>>, heads: seq<nat>, b: Bin, m: Memory, key: nat, list: seq<nat>, head: nat)
    requires Threaded(free, heads, m, key) && Thread(list, head, b, m, key)
    ensures Threaded(free[b := list], heads[b := head], m, key)
  {
    hide Thread;
  }

  lemma ThreadedPush(free: seq<seq<nat>>, heads: seq<nat>, b: Bin, m: Memory, key: nat, a: nat)
    requires Threaded(free, heads, m, key) && LinkAt(m, a, b, heads[b], key) && 0 < a < ADDRESS_END
    ensures Threaded(free[b := [a] + free[b]], heads[b := a], m, key)
  {
    hide Thread, LinkAt;
    assert Thread(free[b], heads[b], b, m, key);
    Pushed(free[b], heads[b], b, m, key, a);
    ThreadedSet(free, heads, b, m, key, [a] + free[b], a);
  }

  /** A block inside a chunk lies in the address space. */
  lemma BlockAddress(h: Heap, a: nat)
    requires Core(h) && a in h.live && !h.live[a].Huge?
    ensures 0 < a && a + Usable(h.live[a]) <= ADDRESS_END
  {
    hide Core, Usable;
    var base, s, n := HeapOps.BlockRun(h, a);
    HeapOps.CoreHuge(h);
    assert ChunkPlace(base);
  }

  // ---- a new list --------------------------------------------------------------

  /** The slots 1 to k - 1 of the run at ptr are linked to their successors. */
  ghost predicate LinkedUpTo(m: Memory, ptr: nat, b: Bin, k: nat, key: nat) {
    forall i: nat | 1 <= i < k :: LinkAt(m, HeapOps.SlotAddr(ptr, b, i), b, HeapOps.SlotAddr(ptr, b, i + 1), key)
  }

  lemma EarlierSlots(m: Memory, m': Memory, ptr: nat, b: Bin, k: nat, key: nat)
    requires LinkedUpTo(m, ptr, b, k, key) && k < BinElements(b)
    requires SameOutside(m, m', HeapOps.SlotAddr(ptr, b, k), BinSize(b))
    ensures LinkedUpTo(m', ptr, b, k, key)
  {
    hide LinkAt, BinSize, BinElements, HeapOps.SlotAddr;
    forall i: nat | 1 <= i < k
      ensures LinkAt(m', HeapOps.SlotAddr(ptr, b, i), b, HeapOps.SlotAddr(ptr, b, i + 1), key)
    {
      SlotsInOrder(ptr, b, i, k);
      LinkStays(m, m', HeapOps.SlotAddr(ptr, b, i), b, HeapOps.SlotAddr(ptr, b, i + 1), key);
    }
  }

  lemma SlotsInOrder(ptr: nat, b: Bin, i: nat, k: nat)
    requires i < k
    ensures HeapOps.SlotAddr(ptr, b, i) + BinSize(b) <= HeapOps.SlotAddr(ptr, b, k)
  {
    hide BinSize;
    BinFacts(b);
    MulMono(i + 1, k, BinSize(b));
  }

  lemma LinkedMore(m: Memory, m': Memory, ptr: nat, b: Bin, k: nat, key: nat)
    requires LinkedUpTo(m, ptr, b, k, key) && 1 <= k < BinElements(b)
    requires SameOutside(m, m', HeapOps.SlotAddr(ptr, b, k), BinSize(b))
    requires LinkAt(m', HeapOps.SlotAddr(ptr, b, k), b, HeapOps.SlotAddr(ptr, b, k + 1), key)
    ensures LinkedUpTo(m', ptr, b, k + 1, key)
  {
    hide LinkAt, BinSize, BinElements, HeapOps.SlotAddr, SameOutside;
    EarlierSlots(m, m', ptr, b, k, key);
  }

  lemma LinkedAll(m: Memory, m': Memory, ptr: nat, b: Bin, key: nat)
    requires var k := BinElements(b) - 1;
      && k >= 1 && LinkedUpTo(m, ptr, b, k, key) && SameOutside(m, m', HeapOps.SlotAddr(ptr, b, k), BinSize(b))
      && LinkAt(m', HeapOps.SlotAddr(ptr, b, k), b, 0, key)
    requires 0 < ptr && ptr + PAGE_SIZE * BinPages(b) <= ADDRESS_END
    ensures Thread(HeapOps.NewSlots(ptr, b), HeapOps.SlotAddr(ptr, b, 1), b, m', key)
  {
    hide LinkAt, BinSize, BinElements, BinPages, HeapOps.SlotAddr, SameOutside;
    BinFacts(b);
    EarlierSlots(m, m', ptr, b, BinElements(b) - 1, key);
    var list := HeapOps.NewSlots(ptr, b);
    forall i | 0 <= i < |list| ensures 0 < list[i] < ADDRESS_END && LinkAt(m', list[i], b, Next(list, i), key) {
      SlotOfRun(ptr, b, i + 1);
    }
  }
}
