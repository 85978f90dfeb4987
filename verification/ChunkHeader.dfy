/** The chunk header as the allocator stores it: a bitmap of eight words, the page map and
    two counters, updated in place, and tied to the chunk value of module ChunkState. */
module ChunkHeader {
  import opened Bins
  import opened ChunkState
  import Bitset
  import PageSearch

  class Header {
    var freePages: int
    var freeTail: nat
    var num: nat
    const freeMap: array<bv64>
    const pageMap: array<PageInfo>
    /** The run each page belongs to. */
    ghost var owner: seq<int>

    ghost function State(): (c: Chunk)
      reads this, pageMap
    {
      Chunk(owner, pageMap[..], freePages, freeTail, num)
    }

    /** A page is marked in the bitmap exactly when it belongs to a run. */
    ghost predicate Valid()
      reads this, freeMap, pageMap
    {
      && freeMap.Length == 8 && pageMap.Length == PAGES && |owner| == PAGES
      && forall p: nat | p < PAGES :: Bitset.IsSet(freeMap[..], p) <==> owner[p] != FREE
    }

    lemma Sized()
      requires Valid()
      ensures WellSized(State())
    {
    }

    twostate lemma SameHeader()
      requires unchanged(this, freeMap, pageMap)
      ensures Valid() == old(Valid()) && State() == old(State())
    {
    }

    /** zend_mm_chunk_alloc hands out zeroed memory. */
    constructor ()
      ensures Valid() && Empty(State()) && fresh(freeMap) && fresh(pageMap)
    {
      freePages, freeTail, num := 0, 0, 0;
      var words := new bv64[8](_ => 0);
      var infos := new PageInfo[PAGES](_ => FRun);
      freeMap, pageMap := words, infos;
      owner := seq(PAGES, _ => FREE);
      new;
      ZeroWords(freeMap[..]);
    }

    /** zend_mm_chunk_init; the previous chunk of the ring gives the number. */
    method Init(prevNum: nat)
      requires Valid() && Empty(State())
      modifies this, freeMap, pageMap
      ensures Valid() && State() == ChunkState.Init(old(pageMap[..]), prevNum + 1)
    {
      freePages := PAGES - 1;
      freeTail := 1;
      num := prevNum + 1;
      ghost var ws := freeMap[..];
      freeMap[0] := 1;
      pageMap[0] := LRun(1);
      owner := Fill(seq(PAGES, _ => FREE), 0, 1, 0);
      forall p: nat | p < PAGES
        ensures Bitset.IsSet(freeMap[..], p) <==> p == 0
      {
        FirstBit(ws, freeMap[..], p);
      }
    }

    /** memset(chunk, 0, sizeof(zend_mm_chunk)) */
    method Clear()
      requires Valid()
      modifies this, freeMap, pageMap
      ensures Valid() && State() == Zeroed()
    {
      freePages, freeTail, num := 0, 0, 0;
      forall w | 0 <= w < 8 { freeMap[w] := 0; }
      forall p | 0 <= p < PAGES { pageMap[p] := FRun; }
      owner := seq(PAGES, _ => FREE);
      ZeroWords(freeMap[..]);
    }

    /** The main chunk after zend_mm_init and after a request: all pages but the header free. */
    method InitMain()
      requires Valid() && State() == Zeroed()
      modifies this, freeMap, pageMap
      ensures Valid() && State() == ChunkState.Init(Zeroed().info, 0)
    {
      Init(0);
      num := 0;
    }

    /** The search of zend_mm_alloc_pages in this chunk; it may move the tail mark. */
    method Find(count: nat) returns (page: int)
      requires Valid() && Inv(State()) && 1 <= count < PAGES
      modifies this
      ensures Valid() && Inv(State()) && State() == old(State()).(freeTail := freeTail)
      ensures page == -1 || 1 <= page < freeTail
      ensures page > 0 ==> page + count <= PAGES && FreeRange(State(), page, count)
      ensures page > 0 ==> exists len: nat :: BestFreeRun(State(), page, len, count)
      ensures page == -1 ==> forall p: nat, len: nat | MaximalFreeRun(State(), p, len) :: len < count
    {
      hide Partition, Counted, Bitset.IsSet, PageSearch.FreeRun;
      if freePages < count {
        NoRoom(State(), count);
        return -1;
      }
      ghost var ws := freeMap[..];
      ghost var c := State();
      TailMark(c, ws);
      ghost var run;
      page, freeTail, run := PageSearch.FindPages(freeMap, freeTail, count);
      SameRuns(c, ws);
      RunsBelow(c, ws, page, freeTail);
      SetTailInv(c, freeTail);
      SameRuns(State(), ws);
      if page > 0 {
        assert BestFreeRun(State(), page, run, count);
      }
    }

    /** Marks the pages found as one large run. */
    method Mark(page: nat, count: nat)
      requires Valid() && Inv(State()) && 1 <= page && 1 <= count && FreeRange(State(), page, count) && page <= freeTail
      modifies this, freeMap, pageMap
      ensures Valid() && State() == AllocRun(old(State()), page, count, old(freeTail))
      ensures freeTail == (if page == old(freeTail) then page + count else old(freeTail)) && freePages == old(freePages) - count
      ensures Inv(State())
    {
      ghost var c := State();
      AllocRunInv(c, page, count, c.freeTail);
      freePages := freePages - count;
      Bitset.SetRange(freeMap, page, count);
      pageMap[page] := LRun(count);
      if page == freeTail {
        freeTail := page + count;
      }
      owner := Fill(owner, page, count, page);
    }

    /** zend_mm_free_pages_ex without the chunk deletion. */
    method FreePages(page: nat, count: nat)
      requires Valid() && 1 <= page && 1 <= count && page + count <= PAGES
      modifies this, freeMap, pageMap
      ensures Valid() && State() == FreeRun(old(State()), page, count)
      ensures freeTail == (if old(freeTail) == page + count then page else old(freeTail)) && freePages == old(freePages) + count
    {
      freePages := freePages + count;
      Bitset.ResetRange(freeMap, page, count);
      pageMap[page] := FRun;
      if freeTail == page + count {
        freeTail := page;
      }
      owner := Fill(owner, page, count, FREE);
    }

    /** The in-place truncation of zend_mm_realloc_heap. */
    method Shrink(page: nat, oldCount: nat, newCount: nat)
      requires Valid() && 1 <= page && newCount < oldCount && page + oldCount <= PAGES
      modifies this, freeMap, pageMap
      ensures Valid() && State() == ShrinkRun(old(State()), page, oldCount, newCount)
      ensures freeTail == old(freeTail) && freePages == old(freePages) + (oldCount - newCount)
    {
      pageMap[page] := LRun(newCount);
      freePages := freePages + (oldCount - newCount);
      Bitset.ResetRange(freeMap, page + newCount, oldCount - newCount);
      owner := Fill(owner, page + newCount, oldCount - newCount, FREE);
    }

    /** The in-place growth of zend_mm_realloc_heap, if the pages behind the run are free. */
    method TryGrow(page: nat, oldCount: nat, newCount: nat) returns (grown: bool)
      requires Valid() && 1 <= page && oldCount < newCount && page + oldCount <= PAGES
      modifies this, freeMap, pageMap
      ensures Valid()
      ensures grown <==> page + newCount <= PAGES && FreeRange(old(State()), page + oldCount, newCount - oldCount)
      ensures grown ==> State() == GrowRun(old(State()), page, oldCount, newCount)
      ensures freeTail == old(freeTail) && freePages == old(freePages) - if grown then newCount - oldCount else 0
      ensures !grown ==> State() == old(State())
    {
      if page + newCount > PAGES {
        return false;
      }
      grown := Bitset.IsFreeRange(freeMap, page + oldCount, newCount - oldCount);
      if grown {
        freePages := freePages - (newCount - oldCount);
        Bitset.SetRange(freeMap, page + oldCount, newCount - oldCount);
        pageMap[page] := LRun(newCount);
        owner := Fill(owner, page + oldCount, newCount - oldCount, page);
      }
    }

    /** The page map of a new small run (zend_mm_alloc_small_slow). */
    method MarkSmall(page: nat, bin: Bin)
      requires Valid() && page + BinPages(bin) <= PAGES
      modifies pageMap
      ensures Valid() && State() == ChunkState.MarkSmall(old(State()), page, bin)
    {
      hide BinPages;
      BinFacts(bin);
      pageMap[page] := SRun(bin, 0);
      if BinPages(bin) > 1 {
        var i := 1;
        while i < BinPages(bin)
          invariant 1 <= i <= BinPages(bin)
          invariant forall p | page < p < page + i :: pageMap[p] == NRun(bin, p - page)
          invariant forall p | 0 <= p < PAGES && !(page < p < page + i) :: pageMap[p] == if p == page then SRun(bin, 0) else old(pageMap[p])
          modifies pageMap
        {
          pageMap[page + i] := NRun(bin, i);
          i := i + 1;
        }
      }
      assert pageMap[..] == SmallRunInfo(old(pageMap[..]), page, bin);
    }

    /** Writes the free counter of a small run (zend_mm_gc). */
    method SetCounter(page: nat, bin: Bin, count: nat)
      requires Valid() && page < PAGES
      modifies pageMap
      ensures Valid() && State() == ChunkState.SetCounter(old(State()), page, bin, count)
    {
      pageMap[page] := SRun(bin, count);
    }
  }

  // ---- free runs of a chunk value ---------------------------------------------

  ghost predicate MaximalFreeRun(c: Chunk, p: nat, len: nat)
    requires WellSized(c)
  {
    && 1 <= p && 1 <= len && p + len <= PAGES
    && FreeRange(c, p, len)
    && c.owner[p - 1] != FREE && (p + len < PAGES ==> c.owner[p + len] != FREE)
  }

  /** The first of the shortest maximal free runs with at least count pages. */
  ghost predicate BestFreeRun(c: Chunk, p: nat, len: nat, count: nat)
    requires WellSized(c)
  {
    && MaximalFreeRun(c, p, len) && count <= len
    && forall q: nat, l: nat | MaximalFreeRun(c, q, l) && count <= l :: len < l || (len == l && p <= q)
  }

  ghost predicate Shows(c: Chunk, ws: seq<bv64>) {
    WellSized(c) && |ws| == 8 && forall p: nat | p < PAGES :: Bitset.IsSet(ws, p) <==> c.owner[p] != FREE
  }

  lemma SameRuns(c: Chunk, ws: seq<bv64>)
    requires Shows(c, ws)
    ensures forall p: nat, len: nat :: PageSearch.FreeRun(ws, p, len) <==> MaximalFreeRun(c, p, len)
  {
    hide Bitset.IsSet;
    forall p: nat, len: nat
      ensures PageSearch.FreeRun(ws, p, len) <==> MaximalFreeRun(c, p, len)
    {
      if 1 <= p && 1 <= len && p + len <= PAGES {
        assert (forall q | p <= q < p + len :: !Bitset.IsSet(ws, q)) <==> FreeRange(c, p, len);
      }
    }
  }

  /** An allocated page at or above the tail mark continues a run. */
  lemma TailMark(c: Chunk, ws: seq<bv64>)
    requires Inv(c) && Shows(c, ws)
    ensures Bitset.IsSet(ws, 0) && PageSearch.NoRunStartsFrom(ws, c.freeTail)
  {
    hide Bitset.IsSet;
    forall q | c.freeTail <= q < PAGES && Bitset.IsSet(ws, q)
      ensures Bitset.IsSet(ws, q - 1)
    {
      var s := c.owner[q];
      assert RunOk(c, s);
      assert OwnedOk(c, s, q - 1);
    }
  }

  lemma RunsBelow(c: Chunk, ws: seq<bv64>, page: int, tail: nat)
    requires Inv(c) && Shows(c, ws) && 1 <= tail <= PAGES
    requires tail == c.freeTail || PageSearch.FreeFrom(ws, tail) || (0 < page < tail && PageSearch.FreeFrom(ws, page))
    ensures forall r | IsRun(c, r) :: r < tail
  {
    hide Bitset.IsSet;
    forall r | IsRun(c, r) ensures r < tail {
      assert RunOk(c, r) && Bitset.IsSet(ws, r);
    }
  }

  /** Too few free pages in all: no run can fit. */
  lemma NoRoom(c: Chunk, count: nat)
    requires Inv(c) && c.freePages < count
    ensures forall p: nat, len: nat | MaximalFreeRun(c, p, len) :: len < count
  {
    forall p: nat, len: nat | MaximalFreeRun(c, p, len) ensures len < count {
      IntervalSize(p, len);
      assert Interval(p, len) <= FreeSet(c);
      Smaller(Interval(p, len), FreeSet(c));
    }
  }

  lemma ZeroWords(ws: seq<bv64>)
    requires |ws| == 8 && forall w | 0 <= w < 8 :: ws[w] == 0
    ensures forall p: nat | p < PAGES :: !Bitset.IsSet(ws, p)
  {
    hide Bitset.Bit, Bitset.Pos;
    forall p: nat | p < PAGES ensures !Bitset.IsSet(ws, p) { Bitset.ConstantBits(Bitset.Pos(p)); }
  }

  /** Word 0 set to 1 marks the header page and nothing else. */
  lemma FirstBit(ws: seq<bv64>, ws': seq<bv64>, p: nat)
    requires |ws| == 8 && ws' == ws[0 := 1] && p < PAGES
    requires p >= 64 ==> !Bitset.IsSet(ws, p)
    ensures Bitset.IsSet(ws', p) <==> p == 0
  {
    hide Bitset.Bit, Bitset.Pos;
    Bitset.LowestBit(Bitset.Pos(p));
    Bitset.PosOrder(p, 0);
    Bitset.PosZero();
  }

  /** No two of the headers share an object. */
  ghost predicate Distinct(headers: map<nat, Header>) {
    forall b, c | b in headers && c in headers && b != c ::
      headers[b] != headers[c] && headers[b].freeMap != headers[c].freeMap && headers[b].pageMap != headers[c].pageMap
  }

  lemma DistinctPlus(headers: map<nat, Header>, base: nat, header: Header, old0: set<object>)
    requires Distinct(headers) && base !in headers
    requires forall b | b in headers :: headers[b] in old0 && headers[b].freeMap in old0 && headers[b].pageMap in old0
    requires header !in old0 && header.freeMap !in old0 && header.pageMap !in old0
    ensures Distinct(headers[base := header])
  {
  }
}
