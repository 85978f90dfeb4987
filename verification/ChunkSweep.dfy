/** The sweep of zend_mm_gc over one chunk: it walks from run to run below the tail mark, frees the
    small runs whose counter is full and resets the counters of the others. */
module ChunkSweep {
  import opened Bins
  import opened ChunkState
  import opened HeapState
  import opened HeapOps
  import opened ChunkHeader

  ghost predicate FullRun(c: Chunk, s: int) {
    && WellSized(c) && 1 <= s < PAGES && c.owner[s] == s
    && c.info[s].SRun? && c.info[s].freeCounter == BinElements(c.info[s].bin)
  }

  /** The pages of the full runs that start below i. */
  ghost function FullPages(c: Chunk, i: int): set<int>
    requires WellSized(c)
  {
    set p | 0 <= p < PAGES && c.owner[p] < i && FullRun(c, c.owner[p])
  }

  /** Chunk c is c0 with all runs that start below i swept. */
  ghost predicate SweptTo(c0: Chunk, c: Chunk, i: int) {
    && WellSized(c0) && Inv(c)
    && (forall p: nat, s: int, b: Bin :: SmallRunOf(c, p, s, b) <==> SmallRunOf(c0, p, s, b) && !(s < i && FullRun(c0, s)))
    && SameLargeRuns(c0, c)
    && (forall s: nat, b: Bin | SmallRunOf(c, s, s, b) :: c.info[s] == if s < i then SRun(b, 0) else c0.info[s])
    && FreeSet(c) == FreeSet(c0) + FullPages(c0, i)
  }

  /** Page i starts a run or is free: the sweep never stands inside a run. */
  ghost predicate AtBoundary(c: Chunk, i: int)
    requires WellSized(c)
  {
    i == PAGES || (0 <= i < PAGES && (c.owner[i] == FREE || c.owner[i] == i))
  }

  lemma NextBoundary(c: Chunk, i: nat, n: nat)
    requires Inv(c) && i < PAGES && 1 <= n && i + n <= PAGES
    requires if c.owner[i] == FREE then n == 1 else c.owner[i] == i && n == RunLength(c.info[i])
    ensures AtBoundary(c, i + n)
    ensures forall p | i < p < i + n :: c.owner[p] != p
  {
    hide BinPages;
    if c.owner[i] == i { RunPages(c, i); }
    if i + n < PAGES && c.owner[i + n] != FREE {
      RunPages(c, c.owner[i + n]);
    }
  }

  lemma SweepNothing(c: Chunk)
    requires Inv(c)
    ensures SweptTo(c, c, 1) && AtBoundary(c, 1)
  {
    NextBoundary(c, 0, 1);
    assert FullPages(c, 1) == {};
    forall s: nat, b: Bin | SmallRunOf(c, s, s, b) ensures s >= 1 {}
  }

  /** No small run starts between i and k. */
  ghost predicate NoSmallRunIn(c: Chunk, i: int, k: int) {
    forall s: nat, b: Bin | i <= s < k :: !SmallRunOf(c, s, s, b)
  }

  lemma SkipTo(c0: Chunk, c: Chunk, i: nat, k: nat)
    requires SweptTo(c0, c, i) && i <= k <= PAGES && NoSmallRunIn(c, i, k)
    ensures SweptTo(c0, c, k)
  {
    hide Inv;
    assert forall s: nat, b: Bin | i <= s < k :: SmallRunOf(c0, s, s, b) ==> SmallRunOf(c, s, s, b);
    forall s: int | i <= s < k ensures !FullRun(c0, s) {
      assert FullRun(c0, s) ==> SmallRunOf(c0, s, s, c0.info[s].bin);
    }
    assert FullPages(c0, k) == FullPages(c0, i);
    assert forall p: nat, s: int, b: Bin :: SmallRunOf(c0, p, s, b) ==> SmallRunOf(c0, s, s, b);
  }

  lemma SweepFull(c0: Chunk, c: Chunk, i: nat, b: Bin)
    requires Inv(c0) && SweptTo(c0, c, i) && SmallRunOf(c, i, i, b) && c.info[i].freeCounter == BinElements(b)
    ensures i + BinPages(b) <= PAGES
    ensures SweptTo(c0, FreeRun(c, i, BinPages(b)), i + BinPages(b))
    ensures AtBoundary(FreeRun(c, i, BinPages(b)), i + BinPages(b))
  {
    hide BinPages, BinElements, Partition, Counted;
    var n := BinPages(b);
    FreeSmallRuns(c, i, n);
    FreeRunInv(c, i, n);
    NextBoundary(c, i, n);
    var d := FreeRun(c, i, n);
    assert SmallRunOf(c0, i, i, b) && FullRun(c0, i);
    RunPages(c, i);
    RunPages(c0, i);
    assert FullPages(c0, i + 1) == FullPages(c0, i) + Interval(i, n) by {
      forall p | 0 <= p < PAGES
        ensures p in FullPages(c0, i + 1) <==> p in FullPages(c0, i) || p in Interval(i, n)
      {
        assert Within(p, i, n) <==> c0.owner[p] == i;
      }
    }
    assert FreeSet(d) == FreeSet(c) + Interval(i, n) by {
      assert forall p | 0 <= p < PAGES :: Within(p, i, n) <==> i <= p < i + n;
    }
    assert SweptTo(c0, d, i + 1);
    SkipTo(c0, d, i + 1, i + n);
  }

  lemma SweepLive(c0: Chunk, c: Chunk, i: nat, b: Bin)
    requires Inv(c0) && SweptTo(c0, c, i) && SmallRunOf(c, i, i, b) && c.info[i].freeCounter != BinElements(b)
    ensures i + BinPages(b) <= PAGES
    ensures SweptTo(c0, SetCounter(c, i, b, 0), i + BinPages(b))
    ensures AtBoundary(SetCounter(c, i, b, 0), i + BinPages(b))
  {
    hide BinPages, BinElements, Partition, Counted;
    FreeSmallRuns(c, i, BinPages(b));
    SetCounterInv(c, i, b, 0);
    SetCounterRuns(c, i, b, 0);
    NextBoundary(c, i, BinPages(b));
    var d := SetCounter(c, i, b, 0);
    assert SmallRunOf(c0, i, i, b) && !FullRun(c0, i);
    assert FullPages(c0, i + 1) == FullPages(c0, i);
    assert FreeSet(d) == FreeSet(c);
    assert SweptTo(c0, d, i + 1);
    SkipTo(c0, d, i + 1, i + BinPages(b));
  }

  /** The bound of the sweep: above the tail mark there is no run left. */
  lemma SweepEnd(c0: Chunk, c: Chunk, i: nat)
    requires SweptTo(c0, c, i) && c.freeTail <= i <= PAGES
    ensures SweptTo(c0, c, PAGES)
  {
    hide BinPages;
    forall s: nat, b: Bin | i <= s < PAGES ensures !SmallRunOf(c, s, s, b) {
      assert IsRun(c, s) ==> RunOk(c, s);
    }
    SkipTo(c0, c, i, PAGES);
  }

  method Sweep(chunk: Header) returns (collected: nat)
    requires chunk.Valid() && Inv(chunk.State())
    modifies chunk, chunk.freeMap, chunk.pageMap
    ensures chunk.Valid()
    ensures SweptTo(old(chunk.State()), chunk.State(), PAGES)
    ensures collected == |FullPages(old(chunk.State()), PAGES)|
  {
    hide BinPages, BinElements, Partition, Counted, SweptTo, AtBoundary, FullPages;
    ghost var c0 := chunk.State();
    SweepNothing(c0);
    collected := 0;
    var i := 1;
    while i < chunk.freeTail
      invariant 1 <= i <= PAGES && chunk.Valid() && SweptTo(c0, chunk.State(), i) && AtBoundary(chunk.State(), i)
      invariant chunk.freePages == c0.freePages + collected
    {
      ghost var c := chunk.State();
      SweptInv(c0, c, i);
      SweptFacts(c0, c, i);
      if Bitset.IsSet(chunk.freeMap[..], i) {
        var info := chunk.pageMap[i];
        if info.IsSRun() {
          var bin := info.bin;
          var pages := BinPages(bin);
          assert SmallRunOf(c, i, i, bin);
          if info.freeCounter == BinElements(bin) {
            SweepFull(c0, c, i, bin);
            BinFacts(bin);
            chunk.FreePages(i, pages);
            collected := collected + pages;
          } else {
            SweepLive(c0, c, i, bin);
            BinFacts(bin);
            chunk.SetCounter(i, bin, 0);
          }
          i := i + pages;
        } else {
          SkipLarge(c0, c, i);
          i := i + info.pages;
        }
      } else {
        SkipFree(c0, c, i);
        i := i + 1;
      }
    }
    SweepEnd(c0, chunk.State(), i);
    SweptCount(c0, chunk.State());
  }

  lemma SweptFacts(c0: Chunk, c: Chunk, i: nat)
    requires SweptTo(c0, c, i) && AtBoundary(c, i) && i < PAGES
    ensures Inv(c) && WellSized(c) && c.freeTail <= PAGES
    ensures c.owner[i] == FREE || (c.owner[i] == i && RunOk(c, i))
  {
  }

  lemma SkipLarge(c0: Chunk, c: Chunk, i: nat)
    requires SweptTo(c0, c, i) && 1 <= i < PAGES && c.owner[i] == i && c.info[i].LRun?
    ensures i + c.info[i].pages <= PAGES && 1 <= c.info[i].pages
    ensures SweptTo(c0, c, i + c.info[i].pages) && AtBoundary(c, i + c.info[i].pages)
  {
    hide BinPages, SweptTo;
    SweptInv(c0, c, i);
    RunPages(c, i);
    NextBoundary(c, i, c.info[i].pages);
    SkipTo(c0, c, i, i + c.info[i].pages);
  }

  lemma SkipFree(c0: Chunk, c: Chunk, i: nat)
    requires SweptTo(c0, c, i) && 1 <= i < PAGES && c.owner[i] == FREE
    ensures SweptTo(c0, c, i + 1) && AtBoundary(c, i + 1)
  {
    hide BinPages, SweptTo;
    SweptInv(c0, c, i);
    NextBoundary(c, i, 1);
    SkipTo(c0, c, i, i + 1);
  }

  lemma SweptInv(c0: Chunk, c: Chunk, i: int)
    requires SweptTo(c0, c, i)
    ensures WellSized(c) && Inv(c) && 1 <= c.freeTail <= PAGES
    ensures forall s | IsRun(c, s) :: RunOk(c, s)
  {
  }

  lemma SweptCount(c0: Chunk, c: Chunk)
    requires Inv(c0) && SweptTo(c0, c, PAGES)
    ensures c.freePages == c0.freePages + |FullPages(c0, PAGES)|
  {
    hide Partition;
    assert FreeSet(c0) !! FullPages(c0, PAGES);
  }
}
