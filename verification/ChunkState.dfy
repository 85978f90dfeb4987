/** One 2 MB chunk as a value: which run owns each page, the page map, and the two page
    counters; the effect of each page operation on it; and the invariant they all keep. */
module ChunkState {
  import opened Bins

  const FREE := -1

  /** An entry of the page map: what the 32-bit words of zend_mm_page_info encode. */
  datatype PageInfo =
    | FRun
    | LRun(pages: nat)
    | SRun(bin: Bin, freeCounter: nat)
    | NRun(bin: Bin, offset: nat)
  {
    /** info & ZEND_MM_IS_SRUN */
    predicate IsSRun() { SRun? || NRun? }
    /** info & ZEND_MM_IS_LRUN */
    predicate IsLRun() { LRun? || NRun? }
  }

  /** owner[p] is the first page of the run that holds page p, or FREE. */
  datatype Chunk = Chunk(owner: seq<int>, info: seq<PageInfo>, freePages: int, freeTail: nat, num: nat)

  predicate WellSized(c: Chunk) {
    |c.owner| == PAGES && |c.info| == PAGES
  }

  /** The pages of the run that a map entry describes. */
  function RunLength(i: PageInfo): nat {
    match i
    case LRun(n) => n
    case SRun(b, _) => BinPages(b)
    case _ => 0
  }

  predicate IsRun(c: Chunk, s: int)
    requires WellSized(c)
  {
    0 <= s < PAGES && c.owner[s] == s
  }

  /** The run at s: its pages are its own, and the map describes it. */
  predicate RunOk(c: Chunk, s: int)
    requires WellSized(c) && IsRun(c, s)
  {
    var i := c.info[s];
    && (i.LRun? || i.SRun?)
    && 1 <= RunLength(i) && s + RunLength(i) <= PAGES
    && s < c.freeTail
    && (s > 0 && i.SRun? ==> i.bin >= 1)
  }

  predicate OwnedOk(c: Chunk, s: int, p: int)
    requires WellSized(c) && 0 <= s < PAGES && 0 <= p < PAGES
  {
    && c.owner[p] == s
    && (c.info[s].SRun? && p > s ==> c.info[p] == NRun(c.info[s].bin, p - s))
  }

  /** The pages are partitioned into free pages and runs, and the map agrees. */
  ghost predicate Partition(c: Chunk) {
    && WellSized(c)
    && c.owner[0] == 0 && c.info[0] == LRun(1)
    && 1 <= c.freeTail <= PAGES
    && (forall s | IsRun(c, s) :: RunOk(c, s))
    && (forall s, p | IsRun(c, s) && s <= p < s + RunLength(c.info[s]) :: p < PAGES && OwnedOk(c, s, p))
    && (forall p | 0 <= p < PAGES && c.owner[p] != FREE ::
          IsRun(c, c.owner[p]) && c.owner[p] <= p < c.owner[p] + RunLength(c.info[c.owner[p]]))
  }

  ghost function FreeSet(c: Chunk): set<int>
    requires WellSized(c)
  {
    set p | 0 <= p < PAGES && c.owner[p] == FREE
  }

  ghost predicate Counted(c: Chunk) {
    WellSized(c) && c.freePages == |FreeSet(c)|
  }

  /** What every page operation keeps. */
  ghost predicate Inv(c: Chunk) {
    Partition(c) && Counted(c)
  }

  /** Outside gc the free counters of all small runs are zero. */
  ghost predicate CountersZero(c: Chunk) {
    WellSized(c) && forall s | IsRun(c, s) && c.info[s].SRun? :: c.info[s].freeCounter == 0
  }

  /** No page but the header is in use. */
  ghost predicate Empty(c: Chunk) {
    WellSized(c) && forall p | 1 <= p < PAGES :: c.owner[p] == FREE
  }

  // ---- interval updates --------------------------------------------------------

  function Fill(s: seq<int>, start: nat, n: nat, v: int): (r: seq<int>)
    requires start + n <= |s|
    ensures |r| == |s|
    ensures forall p | 0 <= p < |s| :: r[p] == if start <= p < start + n then v else s[p]
  {
    s[..start] + seq(n, _ => v) + s[start + n..]
  }

  predicate Within(p: int, start: nat, n: nat) {
    start <= p < start + n
  }

  ghost function Interval(start: nat, n: nat): set<int> {
    set p | start <= p < start + n && Within(p, start, n)
  }

  lemma {:induction false} IntervalSize(start: nat, n: nat)
    ensures |Interval(start, n)| == n
    decreases n
  {
    if n == 0 {
      assert Interval(start, n) == {};
    } else {
      IntervalSize(start, n - 1);
      assert Interval(start, n) == Interval(start, n - 1) + {start + n - 1};
    }
  }

  lemma FillCount(c: Chunk, d: Chunk, start: nat, n: nat, v: int)
    requires WellSized(c) && start + n <= PAGES && d.owner == Fill(c.owner, start, n, v) && WellSized(d)
    ensures v == FREE && (forall p | start <= p < start + n :: c.owner[p] != FREE) ==>
              |FreeSet(d)| == |FreeSet(c)| + n
    ensures v != FREE && (forall p | start <= p < start + n :: c.owner[p] == FREE) ==>
              |FreeSet(d)| == |FreeSet(c)| - n
  {
    IntervalSize(start, n);
    var i := Interval(start, n);
    if v == FREE {
      if forall p | start <= p < start + n :: c.owner[p] != FREE {
        assert FreeSet(d) == FreeSet(c) + i && FreeSet(c) !! i;
      }
    } else if forall p | start <= p < start + n :: c.owner[p] == FREE {
      assert FreeSet(c) == FreeSet(d) + i && FreeSet(d) !! i;
    }
  }

  /** A chunk with all its 511 pages free is empty, and conversely. */
  lemma AllFree(c: Chunk)
    requires Inv(c)
    ensures c.freePages == PAGES - 1 <==> Empty(c)
    ensures c.freePages <= PAGES - 1
  {
    var i := Interval(1, PAGES - 1);
    IntervalSize(1, PAGES - 1);
    assert FreeSet(c) <= i;
    Smaller(FreeSet(c), i);
    if Empty(c) {
      assert FreeSet(c) == i;
    } else if FreeSet(c) == i {
      forall p | 1 <= p < PAGES ensures c.owner[p] == FREE { assert Within(p, 1, PAGES - 1); assert p in i; }
    }
  }

  lemma Smaller<T>(a: set<T>, b: set<T>)
    requires a <= b
    ensures |a| <= |b|
    ensures |a| == |b| ==> a == b
  {
    assert b == a + (b - a);
  }

  // ---- the page operations -----------------------------------------------------

  /** A chunk fresh from zend_mm_chunk_init; the rest of the page map is whatever it held. */
  function Init(info: seq<PageInfo>, num: nat): Chunk
    requires |info| == PAGES
  {
    Chunk(Fill(seq(PAGES, _ => FREE), 0, 1, 0), info[0 := LRun(1)], PAGES - 1, 1, num)
  }

  /** A header of zero bytes. */
  function Zeroed(): (c: Chunk)
    ensures WellSized(c)
  {
    Chunk(seq(PAGES, _ => FREE), seq(PAGES, _ => FRun), 0, 0, 0)
  }

  predicate FreeRange(c: Chunk, s: nat, n: nat)
    requires WellSized(c)
  {
    s + n <= PAGES && forall p | s <= p < s + n :: c.owner[p] == FREE
  }

  /** Marks n pages at s as one large run; tail is the free-tail mark after the page search. */
  function AllocRun(c: Chunk, s: nat, n: nat, tail: nat): Chunk
    requires WellSized(c) && 1 <= s && 1 <= n && s + n <= PAGES
  {
    c.(owner := Fill(c.owner, s, n, s), info := c.info[s := LRun(n)],
       freePages := c.freePages - n,
       freeTail := if s == tail then s + n else tail)
  }

  /** zend_mm_free_pages_ex without the chunk deletion. */
  function FreeRun(c: Chunk, s: nat, n: nat): Chunk
    requires WellSized(c) && 1 <= n && s + n <= PAGES
  {
    c.(owner := Fill(c.owner, s, n, FREE), info := c.info[s := FRun],
       freePages := c.freePages + n,
       freeTail := if c.freeTail == s + n then s else c.freeTail)
  }

  /** In-place truncation of the large run at s from n to m pages. */
  function ShrinkRun(c: Chunk, s: nat, n: nat, m: nat): Chunk
    requires WellSized(c) && m <= n && s + n <= PAGES && s < PAGES
  {
    c.(owner := Fill(c.owner, s + m, n - m, FREE), info := c.info[s := LRun(m)],
       freePages := c.freePages + (n - m))
  }

  /** In-place growth of the large run at s from n to m pages: free_tail stays where it is. */
  function GrowRun(c: Chunk, s: nat, n: nat, m: nat): Chunk
    requires WellSized(c) && n <= m && s + m <= PAGES && s < PAGES
  {
    c.(owner := Fill(c.owner, s + n, m - n, s), info := c.info[s := LRun(m)],
       freePages := c.freePages - (m - n))
  }

  /** The page map entries of a small run of bin b. */
  function SmallRunInfo(info: seq<PageInfo>, s: nat, b: Bin): (r: seq<PageInfo>)
    requires s + BinPages(b) <= |info|
    ensures |r| == |info|
    ensures forall p | 0 <= p < |info| ::
      r[p] == (if p == s then SRun(b, 0) else if s < p < s + BinPages(b) then NRun(b, p - s) else info[p])
  {
    seq(|info|, p requires 0 <= p < |info| =>
      if p == s then SRun(b, 0) else if s < p < s + BinPages(b) then NRun(b, p - s) else info[p])
  }

  /** Turns the large run at s into a small run of bin b. */
  function MarkSmall(c: Chunk, s: nat, b: Bin): Chunk
    requires WellSized(c) && s + BinPages(b) <= PAGES
  {
    c.(info := SmallRunInfo(c.info, s, b))
  }

  function SetCounter(c: Chunk, s: nat, b: Bin, k: nat): Chunk
    requires WellSized(c) && s < PAGES
  {
    c.(info := c.info[s := SRun(b, k)])
  }

  // ---- each operation keeps the invariant --------------------------------------

  lemma InitInv(info: seq<PageInfo>, num: nat)
    requires |info| == PAGES
    ensures Inv(Init(info, num)) && CountersZero(Init(info, num)) && Empty(Init(info, num)) && Init(info, num).num == num
  {
    var c := Init(info, num);
    IntervalSize(1, PAGES - 1);
    assert FreeSet(c) == Interval(1, PAGES - 1);
  }

  /** The tail marks the page search may leave: every run, the new one included, starts below. */
  ghost predicate TailOk(c: Chunk, s: nat, tail: nat)
    requires WellSized(c)
  {
    && 1 <= tail <= PAGES && s <= tail
    && forall r | IsRun(c, r) :: r < tail
  }

  lemma AllocRunInv(c: Chunk, s: nat, n: nat, tail: nat)
    requires Inv(c) && 1 <= s && 1 <= n && FreeRange(c, s, n) && TailOk(c, s, tail)
    ensures Inv(AllocRun(c, s, n, tail))
    ensures CountersZero(c) ==> CountersZero(AllocRun(c, s, n, tail))
  {
    var d := AllocRun(c, s, n, tail);
    FillCount(c, d, s, n, s);
    forall r | IsRun(d, r) ensures r == s || (IsRun(c, r) && d.info[r] == c.info[r]) {}
    forall r, p | IsRun(d, r) && r <= p < r + RunLength(d.info[r])
      ensures p < PAGES && OwnedOk(d, r, p)
    {
      if r != s {
        assert OwnedOk(c, r, p);
      }
    }
  }

  lemma RunPages(c: Chunk, s: int)
    requires Partition(c) && IsRun(c, s)
    ensures s + RunLength(c.info[s]) <= PAGES
    ensures forall p | s <= p < s + RunLength(c.info[s]) :: c.owner[p] == s
    ensures forall p | 0 <= p < PAGES && c.owner[p] == s :: s <= p < s + RunLength(c.info[s])
  {
    assert RunOk(c, s);
    forall p | s <= p < s + RunLength(c.info[s]) ensures c.owner[p] == s { assert OwnedOk(c, s, p); }
  }

  lemma FreeRunInv(c: Chunk, s: nat, n: nat)
    requires Inv(c) && 1 <= s && IsRun(c, s) && n == RunLength(c.info[s])
    ensures 1 <= n && s + n <= PAGES && Inv(FreeRun(c, s, n))
    ensures CountersZero(c) ==> CountersZero(FreeRun(c, s, n))
  {
    assert RunOk(c, s);
    RunPages(c, s);
    var d := FreeRun(c, s, n);
    FillCount(c, d, s, n, FREE);
    forall r | IsRun(d, r)
      ensures IsRun(c, r) && d.info[r] == c.info[r] && RunOk(d, r)
    {
      RunPages(c, r);
    }
    forall r, p | IsRun(d, r) && r <= p < r + RunLength(d.info[r])
      ensures p < PAGES && OwnedOk(d, r, p)
    {
      assert OwnedOk(c, r, p);
    }
  }

  lemma ShrinkRunInv(c: Chunk, s: nat, n: nat, m: nat)
    requires Inv(c) && 1 <= s && IsRun(c, s) && c.info[s] == LRun(n) && 1 <= m < n
    ensures s + n <= PAGES && Inv(ShrinkRun(c, s, n, m))
    ensures CountersZero(c) ==> CountersZero(ShrinkRun(c, s, n, m))
  {
    assert RunOk(c, s);
    RunPages(c, s);
    var d := ShrinkRun(c, s, n, m);
    FillCount(c, d, s + m, n - m, FREE);
    forall r | IsRun(d, r) ensures IsRun(c, r) && (r != s ==> d.info[r] == c.info[r]) {}
    forall r, p | IsRun(d, r) && r <= p < r + RunLength(d.info[r])
      ensures p < PAGES && OwnedOk(d, r, p)
    {
      assert OwnedOk(c, r, p);
    }
  }

  lemma GrowRunInv(c: Chunk, s: nat, n: nat, m: nat)
    requires Inv(c) && 1 <= s && IsRun(c, s) && c.info[s] == LRun(n) && n < m && s + m <= PAGES
    requires FreeRange(c, s + n, m - n)
    ensures Inv(GrowRun(c, s, n, m))
    ensures CountersZero(c) ==> CountersZero(GrowRun(c, s, n, m))
  {
    assert RunOk(c, s);
    RunPages(c, s);
    var d := GrowRun(c, s, n, m);
    FillCount(c, d, s + n, m - n, s);
    forall r | IsRun(d, r) ensures IsRun(c, r) && (r != s ==> d.info[r] == c.info[r]) {}
    forall r, p | IsRun(d, r) && r <= p < r + RunLength(d.info[r])
      ensures p < PAGES && OwnedOk(d, r, p)
    {
      if r != s {
        assert OwnedOk(c, r, p);
      }
    }
  }

  lemma MarkSmallInv(c: Chunk, s: nat, b: Bin)
    requires Inv(c) && 1 <= s && IsRun(c, s) && c.info[s] == LRun(BinPages(b)) && b >= 1
    ensures s + BinPages(b) <= PAGES && Inv(MarkSmall(c, s, b))
    ensures CountersZero(c) ==> CountersZero(MarkSmall(c, s, b))
  {
    hide BinPages;
    assert RunOk(c, s);
    RunPages(c, s);
    var d := MarkSmall(c, s, b);
    assert FreeSet(d) == FreeSet(c);
    forall r | IsRun(d, r)
      ensures IsRun(c, r) && RunLength(d.info[r]) == RunLength(c.info[r]) && (r != s ==> d.info[r] == c.info[r])
    {
    }
    forall r, p | IsRun(d, r) && r <= p < r + RunLength(d.info[r])
      ensures p < PAGES && OwnedOk(d, r, p)
    {
      assert OwnedOk(c, r, p);
    }
  }

  lemma SetCounterInv(c: Chunk, s: nat, b: Bin, k: nat)
    requires Inv(c) && 1 <= s && IsRun(c, s) && c.info[s].SRun? && c.info[s].bin == b
    ensures Inv(SetCounter(c, s, b, k))
  {
    hide BinPages;
    var d := SetCounter(c, s, b, k);
    assert FreeSet(d) == FreeSet(c);
    forall r | IsRun(d, r)
      ensures IsRun(c, r) && RunLength(d.info[r]) == RunLength(c.info[r]) && (r != s ==> d.info[r] == c.info[r])
    {
      assert RunOk(c, r);
    }
    forall r, p | IsRun(d, r) && r <= p < r + RunLength(d.info[r])
      ensures p < PAGES && OwnedOk(d, r, p)
    {
      assert OwnedOk(c, r, p);
    }
  }

  lemma SetTailInv(c: Chunk, tail: nat)
    requires Inv(c) && 1 <= tail <= PAGES && forall r | IsRun(c, r) :: r < tail
    ensures Inv(c.(freeTail := tail))
    ensures CountersZero(c) ==> CountersZero(c.(freeTail := tail))
  {
    var d := c.(freeTail := tail);
    assert FreeSet(d) == FreeSet(c);
    forall r | IsRun(d, r) ensures IsRun(c, r) && RunOk(d, r) { assert RunOk(c, r); }
    forall r, p | IsRun(d, r) && r <= p < r + RunLength(d.info[r])
      ensures p < PAGES && OwnedOk(d, r, p)
    {
      assert IsRun(c, r) && OwnedOk(c, r, p);
    }
  }
}
