/** The best-fit page search of zend_mm_alloc_pages, word by word over the bitmap of one
    chunk, against its meaning: the first of the shortest maximal free runs that fit. */
module PageSearch {
  import opened Bitset

  const PAGES := 512

  /** [p, p + len) is a maximal run of free pages. */
  ghost predicate FreeRun(ws: seq<bv64>, p: nat, len: nat)
    requires |ws| == 8
  {
    && 1 <= p && 1 <= len && p + len <= PAGES
    && (forall q | p <= q < p + len :: !IsSet(ws, q))
    && IsSet(ws, p - 1)
    && (p + len < PAGES ==> IsSet(ws, p + len))
  }

  /** The run at p is the first of the shortest free runs of at least count pages. */
  ghost predicate BestFit(ws: seq<bv64>, p: nat, len: nat, count: nat)
    requires |ws| == 8
  {
    && FreeRun(ws, p, len) && count <= len
    && forall q: nat, l: nat | FreeRun(ws, q, l) && count <= l :: len < l || (len == l && p <= q)
  }

  /** No allocated run starts at or above the tail mark: what is in use above the mark is
      only the rest of a run that starts below it.  In-place growth makes the stronger "all pages are free there" false. */
  ghost predicate NoRunStartsFrom(ws: seq<bv64>, tail: nat)
    requires |ws| == 8
  {
    1 <= tail <= PAGES && forall q | tail <= q < PAGES && IsSet(ws, q) :: IsSet(ws, q - 1)
  }

  ghost predicate FreeFrom(ws: seq<bv64>, p: nat)
    requires |ws| == 8
  {
    forall q | p <= q < PAGES :: !IsSet(ws, q)
  }

  /** The early exit of the search: a free page at or above the mark has only free pages above it. */
  lemma {:induction false} FreeToTheEnd(ws: seq<bv64>, tail: nat, i: nat, q: nat)
    requires |ws| == 8 && NoRunStartsFrom(ws, tail)
    requires tail <= i <= q < PAGES && !IsSet(ws, i - 1)
    ensures !IsSet(ws, q)
    decreases q
  {
    if q > i {
      FreeToTheEnd(ws, tail, i, q - 1);
    }
  }

  lemma FreeRunUnique(ws: seq<bv64>, p: nat, l: nat, m: nat)
    requires |ws| == 8 && FreeRun(ws, p, l) && FreeRun(ws, p, m)
    ensures l == m
  {
  }

  /** The two bit counts as numbers of pages. */
  function Ones(w: bv64): nat { Nts(w) as int }

  function Zeros(w: bv64): nat { Ntz(w) as int }

  // ---- reading one word --------------------------------------------------------

  lemma PosOffset(i: nat, n: bv7)
    requires i % 64 == 0 && n < 64
    ensures Pos(i + n as int) == n as bv6
  {
    assert (i + n as int) % 64 == n as int;
  }

  lemma LowestClearPage(w: bv64, i: nat, p: nat)
    requires i % 64 == 0 && i <= p < i + 64 && w != ONES
    ensures Ones(w) < 64
    ensures !Bit(w, Pos(i + Ones(w)))
    ensures p < i + Ones(w) ==> Bit(w, Pos(p))
    ensures Bit(DropTrailingOnes(w), Pos(p)) <==> i + Ones(w) <= p && Bit(w, Pos(p))
  {
    hide Bit, Pos, DropTrailingOnes, Nts;
    TrailingOnes(w, Pos(p));
    InWord(i, Nts(w), p);
  }

  /** The position of a page compared with the n-th bit of the word at i. */
  lemma InWord(i: nat, n: bv7, p: nat)
    requires i % 64 == 0 && n < 64 && i <= p < i + 64
    ensures Pos(i + n as int) == n as bv6
    ensures Pos(p) < n as bv6 <==> p < i + n as int
  {
    hide Pos;
    PosOffset(i, n);
    PosOrder(p, i + n as int);
    OffsetInWord(i, p);
    OffsetInWord(i, i + n as int);
  }

  lemma OffsetInWord(i: nat, p: nat)
    requires i % 64 == 0 && i <= p < i + 64
    ensures p % 64 == p - i
  {
  }

  lemma LowestSetPage(w: bv64, i: nat, p: nat)
    requires i % 64 == 0 && i <= p < i + 64 && w != 0
    ensures Zeros(w) < 64
    ensures Bit(w, Pos(i + Zeros(w)))
    ensures p < i + Zeros(w) ==> !Bit(w, Pos(p))
    ensures Bit(FillTrailingZeros(w), Pos(p)) <==> p < i + Zeros(w) || Bit(w, Pos(p))
  {
    hide Bit, Pos, FillTrailingZeros, Ntz;
    TrailingZeros(w, Pos(p));
    InWord(i, Ntz(w), p);
  }

  // ---- the search --------------------------------------------------------------

  /** tmp is the word at i with every page below c taken as set. */
  ghost predicate SetBelowIn(ws: seq<bv64>, tmp: bv64, i: nat, c: nat)
    requires |ws| == 8 && i + 64 <= PAGES
  {
    forall p: nat | i <= p < i + 64 :: Bit(tmp, Pos(p)) <==> p < c || IsSet(ws, p)
  }

  /** tmp is the word at i with every page below c taken as clear. */
  ghost predicate ClearBelowIn(ws: seq<bv64>, tmp: bv64, i: nat, c: nat)
    requires |ws| == 8 && i + 64 <= PAGES
  {
    forall p: nat | i <= p < i + 64 :: Bit(tmp, Pos(p)) <==> c <= p && IsSet(ws, p)
  }

  /** c does not lie inside a free run. */
  ghost predicate Boundary(ws: seq<bv64>, c: nat)
    requires |ws| == 8
  {
    c == 0 || (c <= PAGES && IsSet(ws, c - 1)) || (c < PAGES && IsSet(ws, c))
  }

  /** best is the best fit among the free runs that start below c; none of them fits exactly. */
  ghost predicate BestBelow(ws: seq<bv64>, best: int, bestLen: nat, count: nat, c: nat)
    requires |ws| == 8
  {
    && (best == -1 ==> bestLen == PAGES)
    && (best != -1 ==> 0 < best < c && FreeRun(ws, best, bestLen))
    && count < bestLen
    && forall q: nat, l: nat | FreeRun(ws, q, l) && q < c && count <= l ::
         best != -1 && (bestLen < l || (bestLen == l && best <= q))
  }

  lemma AllSet(ws: seq<bv64>, i: nat, c: nat)
    requires |ws| == 8 && i % 64 == 0 && i + 64 <= PAGES && SetBelowIn(ws, ONES, i, c)
    ensures forall q | c <= q && i <= q < i + 64 :: IsSet(ws, q)
    ensures c < i + 64 ==> Boundary(ws, i + 64)
  {
    hide Bit, Pos;
    forall q | c <= q && i <= q < i + 64 ensures IsSet(ws, q) { ConstantBits(Pos(q)); }
  }

  lemma AllClear(ws: seq<bv64>, i: nat, c: nat)
    requires |ws| == 8 && i % 64 == 0 && i + 64 <= PAGES && ClearBelowIn(ws, 0, i, c)
    ensures forall q | c <= q && i <= q < i + 64 :: !IsSet(ws, q)
  {
    hide Bit, Pos;
    forall q | c <= q && i <= q < i + 64 ensures !IsSet(ws, q) { ConstantBits(Pos(q)); }
  }

  lemma FirstClear(ws: seq<bv64>, tmp: bv64, i: nat, c: nat)
    requires |ws| == 8 && i % 64 == 0 && i + 64 <= PAGES && SetBelowIn(ws, tmp, i, c) && tmp != ONES
    ensures var page := i + Ones(tmp);
      && c <= page < i + 64 && !IsSet(ws, page)
      && (forall q | i <= q < page && c <= q :: IsSet(ws, q))
      && ClearBelowIn(ws, DropTrailingOnes(tmp), i, page)
  {
    hide Bit, Pos, Ones, DropTrailingOnes, IsSet;
    forall p: nat | i <= p < i + 64
      ensures Ones(tmp) < 64
      ensures p < i + Ones(tmp) ==> Bit(tmp, Pos(p))
      ensures !Bit(tmp, Pos(i + Ones(tmp)))
      ensures Bit(DropTrailingOnes(tmp), Pos(p)) <==> i + Ones(tmp) <= p && Bit(tmp, Pos(p))
    {
      LowestClearPage(tmp, i, p);
    }
    var page := i + Ones(tmp);
    assert Ones(tmp) < 64 by { LowestClearPage(tmp, i, i); }
    assert Bit(tmp, Pos(page)) <==> page < c || IsSet(ws, page);
  }

  lemma FirstSet(ws: seq<bv64>, tmp: bv64, i: nat, c: nat)
    requires |ws| == 8 && i % 64 == 0 && i + 64 <= PAGES && ClearBelowIn(ws, tmp, i, c) && tmp != 0
    ensures var next := i + Zeros(tmp);
      && c <= next < i + 64 && IsSet(ws, next)
      && (forall q | i <= q < next && c <= q :: !IsSet(ws, q))
      && SetBelowIn(ws, FillTrailingZeros(tmp), i, next)
  {
    hide Bit, Pos, Zeros, FillTrailingZeros, IsSet;
    forall p: nat | i <= p < i + 64
      ensures Zeros(tmp) < 64
      ensures p < i + Zeros(tmp) ==> !Bit(tmp, Pos(p))
      ensures Bit(tmp, Pos(i + Zeros(tmp)))
      ensures Bit(FillTrailingZeros(tmp), Pos(p)) <==> p < i + Zeros(tmp) || Bit(tmp, Pos(p))
    {
      LowestSetPage(tmp, i, p);
    }
    var next := i + Zeros(tmp);
    assert Zeros(tmp) < 64 by { LowestSetPage(tmp, i, i); }
    assert Bit(tmp, Pos(next)) <==> c <= next && IsSet(ws, next);
  }

  lemma NextWord(ws: seq<bv64>, i: nat, c: nat)
    requires |ws| == 8 && i % 64 == 0 && i + 64 <= PAGES && c <= i
    ensures SetBelowIn(ws, ws[i / 64], i, c) && ClearBelowIn(ws, ws[i / 64], i, c)
  {
    hide Bit, Pos;
  }

  method FindPages(bitmap: array<bv64>, freeTail: nat, count: nat) returns (page: int, tail: nat, ghost run: nat)
    requires bitmap.Length == 8 && 1 <= count < PAGES
    requires IsSet(bitmap[..], 0) && NoRunStartsFrom(bitmap[..], freeTail)
    ensures page == -1 || page > 0
    ensures page > 0 ==> BestFit(bitmap[..], page, run, count)
    ensures page == -1 ==> forall p: nat, l: nat | FreeRun(bitmap[..], p, l) :: l < count
    ensures tail == freeTail || (page > 0 && tail == page + count && FreeFrom(bitmap[..], page))
                             || (1 <= tail <= PAGES && FreeFrom(bitmap[..], tail))
    ensures page > 0 ==> page < tail
  {
    hide IsSet, Ones, Zeros, DropTrailingOnes, FillTrailingZeros, SetBelowIn, ClearBelowIn;
    hide FreeRun, Boundary, BestBelow, BestFit;
    ghost var ws := bitmap[..];
    var best, bestLen: nat := -1, PAGES;
    var i, len := 0, 0;
    var tmp := bitmap[0];
    ghost var c: nat := 0;
    run := 0;
    NextWord(ws, 0, 0);
    NothingBelow(ws, count);
    while true
      invariant i % 64 == 0 && i <= c < i + 64 <= PAGES
      invariant SetBelowIn(ws, tmp, i, c) && Boundary(ws, c)
      invariant BestBelow(ws, best, bestLen, count, c) && -1 <= best < c && best != 0 && count < bestLen
      decreases PAGES - c
    {
      ghost var c0 := c;
      // skip allocated blocks
      while tmp == ONES
        invariant i % 64 == 0 && i <= c < i + 64 <= PAGES
        invariant SetBelowIn(ws, tmp, i, c) && Boundary(ws, c)
        invariant BestBelow(ws, best, bestLen, count, c) && c0 <= c
        decreases PAGES - i
      {
        AllSet(ws, i, c);
        NoRunBetween(ws, best, bestLen, count, c, i + 64);
        i := i + 64;
        c := i;
        if i == PAGES {
          page, tail, run := best, freeTail, bestLen;
          NothingElse(ws, best, bestLen, count);
          BestFitRun(ws, best, bestLen, count);
          SetPageBelowTail(ws, freeTail, page, run);
          return;
        }
        tmp := bitmap[i / 64];
        NextWord(ws, i, c);
      }
      // find first 0 bit
      FirstClear(ws, tmp, i, c);
      page := i + Ones(tmp);
      NoRunBetween(ws, best, bestLen, count, c, page);
      // reset bits from 0 to "bit"
      tmp := DropTrailingOnes(tmp);
      // skip free blocks
      while tmp == 0
        invariant i % 64 == 0 && i + 64 <= PAGES && page < i + 64
        invariant ClearBelowIn(ws, tmp, i, page)
        invariant forall q | page <= q < i :: !IsSet(ws, q)
        decreases PAGES - i
      {
        AllClear(ws, i, page);
        i := i + 64;
        if i >= freeTail || i == PAGES {
          if i < PAGES {
            forall q | i <= q < PAGES ensures !IsSet(ws, q) { FreeToTheEnd(ws, freeTail, i, q); }
          }
          len := PAGES - page;
          RunFound(ws, c, page, len);
          if len >= count && len < bestLen {
            tail, run := page + count, len;
            ShorterIsBest(ws, best, bestLen, count, page, len);
          } else {
            LongerIsNot(ws, best, bestLen, count, page, len);
            NothingElse(ws, best, bestLen, count);
            tail := page;
            page, run := best, bestLen;
          }
          return;
        }
        tmp := bitmap[i / 64];
        NextWord(ws, i, page);
      }
      // find first 1 bit
      FirstSet(ws, tmp, i, page);
      len := i + Zeros(tmp) - page;
      RunFound(ws, c, page, len);
      if len >= count {
        if len == count {
          tail, run := freeTail, len;
          ShorterIsBest(ws, best, bestLen, count, page, len);
          SetPageBelowTail(ws, freeTail, page, len);
          return;
        } else if len < bestLen {
          ShorterIsBetter(ws, best, bestLen, count, page, len);
          bestLen := len;
          best := page;
        } else {
          LongerIsNot(ws, best, bestLen, count, page, len);
        }
      } else {
        LongerIsNot(ws, best, bestLen, count, page, len);
      }
      // set bits from 0 to "bit"
      tmp := FillTrailingZeros(tmp);
      c := page + len;
    }
  }

  lemma RunFound(ws: seq<bv64>, c: nat, page: nat, len: nat)
    requires |ws| == 8 && IsSet(ws, 0) && Boundary(ws, c)
    requires c <= page && 1 <= len && page + len <= PAGES
    requires forall q | c <= q < page :: IsSet(ws, q)
    requires forall q | page <= q < page + len :: !IsSet(ws, q)
    requires page + len < PAGES ==> IsSet(ws, page + len)
    ensures FreeRun(ws, page, len) && 1 <= page && Boundary(ws, page + len) == (page + len < PAGES)
  {
    hide IsSet;
    assert !IsSet(ws, page) && !IsSet(ws, page + len - 1);
  }

  lemma NothingBelow(ws: seq<bv64>, count: nat)
    requires |ws| == 8 && 1 <= count < PAGES
    ensures BestBelow(ws, -1, PAGES, count, 0)
    ensures Boundary(ws, 0)
  {
  }

  lemma NoRunBetween(ws: seq<bv64>, best: int, bestLen: nat, count: nat, c: nat, d: nat)
    requires |ws| == 8 && c <= d <= PAGES && BestBelow(ws, best, bestLen, count, c)
    requires forall q | c <= q < d :: IsSet(ws, q)
    ensures BestBelow(ws, best, bestLen, count, d)
  {
    hide IsSet;
    forall q: nat, l: nat | FreeRun(ws, q, l) && q < d && count <= l
      ensures best != -1 && (bestLen < l || (bestLen == l && best <= q))
    {
      assert !IsSet(ws, q);
    }
  }

  lemma NothingElse(ws: seq<bv64>, best: int, bestLen: nat, count: nat)
    requires |ws| == 8 && BestBelow(ws, best, bestLen, count, PAGES)
    ensures best != -1 ==> BestFit(ws, best, bestLen, count)
    ensures best == -1 ==> forall p: nat, l: nat | FreeRun(ws, p, l) :: l < count
  {
  }

  lemma BestFitRun(ws: seq<bv64>, best: int, bestLen: nat, count: nat)
    requires |ws| == 8 && best > 0 ==> BestFit(ws, best, bestLen, count)
    ensures |ws| == 8 && best > 0 ==> FreeRun(ws, best, bestLen) && best + bestLen <= PAGES
  {
  }

  lemma ShorterIsBest(ws: seq<bv64>, best: int, bestLen: nat, count: nat, page: nat, len: nat)
    requires |ws| == 8 && BestBelow(ws, best, bestLen, count, page)
    requires FreeRun(ws, page, len) && count <= len < bestLen
    requires len == count || page + len == PAGES
    ensures BestFit(ws, page, len, count)
  {
    hide IsSet;
    OneRunBetween(ws, page, len);
  }

  lemma ShorterIsBetter(ws: seq<bv64>, best: int, bestLen: nat, count: nat, page: nat, len: nat)
    requires |ws| == 8 && BestBelow(ws, best, bestLen, count, page)
    requires FreeRun(ws, page, len) && count < len < bestLen
    ensures BestBelow(ws, page, len, count, page + len)
  {
    hide IsSet;
    OneRunBetween(ws, page, len);
  }

  lemma LongerIsNot(ws: seq<bv64>, best: int, bestLen: nat, count: nat, page: nat, len: nat)
    requires |ws| == 8 && BestBelow(ws, best, bestLen, count, page)
    requires FreeRun(ws, page, len) && (len < count || bestLen <= len)
    ensures BestBelow(ws, best, bestLen, count, page + len)
  {
    hide IsSet;
    OneRunBetween(ws, page, len);
  }

  lemma OneRunBetween(ws: seq<bv64>, p: nat, len: nat)
    requires |ws| == 8 && FreeRun(ws, p, len)
    ensures forall q: nat, l: nat | FreeRun(ws, q, l) && p <= q < p + len :: q == p && l == len
  {
    forall q: nat, l: nat | FreeRun(ws, q, l) && p <= q < p + len
      ensures q == p && l == len
    {
      FreeRunUnique(ws, p, len, l);
    }
  }

  /** A run that ends at an allocated page starts below the tail mark. */
  lemma SetPageBelowTail(ws: seq<bv64>, tail: nat, page: int, len: nat)
    requires |ws| == 8 && NoRunStartsFrom(ws, tail)
    requires page > 0 ==> FreeRun(ws, page, len)
    requires page > 0 ==> (page + len < PAGES || IsSet(ws, PAGES - 1))
    ensures page > 0 ==> page < tail
  {
    if page > 0 {
      assert !IsSet(ws, page + len - 1);
    }
  }
}
