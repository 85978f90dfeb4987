/** The checkpointed bump arena of Zend/zend_arena.h (the variant without tracking). */
module Arena {
  import opened Words

  /** ZEND_MM_ALIGNED_SIZE(sizeof(zend_arena)) */
  const HEADER := 24

  /** ZEND_MM_ALIGNED_SIZE in size_t arithmetic. */
  function AlignedSize(size: nat): nat { AlignUp(size, 8) }

  /** A block of memory with its header at base; the bytes up to ptr are handed out. */
  datatype Arena = Arena(base: nat, ptr: nat, end: nat)

  predicate ArenaOk(a: Arena) {
    a.base >= 8 && a.base + HEADER <= a.ptr <= a.end <= SIZE_MAX
  }

  /** The arenas from the current one to the first are separate blocks of memory; they may touch. */
  ghost predicate ChainOk(c: seq<Arena>) {
    && c != [] && (forall i | 0 <= i < |c| :: ArenaOk(c[i]))
    && forall i, j | 0 <= i < j < |c| :: Apart(c[i].base, c[i].end - c[i].base, c[j].base, c[j].end - c[j].base)
  }

  /** A piece of memory handed out. */
  datatype Piece = Piece(at: nat, size: nat)

  predicate InArena(a: Arena, p: Piece) {
    a.base + HEADER <= p.at && p.at + p.size <= a.ptr
  }

  ghost predicate PiecesOk(c: seq<Arena>, pieces: seq<Piece>) {
    && (forall k | 0 <= k < |pieces| :: exists i :: 0 <= i < |c| && InArena(c[i], pieces[k]))
    && forall k, j | 0 <= k < j < |pieces| :: Apart(pieces[k].at, pieces[k].size, pieces[j].at, pieces[j].size)
  }

  /** c is what may have become of c0 by allocations: the current arena of c0 may be fuller and there may be newer ones. */
  ghost predicate Grown(c0: seq<Arena>, c: seq<Arena>) {
    && 1 <= |c0| <= |c|
    && var n := |c| - |c0|;
      c[n + 1..] == c0[1..] && c[n].base == c0[0].base && c[n].end == c0[0].end && c[n].ptr >= c0[0].ptr
  }

  lemma GrownRefl(c: seq<Arena>)
    requires c != []
    ensures Grown(c, c)
  {
  }

  lemma GrownTrans(a: seq<Arena>, b: seq<Arena>, c: seq<Arena>)
    requires Grown(a, b) && Grown(b, c)
    ensures Grown(a, c)
  {
    var n, m := |b| - |a|, |c| - |b|;
    assert c[m + 1..] == b[1..];
    if n > 0 {
      assert c[m + n] == b[n];
    }
    assert c[m + n + 1..] == c[m + 1..][n..] == b[1..][n..] == b[n + 1..];
  }

  // ---- allocation ----------------------------------------------------------------------

  predicate Fits(top: Arena, size0: nat)
    requires top.ptr <= top.end
  {
    AlignedSize(size0) <= top.end - top.ptr
  }

  /** arena_size, in size_t arithmetic. */
  function NewArenaSize(top: Arena, size0: nat): nat
    requires top.base <= top.end
  {
    var need := Wrap(AlignedSize(size0) + HEADER);
    if need > top.end - top.base then need else top.end - top.base
  }

  /** The memory returned lies inside its arena, whose ptr has moved behind it. */
  predicate Served(top: Arena, size0: nat)
    requires ArenaOk(top)
  {
    if Fits(top, size0) then size0 <= AlignedSize(size0)
    else size0 <= AlignedSize(size0) && HEADER + AlignedSize(size0) <= NewArenaSize(top, size0)
  }

  /** A request is served with enough memory exactly when rounding it up and adding a header does not wrap around. */
  lemma ServedUnlessWrapped(top: Arena, size0: nat)
    requires ArenaOk(top) && size0 <= SIZE_MAX
    ensures Served(top, size0) <==> size0 <= SIZE_MAX - 31
    ensures size0 <= SIZE_MAX - 31 ==> AlignedSize(size0) < size0 + 8
  {
    RoundUp(size0);
  }

  lemma RoundUp(size0: nat)
    requires size0 <= SIZE_MAX
    ensures size0 <= SIZE_MAX - 7 ==> size0 <= AlignedSize(size0) < size0 + 8 && AlignedSize(size0) <= SIZE_MAX
    ensures size0 > SIZE_MAX - 7 ==> AlignedSize(size0) == 0
    ensures AlignedSize(size0) % 8 == 0
  {
  }

  /** The mark of a new arena wraps, into its header, exactly for the sizes that are not served there. */
  lemma MarkWraps(top: Arena, size0: nat, block: nat)
    requires ArenaOk(top) && size0 <= SIZE_MAX && !Fits(top, size0) && block >= 8 && block + NewArenaSize(top, size0) <= SIZE_MAX
    ensures size0 <= SIZE_MAX - 7
    ensures var mark := Wrap(block + HEADER + AlignedSize(size0));
      if size0 <= SIZE_MAX - 31 then mark == block + HEADER + AlignedSize(size0) else block <= mark < block + HEADER
  {
    RoundUp(size0);
    hide AlignedSize;
    assert AlignedSize(size0) > 0;
    hide Wrap;
    var end := AlignedSize(size0) + HEADER;
    WrapOnce(end);
    WrapOnce(block + end);
  }

  /** A new arena is at least as large as the current one. */
  lemma NewSizeIs(top: Arena, size0: nat)
    requires ArenaOk(top) && size0 <= SIZE_MAX && !Fits(top, size0)
    ensures NewArenaSize(top, size0) ==
            if size0 <= SIZE_MAX - 31 && AlignedSize(size0) + HEADER > top.end - top.base then AlignedSize(size0) + HEADER else top.end - top.base
  {
    RoundUp(size0);
    hide AlignedSize, Wrap;
    WrapOnce(AlignedSize(size0) + HEADER);
  }

  lemma WrapOnce(x: nat)
    requires x < 2 * (SIZE_MAX + 1)
    ensures Wrap(x) == if x <= SIZE_MAX then x else x - SIZE_MAX - 1
  {
  }

  lemma NotServedNotOk(c: seq<Arena>)
    requires c != [] && !ArenaOk(c[0])
    ensures !ChainOk(c)
  {
  }

  class Arenas {
    /** The current arena first, then along prev. */
    var chain: seq<Arena>
    ghost var pieces: seq<Piece>

    ghost predicate Valid()
      reads this
    {
      ChainOk(chain) && PiecesOk(chain, pieces)
    }

    /** The state then was (c0, p0), and since then there were only allocations and releases to later checkpoints. */
    ghost predicate Since(c0: seq<Arena>, p0: seq<Piece>)
      reads this
    {
      ChainOk(c0) && PiecesOk(c0, p0) && Grown(c0, chain) && p0 <= pieces
    }

    /** zend_arena_create on a block from emalloc. */
    constructor (base: nat, size: nat)
      requires base >= 8 && HEADER <= size && base + size <= SIZE_MAX
      ensures Valid() && chain == [Arena(base, base + HEADER, base + size)] && pieces == []
    {
      chain, pieces := [Arena(base, base + HEADER, base + size)], [];
    }

    /** A block from emalloc overlaps no arena. */
    ghost predicate Separate(base: nat, size: nat)
      reads this
    {
      base >= 8 && base + size <= SIZE_MAX
      && forall i | 0 <= i < |chain| :: Apart(chain[i].base, chain[i].end - chain[i].base, base, size)
    }

    /** zend_arena_alloc; block is what emalloc returns if a new arena is needed.  The piece is as large as asked for
        if and only if the size is at most 2^64 - 32.  The last seven sizes round up to no byte at all, and those
        between leave the mark of the new arena inside its own header. */
    method Alloc(size0: nat, block: nat) returns (ptr: nat)
      requires Valid() && size0 <= SIZE_MAX
      requires !Fits(chain[0], size0) ==> Separate(block, NewArenaSize(chain[0], size0))
      modifies this
      ensures size0 <= SIZE_MAX - 31 || size0 > SIZE_MAX - 7 ==>
                Valid() && Since(old(chain), old(pieces)) && forall c0, p0 | old(Since(c0, p0)) :: Since(c0, p0)
      ensures size0 <= SIZE_MAX - 31 || size0 > SIZE_MAX - 7 <==> Valid()
      ensures pieces == old(pieces) + [Piece(ptr, AlignedSize(size0))]
      ensures Served(old(chain)[0], size0) <==> size0 <= SIZE_MAX - 31
      ensures size0 <= SIZE_MAX - 31 ==> size0 <= AlignedSize(size0) < size0 + 8
      ensures size0 > SIZE_MAX - 7 ==> AlignedSize(size0) == 0 && chain == old(chain)
      ensures SIZE_MAX - 31 < size0 <= SIZE_MAX - 7 ==> |chain| >= 1 && chain[1..] == old(chain) && chain[0].base <= chain[0].ptr < ptr
      ensures Fits(old(chain)[0], size0) <==> |chain| == |old(chain)|
      ensures |chain| > |old(chain)| ==>
                && chain[1..] == old(chain) && chain[0].base == block
                && var current := old(chain)[0].end - old(chain)[0].base;
                  chain[0].end - chain[0].base ==
                    if size0 <= SIZE_MAX - 31 && AlignedSize(size0) + HEADER > current then AlignedSize(size0) + HEADER else current
      ensures ptr == if |chain| == |old(chain)| then old(chain)[0].ptr else block + HEADER
    {
      hide ChainOk, PiecesOk, Grown, NewArenaSize, AlignedSize, Apart;
      TopOk(chain);
      var arena := chain[0];
      ptr := arena.ptr;
      ServedUnlessWrapped(arena, size0);
      RoundUp(size0);
      var size := AlignedSize(size0);
      if size <= arena.end - ptr {
        AllocInside(chain, pieces, size);
        chain := chain[0 := arena.(ptr := ptr + size)];
      } else {
        var arenaSize := NewArenaSize(arena, size0);
        ptr := block + HEADER;
        var mark := Wrap(block + HEADER + size);
        MarkWraps(arena, size0, block);
        NewSizeIs(arena, size0);
        if size0 <= SIZE_MAX - 31 {
          AllocNew(chain, pieces, block, size, arenaSize);
        } else {
          NotServedNotOk([Arena(block, mark, block + arenaSize)] + chain);
        }
        chain := [Arena(block, mark, block + arenaSize)] + chain;
      }
      pieces := pieces + [Piece(ptr, size)];
      if size0 <= SIZE_MAX - 31 || size0 > SIZE_MAX - 7 {
        forall c0, p0 | old(Since(c0, p0)) ensures Since(c0, p0) { GrownTrans(c0, old(chain), chain); }
      }
    }

    /** zend_arena_checkpoint */
    method Checkpoint() returns (checkpoint: nat)
      requires Valid()
      ensures checkpoint == chain[0].ptr && Since(chain, pieces)
    {
      GrownRefl(chain);
      checkpoint := chain[0].ptr;
    }

    /** zend_arena_release: the chain and its pointers are exactly those at the checkpoint, however many arenas were
        added since and wherever they lie, and everything handed out before is still there. */
    method Release(checkpoint: nat, ghost c0: seq<Arena>, ghost p0: seq<Piece>)
      requires Valid() && Since(c0, p0) && checkpoint == c0[0].ptr
      modifies this
      ensures Valid() && chain == c0 && pieces == p0
      ensures forall c1, p1 | ChainOk(c1) && PiecesOk(c1, p1) && Grown(c1, c0) && p1 <= p0 :: Since(c1, p1)
    {
      ghost var n := |chain| - |c0|;
      ghost var all := chain;
      assert chain[0..] == chain;
      var arena := chain[0];
      ghost var k := 0;
      while checkpoint > arena.end || checkpoint <= arena.base
        invariant k <= n && chain == all[k..] && arena == chain[0]
        decreases |chain|
      {
        StopsInTime(all, c0, k);
        chain := chain[1..];
        arena := chain[0];
        k := k + 1;
      }
      GoesOn(all, c0, k);
      assert all[n..] == [all[n]] + all[n + 1..] && c0 == [c0[0]] + c0[1..];
      chain := chain[0 := arena.(ptr := checkpoint)];
      pieces := p0;
    }

    /** zend_arena_contains */
    method Contains(ptr: nat) returns (found: bool)
      requires Valid()
      ensures found <==> exists i :: 0 <= i < |chain| && chain[i].base < ptr <= chain[i].ptr
      ensures (exists k :: 0 <= k < |pieces| && pieces[k].at <= ptr < pieces[k].at + pieces[k].size) ==> found
    {
      var i := 0;
      found := false;
      while i < |chain|
        invariant i <= |chain| && forall j | 0 <= j < i :: !(chain[j].base < ptr <= chain[j].ptr)
      {
        if ptr > chain[i].base && ptr <= chain[i].ptr {
          return true;
        }
        i := i + 1;
      }
    }
  }

  lemma TopOk(c: seq<Arena>)
    requires ChainOk(c)
    ensures c != [] && ArenaOk(c[0])
  {
  }

  /** Pieces stay where they are when arenas come or get fuller, and a piece behind all of its arena's is apart. */
  lemma OneMorePiece(c: seq<Arena>, c': seq<Arena>, pieces: seq<Piece>, p: Piece)
    requires PiecesOk(c, pieces) && |c'| == |c| + 1 && c' != [] && InArena(c'[0], p)
    requires forall i, q | 0 <= i < |c| && InArena(c[i], q) :: InArena(c'[i + 1], q) && Apart(q.at, q.size, p.at, p.size)
    ensures PiecesOk(c', pieces + [p])
  {
    hide InArena, Apart;
    var all := pieces + [p];
    forall k | 0 <= k < |all| ensures exists i :: 0 <= i < |c'| && InArena(c'[i], all[k]) {
      if k < |pieces| {
        var i :| 0 <= i < |c| && InArena(c[i], pieces[k]);
        assert all[k] == pieces[k] && InArena(c'[i + 1], pieces[k]);
      }
    }
    forall k, j | 0 <= k < j < |all| ensures Apart(all[k].at, all[k].size, all[j].at, all[j].size) {
      if j == |pieces| {
        var i :| 0 <= i < |c| && InArena(c[i], pieces[k]);
      }
    }
  }

  lemma AllocInside(c: seq<Arena>, pieces: seq<Piece>, size: nat)
    requires ChainOk(c) && PiecesOk(c, pieces) && size <= c[0].end - c[0].ptr
    ensures var c' := c[0 := c[0].(ptr := c[0].ptr + size)];
      ChainOk(c') && PiecesOk(c', pieces + [Piece(c[0].ptr, size)]) && Grown(c, c')
  {
    var c' := c[0 := c[0].(ptr := c[0].ptr + size)];
    var p := Piece(c[0].ptr, size);
    forall k | 0 <= k < |pieces|
      ensures Apart(pieces[k].at, pieces[k].size, p.at, p.size) && exists i :: 0 <= i < |c'| && InArena(c'[i], pieces[k])
    {
      var i :| 0 <= i < |c| && InArena(c[i], pieces[k]);
      assert InArena(c'[i], pieces[k]);
    }
    assert InArena(c'[0], p);
  }

  lemma AllocNew(c: seq<Arena>, pieces: seq<Piece>, block: nat, size: nat, arenaSize: nat)
    requires ChainOk(c) && PiecesOk(c, pieces) && HEADER + size <= arenaSize && block >= 8 && block + arenaSize <= SIZE_MAX
    requires forall i | 0 <= i < |c| :: Apart(c[i].base, c[i].end - c[i].base, block, arenaSize)
    ensures var c' := [Arena(block, block + HEADER + size, block + arenaSize)] + c;
      ChainOk(c') && PiecesOk(c', pieces + [Piece(block + HEADER, size)]) && Grown(c, c')
  {
    hide PiecesOk, ChainOk, Grown;
    var a := Arena(block, block + HEADER + size, block + arenaSize);
    var c' := [a] + c;
    PushedChain(c, a);
    forall i, q | 0 <= i < |c| && InArena(c[i], q)
      ensures InArena(c'[i + 1], q) && Apart(q.at, q.size, block + HEADER, size)
    {
      InChain(c, i);
    }
    hide InArena, Apart;
    OneMorePiece(c, c', pieces, Piece(block + HEADER, size));
  }

  lemma InChain(c: seq<Arena>, i: nat)
    requires ChainOk(c) && i < |c|
    ensures ArenaOk(c[i])
  {
  }

  lemma PushedChain(c: seq<Arena>, a: Arena)
    requires ChainOk(c) && ArenaOk(a) && forall i | 0 <= i < |c| :: Apart(c[i].base, c[i].end - c[i].base, a.base, a.end - a.base)
    ensures ChainOk([a] + c) && Grown(c, [a] + c)
  {
    hide ArenaOk;
    var c' := [a] + c;
    assert forall i | 0 <= i < |c| :: c'[i + 1] == c[i];
    assert forall i | 0 < i < |c'| :: c'[i] == c[i - 1];
    assert c'[2..] == c[1..];
  }

  /** The loop leaves an arena only if it is newer than the checkpoint. */
  lemma StopsInTime(c: seq<Arena>, c0: seq<Arena>, k: nat)
    requires ChainOk(c) && ChainOk(c0) && Grown(c0, c) && k <= |c| - |c0|
    ensures c0[0].ptr > c[k].end || c0[0].ptr <= c[k].base ==> k < |c| - |c0|
  {
  }

  /** ... and stays in none that is, even if it touches the one of the checkpoint. */
  lemma GoesOn(c: seq<Arena>, c0: seq<Arena>, k: nat)
    requires ChainOk(c) && ChainOk(c0) && Grown(c0, c) && k <= |c| - |c0|
    ensures c[k].base < c0[0].ptr <= c[k].end ==> k == |c| - |c0|
  {
    var n := |c| - |c0|;
    if k < n {
      assert Apart(c[k].base, c[k].end - c[k].base, c[n].base, c[n].end - c[n].base);
    }
  }
}
