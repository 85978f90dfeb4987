/** Whole runs of the allocator: a client that keeps a book of what it stored always finds it again. */
module HeapRun {
  import opened Bins
  import opened HeapState
  import opened Words
  import opened HeapSteps
  import opened MemoryBytes
  import opened Limits
  import HeapOps
  import HeapGc
  import ZendHeap

  /** What a client can do.  A pointer that is none of its blocks, or an index outside, is ignored. */
  datatype Op =
    | Allocate(size: nat)
    | Release(ptr: nat)
    | Resize(ptr: nat, size: nat)
    | Store(ptr: nat, i: nat, value: byte)
    | Collect
    | Limit(bytes: nat)

  type Book = map<nat, seq<byte>>

  /** What became of an operation.  The run goes on when it was carried out or a request was refused with NULL; it ends
      with a fatal error, or when realloc has emptied a huge block. */
  datatype Progress = On | Refused | Ended(why: Fatal) | BlockEmptied(ptr: nat, size: nat)
  {
    predicate GoesOn() { On? || Refused? }
  }

  /** The op asks for memory. */
  predicate Asks(op: Op) { op.Allocate? || op.Resize? }

  predicate AsksNoHuge(op: Op) { Asks(op) ==> op.size <= MAX_LARGE_SIZE }

  /** The op can be carried out on the blocks in the book. */
  predicate Applies(book: Book, op: Op) {
    match op
    case Allocate(size) => size <= SIZE_MAX
    case Release(ptr) => ptr in book
    case Resize(ptr, size) => ptr in book && size <= SIZE_MAX
    case Store(ptr, i, _) => ptr in book && i < |book[ptr]|
    case Collect => true
    case Limit(_) => true
  }

  /** A new entry at a has room for size bytes, as much as the class of the request gives. */
  predicate Entered(book: Book, book': Book, a: nat, size: nat) {
    a !in book && a in book' && book' - {a} == book && |book'[a]| == Usable(BlockFor(size)) >= size
  }

  /** What an op does to the book. */
  ghost predicate After(book: Book, op: Op, book': Book) {
    if !Applies(book, op) then book' == book
    else
      match op
      case Allocate(size) => exists a: nat :: Entered(book, book', a, size)
      case Release(ptr) => book' == book - {ptr}
      case Resize(ptr, size) => exists to: nat :: Rebooked(book, book', ptr, to, size)
      case Store(ptr, i, value) => book' == book[ptr := book[ptr][i := value]]
      case Collect => book' == book
      case Limit(_) => book' == book
  }

  /** A refused request changes nothing. */
  ghost predicate Step(book: Book, op: Op, book': Book, refused: bool) {
    if refused then Asks(op) && Applies(book, op) && book' == book else After(book, op, book')
  }

  /** books[n] is the book before op n. */
  ghost predicate Follows(books: seq<Book>, ops: seq<Op>, refused: set<nat>) {
    |books| == |ops| + 1 && forall n | 0 <= n < |ops| :: Step(books[n], ops[n], books[n + 1], n in refused)
  }

  /** The OS grants what the op asks for at worst; realloc has used up one answer before it looks for another place. */
  ghost predicate Granted(heap: ZendHeap.Heap, op: Op)
    reads heap
  {
    match op
    case Allocate(size) => heap.GrantsAll(size)
    case Resize(ptr, size) =>
      if ptr in heap.live && heap.live[ptr].Huge? && size > MAX_LARGE_SIZE then
        heap.GrantsLater(size)
      else heap.GrantsAll(size)
    case _ => true
  }

  /** The op asks for memory that is not to be had, for the reason given. */
  ghost predicate Stops(heap: ZendHeap.Heap, op: Op, why: Fatal, limits: bool)
    reads heap
  {
    Asks(op) && heap.StoppedFor(Exit(why), op.size, limits) && (why.Overflow? <==> Wraps(op.size))
  }

  /** NULL is returned because of the limit, or because the size cannot be rounded up. */
  ghost predicate RefusedFor(heap: ZendHeap.Heap, op: Op, limits: bool)
    reads heap
  {
    Asks(op) && heap.fallible && heap.StoppedFor(Null, op.size, limits)
  }

  /** The limit has room for what the op asks for at worst, and the OS grants it. */
  ghost predicate Sure(heap: ZendHeap.Heap, op: Op)
    reads heap
  {
    match op
    case Allocate(size) => |heap.free| == BINS && !Wraps(size) && heap.Fits(size)
    case Resize(ptr, size) => heap.Surely(ptr, size)
    case _ => true
  }

  /** What an op can add to the memory mapped. */
  function Cost(op: Op): nat { if Asks(op) then Need(op.size) + CHUNK_SIZE else 0 }

  function Costs(ops: seq<Op>): nat { if ops == [] then 0 else Costs(ops[..|ops| - 1]) + Cost(ops[|ops| - 1]) }

  /** No huge block is larger than m. */
  ghost predicate UpTo(clients: map<nat, Block>, m: nat) {
    forall a | a in clients && clients[a].Huge? :: clients[a].bytes <= m
  }

  predicate AsksUpTo(op: Op, m: nat) { Asks(op) ==> AlignedSize(op.size) <= m }

  /** The OS has enough answers for the run, for regions of m bytes apart from each other and from everything mapped;
      no huge block is larger, nor asked for. */
  ghost predicate Supplied(heap: ZendHeap.Heap, ops: seq<Op>, m: nat)
    reads heap
  {
    && m > 0 && Spaced(m, heap.os, heap.headers.Keys, heap.huge, []) && UpTo(Clients(heap.State()), m)
    && |heap.os| >= 5 * |ops| && forall op | op in ops :: AsksUpTo(op, m)
  }

  /** What became of an operation, and why: a request is refused, or ends the run, only if nothing is at hand and the
      limit, the OS or the size stands in the way; and what it takes is bounded. */
  twostate predicate Answered(heap: ZendHeap.Heap, op: Op, p: Progress)
    reads heap
  {
    && heap.fallible == old(heap.fallible) && heap.reach == old(heap.reach)
    && (heap.limit == old(heap.limit) || (op.Limit? && heap.limit == heap.Cut(op.bytes)))
    && (p.Refused? ==> RefusedFor(heap, op, old(heap.LimitsOk())))
    && (p.Ended? ==> Stops(heap, op, p.why, old(heap.LimitsOk())))
    && (p == Ended(OutOfMemory) ==> !old(Granted(heap, op)))
    && (|old(heap.free)| == BINS && Asks(op) && AtHand(old(heap.State()), op.size) ==> !p.Refused? && !p.Ended?)
    && (old(Sure(heap, op)) ==> p.On?)
    && (p.GoesOn() ==> heap.realSize <= old(heap.realSize) + Cost(op) && |heap.os| + 5 >= |old(heap.os)|)
    && (p.GoesOn() ==> old(heap.peak) <= heap.peak && old(heap.realPeak) <= heap.realPeak)
    && (p.GoesOn() && old(heap.LimitsOk()) && AsksNoHuge(op) ==> heap.LimitsOk())
    && (p.GoesOn() && old(UpTo(Clients(heap.State()), heap.reach)) && AsksUpTo(op, heap.reach) ==>
          UpTo(Clients(heap.State()), heap.reach))
  }

  /** Below the limit there is room for the whole run, and no size is too large to be rounded up. */
  predicate Affordable(heap: ZendHeap.Heap, ops: seq<Op>)
    reads heap
  {
    var total := heap.realSize + Costs(ops);
    && total <= heap.limit
    && forall op | op in ops :: (op.Limit? ==> total <= heap.Cut(op.bytes)) && (Asks(op) ==> !Wraps(op.size))
  }

  /** A block as requests make it: its length tells a small one from the others. */
  predicate WellMade(b: Block) {
    match b
    case Small(bin) => bin >= 1
    case Large(n) => n >= 1
    case Huge(n) => n > MAX_SMALL_SIZE
  }

  /** How long a block of n bytes is after realloc: a slot of the right bin stays, and all else is as for a new request. */
  ghost function ResizedLength(n: nat, size: nat): nat {
    if exists bin: Bin :: bin >= 1 && n == BinSize(bin) && BinSize(bin - 1) <= Raised(size) <= n then n else Usable(BlockFor(size))
  }

  lemma ResizedLengthIs(b: Block, size: nat)
    requires WellMade(b) && !Wraps(size)
    ensures Usable(NewBlock(b, size)) == ResizedLength(Usable(b), size) && WellMade(NewBlock(b, size))
  {
    hide BinSize, BlockFor;
    BlockForHolds(size);
    MadeWell(size);
    if b.Small? {
      forall bin: Bin | BinSize(bin) == BinSize(b.bin) ensures bin == b.bin { BinsDiffer(bin, b.bin); }
      SmallIsSmall(b.bin);
    } else {
      forall bin: Bin ensures BinSize(bin) < Usable(b) { SmallIsSmall(bin); }
    }
  }

  lemma BinsDiffer(b: Bin, c: Bin)
    requires BinSize(b) == BinSize(c)
    ensures b == c
  {
    hide BinSize;
    if b < c { BinFacts(c); BinsGrow(b, c - 1); }
    if c < b { BinFacts(b); BinsGrow(c, b - 1); }
  }

  lemma SmallIsSmall(b: Bin)
    ensures BinSize(b) <= MAX_SMALL_SIZE
  {
    BinsGrow(b, 29);
  }

  lemma MadeWell(size: nat)
    requires Holds(BlockFor(size), size)
    ensures WellMade(BlockFor(size))
  {
    hide AlignedSize, BlockFor;
  }

  /** The book has the contents of exactly the blocks the client holds. */
  ghost predicate Faithful(clients: map<nat, Block>, book: Book, m: Memory) {
    && book.Keys == clients.Keys
    && (forall a | a in book :: |book[a]| == Usable(clients[a]) && WellMade(clients[a]))
    && forall a, i: nat | a in book && i < |book[a]| :: ByteAt(m, a, i) == book[a][i]
  }

  ghost predicate Agrees(heap: ZendHeap.Heap, book: Book)
    reads heap, heap.Repr
  {
    heap.Valid() && heap.pending == [] && heap.PercentOk() && Faithful(Clients(heap.State()), book, heap.mem)
  }

  /** Bytes [from, to) of the block at a. */
  function Bytes(m: Memory, a: nat, from: nat, to: nat): (r: seq<byte>)
    requires from <= to
    ensures |r| == to - from && forall i | 0 <= i < |r| :: r[i] == ByteAt(m, a, from + i)
  {
    seq(to - from, i requires 0 <= i => ByteAt(m, a, from + i))
  }

  lemma FaithfulAfter(cs: map<nat, Block>, book: Book, m: Memory, cs': map<nat, Block>, m': Memory, a: nat, contents: seq<byte>)
    requires Faithful(cs, book, m) && BlocksSame(cs - {a}, m, m') && a in cs' && cs' - {a} == cs - {a}
    requires WellMade(cs'[a]) && |contents| == Usable(cs'[a]) && forall i: nat | i < |contents| :: ByteAt(m', a, i) == contents[i]
    ensures Faithful(cs', book[a := contents], m')
  {
    hide Usable;
    var b := book[a := contents];
    forall x | x in b && x != a
      ensures x in cs' && cs'[x] == cs[x] && |b[x]| == Usable(cs'[x]) && WellMade(cs'[x])
      ensures forall i: nat | i < |b[x]| :: ByteAt(m', x, i) == b[x][i]
    {
      assert x in cs - {a} && (cs - {a})[x] == cs[x] && (cs' - {a})[x] == cs'[x];
    }
    assert b.Keys == cs'.Keys by {
      forall x | x in cs' ensures x in b { if x != a { assert x in cs' - {a}; } }
    }
  }

  lemma FaithfulWithout(cs: map<nat, Block>, book: Book, m: Memory, m': Memory, a: nat)
    requires Faithful(cs, book, m) && BlocksSame(cs - {a}, m, m')
    ensures Faithful(cs - {a}, book - {a}, m')
  {
    hide Usable;
    forall x | x in book - {a}
      ensures forall i: nat | i < |book[x]| :: ByteAt(m', x, i) == book[x][i]
    {
      assert x in cs - {a} && (cs - {a})[x] == cs[x];
    }
  }

  lemma FaithfulStill(cs: map<nat, Block>, book: Book, m: Memory, m': Memory)
    requires Faithful(cs, book, m) && BlocksSame(cs, m, m')
    ensures Faithful(cs, book, m')
  {
    hide Usable;
  }

  method DoAllocate(heap: ZendHeap.Heap, book0: Book, size: nat) returns (p: Progress, book: Book)
    requires Agrees(heap, book0) && size <= SIZE_MAX
    modifies heap, heap.Repr
    ensures !p.BlockEmptied? && Answered(heap, Allocate(size), p)
    ensures p.GoesOn() ==> Agrees(heap, book) && heap.Repr >= old(heap.Repr) && fresh(heap.Repr - old(heap.Repr))
    ensures if p.Refused? then book == book0 else p.On? ==> After(book0, Allocate(size), book)
  {
    hide ZendHeap.Heap.Valid, Faithful, Clients, BlocksSame, BlockFor, Holds, AtHand, ZendHeap.Heap.GrantsAll;
    hide ZendHeap.Heap.StoppedFor, ZendHeap.Heap.Fits, Stops, RefusedFor, UpTo, AlignedSize;
    ghost var h, m := heap.State(), heap.mem;
    var r := heap.AllocHeap(size);
    p, book := if r.Exit? then Ended(r.why) else if r.Null? then Refused else On, book0;
    if r.Exit? {
      ExitStops(heap, Allocate(size), r, old(heap.LimitsOk()));
    } else {
      CoreOf(heap);
      ClientsSame(h, m, heap.mem, 0);
    }
    if r.Got? {
      var n := Usable(BlockFor(size));
      book := book0[r.ptr := Bytes(heap.mem, r.ptr, 0, n)];
      ClientsSame(h, m, heap.mem, r.ptr);
      assert Clients(h)[r.ptr := BlockFor(size)] - {r.ptr} == Clients(h) - {r.ptr};
      NotInBook(Clients(h), book0, m, r.ptr);
      MadeWell(size);
      FaithfulAfter(Clients(h), book0, m, Clients(heap.State()), heap.mem, r.ptr, Bytes(heap.mem, r.ptr, 0, n));
      HoldsUsable(size);
      assert book - {r.ptr} == book0;
      assert Entered(book0, book, r.ptr, size);
      HugeFor(size);
      UpToMore(Clients(h), Clients(heap.State()), r.ptr, BlockFor(size), size, heap.reach);
    } else if r.Null? {
      NullRefused(heap, Allocate(size), r, old(heap.LimitsOk()));
      FaithfulStill(Clients(h), book0, m, heap.mem);
    }
  }

  lemma NullRefused(heap: ZendHeap.Heap, op: Op, r: Outcome, limits: bool)
    requires Asks(op) && heap.StoppedFor(r, op.size, limits) && r.Null?
    ensures RefusedFor(heap, op, limits)
  {
  }

  lemma UpToMore(cs: map<nat, Block>, cs': map<nat, Block>, a: nat, b: Block, size: nat, m: nat)
    requires a in cs' && cs' - {a} == cs - {a} && cs'[a] == b && (b.Huge? ==> b.bytes == AlignedSize(size))
    ensures UpTo(cs, m) && AlignedSize(size) <= m ==> UpTo(cs', m)
  {
    hide AlignedSize;
    forall x | x in cs' && x != a ensures x in cs && cs[x] == cs'[x] {
      assert x in cs' - {a} && (cs' - {a})[x] == cs'[x] && (cs - {a})[x] == cs[x];
    }
  }

  lemma ExitStops(heap: ZendHeap.Heap, op: Op, r: Outcome, limits: bool)
    requires Asks(op) && heap.StoppedFor(r, op.size, limits) && r.Exit? && (Wraps(op.size) ==> r == Exit(Overflow))
    ensures Stops(heap, op, r.why, limits)
  {
  }

  lemma HoldsUsable(size: nat)
    requires Holds(BlockFor(size), size)
    ensures Usable(BlockFor(size)) >= size
  {
  }

  lemma CoreOf(heap: ZendHeap.Heap)
    requires heap.Valid()
    ensures Core(heap.State()) && heap !in heap.Repr
  {
    hide Core, Quiet;
  }

  lemma NotInBook(cs: map<nat, Block>, book: Book, m: Memory, a: nat)
    requires Faithful(cs, book, m)
    ensures a in book <==> a in cs
    ensures a in cs ==> |book[a]| == Usable(cs[a]) && WellMade(cs[a])
  {
  }

  method DoRelease(heap: ZendHeap.Heap, book0: Book, ptr: nat) returns (book: Book)
    requires Agrees(heap, book0) && ptr in book0
    modifies heap, heap.Repr
    ensures Agrees(heap, book) && book == book0 - {ptr} && heap.Repr == old(heap.Repr) && Answered(heap, Release(ptr), On)
  {
    hide ZendHeap.Heap.Valid, Faithful, Clients, BlocksSame;
    ghost var h, m := heap.State(), heap.mem;
    NotInBook(Clients(h), book0, m, ptr);
    CoreOf(heap);
    heap.FreeHeap(ptr);
    book := book0 - {ptr};
    ClientsSame(heap.State(), m, heap.mem, 0);
    FaithfulWithout(Clients(h), book0, m, heap.mem, ptr);
  }

  function Rebook(book: Book, ptr: nat, to: nat, contents: seq<byte>): Book {
    (book - {ptr})[to := contents]
  }

  /** The entry at ptr is now at to, is as long as the size calls for and starts with what it held; the others are as they were. */
  ghost predicate Rebooked(book0: Book, book: Book, ptr: nat, to: nat, size: nat) {
    && ptr in book0 && to in book && (to in book0 ==> to == ptr) && book - {to} == book0 - {ptr} - {to}
    && |book[to]| == ResizedLength(|book0[ptr]|, size) >= size && book0[ptr][..Min(|book0[ptr]|, size)] <= book[to]
  }

  lemma Booked(heap: ZendHeap.Heap, book: Book, ptr: nat)
    requires Agrees(heap, book) && ptr in book
    ensures ptr in Clients(heap.State()) && ptr in heap.live && ptr != 0 && |book[ptr]| == Usable(heap.live[ptr])
  {
    hide ZendHeap.Heap.Valid, Clients, Usable;
    CoreOf(heap);
    ClientsLive(heap.State());
    ZeroNoClient(heap.State());
  }

  method DoResize(heap: ZendHeap.Heap, book0: Book, ptr: nat, size: nat) returns (p: Progress, book: Book)
    requires Agrees(heap, book0) && ptr in book0 && size <= SIZE_MAX
    modifies heap, heap.Repr
    ensures Answered(heap, Resize(ptr, size), p)
    ensures p.GoesOn() ==> Agrees(heap, book) && heap.Repr >= old(heap.Repr) && fresh(heap.Repr - old(heap.Repr))
    ensures if p.Refused? then book == book0 else p.On? ==> After(book0, Resize(ptr, size), book)
    ensures p.BlockEmptied? ==> p == BlockEmptied(ptr, size) && Wraps(size) && Gone(heap, ptr)
  {
    hide AtHand, ZendHeap.Heap.StoppedFor, ZendHeap.Heap.Fits, Stops, ZendHeap.Heap.InPlace, GrantedAmong, BothGranted;
    hide ZendHeap.Heap.Valid, Faithful, Clients, BlocksSame, Usable, SameBytes, Moved, Reallocated, Rebooked, Rebook;
    hide BlockFor, Holds, Kept;
    ghost var h, m := heap.State(), heap.mem;
    Booked(heap, book0, ptr);
    SizeCopyFits(heap.live[ptr], size);
    ghost var n, kept := Min(|book0[ptr]|, size), Kept(heap.live[ptr], size, size);
    var r := heap.ReallocHeap(ptr, size, false, size);
    p, book := if r.Exit? then Ended(r.why) else if r.Null? then Refused else On, book0;
    if r.Exit? {
      ExitStops(heap, Resize(ptr, size), r, old(heap.LimitsOk()));
    } else if r.Got? && size > SIZE_MAX - REAL_PAGE_SIZE + 1 {
      p := BlockEmptied(ptr, size);
      ClientsLive(heap.State());
    } else if r.Got? {
      book := NoteMove(heap, book0, ptr, r, size, Clients(h), m);
      MovedUpTo(Clients(h), m, Clients(heap.State()), heap.mem, r, ptr, size, n, heap.reach);
    } else if r.Null? {
      NullRefused(heap, Resize(ptr, size), r, old(heap.LimitsOk()));
      NotMoved(Clients(h), m, Clients(heap.State()), heap.mem, r, ptr, size, kept);
      FaithfulStill(Clients(h), book0, m, heap.mem);
    }
  }

  /** The block at ptr is still booked as live, with no byte. */
  ghost predicate Gone(heap: ZendHeap.Heap, ptr: nat)
    reads heap
  {
    Has(heap.live, ptr, Huge(0))
  }

  /** What realloc kept is entered under the new address; the rest of the new block is read from memory. */
  method NoteMove(heap: ZendHeap.Heap, book0: Book, ptr: nat, r: Outcome, size: nat, ghost cs: map<nat, Block>, ghost m: Memory)
    returns (book: Book)
    requires heap.Valid() && Faithful(cs, book0, m) && ptr in book0 && r.Got? && !Wraps(size)
    requires Reallocated(cs, m, Clients(heap.State()), heap.mem, r, ptr, size, Min(|book0[ptr]|, size))
    ensures Faithful(Clients(heap.State()), book, heap.mem) && Rebooked(book0, book, ptr, r.ptr, size)
  {
    hide ZendHeap.Heap.Valid, Faithful, Clients, BlocksSame, Usable, SameBytes, Moved, Reallocated, Rebooked, Rebook;
    var n := Min(|book0[ptr]|, size);
    MovedTo(cs, m, Clients(heap.State()), heap.mem, r, ptr, size, n);
    ClientsLive(heap.State());
    var usable := heap.Size(r.ptr);
    var contents := book0[ptr][..n] + Bytes(heap.mem, r.ptr, n, usable);
    ResizedBook(cs, book0, m, Clients(heap.State()), heap.mem, ptr, r.ptr, size, n, contents);
    book := Rebook(book0, ptr, r.ptr, contents);
  }

  lemma MovedTo(cs: map<nat, Block>, m: Memory, cs': map<nat, Block>, m': Memory, r: Outcome, ptr: nat, size: nat, n: nat)
    requires Reallocated(cs, m, cs', m', r, ptr, size, n) && r.Got? && n <= size
    ensures r.ptr in cs' && n <= Usable(cs'[r.ptr]) && BlocksSame(cs - {ptr}, m, m')
    ensures Moved(cs, cs', ptr, r.ptr, size) && SameBytes(m, ptr, m', r.ptr, n)
  {
    hide BlocksSame, SameBytes, Usable;
  }

  lemma MovedUpTo(cs: map<nat, Block>, m: Memory, cs': map<nat, Block>, m': Memory, r: Outcome, ptr: nat, size: nat, n: nat, reach: nat)
    requires Reallocated(cs, m, cs', m', r, ptr, size, n) && r.Got?
    ensures UpTo(cs, reach) && AlignedSize(size) <= reach ==> UpTo(cs', reach)
  {
    hide BlocksSame, SameBytes, Usable, AlignedSize;
  }

  lemma NotMoved(cs: map<nat, Block>, m: Memory, cs': map<nat, Block>, m': Memory, r: Outcome, ptr: nat, size: nat, n: nat)
    requires Reallocated(cs, m, cs', m', r, ptr, size, n) && r.Null?
    ensures cs' == cs && BlocksSame(cs, m, m')
  {
    hide BlocksSame, SameBytes, Usable;
  }

  lemma ResizedBook(cs: map<nat, Block>, book: Book, m: Memory, cs': map<nat, Block>, m': Memory,
                    ptr: nat, to: nat, size: nat, n: nat, contents: seq<byte>)
    requires Faithful(cs, book, m) && ptr in book && BlocksSame(cs - {ptr}, m, m') && Moved(cs, cs', ptr, to, size) && !Wraps(size)
    requires SameBytes(m, ptr, m', to, n) && n == Min(|book[ptr]|, size)
    requires n <= Usable(cs'[to]) && contents == book[ptr][..n] + Bytes(m', to, n, Usable(cs'[to]))
    ensures Faithful(cs', Rebook(book, ptr, to, contents), m')
    ensures Rebooked(book, Rebook(book, ptr, to, contents), ptr, to, size)
  {
    hide Usable, ResizedLength, WellMade, NewBlock;
    ResizedLengthIs(cs[ptr], size);
    FaithfulWithout(cs, book, m, m', ptr);
    forall i: nat | i < |contents| ensures ByteAt(m', to, i) == contents[i] {
      if i < n {
        assert ByteAt(m', to, i) == ByteAt(m, ptr, i) == book[ptr][i];
      }
    }
    assert cs' - {to} == (cs - {ptr}) - {to};
    SameMemory((cs - {ptr}) - {to}, m');
    FaithfulAfter(cs - {ptr}, book - {ptr}, m', cs', m', to, contents);
  }

  lemma SameMemory(cs: map<nat, Block>, m: Memory)
    ensures BlocksSame(cs, m, m)
  {
  }

  method DoStore(heap: ZendHeap.Heap, book0: Book, ptr: nat, i: nat, value: byte) returns (book: Book)
    requires Agrees(heap, book0) && ptr in book0 && i < |book0[ptr]|
    modifies heap
    ensures Agrees(heap, book) && book == book0[ptr := book0[ptr][i := value]] && heap.Repr == old(heap.Repr)
    ensures Answered(heap, Store(ptr, i, value), On)
  {
    hide ZendHeap.Heap.Valid, Faithful, Clients, BlocksSame, Usable, UpTo;
    ghost var h, m := heap.State(), heap.mem;
    NotInBook(Clients(h), book0, m, ptr);
    ClientsLive(h);
    heap.StoreByte(ptr, i, value);
    book := book0[ptr := book0[ptr][i := value]];
    StoredBook(h, book0, m, heap.mem, ptr, i, value);
  }

  lemma StoredBook(h: HeapState.Heap, book: Book, m: Memory, m': Memory, ptr: nat, i: nat, value: byte)
    requires Faithful(Clients(h), book, m) && ptr in book && i < |book[ptr]| && BlocksSame(h.live - {ptr}, m, m')
    requires ByteAt(m', ptr, i) == value && SameOutside(m, m', ptr + i, 1)
    ensures Faithful(Clients(h), book[ptr := book[ptr][i := value]], m')
  {
    hide Usable, IsNode;
    ClientsLive(h);
    var cs := Clients(h);
    forall a, k: nat | a in cs - {ptr} && k < Usable((cs - {ptr})[a]) ensures ByteAt(m', a, k) == ByteAt(m, a, k) {
      assert a in h.live - {ptr} && (h.live - {ptr})[a] == cs[a];
    }
    FaithfulAfter(cs, book, m, cs, m', ptr, book[ptr][i := value]);
  }

  method DoCollect(heap: ZendHeap.Heap, book: Book) returns (bytes: nat)
    requires Agrees(heap, book)
    modifies heap, heap.Repr
    ensures Agrees(heap, book) && heap.Repr == old(heap.Repr) && Answered(heap, Collect, On)
  {
    hide ZendHeap.Heap.Valid, Faithful, Clients, BlocksSame;
    ghost var h, m := heap.State(), heap.mem;
    CoreOf(heap);
    bytes := GcOnly(heap);
    FaithfulStill(Clients(h), book, m, heap.mem);
  }

  method GcOnly(heap: ZendHeap.Heap) returns (bytes: nat)
    requires heap.Valid()
    modifies heap, heap.Repr
    ensures heap.Valid() && heap.Repr == old(heap.Repr) && heap.pending == old(heap.pending)
    ensures BlocksSame(old(Clients(heap.State())), old(heap.mem), heap.mem)
    ensures heap.hardLimitPercent == old(heap.hardLimitPercent) && Clients(heap.State()) == old(Clients(heap.State()))
    ensures heap.fallible == old(heap.fallible) && heap.reach == old(heap.reach) && heap.limit == old(heap.limit) && heap.os == old(heap.os)
    ensures heap.realSize <= old(heap.realSize) && heap.hardLimit == old(heap.hardLimit)
    ensures heap.peak == old(heap.peak) && heap.realPeak == old(heap.realPeak)
  {
    hide ZendHeap.Heap.Steady, Clients, HeapGc.Collected, HeapGc.CountPages, SumLive, Core, ZendHeap.Heap.Linked;
    hide BlocksSame;
    ghost var h, m := heap.State(), heap.mem;
    heap.SteadyFacts();
    bytes := heap.Gc();
    GcClients(h, heap.State());
    ClientsSame(h, m, heap.mem, 0);
    assert heap.SizeOk();
  }

  lemma GcClients(h: HeapState.Heap, g: HeapState.Heap)
    requires |h.free| == BINS && HeapGc.Collected(h, g)
    ensures Clients(g) == Clients(h) && g.live == h.live
  {
    hide Clients, HeapGc.Collected;
    GcKeeps(h, g);
    KeptClients(h, g);
    KeptLive(h, g);
  }

  method DoLimit(heap: ZendHeap.Heap, book: Book, bytes: nat) returns (ok: bool)
    requires Agrees(heap, book)
    modifies heap
    ensures Agrees(heap, book) && heap.Repr == old(heap.Repr) && Answered(heap, Limit(bytes), On)
  {
    hide ZendHeap.Heap.Valid, Faithful, UpTo, Clients, HardLimitFor, Suffix;
    ok := heap.SetMemoryLimit(bytes);
    SameListClients(old(heap.State()), heap.State());
  }

  lemma SameListClients(h: HeapState.Heap, g: HeapState.Heap)
    requires g.live == h.live && g.huge == h.huge
    ensures Clients(g) == Clients(h)
  {
    assert forall a :: IsNode(g, a) <==> IsNode(h, a);
  }

  /** Any run of operations, from any heap and book that agree (say, a new heap and an empty book).  Unless the run
      ends early, the books follow the operations, and memory holds what the last one says: whatever has been stored
      and not been freed or overwritten since is read back.  If nobody asks for a huge block, the limits are kept.
      A run ends early, after operations that the books follow, at one that asks for memory which is not to be had, or
      with a size that cannot be rounded up and has emptied a huge block.  If the OS has enough answers it never ends
      for want of memory; and if the limit has room as well, everything is carried out. */
  method Run(heap: ZendHeap.Heap, book0: Book, ops: seq<Op>)
    returns (p: Progress, book: Book, ghost books: seq<Book>, ghost refused: set<nat>)
    requires Agrees(heap, book0)
    modifies heap, heap.Repr
    ensures |books| > 0 && books[0] == book0 && heap.fallible == old(heap.fallible) && (refused != {} ==> heap.fallible)
    ensures p.On? ==> Agrees(heap, book) && Follows(books, ops, refused) && books[|ops|] == book
    ensures p.On? && old(heap.LimitsOk()) && (forall op | op in ops :: AsksNoHuge(op)) ==> heap.LimitsOk()
    ensures !p.On? ==> |books| <= |ops| && Follows(books, ops[..|books| - 1], refused)
    ensures p.Ended? ==>
              var n := |books| - 1;
              Stops(heap, ops[n], p.why, old(heap.LimitsOk()) && forall op | op in ops[..n] :: AsksNoHuge(op))
    ensures p.BlockEmptied? ==> ops[|books| - 1] == Resize(p.ptr, p.size) && Wraps(p.size) && Gone(heap, p.ptr)
    ensures !p.Refused? && (old(exists m: nat :: Supplied(heap, ops, m)) ==> p != Ended(OutOfMemory))
    ensures old(Affordable(heap, ops) && exists m: nat :: Supplied(heap, ops, m)) ==> p.On? && refused == {}
  {
    hide Agrees, After, AsksNoHuge, Stops, Granted, AtHand, Sure, Cost, Costs, AsksUpTo, UpTo, Need, Spaced, Applies;
    p, book, books, refused := On, book0, [book0], {};
    ghost var m := Known(heap, book0, ops);
    ghost var total := heap.realSize + Costs(ops);
    NoCosts();
    var n := 0;
    while n < |ops|
      invariant n <= |ops| && p.On? && Agrees(heap, book) && heap.fallible == old(heap.fallible) && heap.reach == m
      invariant heap.Repr >= old(heap.Repr) && fresh(heap.Repr - old(heap.Repr))
      invariant Follows(books, ops[..n], refused) && books[0] == book0 && books[n] == book
      invariant (refused != {} ==> heap.fallible) && forall k | k in refused :: k < n
      invariant old(heap.LimitsOk()) && (forall op | op in ops[..n] :: AsksNoHuge(op)) ==> heap.LimitsOk()
      invariant m > 0 ==> UpTo(Clients(heap.State()), m) && |heap.os| >= 5 * (|ops| - n)
      invariant heap.realSize <= old(heap.realSize) + Costs(ops[..n])
      invariant old(Affordable(heap, ops)) ==> total <= heap.limit && (m > 0 ==> refused == {})
    {
      label before:
      CostsMore(ops, n);
      if m > 0 {
        KnownGrants(heap, book, ops[n], m);
        if old(Affordable(heap, ops)) { SureNow(heap, book, ops[n], m); }
      }
      p, book := Do(heap, book, ops[n]);
      if !p.GoesOn() {
        if p.Ended? { WhyStopped(heap, ops[n], p.why, old@before(heap.LimitsOk())); }
        if p.Ended? {
          StopsWeaker(heap, ops[n], p.why, old@before(heap.LimitsOk()), old(heap.LimitsOk()) && forall op | op in ops[..n] :: AsksNoHuge(op));
        }
        return;
      }
      FollowsMore(books, ops[..n], refused, ops[n], book, p.Refused?);
      if p.Refused? {
        refused := refused + {n};
        p := On;
      }
      books := books + [book];
      assert ops[..n + 1] == ops[..n] + [ops[n]];
      n := n + 1;
    }
    assert ops[..n] == ops;
  }

  lemma FollowsMore(books: seq<Book>, ops: seq<Op>, refused: set<nat>, op: Op, book: Book, no: bool)
    requires Follows(books, ops, refused) && forall k | k in refused :: k < |ops|
    requires Step(books[|ops|], op, book, no)
    ensures Follows(books + [book], ops + [op], if no then refused + {|ops|} else refused)
  {
    hide Step;
    var bs, os, r := books + [book], ops + [op], if no then refused + {|ops|} else refused;
    forall n | 0 <= n < |os| ensures Step(bs[n], os[n], bs[n + 1], n in r) {
      if n < |ops| {
        assert bs[n] == books[n] && bs[n + 1] == books[n + 1] && os[n] == ops[n] && (n in r <==> n in refused);
      } else {
        assert bs[n] == books[n] && bs[n + 1] == book && os[n] == op && (n in r <==> no);
      }
    }
  }

  lemma StopsWeaker(heap: ZendHeap.Heap, op: Op, why: Fatal, limits: bool, fewer: bool)
    requires Stops(heap, op, why, limits) && (fewer ==> limits)
    ensures Stops(heap, op, why, fewer)
  {
  }

  /** One operation; one that does not apply is ignored. */
  method Do(heap: ZendHeap.Heap, book0: Book, op: Op) returns (p: Progress, book: Book)
    requires Agrees(heap, book0)
    modifies heap, heap.Repr
    ensures |old(heap.free)| == BINS && Answered(heap, op, p)
    ensures p.GoesOn() ==> Agrees(heap, book) && heap.Repr >= old(heap.Repr) && fresh(heap.Repr - old(heap.Repr))
    ensures if p.Refused? then Applies(book0, op) && book == book0 else p.On? ==> After(book0, op, book)
    ensures p.BlockEmptied? ==> op == Resize(p.ptr, p.size) && Wraps(p.size) && Gone(heap, p.ptr)
  {
    hide Agrees, AtHand, Granted, Sure, Stops, RefusedFor, UpTo, Need;
    p, book := On, book0;
    AgreesFree(heap, book0);
    if Applies(book0, op) {
      match op {
        case Allocate(size) =>
          p, book := DoAllocate(heap, book0, size);
        case Release(ptr) =>
          book := DoRelease(heap, book0, ptr);
        case Resize(ptr, size) =>
          p, book := DoResize(heap, book0, ptr, size);
        case Store(ptr, i, value) =>
          book := DoStore(heap, book0, ptr, i, value);
        case Collect =>
          var bytes := DoCollect(heap, book0);
        case Limit(bytes) =>
          var ok := DoLimit(heap, book0, bytes);
      }
    }
  }

  // ---- enough for a whole run --------------------------------------------------------

  /** What is known of the OS is noted in the heap. */
  ghost method Known(heap: ZendHeap.Heap, book: Book, ops: seq<Op>) returns (m: nat)
    requires Agrees(heap, book)
    modifies heap`reach
    ensures Agrees(heap, book) && heap.reach == m
    ensures if old(exists k: nat :: Supplied(heap, ops, k)) then m > 0 && old(Supplied(heap, ops, m)) else m == 0
  {
    hide ZendHeap.Heap.Valid, Faithful, Clients, UpTo, AsksUpTo;
    m := 0;
    if k: nat :| Supplied(heap, ops, k) {
      m := k;
    }
    NoPromise(heap);
    heap.Promise(m);
  }

  lemma NoPromise(heap: ZendHeap.Heap)
    ensures Spaced(0, heap.os, heap.headers.Keys, heap.huge, heap.pending)
  {
  }

  lemma NoCosts()
    ensures Costs([]) == 0
  {
  }

  lemma {:induction false} CostsMore(ops: seq<Op>, n: nat)
    requires n < |ops|
    ensures Costs(ops[..n + 1]) == Costs(ops[..n]) + Cost(ops[n]) && Costs(ops[..n + 1]) <= Costs(ops)
    decreases |ops| - n
  {
    assert ops[..n + 1][..n] == ops[..n];
    if n + 1 < |ops| {
      CostsMore(ops, n + 1);
    } else {
      assert ops[..n + 1] == ops;
    }
  }

  lemma WhyStopped(heap: ZendHeap.Heap, op: Op, why: Fatal, limits: bool)
    requires Stops(heap, op, why, limits)
    ensures Asks(op) && (why.Overflow? <==> Wraps(op.size))
  {
  }

  /** An OS that keeps its promise grants the next request. */
  lemma KnownGrants(heap: ZendHeap.Heap, book: Book, op: Op, m: nat)
    requires Agrees(heap, book) && heap.reach == m > 0 && UpTo(Clients(heap.State()), m) && |heap.os| >= 3 && AsksUpTo(op, m)
    ensures Asks(op) && !Wraps(op.size) ==> heap.GrantsAll(op.size) && (op.size > MAX_LARGE_SIZE ==> heap.GrantsLater(op.size))
    ensures Granted(heap, op) || (Asks(op) && Wraps(op.size))
  {
    hide Faithful, UpTo, Clients, GrantedAmong, BothGranted, AlignedSize, Spaced, Core, Quiet, SumLive, Answers;
    SpacedSoFar(heap, book);
    HugeUpTo(heap.State(), m);
    if Asks(op) && !Wraps(op.size) {
      SizeGrants(heap.os, heap.headers.Keys, heap.huge, m, op.size);
    }
  }

  lemma SpacedSoFar(heap: ZendHeap.Heap, book: Book)
    requires Agrees(heap, book)
    ensures Spaced(heap.reach, heap.os, heap.headers.Keys, heap.huge, []) && heap.pending == [] && Core(heap.State())
  {
    hide Faithful, Core, Quiet, SumLive, Spaced;
    heap.SteadyFacts();
    heap.SpacedNow();
  }

  lemma SizeGrants(os: seq<Option<nat>>, keys: set<nat>, huge: seq<HugeNode>, m: nat, size: nat)
    requires m > 0 && Spaced(m, os, keys, huge, []) && |os| >= 3 && AlignedSize(size) <= m && !Wraps(size)
    requires forall j | 0 <= j < |huge| :: huge[j].size <= m
    ensures GrantedAmong(os, keys, huge, [], CHUNK_SIZE)
    ensures size > MAX_LARGE_SIZE ==> BothGranted(os, keys, huge, AlignedSize(size)) && BothGranted(Later(os), keys, huge, AlignedSize(size))
  {
    hide GrantedAmong, BothGranted, AlignedSize, Spaced;
    AlignedSizeWraps(size);
    SpacedLater(m, os, keys, huge, []);
    AnswersReach(m, os, keys, huge);
    SpacedGrants(m, os, keys, huge, CHUNK_SIZE);
    if size > MAX_LARGE_SIZE {
      SpacedGrants(m, os, keys, huge, AlignedSize(size));
      SpacedGrants(m, Later(os), keys, huge, AlignedSize(size));
    }
  }

  lemma AnswersReach(m: nat, os: seq<Option<nat>>, keys: set<nat>, huge: seq<HugeNode>)
    requires m > 0 && Spaced(m, os, keys, huge, [])
    ensures m >= CHUNK_SIZE
  {
  }

  /** With room below the limit it is carried out. */
  lemma SureNow(heap: ZendHeap.Heap, book: Book, op: Op, m: nat)
    requires Agrees(heap, book) && heap.reach == m > 0 && UpTo(Clients(heap.State()), m) && |heap.os| >= 3 && AsksUpTo(op, m)
    requires Asks(op) ==> !Wraps(op.size) && heap.realSize + Cost(op) <= heap.limit
    ensures Sure(heap, op)
  {
    hide ZendHeap.Heap.Valid, Faithful, UpTo, Clients, GrantedAmong, AlignedSize;
    KnownGrants(heap, book, op, m);
    AgreesFree(heap, book);
    if Asks(op) && op.size > MAX_LARGE_SIZE {
      heap.BothIsFirst(AlignedSize(op.size));
    }
  }

  /** The huge blocks are clients' blocks. */
  lemma HugeUpTo(h: HeapState.Heap, m: nat)
    requires Core(h) && UpTo(Clients(h), m)
    ensures forall j | 0 <= j < |h.huge| :: h.huge[j].size <= m
  {
    hide Core;
    forall j | 0 <= j < |h.huge| ensures h.huge[j].size <= m {
      HeapOps.CoreHuge(h);
      HeapOps.HugePtrIsHuge(h, j);
      PtrIsClient(h, j);
      ClientsLive(h);
    }
  }

  lemma AgreesFree(heap: ZendHeap.Heap, book: Book)
    requires Agrees(heap, book)
    ensures |heap.free| == BINS
  {
    hide Quiet, SumLive;
    heap.SteadyFacts();
  }

  /** Blocks of a heap and book that agree never overlap, and each is live and as large as the book says. */
  lemma BookedBlocksDisjoint(heap: ZendHeap.Heap, book: Book, a: nat, b: nat)
    requires Agrees(heap, book) && a in book && b in book && a != b
    ensures Apart(a, |book[a]|, b, |book[b]|)
  {
    hide ZendHeap.Heap.Valid, Clients, Usable;
    CoreOf(heap);
    ClientsLive(heap.State());
    HeapOps.LiveBlocksDisjoint(heap.State(), a, b);
  }
}
