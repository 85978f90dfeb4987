/** The size classes of Zend/zend_alloc_sizes.h and the arithmetic that picks one. */
module Bins {

  const CHUNK_SIZE := 0x20_0000
  const PAGE_SIZE := 4096
  const PAGES := 512
  const BINS := 30
  const MIN_USEABLE_BIN_SIZE := 16
  const MAX_SMALL_SIZE := 3072
  const MAX_LARGE_SIZE := CHUNK_SIZE - PAGE_SIZE

  type Bin = b: nat | b < BINS

  /** bin_data_size */
  function BinSize(b: Bin): nat {
    match b
    case 0 => 8 case 1 => 16 case 2 => 24 case 3 => 32 case 4 => 40 case 5 => 48
    case 6 => 56 case 7 => 64 case 8 => 80 case 9 => 96 case 10 => 112 case 11 => 128
    case 12 => 160 case 13 => 192 case 14 => 224 case 15 => 256 case 16 => 320 case 17 => 384
    case 18 => 448 case 19 => 512 case 20 => 640 case 21 => 768 case 22 => 896 case 23 => 1024
    case 24 => 1280 case 25 => 1536 case 26 => 1792 case 27 => 2048 case 28 => 2560 case 29 => 3072
  }

  /** bin_elements */
  function BinElements(b: Bin): nat {
    match b
    case 0 => 512 case 1 => 256 case 2 => 170 case 3 => 128 case 4 => 102 case 5 => 85
    case 6 => 73 case 7 => 64 case 8 => 51 case 9 => 42 case 10 => 36 case 11 => 32
    case 12 => 25 case 13 => 21 case 14 => 18 case 15 => 16 case 16 => 64 case 17 => 32
    case 18 => 9 case 19 => 8 case 20 => 32 case 21 => 16 case 22 => 9 case 23 => 8
    case 24 => 16 case 25 => 8 case 26 => 16 case 27 => 8 case 28 => 8 case 29 => 4
  }

  /** bin_pages */
  function BinPages(b: Bin): nat {
    match b
    case 16 => 5 case 17 => 3 case 20 => 5 case 21 => 3 case 22 => 2 case 23 => 2
    case 24 => 5 case 25 => 3 case 26 => 7 case 27 => 4 case 28 => 5 case 29 => 3
    case _ => 1
  }

  lemma BinFacts(b: Bin)
    ensures 8 <= BinSize(b) && (b >= 1 ==> 16 <= BinSize(b))
    ensures 4 <= BinElements(b) && (b >= 1 ==> BinElements(b) <= 256)
    ensures 1 <= BinPages(b) <= 7
    ensures BinSize(b) * BinElements(b) <= PAGE_SIZE * BinPages(b)
    ensures b >= 1 ==> BinSize(b - 1) < BinSize(b)
  {
  }

  /** A larger bin has larger slots. */
  lemma {:induction false} BinsGrow(b: Bin, c: Bin)
    requires b <= c
    ensures BinSize(b) <= BinSize(c)
    decreases c
  {
    hide BinSize;
    if b < c {
      BinFacts(c);
      BinsGrow(b, c - 1);
    }
  }

  /** zend_mm_small_size_to_bit, portable form: the position of the highest set bit, from 1. */
  function SizeToBit(size: nat): nat
    requires 1 <= size <= 0xffff
  {
    var (n, size) := if size <= 0x00ff then (8, size * 256) else (16, size);
    var (n, size) := if size <= 0x0fff then (n - 4, size * 16) else (n, size);
    var (n, size) := if size <= 0x3fff then (n - 2, size * 4) else (n, size);
    if size <= 0x7fff then n - 1 else n
  }

  /** x >> n */
  function ShiftRight(x: nat, n: nat): nat { if n == 0 then x else ShiftRight(x / 2, n - 1) }

  /** zend_mm_small_size_to_bin */
  function SizeToBin(size: nat): nat
    requires size <= MAX_SMALL_SIZE
  {
    if size <= 64 then (if size == 0 then 0 else size - 1) / 8
    else
      var t1 := size - 1;
      SizeToBitSpec(t1);
      var t2 := SizeToBit(t1) - 3;
      ShiftRight(t1, t2) + (t2 - 3) * 4
  }

  lemma SizeToBitSpec(size: nat)
    requires 64 <= size <= 3071
    ensures SizeToBit(size) ==
      if size < 128 then 7 else if size < 256 then 8 else if size < 512 then 9
      else if size < 1024 then 10 else if size < 2048 then 11 else 12
  {
  }

  /** The class picked for a small size is the tightest one that holds it. */
  lemma SizeToBinIsTightest(size: nat)
    requires size <= MAX_SMALL_SIZE
    ensures SizeToBin(size) < BINS
    ensures size <= BinSize(SizeToBin(size))
    ensures SizeToBin(size) >= 1 ==> BinSize(SizeToBin(size) - 1) < size
    ensures size >= MIN_USEABLE_BIN_SIZE ==> SizeToBin(size) >= 1
  {
    hide ShiftRight, SizeToBit;
    if size > 64 {
      SizeToBitSpec(size - 1);
      ShiftRightSpec(size - 1);
    }
  }

  lemma ShiftRightSpec(x: nat)
    ensures ShiftRight(x, 4) == x / 16 && ShiftRight(x, 5) == x / 32 && ShiftRight(x, 6) == x / 64
    ensures ShiftRight(x, 7) == x / 128 && ShiftRight(x, 8) == x / 256 && ShiftRight(x, 9) == x / 512
  {
    ShiftRightFour(x);
    ShiftRightFour(x / 2);
    ShiftRightFour(x / 4);
    ShiftRightFour(x / 8);
    ShiftRightFour(x / 16);
    ShiftRightFour(x / 32);
  }

  lemma ShiftRightFour(x: nat)
    ensures ShiftRight(x, 4) == x / 16
    ensures forall n: nat | 1 <= n :: ShiftRight(x, n) == ShiftRight(x / 2, n - 1)
  {
    assert ShiftRight(x, 4) == ShiftRight(x / 2, 3) == ShiftRight(x / 4, 2) == ShiftRight(x / 8, 1) == x / 16;
  }

  // ---- slots of a small run ----------------------------------------------------

  /** off is the offset of a slot in a run of bin b. */
  predicate SlotOffset(off: int, b: Bin) {
    BinFacts(b);
    0 <= off && off % BinSize(b) == 0 && off / BinSize(b) < BinElements(b)
  }

  lemma SlotOffsetFits(off: int, b: Bin)
    requires SlotOffset(off, b)
    ensures 0 <= off && off + BinSize(b) <= PAGE_SIZE * BinPages(b)
  {
    hide BinSize, BinElements, BinPages;
    BinFacts(b);
    var k := off / BinSize(b);
    MulMono(k + 1, BinElements(b), BinSize(b));
  }

  lemma MulMono(x: nat, y: nat, z: nat)
    requires x <= y
    ensures x * z <= y * z
  {
  }

  lemma SlotOffsetOf(b: Bin, k: nat)
    ensures SlotOffset(k * BinSize(b), b) <==> k < BinElements(b)
    ensures BinSize(b) > 0 && (k * BinSize(b)) / BinSize(b) == k
  {
    hide BinSize, BinElements, BinPages;
    BinFacts(b);
    MulDivMod(k, BinSize(b));
  }

  /** The number of the slot at an offset. */
  lemma SlotIndex(off: int, b: Bin) returns (k: nat)
    requires SlotOffset(off, b)
    ensures k < BinElements(b) && off == k * BinSize(b)
    ensures off > 0 ==> k > 0
  {
    hide BinSize, BinElements, BinPages;
    BinFacts(b);
    k := off / BinSize(b);
    assert off == BinSize(b) * k;
  }

  lemma MulDivMod(k: nat, z: nat)
    requires z > 0
    ensures (k * z) / z == k && (k * z) % z == 0
  {
    var q, r := (k * z) / z, (k * z) % z;
    assert (k - q) * z == r;
    MulSign(k - q, z);
  }

  lemma MulSign(d: int, z: nat)
    ensures d >= 1 ==> d * z >= z
    ensures d <= -1 ==> d * z + z <= 0
  {
  }

  /** Distinct slots of a run do not overlap. */
  lemma SlotsDisjoint(x: int, y: int, b: Bin)
    requires SlotOffset(x, b) && SlotOffset(y, b) && x < y
    ensures x + BinSize(b) <= y
  {
    hide BinSize, BinElements, BinPages;
    BinFacts(b);
    var z := BinSize(b);
    assert x == z * (x / z) && y == z * (y / z);
    if y / z < x / z + 1 {
      MulMono(y / z, x / z, z);
    } else {
      MulMono(x / z + 1, y / z, z);
    }
  }
}
