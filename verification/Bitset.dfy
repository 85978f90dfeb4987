/** The page bitmap of a chunk: an array of 64-bit words, one bit a page, and the
    word-at-a-time range operations of Zend/zend_alloc.c.

    Word operations are named functions, and positions inside a word have type bv6,
    so that facts about words are proved on bit vectors alone and everything above
    them uses only their per-bit laws (the hide statements keep the two apart). */
module Bitset {

  const ONES: bv64 := 0xFFFF_FFFF_FFFF_FFFF
  const WORD_BITS := 64

  function Or(a: bv64, b: bv64): bv64 { a | b }

  function And(a: bv64, b: bv64): bv64 { a & b }

  function Not(a: bv64): bv64 { !a }

  /** The bits from lo on. */
  function HighMask(lo: bv6): bv64 { ONES << lo }

  /** The bits up to hi. */
  function LowMask(hi: bv6): bv64 { ONES >> (63 - hi) }

  function OneAt(k: bv6): bv64 { 1 << k }

  /** Bit k of a word. */
  predicate Bit(w: bv64, k: bv6) {
    (w >> k) & 1 == 1
  }

  /** The position of bit i inside its word. */
  function Pos(i: nat): bv6 {
    (i % 64) as bv6
  }

  /** Bit i of a bitmap: what zend_mm_bitset_is_set reads. */
  predicate IsSet(ws: seq<bv64>, i: nat)
    requires i < WORD_BITS * |ws|
  {
    Bit(ws[i / 64], Pos(i))
  }

  // ---- positions as integers and as bit vectors -------------------------------

  lemma Index(j: nat)
    requires j < 64
    ensures (j as bv6) as int == j
  {
  }

  lemma IndexOrder(j: bv6, k: bv6)
    ensures j < k <==> j as int < k as int
  {
  }

  lemma PosOrder(i: nat, j: nat)
    ensures Pos(i) < Pos(j) <==> i % 64 < j % 64
    ensures Pos(i) == Pos(j) <==> i % 64 == j % 64
  {
    Index(i % 64);
    Index(j % 64);
    IndexOrder(Pos(i), Pos(j));
  }

  lemma PosZero()
    ensures Pos(0) == 0
  {
  }

  lemma LowestBit(k: bv6)
    ensures Bit(1, k) <==> k == 0
  {
  }

  lemma BitIndex(w: nat, n: bv6) returns (i: nat)
    ensures i == 64 * w + n as int && i / 64 == w && Pos(i) == n
  {
    i := 64 * w + n as int;
  }

  // ---- word facts -------------------------------------------------------------

  lemma OrLaw(a: bv64, b: bv64, k: bv6)
    ensures Bit(a | b, k) == (Bit(a, k) || Bit(b, k))
  {
  }

  lemma AndLaw(a: bv64, b: bv64, k: bv6)
    ensures Bit(a & b, k) == (Bit(a, k) && Bit(b, k))
  {
  }

  lemma NotLaw(a: bv64, k: bv6)
    ensures Bit(!a, k) == !Bit(a, k)
  {
  }

  lemma HighMaskLaw(lo: bv6, k: bv6)
    ensures Bit(ONES << lo, k) <==> lo <= k
  {
  }

  lemma LowMaskLaw(hi: bv6, k: bv6)
    ensures Bit(ONES >> (63 - hi), k) <==> k <= hi
  {
  }

  // The same laws for the named operations.

  lemma OrBit(a: bv64, b: bv64, k: bv6)
    ensures Bit(Or(a, b), k) == (Bit(a, k) || Bit(b, k))
  {
    hide Bit;
    OrLaw(a, b, k);
  }

  lemma AndBit(a: bv64, b: bv64, k: bv6)
    ensures Bit(And(a, b), k) == (Bit(a, k) && Bit(b, k))
  {
    hide Bit;
    AndLaw(a, b, k);
  }

  lemma NotBit(a: bv64, k: bv6)
    ensures Bit(Not(a), k) == !Bit(a, k)
  {
    hide Bit;
    NotLaw(a, k);
  }

  lemma HighMaskBit(lo: bv6, k: bv6)
    ensures Bit(HighMask(lo), k) <==> lo <= k
  {
    hide Bit;
    HighMaskLaw(lo, k);
  }

  lemma LowMaskBit(hi: bv6, k: bv6)
    ensures Bit(LowMask(hi), k) <==> k <= hi
  {
    hide Bit;
    LowMaskLaw(hi, k);
  }

  /** The mask the source writes as ~((1 << bit) - 1). */
  function HighMaskByBorrow(lo: bv6): bv64 { !(((1 as bv64) << lo) - 1) }

  lemma HighMaskByBorrowIsHighMask(lo: bv6)
    ensures HighMaskByBorrow(lo) == HighMask(lo)
  {
  }

  lemma ConstantBits(k: bv6)
    ensures !Bit(0, k) && Bit(ONES, k)
  {
  }

  lemma SomeBit(w: bv64)
    requires w != 0
    ensures Ntz(w) < 64 && Bit(w, Ntz(w) as bv6)
  {
    NtzSpec(w);
  }

  // ---- trailing ones and zeros ------------------------------------------------

  /** zend_mm_bitset_nts: the portable binary search for the lowest clear bit. */
  function Nts(w: bv64): bv7 {
    if w == ONES then 64 else
    var (n, w) := if w & 0xffffffff == 0xffffffff then (32 as bv7, w >> 32) else (0, w);
    var (n, w) := if w & 0xffff == 0xffff then (n + 16, w >> 16) else (n, w);
    var (n, w) := if w & 0xff == 0xff then (n + 8, w >> 8) else (n, w);
    var (n, w) := if w & 0xf == 0xf then (n + 4, w >> 4) else (n, w);
    var (n, w) := if w & 0x3 == 0x3 then (n + 2, w >> 2) else (n, w);
    n + (w & 1) as bv7
  }

  /** zend_ulong_ntz: the portable binary search for the lowest set bit. */
  function Ntz(w: bv64): bv7 {
    if w == 0 then 64 else
    var (n, w) := if w & 0xffffffff == 0 then (33 as bv7, w >> 32) else (1, w);
    var (n, w) := if w & 0xffff == 0 then (n + 16, w >> 16) else (n, w);
    var (n, w) := if w & 0xff == 0 then (n + 8, w >> 8) else (n, w);
    var (n, w) := if w & 0xf == 0 then (n + 4, w >> 4) else (n, w);
    var (n, w) := if w & 0x3 == 0 then (n + 2, w >> 2) else (n, w);
    n - (w & 1) as bv7
  }

  /** n is the lowest clear bit of w. */
  predicate LowestClear(w: bv64, n: bv6) {
    !Bit(w, n) && w | (ONES << n) == ONES
  }

  /** n is the lowest set bit of w. */
  predicate LowestSet(w: bv64, n: bv6) {
    Bit(w, n) && w & !(ONES << n) == 0
  }

  lemma NtsSpec(w: bv64)
    ensures w == ONES <==> Nts(w) == 64
    ensures w != ONES ==> Nts(w) < 64 && LowestClear(w, Nts(w) as bv6)
  {
  }

  lemma NtzSpec(w: bv64)
    ensures w == 0 <==> Ntz(w) == 64
    ensures w != 0 ==> Ntz(w) < 64 && LowestSet(w, Ntz(w) as bv6)
  {
  }

  /** The source's tmp & (tmp + 1). */
  function DropTrailingOnes(w: bv64): bv64 { w & (w + 1) }

  /** The source's tmp | (tmp - 1). */
  function FillTrailingZeros(w: bv64): bv64 { w | (w - 1) }

  /** w without the bits below n. */
  function ClearBelow(w: bv64, n: bv6): bv64 { w & (ONES << n) }

  /** w with all bits below n. */
  function SetBelow(w: bv64, n: bv6): bv64 { w | !(ONES << n) }

  lemma CarryStopsAtLowestClear(w: bv64, n: bv6)
    requires LowestClear(w, n)
    ensures w & (w + 1) == w & (ONES << n)
  {
    assert w + 1 == (w & (ONES << n)) | (1 << n);
  }

  lemma BorrowStopsAtLowestSet(w: bv64, n: bv6)
    requires LowestSet(w, n)
    ensures w | (w - 1) == w | !(ONES << n)
  {
    assert w - 1 == (w & !(1 << n)) | !(ONES << n);
  }

  lemma DropIsClearBelow(w: bv64, n: bv6)
    requires LowestClear(w, n)
    ensures DropTrailingOnes(w) == ClearBelow(w, n)
  {
    hide LowestClear;
    CarryStopsAtLowestClear(w, n);
  }

  lemma FillIsSetBelow(w: bv64, n: bv6)
    requires LowestSet(w, n)
    ensures FillTrailingZeros(w) == SetBelow(w, n)
  {
    hide LowestSet;
    BorrowStopsAtLowestSet(w, n);
  }

  lemma LowestClearBits(w: bv64, n: bv6, k: bv6)
    requires LowestClear(w, n)
    ensures !Bit(w, n)
    ensures k < n ==> Bit(w, k)
    ensures Bit(ClearBelow(w, n), k) <==> n <= k && Bit(w, k)
  {
    hide Bit;
    HighMaskLaw(n, k);
    OrLaw(w, ONES << n, k);
    AndLaw(w, ONES << n, k);
    ConstantBits(k);
  }

  lemma LowestSetBits(w: bv64, n: bv6, k: bv6)
    requires LowestSet(w, n)
    ensures Bit(w, n)
    ensures k < n ==> !Bit(w, k)
    ensures Bit(SetBelow(w, n), k) <==> k < n || Bit(w, k)
  {
    hide Bit;
    HighMaskLaw(n, k);
    NotLaw(ONES << n, k);
    AndLaw(w, !(ONES << n), k);
    OrLaw(w, !(ONES << n), k);
    ConstantBits(k);
  }

  /** The trailing-ones count finds the lowest clear bit, and clearing the trailing
      ones by w & (w + 1) leaves every other bit alone. */
  lemma TrailingOnes(w: bv64, k: bv6)
    requires w != ONES
    ensures Nts(w) < 64
    ensures !Bit(w, Nts(w) as bv6)
    ensures k < Nts(w) as bv6 ==> Bit(w, k)
    ensures Bit(DropTrailingOnes(w), k) <==> Nts(w) as bv6 <= k && Bit(w, k)
  {
    hide Bit, LowestClear, Nts, DropTrailingOnes, ClearBelow;
    NtsSpec(w);
    LowestClearBits(w, Nts(w) as bv6, k);
    DropIsClearBelow(w, Nts(w) as bv6);
  }

  /** The trailing-zeros count finds the lowest set bit, and filling the trailing
      zeros by w | (w - 1) leaves every other bit alone. */
  lemma TrailingZeros(w: bv64, k: bv6)
    requires w != 0
    ensures Ntz(w) < 64
    ensures Bit(w, Ntz(w) as bv6)
    ensures k < Ntz(w) as bv6 ==> !Bit(w, k)
    ensures Bit(FillTrailingZeros(w), k) <==> k < Ntz(w) as bv6 || Bit(w, k)
  {
    hide Bit, LowestSet, Ntz, FillTrailingZeros, SetBelow;
    NtzSpec(w);
    LowestSetBits(w, Ntz(w) as bv6, k);
    FillIsSetBelow(w, Ntz(w) as bv6);
  }

  // ---- range operations on an array of words ----------------------------------

  /** The bits of one word from lo on (if the word is the first) up to hi (if it is the last). */
  function WordMask(first: bool, last: bool, lo: bv6, hi: bv6): bv64 {
    And(if first then HighMask(lo) else ONES, if last then LowMask(hi) else ONES)
  }

  lemma WordMaskBit(first: bool, last: bool, lo: bv6, hi: bv6, k: bv6)
    ensures Bit(WordMask(first, last, lo, hi), k) <==> (first ==> lo <= k) && (last ==> k <= hi)
  {
    hide Bit, And, HighMask, LowMask;
    HighMaskBit(lo, k);
    LowMaskBit(hi, k);
    ConstantBits(k);
    AndBit(if first then HighMask(lo) else ONES, if last then LowMask(hi) else ONES, k);
  }

  lemma WholeWordMasks(lo: bv6, hi: bv6)
    ensures WordMask(true, false, lo, hi) == HighMask(lo)
    ensures WordMask(false, true, lo, hi) == LowMask(hi)
    ensures WordMask(false, false, lo, hi) == ONES
    ensures WordMask(true, true, lo, lo) == OneAt(lo)
  {
  }

  /** The part of the bit range [start, start + len) that falls into word w. */
  function RangeMask(start: nat, len: nat, w: nat): bv64
    requires 1 <= len
  {
    var pos, end := start / 64, (start + len - 1) / 64;
    if pos <= w <= end then WordMask(w == pos, w == end, Pos(start), Pos(start + len - 1)) else 0
  }

  lemma RangeMaskBit(start: nat, len: nat, i: nat)
    requires 1 <= len
    ensures Bit(RangeMask(start, len, i / 64), Pos(i)) <==> start <= i < start + len
  {
    hide Bit, Pos, WordMask;
    var last := start + len - 1;
    PosOrder(i, start);
    PosOrder(last, i);
    WordMaskBit(i / 64 == start / 64, i / 64 == last / 64, Pos(start), Pos(last), Pos(i));
    ConstantBits(Pos(i));
  }

  /** ws' is ws with the bits of [start, start + len) set. */
  ghost predicate RangeSet(ws: seq<bv64>, ws': seq<bv64>, start: nat, len: nat) {
    && |ws'| == |ws|
    && forall i: nat | i < 64 * |ws| :: IsSet(ws', i) <==> start <= i < start + len || IsSet(ws, i)
  }

  /** ws' is ws with the bits of [start, start + len) cleared. */
  ghost predicate RangeReset(ws: seq<bv64>, ws': seq<bv64>, start: nat, len: nat) {
    && |ws'| == |ws|
    && forall i: nat | i < 64 * |ws| :: IsSet(ws', i) <==> !(start <= i < start + len) && IsSet(ws, i)
  }

  /** What the range operations do to a single word. */
  function SetWord(ws: seq<bv64>, start: nat, len: nat, w: nat): bv64
    requires 1 <= len && w < |ws|
  {
    Or(ws[w], RangeMask(start, len, w))
  }

  function ResetWord(ws: seq<bv64>, start: nat, len: nat, w: nat): bv64
    requires 1 <= len && w < |ws|
  {
    And(ws[w], Not(RangeMask(start, len, w)))
  }

  lemma SetWordsSetRange(ws: seq<bv64>, ws': seq<bv64>, start: nat, len: nat)
    requires 1 <= len && |ws'| == |ws|
    requires forall w | 0 <= w < |ws| :: ws'[w] == SetWord(ws, start, len, w)
    ensures RangeSet(ws, ws', start, len)
  {
    hide Bit, Pos, RangeMask, Or;
    forall i: nat | i < 64 * |ws|
      ensures IsSet(ws', i) <==> start <= i < start + len || IsSet(ws, i)
    {
      RangeMaskBit(start, len, i);
      OrBit(ws[i / 64], RangeMask(start, len, i / 64), Pos(i));
    }
  }

  lemma ResetWordsResetRange(ws: seq<bv64>, ws': seq<bv64>, start: nat, len: nat)
    requires 1 <= len && |ws'| == |ws|
    requires forall w | 0 <= w < |ws| :: ws'[w] == ResetWord(ws, start, len, w)
    ensures RangeReset(ws, ws', start, len)
  {
    hide Bit, Pos, RangeMask, And, Not;
    forall i: nat | i < 64 * |ws|
      ensures IsSet(ws', i) <==> !(start <= i < start + len) && IsSet(ws, i)
    {
      RangeMaskBit(start, len, i);
      NotBit(RangeMask(start, len, i / 64), Pos(i));
      AndBit(ws[i / 64], Not(RangeMask(start, len, i / 64)), Pos(i));
    }
  }

  lemma WordIdentities(v: bv64)
    ensures Or(v, 0) == v && And(v, Not(0)) == v
    ensures Or(v, ONES) == ONES && And(v, Not(ONES)) == 0
  {
  }

  /** The value the source computes for word w of the range, case by case. */
  lemma RangeWords(ws: seq<bv64>, start: nat, len: nat, w: nat)
    requires 1 <= len && w < |ws|
    ensures var pos, end := start / 64, (start + len - 1) / 64;
      && (w < pos || end < w ==> SetWord(ws, start, len, w) == ResetWord(ws, start, len, w) == ws[w])
      && (pos < w < end ==> SetWord(ws, start, len, w) == ONES && ResetWord(ws, start, len, w) == 0)
      && (pos == w < end ==> RangeMask(start, len, w) == HighMask(Pos(start)))
      && (pos < w == end ==> RangeMask(start, len, w) == LowMask(Pos(start + len - 1)))
      && (pos == w == end ==> RangeMask(start, len, w) == And(HighMask(Pos(start)), LowMask(Pos(start + len - 1))))
      && (len == 1 && pos == w ==> RangeMask(start, len, w) == OneAt(Pos(start)))
  {
    hide Or, And, Not, HighMask, LowMask, OneAt, Pos;
    WordIdentities(ws[w]);
    WholeWordMasks(Pos(start), Pos(start + len - 1));
  }

  method SetBit(a: array<bv64>, bit: nat)
    requires bit < 64 * a.Length
    modifies a
    ensures RangeSet(old(a[..]), a[..], bit, 1)
  {
    hide Or, OneAt, Pos, RangeMask, RangeSet;
    ghost var ws := a[..];
    a[bit / 64] := Or(a[bit / 64], OneAt(Pos(bit)));
    forall w | 0 <= w < |ws|
      ensures a[w] == SetWord(ws, bit, 1, w)
    {
      RangeWords(ws, bit, 1, w);
    }
    SetWordsSetRange(ws, a[..], bit, 1);
  }

  method ResetBit(a: array<bv64>, bit: nat)
    requires bit < 64 * a.Length
    modifies a
    ensures RangeReset(old(a[..]), a[..], bit, 1)
  {
    hide And, Not, OneAt, Pos, RangeMask, RangeReset;
    ghost var ws := a[..];
    a[bit / 64] := And(a[bit / 64], Not(OneAt(Pos(bit))));
    forall w | 0 <= w < |ws|
      ensures a[w] == ResetWord(ws, bit, 1, w)
    {
      RangeWords(ws, bit, 1, w);
    }
    ResetWordsResetRange(ws, a[..], bit, 1);
  }

  method SetRange(a: array<bv64>, start: nat, len: nat)
    requires 1 <= len && start + len <= 64 * a.Length
    modifies a
    ensures RangeSet(old(a[..]), a[..], start, len)
  {
    hide Or, And, HighMask, LowMask, Pos, RangeMask, RangeSet;
    if len == 1 {
      SetBit(a, start);
      return;
    }
    ghost var ws := a[..];
    forall w: nat | w < |ws| { RangeWords(ws, start, len, w); }
    var pos := start / 64;
    var end := (start + len - 1) / 64;
    var bit := Pos(start);
    var last := Pos(start + len - 1);
    if pos != end {
      a[pos] := Or(a[pos], HighMask(bit));
      pos := pos + 1;
      while pos != end
        invariant start / 64 < pos <= end
        invariant forall w | 0 <= w < pos :: a[w] == SetWord(ws, start, len, w)
        invariant forall w | pos <= w < a.Length :: a[w] == ws[w]
      {
        a[pos] := ONES;
        pos := pos + 1;
      }
      a[pos] := Or(a[pos], LowMask(last));
    } else {
      a[pos] := Or(a[pos], And(HighMask(bit), LowMask(last)));
    }
    SetWordsSetRange(ws, a[..], start, len);
  }

  method ResetRange(a: array<bv64>, start: nat, len: nat)
    requires 1 <= len && start + len <= 64 * a.Length
    modifies a
    ensures RangeReset(old(a[..]), a[..], start, len)
  {
    hide And, Not, HighMask, HighMaskByBorrow, LowMask, Pos, RangeMask, RangeReset;
    if len == 1 {
      ResetBit(a, start);
      return;
    }
    ghost var ws := a[..];
    forall w: nat | w < |ws| { RangeWords(ws, start, len, w); }
    var pos := start / 64;
    var end := (start + len - 1) / 64;
    var bit := Pos(start);
    var last := Pos(start + len - 1);
    if pos != end {
      HighMaskByBorrowIsHighMask(bit);
      a[pos] := And(a[pos], Not(HighMaskByBorrow(bit)));
      pos := pos + 1;
      while pos != end
        invariant start / 64 < pos <= end
        invariant forall w | 0 <= w < pos :: a[w] == ResetWord(ws, start, len, w)
        invariant forall w | pos <= w < a.Length :: a[w] == ws[w]
      {
        a[pos] := 0;
        pos := pos + 1;
      }
      a[pos] := And(a[pos], Not(LowMask(last)));
    } else {
      a[pos] := And(a[pos], Not(And(HighMask(bit), LowMask(last))));
    }
    ResetWordsResetRange(ws, a[..], start, len);
  }

  method IsFreeRange(a: array<bv64>, start: nat, len: nat) returns (free: bool)
    requires 1 <= len && start + len <= 64 * a.Length
    ensures free <==> forall i | start <= i < start + len :: !IsSet(a[..], i)
  {
    hide And, HighMask, LowMask, Bit, Pos, RangeMask;
    var pos := start / 64;
    if len == 1 {
      free := !Bit(a[pos], Pos(start));
      assert free <==> !IsSet(a[..], start);
      return;
    }
    ghost var ws := a[..];
    forall w: nat | w < |ws| { RangeWords(ws, start, len, w); }
    var end := (start + len - 1) / 64;
    var bit := Pos(start);
    var last := Pos(start + len - 1);
    if pos != end {
      if And(a[pos], HighMask(bit)) != 0 {
        MaskHit(ws, start, len, pos);
        return false;
      }
      pos := pos + 1;
      while pos != end
        invariant start / 64 < pos <= end
        invariant forall w: nat | start / 64 <= w < pos :: And(ws[w], RangeMask(start, len, w)) == 0
      {
        MaskWhole(ws, start, len, pos);
        if a[pos] != 0 {
          MaskHit(ws, start, len, pos);
          assert a[..] == ws;
          return false;
        }
        pos := pos + 1;
      }
      free := And(a[pos], LowMask(last)) == 0;
    } else {
      free := And(a[pos], And(HighMask(bit), LowMask(last))) == 0;
    }
    assert a[..] == ws;
    if free {
      MaskMiss(ws, start, len);
    } else {
      MaskHit(ws, start, len, pos);
    }
  }

  lemma MaskWhole(ws: seq<bv64>, start: nat, len: nat, w: nat)
    requires 1 <= len && w < |ws| && start / 64 < w < (start + len - 1) / 64
    ensures And(ws[w], RangeMask(start, len, w)) == ws[w]
  {
    WholeWordMasks(Pos(start), Pos(start + len - 1));
    AndOnes(ws[w]);
  }

  lemma AndOnes(v: bv64)
    ensures And(v, ONES) == v
  {
  }

  lemma MaskHit(ws: seq<bv64>, start: nat, len: nat, w: nat)
    requires 1 <= len && w < |ws|
    requires And(ws[w], RangeMask(start, len, w)) != 0
    ensures exists i: nat | i < 64 * |ws| :: start <= i < start + len && IsSet(ws, i)
  {
    hide And, Bit, Pos, RangeMask, Ntz;
    var v := And(ws[w], RangeMask(start, len, w));
    SomeBit(v);
    var i := BitIndex(w, Ntz(v) as bv6);
    RangeMaskBit(start, len, i);
    AndBit(ws[w], RangeMask(start, len, w), Pos(i));
    assert IsSet(ws, i);
  }

  lemma MaskMiss(ws: seq<bv64>, start: nat, len: nat)
    requires 1 <= len && start + len <= 64 * |ws|
    requires forall w: nat | start / 64 <= w <= (start + len - 1) / 64 :: And(ws[w], RangeMask(start, len, w)) == 0
    ensures forall i | start <= i < start + len :: !IsSet(ws, i)
  {
    hide And, Bit, Pos, RangeMask;
    forall i | start <= i < start + len
      ensures !IsSet(ws, i)
    {
      RangeMaskBit(start, len, i);
      AndBit(ws[i / 64], RangeMask(start, len, i / 64), Pos(i));
      ConstantBits(Pos(i));
    }
  }
}
