/** Memory as a function from addresses to bytes, and the words stored in it. */
module MemoryBytes {
  newtype byte = x: int | 0 <= x < 256

  type Memory = nat -> byte

  /** The exclusive or of the n lowest bits. */
  function XorBits(x: nat, y: nat, n: nat): (r: nat)
    ensures r < Power2(n)
  {
    if n == 0 then 0 else (if x % 2 == y % 2 then 0 else 1) + 2 * XorBits(x / 2, y / 2, n - 1)
  }

  function Power2(n: nat): nat {
    if n == 0 then 1 else 2 * Power2(n - 1)
  }

  function Xor(x: byte, y: byte): byte {
    assert Power2(8) == 256;
    XorBits(x as nat, y as nat, 8) as byte
  }

  /** The memory with some bytes stored at a. */
  function Write(m: Memory, a: nat, bytes: seq<byte>): Memory {
    (x: nat) => if a <= x < a + |bytes| then bytes[x - a] else m(x)
  }

  /** memcpy(to, from, n) */
  function Copy(m: Memory, to: nat, from: nat, n: nat): Memory {
    (x: nat) => if to <= x < to + n then m(from + (x - to)) else m(x)
  }

  function ByteOf(a: nat, k: nat): byte {
    if k == 0 then (a % 256) as byte else ByteOf(a / 256, k - 1)
  }

  /** The n lowest bytes of a number, least significant first. */
  function LowBytes(a: nat, n: nat): (s: seq<byte>)
    ensures |s| == n
  {
    seq(n, k requires 0 <= k => ByteOf(a, k))
  }

  /** A pointer as it is stored. */
  function LinkBytes(a: nat): (s: seq<byte>)
    ensures |s| == 8
  {
    LowBytes(a, 8)
  }

  /** The shadow of a pointer: byte-swapped and xored with the key of the heap. */
  function ShadowBytes(a: nat, key: nat): (s: seq<byte>)
    ensures |s| == 8
  {
    seq(8, k requires 0 <= k < 8 => Xor(ByteOf(a, 7 - k), ByteOf(key, k)))
  }

  /** Byte i of the block at a. */
  function ByteAt(m: Memory, a: nat, i: nat): byte { m(a + i) }

  /** The memory outside [a, a + n) is as before. */
  ghost predicate SameOutside(m: Memory, m': Memory, a: nat, n: nat) {
    forall x: nat :: !(a <= x < a + n) ==> m'(x) == m(x)
  }

  /** The first n bytes at a are now the first n bytes at b. */
  ghost predicate SameBytes(m: Memory, a: nat, m': Memory, b: nat, n: nat) {
    forall i: nat | i < n :: ByteAt(m', b, i) == ByteAt(m, a, i)
  }

  lemma SameBytesRefl(m: Memory)
    ensures forall x: nat, n: nat :: SameBytes(m, x, m, x, n)
  {
  }

  lemma SameOutsideRefl(m: Memory, a: nat, n: nat)
    ensures SameOutside(m, m, a, n)
  {
  }

  lemma SameOutsideMore(m: Memory, m1: Memory, m2: Memory, a: nat, n: nat, x: nat, k: nat)
    requires SameOutside(m, m1, a, n) && SameOutside(m1, m2, x, k) && a <= x && x + k <= a + n
    ensures SameOutside(m, m2, a, n)
  {
  }

  lemma CopiedOutside(m: Memory, to: nat, from: nat, n: nat)
    ensures SameOutside(m, Copy(m, to, from, n), to, n)
  {
  }

  // ---- words -------------------------------------------------------------------

  /** The number whose bytes these are, least significant first. */
  function Word(bytes: seq<byte>): nat {
    if bytes == [] then 0 else bytes[0] as nat + 256 * Word(bytes[1..])
  }

  /** The pointer stored at a. */
  function LoadWord(m: Memory, a: nat): nat {
    Word(seq(8, k requires 0 <= k => m(a + k)))
  }

  /** zend_mm_decode_free_slot on the shadow stored at a. */
  function LoadShadow(m: Memory, a: nat, key: nat): nat {
    Word(seq(8, k requires 0 <= k < 8 => Xor(m(a + 7 - k), ByteOf(key, 7 - k))))
  }

  function Power256(n: nat): nat {
    if n == 0 then 1 else 256 * Power256(n - 1)
  }

  lemma {:induction false} WordOfBytes(a: nat, n: nat)
    requires a < Power256(n)
    ensures Word(LowBytes(a, n)) == a
  {
    hide ByteOf;
    if n > 0 {
      FirstByte(a, n);
      WordOfBytes(a / 256, n - 1);
    }
  }

  lemma FirstByte(a: nat, n: nat)
    requires n > 0
    ensures LowBytes(a, n)[0] as nat == a % 256 && LowBytes(a, n)[1..] == LowBytes(a / 256, n - 1)
  {
    hide ByteOf;
    FirstByteOf(a);
    forall k: nat | k < n - 1 ensures LowBytes(a, n)[1..][k] == LowBytes(a / 256, n - 1)[k] {
      LaterByteOf(a, k + 1);
    }
  }

  lemma FirstByteOf(a: nat)
    ensures ByteOf(a, 0) as nat == a % 256
  {
  }

  lemma LaterByteOf(a: nat, k: nat)
    requires k > 0
    ensures ByteOf(a, k) == ByteOf(a / 256, k - 1)
  {
  }

  lemma Halves(d: nat, q: nat)
    requires d < 2
    ensures (d + 2 * q) % 2 == d && (d + 2 * q) / 2 == q
  {
  }

  lemma {:induction false} XorBitsTwice(x: nat, y: nat, n: nat)
    requires x < Power2(n)
    ensures XorBits(XorBits(x, y, n), y, n) == x
  {
    if n > 0 {
      XorBitsTwice(x / 2, y / 2, n - 1);
      Halves(if x % 2 == y % 2 then 0 else 1, XorBits(x / 2, y / 2, n - 1));
    }
  }

  lemma XorTwice(x: byte, y: byte)
    ensures Xor(Xor(x, y), y) == x
  {
    assert Power2(8) == 256;
    XorBitsTwice(x as nat, y as nat, 8);
  }

  ghost predicate Stored(m: Memory, a: nat, bytes: seq<byte>) {
    forall i: nat | i < |bytes| :: ByteAt(m, a, i) == bytes[i]
  }

  lemma LoadStored(m: Memory, a: nat, x: nat)
    requires Stored(m, a, LinkBytes(x)) && x < Power256(8)
    ensures LoadWord(m, a) == x
  {
    hide ByteOf, Word, Power256, Xor;
    WordOfBytes(x, 8);
    var s := seq(8, k requires 0 <= k => m(a + k));
    forall k: nat | k < 8 ensures s[k] == LowBytes(x, 8)[k] {
      assert ByteAt(m, a, k) == LinkBytes(x)[k];
    }
    assert s == LowBytes(x, 8);
  }

  /** Decoding undoes encoding. */
  lemma LoadShadowStored(m: Memory, a: nat, x: nat, key: nat)
    requires Stored(m, a, ShadowBytes(x, key)) && x < Power256(8)
    ensures LoadShadow(m, a, key) == x
  {
    hide ByteOf, Word, Power256, Xor;
    WordOfBytes(x, 8);
    var s := seq(8, k requires 0 <= k < 8 => Xor(m(a + 7 - k), ByteOf(key, 7 - k)));
    forall k: nat | k < 8 ensures s[k] == LowBytes(x, 8)[k] {
      assert ByteAt(m, a, 7 - k) == ShadowBytes(x, key)[7 - k];
      XorTwice(ByteOf(x, k), ByteOf(key, 7 - k));
    }
    assert s == LowBytes(x, 8);
  }

  lemma {:induction false} WordByte(s: seq<byte>, k: nat)
    requires k < |s|
    ensures ByteOf(Word(s), k) == s[k]
  {
    var w, rest := Word(s), Word(s[1..]);
    assert w % 256 == s[0] as nat && w / 256 == rest;
    if k > 0 { WordByte(s[1..], k - 1); }
  }

  /** Byte k of a decoded pointer is the byte at the mirrored place of the shadow, xored with that of the key. */
  lemma DecodedByte(m: Memory, a: nat, key: nat, k: nat)
    requires k < 8
    ensures ByteOf(LoadShadow(m, a, key), k) == Xor(ByteAt(m, a, 7 - k), ByteOf(key, 7 - k))
  {
    hide ByteOf, Word, Xor;
    var s := seq(8, k requires 0 <= k < 8 => Xor(m(a + 7 - k), ByteOf(key, 7 - k)));
    WordByte(s, k);
  }

  lemma {:induction false} XorBitsSame(x: nat, y: nat, n: nat)
    ensures XorBits(x, y, n) == XorBits(y, x, n)
  {
    if n > 0 { XorBitsSame(x / 2, y / 2, n - 1); }
  }

  lemma XorDiffers(x: byte, y: byte, z: byte)
    requires x != y
    ensures Xor(x, z) != Xor(y, z) && Xor(z, x) != Xor(z, y)
  {
    hide XorBits;
    XorTwice(x, z);
    XorTwice(y, z);
    XorBitsSame(x as nat, z as nat, 8);
    XorBitsSame(y as nat, z as nat, 8);
  }

  /** What the shadow is for: overwriting byte k of it changes byte 7 - k of the decoded pointer and no other, so that an
      overflow by one byte hits the most significant one. */
  lemma ShadowGuards(m: Memory, m': Memory, a: nat, key: nat, k: nat)
    requires k < 8 && forall i: nat | i < 8 :: ByteAt(m', a, i) == ByteAt(m, a, i) <==> i != k
    ensures forall j: nat | j < 8 :: ByteOf(LoadShadow(m', a, key), j) == ByteOf(LoadShadow(m, a, key), j) <==> j != 7 - k
  {
    hide ByteOf, Word, Xor, LoadShadow;
    forall j: nat | j < 8 ensures ByteOf(LoadShadow(m', a, key), j) == ByteOf(LoadShadow(m, a, key), j) <==> j != 7 - k {
      DecodedByte(m, a, key, j);
      DecodedByte(m', a, key, j);
      if j == 7 - k {
        XorDiffers(ByteAt(m', a, k), ByteAt(m, a, k), ByteOf(key, k));
      } else {
        assert ByteAt(m', a, 7 - j) == ByteAt(m, a, 7 - j);
      }
    }
  }

  /** And without the key it cannot be forged: a shadow made with another key decodes to another pointer. */
  lemma KeyGuards(m: Memory, a: nat, x: nat, key: nat, key': nat, k: nat)
    requires Stored(m, a, ShadowBytes(x, key)) && x < Power256(8) && k < 8 && ByteOf(key, k) != ByteOf(key', k)
    ensures LoadShadow(m, a, key') != x
  {
    hide ByteOf, Word, Xor, LoadShadow, Power256, ShadowBytes;
    LoadShadowStored(m, a, x, key);
    DecodedByte(m, a, key, 7 - k);
    DecodedByte(m, a, key', 7 - k);
    XorDiffers(ByteOf(key, k), ByteOf(key', k), m(a + k));
  }

  lemma StoredStays(m: Memory, m': Memory, slot: nat, n: nat, at: nat, bytes: seq<byte>)
    requires Stored(m, slot + at, bytes) && SameBytes(m, slot, m', slot, n) && at + |bytes| <= n
    ensures Stored(m', slot + at, bytes)
  {
    forall i: nat | i < |bytes| ensures ByteAt(m', slot + at, i) == bytes[i] {
      assert ByteAt(m', slot, at + i) == ByteAt(m, slot, at + i);
      assert ByteAt(m, slot + at, i) == bytes[i];
    }
  }
}
