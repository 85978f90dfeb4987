/** Numbers of type size_t, and regions of memory. */
module Words {
  const SIZE_MAX := 0xFFFF_FFFF_FFFF_FFFF

  function Wrap(x: nat): nat { x % (SIZE_MAX + 1) }

  /** (size + alignment - 1) & ~(alignment - 1) in size_t arithmetic; the alignment is a power of two. */
  function AlignUp(size: nat, alignment: nat): nat
    requires alignment > 0
  {
    var w := Wrap(size + alignment - 1);
    Remainder(w, alignment);
    w - w % alignment
  }

  lemma Remainder(w: nat, n: nat)
    requires n > 0
    ensures 0 <= w % n <= w
  {
    if w >= n {
      assert w % n < n;
    }
  }

  /** The regions of m bytes at a and of n bytes at b do not overlap. */
  predicate Apart(a: int, m: int, b: int, n: int) {
    a + m <= b || b + n <= a
  }
}
