/** The memory limits of Zend/zend_alloc.c: percentages of a limit in size_t arithmetic. */
module Limits {
  import opened Words

  const LONG_MAX := 0x7FFF_FFFF_FFFF_FFFF

  /** ZEND_MM_LIMIT_MAX */
  const LIMIT_MAX := 0x7FFF_FFFF_FFFF_FFFF

  const ONE_GB := 0x4000_0000

  /** r * (p / 100) + r * (p % 100) / 100 */
  function Low(r: nat, p: nat): nat {
    Wrap(Wrap(r * (p / 100)) + Wrap(r * (p % 100)) / 100)
  }

  /** scale_by_percent, every product and sum in size_t arithmetic. */
  function ScaleByPercent(value: nat, percent: int): nat {
    if percent <= 0 then 0
    else
      var p := percent;
      var q := value / 100;
      var r := value % 100;
      if q > SIZE_MAX / p then SIZE_MAX
      else
        var hi := Wrap(q * p);
        var lo := Low(r, p);
        if hi > SIZE_MAX - lo then SIZE_MAX else Wrap(hi + lo)
  }

  /** value * percent / 100 without any machine arithmetic, cut off at SIZE_MAX. */
  function Percentage(value: nat, percent: int): nat {
    if percent <= 0 then 0
    else
      MulNonNegative(value, percent);
      if value * percent / 100 > SIZE_MAX then SIZE_MAX else value * percent / 100
  }

  lemma MulNonNegative(a: nat, b: nat)
    ensures a * b >= 0
  {
  }

  lemma MulOrder(a: nat, b: nat, c: nat)
    requires a <= b
    ensures a * c <= b * c && c * a <= c * b
  {
  }

  /** q exceeds the quotient exactly when q * p exceeds the number divided. */
  lemma QuotientBound(q: nat, p: nat, m: nat)
    requires p >= 1
    ensures q > m / p <==> q * p > m
  {
    var d := m / p;
    assert d * p <= m < (d + 1) * p;
    if q > d { MulOrder(d + 1, q, p); } else { MulOrder(q, d, p); }
  }

  /** Splitting off the hundreds of the value ... */
  lemma SplitHundreds(q: nat, r: nat, p: nat)
    ensures (100 * q + r) * p / 100 == q * p + r * p / 100
  {
    assert (100 * q + r) * p == 100 * (q * p) + r * p;
    AddHundreds(q * p, r * p);
  }

  /** ... and of the percentage. */
  lemma SplitPercent(r: nat, p: nat)
    ensures r * p / 100 == r * (p / 100) + r * (p % 100) / 100
  {
    SplitHundreds(p / 100, p % 100, r);
    assert 100 * (p / 100) + p % 100 == p;
  }

  lemma AddHundreds(x: nat, y: nat)
    ensures (100 * x + y) / 100 == x + y / 100
  {
  }

  lemma LowIsExact(r: nat, p: nat)
    requires r < 100 && 1 <= p <= LONG_MAX
    ensures Low(r, p) == r * p / 100 && Low(r, p) <= SIZE_MAX
  {
    var a, b := p / 100, p % 100;
    SplitPercent(r, p);
    MulOrder(r, 99, a);
    MulOrder(r, 99, b);
    MulNonNegative(r, a);
    MulNonNegative(r, b);
    LowPieces(r * a, r * b, a, b);
  }

  lemma LowPieces(x: nat, y: nat, a: nat, b: nat)
    requires x <= 99 * a && y <= 99 * b && 100 * a + b <= LONG_MAX && b < 100
    ensures Wrap(Wrap(x) + Wrap(y) / 100) == x + y / 100 <= SIZE_MAX
  {
    assert x <= LONG_MAX && y <= 9801;
  }

  /** scale_by_percent is exact: no intermediate value wraps around. */
  lemma ScaleIsExact(value: nat, percent: int)
    requires value <= SIZE_MAX && percent <= LONG_MAX
    ensures ScaleByPercent(value, percent) == Percentage(value, percent)
  {
    hide Low;
    if percent > 0 {
      var p: nat, q, r := percent, value / 100, value % 100;
      QuotientBound(q, p, SIZE_MAX);
      LowIsExact(r, p);
      SplitHundreds(q, r, p);
      MulNonNegative(r, p);
      assert value == 100 * q + r;
      Pieces(q * p, Low(r, p), value * p / 100);
    }
  }

  lemma Pieces(hi: nat, lo: nat, all: nat)
    requires all == hi + lo
    ensures hi > SIZE_MAX ==> all > SIZE_MAX
    ensures hi <= SIZE_MAX && lo <= SIZE_MAX && hi <= SIZE_MAX - lo ==> Wrap(Wrap(hi) + lo) == all
    ensures hi <= SIZE_MAX ==> Wrap(hi) == hi
  {
  }

  /** What zend_mm_update_hard_limit promises: a fixed buffer of 1 GB above large limits, else a percentage. */
  function HardLimitFor(limit: nat, percent: int): nat {
    var h := if percent == -1 then (if limit > ONE_GB then limit + ONE_GB else 2 * limit) else Percentage(limit, percent);
    if h > LIMIT_MAX then LIMIT_MAX else h
  }

  /** The hard limit is never below the soft one. */
  lemma HardAboveSoft(limit: nat, percent: int)
    requires limit <= LIMIT_MAX && (percent == -1 || percent >= 100)
    ensures limit <= HardLimitFor(limit, percent) <= LIMIT_MAX
  {
    if percent >= 100 {
      MulOrder(100, percent, limit);
    }
  }

  /** The same without any machine number on the way. */
  lemma HardLimitIs(limit: nat, percent: int)
    requires limit <= LIMIT_MAX && (percent == -1 || percent >= 100)
    ensures percent == -1 && limit > ONE_GB ==> HardLimitFor(limit, percent) == if limit + ONE_GB > LIMIT_MAX then LIMIT_MAX else limit + ONE_GB
    ensures percent == -1 && limit <= ONE_GB ==> HardLimitFor(limit, percent) == 2 * limit
    ensures percent != -1 ==>
              && limit * percent / 100 >= 0
              && HardLimitFor(limit, percent) == if limit * percent / 100 > LIMIT_MAX then LIMIT_MAX else limit * percent / 100
  {
    if percent >= 100 { MulNonNegative(limit, percent); }
  }

  lemma TwoHundredPercent(limit: nat)
    requires limit <= ONE_GB
    ensures Percentage(limit, 200) == 2 * limit
  {
  }
}
