/** The longest common subsequence computation of the Differ class of run-tests.php. */
module CommonSubsequence {
  import opened Sequences

  type Line = string

  // ---- subsequences ------------------------------------------------------------

  /** s can be obtained from a by deleting elements. */
  predicate Subseq(s: seq<Line>, a: seq<Line>) {
    if s == [] then true
    else if a == [] then false
    else if s[0] == a[0] then Subseq(s[1..], a[1..])
    else Subseq(s, a[1..])
  }

  predicate Common(s: seq<Line>, a: seq<Line>, b: seq<Line>) {
    Subseq(s, a) && Subseq(s, b)
  }

  lemma {:induction false} SubseqWeaken(s: seq<Line>, a: seq<Line>)
    requires a != [] && Subseq(s, a[1..])
    ensures Subseq(s, a)
    decreases |a|, 0
  {
    if s != [] && s[0] == a[0] {
      SubseqTail(s, a[1..]);
    }
  }

  lemma {:induction false} SubseqTail(s: seq<Line>, a: seq<Line>)
    requires s != [] && Subseq(s, a)
    ensures Subseq(s[1..], a)
    decreases |a|, 1
  {
    if s[0] != a[0] {
      SubseqTail(s, a[1..]);
    }
    SubseqWeaken(s[1..], a);
  }

  lemma {:induction false} SubseqAppend(s: seq<Line>, a: seq<Line>, t: seq<Line>, b: seq<Line>)
    requires Subseq(s, a) && Subseq(t, b)
    ensures Subseq(s + t, a + b)
    decreases |a|
  {
    if a == [] {
      assert s + t == t && a + b == b;
    } else {
      assert (a + b)[1..] == a[1..] + b;
      if s != [] && s[0] == a[0] {
        assert (s + t)[1..] == s[1..] + t;
        SubseqAppend(s[1..], a[1..], t, b);
      } else {
        SubseqAppend(s, a[1..], t, b);
        SubseqWeaken(s + t, a + b);
      }
    }
  }

  /** A subsequence of a + b divides into one of a and one of b. */
  lemma {:induction false} SubseqSplit(s: seq<Line>, a: seq<Line>, b: seq<Line>) returns (k: nat)
    requires Subseq(s, a + b)
    ensures k <= |s| && Subseq(s[..k], a) && Subseq(s[k..], b)
    decreases |a|
  {
    if a == [] {
      assert a + b == b && s[0..] == s;
      k := 0;
    } else if s == [] {
      k := 0;
    } else {
      assert (a + b)[1..] == a[1..] + b;
      if s[0] == a[0] {
        k := SubseqSplit(s[1..], a[1..], b);
        k := k + 1;
        assert s[..k][1..] == s[1..][..k - 1] && s[k..] == s[1..][k - 1..];
      } else {
        k := SubseqSplit(s, a[1..], b);
        SubseqWeaken(s[..k], a);
      }
    }
  }

  /** The converse: if s + t fits into b, then b can be cut so that s fits before the cut and t behind it. */
  lemma {:induction false} SubseqCut(s: seq<Line>, t: seq<Line>, b: seq<Line>) returns (j: nat)
    requires Subseq(s + t, b)
    ensures j <= |b| && Subseq(s, b[..j]) && Subseq(t, b[j..])
    decreases |b|
  {
    if s == [] {
      assert s + t == t && b[0..] == b;
      j := 0;
    } else {
      assert (s + t)[1..] == s[1..] + t && (s + t)[0] == s[0];
      if s[0] == b[0] {
        j := SubseqCut(s[1..], t, b[1..]);
        assert b[..j + 1][1..] == b[1..][..j] && b[j + 1..] == b[1..][j..];
      } else {
        j := SubseqCut(s, t, b[1..]);
        assert b[..j + 1][1..] == b[1..][..j] && b[j + 1..] == b[1..][j..];
      }
      j := j + 1;
    }
  }

  lemma {:induction false} SubseqSelf(a: seq<Line>)
    ensures Subseq(a, a)
  {
    if a != [] { SubseqSelf(a[1..]); }
  }

  lemma {:induction false} SubseqShort(s: seq<Line>, a: seq<Line>)
    requires Subseq(s, a)
    ensures |s| <= |a|
    decreases |a|
  {
    if s != [] {
      if s[0] == a[0] { SubseqShort(s[1..], a[1..]); } else { SubseqShort(s, a[1..]); }
    }
  }

  function Init(a: seq<Line>): seq<Line>
    requires a != []
  {
    a[..|a| - 1]
  }

  function Last(a: seq<Line>): Line
    requires a != []
  {
    a[|a| - 1]
  }

  lemma {:induction false} SubseqPrefix(s: seq<Line>, a: seq<Line>, k: nat)
    requires k <= |s| && Subseq(s, a)
    ensures Subseq(s[..k], a)
  {
    assert s[..k] + s[k..] == s;
    var j := SubseqCut(s[..k], s[k..], a);
    SubseqEmpty(a[j..]);
    SubseqAppend(s[..k], a[..j], [], a[j..]);
    assert a[..j] + a[j..] == a && s[..k] + [] == s[..k];
  }

  lemma SubseqEmpty(a: seq<Line>)
    ensures Subseq([], a)
  {
  }

  /** What the last elements say. */
  lemma {:induction false} SubseqLast(s: seq<Line>, a: seq<Line>)
    requires s != [] && a != [] && Subseq(s, a)
    ensures Subseq(Init(s), Init(a))
    ensures Last(s) != Last(a) ==> Subseq(s, Init(a))
  {
    assert a == Init(a) + [Last(a)];
    var k := SubseqSplit(s, Init(a), [Last(a)]);
    SubseqShort(s[k..], [Last(a)]);
    if k == |s| {
      assert s[..k] == s;
      SubseqPrefix(s, Init(a), |s| - 1);
    } else {
      assert s[k..] == [Last(s)];
    }
  }

  // ---- the length of a longest common subsequence --------------------------------

  function Max(a: nat, b: nat): nat { if a > b then a else b }

  function Lcs(a: seq<Line>, b: seq<Line>): nat
    decreases |a| + |b|
  {
    if a == [] || b == [] then 0
    else if Last(a) == Last(b) then Lcs(Init(a), Init(b)) + 1
    else Max(Lcs(Init(a), b), Lcs(a, Init(b)))
  }

  /** No common subsequence is longer ... */
  lemma {:induction false} LcsIsBound(s: seq<Line>, a: seq<Line>, b: seq<Line>)
    requires Common(s, a, b)
    ensures |s| <= Lcs(a, b)
    decreases |a| + |b|
  {
    hide Subseq;
    if s != [] {
      SubseqShort(s, a);
      SubseqShort(s, b);
      SubseqLast(s, a);
      SubseqLast(s, b);
      if Last(a) == Last(b) {
        LcsIsBound(Init(s), Init(a), Init(b));
      } else if Last(s) != Last(a) {
        LcsIsBound(s, Init(a), b);
      } else {
        LcsIsBound(s, a, Init(b));
      }
    }
  }

  /** ... and one is as long. */
  lemma {:induction false} LcsIsReached(a: seq<Line>, b: seq<Line>) returns (s: seq<Line>)
    ensures Common(s, a, b) && |s| == Lcs(a, b)
    decreases |a| + |b|
  {
    if a == [] || b == [] {
      s := [];
    } else if Last(a) == Last(b) {
      s := LcsIsReached(Init(a), Init(b));
      SubseqSelf([Last(a)]);
      SubseqAppend(s, Init(a), [Last(a)], [Last(a)]);
      SubseqAppend(s, Init(b), [Last(b)], [Last(b)]);
      assert Init(a) + [Last(a)] == a && Init(b) + [Last(b)] == b;
      s := s + [Last(a)];
    } else if Lcs(Init(a), b) > Lcs(a, Init(b)) {
      s := LcsIsReached(Init(a), b);
      SubseqGrow(s, a);
    } else {
      s := LcsIsReached(a, Init(b));
      SubseqGrow(s, b);
    }
  }

  lemma SubseqGrow(s: seq<Line>, a: seq<Line>)
    requires a != [] && Subseq(s, Init(a))
    ensures Subseq(s, a)
  {
    SubseqEmpty([Last(a)]);
    SubseqAppend(s, Init(a), [], [Last(a)]);
    assert Init(a) + [Last(a)] == a && s + [] == s;
  }

  // ---- reversal ----------------------------------------------------------------

  lemma {:induction false} SubseqReversed(s: seq<Line>, a: seq<Line>)
    requires Subseq(s, a)
    ensures Subseq(Reversed(s), Reversed(a))
    decreases |a|
  {
    if s == [] {
    } else if s[0] == a[0] {
      SubseqReversed(s[1..], a[1..]);
      SubseqSelf([a[0]]);
      SubseqAppend(Reversed(s[1..]), Reversed(a[1..]), [a[0]], [a[0]]);
    } else {
      SubseqReversed(s, a[1..]);
      SubseqEmpty([a[0]]);
      SubseqAppend(Reversed(s), Reversed(a[1..]), [], [a[0]]);
      assert Reversed(s) + [] == Reversed(s);
    }
  }

  lemma LcsReversedAtMost(a: seq<Line>, b: seq<Line>)
    ensures Lcs(a, b) <= Lcs(Reversed(a), Reversed(b))
  {
    hide Subseq, Lcs;
    var s := LcsIsReached(a, b);
    SubseqReversed(s, a);
    SubseqReversed(s, b);
    LcsIsBound(Reversed(s), Reversed(a), Reversed(b));
  }

  lemma LcsReversed(a: seq<Line>, b: seq<Line>)
    ensures Lcs(Reversed(a), Reversed(b)) == Lcs(a, b)
  {
    hide Lcs;
    LcsReversedAtMost(a, b);
    LcsReversedAtMost(Reversed(a), Reversed(b));
    ReversedTwice(a);
    ReversedTwice(b);
  }

  // ---- dividing ----------------------------------------------------------------

  /** The optimum over both halves when the second list is cut at j. */
  function SplitLcs(a: seq<Line>, c: seq<Line>, b: seq<Line>, j: nat): nat
    requires j <= |b|
  {
    Lcs(a, b[..j]) + Lcs(c, b[j..])
  }

  lemma AppendAtMost(a: seq<Line>, c: seq<Line>, b: seq<Line>, d: seq<Line>)
    ensures Lcs(a, b) + Lcs(c, d) <= Lcs(a + c, b + d)
  {
    hide Subseq, Lcs;
    var s := LcsIsReached(a, b);
    var t := LcsIsReached(c, d);
    SubseqAppend(s, a, t, c);
    SubseqAppend(s, b, t, d);
    LcsIsBound(s + t, a + c, b + d);
  }

  /** No cut does better than the whole, and some cut does as well. */
  lemma SplitIsBound(a: seq<Line>, c: seq<Line>, b: seq<Line>, j: nat)
    requires j <= |b|
    ensures SplitLcs(a, c, b, j) <= Lcs(a + c, b)
  {
    AppendAtMost(a, c, b[..j], b[j..]);
    assert b[..j] + b[j..] == b;
  }

  lemma SplitIsReached(a: seq<Line>, c: seq<Line>, b: seq<Line>) returns (j: nat)
    ensures j <= |b| && SplitLcs(a, c, b, j) == Lcs(a + c, b)
  {
    hide Subseq, Lcs;
    var s := LcsIsReached(a + c, b);
    var k := SubseqSplit(s, a, c);
    assert s[..k] + s[k..] == s;
    j := SubseqCut(s[..k], s[k..], b);
    LcsIsBound(s[..k], a, b[..j]);
    LcsIsBound(s[k..], c, b[j..]);
    SplitIsBound(a, c, b, j);
  }

  /** A common head or tail belongs to some longest common subsequence. */
  lemma LcsHead(x: Line, a: seq<Line>, b: seq<Line>)
    ensures Lcs([x] + a, [x] + b) == Lcs(a, b) + 1
  {
    AppendAtMost([x], a, [x], b);
    assert Lcs([x], [x]) == 1 + Lcs(Init([x]), Init([x]));
    var s := LcsIsReached([x] + a, [x] + b);
    assert ([x] + a)[1..] == a && ([x] + b)[1..] == b;
    if s != [] && s[0] == x {
      LcsIsBound(s[1..], a, b);
    } else {
      LcsIsBound(s, a, b);
    }
  }

  lemma {:induction false} LcsPrefix(p: seq<Line>, a: seq<Line>, b: seq<Line>)
    ensures Lcs(p + a, p + b) == |p| + Lcs(a, b)
  {
    hide Lcs;
    if p == [] {
      assert p + a == a && p + b == b;
    } else {
      LcsPrefix(p[1..], a, b);
      LcsHead(p[0], p[1..] + a, p[1..] + b);
      assert [p[0]] + (p[1..] + a) == p + a && [p[0]] + (p[1..] + b) == p + b;
    }
  }

  lemma {:induction false} LcsSuffix(a: seq<Line>, b: seq<Line>, e: seq<Line>)
    ensures Lcs(a + e, b + e) == Lcs(a, b) + |e|
    decreases |e|
  {
    if e == [] {
      assert a + e == a && b + e == b;
    } else {
      LcsSuffix(a, b, Init(e));
      assert Init(a + e) == a + Init(e) && Init(b + e) == b + Init(e);
    }
  }

  lemma {:induction false} LcsSingle(x: Line, b: seq<Line>)
    ensures Lcs([x], b) == if x in b then 1 else 0
    decreases |b|
  {
    if b != [] {
      LcsSingle(x, Init(b));
      assert b == Init(b) + [Last(b)];
      assert Init([x]) == [];
    }
  }

  // ---- the algorithms -----------------------------------------------------------

  lemma LcsStep(a: seq<Line>, b: seq<Line>, i: nat, j: nat)
    requires i < |a| && j < |b|
    ensures Lcs(a[..i + 1], b[..j + 1]) ==
      if a[i] == b[j] then Lcs(a[..i], b[..j]) + 1 else Max(Lcs(a[..i + 1], b[..j]), Lcs(a[..i], b[..j + 1]))
  {
    assert Init(a[..i + 1]) == a[..i] && Init(b[..j + 1]) == b[..j];
  }

  /** commonSubsequenceLength: one rolling row of the table. */
  method CommonSubsequenceLength(from: seq<Line>, to: seq<Line>) returns (row: seq<nat>)
    ensures |row| == |to| + 1
    ensures forall j | 0 <= j <= |to| :: row[j] == Lcs(from, to[..j])
  {
    hide Lcs;
    var current := new nat[|to| + 1](_ => 0);
    LcsEmpty(to);
    assert from[..0] == [];
    for i := 0 to |from|
      invariant forall j | 0 <= j <= |to| :: current[j] == Lcs(from[..i], to[..j])
    {
      var prev := current[..];
      LcsRowStart(from[..i + 1], to);
      LcsRowStart(from[..i], to);
      for j := 0 to |to|
        invariant forall k | 0 <= k <= j :: current[k] == Lcs(from[..i + 1], to[..k])
      {
        LcsStep(from, to, i, j);
        if from[i] == to[j] {
          current[j + 1] := prev[j] + 1;
        } else {
          current[j + 1] := Max(current[j], prev[j + 1]);
        }
      }
    }
    assert from[..|from|] == from;
    row := current[..];
  }

  lemma LcsEmpty(b: seq<Line>)
    ensures forall j | 0 <= j <= |b| :: Lcs([], b[..j]) == 0
  {
  }

  lemma LcsRowStart(a: seq<Line>, b: seq<Line>)
    ensures Lcs(a, b[..0]) == 0
  {
  }

  lemma ReversedRow(a: seq<Line>, b: seq<Line>, j: nat)
    requires j <= |b|
    ensures Lcs(Reversed(a), Reversed(b)[..|b| - j]) == Lcs(a, b[j..])
  {
    hide Lcs;
    assert b[..j] + b[j..] == b;
    ReversedAppend(b[..j], b[j..]);
    assert Reversed(b)[..|b| - j] == Reversed(b[j..]);
    LcsReversed(a, b[j..]);
  }

  /** The cut the loop over $j settles on: where the two rows add up to most. */
  method BestCut(fromStart: seq<Line>, fromEnd: seq<Line>, to: seq<Line>) returns (jMax: nat)
    ensures jMax <= |to|
    ensures forall j | 0 <= j <= |to| :: SplitLcs(fromStart, fromEnd, to, j) <= SplitLcs(fromStart, fromEnd, to, jMax)
    ensures forall j | jMax < j <= |to| :: SplitLcs(fromStart, fromEnd, to, j) < SplitLcs(fromStart, fromEnd, to, jMax)
  {
    hide Lcs;
    var llB := CommonSubsequenceLength(fromStart, to);
    var llE := CommonSubsequenceLength(Reversed(fromEnd), Reversed(to));
    jMax := 0;
    var max := 0;
    for j := 0 to |to| + 1
      invariant jMax <= |to| && (j > 0 ==> jMax < j && max == SplitLcs(fromStart, fromEnd, to, jMax)) && (j == 0 ==> max == 0)
      invariant forall k | 0 <= k < j :: SplitLcs(fromStart, fromEnd, to, k) <= max
      invariant forall k | jMax < k < j :: SplitLcs(fromStart, fromEnd, to, k) < max
    {
      ReversedRow(fromEnd, to, j);
      var m := llB[j] + llE[|to| - j];
      assert m == SplitLcs(fromStart, fromEnd, to, j);
      if m >= max {
        max := m;
        jMax := j;
      }
    }
  }

  /** calculateCommonSubsequence returns a longest common subsequence. */
  method CalculateCommonSubsequence(from: seq<Line>, to: seq<Line>) returns (common: seq<Line>)
    ensures Common(common, from, to)
    ensures forall s | Common(s, from, to) :: |s| <= |common|
    ensures |common| == Lcs(from, to)
    decreases |from|
  {
    hide Lcs;
    forall s | Common(s, from, to) ensures |s| <= Lcs(from, to) { LcsIsBound(s, from, to); }
    if |from| == 0 {
      LcsEmpty(to);
      assert to[..|to|] == to;
      return [];
    }
    if |from| == 1 {
      assert from == [from[0]];
      LcsSingle(from[0], to);
      for k := 0 to |to|
        invariant from[0] !in to[..k]
      {
        if from[0] == to[k] {
          SubseqElement(to, k);
          SubseqSelf(from);
          return [to[k]];
        }
        assert to[..k + 1] == to[..k] + [to[k]];
      }
      assert to[..|to|] == to;
      return [];
    }
    var i := |from| / 2;
    var jMax := BestCut(from[..i], from[i..], to);
    ghost var j := SplitIsReached(from[..i], from[i..], to);
    SplitIsBound(from[..i], from[i..], to, jMax);
    assert from[..i] + from[i..] == from && to[..jMax] + to[jMax..] == to;
    var first := CalculateCommonSubsequence(from[..i], to[..jMax]);
    var second := CalculateCommonSubsequence(from[i..], to[jMax..]);
    SubseqAppend(first, from[..i], second, from[i..]);
    SubseqAppend(first, to[..jMax], second, to[jMax..]);
    common := first + second;
  }

  lemma SubseqElement(a: seq<Line>, k: nat)
    requires k < |a|
    ensures Subseq([a[k]], a)
  {
    SubseqEmpty(a[..k]);
    SubseqEmpty(a[k + 1..]);
    SubseqSelf([a[k]]);
    SubseqAppend([], a[..k], [a[k]], [a[k]]);
    SubseqAppend([] + [a[k]], a[..k] + [a[k]], [], a[k + 1..]);
    assert a[..k] + [a[k]] + a[k + 1..] == a && [] + [a[k]] + [] == [a[k]];
  }
}
