/** Reversing sequences. */
module Sequences {

  /** The elements from last to first: array_reverse. */
  function Reversed<T>(s: seq<T>): (r: seq<T>)
    ensures |r| == |s|
  {
    if s == [] then [] else Reversed(s[1..]) + [s[0]]
  }

  lemma {:induction false} ReversedSame<T>(s: seq<T>)
    ensures multiset(Reversed(s)) == multiset(s)
  {
    if s != [] {
      ReversedSame(s[1..]);
      assert s == [s[0]] + s[1..];
    }
  }

  lemma ReversedFirst<T>(s: seq<T>)
    ensures s != [] ==> Reversed(s) == Reversed(s[1..]) + [s[0]]
    ensures s == [] ==> Reversed(s) == []
  {
  }

  lemma {:induction false} ReversedAppend<T>(a: seq<T>, b: seq<T>)
    ensures Reversed(a + b) == Reversed(b) + Reversed(a)
    decreases |a|
  {
    if a == [] {
      assert a + b == b;
    } else {
      assert (a + b)[1..] == a[1..] + b;
      ReversedAppend(a[1..], b);
    }
  }

  lemma {:induction false} ReversedTwice<T>(a: seq<T>)
    ensures Reversed(Reversed(a)) == a
  {
    if a != [] {
      ReversedAppend(Reversed(a[1..]), [a[0]]);
      ReversedTwice(a[1..]);
    }
  }

  lemma ReversedPush<T>(q: seq<T>, t: T)
    ensures Reversed(q + [t]) == [t] + Reversed(q)
  {
    ReversedAppend(q, [t]);
  }

  lemma InReversed<T>(s: seq<T>)
    ensures forall t :: t in Reversed(s) <==> t in s
  {
    hide Reversed;
    ReversedSame(s);
    forall t ensures t in Reversed(s) <==> t in s {
      assert t in multiset(Reversed(s)) <==> t in multiset(s);
    }
  }
}
