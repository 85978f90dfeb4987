/** Ordering the extension modules by their dependencies, in place, and starting them in that order
    (zend_sort_modules and zend_startup_module_ex of Zend/zend_API.c). */
module Modules {

  datatype Kind = Required | Conflicts | Optional

  datatype Dep = Dep(kind: Kind, name: string)

  datatype Module = Module(name: string, started: bool, deps: seq<Dep>)

  // ---- names -----------------------------------------------------------------------------

  function LowerChar(c: char): char {
    if 'A' <= c <= 'Z' then ((c as int) + 32) as char else c
  }

  /** zend_str_tolower_copy */
  function Lower(s: string): string {
    seq(|s|, i requires 0 <= i < |s| => LowerChar(s[i]))
  }

  /** strcasecmp(a, b) == 0 */
  predicate SameName(a: string, b: string) { Lower(a) == Lower(b) }

  /** The registry is a hash table keyed by lower-case names. */
  ghost predicate Distinct(s: seq<Module>) {
    forall i, j | 0 <= i < j < |s| :: !SameName(s[i].name, s[j].name)
  }

  // ---- dependencies ------------------------------------------------------------------------

  predicate Orders(d: Dep) { d.kind == Required || d.kind == Optional }

  /** m has still to be started and names r among the modules that should be started before it. */
  predicate DependsOn(m: Module, r: Module) {
    !m.started && exists k | 0 <= k < |m.deps| :: Orders(m.deps[k]) && SameName(m.deps[k].name, r.name)
  }

  /** No module depends on a later one. */
  ghost predicate Sorted(s: seq<Module>) {
    forall i, j | 0 <= i < j < |s| :: !DependsOn(s[i], s[j])
  }

  type Ranking = map<string, nat>

  /** The dependencies are acyclic: the ranks go down along them.  (A module may name itself.) */
  ghost predicate Ranked(s: seq<Module>, rank: Ranking) {
    && (forall m | m in s :: Lower(m.name) in rank)
    && forall m, r | m in s && r in s && DependsOn(m, r) && !SameName(m.name, r.name) :: rank[Lower(r.name)] < rank[Lower(m.name)]
  }

  ghost predicate Acyclic(s: seq<Module>) {
    exists rank :: Ranked(s, rank)
  }

  // ---- one step of the sort -------------------------------------------------------------------

  /** Where after b1 the module named by a dependency stands, or |s|. */
  function LaterNamed(s: seq<Module>, name: string, b2: nat): (r: nat)
    requires b2 <= |s|
    ensures b2 <= r <= |s| && (r < |s| ==> SameName(name, s[r].name))
    ensures forall j | b2 <= j < r :: !SameName(name, s[j].name)
    decreases |s| - b2
  {
    if b2 == |s| || SameName(name, s[b2].name) then b2 else LaterNamed(s, name, b2 + 1)
  }

  /** The swap partner the loops over dependencies and later buckets find for b1, or |s|. */
  function Partner(s: seq<Module>, b1: nat, k: nat): (r: nat)
    requires b1 < |s| && k <= |s[b1].deps|
    ensures r <= |s| && (r < |s| && !s[b1].started ==> b1 < r && DependsOn(s[b1], s[r]))
    ensures r == |s| ==> forall i, j | k <= i < |s[b1].deps| && b1 < j < |s| ::
              !(Orders(s[b1].deps[i]) && SameName(s[b1].deps[i].name, s[j].name))
    decreases |s[b1].deps| - k
  {
    if k == |s[b1].deps| then |s|
    else if !Orders(s[b1].deps[k]) then Partner(s, b1, k + 1)
    else
      var b2 := LaterNamed(s, s[b1].deps[k].name, b1 + 1);
      if b2 < |s| then b2 else Partner(s, b1, k + 1)
  }

  function SwapWith(s: seq<Module>, b1: nat): (r: nat)
    requires b1 < |s|
    ensures r <= |s| && (r < |s| ==> b1 < r && DependsOn(s[b1], s[r]))
    ensures r == |s| ==> forall j | b1 < j < |s| :: !DependsOn(s[b1], s[j])
  {
    if s[b1].started then |s| else Partner(s, b1, 0)
  }

  function Swapped(s: seq<Module>, i: nat, j: nat): (r: seq<Module>)
    requires i < j < |s|
    ensures |r| == |s| && multiset(r) == multiset(s)
  {
    var r := s[i := s[j]][j := s[i]];
    SwapMultiset(s, i, j);
    r
  }

  lemma SwapMultiset(s: seq<Module>, i: nat, j: nat)
    requires i < j < |s|
    ensures multiset(s[i := s[j]][j := s[i]]) == multiset(s)
  {
  }

  // ---- the sort --------------------------------------------------------------------------------

  /** Up to b1 no module depends on a later one. */
  ghost predicate SortedTo(s: seq<Module>, b1: int) {
    forall i, j | 0 <= i < b1 && i < j < |s| :: !DependsOn(s[i], s[j])
  }

  lemma SwapKeeps(s: seq<Module>, b1: nat, b2: nat)
    requires b1 < b2 < |s|
    ensures SortedTo(s, b1) ==> SortedTo(Swapped(s, b1, b2), b1)
    ensures Distinct(s) ==> Distinct(Swapped(s, b1, b2))
    ensures forall m :: m in Swapped(s, b1, b2) <==> m in s
  {
    hide DependsOn, SameName;
    var t := Swapped(s, b1, b2);
    forall m ensures m in t <==> m in s { assert m in multiset(t) <==> m in multiset(s); }
    if Distinct(s) {
      forall i, j | 0 <= i < j < |t| ensures !SameName(t[i].name, t[j].name) {
        var i', j' := if i == b1 then b2 else if i == b2 then b1 else i, if j == b1 then b2 else if j == b2 then b1 else j;
        assert t[i] == s[i'] && t[j] == s[j'];
        NameSymmetric(s[i'].name, s[j'].name);
      }
    }
  }

  lemma NameSymmetric(a: string, b: string)
    ensures SameName(a, b) == SameName(b, a)
  {
  }

  lemma NotSelf(s: seq<Module>, i: nat, j: nat)
    requires Distinct(s) && i < j < |s|
    ensures !SameName(s[i].name, s[j].name)
  {
  }

  ghost function RankOf(s: seq<Module>, i: nat, rank: Ranking): nat {
    if i < |s| && Lower(s[i].name) in rank then rank[Lower(s[i].name)] else 0
  }

  lemma SwappedIs(s: seq<Module>, i: nat, j: nat)
    requires i < j < |s|
    ensures Swapped(s, i, j) == s[i := s[j]][j := s[i]] && multiset(Swapped(s, i, j)) == multiset(s)
  {
  }

  /** The sort as a machine: n rounds of its loop from bucket b1 on. */
  function Rounds(s: seq<Module>, b1: nat, n: nat): (r: (seq<Module>, nat))
    requires b1 <= |s|
    ensures r.1 <= |r.0|
    decreases n
  {
    if n == 0 || b1 == |s| then (s, b1)
    else
      var b2 := SwapWith(s, b1);
      if b2 < |s| then Rounds(Swapped(s, b1, b2), b1, n - 1) else Rounds(s, b1 + 1, n - 1)
  }

  /** The sort of s ends with t. */
  ghost predicate SortsTo(s: seq<Module>, t: seq<Module>) {
    exists n: nat :: Rounds(s, 0, n) == (t, |t|)
  }

  lemma RoundsNext(s: seq<Module>, b1: nat, n: nat)
    requires b1 < |s|
    ensures Rounds(s, b1, n + 1) ==
            var b2 := SwapWith(s, b1); if b2 < |s| then Rounds(Swapped(s, b1, b2), b1, n) else Rounds(s, b1 + 1, n)
  {
  }

  lemma NoRounds(s: seq<Module>, b1: nat)
    requires b1 <= |s|
    ensures Rounds(s, b1, 0) == (s, b1)
  {
  }

  lemma LeftAlone(s: seq<Module>, b1: nat, b2: nat)
    requires b1 < b2 < |s| && DependsOn(s[b1], s[b2])
    ensures !Sorted(s)
  {
    hide DependsOn;
  }

  /** zend_sort_modules.  The retry on the bucket swapped in ends because its rank is lower.  A sorted array is left
      alone; otherwise the result is that of the rounds. */
  method SortModules(a: array<Module>, ghost rank: Ranking)
    requires Distinct(a[..]) && Ranked(a[..], rank)
    modifies a
    ensures Sorted(a[..]) && Distinct(a[..]) && multiset(a[..]) == multiset(old(a[..]))
    ensures SortsTo(old(a[..]), a[..]) && (Sorted(old(a[..])) ==> a[..] == old(a[..]))
  {
    hide DependsOn, SameName, Lower, Ranked, Distinct, Swapped, SwapWith, Rounds;
    var b1 := 0;
    ghost var n := 0;
    while b1 < a.Length
      invariant b1 <= a.Length && SortedTo(a[..], b1) && Distinct(a[..]) && Ranked(a[..], rank)
      invariant multiset(a[..]) == multiset(old(a[..])) && (Sorted(old(a[..])) ==> a[..] == old(a[..]))
      invariant forall m: nat :: Rounds(old(a[..]), 0, n + m) == Rounds(a[..], b1, m)
      decreases a.Length - b1, RankOf(a[..], b1, rank)
    {
      ghost var s, b := a[..], b1;
      var b2 := FindPartner(a, b1);
      if b2 < a.Length {
        RankFalls(s, b1, b2, rank);
        LeftAlone(s, b1, b2);
        SwapKeeps(s, b1, b2);
        SwappedIs(s, b1, b2);
        a[b1], a[b2] := a[b2], a[b1];
        assert a[..] == Swapped(s, b1, b2);
      } else {
        SortedNext(s, b1);
        b1 := b1 + 1;
      }
      forall m: nat ensures Rounds(old(a[..]), 0, n + 1 + m) == Rounds(a[..], b1, m) {
        RoundsNext(s, b, m);
        assert Rounds(old(a[..]), 0, n + (m + 1)) == Rounds(s, b, m + 1);
      }
      n := n + 1;
    }
    NoRounds(a[..], b1);
    assert Rounds(old(a[..]), 0, n + 0) == Rounds(a[..], b1, 0);
  }

  /** The two inner loops: over the dependencies of the module in bucket b1, and over the buckets behind it. */
  method FindPartner(a: array<Module>, b1: nat) returns (b2: nat)
    requires b1 < a.Length
    ensures b2 == SwapWith(a[..], b1)
  {
    var m := a[b1];
    if !m.started {
      var k := 0;
      while k < |m.deps|
        invariant k <= |m.deps| && Partner(a[..], b1, 0) == Partner(a[..], b1, k)
      {
        if Orders(m.deps[k]) {
          b2 := b1 + 1;
          while b2 < a.Length
            invariant b1 < b2 <= a.Length && LaterNamed(a[..], m.deps[k].name, b1 + 1) == LaterNamed(a[..], m.deps[k].name, b2)
          {
            if SameName(m.deps[k].name, a[b2].name) {
              return;
            }
            b2 := b2 + 1;
          }
        }
        k := k + 1;
      }
    }
    b2 := a.Length;
  }

  // ---- the sort ends exactly on acyclic dependencies ---------------------------------------------------

  ghost predicate Ends(s: seq<Module>) {
    exists n: nat :: Rounds(s, 0, n).1 == |Rounds(s, 0, n).0|
  }

  lemma {:induction false} RoundsSort(s: seq<Module>, b1: nat, n: nat)
    requires b1 <= |s| && SortedTo(s, b1)
    ensures var (t, b) := Rounds(s, b1, n); SortedTo(t, b) && multiset(t) == multiset(s) && |t| == |s|
    ensures Distinct(s) ==> Distinct(Rounds(s, b1, n).0)
    decreases n
  {
    hide DependsOn, SameName, SwapWith, SortedTo, Distinct, Swapped;
    if n > 0 && b1 < |s| {
      var b2 := SwapWith(s, b1);
      if b2 < |s| {
        SwapKeeps(s, b1, b2);
        RoundsSort(Swapped(s, b1, b2), b1, n - 1);
      } else {
        SortedNext(s, b1);
        RoundsSort(s, b1 + 1, n - 1);
      }
    }
  }

  lemma SortedNext(s: seq<Module>, b1: nat)
    requires b1 < |s| && SortedTo(s, b1) && SwapWith(s, b1) == |s|
    ensures SortedTo(s, b1 + 1)
  {
    hide DependsOn;
  }

  lemma RankAt(s: seq<Module>, i: nat, rank: Ranking)
    requires Ranked(s, rank) && i < |s|
    ensures Lower(s[i].name) in rank
  {
    assert s[i] in s;
  }

  /** The swap puts a module of lower rank into the bucket. */
  lemma RankFalls(s: seq<Module>, b1: nat, b2: nat, rank: Ranking)
    requires Ranked(s, rank) && Distinct(s) && b1 < b2 < |s| && DependsOn(s[b1], s[b2])
    ensures Lower(s[b1].name) in rank && Lower(s[b2].name) in rank && rank[Lower(s[b2].name)] < rank[Lower(s[b1].name)]
    ensures Ranked(Swapped(s, b1, b2), rank) && Swapped(s, b1, b2)[b1] == s[b2]
  {
    hide DependsOn, SameName, Lower;
    assert s[b1] in s && s[b2] in s;
    NotSelf(s, b1, b2);
    SwapKeeps(s, b1, b2);
  }

  lemma {:induction false} RankedRoundsEnd(s: seq<Module>, b1: nat, rank: Ranking) returns (n: nat)
    requires b1 <= |s| && Distinct(s) && Ranked(s, rank)
    ensures Rounds(s, b1, n).1 == |Rounds(s, b1, n).0|
    decreases |s| - b1, RankOf(s, b1, rank)
  {
    hide DependsOn, SameName, Lower, Swapped, SwapWith, Distinct, Ranked;
    n := 0;
    if b1 < |s| {
      RankAt(s, b1, rank);
      var b2 := SwapWith(s, b1);
      if b2 < |s| {
        RankFalls(s, b1, b2, rank);
        SwapKeeps(s, b1, b2);
        n := RankedRoundsEnd(Swapped(s, b1, b2), b1, rank);
      } else {
        if b1 + 1 < |s| { RankAt(s, b1 + 1, rank); }
        n := RankedRoundsEnd(s, b1 + 1, rank);
      }
      n := n + 1;
    }
  }

  /** The place of a name. */
  function Place(s: seq<Module>, name: string): (i: nat)
    requires exists m :: m in s && Lower(m.name) == name
    ensures i < |s| && Lower(s[i].name) == name
  {
    if Lower(s[0].name) == name then 0
    else
      assert exists m :: m in s[1..] && Lower(m.name) == name by {
        var m :| m in s && Lower(m.name) == name;
        assert s == [s[0]] + s[1..];
      }
      1 + Place(s[1..], name)
  }

  function Names(s: seq<Module>): set<string> {
    set m | m in s :: Lower(m.name)
  }

  /** An order in which nothing depends on anything later ranks the modules by their places. */
  lemma SortedIsAcyclic(s: seq<Module>, t: seq<Module>)
    requires Sorted(t) && Distinct(t) && multiset(t) == multiset(s)
    ensures Acyclic(s)
  {
    hide DependsOn, Lower, Sorted, Distinct, SameName;
    var rank := map x | x in Names(t) :: Place(t, x);
    forall m ensures m in s <==> m in t { assert m in multiset(s) <==> m in multiset(t); }
    forall m | m in s ensures Lower(m.name) in rank {
      assert m in t && Lower(m.name) in Names(t);
    }
    forall m, r | m in s && r in s && DependsOn(m, r) && !SameName(m.name, r.name)
      ensures rank[Lower(r.name)] < rank[Lower(m.name)]
    {
      EarlierPlace(t, m, r);
    }
    assert Ranked(s, rank);
  }

  lemma EarlierPlace(t: seq<Module>, m: Module, r: Module)
    requires Sorted(t) && Distinct(t) && m in t && r in t && DependsOn(m, r) && !SameName(m.name, r.name)
    ensures (exists x :: x in t && Lower(x.name) == Lower(m.name)) && (exists x :: x in t && Lower(x.name) == Lower(r.name))
    ensures Place(t, Lower(r.name)) < Place(t, Lower(m.name))
  {
    hide DependsOn, Lower, Distinct, Place;
    PlaceIs(t, m);
    PlaceIs(t, r);
  }

  lemma PlaceIs(t: seq<Module>, m: Module)
    requires Distinct(t) && m in t
    ensures exists x :: x in t && Lower(x.name) == Lower(m.name)
    ensures t[Place(t, Lower(m.name))] == m
  {
    hide Lower;
    var i := Place(t, Lower(m.name));
    var j :| 0 <= j < |t| && t[j] == m;
    assert SameName(t[i].name, t[j].name) && SameName(t[j].name, t[i].name);
  }

  /** The sort ends if and only if the dependencies of the modules still to be started are acyclic. */
  lemma SortEndsIffAcyclic(s: seq<Module>)
    requires Distinct(s)
    ensures Ends(s) <==> Acyclic(s)
  {
    hide DependsOn, SameName, Lower, Rounds;
    if Acyclic(s) {
      var rank :| Ranked(s, rank);
      var n := RankedRoundsEnd(s, 0, rank);
    }
    if Ends(s) {
      var n: nat :| Rounds(s, 0, n).1 == |Rounds(s, 0, n).0|;
      RoundsSort(s, 0, n);
      var t := Rounds(s, 0, n).0;
      assert Sorted(t);
      SortedIsAcyclic(s, t);
    }
  }

  // ---- starting the modules --------------------------------------------------------------------------

  /** A module with that name is in the list. */
  predicate Present(s: seq<Module>, name: string) {
    exists i | 0 <= i < |s| :: SameName(name, s[i].name)
  }

  predicate Needs(m: Module, name: string) {
    exists k | 0 <= k < |m.deps| :: m.deps[k] == Dep(Required, name)
  }

  /** Within n steps it shows that m cannot be started: a module it requires is absent, or cannot be started itself. */
  ghost predicate Doomed(s: seq<Module>, m: Module, n: nat)
    decreases n
  {
    n > 0 && !m.started
    && exists name :: Needs(m, name) && !SameName(name, m.name)
         && (!Present(s, name) || exists r :: r in s && SameName(name, r.name) && Doomed(s, r, n - 1))
  }

  ghost predicate Rejected(s: seq<Module>, m: Module) {
    exists n: nat :: Doomed(s, m, n)
  }

  /** A required module that bars m: it is absent or rejected itself. */
  ghost predicate Bars(s: seq<Module>, m: Module, name: string) {
    && Needs(m, name) && !SameName(name, m.name)
    && (!Present(s, name) || exists r :: r in s && SameName(name, r.name) && Rejected(s, r))
  }

  /** So a module is rejected only if a required one is absent or was itself rejected, and then always. */
  lemma RejectedIffBarred(s: seq<Module>, m: Module)
    ensures Rejected(s, m) <==> !m.started && exists name :: Bars(s, m, name)
  {
    hide Needs, SameName, Present;
    if Rejected(s, m) {
      var n: nat :| Doomed(s, m, n);
      var name :| Needs(m, name) && !SameName(name, m.name)
        && (!Present(s, name) || exists r :: r in s && SameName(name, r.name) && Doomed(s, r, n - 1));
      assert Bars(s, m, name);
    }
    if !m.started && exists name :: Bars(s, m, name) {
      var name :| Bars(s, m, name);
      if !Present(s, name) {
        assert Doomed(s, m, 1);
      } else {
        var r :| r in s && SameName(name, r.name) && Rejected(s, r);
        var n: nat :| Doomed(s, r, n);
        assert Doomed(s, m, n + 1);
      }
    }
  }

  lemma {:induction false} DoomedSame(s: seq<Module>, t: seq<Module>, m: Module, n: nat)
    requires forall x :: x in s <==> x in t
    ensures Doomed(s, m, n) == Doomed(t, m, n)
    decreases n
  {
    hide Needs, SameName, Present;
    if n > 0 {
      var n1: nat := n - 1;
      forall r ensures Doomed(s, r, n1) == Doomed(t, r, n1) { DoomedSame(s, t, r, n1); }
      forall name ensures Present(s, name) == Present(t, name) { PresentIs(s, name); PresentIs(t, name); }
    }
  }

  lemma PresentIs(s: seq<Module>, name: string)
    ensures Present(s, name) <==> exists m :: m in s && SameName(name, m.name)
  {
    hide SameName;
    if exists m :: m in s && SameName(name, m.name) {
      var m :| m in s && SameName(name, m.name);
      var i :| 0 <= i < |s| && s[i] == m;
    }
  }

  lemma RejectedSame(s: seq<Module>, t: seq<Module>, m: Module)
    requires multiset(s) == multiset(t)
    ensures Rejected(s, m) == Rejected(t, m)
  {
    hide Doomed;
    forall x ensures x in s <==> x in t { assert x in multiset(s) <==> x in multiset(t); }
    forall n: nat ensures Doomed(s, m, n) == Doomed(t, m, n) { DoomedSame(s, t, m, n); }
  }

  /** The modules among the first k that can be started, started. */
  ghost function Survivors(t: seq<Module>, k: nat): seq<Module>
    requires k <= |t|
  {
    if k == 0 then [] else Survivors(t, k - 1) + if Rejected(t, t[k - 1]) then [] else [t[k - 1].(started := true)]
  }

  lemma {:induction false} SurvivorsAre(t: seq<Module>, k: nat)
    requires k <= |t|
    ensures |Survivors(t, k)| <= k
    ensures forall r :: r in Survivors(t, k) <==> exists x :: 0 <= x < k && !Rejected(t, t[x]) && r == t[x].(started := true)
  {
    hide Rejected;
    if k > 0 {
      SurvivorsAre(t, k - 1);
    }
  }

  /** a and b come from two of the first k modules, in that order. */
  ghost predicate Follows(t: seq<Module>, k: nat, a: Module, b: Module)
    requires k <= |t|
  {
    exists x, y :: 0 <= x < y < k && a == t[x].(started := true) && b == t[y].(started := true)
  }

  lemma {:induction false} SurvivorsInOrder(t: seq<Module>, k: nat)
    requires k <= |t|
    ensures var r := Survivors(t, k); forall i, j | 0 <= i < j < |r| :: Follows(t, k, r[i], r[j])
  {
    hide Rejected;
    if k > 0 {
      SurvivorsInOrder(t, k - 1);
      SurvivorsAre(t, k - 1);
      var s, r := Survivors(t, k - 1), Survivors(t, k);
      forall i, j | 0 <= i < j < |r| ensures Follows(t, k, r[i], r[j]) {
        if j < |s| {
          assert Follows(t, k - 1, s[i], s[j]);
        } else {
          assert s[i] in s && r[j] == t[k - 1].(started := true);
        }
      }
    }
  }

  /** What the lookup of a required module finds while module k is being started. */
  lemma LookupMeans(t: seq<Module>, k: nat, name: string)
    requires Sorted(t) && Distinct(t) && k < |t| && !t[k].started && Needs(t[k], name)
    ensures var reg := Survivors(t, k) + [t[k].(started := true)] + t[k + 1..];
      (Present(reg, name) && forall i | 0 <= i < |reg| && SameName(name, reg[i].name) :: reg[i].started) <==> !Bars(t, t[k], name)
  {
    hide Rejected;
    var kept, me := Survivors(t, k), t[k].(started := true);
    var reg := kept + [me] + t[k + 1..];
    SurvivorsAre(t, k);
    NoneLater(t, k, name);
    RegistryParts(t, k, name);
    if SameName(name, t[k].name) {
      assert SameName(name, reg[|kept|].name);
    }
    PresentIs(t, name);
    PresentIs(reg, name);
    OneNamed(t, name);
  }

  /** Only the module itself and earlier ones can have a required name. */
  lemma NoneLater(t: seq<Module>, k: nat, name: string)
    requires Sorted(t) && k < |t| && !t[k].started && Needs(t[k], name)
    ensures forall j | k < j < |t| :: !SameName(name, t[j].name)
  {
    hide SameName;
    var d :| 0 <= d < |t[k].deps| && t[k].deps[d] == Dep(Required, name);
    forall j | k < j < |t| ensures !SameName(name, t[j].name) {
      assert !DependsOn(t[k], t[j]);
      assert Orders(t[k].deps[d]);
    }
  }

  lemma OneNamed(t: seq<Module>, name: string)
    requires Distinct(t)
    ensures forall i, j | 0 <= i < |t| && 0 <= j < |t| && SameName(name, t[i].name) && SameName(name, t[j].name) :: i == j
  {
    forall i, j | 0 <= i < j < |t| ensures !(SameName(name, t[i].name) && SameName(name, t[j].name)) {
      assert !SameName(t[i].name, t[j].name);
    }
  }

  lemma RegistryParts(t: seq<Module>, k: nat, name: string)
    requires k < |t| && forall j | k < j < |t| :: !SameName(name, t[j].name)
    ensures var reg := Survivors(t, k) + [t[k].(started := true)] + t[k + 1..];
      forall i | 0 <= i < |reg| && SameName(name, reg[i].name) ::
        reg[i].started && exists x :: 0 <= x <= k && reg[i] == t[x].(started := true) && (x < k ==> !Rejected(t, t[x]))
    ensures var reg := Survivors(t, k) + [t[k].(started := true)] + t[k + 1..];
      forall x | 0 <= x < k && !Rejected(t, t[x]) :: t[x].(started := true) in reg
  {
    hide Rejected, SameName;
    var kept, me := Survivors(t, k), t[k].(started := true);
    var reg := kept + [me] + t[k + 1..];
    SurvivorsAre(t, k);
    assert forall i | |kept| < i < |reg| :: reg[i] == t[k + i - |kept|];
    forall i | 0 <= i < |reg| && SameName(name, reg[i].name)
      ensures reg[i].started && exists x :: 0 <= x <= k && reg[i] == t[x].(started := true) && (x < k ==> !Rejected(t, t[x]))
    {
      if i < |kept| {
        assert reg[i] == kept[i] && kept[i] in kept;
      } else {
        assert i == |kept| && reg[i] == me;
      }
    }
    forall x | 0 <= x < k && !Rejected(t, t[x]) ensures t[x].(started := true) in reg {
      assert t[x].(started := true) in kept;
    }
  }

  class Registry {
    /** module_registry */
    var modules: seq<Module>

    /** zend_hash_find_ptr */
    method Find(name: string) returns (i: nat)
      ensures i <= |modules| && (i < |modules| ==> SameName(name, modules[i].name))
      ensures forall j | 0 <= j < i :: !SameName(name, modules[j].name)
    {
      i := 0;
      while i < |modules| && !SameName(name, modules[i].name)
        invariant i <= |modules| && forall j | 0 <= j < i :: !SameName(name, modules[j].name)
      {
        i := i + 1;
      }
    }

    /** zend_startup_module_ex on the module at place i (its startup function succeeds). */
    method StartModule(i: nat, ghost t: seq<Module>, ghost k: nat) returns (ok: bool)
      requires Sorted(t) && Distinct(t) && k < |t| && modules == Survivors(t, k) + t[k..] && i == |Survivors(t, k)|
      modifies this
      ensures ok <==> !Rejected(t, t[k])
      ensures ok ==> modules == Survivors(t, k) + [t[k].(started := true)] + t[k + 1..]
      ensures !ok ==> modules == Survivors(t, k) + [t[k]] + t[k + 1..]
    {
      hide Rejected, SameName, Needs, Bars, Sorted, Distinct;
      RejectedIffBarred(t, t[k]);
      assert t[k..] == [t[k]] + t[k + 1..];
      assert modules == Survivors(t, k) + [t[k]] + t[k + 1..];
      var m := modules[i];
      if m.started {
        assert t[k].(started := true) == t[k];
        return true;
      }
      modules := modules[i := m.(started := true)];
      ghost var reg := Survivors(t, k) + [t[k].(started := true)] + t[k + 1..];
      assert modules == reg;
      var j := 0;
      while j < |m.deps|
        invariant j <= |m.deps| && modules == reg
        invariant forall x | 0 <= x < j && m.deps[x].kind == Required :: !Bars(t, t[k], m.deps[x].name)
      {
        if m.deps[j].kind == Required {
          NeedsIs(m, j);
          LookupMeans(t, k, m.deps[j].name);
          var found := Find(m.deps[j].name);
          if found == |modules| || !modules[found].started {
            AbsentIs(reg, m.deps[j].name, found);
            modules := modules[i := modules[i].(started := false)];
            assert t[k].(started := true).(started := false) == t[k];
            assert modules == Survivors(t, k) + [t[k]] + t[k + 1..];
            return false;
          }
          FoundIs(t, k, m.deps[j].name, found);
        }
        j := j + 1;
      }
      AllNeeds(t, m);
      ok := true;
    }

    lemma NeedsIs(m: Module, j: nat)
      requires j < |m.deps| && m.deps[j].kind == Required
      ensures Needs(m, m.deps[j].name)
    {
      assert m.deps[j] == Dep(Required, m.deps[j].name);
    }

    lemma AbsentIs(reg: seq<Module>, name: string, found: nat)
      requires found <= |reg| && (found < |reg| ==> SameName(name, reg[found].name) && !reg[found].started)
      requires forall j | 0 <= j < found :: !SameName(name, reg[j].name)
      ensures !(Present(reg, name) && forall i | 0 <= i < |reg| && SameName(name, reg[i].name) :: reg[i].started)
    {
      hide SameName;
    }

    /** The module found is started, and so are all with that name: there is only one. */
    lemma FoundIs(t: seq<Module>, k: nat, name: string, found: nat)
      requires Sorted(t) && k < |t| && !t[k].started && Needs(t[k], name)
      requires var reg := Survivors(t, k) + [t[k].(started := true)] + t[k + 1..]; found < |reg| && SameName(name, reg[found].name)
      ensures var reg := Survivors(t, k) + [t[k].(started := true)] + t[k + 1..];
        Present(reg, name) && forall i | 0 <= i < |reg| && SameName(name, reg[i].name) :: reg[i].started
    {
      hide Rejected, SameName, Needs, Sorted;
      NoneLater(t, k, name);
      RegistryParts(t, k, name);
    }

    lemma AllNeeds(t: seq<Module>, m: Module)
      requires forall x | 0 <= x < |m.deps| && m.deps[x].kind == Required :: !Bars(t, m, m.deps[x].name)
      ensures forall name :: !Bars(t, m, name)
    {
      hide Rejected, SameName, Present;
    }

    /** zend_startup_modules: the modules are sorted, and each is started or thrown out.  Thrown out are exactly those
        that require a module that is absent or was thrown out itself; the others are in the order t of the sort. */
    method Startup(ghost rank: Ranking) returns (ghost t: seq<Module>)
      requires Distinct(modules) && Ranked(modules, rank)
      modifies this
      ensures forall r :: r in modules <==> exists m :: m in old(modules) && !Rejected(old(modules), m) && r == m.(started := true)
      ensures Sorted(t) && multiset(t) == multiset(old(modules)) && SortsTo(old(modules), t)
      ensures forall i, j | 0 <= i < j < |modules| :: Follows(t, |t|, modules[i], modules[j])
      ensures Sorted(old(modules)) ==> t == old(modules)
    {
      hide Rejected, SameName, Sorted, Distinct, Ranked, Survivors, Follows, SortsTo;
      ghost var s := modules;
      SortAll(rank);
      t := modules;
      StartAll();
      SurvivorsOfAll(s, t);
      SurvivorsInOrder(t, |t|);
    }

    method SortAll(ghost rank: Ranking)
      requires Distinct(modules) && Ranked(modules, rank)
      modifies this
      ensures Sorted(modules) && Distinct(modules) && multiset(modules) == multiset(old(modules))
      ensures SortsTo(old(modules), modules) && (Sorted(old(modules)) ==> modules == old(modules))
    {
      hide SameName, Sorted, Distinct, Ranked, SortsTo;
      var a := new Module[|modules|](i requires 0 <= i < |modules| reads this => modules[i]);
      assert a[..] == modules;
      SortModules(a, rank);
      modules := a[..];
    }

    /** zend_hash_apply: modules that cannot be started are removed on the way. */
    method StartAll()
      requires Sorted(modules) && Distinct(modules)
      modifies this
      ensures modules == Survivors(old(modules), |old(modules)|)
    {
      hide Rejected, SameName, Sorted, Distinct, Survivors;
      ghost var t := modules;
      NoneYet(t);
      var i := 0;
      ghost var k := 0;
      while i < |modules|
        invariant k <= |t| && i == |Survivors(t, k)| && modules == Survivors(t, k) + t[k..]
        decreases |t| - k
      {
        i := StartNext(i, t, k);
        k := k + 1;
      }
    }

    lemma NoneYet(t: seq<Module>)
      ensures Survivors(t, 0) == [] && Survivors(t, 0) + t[0..] == t
    {
    }

    /** One round: the module at place i is started, or removed. */
    method StartNext(i: nat, ghost t: seq<Module>, ghost k: nat) returns (next: nat)
      requires Sorted(t) && Distinct(t) && k < |t| && modules == Survivors(t, k) + t[k..] && i == |Survivors(t, k)|
      modifies this
      ensures modules == Survivors(t, k + 1) + t[k + 1..] && next == |Survivors(t, k + 1)|
    {
      hide Rejected, SameName, Sorted, Distinct, Survivors;
      StepStates(t, k);
      next := i;
      var ok := StartModule(i, t, k);
      if ok {
        next := i + 1;
      } else {
        DropMiddle(Survivors(t, k), t[k], t[k + 1..]);
        modules := modules[..i] + modules[i + 1..];
      }
    }

    lemma DropMiddle(x: seq<Module>, m: Module, y: seq<Module>)
      ensures (x + [m] + y)[..|x|] + (x + [m] + y)[|x| + 1..] == x + y
    {
    }

    lemma StepStates(t: seq<Module>, k: nat)
      requires k < |t|
      ensures Rejected(t, t[k]) ==> Survivors(t, k + 1) == Survivors(t, k)
      ensures !Rejected(t, t[k]) ==> Survivors(t, k + 1) == Survivors(t, k) + [t[k].(started := true)]
    {
      hide Rejected;
    }

    lemma SurvivorsOfAll(s: seq<Module>, t: seq<Module>)
      requires multiset(s) == multiset(t)
      ensures forall r :: r in Survivors(t, |t|) <==> exists m :: m in s && !Rejected(s, m) && r == m.(started := true)
    {
      hide Rejected;
      SurvivorsAre(t, |t|);
      forall m ensures (m in s <==> m in t) && Rejected(s, m) == Rejected(t, m) {
        assert m in multiset(s) <==> m in multiset(t);
        RejectedSame(s, t, m);
      }
      forall r ensures r in Survivors(t, |t|) <==> exists m :: m in s && !Rejected(s, m) && r == m.(started := true) {
        if x: nat :| x < |t| && !Rejected(t, t[x]) && r == t[x].(started := true) {
          assert t[x] in s;
        }
      }
    }
  }
}
