/** The thread-safe resource manager of TSRM/TSRM.c: per-thread vectors of resources in a hash table.
    Every operation that takes the mutex is one step; the log records what is set up and torn down. */
module Tsrm {
  import opened Words

  type Thread = nat
  type Id = nat

  /** TSRM_ALIGNED_SIZE in size_t arithmetic. */
  function AlignedSize(size: nat): nat {
    AlignUp(size, 16)
  }

  /** TSRM_ALIGNED_SIZE(sizeof(tsrm_tls_entry)) */
  const HEADER: nat := 32

  /** Rounding up wraps exactly for the last fifteen sizes. */
  lemma AlignedSizeWraps(size: nat)
    requires size <= SIZE_MAX
    ensures AlignedSize(size) % 16 == 0
    ensures AlignedSize(size) >= size <==> size <= SIZE_MAX - 15
    ensures size <= SIZE_MAX - 15 ==> AlignedSize(size) < size + 16
  {
  }

  // ---- what happens to one storage ---------------------------------------------------

  /** Made: the storage of a resource is set up (allocated unless fast, and constructed if there is a constructor).
      Gone: it is torn down.  Entries carry serial numbers, so a storage is named by entry and resource id. */
  datatype Event = Made(entry: nat, id: Id) | Gone(entry: nat, id: Id)

  datatype Phase = Never | Up | Down | Broken

  /** The life of a storage as the log tells it; setting up twice, tearing down twice or at the wrong time breaks it. */
  function PhaseOf(log: seq<Event>, e: nat, i: Id): Phase {
    if log == [] then Never
    else
      var before := PhaseOf(log[..|log| - 1], e, i);
      var ev := log[|log| - 1];
      if ev.entry != e || ev.id != i then before
      else if ev.Made? then (if before == Never then Up else Broken)
      else (if before == Up then Down else Broken)
  }

  lemma PhaseStep(log: seq<Event>, ev: Event, e: nat, i: Id)
    ensures PhaseOf(log + [ev], e, i) ==
      if ev.entry != e || ev.id != i then PhaseOf(log, e, i)
      else if ev.Made? then (if PhaseOf(log, e, i) == Never then Up else Broken)
      else (if PhaseOf(log, e, i) == Up then Down else Broken)
  {
    assert (log + [ev])[..|log + [ev]| - 1] == log;
  }

  /** How often an event happens. */
  function Count(log: seq<Event>, ev: Event): nat {
    if log == [] then 0 else Count(log[..|log| - 1], ev) + if log[|log| - 1] == ev then 1 else 0
  }

  /** An unbroken life means: set up at most once, torn down at most once and only after it was set up. */
  lemma {:induction false} UnbrokenLife(log: seq<Event>, e: nat, i: Id)
    requires PhaseOf(log, e, i) != Broken
    ensures Count(log, Made(e, i)) == if PhaseOf(log, e, i) == Never then 0 else 1
    ensures Count(log, Gone(e, i)) == if PhaseOf(log, e, i) == Down then 1 else 0
  {
    if log != [] {
      UnbrokenLife(log[..|log| - 1], e, i);
    }
  }

  // ---- the tables --------------------------------------------------------------------

  datatype Slot = Null | Block(size: nat) | Fast(offset: nat)

  /** An element of resource_types_table. */
  datatype Type = Type(size: nat, fastOffset: nat, done: bool)

  /** tsrm_tls_entry; room is what malloc was asked for, the header and the reserved tail. */
  datatype Entry = Entry(serial: nat, thread: Thread, storage: seq<Slot>, room: nat)

  /** tls tells which entry the thread-local pointer of a thread refers to. */
  datatype State = State(table: seq<seq<Entry>>, types: seq<Type>, reservedPos: nat, reservedSize: nat,
                         tls: map<Thread, nat>, next: nat, log: seq<Event>)

  ghost predicate At(table: seq<seq<Entry>>, h: int, k: int) {
    0 <= h < |table| && 0 <= k < |table[h]|
  }

  ghost predicate HasSerial(table: seq<seq<Entry>>, e: nat) {
    exists h, k :: At(table, h, k) && table[h][k].serial == e
  }

  function SlotFor(t: Type): Slot {
    if t.done then Null else if t.fastOffset != 0 then Fast(t.fastOffset) else Block(t.size)
  }

  ghost predicate EntryOk(s: State, e: Entry) {
    && |e.storage| == |s.types| && e.serial < s.next && e.room == HEADER + s.reservedSize
    && forall i | 0 <= i < |s.types| :: e.storage[i] == SlotFor(s.types[i])
  }

  /** Threads have at most one entry, in the bucket of their hash; entries are as long as the type table. */
  ghost predicate TableOk(s: State) {
    && |s.table| >= 1
    && (forall h, k | At(s.table, h, k) :: EntryOk(s, s.table[h][k]) && s.table[h][k].thread % |s.table| == h)
    && Distinct(s.table)
  }

  ghost predicate Distinct(table: seq<seq<Entry>>) {
    forall h, k, g, j | At(table, h, k) && At(table, g, j) && (h != g || k != j) ::
      table[h][k].serial != table[g][j].serial && table[h][k].thread != table[g][j].thread
  }

  ghost predicate TlsOk(s: State) {
    forall t | t in s.tls :: exists h, k :: At(s.table, h, k) && s.table[h][k].thread == t && s.table[h][k].serial == s.tls[t]
  }

  ghost predicate Alive(s: State, e: nat, i: Id) {
    i < |s.types| && !s.types[i].done && HasSerial(s.table, e)
  }

  /** Every life is unbroken, and the storages that are up are those of the entries for the ids not removed. */
  ghost predicate LogOk(s: State) {
    && (forall e: nat, i: Id :: PhaseOf(s.log, e, i) != Broken)
    && (forall e: nat, i: Id :: PhaseOf(s.log, e, i) == Up <==> Alive(s, e, i))
    && (forall e: nat, i: Id | e >= s.next || i >= |s.types| :: PhaseOf(s.log, e, i) == Never)
  }

  /** Fast storages are aligned, lie inside the reserved tail and do not overlap. */
  ghost predicate FastOk(s: State) {
    && s.reservedPos <= s.reservedSize && s.reservedPos % 16 == 0
    && (forall i | 0 <= i < |s.types| && s.types[i].fastOffset != 0 ::
          s.types[i].fastOffset % 16 == 0 && HEADER <= s.types[i].fastOffset && s.types[i].fastOffset + s.types[i].size <= HEADER + s.reservedPos)
    && (forall i, j | 0 <= i < j < |s.types| && s.types[i].fastOffset != 0 && s.types[j].fastOffset != 0 ::
          s.types[i].fastOffset + s.types[i].size <= s.types[j].fastOffset)
  }

  ghost predicate Valid(s: State) {
    TableOk(s) && TlsOk(s) && LogOk(s) && FastOk(s)
  }

  // ---- the events of one entry -----------------------------------------------------------

  /** Setting up an entry: the resources in the order of their ids, but for the removed ones. */
  function MadeEvents(e: nat, types: seq<Type>, n: nat): seq<Event>
    requires n <= |types|
  {
    if n == 0 then [] else MadeEvents(e, types, n - 1) + if types[n - 1].done then [] else [Made(e, n - 1)]
  }

  /** Tearing down an entry: the reverse order, "to respect dependencies". */
  function GoneEvents(e: nat, types: seq<Type>, n: nat): seq<Event>
    requires n <= |types|
  {
    if n == 0 then [] else (if types[n - 1].done then [] else [Gone(e, n - 1)]) + GoneEvents(e, types, n - 1)
  }

  /** What is torn down goes before anything is set up; the storages of one entry go in the reverse order of their ids
      and come in the order of the ids. */
  predicate TwoInTurn(a: Event, b: Event) {
    && (b.Gone? ==> a.Gone?)
    && (a.entry == b.entry && a.Gone? && b.Gone? ==> a.id > b.id)
    && (a.entry == b.entry && a.Made? && b.Made? ==> a.id < b.id)
  }

  ghost predicate InTurn(events: seq<Event>) {
    forall m, n | 0 <= m < n < |events| :: TwoInTurn(events[m], events[n])
  }

  /** The storages of the entry e for the ids below n. */
  ghost predicate Theirs(events: seq<Event>, gone: bool, e: nat, n: nat) {
    forall m | 0 <= m < |events| :: events[m].Gone? == gone && events[m].entry == e && events[m].id < n
  }

  lemma {:induction false} GoneInTurn(e: nat, types: seq<Type>, n: nat)
    requires n <= |types|
    ensures var g := GoneEvents(e, types, n); Theirs(g, true, e, n) && InTurn(g)
  {
    if n > 0 { GoneInTurn(e, types, n - 1); }
  }

  lemma {:induction false} MadeInTurn(e: nat, types: seq<Type>, n: nat)
    requires n <= |types|
    ensures var g := MadeEvents(e, types, n); Theirs(g, false, e, n) && InTurn(g)
  {
    if n > 0 { MadeInTurn(e, types, n - 1); }
  }

  /** The storages of an entry are replaced by those of another. */
  lemma SwappedInTurn(e: nat, f: nat, types: seq<Type>)
    ensures InTurn(GoneEvents(e, types, |types|) + MadeEvents(f, types, |types|))
  {
    hide GoneEvents, MadeEvents;
    GoneInTurn(e, types, |types|);
    MadeInTurn(f, types, |types|);
  }

  lemma Suffixes(log: seq<Event>, a: seq<Event>, b: seq<Event>)
    ensures (log + a + b)[|log|..] == a + b && (log + b)[|log|..] == b
  {
  }

  /** Another entry is torn down after those before. */
  lemma NextInTurn(events: seq<Event>, e: nat, types: seq<Type>)
    requires InTurn(events) && forall m | 0 <= m < |events| :: events[m].Gone? && events[m].entry != e
    ensures InTurn(events + GoneEvents(e, types, |types|))
  {
    hide GoneEvents;
    GoneInTurn(e, types, |types|);
  }

  lemma {:induction false} PhaseMade(log: seq<Event>, e: nat, types: seq<Type>, n: nat)
    requires n <= |types|
    ensures forall f: nat, i: Id :: PhaseOf(log + MadeEvents(e, types, n), f, i) ==
              if f == e && i < n && !types[i].done then (if PhaseOf(log, f, i) == Never then Up else Broken) else PhaseOf(log, f, i)
  {
    hide PhaseOf;
    if n == 0 {
      assert log + [] == log;
    } else {
      PhaseMade(log, e, types, n - 1);
      var before := log + MadeEvents(e, types, n - 1);
      if types[n - 1].done {
        assert log + MadeEvents(e, types, n) == before;
      } else {
        assert log + MadeEvents(e, types, n) == before + [Made(e, n - 1)];
        forall f: nat, i: Id ensures PhaseOf(before + [Made(e, n - 1)], f, i) ==
          if f != e || i != n - 1 then PhaseOf(before, f, i) else if PhaseOf(before, f, i) == Never then Up else Broken
        {
          PhaseStep(before, Made(e, n - 1), f, i);
        }
      }
    }
  }

  lemma PhaseOneGone(log: seq<Event>, e: nat, j: Id)
    ensures forall f: nat, i: Id :: PhaseOf(log + [Gone(e, j)], f, i) ==
              if f != e || i != j then PhaseOf(log, f, i) else if PhaseOf(log, f, i) == Up then Down else Broken
  {
    hide PhaseOf;
    forall f: nat, i: Id ensures PhaseOf(log + [Gone(e, j)], f, i) ==
      if f != e || i != j then PhaseOf(log, f, i) else if PhaseOf(log, f, i) == Up then Down else Broken
    {
      PhaseStep(log, Gone(e, j), f, i);
    }
  }

  lemma {:induction false} PhaseGone(log: seq<Event>, e: nat, types: seq<Type>, n: nat)
    requires n <= |types|
    ensures forall f: nat, i: Id :: PhaseOf(log + GoneEvents(e, types, n), f, i) ==
              if f == e && i < n && !types[i].done then (if PhaseOf(log, f, i) == Up then Down else Broken) else PhaseOf(log, f, i)
    decreases n
  {
    hide PhaseOf;
    if n == 0 {
      assert log + [] == log;
    } else if types[n - 1].done {
      PhaseGone(log, e, types, n - 1);
      assert GoneEvents(e, types, n) == GoneEvents(e, types, n - 1);
    } else {
      var after := log + [Gone(e, n - 1)];
      PhaseOneGone(log, e, n - 1);
      PhaseGone(after, e, types, n - 1);
      assert log + GoneEvents(e, types, n) == after + GoneEvents(e, types, n - 1);
    }
  }

  // ---- each operation keeps the invariant ----------------------------------------------------

  /** A new resource id: every entry gets one more storage. */
  function Enlarged(table: seq<seq<Entry>>, slot: Slot): seq<seq<Entry>> {
    seq(|table|, h requires 0 <= h < |table| => seq(|table[h]|, k requires 0 <= k < |table[h]| => Longer(table[h][k], slot)))
  }

  function Longer(e: Entry, slot: Slot): Entry {
    e.(storage := e.storage + [slot])
  }

  lemma EnlargeStep(s: State, t: Type, log: seq<Event>, pos: nat)
    requires Valid(s) && !t.done && pos <= s.reservedSize && pos % 16 == 0
    requires forall e: nat, i: Id :: PhaseOf(log, e, i) == if i == |s.types| && HasSerial(s.table, e) then Up else PhaseOf(s.log, e, i)
    requires if t.fastOffset == 0 then pos == s.reservedPos else t.fastOffset == HEADER + s.reservedPos && pos == s.reservedPos + t.size
    ensures Valid(s.(types := s.types + [t], table := Enlarged(s.table, SlotFor(t)), log := log, reservedPos := pos))
  {
    hide PhaseOf, TlsOk, HasSerial;
    var s' := s.(types := s.types + [t], table := Enlarged(s.table, SlotFor(t)), log := log, reservedPos := pos);
    EnlargedSerials(s.table, SlotFor(t));
    EnlargedTls(s, s', SlotFor(t));
    SerialsOld(s);
  }

  lemma EnlargedSerials(table: seq<seq<Entry>>, slot: Slot)
    ensures var table' := Enlarged(table, slot);
      && (forall h, k :: At(table', h, k) <==> At(table, h, k))
      && (forall h, k | At(table, h, k) :: table'[h][k] == Longer(table[h][k], slot))
      && (forall e: nat :: HasSerial(table', e) <==> HasSerial(table, e))
  {
    var table' := Enlarged(table, slot);
    assert forall h, k :: At(table', h, k) <==> At(table, h, k);
    forall e: nat ensures HasSerial(table', e) <==> HasSerial(table, e) {
      if HasSerial(table, e) {
        var h, k :| At(table, h, k) && table[h][k].serial == e;
        assert At(table', h, k) && table'[h][k].serial == e;
      }
    }
  }

  lemma EnlargedTls(s: State, s': State, slot: Slot)
    requires TlsOk(s) && s'.tls == s.tls && s'.table == Enlarged(s.table, slot)
    ensures TlsOk(s')
  {
    EnlargedSerials(s.table, slot);
    forall x | x in s'.tls ensures exists h, k :: At(s'.table, h, k) && s'.table[h][k].thread == x && s'.table[h][k].serial == s'.tls[x] {
      var h, k :| At(s.table, h, k) && s.table[h][k].thread == x && s.table[h][k].serial == s.tls[x];
      assert At(s'.table, h, k);
    }
  }

  lemma SerialsOld(s: State)
    requires TableOk(s)
    ensures forall e: nat :: HasSerial(s.table, e) ==> e < s.next
  {
  }

  /** A new entry at the end of the chain of its bucket. */
  function Appended(table: seq<seq<Entry>>, h: nat, e: Entry): seq<seq<Entry>>
    requires h < |table|
  {
    table[h := table[h] + [e]]
  }

  function NewEntry(s: State, t: Thread): Entry {
    Entry(s.next, t, seq(|s.types|, i requires 0 <= i < |s.types| => SlotFor(s.types[i])), HEADER + s.reservedSize)
  }

  ghost predicate Absent(table: seq<seq<Entry>>, t: Thread) {
    forall h, k | At(table, h, k) :: table[h][k].thread != t
  }

  /** A thread without an entry gets one, set up for all ids. */
  function Joined(s: State, t: Thread): State
    requires |s.table| >= 1
  {
    s.(table := Appended(s.table, t % |s.table|, NewEntry(s, t)), next := s.next + 1, tls := s.tls[t := s.next],
       log := s.log + MadeEvents(s.next, s.types, |s.types|))
  }

  lemma AppendStep(s: State, t: Thread)
    requires Valid(s) && Absent(s.table, t)
    ensures Valid(Joined(s, t))
  {
    hide PhaseOf;
    var h0, e := t % |s.table|, NewEntry(s, t);
    var s' := Joined(s, t);
    var k0 := |s.table[h0]|;
    assert forall h, k :: At(s'.table, h, k) <==> At(s.table, h, k) || (h == h0 && k == k0);
    assert forall h, k | At(s.table, h, k) :: s'.table[h][k] == s.table[h][k];
    assert s'.table[h0][k0] == e;
    PhaseMade(s.log, s.next, s.types, |s.types|);
    SerialsAppended(s.table, h0, e);
    SerialsOld(s);
    TlsAppended(s, s', h0, k0);
  }

  lemma TlsAppended(s: State, s': State, h0: nat, k0: nat)
    requires TlsOk(s) && At(s'.table, h0, k0) && (forall h, k | At(s.table, h, k) :: At(s'.table, h, k) && s'.table[h][k] == s.table[h][k])
    requires s'.tls == s.tls[s'.table[h0][k0].thread := s'.table[h0][k0].serial]
    ensures TlsOk(s')
  {
    forall x | x in s'.tls ensures exists h, k :: At(s'.table, h, k) && s'.table[h][k].thread == x && s'.table[h][k].serial == s'.tls[x] {
      if x != s'.table[h0][k0].thread {
        var h, k :| At(s.table, h, k) && s.table[h][k].thread == x && s.table[h][k].serial == s.tls[x];
        assert At(s'.table, h, k);
      }
    }
  }

  lemma SerialsAppended(table: seq<seq<Entry>>, h0: nat, e: Entry)
    requires h0 < |table|
    ensures forall f: nat :: HasSerial(Appended(table, h0, e), f) <==> HasSerial(table, f) || f == e.serial
  {
    var t' := Appended(table, h0, e);
    assert At(t', h0, |table[h0]|) && t'[h0][|table[h0]|] == e;
    forall f: nat ensures HasSerial(t', f) <==> HasSerial(table, f) || f == e.serial {
      if HasSerial(table, f) {
        var h, k :| At(table, h, k) && table[h][k].serial == f;
        assert At(t', h, k) && t'[h][k].serial == f;
      }
      if HasSerial(t', f) {
        var h, k :| At(t', h, k) && t'[h][k].serial == f;
        assert (h == h0 && k == |table[h0]|) || (At(table, h, k) && table[h][k] == t'[h][k]);
      }
    }
  }

  /** An entry leaves the chain of its bucket. */
  function Removed(table: seq<seq<Entry>>, h: nat, k: nat): seq<seq<Entry>>
    requires h < |table| && k < |table[h]|
  {
    table[h := table[h][..k] + table[h][k + 1..]]
  }

  lemma RemovedAt(table: seq<seq<Entry>>, h0: nat, k0: nat)
    requires h0 < |table| && k0 < |table[h0]|
    ensures forall h, k :: At(Removed(table, h0, k0), h, k) <==> At(table, h, if h == h0 && k >= k0 then k + 1 else k) && k >= 0
    ensures forall h, k | At(Removed(table, h0, k0), h, k) ::
              Removed(table, h0, k0)[h][k] == table[h][if h == h0 && k >= k0 then k + 1 else k]
  {
  }

  lemma SerialsRemoved(table: seq<seq<Entry>>, h0: nat, k0: nat)
    requires h0 < |table| && k0 < |table[h0]| && Distinct(table)
    ensures forall f: nat :: HasSerial(Removed(table, h0, k0), f) <==> HasSerial(table, f) && f != table[h0][k0].serial
  {
    var t' := Removed(table, h0, k0);
    RemovedAt(table, h0, k0);
    forall f: nat ensures HasSerial(t', f) <==> HasSerial(table, f) && f != table[h0][k0].serial {
      if HasSerial(table, f) && f != table[h0][k0].serial {
        var h, k :| At(table, h, k) && table[h][k].serial == f;
        var k' := if h == h0 && k > k0 then k - 1 else k;
        assert At(t', h, k') && t'[h][k'].serial == f;
      }
      if HasSerial(t', f) {
        var h, k :| At(t', h, k) && t'[h][k].serial == f;
        var j := if h == h0 && k >= k0 then k + 1 else k;
        assert At(table, h, j) && table[h][j] == t'[h][k];
      }
    }
  }

  /** Thread exit: the entry is torn down and unlinked. */
  function Exited(s: State, h: nat, k: nat): State
    requires h < |s.table| && k < |s.table[h]|
  {
    var e := s.table[h][k];
    s.(table := Removed(s.table, h, k), tls := s.tls - {e.thread}, log := s.log + GoneEvents(e.serial, s.types, |s.types|))
  }

  lemma ExitStep(s: State, h0: nat, k0: nat)
    requires Valid(s) && h0 < |s.table| && k0 < |s.table[h0]|
    ensures Valid(Exited(s, h0, k0)) && Absent(Exited(s, h0, k0).table, s.table[h0][k0].thread)
  {
    hide PhaseOf;
    var s', e := Exited(s, h0, k0), s.table[h0][k0];
    RemovedAt(s.table, h0, k0);
    SerialsRemoved(s.table, h0, k0);
    assert At(s.table, h0, k0);
    PhaseGone(s.log, e.serial, s.types, |s.types|);
    ExitTls(s, h0, k0);
    ExitTable(s, h0, k0);
    assert HasSerial(s.table, e.serial);
  }

  lemma ExitTable(s: State, h0: nat, k0: nat)
    requires TableOk(s) && h0 < |s.table| && k0 < |s.table[h0]|
    ensures TableOk(Exited(s, h0, k0)) && Absent(Exited(s, h0, k0).table, s.table[h0][k0].thread)
  {
    hide MadeEvents, GoneEvents;
    RemovedAt(s.table, h0, k0);
    assert At(s.table, h0, k0);
  }

  lemma ExitTls(s: State, h0: nat, k0: nat)
    requires TlsOk(s) && h0 < |s.table| && k0 < |s.table[h0]|
    ensures TlsOk(Exited(s, h0, k0))
  {
    var s' := Exited(s, h0, k0);
    RemovedAt(s.table, h0, k0);
    forall x | x in s'.tls ensures exists h, k :: At(s'.table, h, k) && s'.table[h][k].thread == x && s'.table[h][k].serial == s'.tls[x] {
      var h, k :| At(s.table, h, k) && s.table[h][k].thread == x && s.table[h][k].serial == s.tls[x];
      var k' := if h == h0 && k > k0 then k - 1 else k;
      assert At(s'.table, h, k') && s'.table[h][k'] == s.table[h][k];
    }
  }

  /** A stale entry is torn down and a new one takes its place in the chain. */
  function Replaced(s: State, h: nat, k: nat): State
    requires h < |s.table| && k < |s.table[h]|
  {
    var e := s.table[h][k];
    s.(table := s.table[h := s.table[h][k := NewEntry(s, e.thread)]], next := s.next + 1, tls := s.tls[e.thread := s.next],
       log := s.log + GoneEvents(e.serial, s.types, |s.types|) + MadeEvents(s.next, s.types, |s.types|))
  }

  lemma ReplaceStep(s: State, h0: nat, k0: nat)
    requires Valid(s) && h0 < |s.table| && k0 < |s.table[h0]|
    ensures Valid(Replaced(s, h0, k0))
  {
    hide PhaseOf;
    var s', e := Replaced(s, h0, k0), s.table[h0][k0];
    assert At(s.table, h0, k0) && At(s'.table, h0, k0);
    assert forall h, k :: At(s'.table, h, k) <==> At(s.table, h, k);
    assert forall h, k | At(s.table, h, k) && (h != h0 || k != k0) :: s'.table[h][k] == s.table[h][k];
    SerialsReplaced(s, h0, k0);
    SerialsOld(s);
    PhaseGone(s.log, e.serial, s.types, |s.types|);
    PhaseMade(s.log + GoneEvents(e.serial, s.types, |s.types|), s.next, s.types, |s.types|);
    ReplaceTls(s, h0, k0);
    assert HasSerial(s.table, e.serial);
  }

  lemma SerialsReplaced(s: State, h0: nat, k0: nat)
    requires TableOk(s) && h0 < |s.table| && k0 < |s.table[h0]|
    ensures forall f: nat :: HasSerial(Replaced(s, h0, k0).table, f) <==> (HasSerial(s.table, f) && f != s.table[h0][k0].serial) || f == s.next
  {
    hide MadeEvents, GoneEvents;
    var t' := Replaced(s, h0, k0).table;
    assert At(s.table, h0, k0) && At(t', h0, k0);
    forall f: nat ensures HasSerial(t', f) <==> (HasSerial(s.table, f) && f != s.table[h0][k0].serial) || f == s.next {
      if HasSerial(s.table, f) && f != s.table[h0][k0].serial {
        var h, k :| At(s.table, h, k) && s.table[h][k].serial == f;
        assert At(t', h, k) && t'[h][k].serial == f;
      }
      if HasSerial(t', f) {
        var h, k :| At(t', h, k) && t'[h][k].serial == f;
        assert (h == h0 && k == k0) || (At(s.table, h, k) && s.table[h][k] == t'[h][k]);
      }
    }
  }

  lemma ReplaceTls(s: State, h0: nat, k0: nat)
    requires TlsOk(s) && TableOk(s) && h0 < |s.table| && k0 < |s.table[h0]|
    ensures TlsOk(Replaced(s, h0, k0))
  {
    hide MadeEvents, GoneEvents;
    var s', e := Replaced(s, h0, k0), s.table[h0][k0];
    assert At(s'.table, h0, k0) && s'.table[h0][k0] == NewEntry(s, e.thread);
    forall x | x in s'.tls ensures exists h, k :: At(s'.table, h, k) && s'.table[h][k].thread == x && s'.table[h][k].serial == s'.tls[x] {
      if x != e.thread {
        var h, k :| At(s.table, h, k) && s.table[h][k].thread == x && s.table[h][k].serial == s.tls[x];
        assert At(s'.table, h, k) && s'.table[h][k] == s.table[h][k];
      }
    }
  }

  /** An id is removed: its storage in every entry is gone, and no later entry will have one. */
  function Freed(table: seq<seq<Entry>>, i: Id): seq<seq<Entry>> {
    seq(|table|, h requires 0 <= h < |table| => seq(|table[h]|, k requires 0 <= k < |table[h]| => Without(table[h][k], i)))
  }

  function Without(e: Entry, i: Id): Entry {
    if i < |e.storage| then e.(storage := e.storage[i := Null]) else e
  }

  lemma FreedAt(table: seq<seq<Entry>>, id: Id)
    ensures forall h, k :: At(Freed(table, id), h, k) <==> At(table, h, k)
    ensures forall h, k | At(table, h, k) :: Freed(table, id)[h][k] == Without(table[h][k], id)
    ensures forall e: nat :: HasSerial(Freed(table, id), e) <==> HasSerial(table, e)
  {
    var t' := Freed(table, id);
    assert forall h, k :: At(t', h, k) <==> At(table, h, k);
    forall e: nat ensures HasSerial(t', e) <==> HasSerial(table, e) {
      if HasSerial(table, e) {
        var h, k :| At(table, h, k) && table[h][k].serial == e;
        assert At(t', h, k) && t'[h][k].serial == e;
      }
    }
  }

  lemma FreedTls(s: State, s': State, id: Id)
    requires TlsOk(s) && s'.table == Freed(s.table, id) && s'.tls == s.tls
    ensures TlsOk(s')
  {
    hide Freed;
    FreedAt(s.table, id);
    forall x | x in s'.tls ensures exists h, k :: At(s'.table, h, k) && s'.table[h][k].thread == x && s'.table[h][k].serial == s'.tls[x] {
      var h, k :| At(s.table, h, k) && s.table[h][k].thread == x && s.table[h][k].serial == s.tls[x];
      assert At(s'.table, h, k);
    }
  }

  lemma FreeIdStep(s: State, id: Id, log: seq<Event>)
    requires Valid(s) && id < |s.types|
    requires forall e: nat, i: Id :: PhaseOf(log, e, i) ==
               if i == id && HasSerial(s.table, e) && PhaseOf(s.log, e, i) == Up then Down else PhaseOf(s.log, e, i)
    ensures Valid(s.(types := s.types[id := s.types[id].(done := true)], table := Freed(s.table, id), log := log))
  {
    hide PhaseOf, Freed, HasSerial;
    var s' := s.(types := s.types[id := s.types[id].(done := true)], table := Freed(s.table, id), log := log);
    assert |s'.table| == |s.table| by { FreedLength(s.table, id); }
    FreedAt(s.table, id);
    FreedTls(s, s', id);
  }

  lemma FreedLength(table: seq<seq<Entry>>, id: Id)
    ensures |Freed(table, id)| == |table|
  {
  }

  // ---- what the invariant says ------------------------------------------------------------------

  /** Each storage is set up exactly once, torn down at most once and not before; those set up and not torn down
      are the storages of the entries in the table for the ids that were not removed. */
  lemma StoragesLiveOnce(s: State, e: nat, i: Id)
    requires Valid(s)
    ensures Count(s.log, Gone(e, i)) <= Count(s.log, Made(e, i)) <= 1
    ensures Count(s.log, Made(e, i)) - Count(s.log, Gone(e, i)) == 1 <==> Alive(s, e, i)
  {
    UnbrokenLife(s.log, e, i);
  }

  /** In every entry the fast storages are aligned, inside the block and pairwise disjoint. */
  lemma FastStorages(s: State, h: nat, k: nat, i: Id, j: Id)
    requires Valid(s) && At(s.table, h, k) && i < |s.types| && j < |s.types| && i != j
    requires s.types[i].fastOffset != 0 && s.types[j].fastOffset != 0
    ensures s.types[i].fastOffset % 16 == 0 && HEADER <= s.types[i].fastOffset
    ensures s.types[i].fastOffset + s.types[i].size <= s.table[h][k].room
    ensures s.types[i].fastOffset + s.types[i].size <= s.types[j].fastOffset || s.types[j].fastOffset + s.types[j].size <= s.types[i].fastOffset
  {
    hide LogOk, TlsOk;
    assert EntryOk(s, s.table[h][k]);
  }

  /** A thread has at most one entry, and it is found by its hash. */
  lemma OneEntryPerThread(s: State, h: nat, k: nat, g: nat, j: nat)
    requires Valid(s) && At(s.table, h, k) && At(s.table, g, j) && s.table[h][k].thread == s.table[g][j].thread
    ensures h == g == s.table[h][k].thread % |s.table| && k == j && |s.table[h][k].storage| == |s.types|
  {
    hide LogOk, TlsOk;
    assert EntryOk(s, s.table[h][k]);
  }

  /** The storages of an entry that come and go with one resource id, for the first h buckets and k entries of the next. */
  ghost predicate Visited(table: seq<seq<Entry>>, h: int, k: int, e: nat) {
    exists g, j :: At(table, g, j) && table[g][j].serial == e && (g < h || (g == h && j < k))
  }

  lemma VisitNext(table: seq<seq<Entry>>, h: nat, k: nat)
    requires Distinct(table) && At(table, h, k)
    ensures !Visited(table, h, k, table[h][k].serial)
    ensures forall e: nat :: Visited(table, h, k + 1, e) <==> Visited(table, h, k, e) || e == table[h][k].serial
  {
    forall e: nat ensures Visited(table, h, k + 1, e) <==> Visited(table, h, k, e) || e == table[h][k].serial {
      if e == table[h][k].serial {
        assert At(table, h, k);
      }
      if Visited(table, h, k, e) {
        var g, j :| At(table, g, j) && table[g][j].serial == e && (g < h || (g == h && j < k));
        assert At(table, g, j) && (g < h || (g == h && j < k + 1));
      }
    }
  }

  lemma VisitBucket(table: seq<seq<Entry>>, h: nat)
    requires h < |table|
    ensures forall e: nat :: Visited(table, h, |table[h]|, e) <==> Visited(table, h + 1, 0, e)
  {
    forall e: nat ensures Visited(table, h, |table[h]|, e) <==> Visited(table, h + 1, 0, e) {
      if Visited(table, h, |table[h]|, e) {
        var g, j :| At(table, g, j) && table[g][j].serial == e && (g < h || (g == h && j < |table[h]|));
        assert At(table, g, j) && g < h + 1;
      }
      if Visited(table, h + 1, 0, e) {
        var g, j :| At(table, g, j) && table[g][j].serial == e && (g < h + 1 || (g == h + 1 && j < 0));
        assert At(table, g, j) && (g < h || (g == h && j < |table[h]|));
      }
    }
  }

  lemma VisitEnds(table: seq<seq<Entry>>)
    ensures forall e: nat :: !Visited(table, 0, 0, e)
    ensures forall e: nat :: Visited(table, |table|, 0, e) <==> HasSerial(table, e)
  {
    forall e: nat ensures Visited(table, |table|, 0, e) <==> HasSerial(table, e) {
      if HasSerial(table, e) {
        var h, k :| At(table, h, k) && table[h][k].serial == e;
        assert At(table, h, k) && h < |table|;
      }
    }
  }

  // ---- the manager -----------------------------------------------------------------------------

  class Manager {
    /** tsrm_tls_table, resource_types_table, tsrm_reserved_pos and tsrm_reserved_size */
    var table: seq<seq<Entry>>
    var types: seq<Type>
    var reservedPos: nat
    var reservedSize: nat
    /** The thread-local pointers. */
    var tls: map<Thread, nat>
    var next: nat
    ghost var log: seq<Event>
    /** is_thread_shutdown of the main thread */
    var isShutdown: bool

    ghost function View(): State
      reads this
    {
      State(table, types, reservedPos, reservedSize, tls, next, log)
    }

    ghost predicate Ok()
      reads this
    {
      !isShutdown && Valid(View())
    }

    /** tsrm_startup */
    constructor (expectedThreads: nat)
      requires expectedThreads >= 1
      ensures Ok() && |table| == expectedThreads && types == [] && log == [] && tls == map[]
      ensures forall h | 0 <= h < |table| :: table[h] == []
    {
      table := seq(expectedThreads, _ => []);
      types, reservedPos, reservedSize, tls, next, log, isShutdown := [], 0, 0, map[], 0, [], false;
    }

    /** tsrm_reserve, called before there are entries and fast resources. */
    method Reserve(size: nat)
      requires Ok() && size <= SIZE_MAX && (forall h, k :: !At(table, h, k)) && forall i | 0 <= i < |types| :: types[i].fastOffset == 0
      modifies `reservedPos, `reservedSize
      ensures Ok() && reservedPos == 0 && reservedSize == AlignedSize(size)
    {
      reservedPos := 0;
      reservedSize := AlignedSize(size);
    }

    /** tsrm_update_active_threads for the one id registered last. */
    method UpdateActiveThreads(ghost s: State)
      requires Valid(s) && table == s.table && log == s.log && |types| == |s.types| + 1 && types[..|s.types|] == s.types
      requires !types[|s.types|].done
      modifies `table, `log
      ensures table == Enlarged(s.table, SlotFor(types[|s.types|])) && s.log <= log
      ensures forall e: nat, i: Id :: PhaseOf(log, e, i) == if i == |s.types| && HasSerial(s.table, e) then Up else PhaseOf(s.log, e, i)
    {
      hide PhaseOf, Visited, LogOk;
      ghost var id := |s.types|;
      var h := 0;
      VisitEnds(s.table);
      while h < |table|
        invariant h <= |table| == |s.table| && s.log <= log
        invariant table[h..] == s.table[h..] && forall g | 0 <= g < h :: table[g] == Enlarged(s.table, SlotFor(types[id]))[g]
        invariant forall e: nat, i: Id :: PhaseOf(log, e, i) == if i == id && Visited(s.table, h, 0, e) then Up else PhaseOf(s.log, e, i)
      {
        UpdateBucket(s, h);
        VisitBucket(s.table, h);
        h := h + 1;
      }
    }

    method UpdateBucket(ghost s: State, h: nat)
      requires Valid(s) && |types| == |s.types| + 1 && types[..|s.types|] == s.types && !types[|s.types|].done
      requires |table| == |s.table| && h < |table| && table[h] == s.table[h]
      requires forall e: nat, i: Id :: PhaseOf(log, e, i) == if i == |s.types| && Visited(s.table, h, 0, e) then Up else PhaseOf(s.log, e, i)
      modifies `table, `log
      ensures table == old(table)[h := Enlarged(s.table, SlotFor(types[|s.types|]))[h]] && old(log) <= log
      ensures forall e: nat, i: Id ::
        PhaseOf(log, e, i) == if i == |s.types| && Visited(s.table, h, |s.table[h]|, e) then Up else PhaseOf(s.log, e, i)
    {
      hide PhaseOf, Visited;
      ghost var id := |s.types|;
      var k := 0;
      while k < |table[h]|
        invariant |table| == |s.table| && k <= |table[h]| == |s.table[h]| && table == old(table)[h := table[h]] && old(log) <= log
        invariant table[h][k..] == s.table[h][k..]
        invariant forall j | 0 <= j < k :: table[h][j] == Longer(s.table[h][j], SlotFor(types[id]))
        invariant forall e: nat, i: Id :: PhaseOf(log, e, i) == if i == id && Visited(s.table, h, k, e) then Up else PhaseOf(s.log, e, i)
      {
        var p := table[h][k];
        assert p == s.table[h][k] && At(s.table, h, k) && |p.storage| == id;
        VisitNext(s.table, h, k);
        if |p.storage| < |types| {
          // storage for the new id, constructed at once
          var j := |p.storage|;
          NotMadeYet(s, p.serial);
          forall e: nat, i: Id ensures PhaseOf(log + [Made(p.serial, j)], e, i) ==
            if p.serial != e || j != i then PhaseOf(log, e, i) else if PhaseOf(log, e, i) == Never then Up else Broken
          {
            PhaseStep(log, Made(p.serial, j), e, i);
          }
          table := table[h := table[h][k := p.(storage := p.storage + [SlotFor(types[j])])]];
          log := log + [Made(p.serial, j)];
        }
        k := k + 1;
      }
      assert table[h] == Enlarged(s.table, SlotFor(types[id]))[h];
    }

    lemma NotMadeYet(s: State, e: nat)
      requires Valid(s)
      ensures PhaseOf(s.log, e, |s.types|) == Never
    {
      hide PhaseOf;
    }

    /** ts_allocate_id: every thread has the new storage at once.  The result is the id as handed out (from 1). */
    method AllocateId(size: nat) returns (rsrcId: nat)
      requires Ok()
      modifies `table, `types, `log
      ensures Ok() && rsrcId == |old(types)| + 1 && types == old(types) + [Type(size, 0, false)]
      ensures table == Enlarged(old(table), Block(size)) && old(log) <= log
      ensures forall e: nat, i: Id ::
                PhaseOf(log, e, i) == if i == rsrcId - 1 && HasSerial(old(table), e) then Up else PhaseOf(old(log), e, i)
      ensures forall e: nat | HasSerial(table, e) :: PhaseOf(log, e, rsrcId - 1) == Up
    {
      hide PhaseOf;
      ghost var s := View();
      rsrcId := |types| + 1;
      types := types + [Type(size, 0, false)];
      UpdateActiveThreads(s);
      EnlargeStep(s, Type(size, 0, false), log, reservedPos);
    }

    /** ts_allocate_fast_id when the reserved space suffices. */
    method AllocateFastId(size0: nat) returns (rsrcId: nat, offset: nat)
      requires Ok() && size0 <= SIZE_MAX && AlignedSize(size0) <= reservedSize - reservedPos
      modifies `table, `types, `log, `reservedPos
      ensures Ok() && rsrcId == |old(types)| + 1 && types == old(types) + [Type(AlignedSize(size0), offset, false)]
      ensures offset == HEADER + old(reservedPos) && table == Enlarged(old(table), Fast(offset)) && old(log) <= log
      ensures reservedPos == old(reservedPos) + AlignedSize(size0)
      ensures forall h, k | At(table, h, k) :: offset + AlignedSize(size0) <= table[h][k].room
      ensures forall e: nat, i: Id ::
                PhaseOf(log, e, i) == if i == rsrcId - 1 && HasSerial(old(table), e) then Up else PhaseOf(old(log), e, i)
      ensures forall e: nat | HasSerial(table, e) :: PhaseOf(log, e, rsrcId - 1) == Up
    {
      hide PhaseOf, AlignedSize;
      AlignedSizeWraps(size0);
      ghost var s := View();
      rsrcId := |types| + 1;
      var size := AlignedSize(size0);
      offset := HEADER + reservedPos;
      types := types + [Type(size, offset, false)];
      UpdateActiveThreads(s);
      EnlargeStep(s, Type(size, offset, false), log, reservedPos + size);
      reservedPos := reservedPos + size;
    }

    /** ts_free_resources */
    method FreeResources(e: Entry)
      requires |e.storage| == |types|
      modifies `log
      ensures log == old(log) + GoneEvents(e.serial, types, |types|)
    {
      var i := |e.storage|;
      assert old(log) + GoneEvents(e.serial, types, i) == log + GoneEvents(e.serial, types, i);
      while i > 0
        invariant 0 <= i <= |types|
        invariant old(log) + GoneEvents(e.serial, types, |types|) == log + GoneEvents(e.serial, types, i)
      {
        i := i - 1;
        if !types[i].done {
          assert log + GoneEvents(e.serial, types, i + 1) == (log + [Gone(e.serial, i)]) + GoneEvents(e.serial, types, i);
          log := log + [Gone(e.serial, i)];
        }
      }
    }

    /** allocate_new_resource */
    method AllocateNewResource(thread: Thread) returns (e: Entry)
      modifies `log, `next, `tls
      ensures e == NewEntry(View(), thread).(serial := old(next)) && next == old(next) + 1 && tls == old(tls)[thread := old(next)]
      ensures log == old(log) + MadeEvents(old(next), types, |types|)
    {
      var storage := [];
      tls := tls[thread := next];
      var i := 0;
      assert log == log + MadeEvents(next, types, 0);
      while i < |types|
        invariant i <= |types| && |storage| == i && forall j | 0 <= j < i :: storage[j] == SlotFor(types[j])
        invariant log == old(log) + MadeEvents(next, types, i)
        modifies `log
      {
        if types[i].done {
          storage := storage + [Null];
        } else {
          storage := storage + [if types[i].fastOffset != 0 then Fast(types[i].fastOffset) else Block(types[i].size)];
          assert old(log) + MadeEvents(next, types, i) + [Made(next, i)] == old(log) + MadeEvents(next, types, i + 1);
          log := log + [Made(next, i)];
        }
        i := i + 1;
      }
      e := Entry(next, thread, storage, HEADER + reservedSize);
      next := next + 1;
    }

    /** Walks a chain to the entry of a thread. */
    method Lookup(thread: Thread) returns (h: nat, k: nat)
      requires |table| >= 1
      ensures h == thread % |table| && k <= |table[h]|
      ensures (k < |table[h]| ==> table[h][k].thread == thread) && forall j | 0 <= j < k :: table[h][j].thread != thread
    {
      h := thread % |table|;
      k := 0;
      while k < |table[h]| && table[h][k].thread != thread
        invariant k <= |table[h]| && forall j | 0 <= j < k :: table[h][j].thread != thread
      {
        k := k + 1;
      }
    }

    lemma NotThere(s: State, thread: Thread)
      requires TableOk(s) && forall j | 0 <= j < |s.table[thread % |s.table|]| :: s.table[thread % |s.table|][j].thread != thread
      ensures Absent(s.table, thread)
    {
    }

    lemma OwnEntry(s: State, thread: Thread, h: nat, k: nat)
      requires Valid(s) && thread in s.tls && At(s.table, h, k) && s.table[h][k].thread == thread
      ensures s.table[h][k].serial == s.tls[thread]
    {
      hide LogOk, FastOk;
      var g, j :| At(s.table, g, j) && s.table[g][j].thread == thread && s.table[g][j].serial == s.tls[thread];
    }

    lemma OwnEntryExists(s: State, thread: Thread)
      requires Valid(s) && thread in s.tls
      ensures !Absent(s.table, thread)
    {
      hide LogOk, FastOk;
    }

    /** The entry of a thread that went away without cleaning up: its resources are freed, and it is set up anew. */
    method ReplaceEntry(h: nat, k: nat) returns (e: Entry)
      requires Ok() && At(table, h, k)
      modifies `table, `log, `next, `tls
      ensures old(At(table, h, k)) && Ok() && View() == Replaced(old(View()), h, k)
      ensures e == NewEntry(old(View()), old(table)[h][k].thread) && table == old(table)[h := old(table)[h][k := e]]
      ensures old(log) <= log && InTurn(log[|old(log)|..])
    {
      hide PhaseOf, LogOk, FastOk, MadeEvents, GoneEvents, TwoInTurn;
      ghost var s := View();
      ReplaceStep(s, h, k);
      var thread := table[h][k].thread;
      SwappedInTurn(table[h][k].serial, next, types);
      FreeResources(table[h][k]);
      e := AllocateNewResource(thread);
      table := table[h := table[h][k := e]];
      assert e == NewEntry(s, thread);
      Suffixes(s.log, GoneEvents(s.table[h][k].serial, types, |types|), MadeEvents(s.next, types, |types|));
    }

    /** ts_resource_ex by the calling thread (th_id NULL or its own id), up to reading the slot from the entry found.
        A thread that has an entry keeps it; a new thread, or one whose id was used by a thread that went away
        without cleaning up, gets a new one. */
    method Resource(thread: Thread) returns (e: Entry)
      requires Ok()
      modifies `table, `log, `next, `tls
      ensures Ok() && thread in tls && tls[thread] == e.serial && e.thread == thread
      ensures exists h, k :: At(table, h, k) && table[h][k] == e
      ensures thread in old(tls) ==> View() == old(View())
      ensures thread !in old(tls) ==> e.serial == old(next) && tls == old(tls)[thread := e.serial]
      ensures |old(table)| >= 1 && (thread !in old(tls) && Absent(old(table), thread) ==> View() == Joined(old(View()), thread))
      ensures thread !in old(tls) && Absent(old(table), thread) ==>
                var h := thread % |old(table)|; table == old(table)[h := old(table)[h] + [e]]
      ensures thread !in old(tls) ==>
                forall h, k | At(old(table), h, k) && old(table)[h][k].thread == thread ::
                  View() == Replaced(old(View()), h, k) && table == old(table)[h := old(table)[h][k := e]]
      ensures old(log) <= log && InTurn(log[|old(log)|..])
      ensures thread !in old(tls) ==> forall i: Id | i < |types| && !types[i].done :: PhaseOf(log, e.serial, i) == Up
    {
      hide PhaseOf, LogOk, FastOk, MadeEvents, GoneEvents, TwoInTurn;
      ghost var s := View();
      var h, k := Lookup(thread);
      if k == |table[h]| {
        NotThere(s, thread);
        if thread in tls { OwnEntryExists(s, thread); }
        AppendStep(s, thread);
        MadeInTurn(next, types, |types|);
        Suffixes(s.log, [], MadeEvents(next, types, |types|));
        e := AllocateNewResource(thread);
        table := table[h := table[h] + [e]];
        assert e == NewEntry(s, thread);
        assert View() == Joined(s, thread);
        assert At(table, h, k) && table[h][k] == e;
        // the same call again, which now finds the entry
      } else if thread !in tls {
        e := ReplaceEntry(h, k);
        assert At(table, h, k) && table[h][k] == e;
      } else {
        assert At(table, h, k);
        OwnEntry(s, thread, h, k);
        e := table[h][k];
      }
      ItsResourcesAreUp(View(), e.serial);
    }

    lemma ItsResourcesAreUp(s: State, e: nat)
      requires LogOk(s) && HasSerial(s.table, e)
      ensures forall i: Id | i < |s.types| && !s.types[i].done :: PhaseOf(s.log, e, i) == Up
    {
      hide PhaseOf;
    }

    /** ts_free_thread: the resources go in reverse id order. */
    method FreeThread(thread: Thread)
      requires Ok()
      modifies `table, `log, `tls
      ensures Ok() && Absent(table, thread) && thread !in tls && old(log) <= log && InTurn(log[|old(log)|..])
      ensures Absent(old(table), thread) ==> View() == old(View())
      ensures forall h, k | At(old(table), h, k) && old(table)[h][k].thread == thread ::
                View() == Exited(old(View()), h, k) && table == old(table)[h := old(table)[h][..k] + old(table)[h][k + 1..]] && log == old(log) + GoneEvents(old(table)[h][k].serial, types, |types|)
    {
      hide PhaseOf, LogOk, FastOk, GoneEvents, TwoInTurn;
      ghost var s := View();
      var h, k := Lookup(thread);
      if k < |table[h]| {
        assert At(table, h, k);
        ExitStep(s, h, k);
        GoneInTurn(table[h][k].serial, types, |types|);
        Suffixes(s.log, [], GoneEvents(table[h][k].serial, types, |types|));
        FreeResources(table[h][k]);
        table := table[h := table[h][..k] + table[h][k + 1..]];
        tls := tls - {thread};
      } else {
        NotThere(s, thread);
        if thread in tls { OwnEntryExists(s, thread); }
      }
    }

    /** The operating system ends a thread whose resources were not freed; its id may come back. */
    method ThreadGone(thread: Thread)
      requires Ok()
      modifies `tls
      ensures Ok() && View() == old(View()).(tls := old(tls) - {thread})
    {
      tls := tls - {thread};
    }

    /** ts_free_id: the storage of the id goes in every entry, and the id is marked as removed. */
    method FreeId(rsrcId: nat)
      requires Ok() && 1 <= rsrcId <= |types|
      modifies `table, `types, `log
      ensures Ok() && types == old(types)[rsrcId - 1 := old(types)[rsrcId - 1].(done := true)]
      ensures table == Freed(old(table), rsrcId - 1) && old(log) <= log
      ensures forall e: nat, i: Id ::
                PhaseOf(log, e, i) ==
                if i == rsrcId - 1 && HasSerial(old(table), e) && PhaseOf(old(log), e, i) == Up then Down else PhaseOf(old(log), e, i)
      ensures forall e: nat, i: Id | i == rsrcId - 1 :: PhaseOf(log, e, i) != Up
      ensures forall e: nat, i: Id | i != rsrcId - 1 :: PhaseOf(log, e, i) == PhaseOf(old(log), e, i)
    {
      hide PhaseOf, Visited;
      ghost var s := View();
      var id := rsrcId - 1;
      var h := 0;
      VisitEnds(s.table);
      while h < |table|
        invariant h <= |table| == |s.table| && s.log <= log
        invariant table[h..] == s.table[h..] && forall g | 0 <= g < h :: table[g] == Freed(s.table, id)[g]
        invariant forall e: nat, i: Id :: PhaseOf(log, e, i) == FreedPhase(s, id, h, 0, e, i)
        modifies `table, `log
      {
        FreeIdBucket(s, id, h);
        VisitBucket(s.table, h);
        h := h + 1;
      }
      assert table == Freed(s.table, id);
      FreeIdStep(s, id, log);
      types := types[id := types[id].(done := true)];
      NoneUp(View(), id);
    }

    lemma NoneUp(s: State, id: Id)
      requires LogOk(s) && id < |s.types| && s.types[id].done
      ensures forall e: nat :: PhaseOf(s.log, e, id) != Up
    {
      hide PhaseOf;
    }

    ghost function FreedPhase(s: State, id: Id, h: int, k: int, e: nat, i: Id): Phase {
      if i == id && Visited(s.table, h, k, e) && PhaseOf(s.log, e, i) == Up then Down else PhaseOf(s.log, e, i)
    }

    method FreeIdBucket(ghost s: State, id: Id, h: nat)
      requires Valid(s) && types == s.types && id < |types|
      requires |table| == |s.table| && h < |table| && table[h] == s.table[h]
      requires forall e: nat, i: Id :: PhaseOf(log, e, i) == FreedPhase(s, id, h, 0, e, i)
      modifies `table, `log
      ensures table == old(table)[h := Freed(s.table, id)[h]] && old(log) <= log
      ensures forall e: nat, i: Id :: PhaseOf(log, e, i) == FreedPhase(s, id, h, |s.table[h]|, e, i)
    {
      hide PhaseOf, Visited;
      var k := 0;
      while k < |table[h]|
        invariant |table| == |s.table| && k <= |table[h]| == |s.table[h]| && table == old(table)[h := table[h]] && old(log) <= log
        invariant table[h][k..] == s.table[h][k..]
        invariant forall j | 0 <= j < k :: table[h][j] == Without(s.table[h][j], id)
        invariant forall e: nat, i: Id :: PhaseOf(log, e, i) == FreedPhase(s, id, h, k, e, i)
      {
        var p := table[h][k];
        assert p == s.table[h][k] && At(s.table, h, k) && |p.storage| == |types|;
        VisitNext(s.table, h, k);
        UpIfStored(s, h, k, id);
        if |p.storage| > id && p.storage[id] != Null {
          forall e: nat, i: Id ensures PhaseOf(log + [Gone(p.serial, id)], e, i) ==
            if p.serial != e || id != i then PhaseOf(log, e, i) else if PhaseOf(log, e, i) == Up then Down else Broken
          {
            PhaseStep(log, Gone(p.serial, id), e, i);
          }
          log := log + [Gone(p.serial, id)];
          table := table[h := table[h][k := p.(storage := p.storage[id := Null])]];
        }
        k := k + 1;
      }
      assert table[h] == Freed(s.table, id)[h];
    }

    lemma UpIfStored(s: State, h: nat, k: nat, id: Id)
      requires Valid(s) && At(s.table, h, k) && id < |s.types|
      ensures s.table[h][k].storage[id] != Null <==> PhaseOf(s.log, s.table[h][k].serial, id) == Up
      ensures s.table[h][k].storage[id] == Null ==> s.table[h][k].storage[id := Null] == s.table[h][k].storage
    {
      hide PhaseOf;
      assert EntryOk(s, s.table[h][k]) && HasSerial(s.table, s.table[h][k].serial);
    }

    /** tsrm_shutdown by the main thread: nothing that was set up survives. */
    method Shutdown()
      requires isShutdown || Ok()
      modifies `table, `types, `log, `reservedPos, `reservedSize, `tls, `isShutdown
      ensures isShutdown && (old(isShutdown) ==> View() == old(View())) && old(log) <= log && InTurn(log[|old(log)|..])
      ensures !old(isShutdown) ==> table == [] && types == [] && reservedPos == reservedSize == 0 && tls == map[]
      ensures !old(isShutdown) ==> forall e: nat, i: Id :: PhaseOf(log, e, i) == EndPhase(PhaseOf(old(log), e, i))
      ensures !old(isShutdown) ==> forall e: nat, i: Id :: PhaseOf(log, e, i) == Never || PhaseOf(log, e, i) == Down
    {
      hide PhaseOf, Visited, TwoInTurn;
      if isShutdown {
        return;
      }
      isShutdown := true;
      ghost var s := View();
      var h := 0;
      VisitEnds(s.table);
      while h < |table|
        invariant h <= |table| && s.log <= log && InTurn(log[|s.log|..])
        invariant forall m | |s.log| <= m < |log| :: log[m].Gone? && Visited(s.table, h, 0, log[m].entry)
        invariant forall e: nat, i: Id :: PhaseOf(log, e, i) == if Visited(s.table, h, 0, e) then EndPhase(PhaseOf(s.log, e, i)) else PhaseOf(s.log, e, i)
        modifies `log
      {
        ShutdownBucket(s, h);
        VisitBucket(s.table, h);
        h := h + 1;
      }
      OnlyTheirs(s);
      table, types, reservedPos, reservedSize, tls := [], [], 0, 0, map[];
    }

    lemma OnlyTheirs(s: State)
      requires LogOk(s)
      ensures forall e: nat, i: Id | !HasSerial(s.table, e) :: PhaseOf(s.log, e, i) != Up
      ensures forall e: nat, i: Id :: PhaseOf(s.log, e, i) != Broken
    {
      hide PhaseOf;
    }

    method ShutdownBucket(ghost s: State, h: nat)
      requires Valid(s) && types == s.types && table == s.table && h < |table|
      requires forall e: nat, i: Id :: PhaseOf(log, e, i) == if Visited(s.table, h, 0, e) then EndPhase(PhaseOf(s.log, e, i)) else PhaseOf(s.log, e, i)
      requires s.log <= log && InTurn(log[|s.log|..]) && forall m | |s.log| <= m < |log| :: log[m].Gone? && Visited(s.table, h, 0, log[m].entry)
      modifies `log
      ensures old(log) <= log && InTurn(log[|s.log|..])
      ensures forall m | |s.log| <= m < |log| :: log[m].Gone? && Visited(s.table, h, |s.table[h]|, log[m].entry)
      ensures forall e: nat, i: Id ::
        PhaseOf(log, e, i) == if Visited(s.table, h, |s.table[h]|, e) then EndPhase(PhaseOf(s.log, e, i)) else PhaseOf(s.log, e, i)
    {
      hide PhaseOf, Visited, GoneEvents, TwoInTurn;
      var k := 0;
      while k < |table[h]|
        invariant k <= |table[h]| && old(log) <= log && s.log <= log && InTurn(log[|s.log|..])
        invariant forall m | |s.log| <= m < |log| :: log[m].Gone? && Visited(s.table, h, k, log[m].entry)
        invariant forall e: nat, i: Id :: PhaseOf(log, e, i) == if Visited(s.table, h, k, e) then EndPhase(PhaseOf(s.log, e, i)) else PhaseOf(s.log, e, i)
      {
        assert At(s.table, h, k) && EntryOk(s, s.table[h][k]);
        VisitNext(s.table, h, k);
        PhaseGone(log, table[h][k].serial, types, |types|);
        UpExactly(s, h, k);
        ghost var before, e := log, table[h][k].serial;
        NextInTurn(log[|s.log|..], e, types);
        GoneInTurn(e, types, |types|);
        FreeResources(table[h][k]);
        assert log[|s.log|..] == before[|s.log|..] + GoneEvents(e, types, |types|);
        k := k + 1;
      }
    }

    lemma UpExactly(s: State, h: nat, k: nat)
      requires Valid(s) && At(s.table, h, k)
      ensures forall i: Id :: PhaseOf(s.log, s.table[h][k].serial, i) == Up <==> i < |s.types| && !s.types[i].done
      ensures forall i: Id :: PhaseOf(s.log, s.table[h][k].serial, i) != Broken
    {
      hide PhaseOf;
      assert HasSerial(s.table, s.table[h][k].serial);
    }
  }

  /** What has been set up is torn down in the end. */
  function EndPhase(p: Phase): Phase {
    if p == Up then Down else p
  }
}
