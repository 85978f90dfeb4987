/** Whole histories of the resource manager: the operations of all threads, in the order in which they take the mutex. */
module TsrmHistory {
  import opened Tsrm
  import opened Words

  /** Register and RegisterFast are ts_allocate_id and ts_allocate_fast_id, Touch is the first use of a resource by a
      thread or a later one, Leave is ts_free_thread, Vanish the end of a thread that did not call it, Remove is
      ts_free_id, and Stop is tsrm_shutdown.  A fast resource that does not fit and an id out of range are ignored. */
  datatype Op =
    | Register(size: nat)
    | RegisterFast(size: nat)
    | Touch(thread: Thread)
    | Leave(thread: Thread)
    | Vanish(thread: Thread)
    | Remove(rsrcId: nat)
    | Stop

  /** tsrm_shutdown has freed the tables. */
  predicate Closed(s: State) { s.table == [] }

  predicate FastFits(s: State, size: nat) {
    size <= SIZE_MAX && AlignedSize(size) <= s.reservedSize - s.reservedPos
  }

  /** Every entry has got the storage of a new id, and it is set up; no other storage changes. */
  ghost predicate Registered(s: State, t: Type, pos: nat, s': State) {
    && s' == s.(types := s.types + [t], table := Enlarged(s.table, SlotFor(t)), log := s'.log, reservedPos := pos) && s.log <= s'.log
    && forall e: nat, i: Id :: PhaseOf(s'.log, e, i) == if i == |s.types| && HasSerial(s.table, e) then Up else PhaseOf(s.log, e, i)
  }

  /** The storage of an id is torn down in every entry that has it; no other storage changes. */
  ghost predicate IdRemoved(s: State, id: Id, s': State)
    requires id < |s.types|
  {
    && s' == s.(types := s.types[id := s.types[id].(done := true)], table := Freed(s.table, id), log := s'.log) && s.log <= s'.log
    && forall e: nat, i: Id :: PhaseOf(s'.log, e, i) ==
         if i == id && HasSerial(s.table, e) && PhaseOf(s.log, e, i) == Up then Down else PhaseOf(s.log, e, i)
  }

  /** All storages that are up are torn down, and the tables are gone. */
  ghost predicate Stopped(s: State, s': State) {
    && s' == s.(table := [], types := [], reservedPos := 0, reservedSize := 0, tls := map[], log := s'.log) && s.log <= s'.log
    && forall e: nat, i: Id :: PhaseOf(s'.log, e, i) == EndPhase(PhaseOf(s.log, e, i))
  }

  /** The entry of a thread at (h, k). */
  ghost predicate EntryAt(s: State, t: Thread, h: nat, k: nat) {
    At(s.table, h, k) && s.table[h][k].thread == t
  }

  /** What an operation does. */
  ghost predicate After(s: State, op: Op, s': State) {
    if Closed(s) then s' == s
    else
      match op
      case Register(size) => Registered(s, Type(size, 0, false), s.reservedPos, s')
      case RegisterFast(size) =>
        if !FastFits(s, size) then s' == s
        else Registered(s, Type(AlignedSize(size), HEADER + s.reservedPos, false), s.reservedPos + AlignedSize(size), s')
      case Touch(t) =>
        if t in s.tls then s' == s
        else if Absent(s.table, t) then s' == Joined(s, t)
        else exists h: nat, k: nat :: EntryAt(s, t, h, k) && s' == Replaced(s, h, k)
      case Leave(t) =>
        if Absent(s.table, t) then s' == s
        else exists h: nat, k: nat :: EntryAt(s, t, h, k) && s' == Exited(s, h, k)
      case Vanish(t) => s' == s.(tls := s.tls - {t})
      case Remove(rsrcId) => if 1 <= rsrcId <= |s.types| then IdRemoved(s, rsrcId - 1, s') else s' == s
      case Stop => Stopped(s, s')
  }

  /** states[n] is the state before operation n. */
  ghost predicate Chain(states: seq<State>, ops: seq<Op>) {
    |states| == |ops| + 1 && forall n | 0 <= n < |ops| :: After(states[n], ops[n], states[n + 1])
  }

  /** After the end nothing is up. */
  ghost predicate Sound(s: State) {
    if Closed(s) then forall e: nat, i: Id :: PhaseOf(s.log, e, i) == Never || PhaseOf(s.log, e, i) == Down else Valid(s)
  }

  // ---- one step ----------------------------------------------------------------------

  lemma RegisterKeeps(s: State, t: Type, pos: nat, s': State)
    requires Valid(s) && Registered(s, t, pos, s') && !t.done && pos <= s.reservedSize && pos % 16 == 0
    requires if t.fastOffset == 0 then pos == s.reservedPos else t.fastOffset == HEADER + s.reservedPos && pos == s.reservedPos + t.size
    ensures Valid(s') && !Closed(s')
  {
    hide Valid, PhaseOf;
    EnlargeStep(s, t, s'.log, pos);
    HasTable(s');
  }

  lemma HasTable(s: State)
    requires Valid(s)
    ensures |s.table| >= 1
  {
    hide LogOk, TlsOk, FastOk;
  }

  lemma VanishKeeps(s: State, t: Thread)
    requires Valid(s)
    ensures Valid(s.(tls := s.tls - {t}))
  {
    hide PhaseOf;
    var s' := s.(tls := s.tls - {t});
    assert forall e, i :: Alive(s', e, i) == Alive(s, e, i);
    assert forall e :: EntryOk(s', e) == EntryOk(s, e);
  }

  lemma StopKeeps(s: State, s': State)
    requires Valid(s) && Stopped(s, s')
    ensures Sound(s')
  {
    hide PhaseOf, TableOk, TlsOk, FastOk;
  }

  /** Every operation keeps the invariant, and the log only grows. */
  lemma StepKeeps(s: State, op: Op, s': State)
    requires Sound(s) && After(s, op, s')
    ensures Sound(s') && s.log <= s'.log && (Closed(s) || op == Stop ==> Closed(s'))
  {
    hide Valid, PhaseOf, AlignedSize, MadeEvents, GoneEvents, HasSerial;
    if !Closed(s) {
      match op {
        case Register(size) =>
          FastBounds(s);
          RegisterKeeps(s, Type(size, 0, false), s.reservedPos, s');
        case RegisterFast(size) =>
          if FastFits(s, size) {
            FastBounds(s);
            AlignedSizeWraps(size);
            RegisterKeeps(s, Type(AlignedSize(size), HEADER + s.reservedPos, false), s.reservedPos + AlignedSize(size), s');
          }
        case Touch(t) => TouchKeeps(s, t, s');
        case Leave(t) =>
          if !Absent(s.table, t) {
            var h: nat, k: nat :| EntryAt(s, t, h, k) && s' == Exited(s, h, k);
            ExitStep(s, h, k);
            HasTable(s');
          }
        case Vanish(t) => VanishKeeps(s, t);
        case Remove(rsrcId) =>
          if 1 <= rsrcId <= |s.types| {
            FreeIdStep(s, rsrcId - 1, s'.log);
            HasTable(s');
          }
        case Stop => StopKeeps(s, s');
      }
    }
  }

  lemma FastBounds(s: State)
    requires Valid(s)
    ensures s.reservedPos <= s.reservedSize && s.reservedPos % 16 == 0
  {
    hide LogOk, TlsOk, TableOk;
  }

  lemma TouchKeeps(s: State, t: Thread, s': State)
    requires Valid(s) && !Closed(s) && After(s, Touch(t), s')
    ensures Valid(s') && !Closed(s') && s.log <= s'.log
  {
    hide Valid, PhaseOf, MadeEvents, GoneEvents;
    if t !in s.tls {
      if Absent(s.table, t) {
        AppendStep(s, t);
      } else {
        var h: nat, k: nat :| EntryAt(s, t, h, k) && s' == Replaced(s, h, k);
        ReplaceStep(s, h, k);
      }
      HasTable(s');
    }
  }

  // ---- whole histories ---------------------------------------------------------------

  lemma {:induction false} SoundThroughout(states: seq<State>, ops: seq<Op>, n: nat)
    requires Chain(states, ops) && Sound(states[0]) && n < |states|
    ensures Sound(states[n])
  {
    hide Sound, After;
    if n > 0 {
      SoundThroughout(states, ops, n - 1);
      StepKeeps(states[n - 1], ops[n - 1], states[n]);
    }
  }

  lemma {:induction false} LogGrows(states: seq<State>, ops: seq<Op>, n: nat, m: nat)
    requires Chain(states, ops) && Sound(states[0]) && n <= m < |states|
    ensures states[n].log <= states[m].log && (Closed(states[n]) ==> Closed(states[m]))
    decreases m
  {
    hide Sound, After;
    if n < m {
      LogGrows(states, ops, n, m - 1);
      SoundThroughout(states, ops, m - 1);
      StepKeeps(states[m - 1], ops[m - 1], states[m]);
    }
  }

  /** How the phase of a storage can change. */
  predicate Ages(before: Phase, after: Phase) {
    before == after || before == Never || after == Broken || (before == Up && after == Down)
  }

  lemma {:induction false} PhaseAges(log: seq<Event>, log': seq<Event>, e: nat, i: Id)
    requires log <= log'
    ensures Ages(PhaseOf(log, e, i), PhaseOf(log', e, i))
    decreases |log'|
  {
    if log == log' {
    } else {
      var init := log'[..|log'| - 1];
      assert log <= init;
      PhaseAges(log, init, e, i);
      assert log' == init + [log'[|log'| - 1]];
      PhaseStep(init, log'[|log'| - 1], e, i);
    }
  }

  /** In every history, whatever the threads do in whatever order: a storage is set up at most once and torn down at
      most once, after it was set up; it is there exactly while its entry is in the table and its id is not removed. */
  lemma EveryHistory(states: seq<State>, ops: seq<Op>, n: nat, e: nat, i: Id)
    requires Chain(states, ops) && Sound(states[0]) && n < |states|
    ensures Count(states[n].log, Gone(e, i)) <= Count(states[n].log, Made(e, i)) <= 1
    ensures Count(states[n].log, Made(e, i)) - Count(states[n].log, Gone(e, i)) == 1 <==> Alive(states[n], e, i)
  {
    hide Valid, Chain;
    SoundThroughout(states, ops, n);
    if Closed(states[n]) {
      UnbrokenLife(states[n].log, e, i);
    } else {
      StoragesLiveOnce(states[n], e, i);
    }
  }

  /** What has been torn down stays so, and what is up stays up or is torn down. */
  lemma NoReturn(states: seq<State>, ops: seq<Op>, n: nat, m: nat, e: nat, i: Id)
    requires Chain(states, ops) && Sound(states[0]) && n <= m < |states|
    ensures PhaseOf(states[n].log, e, i) == Down ==> PhaseOf(states[m].log, e, i) == Down
    ensures PhaseOf(states[n].log, e, i) == Up ==> PhaseOf(states[m].log, e, i) in {Up, Down}
  {
    hide Chain, PhaseOf, TableOk, TlsOk, FastOk;
    LogGrows(states, ops, n, m);
    SoundThroughout(states, ops, m);
    PhaseAges(states[n].log, states[m].log, e, i);
  }

  /** Once the manager has been shut down, everything that was ever set up has been torn down exactly once. */
  lemma NothingSurvives(states: seq<State>, ops: seq<Op>, n: nat, m: nat, e: nat, i: Id)
    requires Chain(states, ops) && Sound(states[0]) && n < m < |states| && ops[n] == Stop
    ensures Count(states[m].log, Made(e, i)) == Count(states[m].log, Gone(e, i)) <= 1
  {
    hide Sound, PhaseOf, After, Valid;
    SoundThroughout(states, ops, n);
    StepKeeps(states[n], ops[n], states[n + 1]);
    LogGrows(states, ops, n + 1, m);
    EveryHistory(states, ops, m, e, i);
    assert !HasSerial(states[m].table, e);
  }

  /** A thread that touches its resources after another with the same id has vanished gets a new entry: all storages of
      the stale one are down, those of the new one up, and nothing else changes. */
  lemma StaleEntryGone(s: State, t: Thread, s': State, h: nat, k: nat)
    requires Valid(s) && !Closed(s) && t !in s.tls && EntryAt(s, t, h, k) && After(s, Touch(t), s')
    ensures forall i: Id | i < |s.types| && !s.types[i].done ::
              PhaseOf(s'.log, s.table[h][k].serial, i) == Down && PhaseOf(s'.log, s.next, i) == Up
    ensures forall e: nat, i: Id | e != s.table[h][k].serial && e != s.next :: PhaseOf(s'.log, e, i) == PhaseOf(s.log, e, i)
    ensures !HasSerial(s'.table, s.table[h][k].serial) && HasSerial(s'.table, s.next)
  {
    hide PhaseOf, MadeEvents, GoneEvents, LogOk, TlsOk, FastOk;
    assert At(s.table, h, k);
    var g: nat, j: nat :| EntryAt(s, t, g, j) && s' == Replaced(s, g, j);
    assert At(s.table, g, j) && g == h && j == k;
    ReplaceStep(s, h, k);
    SerialsReplaced(s, h, k);
    SerialsOld(s);
    var e := s.table[h][k].serial;
    assert HasSerial(s.table, e);
    PhaseGone(s.log, e, s.types, |s.types|);
    PhaseMade(s.log + GoneEvents(e, s.types, |s.types|), s.next, s.types, |s.types|);
    StorageUp(s, e);
    StorageUp(s', s.next);
  }

  lemma StorageUp(s: State, e: nat)
    requires LogOk(s) && HasSerial(s.table, e)
    ensures forall i: Id | i < |s.types| && !s.types[i].done :: PhaseOf(s.log, e, i) == Up
  {
    hide PhaseOf;
  }

  // ---- the manager -------------------------------------------------------------------

  /** Open, or shut down for good. */
  ghost predicate Usable(m: Manager)
    reads m
  {
    if m.isShutdown then Closed(m.View()) && Sound(m.View()) else m.Ok()
  }

  method Do(m: Manager, op: Op)
    requires Usable(m)
    modifies m
    ensures Usable(m) && After(old(m.View()), op, m.View())
  {
    hide PhaseOf, Valid, AlignedSize;
    if m.isShutdown {
      return;
    }
    HasTable(m.View());
    match op {
      case Register(size) =>
        var id := m.AllocateId(size);
      case RegisterFast(size) =>
        if size <= SIZE_MAX && AlignedSize(size) <= m.reservedSize - m.reservedPos {
          var id, offset := m.AllocateFastId(size);
        }
      case Touch(thread) =>
        var e := m.Resource(thread);
        TouchIs(old(m.View()), thread, m.View());
      case Leave(thread) =>
        m.FreeThread(thread);
        LeaveIs(old(m.View()), thread, m.View());
      case Vanish(thread) =>
        m.ThreadGone(thread);
      case Remove(rsrcId) =>
        if 1 <= rsrcId <= |m.types| {
          m.FreeId(rsrcId);
        }
      case Stop =>
        m.Shutdown();
    }
  }

  lemma TouchIs(s: State, t: Thread, s': State)
    requires !Closed(s) && (t in s.tls ==> s' == s) && (t !in s.tls && Absent(s.table, t) ==> s' == Joined(s, t))
    requires t !in s.tls ==> forall h, k | At(s.table, h, k) && s.table[h][k].thread == t :: s' == Replaced(s, h, k)
    ensures After(s, Touch(t), s')
  {
    hide Joined, Replaced;
    if t !in s.tls && !Absent(s.table, t) {
      var h, k :| At(s.table, h, k) && s.table[h][k].thread == t;
      assert EntryAt(s, t, h, k) && s' == Replaced(s, h, k);
    }
  }

  lemma LeaveIs(s: State, t: Thread, s': State)
    requires !Closed(s) && (Absent(s.table, t) ==> s' == s)
    requires forall h, k | At(s.table, h, k) && s.table[h][k].thread == t :: s' == Exited(s, h, k)
    ensures After(s, Leave(t), s')
  {
    hide Exited;
    if !Absent(s.table, t) {
      var h, k :| At(s.table, h, k) && s.table[h][k].thread == t;
      assert EntryAt(s, t, h, k) && s' == Exited(s, h, k);
    }
  }

  /** Any interleaving of the threads.  The states follow the operations, and every storage of the whole history is set
      up and torn down as it should be. */
  method Run(m: Manager, ops: seq<Op>) returns (ghost states: seq<State>)
    requires Usable(m)
    modifies m
    ensures Usable(m) && Chain(states, ops) && states[0] == old(m.View()) && states[|ops|] == m.View()
    ensures forall n: nat, e: nat, i: Id | n < |states| ::
              && Count(states[n].log, Gone(e, i)) <= Count(states[n].log, Made(e, i)) <= 1
              && (Count(states[n].log, Made(e, i)) - Count(states[n].log, Gone(e, i)) == 1 <==> Alive(states[n], e, i))
    ensures Stop in ops ==> forall e: nat, i: Id :: Count(m.log, Made(e, i)) == Count(m.log, Gone(e, i))
  {
    hide After, Count, Valid, Sound, Alive;
    states := [m.View()];
    UsableIsSound(m);
    var n := 0;
    while n < |ops|
      invariant n <= |ops| && Usable(m) && Chain(states, ops[..n]) && states[0] == old(m.View()) && states[n] == m.View()
    {
      Do(m, ops[n]);
      states := states + [m.View()];
      n := n + 1;
    }
    assert ops[..n] == ops;
    forall k: nat, e: nat, i: Id | k < |states|
      ensures Count(states[k].log, Gone(e, i)) <= Count(states[k].log, Made(e, i)) <= 1
      ensures Count(states[k].log, Made(e, i)) - Count(states[k].log, Gone(e, i)) == 1 <==> Alive(states[k], e, i)
    {
      EveryHistory(states, ops, k, e, i);
    }
    if Stop in ops {
      ghost var k: nat :| k < |ops| && ops[k] == Stop;
      forall e: nat, i: Id ensures Count(m.log, Made(e, i)) == Count(m.log, Gone(e, i)) {
        NothingSurvives(states, ops, k, |ops|, e, i);
      }
    }
  }

  lemma UsableIsSound(m: Manager)
    requires Usable(m)
    ensures Sound(m.View())
  {
    hide Valid;
    if !m.isShutdown { HasTable(m.View()); }
  }
}
