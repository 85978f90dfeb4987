/** Which tests keep their order, and what a false name does. */
module SchedulerOrder {
  import opened Sequences
  import opened Scheduler
  import opened ParallelRunner

  ghost predicate NoDup(s: seq<Test>) {
    forall m, n | 0 <= m < n < |s| :: s[m] != s[n]
  }

  ghost predicate Before(s: seq<Test>, t: Test, u: Test) {
    exists m, n :: 0 <= m < n < |s| && s[m] == t && s[n] == u
  }

  /** u has been dispatched before t. */
  ghost predicate Overtaken(log: seq<Test>, t: Test, u: Test) {
    exists n :: 0 <= n < |log| && log[n] == u && t !in log[..n]
  }

  /** A run of messages of workers as the coordinator starts them. */
  ghost predicate RunOf(p: Plan, count: nat, msgs: seq<Message>) {
    && Proper(p) && AllTruthy(p.all) && NoDup(p.order) && 1 <= count <= Max(1, |p.order|)
    && CanRun(p, Start(p, count), msgs)
  }

  /** In this run u overtakes t, which comes first. */
  ghost predicate LostIn(p: Plan, count: nat, msgs: seq<Message>, t: Test, u: Test) {
    RunOf(p, count, msgs) && Before(p.order, t, u) && Overtaken(After(p, Start(p, count), msgs).log, t, u)
  }

  /** There are tests and a run of them in which a test with the keys b overtakes an earlier one with the keys a. */
  ghost predicate OrderLost(maxBatch: nat, a: seq<Key>, b: seq<Key>) {
    exists p, count, msgs, t, u ::
      LostIn(p, count, msgs, t, u) && p.maxBatch == maxBatch && KeysOf(p.conflicts, t) == a && KeysOf(p.conflicts, u) == b
  }

  // ---- the first key -----------------------------------------------------------------

  lemma {:induction false} WithIn(conflicts: map<Test, seq<Key>>, s: seq<Test>, g: Group)
    ensures forall t | t in With(conflicts, s, g) :: t in s
  {
    hide In;
    if s != [] {
      WithIn(conflicts, s[1..], g);
    }
  }

  /** A test that has no key but k, and one that has k as its first. */
  ghost predicate Follower(c: map<Test, seq<Key>>, g: Group) {
    && g.Pair? && g.t != g.u && In(c, g.t, Solely(g.key)) && g.key != ALL
    && KeysOf(c, g.u) != [] && KeysOf(c, g.u)[0] == g.key && !HasKey(c, g.u, ALL)
  }

  /** Both are still in line, u behind t. */
  ghost predicate InLine(c: map<Test, seq<Key>>, done: seq<Test>, w: map<Key, seq<Test>>, queue: seq<Test>, g: Group)
    requires g.Pair?
  {
    && With(c, done, g) + (With(c, Queue(w, g.key), g) + With(c, Reversed(queue), g)) == [g.t, g.u]
    && forall j | j != g.key :: g.u !in Queue(w, j)
  }

  /** u has not overtaken t, and cannot: t has been dispatched, or both are in line. */
  ghost predicate Behind(c: map<Test, seq<Key>>, done: seq<Test>, w: map<Key, seq<Test>>, queue: seq<Test>, g: Group)
    requires g.Pair?
  {
    !Overtaken(done, g.t, g.u) && (g.t in done || InLine(c, done, w, queue, g))
  }

  lemma PairIn(c: map<Test, seq<Key>>, g: Group)
    requires Follower(c, g)
    ensures forall x :: In(c, x, g) <==> x == g.t || x == g.u
    ensures forall k | HasKey(c, g.t, k) :: k == g.key
    ensures !HasKey(c, g.t, ALL) && !HasKey(c, g.u, ALL)
  {
  }

  lemma AllOfLine(x: seq<Test>, y: seq<Test>, t: Test, u: Test)
    requires x + y == [t, u]
    ensures t in x || (x == [] && y == [t, u])
  {
    if x == [] {
      assert x + y == y;
    } else {
      assert (x + y)[0] == x[0];
    }
  }

  lemma Regroup(a: seq<Test>, b: seq<Test>, c: seq<Test>)
    ensures (a + b) + c == a + (b + c)
  {
  }

  /** While t is in line u is not at the head of the line. */
  lemma NotNext(c: map<Test, seq<Key>>, active: map<Key, Worker>, done: seq<Test>, w: map<Key, seq<Test>>, queue: seq<Test>, g: Group)
    requires Follower(c, g) && WaitOk(c, active, w) && g.key !in active && InLine(c, done, w, queue, g) && g.t !in done && queue != []
    ensures queue[|queue| - 1] != g.u
  {
    hide With, Reversed, HasKey, In;
    PairIn(c, g);
    NobodyWaits(c, active, w, g.key);
    WithAllOrNone(c, [], g);
    WithIn(c, done, g);
    LastReversed(c, queue, g);
    AllOfLine(With(c, done, g), With(c, Reversed(queue), g), g.t, g.u);
    var x, rest := queue[|queue| - 1], With(c, Reversed(queue[..|queue| - 1]), g);
    assert ([x] + rest)[0] == x && g.t !in With(c, done, g);
  }

  /** The test x on top of the queue starts waiting. */
  lemma PairWaits(c: map<Test, seq<Key>>, active: map<Key, Worker>, done: seq<Test>, w: map<Key, seq<Test>>, queue: seq<Test>, g: Group, key: Key)
    requires Follower(c, g) && WaitOk(c, active, w) && queue != [] && Behind(c, done, w, queue, g)
    requires FirstActive(KeysOf(c, queue[|queue| - 1]), active) == By(key)
    ensures Behind(c, done, AddWaiter(w, key, queue[|queue| - 1]), queue[..|queue| - 1], g)
  {
    hide With, Reversed, In, WaitOk, Overtaken;
    var x := queue[|queue| - 1];
    if g.t !in done {
      PairIn(c, g);
      assert HasKey(c, x, key);
      if x == g.u && key != g.key {
        assert g.key !in active;
        NotNext(c, active, done, w, queue, g);
      }
      LastReversed(c, queue, g);
      WithAppend(c, Queue(w, g.key), [x], g);
      WithAllOrNone(c, [x], g);
      Regroup(With(c, Queue(w, g.key), g), With(c, [x], g), With(c, Reversed(queue[..|queue| - 1]), g));
      if key == g.key {
        assert Queue(AddWaiter(w, key, x), key) == Queue(w, key) + [x];
        assert forall j | j != key :: Queue(AddWaiter(w, key, x), j) == Queue(w, j);
      } else {
        assert x != g.t && x != g.u;
        assert forall j | j != key :: Queue(AddWaiter(w, key, x), j) == Queue(w, j);
      }
    }
  }

  /** It joins the batch. */
  lemma PairJoins(c: map<Test, seq<Key>>, active: map<Key, Worker>, done: seq<Test>, w: map<Key, seq<Test>>, queue: seq<Test>, g: Group)
    requires Follower(c, g) && WaitOk(c, active, w) && queue != [] && Behind(c, done, w, queue, g)
    requires FirstActive(KeysOf(c, queue[|queue| - 1]), active) == Free
    ensures Behind(c, done + [queue[|queue| - 1]], w, queue[..|queue| - 1], g)
  {
    hide With, Reversed, In, WaitOk;
    var x := queue[|queue| - 1];
    var done' := done + [x];
    if g.t !in done {
      PairIn(c, g);
      if x == g.u {
        NotNext(c, active, done, w, queue, g);
      }
      LastReversed(c, queue, g);
      WithAppend(c, done, [x], g);
      WithAllOrNone(c, [x], g);
    }
    forall n | 0 <= n < |done'| && done'[n] == g.u ensures g.t in done'[..n] {
      assert done'[..n] == done[..n];
    }
  }

  lemma {:induction false} PairPicks(c: map<Test, seq<Key>>, active: map<Key, Worker>, log: seq<Test>, w: map<Key, seq<Test>>,
                                     queue: seq<Test>, files: seq<Test>, n: nat, g: Group)
    requires Follower(c, g) && WaitOk(c, active, w) && (forall x | x in queue :: Truthy(x)) && Behind(c, log + files, w, queue, g)
    ensures var x := PickFrom(c, active, queue, w, files, n); Behind(c, log + x.files, x.waiting, x.queue, g)
    decreases |queue|
  {
    hide Follower, Behind, WaitOk, Truthy, AddWaiter, FirstActive;
    if |files| <= n && queue != [] {
      var x, q := queue[|queue| - 1], queue[..|queue| - 1];
      match FirstActive(KeysOf(c, x), active) {
        case By(key) =>
          PairWaits(c, active, log + files, w, queue, g, key);
          WaitAdd(c, active, w, key, x);
          PairPicks(c, active, log, AddWaiter(w, key, x), q, files, n, g);
        case Free =>
          PairJoins(c, active, log + files, w, queue, g);
          assert log + files + [x] == log + (files + [x]);
          PairPicks(c, active, log, w, q, files + [x], n, g);
      }
    }
  }

  /** The tests waiting for a key go back on top of the queue. */
  lemma PairReleased(c: map<Test, seq<Key>>, active: map<Key, Worker>, done: seq<Test>, w: map<Key, seq<Test>>, queue: seq<Test>, g: Group, key: Key)
    requires Follower(c, g) && WaitOk(c, active, w) && Behind(c, done, w, queue, g)
    ensures Behind(c, done, w - {key}, queue + Reversed(Queue(w, key)), g)
  {
    hide With, Reversed, In, Overtaken;
    if g.t !in done {
      PairIn(c, g);
      var list := Queue(w, key);
      ReversedAppend(queue, Reversed(list));
      ReversedTwice(list);
      WithAppend(c, list, Reversed(queue), g);
      WithAllOrNone(c, list, g);
      WithAllOrNone(c, [], g);
      assert forall j | j != key :: Queue(w - {key}, j) == Queue(w, j);
      if key != g.key {
        assert g.t !in list && g.u !in list;
        assert With(c, list, g) == [];
      }
    }
  }

  /** Sequential tests are neither of the two. */
  lemma PairMerged(c: map<Test, seq<Key>>, done: seq<Test>, w: map<Key, seq<Test>>, queue: seq<Test>, kept: seq<Test>, g: Group)
    requires Follower(c, g) && Behind(c, done, w, queue, g) && forall x | x in kept :: HasKey(c, x, ALL)
    ensures Behind(c, done, w, queue + kept, g)
  {
    hide With, Reversed, In, Overtaken;
    PairIn(c, g);
    ReversedAppend(queue, kept);
    WithAppend(c, Reversed(kept), Reversed(queue), g);
    InReversed(kept);
    WithAllOrNone(c, Reversed(kept), g);
  }

  ghost predicate BehindIn(p: Plan, s: State, g: Group)
    requires g.Pair?
  {
    Behind(p.conflicts, s.log, s.waiting, s.queue, g)
  }

  /** All names in sight are true. */
  lemma NamesTrue(p: Plan, s: State)
    requires Conserved(p, s) && AllTruthy(p.all)
    ensures forall x | x in s.queue || x in Waiters(s.waiting) :: Truthy(x)
    ensures forall k :: TruthyTail(Queue(s.waiting, k)) == Queue(s.waiting, k)
  {
    hide Waiters, Truthy, Sum, TruthyTail;
    SumLog([], s.queue, s.kept, s.waiting, s.log, s.lost, p.all);
    forall k ensures TruthyTail(Queue(s.waiting, k)) == Queue(s.waiting, k) {
      WaitersSplit(s.waiting, k);
      forall x | x in multiset(Queue(s.waiting, k)) ensures Truthy(x) { assert x in Waiters(s.waiting); }
      AllTail(Queue(s.waiting, k));
    }
  }

  lemma {:induction false} PairReleasedKeys(p: Plan, s: State, order: seq<Key>, g: Group)
    requires Conserved(p, s) && WaitOk(p.conflicts, s.active, s.waiting) && AllTruthy(p.all) && Follower(p.conflicts, g) && BehindIn(p, s, g)
    ensures BehindIn(p, ReleasedKeys(s, order), g)
  {
    hide Conserved, WaitOk, AllTruthy, Follower, Behind, TruthyTail, Reversed, Waiters, NoAll, Rest;
    if order != [] {
      var n := |order| - 1;
      var s1 := ReleasedKeys(s, order[..n]);
      PairReleasedKeys(p, s, order[..n], g);
      ReleaseKeysOk(p, s, order[..n]);
      NamesTrue(p, s1);
      PairReleased(p.conflicts, s1.active, s1.log, s1.waiting, s1.queue, g, order[n]);
    }
  }

  lemma PairPrepared(p: Plan, s: State, i: Worker, g: Group)
    requires Handling(p, s, i) && Follower(p.conflicts, g) && BehindIn(p, s, g)
    ensures Handling(p, Prepared(s), i) && BehindIn(p, Prepared(s), g)
  {
    hide Handling, Behind, Follower, HasKey;
    if |s.workers| == 1 && s.kept != [] {
      MergeStep(p, s, i);
      KeptAreLast(p, s, i);
      PairMerged(p.conflicts, s.log, s.waiting, s.queue, s.kept, g);
    }
  }

  lemma KeptAreLast(p: Plan, s: State, i: Worker)
    requires Handling(p, s, i)
    ensures forall x | x in s.kept :: HasKey(p.conflicts, x, ALL)
  {
    hide Conserved, ConflictsOk, Ordered, NoAll, HasKey;
  }

  lemma HandlingIs(p: Plan, s: State, i: Worker)
    requires Handling(p, s, i)
    ensures Conserved(p, s) && WaitOk(p.conflicts, s.active, s.waiting) && s.workers != {}
  {
    hide Conserved, WaitOk, Owned, Justified, Alone, Ordered;
  }

  lemma PairScheduled(p: Plan, s: State, i: Worker, g: Group)
    requires Handling(p, s, i) && AllTruthy(p.all) && Follower(p.conflicts, g) && BehindIn(p, s, g)
    ensures BehindIn(p, Scheduled(p, s, i), g)
  {
    hide Handling, Behind, Follower, Conserved, WaitOk, AllTruthy, Waiters, PickFrom, WithKeys, BatchSize, Truthy;
    hide Prepared;
    PairPrepared(p, s, i, g);
    HandlingIs(p, s, i);
    var s1 := Prepared(s);
    HandlingIs(p, s1, i);
    NamesTrue(p, s1);
    assert s1.log + [] == s1.log;
    var x := PickFrom(p.conflicts, s1.active, s1.queue, s1.waiting, [], SizeNow(p, s1));
    PairPicks(p.conflicts, s1.active, s1.log, s1.waiting, s1.queue, [], SizeNow(p, s1), g);
    assert x.files == [] ==> s1.log + x.files == s1.log;
  }

  lemma PairHandled(p: Plan, s: State, m: Message, g: Group)
    requires Valid(p, s) && CanSend(s, m) && AllTruthy(p.all) && Follower(p.conflicts, g) && BehindIn(p, s, g)
    ensures BehindIn(p, Handled(p, s, m), g)
  {
    hide Valid, Handling, Behind, Follower, AllTruthy, Scheduled, ReleasedKeys, KeysOfWorker;
    match m {
      case Ready(i) =>
        StartedStep(p, s, i);
        PairScheduled(p, s.(starting := s.starting - {i}), i, g);
      case Finished(i, order) =>
        FinishedOk(p, s, i, order);
        var s1 := s.(running := s.running - {i}, inProgress := s.inProgress - 1);
        RunningOut(p, s, s1);
        PairReleasedKeys(p, s1, order, g);
        PairScheduled(p, FinishedBatch(s, i, order), i, g);
    }
  }

  lemma RunningOut(p: Plan, s: State, s1: State)
    requires Valid(p, s) && s1 == s.(running := s1.running, inProgress := s1.inProgress)
    requires forall w | w in s1.running :: w in s.running && s1.running[w] == s.running[w]
    ensures Conserved(p, s1) && WaitOk(p.conflicts, s1.active, s1.waiting)
  {
    hide Conserved, WaitOk, Owned, Justified, Alone, Ordered, WorkersOk;
    FinishConserved(p, s, s1);
  }

  lemma {:induction false} PairRun(p: Plan, s: State, msgs: seq<Message>, g: Group)
    requires Valid(p, s) && CanRun(p, s, msgs) && AllTruthy(p.all) && Follower(p.conflicts, g) && BehindIn(p, s, g)
    ensures BehindIn(p, After(p, s, msgs), g)
  {
    hide Valid, Handled, CanSend, AllTruthy, Follower, BehindIn;
    if msgs != [] {
      var init := msgs[..|msgs| - 1];
      assert forall n | 0 <= n < |init| :: msgs[..n] == init[..n] && msgs[n] == init[n];
      PairRun(p, s, init, g);
      RunOk(p, s, init);
      assert CanSend(After(p, s, init), msgs[|msgs| - 1]);
      PairHandled(p, After(p, s, init), msgs[|msgs| - 1], g);
    }
  }

  /** The line at the start. */
  lemma PairStart(c: map<Test, seq<Key>>, order: seq<Test>, g: Group)
    requires Follower(c, g) && NoDup(order) && Before(order, g.t, g.u)
    ensures Behind(c, [], map[], Reversed(order), g)
  {
    assert g.Pair?;
    hide With, Reversed, In, Follower, NoDup, Before;
    WholeLine(c, order, g);
    WithAllOrNone(c, [], g);
    ReversedTwice(order);
  }

  lemma WholeLine(c: map<Test, seq<Key>>, order: seq<Test>, g: Group)
    requires Follower(c, g) && NoDup(order) && Before(order, g.t, g.u)
    ensures With(c, order, g) == [g.t, g.u]
  {
    assert g.Pair?;
    hide With, In, Follower, NoDup;
    var m: nat, n: nat :| m < n < |order| && order[m] == g.t && order[n] == g.u;
    PartHasNot(order, m, n, m);
    PartHasNot(order, m, n, n);
    PairLine(c, order[..m], order[m + 1..n], order[n + 1..], g);
    PartsOf(order, m, n);
  }

  lemma PartsOf(order: seq<Test>, m: nat, n: nat)
    requires m < n < |order|
    ensures order == order[..m] + ([order[m]] + (order[m + 1..n] + ([order[n]] + order[n + 1..])))
  {
  }

  lemma PairLine(c: map<Test, seq<Key>>, x: seq<Test>, y: seq<Test>, z: seq<Test>, g: Group)
    requires Follower(c, g) && g.t !in x && g.t !in y && g.t !in z && g.u !in x && g.u !in y && g.u !in z
    ensures With(c, x + ([g.t] + (y + ([g.u] + z))), g) == [g.t, g.u]
  {
    hide With, In;
    PairIn(c, g);
    WithAppend(c, x, [g.t] + (y + ([g.u] + z)), g);
    WithAppend(c, [g.t], y + ([g.u] + z), g);
    WithAppend(c, y, [g.u] + z, g);
    WithAppend(c, [g.u], z, g);
    WithAllOrNone(c, x, g);
    WithAllOrNone(c, y, g);
    WithAllOrNone(c, z, g);
    WithAllOrNone(c, [g.t], g);
    WithAllOrNone(c, [g.u], g);
  }

  lemma PartHasNot(order: seq<Test>, m: nat, n: nat, i: nat)
    requires NoDup(order) && m < n < |order| && (i == m || i == n)
    ensures order[i] !in order[..m] && order[i] !in order[m + 1..n] && order[i] !in order[n + 1..]
  {
  }

  /** In every run, a test that has k as its first key never overtakes an earlier one that has no key but k. */
  lemma FirstKeyFollows(p: Plan, count: nat, msgs: seq<Message>, t: Test, u: Test, k: Key)
    requires RunOf(p, count, msgs) && Before(p.order, t, u) && In(p.conflicts, t, Solely(k))
    requires KeysOf(p.conflicts, u) != [] && KeysOf(p.conflicts, u)[0] == k
    ensures !Overtaken(After(p, Start(p, count), msgs).log, t, u)
  {
    hide With, Reversed, Handled, After, CanRun, AllTruthy, Overtaken, InLine;
    var g := Pair(k, t, u);
    assert t in p.order && u in p.order;
    StartIsValid(p, count);
    PairStart(p.conflicts, p.order, g);
    PairRun(p, Start(p, count), msgs, g);
  }

  // ---- popping tests -----------------------------------------------------------------

  lemma PopJoins(c: map<Test, seq<Key>>, active: map<Key, Worker>, q: seq<Test>, t: Test, w: map<Key, seq<Test>>, files: seq<Test>, n: nat)
    requires |files| <= n && Truthy(t) && forall k | HasKey(c, t, k) :: k !in active
    ensures PickFrom(c, active, q + [t], w, files, n) == PickFrom(c, active, q, w, files + [t], n)
  {
    assert (q + [t])[..|q|] == q;
  }

  lemma PopWaits(c: map<Test, seq<Key>>, active: map<Key, Worker>, q: seq<Test>, t: Test, w: map<Key, seq<Test>>, files: seq<Test>, n: nat, key: Key)
    requires |files| <= n && Truthy(t) && FirstActive(KeysOf(c, t), active) == By(key)
    ensures PickFrom(c, active, q + [t], w, files, n) == PickFrom(c, active, q, AddWaiter(w, key, t), files, n)
  {
    assert (q + [t])[..|q|] == q;
  }

  lemma PopEnds(c: map<Test, seq<Key>>, active: map<Key, Worker>, q: seq<Test>, w: map<Key, seq<Test>>, files: seq<Test>, n: nat)
    requires |files| > n || q == []
    ensures PickFrom(c, active, q, w, files, n) == Picks(q, w, files, multiset{})
  {
  }

  // ---- for the examples --------------------------------------------------------------

  lemma NoMessages(p: Plan, s: State)
    ensures CanRun(p, s, []) && After(p, s, []) == s
  {
  }

  lemma ThreeMessages(p: Plan, s: State, m0: Message, m1: Message, m2: Message)
    requires CanSend(s, m0) && CanSend(Handled(p, s, m0), m1) && CanSend(Handled(p, Handled(p, s, m0), m1), m2)
    ensures CanRun(p, s, [m0, m1, m2]) && After(p, s, [m0, m1, m2]) == Handled(p, Handled(p, Handled(p, s, m0), m1), m2)
  {
    hide Handled, CanSend, After, CanRun;
    NoMessages(p, s);
    RunMore(p, s, [], m0);
    assert [] + [m0] == [m0];
    RunMore(p, s, [m0], m1);
    assert [m0] + [m1] == [m0, m1];
    RunMore(p, s, [m0, m1], m2);
    assert [m0, m1] + [m2] == [m0, m1, m2];
  }

  lemma OneReleased(s: State, key: Key, t: Test)
    requires key in s.waiting && s.waiting[key] == [t] && Truthy(t)
    ensures ReleasedKeys(s, [key]) == s.(active := s.active - {key}, queue := s.queue + [t], waiting := s.waiting - {key})
  {
    assert [key][..0] == [];
    AllTail([t]);
    ReversedFirst([t]);
    ReversedFirst<Test>([]);
    assert [t][..0] == [];
  }

  lemma OneLess<K, V>(a: K, b: K, u: V, v: V)
    requires a != b
    ensures map[a := u, b := v] - {a} == map[b := v]
  {
  }

  lemma NamesAreTrue()
    ensures Truthy("v") && Truthy("f") && Truthy("v1") && Truthy("f1") && Truthy("t") && Truthy("v2") && Truthy("f2") && Truthy("u")
  {
  }

  // ---- tests with other keys ---------------------------------------------------------

  /** Of two keys in a list one comes first. */
  ghost predicate First(keys: seq<Key>, x: Key, y: Key) {
    exists n :: 0 <= n < |keys| && keys[n] == x && y !in keys[..n]
  }

  lemma {:induction false} OneIsFirst(keys: seq<Key>, x: Key, y: Key)
    requires x in keys && y in keys
    ensures First(keys, x, y) || First(keys, y, x)
  {
    var n :| 0 <= n < |keys| && keys[n] == x;
    if y in keys[..n] {
      var m :| 0 <= m < n && keys[m] == y;
      assert keys[..n][..m] == keys[..m];
      if x in keys[..m] {
        OneIsFirst(keys[..m + 1], x, y);
        Longer(keys[..m + 1], keys, x, y);
        Longer(keys[..m + 1], keys, y, x);
      }
    }
  }

  lemma Longer(short: seq<Key>, keys: seq<Key>, x: Key, y: Key)
    requires short <= keys
    ensures First(short, x, y) ==> First(keys, x, y)
  {
    if First(short, x, y) {
      var n :| 0 <= n < |short| && short[n] == x && y !in short[..n];
      assert keys[..n] == short[..n] && keys[n] == x;
    }
  }

  /** When just these two keys are active, a test waits for the first. */
  lemma {:induction false} WaitsForFirst(keys: seq<Key>, active: map<Key, Worker>, x: Key, y: Key)
    requires x != y && First(keys, x, y) && active.Keys == {x, y}
    ensures FirstActive(keys, active) == By(x)
  {
    var n :| 0 <= n < |keys| && keys[n] == x && y !in keys[..n];
    if n > 0 && keys[0] != x {
      assert keys[0] in keys[..n];
      assert keys[1..][n - 1] == x && keys[1..][..n - 1] == keys[..n][1..];
      WaitsForFirst(keys[1..], active, x, y);
    }
  }

  lemma WaitsForOnly(keys: seq<Key>, active: map<Key, Worker>, j: Key)
    requires j in keys && active.Keys == {j}
    ensures FirstActive(keys, active) == By(j)
  {
    assert FirstActive(keys, active).By?;
  }

  /** Four tests: "v" has the keys vs, "f" has none, "t" and "u" have the keys a and b. */
  function FourTests(vs: seq<Key>, a: seq<Key>, b: seq<Key>, max: nat): Plan {
    Plan(map["v" := vs, "f" := [], "t" := a, "u" := b], multiset{"v", "f", "t", "u"}, ["v", "f", "t", "u"], [], max)
  }

  /** Worker 1 got "v" and "f". */
  function FourTestsOne(active: map<Key, Worker>): State {
    State(["u", "t"], [], active, map[], 1, {1, 2, 3, 4}, {2, 3, 4}, map[1 := ["v", "f"]], ["v", "f"], multiset{})
  }

  /** Worker 2 got "u"; "t" waits for j. */
  function FourTestsTwo(j: Key, b: seq<Key>): State {
    State([], [], Keyed(map[j := 1], b, 2), map[j := ["t"]], 2, {1, 2, 3, 4}, {3, 4}, map[1 := ["v", "f"], 2 := ["u"]], ["v", "f", "u"], multiset{})
  }

  /** Worker 2 got nothing; "t" waits for k and "u" for j. */
  function FourTestsNone(k: Key, j: Key): State {
    State([], [], map[k := 1, j := 1], map[k := ["t"], j := ["u"]], 1, {1, 3, 4}, {3, 4}, map[1 := ["v", "f"]], ["v", "f"], multiset{})
  }

  lemma Sizes(max: nat)
    requires max >= 1
    ensures BatchSize(max, 4, 4) == 1 && BatchSize(max, 4, 3) >= 1
    ensures BatchSize(max, 6, 6) == 1 && BatchSize(max, 6, 5) >= 1 && BatchSize(max, 6, 4) >= 1
  {
  }

  lemma FourTestsStart(vs: seq<Key>, a: seq<Key>, b: seq<Key>, max: nat)
    ensures Start(FourTests(vs, a, b, max), 4) ==
            State(["u", "t", "f", "v"], [], map[], map[], 0, {1, 2, 3, 4}, {1, 2, 3, 4}, map[], [], multiset{})
  {
    hide Reversed;
    assert Workers(4) == {1, 2, 3, 4};
    ReversedFour("v", "f", "t", "u");
  }

  lemma ReversedFour<T>(a: T, b: T, c: T, d: T)
    ensures Reversed([a, b, c, d]) == [d, c, b, a]
  {
    hide Reversed;
    ReversedFirst<T>([]);
    ReversedPush([], a);
    ReversedPush([a], b);
    ReversedPush([a, b], c);
    ReversedPush([a, b, c], d);
    assert [a, b, c] + [d] == [a, b, c, d] && [a, b] + [c] == [a, b, c] && [a] + [b] == [a, b] && [] + [a] == [a];
  }

  /** The keys of a batch of two tests of which only the first has any. */
  lemma TwoKeyed(active: map<Key, Worker>, c: map<Test, seq<Key>>, t: Test, u: Test, i: Worker)
    requires KeysOf(c, u) == []
    ensures WithKeys(active, c, [t, u], i) == Keyed(active, KeysOf(c, t), i)
  {
    assert [t, u][..1] == [t] && [t][..0] == [];
    assert WithKeys(active, c, [t], i) == Keyed(active, KeysOf(c, t), i);
  }

  lemma KeyedAlone(active: map<Key, Worker>, c: map<Test, seq<Key>>, u: Test, i: Worker)
    ensures WithKeys(active, c, [u], i) == Keyed(active, KeysOf(c, u), i)
  {
    assert [u][..0] == [];
  }

  lemma OneKeyed(active: map<Key, Worker>, j: Key, k: Key, i: Worker)
    ensures Keyed(active, [j], i) == active[j := i] && Keyed(active, [j, k], i) == active[j := i][k := i]
  {
    assert [j, k][..1] == [j] && [j][..0] == [];
  }

  lemma FirstWaiter(w: map<Key, seq<Test>>, j: Key, t: Test)
    requires j !in w
    ensures AddWaiter(w, j, t) == w[j := [t]]
  {
    assert Queue(w, j) + [t] == [t];
  }

  lemma FourTestsKeys(vs: seq<Key>, a: seq<Key>, b: seq<Key>, max: nat)
    ensures var c := FourTests(vs, a, b, max).conflicts;
      KeysOf(c, "v") == vs && KeysOf(c, "f") == [] && KeysOf(c, "t") == a && KeysOf(c, "u") == b
  {
  }

  lemma FourTestsFirst(vs: seq<Key>, a: seq<Key>, b: seq<Key>, max: nat)
    requires max >= 1
    ensures var p := FourTests(vs, a, b, max); Handled(p, Start(p, 4), Message.Ready(1)) == FourTestsOne(Keyed(map[], vs, 1))
  {
    hide PickFrom, Start, BatchSize;
    var p := FourTests(vs, a, b, max);
    var c := p.conflicts;
    FourTestsStart(vs, a, b, max);
    FourTestsKeys(vs, a, b, max);
    Sizes(max);
    var s := Start(p, 4);
    assert s.queue == ["u", "t", "f"] + ["v"] && ["u", "t", "f"] == ["u", "t"] + ["f"];
    assert |s.workers| == 4;
    PopJoins(c, map[], ["u", "t", "f"], "v", map[], [], 1);
    PopJoins(c, map[], ["u", "t"], "f", map[], ["v"], 1);
    PopEnds(c, map[], ["u", "t"], map[], ["v", "f"], 1);
    TwoKeyed(map[], c, "v", "f", 1);
    assert [] + ["v"] == ["v"] && ["v"] + ["f"] == ["v", "f"] && s.starting - {1} == {2, 3, 4};
  }

  lemma FourTestsSecond(a: seq<Key>, b: seq<Key>, j: Key, max: nat)
    requires max >= 1 && j in a && j !in b
    ensures Handled(FourTests([j], a, b, max), FourTestsOne(map[j := 1]), Message.Ready(2)) == FourTestsTwo(j, b)
  {
    hide PickFrom, BatchSize, FirstActive;
    var p := FourTests([j], a, b, max);
    var c := p.conflicts;
    FourTestsKeys([j], a, b, max);
    Sizes(max);
    var s := FourTestsOne(map[j := 1]);
    assert s.queue == ["u"] + ["t"] && ["u"] == [] + ["u"];
    assert |s.workers| == 4;
    WaitsForOnly(a, s.active, j);
    PopWaits(c, s.active, ["u"], "t", map[], [], 1, j);
    PopJoins(c, s.active, [], "u", map[j := ["t"]], [], 1);
    PopEnds(c, s.active, [], map[j := ["t"]], ["u"], 1);
    FirstWaiter(map[], j, "t");
    KeyedAlone(s.active, c, "u", 2);
    hide WithKeys, Keyed;
    assert s.log + ["u"] == ["v", "f", "u"] && s.starting - {2} == {3, 4};
  }

  lemma FourTestsProper(vs: seq<Key>, a: seq<Key>, b: seq<Key>, max: nat)
    requires ALL !in a && ALL !in b && ALL !in vs
    ensures var p := FourTests(vs, a, b, max); Proper(p) && AllTruthy(p.all) && NoDup(p.order) && Before(p.order, "t", "u")
  {
    hide KeysOf, Proper, AllTruthy, Truthy;
    var p := FourTests(vs, a, b, max);
    FourTestsKeys(vs, a, b, max);
    assert p.order[2] == "t" && p.order[3] == "u";
    NamesAreTrue();
    FourProper(p, "v", "f", "t", "u");
  }

  lemma FourProper(p: Plan, v: Test, f: Test, t: Test, u: Test)
    requires p.order == [v, f, t, u] && p.last == [] && p.all == multiset{v, f, t, u}
    requires Truthy(v) && Truthy(f) && Truthy(t) && Truthy(u)
    requires var c := p.conflicts; !HasKey(c, v, ALL) && !HasKey(c, f, ALL) && !HasKey(c, t, ALL) && !HasKey(c, u, ALL)
    ensures Proper(p) && AllTruthy(p.all)
  {
    hide HasKey, Truthy;
    assert multiset([]) + p.all == p.all;
  }

  /** A key of t that u does not have: while a third test has it, u goes ahead. */
  lemma KeyOfOne(a: seq<Key>, b: seq<Key>, j: Key, max: nat)
    requires max >= 1 && j in a && j !in b && ALL !in a && ALL !in b
    ensures OrderLost(max, a, b)
  {
    hide Handled, Start, Proper, AllTruthy, NoDup, Before;
    var p := FourTests([j], a, b, max);
    var s := Start(p, 4);
    FourTestsKeys([j], a, b, max);
    FourTestsProper([j], a, b, max);
    FourTestsStart([j], a, b, max);
    FourTestsFirst([j], a, b, max);
    OneKeyed(map[], j, j, 1);
    FourTestsSecond(a, b, j, max);
    RunMore(p, s, [], Message.Ready(1));
    RunMore(p, s, [Message.Ready(1)], Message.Ready(2));
    var msgs := [Message.Ready(1), Message.Ready(2)];
    assert [] + [Message.Ready(1)] == [Message.Ready(1)] && [Message.Ready(1)] + [Message.Ready(2)] == msgs;
    var log := FourTestsTwo(j, b).log;
    assert log[2] == "u" && "t" !in log[..2];
    assert LostIn(p, 4, msgs, "t", "u");
  }

  // ---- another first key -------------------------------------------------------------

  lemma FirstKeyWaits(keys: seq<Key>, active: map<Key, Worker>)
    requires keys != [] && keys[0] in active
    ensures FirstActive(keys, active) == By(keys[0])
  {
  }

  lemma {:induction false} OnlyKeyWaits(keys: seq<Key>, active: map<Key, Worker>, k: Key)
    requires k in keys && k in active && forall j | j in keys :: j == k
    ensures FirstActive(keys, active) == By(k)
  {
    assert keys[0] in keys;
  }

  /** Nothing is left for worker 2: "t" waits for k, and "u" for its first key. */
  lemma FourTestsWait(a: seq<Key>, b: seq<Key>, k: Key, max: nat)
    requires max >= 1 && k in a && (forall j | j in a :: j == k) && k in b && b[0] != k
    ensures Handled(FourTests([k, b[0]], a, b, max), FourTestsOne(map[k := 1, b[0] := 1]), Message.Ready(2)) == FourTestsNone(k, b[0])
  {
    hide PickFrom, BatchSize, FirstActive;
    var p := FourTests([k, b[0]], a, b, max);
    var c := p.conflicts;
    FourTestsKeys([k, b[0]], a, b, max);
    Sizes(max);
    var s := FourTestsOne(map[k := 1, b[0] := 1]);
    assert s.queue == ["u"] + ["t"] && ["u"] == [] + ["u"];
    assert |s.workers| == 4;
    OnlyKeyWaits(a, s.active, k);
    FirstKeyWaits(b, s.active);
    FirstWaiter(map[], k, "t");
    FirstWaiter(map[k := ["t"]], b[0], "u");
    PopWaits(c, s.active, ["u"], "t", map[], [], 1, k);
    PopWaits(c, s.active, [], "u", map[k := ["t"]], [], 1, b[0]);
    PopEnds(c, s.active, [], map[k := ["t"], b[0] := ["u"]], [], 1);
    assert s.workers - {2} == {1, 3, 4};
  }

  /** Worker 1 has finished: k is released first, then the first key of "u", which comes to lie on top. */
  lemma FourTestsReleased(k: Key, j: Key)
    requires j != k
    ensures FinishedBatch(FourTestsNone(k, j), 1, [k, j]) ==
              FourTestsNone(k, j).(queue := ["t"] + ["u"], active := map[], waiting := map[], running := map[], inProgress := 0)
  {
    hide ReleasedKeys, Truthy;
    var s := FourTestsNone(k, j).(running := map[], inProgress := 0);
    assert FourTestsNone(k, j).running - {1} == map[];
    OneReleased(s, k, "t");
    OneLess(k, j, 1, 1);
    OneLess(k, j, ["t"], ["u"]);
    var s1 := ReleasedKeys(s, [k]);
    ReleasedMore(s, [k], j);
    ReleasedMore(s1, [], j);
    NoneReleased(s1);
    OneReleased(s1, j, "u");
    assert [k] + [j] == [k, j] && [] + [j] == [j] && [] + ["t"] == ["t"];
  }

  lemma FourTestsLast(a: seq<Key>, b: seq<Key>, k: Key, j: Key, max: nat)
    requires max >= 1 && j != k
    ensures var p := FourTests([k, j], a, b, max); var s := FourTestsNone(k, j);
      CanSend(s, Finished(1, [k, j])) && Handled(p, s, Finished(1, [k, j])).log == ["v", "f", "u", "t"]
  {
    hide PickFrom, BatchSize, FirstActive, ReleasedKeys, WithKeys;
    var p := FourTests([k, j], a, b, max);
    var c, s := p.conflicts, FourTestsNone(k, j);
    FourTestsKeys([k, j], a, b, max);
    Sizes(max);
    FourTestsReleased(k, j);
    var s2 := FinishedBatch(s, 1, [k, j]);
    assert s2.queue == ["t"] + ["u"] && ["t"] == [] + ["t"];
    assert |s2.workers| == 3;
    var n := SizeNow(p, s2);
    PopJoins(c, map[], ["t"], "u", map[], [], n);
    PopJoins(c, map[], [], "t", map[], ["u"], n);
    PopEnds(c, map[], [], map[], ["u", "t"], n);
    assert [] + ["u"] == ["u"] && ["u"] + ["t"] == ["u", "t"];
    assert s.log + ["u", "t"] == ["v", "f", "u", "t"];
  }

  /** u has another first key than t's only one: a third test with both keys gives them back in that order. */
  lemma OtherFirstKey(a: seq<Key>, b: seq<Key>, k: Key, max: nat)
    requires max >= 1 && k in a && (forall j | j in a :: j == k) && k in b && b[0] != k && ALL !in a && ALL !in b
    ensures OrderLost(max, a, b)
  {
    hide Handled, Start, Proper, AllTruthy, NoDup, Before, CanSend, After, CanRun;
    var j := b[0];
    var p := FourTests([k, j], a, b, max);
    var s := Start(p, 4);
    assert j in b;
    FourTestsKeys([k, j], a, b, max);
    FourTestsProper([k, j], a, b, max);
    FourTestsStart([k, j], a, b, max);
    FourTestsFirst([k, j], a, b, max);
    OneKeyed(map[], k, j, 1);
    assert map[][k := 1][j := 1] == map[k := 1, j := 1];
    FourTestsWait(a, b, k, max);
    FourTestsLast(a, b, k, j, max);
    FourTestsReady(a, b, k, j, max);
    ThreeMessages(p, s, Message.Ready(1), Message.Ready(2), Finished(1, [k, j]));
    var msgs := [Message.Ready(1), Message.Ready(2), Finished(1, [k, j])];
    var log := ["v", "f", "u", "t"];
    assert log[2] == "u" && "t" !in log[..2];
    assert LostIn(p, 4, msgs, "t", "u");
  }

  lemma FourTestsReady(a: seq<Key>, b: seq<Key>, k: Key, j: Key, max: nat)
    ensures CanSend(Start(FourTests([k, j], a, b, max), 4), Message.Ready(1))
    ensures CanSend(FourTestsOne(map[k := 1, j := 1]), Message.Ready(2))
  {
    FourTestsStart([k, j], a, b, max);
  }

  // ---- two common keys ---------------------------------------------------------------

  /** Six tests: "v1" has only the key y, "v2" only x, "f1" and "f2" have none, "t" and "u" have the keys a and b. */
  function SixTests(a: seq<Key>, b: seq<Key>, x: Key, y: Key, max: nat): Plan {
    Plan(map["v1" := [y], "f1" := [], "t" := a, "v2" := [x], "f2" := [], "u" := b],
         multiset{"v1", "f1", "t", "v2", "f2", "u"}, ["v1", "f1", "t", "v2", "f2", "u"], [], max)
  }

  const ALL_SIX: set<Worker> := {1, 2, 3, 4, 5, 6}

  function Six0(): State {
    State(["u", "f2", "v2", "t", "f1", "v1"], [], map[], map[], 0, ALL_SIX, ALL_SIX, map[], [], multiset{})
  }

  /** Worker 1 got "v1" and "f1". */
  function Six1(y: Key): State {
    State(["u", "f2", "v2", "t"], [], map[y := 1], map[], 1, ALL_SIX, {2, 3, 4, 5, 6}, map[1 := ["v1", "f1"]], ["v1", "f1"], multiset{})
  }

  /** Worker 2 got "v2" and "f2"; "t" waits for y. */
  function Six2(x: Key, y: Key): State {
    State(["u"], [], map[y := 1, x := 2], map[y := ["t"]], 2, ALL_SIX, {3, 4, 5, 6},
          map[1 := ["v1", "f1"], 2 := ["v2", "f2"]], ["v1", "f1", "v2", "f2"], multiset{})
  }

  /** Worker 3 got nothing; "u" waits for x. */
  function Six3(x: Key, y: Key): State {
    State([], [], map[y := 1, x := 2], map[y := ["t"], x := ["u"]], 2, {1, 2, 4, 5, 6}, {4, 5, 6},
          map[1 := ["v1", "f1"], 2 := ["v2", "f2"]], ["v1", "f1", "v2", "f2"], multiset{})
  }

  /** Worker 1 has finished; "t" was tried again and waits for x, behind "u". */
  function Six4(x: Key): State {
    State([], [], map[x := 2], map[x := ["u", "t"]], 1, {2, 4, 5, 6}, {4, 5, 6}, map[2 := ["v2", "f2"]], ["v1", "f1", "v2", "f2"], multiset{})
  }

  lemma SixTestsKeys(a: seq<Key>, b: seq<Key>, x: Key, y: Key, max: nat)
    ensures var c := SixTests(a, b, x, y, max).conflicts;
      && KeysOf(c, "v1") == [y] && KeysOf(c, "f1") == [] && KeysOf(c, "t") == a
      && KeysOf(c, "v2") == [x] && KeysOf(c, "f2") == [] && KeysOf(c, "u") == b
  {
  }

  lemma ReversedSix<T>(a: T, b: T, c: T, d: T, e: T, f: T)
    ensures Reversed([a, b, c, d, e, f]) == [f, e, d, c, b, a]
  {
    hide Reversed;
    ReversedFirst<T>([]);
    ReversedPush([], a);
    ReversedPush([a], b);
    ReversedPush([a, b], c);
    ReversedPush([a, b, c], d);
    ReversedPush([a, b, c, d], e);
    ReversedPush([a, b, c, d, e], f);
    assert [a, b, c, d, e] + [f] == [a, b, c, d, e, f] && [a, b, c, d] + [e] == [a, b, c, d, e];
    assert [a, b, c] + [d] == [a, b, c, d] && [a, b] + [c] == [a, b, c] && [a] + [b] == [a, b] && [] + [a] == [a];
  }

  lemma SixTestsStart(a: seq<Key>, b: seq<Key>, x: Key, y: Key, max: nat)
    ensures Start(SixTests(a, b, x, y, max), 6) == Six0()
  {
    hide Reversed;
    assert Workers(6) == ALL_SIX;
    ReversedSix("v1", "f1", "t", "v2", "f2", "u");
  }

  lemma SixTestsFirst(a: seq<Key>, b: seq<Key>, x: Key, y: Key, max: nat)
    requires max >= 1
    ensures Handled(SixTests(a, b, x, y, max), Six0(), Message.Ready(1)) == Six1(y)
  {
    hide PickFrom, BatchSize;
    var p := SixTests(a, b, x, y, max);
    var c, s := p.conflicts, Six0();
    SixTestsKeys(a, b, x, y, max);
    Sizes(max);
    assert s.queue == ["u", "f2", "v2", "t", "f1"] + ["v1"] && ["u", "f2", "v2", "t", "f1"] == ["u", "f2", "v2", "t"] + ["f1"];
    assert |s.workers| == 6;
    PopJoins(c, map[], ["u", "f2", "v2", "t", "f1"], "v1", map[], [], 1);
    PopJoins(c, map[], ["u", "f2", "v2", "t"], "f1", map[], ["v1"], 1);
    PopEnds(c, map[], ["u", "f2", "v2", "t"], map[], ["v1", "f1"], 1);
    TwoKeyed(map[], c, "v1", "f1", 1);
    OneKeyed(map[], y, y, 1);
    assert [] + ["v1"] == ["v1"] && ["v1"] + ["f1"] == ["v1", "f1"] && s.starting - {1} == {2, 3, 4, 5, 6};
  }

  lemma SixTestsPicks(c: map<Test, seq<Key>>, a: seq<Key>, x: Key, y: Key)
    requires x != y && y in a && KeysOf(c, "t") == a && KeysOf(c, "v2") == [x] && KeysOf(c, "f2") == []
    ensures PickFrom(c, map[y := 1], ["u", "f2", "v2", "t"], map[], [], 1) == Picks(["u"], map[y := ["t"]], ["v2", "f2"], multiset{})
  {
    hide PickFrom, FirstActive;
    assert ["u", "f2", "v2", "t"] == ["u", "f2", "v2"] + ["t"] && ["u", "f2", "v2"] == ["u", "f2"] + ["v2"] && ["u", "f2"] == ["u"] + ["f2"];
    WaitsForOnly(a, map[y := 1], y);
    FirstWaiter(map[], y, "t");
    var w: map<Key, seq<Test>> := map[y := ["t"]];
    PopWaits(c, map[y := 1], ["u", "f2", "v2"], "t", map[], [], 1, y);
    PopJoins(c, map[y := 1], ["u", "f2"], "v2", w, [], 1);
    PopJoins(c, map[y := 1], ["u"], "f2", w, ["v2"], 1);
    PopEnds(c, map[y := 1], ["u"], w, ["v2", "f2"], 1);
    assert [] + ["v2"] == ["v2"] && ["v2"] + ["f2"] == ["v2", "f2"];
  }

  lemma SixTestsSecond(a: seq<Key>, b: seq<Key>, x: Key, y: Key, max: nat)
    requires max >= 1 && x != y && y in a
    ensures Handled(SixTests(a, b, x, y, max), Six1(y), Message.Ready(2)) == Six2(x, y)
  {
    hide PickFrom, BatchSize, FirstActive;
    var p := SixTests(a, b, x, y, max);
    var c, s := p.conflicts, Six1(y);
    SixTestsKeys(a, b, x, y, max);
    Sizes(max);
    assert |s.workers| == 6;
    SixTestsPicks(c, a, x, y);
    TwoKeyed(s.active, c, "v2", "f2", 2);
    OneKeyed(s.active, x, x, 2);
    assert s.starting - {2} == {3, 4, 5, 6};
    assert s.log + ["v2", "f2"] == ["v1", "f1", "v2", "f2"];
  }

  lemma SixTestsThird(a: seq<Key>, b: seq<Key>, x: Key, y: Key, max: nat)
    requires max >= 1 && x != y && First(b, x, y)
    ensures Handled(SixTests(a, b, x, y, max), Six2(x, y), Message.Ready(3)) == Six3(x, y)
  {
    hide PickFrom, BatchSize, FirstActive;
    var p := SixTests(a, b, x, y, max);
    var c, s := p.conflicts, Six2(x, y);
    SixTestsKeys(a, b, x, y, max);
    Sizes(max);
    assert s.queue == [] + ["u"];
    assert |s.workers| == 6;
    WaitsForFirst(b, s.active, x, y);
    FirstWaiter(s.waiting, x, "u");
    PopWaits(c, s.active, [], "u", s.waiting, [], 1, x);
    PopEnds(c, s.active, [], s.waiting[x := ["u"]], [], 1);
    assert s.starting - {3} == {4, 5, 6} && s.workers - {3} == {1, 2, 4, 5, 6};
  }

  lemma SixTestsFourth(a: seq<Key>, b: seq<Key>, x: Key, y: Key, max: nat)
    requires max >= 1 && x != y && x in a
    ensures Handled(SixTests(a, b, x, y, max), Six3(x, y), Finished(1, [y])) == Six4(x) && CanSend(Six3(x, y), Finished(1, [y]))
  {
    hide PickFrom, BatchSize, FirstActive, ReleasedKeys;
    var p := SixTests(a, b, x, y, max);
    var c, s := p.conflicts, Six3(x, y);
    SixTestsKeys(a, b, x, y, max);
    Sizes(max);
    SixTestsReleased(x, y);
    var s2 := FinishedBatch(s, 1, [y]);
    assert |s2.workers| == 5;
    WaitsForOnly(a, s2.active, x);
    PopWaits(c, s2.active, [], "t", s2.waiting, [], SizeNow(p, s2), x);
    PopEnds(c, s2.active, [], map[x := ["u", "t"]], [], SizeNow(p, s2));
    assert s2.workers - {1} == {2, 4, 5, 6};
  }

  /** Worker 1 is done with "v1" and "f1": "t" goes back to the queue. */
  lemma SixTestsReleased(x: Key, y: Key)
    requires x != y
    ensures FinishedBatch(Six3(x, y), 1, [y]) ==
              Six4(x).(queue := [] + ["t"], waiting := map[x := ["u"]], workers := {1, 2, 4, 5, 6})
    ensures AddWaiter(map[x := ["u"]], x, "t") == map[x := ["u", "t"]]
  {
    hide ReleasedKeys;
    var s := Six3(x, y);
    OneReleased(s.(running := s.running - {1}, inProgress := 1), y, "t");
    OneLess(y, x, 1, 2);
    OneLess(y, x, ["t"], ["u"]);
    OneLess(1, 2, ["v1", "f1"], ["v2", "f2"]);
    assert Queue(map[x := ["u"]], x) + ["t"] == ["u", "t"];
  }

  lemma TwoReleased(s: State, key: Key, t: Test, u: Test)
    requires key in s.waiting && s.waiting[key] == [u, t] && Truthy(t) && Truthy(u)
    ensures ReleasedKeys(s, [key]) == s.(active := s.active - {key}, queue := s.queue + [t, u], waiting := s.waiting - {key})
  {
    hide Reversed, TruthyTail, Truthy;
    assert [key][..0] == [];
    AllTail([u, t]);
    ReversedFirst([u, t]);
    assert [u, t][1..] == [t];
    ReversedFirst([t]);
    ReversedFirst<Test>([]);
    assert [u, t][..0] == [];
  }

  /** Worker 2 gets "u" and then "t". */
  lemma SixTestsFifth(a: seq<Key>, b: seq<Key>, x: Key, y: Key, max: nat)
    requires max >= 1 && x != y
    ensures Handled(SixTests(a, b, x, y, max), Six4(x), Finished(2, [x])).log == ["v1", "f1", "v2", "f2", "u", "t"]
    ensures CanSend(Six4(x), Finished(2, [x]))
  {
    hide PickFrom, BatchSize, FirstActive, ReleasedKeys, WithKeys;
    var p := SixTests(a, b, x, y, max);
    var c, s := p.conflicts, Six4(x);
    SixTestsKeys(a, b, x, y, max);
    Sizes(max);
    TwoReleased(s.(running := s.running - {2}, inProgress := 0), x, "t", "u");
    var s2 := FinishedBatch(s, 2, [x]);
    assert s2.active == map[] && s2.queue == ["t"] + ["u"] && ["t"] == [] + ["t"];
    assert |s2.workers| == 4;
    var n := SizeNow(p, s2);
    PopJoins(c, s2.active, ["t"], "u", s2.waiting, [], n);
    PopJoins(c, s2.active, [], "t", s2.waiting, ["u"], n);
    PopEnds(c, s2.active, [], s2.waiting, ["u", "t"], n);
    assert [] + ["u"] == ["u"] && ["u"] + ["t"] == ["u", "t"];
    assert s.log + ["u", "t"] == ["v1", "f1", "v2", "f2", "u", "t"];
  }

  lemma SixTestsProper(a: seq<Key>, b: seq<Key>, x: Key, y: Key, max: nat)
    requires ALL !in a && ALL !in b && x != ALL && y != ALL
    ensures var p := SixTests(a, b, x, y, max); Proper(p) && AllTruthy(p.all) && NoDup(p.order) && Before(p.order, "t", "u")
  {
    hide KeysOf, NoDup, Before, Truthy, Proper, AllTruthy;
    SixTestsKeys(a, b, x, y, max);
    NamesAreTrue();
    SixDistinct("v1", "f1", "t", "v2", "f2", "u");
    SixProper(SixTests(a, b, x, y, max), "v1", "f1", "t", "v2", "f2", "u");
  }

  lemma SixProper(p: Plan, v1: Test, f1: Test, t: Test, v2: Test, f2: Test, u: Test)
    requires p.order == [v1, f1, t, v2, f2, u] && p.last == [] && p.all == multiset{v1, f1, t, v2, f2, u}
    requires Truthy(v1) && Truthy(f1) && Truthy(t) && Truthy(v2) && Truthy(f2) && Truthy(u)
    requires var c := p.conflicts;
      && !HasKey(c, v1, ALL) && !HasKey(c, f1, ALL) && !HasKey(c, t, ALL) && !HasKey(c, v2, ALL) && !HasKey(c, f2, ALL) && !HasKey(c, u, ALL)
    ensures Proper(p) && AllTruthy(p.all)
  {
    hide HasKey, Truthy;
    assert multiset([]) + p.all == p.all;
  }

  lemma SixDistinct(v1: Test, f1: Test, t: Test, v2: Test, f2: Test, u: Test)
    requires |{v1, f1, t, v2, f2, u}| == 6
    ensures var order := [v1, f1, t, v2, f2, u]; NoDup(order) && Before(order, t, u)
  {
    var order := [v1, f1, t, v2, f2, u];
    assert order[2] == t && order[5] == u;
  }

  /** Five messages in a row. */
  lemma FiveMessages(p: Plan, s: State, m0: Message, m1: Message, m2: Message, m3: Message, m4: Message)
    requires CanSend(s, m0) && CanSend(Handled(p, s, m0), m1) && CanSend(Handled(p, Handled(p, s, m0), m1), m2)
    requires CanSend(Handled(p, Handled(p, Handled(p, s, m0), m1), m2), m3)
    requires CanSend(Handled(p, Handled(p, Handled(p, Handled(p, s, m0), m1), m2), m3), m4)
    ensures CanRun(p, s, [m0, m1, m2, m3, m4])
    ensures After(p, s, [m0, m1, m2, m3, m4]) == Handled(p, Handled(p, Handled(p, Handled(p, Handled(p, s, m0), m1), m2), m3), m4)
  {
    hide Handled, CanSend, After, CanRun;
    ThreeMessages(p, s, m0, m1, m2);
    RunMore(p, s, [m0, m1, m2], m3);
    assert [m0, m1, m2] + [m3] == [m0, m1, m2, m3];
    RunMore(p, s, [m0, m1, m2, m3], m4);
    assert [m0, m1, m2, m3] + [m4] == [m0, m1, m2, m3, m4];
  }

  /** Two common keys: "t" waits for the one, and by the time it is tried again "u" waits for the other. */
  lemma TwoCommonKeys(a: seq<Key>, b: seq<Key>, x: Key, y: Key, max: nat)
    requires max >= 1 && x != y && x in a && y in a && First(b, x, y) && ALL !in a && ALL !in b && x in b && y in b
    ensures OrderLost(max, a, b)
  {
    hide Handled, Start, Proper, AllTruthy, NoDup, Before, First;
    var p := SixTests(a, b, x, y, max);
    SixTestsKeys(a, b, x, y, max);
    SixTestsProper(a, b, x, y, max);
    SixTestsStart(a, b, x, y, max);
    SixTestsFirst(a, b, x, y, max);
    SixTestsSecond(a, b, x, y, max);
    SixTestsThird(a, b, x, y, max);
    SixTestsFourth(a, b, x, y, max);
    SixTestsFifth(a, b, x, y, max);
    FiveMessages(p, Six0(), Message.Ready(1), Message.Ready(2), Message.Ready(3), Finished(1, [y]), Finished(2, [x]));
    var msgs := [Message.Ready(1), Message.Ready(2), Message.Ready(3), Finished(1, [y]), Finished(2, [x])];
    var log := ["v1", "f1", "v2", "f2", "u", "t"];
    assert log[4] == "u" && "t" !in log[..4];
    assert LostIn(p, 6, msgs, "t", "u");
  }

  /** Tests t and u share the key k, and t comes first.  Their order is kept in every run of every set of tests if and
      only if t has no key but k, and k is the first key of u. */
  lemma OrderKeptIff(maxBatch: nat, a: seq<Key>, b: seq<Key>, k: Key)
    requires maxBatch >= 1 && k in a && k in b && ALL !in a && ALL !in b
    ensures !OrderLost(maxBatch, a, b) <==> (forall j | j in a :: j == k) && b[0] == k
  {
    hide OrderLost;
    if j :| j in a && j != k {
      if j !in b {
        KeyOfOne(a, b, j, maxBatch);
      } else {
        OneIsFirst(b, j, k);
        if First(b, j, k) { TwoCommonKeys(a, b, j, k, maxBatch); } else { TwoCommonKeys(a, b, k, j, maxBatch); }
      }
    } else if b[0] != k {
      OtherFirstKey(a, b, k, maxBatch);
    } else {
      FirstKeyNeverLost(maxBatch, a, b, k);
    }
  }

  lemma FirstKeyNeverLost(maxBatch: nat, a: seq<Key>, b: seq<Key>, k: Key)
    requires k in a && (forall j | j in a :: j == k) && b != [] && b[0] == k
    ensures !OrderLost(maxBatch, a, b)
  {
    hide RunOf, Before, Overtaken, After, Start;
    forall p: Plan, count: nat, msgs, t, u | KeysOf(p.conflicts, t) == a && KeysOf(p.conflicts, u) == b
      ensures !LostIn(p, count, msgs, t, u)
    {
      if RunOf(p, count, msgs) && Before(p.order, t, u) {
        FirstKeyFollows(p, count, msgs, t, u, k);
      }
    }
  }

  /** So it is kept whichever of them comes first if and only if neither has another key. */
  lemma OrderKeptIffOneKey(maxBatch: nat, a: seq<Key>, b: seq<Key>, k: Key)
    requires maxBatch >= 1 && k in a && k in b && ALL !in a && ALL !in b
    ensures !OrderLost(maxBatch, a, b) && !OrderLost(maxBatch, b, a) <==> forall j | j in a || j in b :: j == k
  {
    hide OrderLost;
    OrderKeptIff(maxBatch, a, b, k);
    OrderKeptIff(maxBatch, b, a, k);
    assert a[0] in a && b[0] in b;
  }

  // ---- a false name ------------------------------------------------------------------

  /** Two tests with the key "all", the last of them in a file called "0": the false name ends the only worker, the
      other test is never run, and the coordinator ends with no worker to listen to. */
  method FalseNameStrands() returns (c: Coordinator, stranded: bool)
    ensures stranded && c.testFiles == ["a.phpt"] && c.log == [] && c.lost == multiset{"0"}
  {
    hide Parallel, Sequential, Reversed, Handled, Start, Valid, CanRun, After, CanSend, Undispatched;
    var tests := ["a.phpt", "0"];
    var conflicts: map<Test, seq<Key>> := map["a.phpt" := [ALL], "0" := [ALL]];
    c := new Coordinator(tests, conflicts, 2, false, false, []);
    TwoTests(tests, conflicts, c.plan);
    assert c.View() == Start(c.plan, 1);
    OneStarting(c.plan);
    c.Ready(1);
    ghost var s := c.View();
    ghost var msgs;
    stranded, msgs := c.Run();
    NobodyLeft(c.plan, s, msgs);
  }

  lemma OneStarting(p: Plan)
    ensures Start(p, 1).starting == Start(p, 1).workers == {1}
  {
    assert Workers(1) == {1};
  }

  /** Without workers there is no message any more. */
  lemma NobodyLeft(p: Plan, s: State, msgs: seq<Message>)
    requires CanRun(p, s, msgs) && s.workers == {}
    ensures msgs == [] && After(p, s, msgs) == s
  {
    hide CanRun, After;
    FirstMessage(p, s, msgs);
    NoMessages(p, s);
  }

  lemma TwoTests(tests: seq<Test>, conflicts: map<Test, seq<Key>>, p: Plan)
    requires tests == ["a.phpt", "0"] && conflicts == map["a.phpt" := [ALL], "0" := [ALL]]
    requires p.conflicts == conflicts && p.order == Parallel(tests, conflicts) && p.last == Sequential(tests, conflicts) && p.maxBatch == 32
    ensures p.order == [] && p.last == tests
    ensures var s := Handled(p, Start(p, 1), Message.Ready(1));
      s.workers == {} && s.queue == ["a.phpt"] && s.kept == [] && s.log == [] && s.lost == multiset{"0"}
  {
    hide Parallel, Sequential;
    NoTests(conflicts);
    assert tests[..0] == [] && tests[..1] == ["a.phpt"] && tests[..2] == tests;
    PartStep(tests, 0, conflicts);
    PartStep(tests, 1, conflicts);
    OneStarting(p);
    var s := Start(p, 1).(starting := {});
    assert Prepared(s).queue == ["a.phpt", "0"] && ["a.phpt", "0"][..1] == ["a.phpt"];
    assert {1} - {1} == {};
  }

  lemma NoTests(conflicts: map<Test, seq<Key>>)
    ensures Parallel([], conflicts) == [] && Sequential([], conflicts) == []
  {
  }
}
