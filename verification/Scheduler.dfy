/** The coordinator of run_all_tests_parallel in run-tests.php: batches of tests go to workers under
    conflict keys.  The messages of the workers may arrive in any order; each is a step of the state. */
module Scheduler {
  import opened Sequences

  type Test = string
  type Key = string
  type Worker = nat

  /** The conflict key of tests that must run alone. */
  const ALL := "all"

  /** A file name that PHP takes for true. */
  predicate Truthy(t: Test) { t != "" && t != "0" }

  predicate AllTruthy(s: multiset<Test>) { forall t | t in s :: Truthy(t) }

  function Max(a: int, b: int): int { if a > b then a else b }
  function Min(a: int, b: int): int { if a < b then a else b }

  /** $batchSize: the files per worker, rounded up, but at least one and at most the maximum. */
  function BatchSize(max: nat, total: nat, workers: nat): (n: nat)
    requires workers >= 1
    ensures n <= max
  {
    Min(max, Max(1, (total + workers - 1) / workers))
  }

  // ---- keys and groups of tests --------------------------------------------------

  function KeysOf(conflicts: map<Test, seq<Key>>, t: Test): seq<Key> {
    if t in conflicts then conflicts[t] else []
  }

  predicate HasKey(conflicts: map<Test, seq<Key>>, t: Test, k: Key) {
    k in KeysOf(conflicts, t)
  }

  /** The tests that have the key, that have it and no other, or two of those that have it. */
  datatype Group = Having(key: Key) | Solely(key: Key) | Pair(key: Key, t: Test, u: Test)

  predicate In(conflicts: map<Test, seq<Key>>, t: Test, g: Group) {
    && HasKey(conflicts, t, g.key) && (g.Solely? ==> forall j | j in KeysOf(conflicts, t) :: j == g.key)
    && (g.Pair? ==> t == g.t || t == g.u)
  }

  /** The tests of a group, in their order. */
  function With(conflicts: map<Test, seq<Key>>, s: seq<Test>, g: Group): seq<Test> {
    if s == [] then []
    else (if In(conflicts, s[0], g) then [s[0]] else []) + With(conflicts, s[1..], g)
  }

  lemma {:induction false} WithAppend(conflicts: map<Test, seq<Key>>, a: seq<Test>, b: seq<Test>, g: Group)
    ensures With(conflicts, a + b, g) == With(conflicts, a, g) + With(conflicts, b, g)
    decreases |a|
  {
    hide In;
    if a == [] {
      assert a + b == b;
    } else {
      assert (a + b)[1..] == a[1..] + b;
      WithAppend(conflicts, a[1..], b, g);
    }
  }

  lemma {:induction false} WithAllOrNone(conflicts: map<Test, seq<Key>>, s: seq<Test>, g: Group)
    ensures (forall t | t in s :: In(conflicts, t, g)) ==> With(conflicts, s, g) == s
    ensures (forall t | t in s :: !In(conflicts, t, g)) ==> With(conflicts, s, g) == []
  {
    hide In;
    if s != [] {
      WithAllOrNone(conflicts, s[1..], g);
      assert s == [s[0]] + s[1..];
    }
  }

  /** The first of the keys that is active, if any. */
  datatype Blocking = Free | By(key: Key)

  function FirstActive(keys: seq<Key>, active: map<Key, Worker>): (b: Blocking)
    ensures b.Free? <==> forall k | k in keys :: k !in active
    ensures b.By? ==> b.key in keys && b.key in active
  {
    if keys == [] then Free
    else if keys[0] in active then By(keys[0])
    else FirstActive(keys[1..], active)
  }

  // ---- the waiting tests -----------------------------------------------------------

  /** All tests in the map. */
  ghost function Waiters(w: map<Key, seq<Test>>): multiset<Test> {
    if w == map[] then multiset{}
    else
      var k :| k in w;
      multiset(w[k]) + Waiters(w - {k})
  }

  lemma {:induction false} WaitersAt(w: map<Key, seq<Test>>, k: Key)
    requires k in w
    ensures Waiters(w) == multiset(w[k]) + Waiters(w - {k})
    decreases |w|
  {
    var j :| j in w && Waiters(w) == multiset(w[j]) + Waiters(w - {j});
    if j != k {
      WaitersAt(w - {j}, k);
      WaitersAt(w - {k}, j);
      assert w - {j} - {k} == w - {k} - {j};
    }
  }

  function Queue(w: map<Key, seq<Test>>, k: Key): seq<Test> {
    if k in w then w[k] else []
  }

  /** A test joins the tests waiting for k. */
  function AddWaiter(w: map<Key, seq<Test>>, k: Key, t: Test): map<Key, seq<Test>> {
    w[k := Queue(w, k) + [t]]
  }

  lemma WaitersSplit(w: map<Key, seq<Test>>, k: Key)
    ensures Waiters(w) == multiset(Queue(w, k)) + Waiters(w - {k})
  {
    if k in w {
      WaitersAt(w, k);
    } else {
      assert w - {k} == w;
    }
  }

  lemma AddWaiterIs(w: map<Key, seq<Test>>, k: Key, t: Test)
    ensures Waiters(AddWaiter(w, k, t)) == Waiters(w) + multiset{t}
  {
    hide Waiters;
    WaitersSplit(w, k);
    WaitersSplit(AddWaiter(w, k, t), k);
    assert AddWaiter(w, k, t) - {k} == w - {k};
    assert multiset(Queue(w, k) + [t]) == multiset(Queue(w, k)) + multiset{t};
  }

  /** Every test of all is in exactly one of these places. */
  ghost predicate Sum(files: seq<Test>, queue: seq<Test>, kept: seq<Test>, w: map<Key, seq<Test>>, log: seq<Test>,
                      lost: multiset<Test>, all: multiset<Test>) {
    multiset(files) + multiset(queue) + multiset(kept) + Waiters(w) + multiset(log) + lost == all
  }

  lemma SumPop(files: seq<Test>, queue: seq<Test>, kept: seq<Test>, w: map<Key, seq<Test>>, log: seq<Test>,
               lost: multiset<Test>, all: multiset<Test>, k: Key)
    requires queue != [] && Sum(files, queue, kept, w, log, lost, all)
    ensures var t, q := queue[|queue| - 1], queue[..|queue| - 1];
      && t in all && Sum(files, q, kept, w, log, lost + multiset{t}, all)
      && Sum(files + [t], q, kept, w, log, lost, all)
      && Sum(files, q, kept, AddWaiter(w, k, t), log, lost, all)
  {
    hide Waiters, AddWaiter;
    var t, q := queue[|queue| - 1], queue[..|queue| - 1];
    assert queue == q + [t];
    AddWaiterIs(w, k, t);
  }

  lemma SumRequeue(queue: seq<Test>, kept: seq<Test>, w: map<Key, seq<Test>>, log: seq<Test>,
                   lost: multiset<Test>, all: multiset<Test>, key: Key, queue': seq<Test>, lost': multiset<Test>)
    requires Sum([], queue, kept, w, log, lost, all)
    requires multiset(queue') + lost' == multiset(queue) + lost + multiset(Queue(w, key))
    ensures Sum([], queue', kept, w - {key}, log, lost', all) && multiset(Queue(w, key)) <= all
    ensures forall t | t in Queue(w, key) || t in Waiters(w - {key}) :: t in Waiters(w)
  {
    hide Waiters;
    WaitersSplit(w, key);
    Rearranged(multiset([]), multiset(queue), multiset(kept), Waiters(w), multiset(log), lost,
               multiset(queue'), Waiters(w - {key}), lost');
    assert multiset(Queue(w, key)) <= Waiters(w) <= all;
  }

  lemma Rearranged(f: multiset<Test>, q: multiset<Test>, k: multiset<Test>, w: multiset<Test>, l: multiset<Test>, x: multiset<Test>,
                   q': multiset<Test>, w': multiset<Test>, x': multiset<Test>)
    requires q' + x' + w' == q + x + w
    ensures f + q' + k + w' + l + x' == f + q + k + w + l + x
  {
    forall t: Test
      ensures (f + q' + k + w' + l + x')[t] == (f + q + k + w + l + x)[t]
    {
      assert (q' + x' + w')[t] == (q + x + w)[t];
    }
  }

  lemma SumLog(files: seq<Test>, queue: seq<Test>, kept: seq<Test>, w: map<Key, seq<Test>>, log: seq<Test>,
               lost: multiset<Test>, all: multiset<Test>)
    requires Sum(files, queue, kept, w, log, lost, all)
    ensures Sum([], queue, kept, w, log + files, lost, all)
    ensures forall t | t in files || t in queue || t in kept || t in log || t in Waiters(w) :: t in all
    ensures |queue| + |kept| + |Waiters(w)| == |all| - |files| - |log| - |lost|
  {
    hide Waiters;
  }

  lemma SumMerge(queue: seq<Test>, kept: seq<Test>, w: map<Key, seq<Test>>, log: seq<Test>,
                 lost: multiset<Test>, all: multiset<Test>)
    requires Sum([], queue, kept, w, log, lost, all)
    ensures Sum([], queue + kept, [], w, log, lost, all)
  {
    hide Waiters;
  }

  // ---- the conflict discipline -----------------------------------------------------

  /** The keys of a running test belong to its worker. */
  ghost predicate Owned(conflicts: map<Test, seq<Key>>, running: map<Worker, seq<Test>>, active: map<Key, Worker>) {
    forall w, t, k | w in running && t in running[w] && HasKey(conflicts, t, k) :: k in active && active[k] == w
  }

  /** An active key belongs to a worker that runs a test with it. */
  ghost predicate Justified(conflicts: map<Test, seq<Key>>, running: map<Worker, seq<Test>>, active: map<Key, Worker>) {
    forall k | k in active :: active[k] in running && exists t :: t in running[active[k]] && HasKey(conflicts, t, k)
  }

  /** A test waits for a key of its own that is active. */
  ghost predicate WaitOk(conflicts: map<Test, seq<Key>>, active: map<Key, Worker>, waiting: map<Key, seq<Test>>) {
    forall k | k in waiting :: k in active && waiting[k] != [] && forall t | t in waiting[k] :: HasKey(conflicts, t, k)
  }

  /** Safety: no two workers hold tests that share a conflict key. */
  lemma Exclusion(conflicts: map<Test, seq<Key>>, running: map<Worker, seq<Test>>, active: map<Key, Worker>,
                  w: Worker, v: Worker, t: Test, u: Test, k: Key)
    requires Owned(conflicts, running, active) && w in running && v in running && t in running[w] && u in running[v]
    requires HasKey(conflicts, t, k) && HasKey(conflicts, u, k)
    ensures w == v
  {
    assert active[k] == w && active[k] == v;
  }

  // ---- the state and its invariant ---------------------------------------------------

  /** What is fixed when the workers start: the conflict keys of the tests, all tests, the order in which the
      parallel ones come, the sequential ones, and the maximum batch size. */
  datatype Plan = Plan(conflicts: map<Test, seq<Key>>, all: multiset<Test>, order: seq<Test>, last: seq<Test>, maxBatch: nat)

  /** queue is $test_files, popped from its end; kept is $sequentialTests.  starting are the workers that have not
      sent "ready" yet, running the batches being run.  log lists the tests dispatched so far, lost those dropped. */
  datatype State = State(queue: seq<Test>, kept: seq<Test>, active: map<Key, Worker>, waiting: map<Key, seq<Test>>,
                         inProgress: int, workers: set<Worker>, starting: set<Worker>, running: map<Worker, seq<Test>>,
                         log: seq<Test>, lost: multiset<Test>)

  ghost predicate WorkersOk(s: State) {
    && s.inProgress == |s.running|
    && s.running.Keys !! s.starting && s.running.Keys + s.starting == s.workers
    && forall w | w in s.running :: s.running[w] != []
  }

  ghost predicate ConflictsOk(p: Plan, s: State) {
    && Owned(p.conflicts, s.running, s.active) && Justified(p.conflicts, s.running, s.active)
    && WaitOk(p.conflicts, s.active, s.waiting)
  }

  /** Every test is queued, kept back, waiting, dispatched or dropped; none is dropped if all names are true. */
  ghost predicate Conserved(p: Plan, s: State) {
    && Sum([], s.queue, s.kept, s.waiting, s.log, s.lost, p.all)
    && (AllTruthy(p.all) ==> s.lost == multiset{})
    && (forall t | t in s.log :: Truthy(t))
    && (forall w, t | w in s.running && t in s.running[w] :: t in s.log)
  }

  ghost predicate NoAll(p: Plan, s: State) {
    forall t | t in s.queue || t in s.log || t in Waiters(s.waiting) :: !HasKey(p.conflicts, t, ALL)
  }

  /** Tests that conflict with "all" are kept back until one worker is left. */
  ghost predicate Alone(p: Plan, s: State) {
    && (forall t | t in p.last :: HasKey(p.conflicts, t, ALL))
    && ((s.kept == p.last && NoAll(p, s)) || (s.kept == [] && |s.workers| <= 1 && s.waiting == map[]))
  }

  /** The tests of a group still to come: first those that wait for its key, then the queue. */
  ghost function Rest(p: Plan, s: State, g: Group): seq<Test> {
    With(p.conflicts, Queue(s.waiting, g.key), g) + With(p.conflicts, Reversed(s.queue), g)
  }

  ghost function Line(p: Plan, s: State, g: Group): seq<Test> {
    With(p.conflicts, s.log, g) + Rest(p, s, g)
  }

  /** Order is preserved among tests whose only key is k; tests with key "all" come in reverse. */
  ghost predicate Ordered(p: Plan, s: State) {
    && (forall k: Key | k != ALL :: Line(p, s, Solely(k)) == With(p.conflicts, p.order, Solely(k)))
    && (s.kept != p.last ==> Line(p, s, Having(ALL)) == Reversed(p.last))
  }

  /** While anything is left to do a worker is left to do it. */
  ghost predicate NotStuck(s: State) {
    s.workers == {} ==> s.queue == [] && s.kept == [] && s.waiting == map[]
  }

  ghost predicate Valid(p: Plan, s: State) {
    && WorkersOk(s) && ConflictsOk(p, s) && Conserved(p, s) && Alone(p, s)
    && (AllTruthy(p.all) ==> Ordered(p, s) && NotStuck(s))
  }

  ghost function Undispatched(s: State): nat {
    |s.queue| + |s.kept| + |Waiters(s.waiting)|
  }

  lemma UndispatchedIs(p: Plan, s: State)
    requires Conserved(p, s)
    ensures Undispatched(s) == |p.all| - |s.log| - |s.lost|
  {
    hide Waiters;
    SumLog([], s.queue, s.kept, s.waiting, s.log, s.lost, p.all);
  }

  lemma NotMore(p: Plan, s: State, s': State)
    requires Conserved(p, s) && Conserved(p, s') && s'.log == s.log && s.lost <= s'.lost
    ensures Undispatched(s') <= Undispatched(s)
  {
    hide Conserved, Undispatched;
    UndispatchedIs(p, s);
    UndispatchedIs(p, s');
    assert s'.lost == s.lost + (s'.lost - s.lost);
  }

  lemma SameRest(p: Plan, s: State, s': State)
    requires s'.queue == s.queue && s'.waiting == s.waiting
    ensures forall g :: Rest(p, s', g) == Rest(p, s, g)
    ensures s'.log == s.log ==> NoAll(p, s') == NoAll(p, s)
    ensures s'.log == s.log && s'.kept == s.kept ==> Ordered(p, s') == Ordered(p, s)
  {
    hide With, Reversed, Waiters, Queue, HasKey;
  }

  /** A test that conflicts with "all" runs only when one worker is left. */
  lemma AllRunsAlone(p: Plan, s: State, w: Worker, t: Test)
    requires Valid(p, s) && w in s.running && t in s.running[w] && HasKey(p.conflicts, t, ALL)
    ensures s.workers == {w}
  {
    hide Waiters, Ordered;
    assert t in s.log && w in s.workers;
    assert s.workers == {w} + (s.workers - {w});
  }

  /** In every valid state the tests of two busy workers share no key, and a key somebody waits for has a busy owner. */
  lemma NoConflict(p: Plan, s: State)
    requires Valid(p, s)
    ensures forall w, v, t, u, k | w in s.running && v in s.running && w != v && t in s.running[w] && u in s.running[v] ::
              !(HasKey(p.conflicts, t, k) && HasKey(p.conflicts, u, k))
    ensures forall k | k in s.waiting :: k in s.active && s.active[k] in s.running
  {
    hide Conserved, Alone, Ordered, HasKey;
    forall w, v, t, u, k | w in s.running && v in s.running && w != v && t in s.running[w] && u in s.running[v]
      ensures !(HasKey(p.conflicts, t, k) && HasKey(p.conflicts, u, k))
    {
      if HasKey(p.conflicts, t, k) && HasKey(p.conflicts, u, k) {
        Exclusion(p.conflicts, s.running, s.active, w, v, t, u, k);
      }
    }
  }

  /** When the loop ends, every test has been dispatched exactly once if and only if no name is false;
      and then the tests with no key but k have been dispatched in order, those with key "all" in reverse. */
  lemma AtExit(p: Plan, s: State)
    requires Valid(p, s) && s.queue == [] && s.kept == [] && s.inProgress <= 0
    ensures multiset(s.log) == p.all <==> AllTruthy(p.all)
    ensures AllTruthy(p.all) ==> forall k | k != ALL :: With(p.conflicts, s.log, Solely(k)) == With(p.conflicts, p.order, Solely(k))
    ensures AllTruthy(p.all) && p.last != [] ==> With(p.conflicts, s.log, Having(ALL)) == Reversed(p.last)
  {
    hide Reversed, With, Alone, Owned, WaitOk;
    assert s.running == map[];
    NothingActive(p, s);
    assert multiset(s.log) + s.lost == p.all;
    if multiset(s.log) == p.all {
      forall t | t in p.all ensures Truthy(t) { assert t in multiset(s.log); }
    }
    EmptyRest(p.conflicts);
  }

  /** So tests with key "all", which come off the queue in reverse, keep their order only if there is at most one. */
  lemma AllTestsInOrder(last: seq<Test>)
    requires forall i, j | 0 <= i < j < |last| :: last[i] != last[j]
    ensures Reversed(last) == last <==> |last| <= 1
  {
    if |last| > 1 {
      assert Reversed(last)[|last| - 1] == last[0];
    } else if |last| == 1 {
      assert last[1..] == [];
    }
  }

  lemma NothingActive(p: Plan, s: State)
    requires ConflictsOk(p, s) && s.running == map[]
    ensures s.active == map[] && s.waiting == map[]
  {
    hide HasKey;
  }

  lemma EmptyRest(conflicts: map<Test, seq<Key>>)
    ensures forall g: Group, s: seq<Test> :: s + (With(conflicts, Queue(map[], g.key), g) + With(conflicts, Reversed<Test>([]), g)) == s
  {
  }

  // ---- handling a message ---------------------------------------------------------------

  /** The situation while the message of worker i is being handled: i is neither starting nor busy. */
  ghost predicate Handling(p: Plan, s: State, i: Worker) {
    && i in s.workers && i !in s.running && i !in s.starting && s.running.Keys !! s.starting
    && s.workers == s.running.Keys + s.starting + {i} && s.inProgress == |s.running|
    && (forall w | w in s.running :: s.running[w] != [])
    && ConflictsOk(p, s) && Conserved(p, s) && Alone(p, s) && (AllTruthy(p.all) ==> Ordered(p, s))
  }

  /** What is kept while a batch is being put together. */
  ghost predicate Picking(p: Plan, s: State, files: seq<Test>) {
    && Sum(files, s.queue, s.kept, s.waiting, s.log, s.lost, p.all)
    && (AllTruthy(p.all) ==> s.lost == multiset{})
    && WaitOk(p.conflicts, s.active, s.waiting)
    && forall t | t in files :: Truthy(t) && forall k | HasKey(p.conflicts, t, k) :: k !in s.active
  }

  /** The situation between picking a batch and sending it. */
  ghost predicate Picked(p: Plan, s: State, i: Worker, files: seq<Test>) {
    && i in s.workers && i !in s.running && i !in s.starting && s.running.Keys !! s.starting
    && s.workers == s.running.Keys + s.starting + {i} && s.inProgress == |s.running|
    && (forall w | w in s.running :: s.running[w] != [])
    && Owned(p.conflicts, s.running, s.active) && Justified(p.conflicts, s.running, s.active) && Picking(p, s, files)
    && (forall t | t in s.log :: Truthy(t))
    && (forall w, t | w in s.running && t in s.running[w] :: t in s.log)
    && (forall t | t in p.last :: HasKey(p.conflicts, t, ALL))
    && ((s.kept == p.last && NoAll(p, s) && forall t | t in files :: !HasKey(p.conflicts, t, ALL))
        || (s.kept == [] && |s.workers| <= 1 && s.waiting == map[]))
    && (AllTruthy(p.all) ==> OrderedBut(p, s, files))
    && (AllTruthy(p.all) && files == [] ==> s.queue == [] && (|s.workers| == 1 ==> s.kept == [] && s.waiting == map[]))
  }

  ghost function LineBut(p: Plan, s: State, files: seq<Test>, g: Group): seq<Test> {
    With(p.conflicts, s.log, g) + (With(p.conflicts, files, g) + Rest(p, s, g))
  }

  ghost predicate OrderedBut(p: Plan, s: State, files: seq<Test>) {
    && (forall k | k != ALL :: LineBut(p, s, files, Solely(k)) == With(p.conflicts, p.order, Solely(k)))
    && (s.kept != p.last ==> LineBut(p, s, files, Having(ALL)) == Reversed(p.last))
  }

  /** The keys in ks now belong to i. */
  function Keyed(active: map<Key, Worker>, ks: seq<Key>, i: Worker): map<Key, Worker> {
    if ks == [] then active else Keyed(active, ks[..|ks| - 1], i)[ks[|ks| - 1] := i]
  }

  function WithKeys(active: map<Key, Worker>, conflicts: map<Test, seq<Key>>, files: seq<Test>, i: Worker): map<Key, Worker>
  {
    if files == [] then active
    else Keyed(WithKeys(active, conflicts, files[..|files| - 1], i), KeysOf(conflicts, files[|files| - 1]), i)
  }

  /** The batch is sent to worker i. */
  function Dispatched(p: Plan, s: State, i: Worker, files: seq<Test>): State
  {
    s.(active := WithKeys(s.active, p.conflicts, files, i), inProgress := s.inProgress + 1,
       running := s.running[i := files], log := s.log + files)
  }

  lemma DispatchStep(p: Plan, s: State, i: Worker, files: seq<Test>)
    requires Picked(p, s, i, files) && files != []
    ensures Valid(p, Dispatched(p, s, i, files))
  {
    hide AllTruthy, Owned, Justified, WaitOk, WithKeys, OrderedBut, Ordered, NoAll, Conserved, Sum, Truthy, HasKey;
    hide WorkersOk;
    var s' := Dispatched(p, s, i, files);
    ActivateOk(p.conflicts, s.running, s.active, i, files, s.waiting);
    DispatchConserved(p, s, i, files);
    if AllTruthy(p.all) { DispatchOrder(p, s, i, files); }
    if NoAll(p, s) { DispatchNoAll(p, s, s', files); }
    DispatchWorkers(p, s, i, files);
  }

  lemma DispatchWorkers(p: Plan, s: State, i: Worker, files: seq<Test>)
    requires i !in s.running && i !in s.starting && s.running.Keys !! s.starting && files != [] && s.inProgress == |s.running|
    requires s.workers == s.running.Keys + s.starting + {i} && forall w | w in s.running :: s.running[w] != []
    ensures WorkersOk(Dispatched(p, s, i, files))
  {
    hide WithKeys;
    OneMore(s.running, i, files);
    SetsStayApart(s.running.Keys, s.starting, i);
  }

  lemma SetsStayApart(busy: set<Worker>, starting: set<Worker>, i: Worker)
    requires busy !! starting && i !in starting
    ensures (busy + {i}) !! starting && (busy + {i}) + starting == busy + starting + {i}
  {
  }

  lemma OneMore(m: map<Worker, seq<Test>>, i: Worker, files: seq<Test>)
    requires i !in m
    ensures |m[i := files]| == |m| + 1 && m[i := files].Keys == m.Keys + {i}
  {
    assert m[i := files].Keys == m.Keys + {i};
    assert |m| == |m.Keys| && |m[i := files]| == |m[i := files].Keys|;
  }

  lemma DispatchConserved(p: Plan, s: State, i: Worker, files: seq<Test>)
    requires Picking(p, s, files) && i !in s.running
    requires (forall t | t in s.log :: Truthy(t)) && (forall w, t | w in s.running && t in s.running[w] :: t in s.log)
    ensures Conserved(p, Dispatched(p, s, i, files))
  {
    hide AllTruthy, Sum, WaitOk, WithKeys, Truthy, HasKey;
    SumLog(files, s.queue, s.kept, s.waiting, s.log, s.lost, p.all);
  }

  lemma DispatchNoAll(p: Plan, s: State, s': State, files: seq<Test>)
    requires NoAll(p, s) && s'.queue == s.queue && s'.waiting == s.waiting && s'.log == s.log + files
    ensures (forall t | t in files :: !HasKey(p.conflicts, t, ALL)) ==> NoAll(p, s')
  {
    hide Waiters;
  }

  lemma DispatchOrder(p: Plan, s: State, i: Worker, files: seq<Test>)
    requires OrderedBut(p, s, files)
    ensures Ordered(p, Dispatched(p, s, i, files))
  {
    hide Reversed, With, WithKeys;
    forall g ensures Line(p, Dispatched(p, s, i, files), g) == LineBut(p, s, files, g) {
      WithAppend(p.conflicts, s.log, files, g);
    }
  }

  lemma RetireStep(p: Plan, s: State, i: Worker)
    requires Picked(p, s, i, [])
    ensures Valid(p, s.(workers := s.workers - {i}))
  {
    hide AllTruthy, Sum, Waiters, Reversed, With, Owned, Justified, WaitOk, Truthy, OrderedBut, Ordered, NoAll;
    hide Conserved;
    var s' := s.(workers := s.workers - {i});
    assert s.workers == s'.workers + {i};
    RetireConserved(p, s, i, s');
    if AllTruthy(p.all) { RetireOrder(p, s, s'); }
    RetireNoAll(p, s, s');
  }

  lemma RetireConserved(p: Plan, s: State, i: Worker, s': State)
    requires Picked(p, s, i, []) && s' == s.(workers := s'.workers)
    ensures Conserved(p, s')
  {
    hide Sum, Waiters, With, Owned, Justified, OrderedBut, NoAll;
  }

  lemma RetireNoAll(p: Plan, s: State, s': State)
    requires s'.queue == s.queue && s'.waiting == s.waiting && s'.log == s.log
    ensures NoAll(p, s) == NoAll(p, s')
  {
    hide Waiters;
  }

  lemma RetireOrder(p: Plan, s: State, s': State)
    requires OrderedBut(p, s, []) && s' == s.(workers := s'.workers)
    ensures Ordered(p, s')
  {
    hide Reversed;
    forall g ensures With(p.conflicts, [], g) + Rest(p, s, g) == Rest(p, s, g) && Rest(p, s', g) == Rest(p, s, g) {}
  }

  /** The sequential tests enter the queue. */
  function Merged(s: State): State {
    s.(queue := s.queue + s.kept, kept := [])
  }

  lemma MergeStep(p: Plan, s: State, i: Worker)
    requires Handling(p, s, i) && |s.workers| == 1 && s.kept != []
    ensures Handling(p, Merged(s), i) && Undispatched(Merged(s)) == Undispatched(s)
  {
    hide AllTruthy, Sum, Waiters, With, Reversed, Truthy, Owned, Justified, WaitOk, Rest;
    OneWorker(p, s, i);
    UndispatchedIs(p, s);
    SumMerge(s.queue, s.kept, s.waiting, s.log, s.lost, p.all);
    if AllTruthy(p.all) { MergeOrder(p, s); }
    UndispatchedIs(p, Merged(s));
  }

  lemma MergeOrder(p: Plan, s: State)
    requires Ordered(p, s) && s.kept == p.last && NoAll(p, s) && s.waiting == map[] && forall t | t in p.last :: HasKey(p.conflicts, t, ALL)
    ensures Ordered(p, Merged(s))
  {
    hide With, Reversed, Waiters;
    forall k | k != ALL
      ensures Line(p, Merged(s), Solely(k)) == Line(p, s, Solely(k))
    {
      MergedLine(p.conflicts, s.queue, p.last, k);
    }
    MergedAll(p.conflicts, s.queue, p.last, s.log);
    WithAllOrNone(p.conflicts, [], Having(ALL));
  }

  /** When worker i is the only one left nothing is active. */
  lemma OneWorker(p: Plan, s: State, i: Worker)
    requires Handling(p, s, i)
    ensures |s.workers| == 1 ==> s.running == map[] && s.active == map[] && s.waiting == map[]
    ensures |s.workers| >= 1 && (|s.workers| != 1 ==> s.kept == p.last && NoAll(p, s))
    ensures s.kept != [] ==> s.kept == p.last && NoAll(p, s)
  {
    hide Conserved, Ordered, NoAll, HasKey;
    assert s.workers == {i} + (s.workers - {i});
    if |s.workers| == 1 {
      assert s.workers == {i};
      assert s.running == map[];
      NothingActive(p, s);
    }
  }

  /** The line of every group of tests with one key is as in s0, with the picked tests in front; where nothing is
      active, that of every group. */
  ghost predicate SameLines(p: Plan, s0: State, s: State, files: seq<Test>) {
    && (forall k :: With(p.conflicts, files, Solely(k)) + Rest(p, s, Solely(k)) == Rest(p, s0, Solely(k)))
    && (s0.active == map[] ==> forall k :: With(p.conflicts, files, Having(k)) + Rest(p, s, Having(k)) == Rest(p, s0, Having(k)))
  }

  lemma PickedAfter(p: Plan, s: State, s': State, i: Worker, files: seq<Test>)
    requires Handling(p, s, i) && (|s.workers| == 1 ==> s.kept == [])
    requires s' == s.(queue := s'.queue, waiting := s'.waiting, lost := s'.lost) && Picking(p, s', files)
    requires forall t | t in files || t in s'.queue || t in Waiters(s'.waiting) :: t in s.queue || t in Waiters(s.waiting)
    requires (AllTruthy(p.all) ==> SameLines(p, s, s', files)) && (s.active == map[] ==> s'.waiting == s.waiting)
    requires AllTruthy(p.all) && files == [] ==> s'.queue == []
    ensures Picked(p, s', i, files)
  {
    hide AllTruthy, Sum, Waiters, With, Reversed, Owned, Justified, WaitOk, Rest, Truthy;
    OneWorker(p, s, i);
  }

  // ---- picking a batch ---------------------------------------------------------------

  datatype Picks = Picks(queue: seq<Test>, waiting: map<Key, seq<Test>>, files: seq<Test>, lost: multiset<Test>)

  /** The loop that puts a batch together: tests are popped until there are more than n; one of whose keys is active
      waits for the first of them.  A false name ends the loop and is lost. */
  function PickFrom(conflicts: map<Test, seq<Key>>, active: map<Key, Worker>, queue: seq<Test>, waiting: map<Key, seq<Test>>,
                    files: seq<Test>, n: nat): Picks
    decreases |queue|
  {
    if |files| > n || queue == [] then Picks(queue, waiting, files, multiset{})
    else
      var t, q := queue[|queue| - 1], queue[..|queue| - 1];
      if !Truthy(t) then Picks(q, waiting, files, multiset{t})
      else
        match FirstActive(KeysOf(conflicts, t), active)
        case By(key) => PickFrom(conflicts, active, q, AddWaiter(waiting, key, t), files, n)
        case Free => PickFrom(conflicts, active, q, waiting, files + [t], n)
  }

  function WithPicks(s: State, x: Picks): State {
    s.(queue := x.queue, waiting := x.waiting, lost := s.lost + x.lost)
  }

  /** A popped test that has to wait. */
  lemma WaitStep(p: Plan, s0: State, s: State, files: seq<Test>, key: Key)
    requires Picking(p, s, files) && s.queue != [] && s.active == s0.active && SameLines(p, s0, s, files)
    requires key in s.active && HasKey(p.conflicts, s.queue[|s.queue| - 1], key)
    ensures var t, q := s.queue[|s.queue| - 1], s.queue[..|s.queue| - 1];
      var s' := s.(queue := q, waiting := AddWaiter(s.waiting, key, t));
      Picking(p, s', files) && SameLines(p, s0, s', files) && s.active != map[]
  {
    hide AllTruthy, Reversed, With, Sum, Waiters, Queue, AddWaiter, WaitOk, HasKey, In;
    SumPop(files, s.queue, s.kept, s.waiting, s.log, s.lost, p.all, key);
    var t, q := s.queue[|s.queue| - 1], s.queue[..|s.queue| - 1];
    WaitAdd(p.conflicts, s.active, s.waiting, key, t);
    var s' := s.(queue := q, waiting := AddWaiter(s.waiting, key, t));
    forall k ensures Rest(p, s', Solely(k)) == Rest(p, s, Solely(k)) {
      LineWait(p.conflicts, s.queue, s.waiting, key, k);
    }
  }

  /** A popped test that joins the batch. */
  lemma JoinStep(p: Plan, s0: State, s: State, files: seq<Test>)
    requires Picking(p, s, files) && s.queue != [] && s.active == s0.active && SameLines(p, s0, s, files)
    requires var t := s.queue[|s.queue| - 1]; Truthy(t) && forall k | HasKey(p.conflicts, t, k) :: k !in s.active
    ensures var t, q := s.queue[|s.queue| - 1], s.queue[..|s.queue| - 1];
      var s' := s.(queue := q);
      Picking(p, s', files + [t]) && SameLines(p, s0, s', files + [t])
  {
    hide AllTruthy, Reversed, With, Sum, Waiters, Queue, WaitOk, HasKey, In, Truthy;
    SumPop(files, s.queue, s.kept, s.waiting, s.log, s.lost, p.all, ALL);
    var t, q := s.queue[|s.queue| - 1], s.queue[..|s.queue| - 1];
    var s' := s.(queue := q);
    forall g: Group
      ensures With(p.conflicts, files + [t], g) + Rest(p, s', g) == With(p.conflicts, files, g) + Rest(p, s, g)
    {
      LinePick(p.conflicts, s.active, files, s.queue, s.waiting, g);
    }
  }

  lemma {:induction false} PickOk(p: Plan, s0: State, s: State, files: seq<Test>, n: nat)
    requires Picking(p, s, files) && s.active == s0.active && |files| <= n + 1 && SameLines(p, s0, s, files)
    ensures var x := PickFrom(p.conflicts, s.active, s.queue, s.waiting, files, n);
      && Picking(p, WithPicks(s, x), x.files) && |files| <= |x.files| <= n + 1
      && (AllTruthy(p.all) ==> SameLines(p, s0, WithPicks(s, x), x.files) && (|x.files| <= n ==> x.queue == []))
      && (s.active == map[] ==> x.waiting == s.waiting)
    decreases |s.queue|
  {
    hide Truthy, AllTruthy, SameLines, Picking, Waiters, AddWaiter;
    var x := PickFrom(p.conflicts, s.active, s.queue, s.waiting, files, n);
    if |files| > n || s.queue == [] {
      assert WithPicks(s, x) == s;
    } else {
      var t, q := s.queue[|s.queue| - 1], s.queue[..|s.queue| - 1];
      if !Truthy(t) {
        LoseStep(p, s, files);
      } else {
        match FirstActive(KeysOf(p.conflicts, t), s.active) {
          case By(key) =>
            WaitStep(p, s0, s, files, key);
            PickOk(p, s0, s.(queue := q, waiting := AddWaiter(s.waiting, key, t)), files, n);
          case Free =>
            JoinStep(p, s0, s, files);
            PickOk(p, s0, s.(queue := q), files + [t], n);
        }
      }
    }
  }

  lemma LoseStep(p: Plan, s: State, files: seq<Test>)
    requires Picking(p, s, files) && s.queue != [] && !Truthy(s.queue[|s.queue| - 1])
    ensures var t, q := s.queue[|s.queue| - 1], s.queue[..|s.queue| - 1];
      Picking(p, s.(queue := q, lost := s.lost + multiset{t}), files) && !AllTruthy(p.all)
  {
    hide Truthy, Sum, WaitOk, AllTruthy, HasKey;
    SumPop(files, s.queue, s.kept, s.waiting, s.log, s.lost, p.all, ALL);
    FalsyIn(p.all, s.queue[|s.queue| - 1]);
  }

  lemma OnlyPicked(p: Plan, s: State, s': State, files: seq<Test>)
    requires Picking(p, s', files) && Picking(p, s, []) && s'.kept == s.kept && s'.log == s.log && s.lost <= s'.lost
    ensures forall t | t in files || t in s'.queue || t in Waiters(s'.waiting) :: t in s.queue || t in Waiters(s.waiting)
  {
    hide Truthy, Sum, WaitOk, AllTruthy, Waiters;
    OnlyMoved(files, s'.queue, s'.kept, s'.waiting, s'.log, s'.lost, p.all, s.queue, s.waiting, s.lost);
  }

  // ---- releasing keys ----------------------------------------------------------------

  /** The tests that array_pop takes from a list before a false name ends the loop. */
  function TruthyTail(tests: seq<Test>): (r: seq<Test>)
    ensures |r| <= |tests|
  {
    if tests == [] || !Truthy(tests[|tests| - 1]) then []
    else TruthyTail(tests[..|tests| - 1]) + [tests[|tests| - 1]]
  }

  /** It is the end of the list, and goes as far as the names are true. */
  lemma {:induction false} TailIs(tests: seq<Test>)
    ensures var n := |tests| - |TruthyTail(tests)|;
      && tests[n..] == TruthyTail(tests) && (forall t | t in TruthyTail(tests) :: Truthy(t))
      && (n > 0 ==> !Truthy(tests[n - 1]))
  {
    if tests != [] && Truthy(tests[|tests| - 1]) {
      TailIs(tests[..|tests| - 1]);
    }
  }

  /** A key is released: the tests waiting for it go on top of the queue, the first of them uppermost; those before a
      false name are lost. */
  function ReleasedKey(s: State, key: Key): State {
    var list := Queue(s.waiting, key);
    var tail := TruthyTail(list);
    s.(active := s.active - {key}, queue := s.queue + Reversed(tail), waiting := s.waiting - {key},
       lost := s.lost + multiset(list[..|list| - |tail|]))
  }

  /** The keys are released one after the other. */
  function ReleasedKeys(s: State, order: seq<Key>): (r: State)
    ensures r == s.(active := r.active, queue := r.queue, waiting := r.waiting, lost := r.lost)
    ensures r.active == s.active - set k | k in order
  {
    if order == [] then s
    else ReleasedKey(ReleasedKeys(s, order[..|order| - 1]), order[|order| - 1])
  }

  lemma NoneReleased(s: State)
    ensures ReleasedKeys(s, []) == s
  {
  }

  lemma ReleasedMore(s: State, order: seq<Key>, key: Key)
    ensures ReleasedKeys(s, order + [key]) == ReleasedKey(ReleasedKeys(s, order), key)
  {
    assert (order + [key])[..|order|] == order;
  }

  /** The keys of worker i, each once. */
  ghost predicate KeysOfWorker(active: map<Key, Worker>, i: Worker, order: seq<Key>) {
    && (forall k :: k in order <==> k in active && active[k] == i)
    && forall n, m | 0 <= n < m < |order| :: order[n] != order[m]
  }

  /** What releasing keys does to the tests: they only move, and stay in line. */
  ghost predicate Moved(p: Plan, s: State, s': State) {
    && Conserved(p, s') && WaitOk(p.conflicts, s'.active, s'.waiting) && (NoAll(p, s) ==> NoAll(p, s'))
    && (AllTruthy(p.all) ==> forall k :: Rest(p, s', Solely(k)) == Rest(p, s, Solely(k)))
    && s.lost <= s'.lost && (s.waiting == map[] ==> s'.queue == s.queue) && (forall k | k in s'.waiting :: k in s.waiting)
  }

  lemma MovedTrans(p: Plan, a: State, b: State, c: State)
    requires Moved(p, a, b) && Moved(p, b, c)
    ensures Moved(p, a, c)
  {
    hide AllTruthy, Conserved, WaitOk, NoAll, Rest;
    if a.waiting == map[] {
      assert b.waiting == map[];
    }
  }

  lemma ReleaseKeyOk(p: Plan, s: State, key: Key)
    requires Conserved(p, s) && WaitOk(p.conflicts, s.active, s.waiting)
    ensures Moved(p, s, ReleasedKey(s, key))
  {
    hide AllTruthy, Reversed, With, Truthy, Sum, Waiters, HasKey, TruthyTail, NoAll, Rest;
    var s' := ReleasedKey(s, key);
    var list := Queue(s.waiting, key);
    RequeuedIs(s.queue, s.lost, list);
    SumRequeue(s.queue, s.kept, s.waiting, s.log, s.lost, p.all, key, s'.queue, s'.lost);
    SomeTruthy(list, p.all);
    AllTail(list);
    RequeuedNoAll(p, s, s', list);
    if AllTruthy(p.all) {
      forall k ensures Rest(p, s', Solely(k)) == Rest(p, s, Solely(k)) {
        RequeuedRest(p, s, key, k);
      }
    }
  }

  lemma RequeuedNoAll(p: Plan, s: State, s': State, list: seq<Test>)
    requires s'.log == s.log && forall t | t in s'.queue || t in Waiters(s'.waiting) :: t in s.queue || t in Waiters(s.waiting)
    ensures NoAll(p, s) ==> NoAll(p, s')
  {
    hide Waiters, HasKey;
  }

  lemma RequeuedRest(p: Plan, s: State, key: Key, k: Key)
    requires WaitOk(p.conflicts, s.active, s.waiting) && TruthyTail(Queue(s.waiting, key)) == Queue(s.waiting, key)
    ensures Rest(p, ReleasedKey(s, key), Solely(k)) == Rest(p, s, Solely(k))
  {
    hide With, Reversed, HasKey, TruthyTail;
    RestAfter(p.conflicts, s.queue, s.waiting, key, k);
  }

  /** Of names that are all true none is lost. */
  lemma {:induction false} AllTail(list: seq<Test>)
    ensures AllTruthy(multiset(list)) ==> TruthyTail(list) == list
  {
    if list != [] && AllTruthy(multiset(list)) {
      var init, t := list[..|list| - 1], list[|list| - 1];
      assert list == init + [t];
      assert t in multiset(list);
      AllTail(init);
    }
  }

  lemma RequeuedIs(queue: seq<Test>, lost: multiset<Test>, list: seq<Test>)
    ensures var tail := TruthyTail(list); var gone := list[..|list| - |tail|];
      && multiset(queue + Reversed(tail)) + (lost + multiset(gone)) == multiset(queue) + lost + multiset(list)
      && forall t | t in queue + Reversed(tail) :: t in queue || t in list
  {
    hide TruthyTail;
    var tail := TruthyTail(list);
    var gone := list[..|list| - |tail|];
    TailIs(list);
    assert list == gone + tail;
    Regrouped(multiset(queue), multiset(tail), lost, multiset(gone));
    InReversed(tail);
    ReversedSame(tail);
  }

  lemma Regrouped(q: multiset<Test>, t: multiset<Test>, l: multiset<Test>, g: multiset<Test>)
    ensures (q + t) + (l + g) == q + l + (g + t)
  {
  }

  lemma {:induction false} ReleaseKeysOk(p: Plan, s: State, order: seq<Key>)
    requires Conserved(p, s) && WaitOk(p.conflicts, s.active, s.waiting)
    ensures Moved(p, s, ReleasedKeys(s, order))
  {
    hide AllTruthy, Conserved, WaitOk, NoAll, Rest, Reversed, TruthyTail;
    if order != [] {
      var n := |order| - 1;
      ReleaseKeysOk(p, s, order[..n]);
      ReleaseKeyOk(p, ReleasedKeys(s, order[..n]), order[n]);
      MovedTrans(p, s, ReleasedKeys(s, order[..n]), ReleasedKeys(s, order));
    }
  }

  // ---- the steps ---------------------------------------------------------------------

  /** The batch size for worker i's next batch. */
  function SizeNow(p: Plan, s: State): nat
    requires s.workers != {}
  {
    BatchSize(p.maxBatch, |p.order|, |s.workers|)
  }

  /** The sequential tests enter the queue only once one worker is left. */
  function Prepared(s: State): State {
    if |s.workers| == 1 && s.kept != [] then Merged(s) else s
  }

  /** The "ready" part for worker i: a batch, or its end. */
  function Scheduled(p: Plan, s: State, i: Worker): State {
    if s.workers == {} then s
    else
      var s1 := Prepared(s);
      var x := PickFrom(p.conflicts, s1.active, s1.queue, s1.waiting, [], SizeNow(p, s1));
      var s2 := WithPicks(s1, x);
      if x.files != [] then Dispatched(p, s2, i, x.files) else s2.(workers := s2.workers - {i})
  }

  /** What a worker tells the coordinator.  A finished worker's keys are released in some order; that of the source
      is the one in which they became active. */
  datatype Message = Ready(worker: Worker) | Finished(worker: Worker, order: seq<Key>)

  ghost predicate CanSend(s: State, m: Message) {
    match m
    case Ready(i) => i in s.starting && i in s.workers
    case Finished(i, order) => i in s.running && i in s.workers && KeysOfWorker(s.active, i, order)
  }

  /** The message is handled. */
  function Handled(p: Plan, s: State, m: Message): State {
    match m
    case Ready(i) => Scheduled(p, s.(starting := s.starting - {i}), i)
    case Finished(i, order) => Scheduled(p, FinishedBatch(s, i, order), i)
  }

  function FinishedBatch(s: State, i: Worker, order: seq<Key>): State {
    ReleasedKeys(s.(running := s.running - {i}, inProgress := s.inProgress - 1), order)
  }

  /** The state after a run of messages. */
  function After(p: Plan, s: State, msgs: seq<Message>): State {
    if msgs == [] then s
    else Handled(p, After(p, s, msgs[..|msgs| - 1]), msgs[|msgs| - 1])
  }

  /** Each message of the run can be sent when its turn comes. */
  ghost predicate CanRun(p: Plan, s: State, msgs: seq<Message>) {
    forall n | 0 <= n < |msgs| :: CanSend(After(p, s, msgs[..n]), msgs[n])
  }

  // ---- how many tests a message dispatches ---------------------------------------------

  /** n is the maximum, or the least positive number of tests with which the workers get through all parallel ones,
      if that is smaller. */
  ghost predicate IsBatch(max: nat, total: nat, workers: nat, n: nat) {
    && n <= max
    && (n < max ==> n >= 1 && n * workers >= total)
    && forall k | 1 <= k < n :: k * workers < total
  }

  lemma BatchSizeIs(max: nat, total: nat, workers: nat, n: nat)
    requires workers >= 1 && IsBatch(max, total, workers, n)
    ensures n == BatchSize(max, total, workers)
  {
    var c := (total + workers - 1) / workers;
    Ceiling(total, workers, c);
    if n < c {
      MulAtMost(n, c - 1, workers);
    } else if n > 1 {
      MulAtMost(Max(1, c), Max(1, c), workers);
    }
  }

  lemma Ceiling(total: nat, workers: nat, c: nat)
    requires workers >= 1 && c == (total + workers - 1) / workers
    ensures c * workers >= total && (c >= 1 ==> (c - 1) * workers < total) && (c == 0 <==> total == 0)
  {
  }

  lemma MulAtMost(a: nat, b: nat, w: nat)
    requires a <= b
    ensures a * w <= b * w
  {
  }

  /** A true name with free keys on top of the queue joins the batch. */
  lemma FreeTop(conflicts: map<Test, seq<Key>>, active: map<Key, Worker>, queue: seq<Test>, waiting: map<Key, seq<Test>>,
                files: seq<Test>, n: nat)
    requires |files| <= n && queue != [] && Truthy(queue[|queue| - 1])
    requires forall k | k in KeysOf(conflicts, queue[|queue| - 1]) :: k !in active
    ensures PickFrom(conflicts, active, queue, waiting, files, n) ==
            PickFrom(conflicts, active, queue[..|queue| - 1], waiting, files + [queue[|queue| - 1]], n)
  {
    hide Truthy, AddWaiter;
    assert FirstActive(KeysOf(conflicts, queue[|queue| - 1]), active).Free?;
  }

  /** The true names on top of the queue whose keys are all free are taken, up to n + 1 of them in all. */
  lemma {:induction false} FreeTaken(conflicts: map<Test, seq<Key>>, active: map<Key, Worker>, queue: seq<Test>,
                                     waiting: map<Key, seq<Test>>, files: seq<Test>, n: nat, m: nat)
    requires |files| <= n + 1 && m == Min(|queue|, n + 1 - |files|)
    requires forall j | |queue| - m <= j < |queue| :: Truthy(queue[j]) && forall k | k in KeysOf(conflicts, queue[j]) :: k !in active
    ensures PickFrom(conflicts, active, queue, waiting, files, n) ==
            Picks(queue[..|queue| - m], waiting, files + Reversed(queue[|queue| - m..]), multiset{})
    decreases m
  {
    if m == 0 {
      hide Truthy, Reversed, FirstActive;
      ReversedFirst<Test>([]);
      assert queue[..|queue|] == queue && files + [] == files && queue[|queue|..] == [];
    } else {
      hide Truthy, Reversed, FirstActive, PickFrom, KeysOf;
      var t, q := queue[|queue| - 1], queue[..|queue| - 1];
      FreeTop(conflicts, active, queue, waiting, files, n);
      FreeTaken(conflicts, active, q, waiting, files + [t], n, m - 1);
      TopApart(queue, files, m);
    }
  }

  lemma TopApart(queue: seq<Test>, files: seq<Test>, m: nat)
    requires 0 < m <= |queue|
    ensures var t, q := queue[|queue| - 1], queue[..|queue| - 1];
      && q[..|q| - (m - 1)] == queue[..|queue| - m]
      && files + [t] + Reversed(q[|q| - (m - 1)..]) == files + Reversed(queue[|queue| - m..])
  {
    hide Reversed;
    var t, q := queue[|queue| - 1], queue[..|queue| - 1];
    assert queue[|queue| - m..] == q[|q| - (m - 1)..] + [t];
    ReversedPush(q[|q| - (m - 1)..], t);
  }

  /** A batch has n + 1 tests unless the queue runs out or a false name ends it. */
  lemma {:induction false} BatchFilled(conflicts: map<Test, seq<Key>>, active: map<Key, Worker>, queue: seq<Test>,
                                       waiting: map<Key, seq<Test>>, files: seq<Test>, n: nat)
    requires |files| <= n + 1
    ensures var x := PickFrom(conflicts, active, queue, waiting, files, n);
      |x.files| <= n + 1 && (|x.files| == n + 1 || x.queue == [] || x.lost != multiset{})
    decreases |queue|
  {
    hide Truthy, FirstActive, AddWaiter;
    if |files| <= n && queue != [] && Truthy(queue[|queue| - 1]) {
      var t, q := queue[|queue| - 1], queue[..|queue| - 1];
      match FirstActive(KeysOf(conflicts, t), active)
      case By(key) => BatchFilled(conflicts, active, q, AddWaiter(waiting, key, t), files, n);
      case Free => BatchFilled(conflicts, active, q, waiting, files + [t], n);
    }
  }

  /** The state in which the batch is put together: a finished worker has released its keys, and with one worker left
      the sequential tests are on top of the queue. */
  function BeforeBatch(s: State, m: Message): State {
    var s1 := match m case Ready(i) => s.(starting := s.starting - {i}) case Finished(i, order) => FinishedBatch(s, i, order);
    if |s.workers| == 1 && s.kept != [] then s1.(queue := s1.queue + s.kept, kept := []) else s1
  }

  lemma HandledIs(p: Plan, s: State, m: Message, n: nat)
    requires s.workers != {} && n == BatchSize(p.maxBatch, |p.order|, |s.workers|)
    ensures var s1 := BeforeBatch(s, m);
      var x := PickFrom(p.conflicts, s1.active, s1.queue, s1.waiting, [], n);
      && s1.workers == s.workers && s1.log == s.log
      && Handled(p, s, m) == if x.files != [] then Dispatched(p, WithPicks(s1, x), m.worker, x.files)
                             else WithPicks(s1, x).(workers := s.workers - {m.worker})
  {
    hide PickFrom, ReleasedKeys, BatchSize, Dispatched;
  }

  /** The k tests on top of the queue have true names and no key of theirs is active. */
  predicate TopFree(p: Plan, s: State, k: nat)
    requires k <= |s.queue|
  {
    forall j | |s.queue| - k <= j < |s.queue| ::
      Truthy(s.queue[j]) && forall key | key in KeysOf(p.conflicts, s.queue[j]) :: key !in s.active
  }

  /** When the tests on top of the queue have true names and free keys, exactly min(|queue|, n + 1) of them are added to
      the log, from the top. */
  predicate TakesBatch(p: Plan, s: State, m: Message, n: nat, log: seq<Test>) {
    var s1 := BeforeBatch(s, m);
    var k := Min(|s1.queue|, n + 1);
    TopFree(p, s1, k) ==> |log| == |s.log| + k && log == s.log + Reversed(s1.queue[|s1.queue| - k..])
  }

  /** When the tests on top of the queue have true names and free keys, a message dispatches exactly as many of them as
      the batch size calls for, from the top; if there is none, the worker ends. */
  lemma BatchTaken(p: Plan, s: State, m: Message, n: nat)
    requires s.workers != {} && IsBatch(p.maxBatch, |p.order|, |s.workers|, n)
    ensures TakesBatch(p, s, m, n, Handled(p, s, m).log)
    ensures var s1, s' := BeforeBatch(s, m), Handled(p, s, m);
      var k := Min(|s1.queue|, n + 1);
      TopFree(p, s1, k) ==>
        && |s'.log| == |s.log| + k && s'.log == s.log + Reversed(s1.queue[|s1.queue| - k..]) && s'.queue == s1.queue[..|s1.queue| - k]
        && s'.waiting == s1.waiting && s'.lost == s1.lost
        && s'.workers == (if k == 0 then s.workers - {m.worker} else s.workers)
        && (k > 0 ==> s'.running == s1.running[m.worker := Reversed(s1.queue[|s1.queue| - k..])])
  {
    hide Truthy, Reversed, PickFrom, BatchSize, WithKeys, IsBatch, BeforeBatch, Handled;
    BatchSizeIs(p.maxBatch, |p.order|, |s.workers|, n);
    HandledIs(p, s, m, n);
    var s1 := BeforeBatch(s, m);
    var k := Min(|s1.queue|, n + 1);
    if TopFree(p, s1, k) {
      FreeTaken(p.conflicts, s1.active, s1.queue, s1.waiting, [], n, k);
      assert [] + Reversed(s1.queue[|s1.queue| - k..]) == Reversed(s1.queue[|s1.queue| - k..]);
    }
  }

  /** Whatever the queue holds, a message dispatches no more than n + 1 tests, and no fewer unless the queue runs out or
      a false name was on it; a worker that gets none ends. */
  lemma BatchFull(p: Plan, s: State, m: Message, n: nat)
    requires s.workers != {} && IsBatch(p.maxBatch, |p.order|, |s.workers|, n)
    ensures var s1, s' := BeforeBatch(s, m), Handled(p, s, m);
      && s.log <= s'.log && |s'.log| <= |s.log| + n + 1
      && (|s'.log| == |s.log| + n + 1 || s'.queue == [] || s'.lost != s1.lost)
      && s'.workers == (if s'.log == s.log then s.workers - {m.worker} else s.workers)
  {
    hide Truthy, PickFrom, BatchSize, WithKeys, IsBatch, BeforeBatch, Handled;
    BatchSizeIs(p.maxBatch, |p.order|, |s.workers|, n);
    HandledIs(p, s, m, n);
    var s1 := BeforeBatch(s, m);
    BatchFilled(p.conflicts, s1.active, s1.queue, s1.waiting, [], n);
  }

  lemma ScheduledOk(p: Plan, s: State, i: Worker)
    requires Handling(p, s, i)
    ensures s.workers != {} && Valid(p, Scheduled(p, s, i))
    ensures var s' := Scheduled(p, s, i);
      && Undispatched(s') + |s'.workers| < Undispatched(s) + |s.workers|
      && s.log <= s'.log && |s'.log| <= |s.log| + p.maxBatch + 1
      && (i !in s'.workers && AllTruthy(p.all) ==> s'.queue == [])
  {
    hide AllTruthy, Handling, Picked, Valid, Conserved, Waiters, WithKeys, BatchSize, Undispatched, PickFrom;
    HandlingFacts(p, s, i);
    if |s.workers| == 1 && s.kept != [] {
      MergeStep(p, s, i);
    }
    var s1 := Prepared(s);
    HandlingFacts(p, s1, i);
    var n := SizeNow(p, s1);
    var x := PickFrom(p.conflicts, s1.active, s1.queue, s1.waiting, [], n);
    PickBatch(p, s1, i, n);
    var s2 := WithPicks(s1, x);
    PickedFacts(p, s2, i, x.files);
    if x.files != [] {
      DispatchStep(p, s2, i, x.files);
      DispatchLess(p, s2, i, x.files);
    } else {
      RetireStep(p, s2, i);
      SameUndispatched(s2, s2.(workers := s2.workers - {i}));
    }
  }

  lemma SameUndispatched(s: State, s': State)
    requires s'.queue == s.queue && s'.kept == s.kept && s'.waiting == s.waiting
    ensures Undispatched(s') == Undispatched(s)
  {
  }

  lemma DispatchLess(p: Plan, s: State, i: Worker, files: seq<Test>)
    ensures Undispatched(Dispatched(p, s, i, files)) == Undispatched(s) && Dispatched(p, s, i, files).workers == s.workers
    ensures Dispatched(p, s, i, files).log == s.log + files
  {
    hide WithKeys;
  }

  lemma PickBatch(p: Plan, s: State, i: Worker, n: nat)
    requires Handling(p, s, i) && (|s.workers| == 1 ==> s.kept == [])
    ensures var x := PickFrom(p.conflicts, s.active, s.queue, s.waiting, [], n);
      Picked(p, WithPicks(s, x), i, x.files) && |x.files| <= n + 1 && Undispatched(WithPicks(s, x)) + |x.files| <= Undispatched(s)
  {
    hide AllTruthy, Sum, Waiters, With, Reversed, Owned, Justified, WaitOk, Rest, Truthy, Alone, Ordered, PickFrom;
    hide SameLines;
    UndispatchedIs(p, s);
    var x := PickFrom(p.conflicts, s.active, s.queue, s.waiting, [], n);
    var s' := WithPicks(s, x);
    NothingYet(p, s);
    PickOk(p, s, s, [], n);
    assert s.lost <= s'.lost;
    OnlyPicked(p, s, s', x.files);
    PickedAfter(p, s, s', i, x.files);
    SumLog(x.files, s'.queue, s'.kept, s'.waiting, s'.log, s'.lost, p.all);
  }

  lemma NothingYet(p: Plan, s: State)
    ensures SameLines(p, s, s, [])
  {
    hide Reversed;
  }

  /** Every message keeps the invariant, and brings the end nearer. */
  lemma HandledOk(p: Plan, s: State, m: Message)
    requires Valid(p, s) && CanSend(s, m)
    ensures s.workers != {} && Valid(p, Handled(p, s, m))
    ensures var s' := Handled(p, s, m);
      && Undispatched(s') + |s'.workers| < Undispatched(s) + |s.workers|
      && s.log <= s'.log && |s'.log| <= |s.log| + p.maxBatch + 1
      && (m.worker !in s'.workers && AllTruthy(p.all) ==> s'.queue == [])
  {
    hide AllTruthy, Valid, Handling, Conserved, Owned, Justified, WaitOk, NoAll, Rest, With, Reversed, Undispatched;
    hide ReleasedKeys, Scheduled;
    match m {
      case Ready(i) =>
        StartedStep(p, s, i);
        SameUndispatched(s, s.(starting := s.starting - {i}));
        ScheduledOk(p, s.(starting := s.starting - {i}), i);
      case Finished(i, order) =>
        FinishedOk(p, s, i, order);
        ScheduledOk(p, FinishedBatch(s, i, order), i);
    }
  }

  /** Any run of messages keeps the invariant. */
  lemma {:induction false} RunOk(p: Plan, s: State, msgs: seq<Message>)
    requires Valid(p, s) && CanRun(p, s, msgs)
    ensures Valid(p, After(p, s, msgs))
  {
    hide Valid, Handled, CanSend;
    if msgs != [] {
      var init := msgs[..|msgs| - 1];
      assert forall n | 0 <= n < |init| :: msgs[..n] == init[..n] && msgs[n] == init[n];
      RunOk(p, s, init);
      assert CanSend(After(p, s, init), msgs[|msgs| - 1]);
      HandledOk(p, After(p, s, init), msgs[|msgs| - 1]);
    }
  }

  /** One more message. */
  lemma RunMore(p: Plan, s: State, msgs: seq<Message>, m: Message)
    requires CanRun(p, s, msgs) && CanSend(After(p, s, msgs), m)
    ensures CanRun(p, s, msgs + [m]) && After(p, s, msgs + [m]) == Handled(p, After(p, s, msgs), m)
  {
    hide CanSend, Handled;
    var all := msgs + [m];
    assert all[..|msgs|] == msgs;
    forall n | 0 <= n < |all| ensures CanSend(After(p, s, all[..n]), all[n]) {
      assert n < |msgs| ==> all[..n] == msgs[..n];
    }
  }

  /** Who sends the first message; so without workers there is none. */
  lemma FirstMessage(p: Plan, s: State, msgs: seq<Message>)
    requires CanRun(p, s, msgs)
    ensures msgs != [] ==> CanSend(s, msgs[0])
  {
    hide CanSend;
    assert msgs != [] ==> CanSend(After(p, s, msgs[..0]), msgs[0]) && msgs[..0] == [];
  }

  lemma FinishedOk(p: Plan, s: State, i: Worker, order: seq<Key>)
    requires Valid(p, s) && i in s.running && KeysOfWorker(s.active, i, order)
    ensures var s' := FinishedBatch(s, i, order);
      Handling(p, s', i) && Undispatched(s') <= Undispatched(s) && s'.workers == s.workers && s'.log == s.log
  {
    hide AllTruthy, Conserved, Owned, Justified, WaitOk, NoAll, Rest, With, Reversed, Undispatched, ReleasedKeys;
    hide Handling;
    var s1 := s.(running := s.running - {i}, inProgress := s.inProgress - 1);
    FinishConserved(p, s, s1);
    ReleaseKeysOk(p, s1, order);
    FinishStep(p, s, FinishedBatch(s, i, order), i);
    NotMore(p, s, FinishedBatch(s, i, order));
  }

  // ---- the start -------------------------------------------------------------------------------

  /** The tests that do not conflict with "all". */
  function Parallel(tests: seq<Test>, conflicts: map<Test, seq<Key>>): seq<Test> {
    if tests == [] then []
    else Parallel(tests[..|tests| - 1], conflicts) + if HasKey(conflicts, tests[|tests| - 1], ALL) then [] else [tests[|tests| - 1]]
  }

  function Sequential(tests: seq<Test>, conflicts: map<Test, seq<Key>>): seq<Test> {
    if tests == [] then []
    else Sequential(tests[..|tests| - 1], conflicts) + if HasKey(conflicts, tests[|tests| - 1], ALL) then [tests[|tests| - 1]] else []
  }

  lemma PartStep(tests: seq<Test>, n: nat, conflicts: map<Test, seq<Key>>)
    requires n < |tests|
    ensures Parallel(tests[..n + 1], conflicts) == Parallel(tests[..n], conflicts) + if HasKey(conflicts, tests[n], ALL) then [] else [tests[n]]
    ensures Sequential(tests[..n + 1], conflicts) == Sequential(tests[..n], conflicts) + if HasKey(conflicts, tests[n], ALL) then [tests[n]] else []
  {
    assert tests[..n + 1][..n] == tests[..n];
  }

  lemma OneMoreTest(x: seq<Test>, p: seq<Test>, q: seq<Test>, t: Test)
    requires multiset(p) + multiset(q) == multiset(x)
    ensures multiset(p + [t]) + multiset(q) == multiset(x + [t])
    ensures multiset(p) + multiset(q + [t]) == multiset(x + [t])
    ensures p + [] == p && q + [] == q
  {
  }

  lemma {:induction false} Parts(tests: seq<Test>, conflicts: map<Test, seq<Key>>)
    ensures multiset(Parallel(tests, conflicts)) + multiset(Sequential(tests, conflicts)) == multiset(tests)
  {
    hide HasKey;
    if tests != [] {
      var x, t := tests[..|tests| - 1], tests[|tests| - 1];
      Parts(x, conflicts);
      PartLast(tests, conflicts);
      assert tests == x + [t];
      OneMoreTest(x, Parallel(x, conflicts), Sequential(x, conflicts), t);
    }
  }

  lemma PartLast(tests: seq<Test>, conflicts: map<Test, seq<Key>>)
    requires tests != []
    ensures var x, t := tests[..|tests| - 1], tests[|tests| - 1];
      && Parallel(tests, conflicts) == Parallel(x, conflicts) + (if HasKey(conflicts, t, ALL) then [] else [t])
      && Sequential(tests, conflicts) == Sequential(x, conflicts) + (if HasKey(conflicts, t, ALL) then [t] else [])
  {
  }

  lemma {:induction false} PartKeys(tests: seq<Test>, conflicts: map<Test, seq<Key>>)
    ensures forall t | t in Parallel(tests, conflicts) :: !HasKey(conflicts, t, ALL)
    ensures forall t | t in Sequential(tests, conflicts) :: HasKey(conflicts, t, ALL)
  {
    if tests != [] {
      PartKeys(tests[..|tests| - 1], conflicts);
    }
  }

  lemma PartsAre(tests: seq<Test>, conflicts: map<Test, seq<Key>>, queue: seq<Test>, parallel: seq<Test>)
    requires multiset(queue) == multiset(parallel) && parallel == Parallel(tests, conflicts)
    ensures multiset(queue) + multiset(Sequential(tests, conflicts)) == multiset(tests)
    ensures forall t | t in queue :: !HasKey(conflicts, t, ALL)
    ensures forall t | t in Sequential(tests, conflicts) :: HasKey(conflicts, t, ALL)
    ensures forall t | t in multiset(tests) :: t in tests
  {
    Parts(tests, conflicts);
    PartKeys(tests, conflicts);
    forall t | t in queue ensures !HasKey(conflicts, t, ALL) {
      assert t in multiset(queue);
    }
  }

  /** The state when the workers 1 to count have been spawned. */
  function Start(p: Plan, count: nat): State {
    State(Reversed(p.order), p.last, map[], map[], 0, Workers(count), Workers(count), map[], [], multiset{})
  }

  function Workers(count: nat): (r: set<Worker>)
    ensures |r| == count && forall w :: w in r <==> 1 <= w <= count
  {
    if count == 0 then {} else Workers(count - 1) + {count}
  }

  /** What the preparation makes sure of. */
  ghost predicate Proper(p: Plan) {
    && multiset(p.order) + multiset(p.last) == p.all
    && (forall t | t in p.order :: !HasKey(p.conflicts, t, ALL)) && (forall t | t in p.last :: HasKey(p.conflicts, t, ALL))
  }

  lemma StartIsValid(p: Plan, count: nat)
    requires Proper(p) && count >= 1
    ensures Valid(p, Start(p, count))
  {
    hide Valid, HasKey, Reversed;
    InReversed(p.order);
    ReversedSame(p.order);
    ReversedTwice(p.order);
    assert 1 in Workers(count);
    StartOk(p, Start(p, count));
  }

  lemma StartOk(p: Plan, s: State)
    requires s.active == map[] && s.waiting == map[] && s.inProgress == 0 && s.starting == s.workers && s.running == map[]
    requires s.log == [] && s.lost == multiset{} && s.kept == p.last && s.workers != {}
    requires multiset(s.queue) + multiset(s.kept) == p.all && p.order == Reversed(s.queue)
    requires (forall t | t in s.queue :: !HasKey(p.conflicts, t, ALL)) && forall t | t in p.last :: HasKey(p.conflicts, t, ALL)
    ensures Valid(p, s)
  {
    hide HasKey, Ordered, Reversed, With, AllTruthy;
    StartOrder(p, s);
    assert Waiters(s.waiting) == multiset{};
  }

  lemma StartOrder(p: Plan, s: State)
    requires s.waiting == map[] && s.log == [] && s.kept == p.last && p.order == Reversed(s.queue)
    ensures Ordered(p, s)
  {
    hide Reversed;
    forall g ensures Line(p, s, g) == With(p.conflicts, p.order, g) {
      assert With(p.conflicts, [], g) == [] && Queue(s.waiting, g.key) == [];
    }
  }

  lemma HandlingFacts(p: Plan, s: State, i: Worker)
    requires Handling(p, s, i)
    ensures |s.workers| >= 1 && s.workers != {}
  {
    hide Conserved, Alone, Ordered, ConflictsOk;
    assert s.workers == {i} + (s.workers - {i});
  }

  lemma PickedFacts(p: Plan, s: State, i: Worker, files: seq<Test>)
    requires Picked(p, s, i, files)
    ensures i in s.workers && |s.workers - {i}| == |s.workers| - 1
    ensures AllTruthy(p.all) && files == [] ==> s.queue == []
  {
    hide OrderedBut, NoAll;
  }

  lemma StartedStep(p: Plan, s: State, i: Worker)
    requires Valid(p, s) && i in s.starting
    ensures Handling(p, s.(starting := s.starting - {i}), i)
  {
    hide AllTruthy, Conserved, ConflictsOk, NoAll, Ordered, HasKey;
    var s' := s.(starting := s.starting - {i});
    SameRest(p, s, s');
    SameTests(p, s, s');
    assert s.starting == s'.starting + {i};
  }

  /** Conservation and conflicts do not depend on which workers have reported. */
  lemma SameTests(p: Plan, s: State, s': State)
    requires s' == s.(starting := s'.starting)
    ensures Conserved(p, s') == Conserved(p, s) && ConflictsOk(p, s') == ConflictsOk(p, s)
  {
    hide AllTruthy, Sum, Owned, Justified, WaitOk, Truthy;
  }

  lemma FinishConserved(p: Plan, s: State, s': State)
    requires Conserved(p, s) && s' == s.(running := s'.running, inProgress := s'.inProgress)
    requires forall w | w in s'.running :: w in s.running && s'.running[w] == s.running[w]
    ensures Conserved(p, s') && NoAll(p, s) == NoAll(p, s')
    ensures forall g :: Rest(p, s', g) == Rest(p, s, g)
  {
    hide AllTruthy, Waiters, Sum;
  }

  /** The keys of a finished worker are released; those of the others are not touched. */
  lemma FinishStep(p: Plan, s: State, s': State, i: Worker)
    requires Valid(p, s) && i in s.running
    requires s' == s.(running := s.running - {i}, inProgress := s.inProgress - 1, active := s'.active, queue := s'.queue,
                      waiting := s'.waiting, lost := s'.lost)
    requires forall k :: k in s'.active <==> k in s.active && s.active[k] != i
    requires forall k | k in s'.active :: s'.active[k] == s.active[k]
    requires Conserved(p, s') && WaitOk(p.conflicts, s'.active, s'.waiting) && (NoAll(p, s) ==> NoAll(p, s'))
    requires AllTruthy(p.all) ==> forall k :: Rest(p, s', Solely(k)) == Rest(p, s, Solely(k))
    requires (forall k | k in s'.waiting :: k in s.waiting) && (s.waiting == map[] ==> s'.queue == s.queue)
    ensures Handling(p, s', i)
  {
    hide Conserved, AllTruthy, WaitOk, NoAll, Ordered, HasKey;
    hide Owned, Justified;
    FinishConflicts(p.conflicts, s.running, s.active, s'.active, i);
    if AllTruthy(p.all) { FinishOrder(p, s, s'); }
    FinishWorkers(s, i);
  }

  lemma FinishConflicts(conflicts: map<Test, seq<Key>>, running: map<Worker, seq<Test>>, active: map<Key, Worker>,
                        active': map<Key, Worker>, i: Worker)
    requires Owned(conflicts, running, active) && Justified(conflicts, running, active)
    requires forall k :: k in active' <==> k in active && active[k] != i
    requires forall k | k in active' :: active'[k] == active[k]
    ensures Owned(conflicts, running - {i}, active') && Justified(conflicts, running - {i}, active')
  {
    hide HasKey;
    forall k | k in active' ensures exists t :: t in (running - {i})[active'[k]] && HasKey(conflicts, t, k) {
      var t :| t in running[active[k]] && HasKey(conflicts, t, k);
      assert t in (running - {i})[active'[k]];
    }
  }

  lemma FinishWorkers(s: State, i: Worker)
    requires WorkersOk(s) && i in s.running
    ensures var r := s.running - {i}; |r| == |s.running| - 1 && r.Keys == s.running.Keys - {i} && i in s.workers && i !in s.starting
    ensures s.workers == (s.running - {i}).Keys + s.starting + {i}
  {
    var r := s.running - {i};
    assert r.Keys == s.running.Keys - {i};
    assert s.running.Keys == r.Keys + {i};
  }

  lemma FinishOrder(p: Plan, s: State, s': State)
    requires Ordered(p, s) && Alone(p, s) && s'.log == s.log && s'.kept == s.kept
    requires forall k :: Rest(p, s', Solely(k)) == Rest(p, s, Solely(k))
    requires (forall k | k in s'.waiting :: k in s.waiting) && (s.waiting == map[] ==> s'.queue == s.queue)
    ensures Ordered(p, s')
  {
    hide NoAll, With, Reversed, Rest, HasKey;
    if s.kept != p.last {
      assert s'.waiting == map[];
      SameRest(p, s, s');
    }
  }

  /** The keys of a batch that conflicts with nothing active can be handed to worker i. */
  lemma ActivateOk(conflicts: map<Test, seq<Key>>, running: map<Worker, seq<Test>>, active: map<Key, Worker>,
                   i: Worker, files: seq<Test>, waiting: map<Key, seq<Test>>)
    requires Owned(conflicts, running, active) && Justified(conflicts, running, active) && WaitOk(conflicts, active, waiting)
    requires i !in running && forall t | t in files :: forall k | HasKey(conflicts, t, k) :: k !in active
    ensures var a := WithKeys(active, conflicts, files, i); var r := running[i := files];
      Owned(conflicts, r, a) && Justified(conflicts, r, a) && WaitOk(conflicts, a, waiting)
  {
    hide WithKeys, HasKey, Owned, Justified, WaitOk;
    WithKeysIs(active, conflicts, files, i);
    var a, r := WithKeys(active, conflicts, files, i), running[i := files];
    ActivateOwned(conflicts, running, active, i, files, a);
    ActivateJustified(conflicts, running, active, i, files, a);
    ActivateWaits(conflicts, active, a, waiting);
  }

  lemma ActivateWaits(conflicts: map<Test, seq<Key>>, active: map<Key, Worker>, a: map<Key, Worker>, waiting: map<Key, seq<Test>>)
    requires WaitOk(conflicts, active, waiting) && forall k | k in active :: k in a
    ensures WaitOk(conflicts, a, waiting)
  {
    hide HasKey;
  }

  lemma ActivateOwned(conflicts: map<Test, seq<Key>>, running: map<Worker, seq<Test>>, active: map<Key, Worker>,
                      i: Worker, files: seq<Test>, a: map<Key, Worker>)
    requires Owned(conflicts, running, active) && i !in running
    requires forall t | t in files :: forall k | HasKey(conflicts, t, k) :: k !in active
    requires forall k :: k in a <==> k in active || Mentioned(conflicts, files, k)
    requires forall k | k in a :: a[k] == if Mentioned(conflicts, files, k) then i else active[k]
    ensures Owned(conflicts, running[i := files], a)
  {
    hide HasKey;
    var r := running[i := files];
    forall w, t, k | w in r && t in r[w] && HasKey(conflicts, t, k) ensures k in a && a[k] == w {
      if w == i { assert Mentioned(conflicts, files, k); }
    }
  }

  lemma ActivateJustified(conflicts: map<Test, seq<Key>>, running: map<Worker, seq<Test>>, active: map<Key, Worker>,
                          i: Worker, files: seq<Test>, a: map<Key, Worker>)
    requires Justified(conflicts, running, active) && i !in running
    requires forall k :: k in a <==> k in active || Mentioned(conflicts, files, k)
    requires forall k | k in a :: a[k] == if Mentioned(conflicts, files, k) then i else active[k]
    ensures Justified(conflicts, running[i := files], a)
  {
    hide HasKey;
  }

  lemma {:induction false} KeyedIs(active: map<Key, Worker>, ks: seq<Key>, i: Worker)
    ensures forall k :: k in Keyed(active, ks, i) <==> k in active || k in ks
    ensures forall k | k in Keyed(active, ks, i) :: Keyed(active, ks, i)[k] == if k in ks then i else active[k]
  {
    if ks != [] {
      KeyedIs(active, ks[..|ks| - 1], i);
      assert ks == ks[..|ks| - 1] + [ks[|ks| - 1]];
    }
  }

  ghost predicate Mentioned(conflicts: map<Test, seq<Key>>, files: seq<Test>, k: Key) {
    exists t :: t in files && HasKey(conflicts, t, k)
  }

  lemma {:induction false} WithKeysIs(active: map<Key, Worker>, conflicts: map<Test, seq<Key>>, files: seq<Test>, i: Worker)
    ensures var a := WithKeys(active, conflicts, files, i);
      && (forall k :: k in a <==> k in active || Mentioned(conflicts, files, k))
      && (forall k | k in a :: a[k] == if Mentioned(conflicts, files, k) then i else active[k])
  {
    if files != [] {
      var init, t := files[..|files| - 1], files[|files| - 1];
      assert files == init + [t];
      WithKeysIs(active, conflicts, init, i);
      KeyedIs(WithKeys(active, conflicts, init, i), KeysOf(conflicts, t), i);
      forall k ensures Mentioned(conflicts, files, k) <==> Mentioned(conflicts, init, k) || HasKey(conflicts, t, k) {
        if HasKey(conflicts, t, k) { assert t in files; }
      }
    }
  }

  /** Sequential tests have the key "all" and so no other as their only one. */
  lemma MergedLine(conflicts: map<Test, seq<Key>>, tf: seq<Test>, last: seq<Test>, k: Key)
    requires k != ALL && forall t | t in last :: HasKey(conflicts, t, ALL)
    ensures With(conflicts, Reversed(tf + last), Solely(k)) == With(conflicts, Reversed(tf), Solely(k))
  {
    hide Reversed, With;
    ReversedAppend(tf, last);
    WithAppend(conflicts, Reversed(last), Reversed(tf), Solely(k));
    InReversed(last);
    WithAllOrNone(conflicts, Reversed(last), Solely(k));
  }

  /** The sequential tests come off the queue in the reverse of their order. */
  lemma MergedAll(conflicts: map<Test, seq<Key>>, tf: seq<Test>, last: seq<Test>, log: seq<Test>)
    requires (forall t | t in last :: HasKey(conflicts, t, ALL)) && forall t | t in tf || t in log :: !HasKey(conflicts, t, ALL)
    ensures With(conflicts, log, Having(ALL)) == [] && With(conflicts, Reversed(tf + last), Having(ALL)) == Reversed(last)
  {
    hide Reversed, With, HasKey;
    ReversedAppend(tf, last);
    WithAppend(conflicts, Reversed(last), Reversed(tf), Having(ALL));
    InReversed(last);
    InReversed(tf);
    WithAllOrNone(conflicts, Reversed(last), Having(ALL));
    WithAllOrNone(conflicts, Reversed(tf), Having(ALL));
    WithAllOrNone(conflicts, log, Having(ALL));
  }

  lemma OnlyMoved(files: seq<Test>, queue: seq<Test>, kept: seq<Test>, w: map<Key, seq<Test>>, log: seq<Test>,
                  lost: multiset<Test>, all: multiset<Test>, queue0: seq<Test>, w0: map<Key, seq<Test>>, lost0: multiset<Test>)
    requires Sum(files, queue, kept, w, log, lost, all) && Sum([], queue0, kept, w0, log, lost0, all) && lost0 <= lost
    ensures forall t | t in files || t in queue || t in Waiters(w) :: t in queue0 || t in Waiters(w0)
  {
    hide Waiters;
    forall t | t in files || t in queue || t in Waiters(w)
      ensures t in queue0 || t in Waiters(w0)
    {
      assert (multiset(files) + multiset(queue) + multiset(kept) + Waiters(w) + multiset(log) + lost)[t] ==
             (multiset([]) + multiset(queue0) + multiset(kept) + Waiters(w0) + multiset(log) + lost0)[t];
      assert lost0[t] <= lost[t];
      assert multiset(files)[t] + multiset(queue)[t] + Waiters(w)[t] >= 1;
    }
  }

  lemma WaitAdd(conflicts: map<Test, seq<Key>>, active: map<Key, Worker>, waiting: map<Key, seq<Test>>, key: Key, t: Test)
    requires WaitOk(conflicts, active, waiting) && key in active && HasKey(conflicts, t, key)
    ensures WaitOk(conflicts, active, AddWaiter(waiting, key, t))
  {
  }

  /** A test that starts waiting keeps its place in the line of tests with one key ... */
  lemma LineWait(conflicts: map<Test, seq<Key>>, queue: seq<Test>, ws: map<Key, seq<Test>>, key: Key, k: Key)
    requires queue != [] && HasKey(conflicts, queue[|queue| - 1], key)
    ensures var t, q := queue[|queue| - 1], queue[..|queue| - 1];
      With(conflicts, Queue(AddWaiter(ws, key, t), k), Solely(k)) + With(conflicts, Reversed(q), Solely(k)) ==
      With(conflicts, Queue(ws, k), Solely(k)) + With(conflicts, Reversed(queue), Solely(k))
  {
    hide With, Reversed;
    var t := queue[|queue| - 1];
    LastReversed(conflicts, queue, Solely(k));
    WithAppend(conflicts, Queue(ws, k), [t], Solely(k));
    WithAllOrNone(conflicts, [t], Solely(k));
    assert In(conflicts, t, Solely(k)) ==> key == k;
  }

  /** ... and so does a test that is picked, for nobody waits for its keys. */
  lemma LinePick(conflicts: map<Test, seq<Key>>, active: map<Key, Worker>, files: seq<Test>, queue: seq<Test>, ws: map<Key, seq<Test>>, g: Group)
    requires queue != [] && WaitOk(conflicts, active, ws) && forall k | HasKey(conflicts, queue[|queue| - 1], k) :: k !in active
    ensures var t, q := queue[|queue| - 1], queue[..|queue| - 1];
      With(conflicts, files + [t], g) + (With(conflicts, Queue(ws, g.key), g) + With(conflicts, Reversed(q), g)) ==
      With(conflicts, files, g) + (With(conflicts, Queue(ws, g.key), g) + With(conflicts, Reversed(queue), g))
  {
    hide With, Reversed, HasKey;
    var t := queue[|queue| - 1];
    LastReversed(conflicts, queue, g);
    WithAppend(conflicts, files, [t], g);
    WithAllOrNone(conflicts, [t], g);
    if In(conflicts, t, g) {
      NobodyWaits(conflicts, active, ws, g.key);
      WithAllOrNone(conflicts, Queue(ws, g.key), g);
    }
  }

  lemma LastReversed(conflicts: map<Test, seq<Key>>, queue: seq<Test>, g: Group)
    requires queue != []
    ensures With(conflicts, Reversed(queue), g) ==
      (if In(conflicts, queue[|queue| - 1], g) then [queue[|queue| - 1]] else []) + With(conflicts, Reversed(queue[..|queue| - 1]), g)
  {
    hide In, Reversed;
    assert queue == queue[..|queue| - 1] + [queue[|queue| - 1]];
    ReversedPush(queue[..|queue| - 1], queue[|queue| - 1]);
  }

  lemma NobodyWaits(conflicts: map<Test, seq<Key>>, active: map<Key, Worker>, waiting: map<Key, seq<Test>>, k: Key)
    requires WaitOk(conflicts, active, waiting) && k !in active
    ensures Queue(waiting, k) == []
  {
  }

  lemma FalsyIn(all: multiset<Test>, t: Test)
    requires t in all && !Truthy(t)
    ensures !AllTruthy(all)
  {
  }

  lemma SomeTruthy(list: seq<Test>, all: multiset<Test>)
    requires AllTruthy(all) ==> multiset(list) <= all
    ensures AllTruthy(all) ==> AllTruthy(multiset(list))
  {
  }

  /** Requeueing the tests that wait for a key keeps the line of tests with one key. */
  lemma RestAfter(conflicts: map<Test, seq<Key>>, queue: seq<Test>, ws: map<Key, seq<Test>>, key: Key, k: Key)
    requires forall t | t in Queue(ws, key) :: HasKey(conflicts, t, key)
    ensures With(conflicts, Queue(ws - {key}, k), Solely(k)) + With(conflicts, Reversed(queue + Reversed(Queue(ws, key))), Solely(k)) ==
            With(conflicts, Queue(ws, k), Solely(k)) + With(conflicts, Reversed(queue), Solely(k))
  {
    hide Reversed, With;
    var list := Queue(ws, key);
    ReversedAppend(queue, Reversed(list));
    ReversedTwice(list);
    WithAppend(conflicts, list, Reversed(queue), Solely(k));
    WithAllOrNone(conflicts, list, Solely(k));
    WithAllOrNone(conflicts, [], Solely(k));
    if k != key {
      assert forall t | t in list :: !In(conflicts, t, Solely(k));
    }
  }
}
