/** run_all_tests_parallel in run-tests.php as an object: its methods do in place what the steps of module Scheduler do. */
module ParallelRunner {
  import opened Sequences
  import opened Scheduler

  class Coordinator {
    /** $fileConflictsWith */
    const conflicts: map<Test, seq<Key>>
    const totalFileCount: nat
    const maxBatchSize: nat
    /** $test_files, $sequentialTests, $activeConflicts, $waitingTests, $testsInProgress, the keys of $workerProcs */
    var testFiles: seq<Test>
    var sequentialTests: seq<Test>
    var active: map<Key, Worker>
    var waiting: map<Key, seq<Test>>
    var testsInProgress: int
    var workers: set<Worker>

    /** The other side: workers that have not sent "ready" yet, and the batches being run. */
    var starting: set<Worker>
    var running: map<Worker, seq<Test>>

    ghost var log: seq<Test>
    ghost var lost: multiset<Test>
    ghost const plan: Plan

    ghost function View(): State
      reads this
    {
      State(testFiles, sequentialTests, active, waiting, testsInProgress, workers, starting, running, log, lost)
    }

    ghost predicate Planned() {
      plan.conflicts == conflicts && |plan.order| == totalFileCount && plan.maxBatch == maxBatchSize
    }

    ghost predicate Ok()
      reads this
    {
      Planned() && Valid(plan, View())
    }

    /** Puts the tests waiting for a released key back on top of the queue. */
    method Requeue(key: Key)
      requires key in waiting
      modifies `testFiles, `waiting, `lost
      ensures waiting == old(waiting) - {key}
      ensures var list := old(waiting)[key]; var tail := TruthyTail(list);
        testFiles == old(testFiles) + Reversed(tail) && lost == old(lost) + multiset(list[..|list| - |tail|])
    {
      hide Truthy, Reversed;
      var tests := waiting[key];
      ghost var list, q, moved: seq<Test> := tests, testFiles, [];
      assert tests + moved == tests && q + Reversed(moved) == q by { ReversedFirst(moved); }
      while tests != [] && Truthy(tests[|tests| - 1])
        invariant list == tests + moved && testFiles == q + Reversed(moved) && TruthyTail(list) == TruthyTail(tests) + moved
        decreases |tests|
        modifies `testFiles
      {
        var test := tests[|tests| - 1];
        RequeueStep(tests, moved);
        Stacked(q, test, moved);
        tests, moved := tests[..|tests| - 1], [test] + moved;
        testFiles := testFiles + [test];
      }
      // popping a false value ended the loop, and the rest of the list is unset
      assert TruthyTail(list) == moved && list[..|list| - |moved|] == tests;
      lost := lost + multiset(tests);
      waiting := waiting - {key};
    }

    /** A key is released: the tests waiting for it are queued again. */
    method ReleaseKey(key: Key)
      requires key in active
      modifies `active, `testFiles, `waiting, `lost
      ensures View() == ReleasedKey(old(View()), key)
    {
      hide TruthyTail, Reversed;
      ghost var s := View();
      active := active - {key};
      if key in waiting {
        Requeue(key);
      } else {
        NothingWaits(s, key);
      }
    }

    /** The loop over $activeConflicts when worker i has finished; the keys may come in any order. */
    method Release(i: Worker) returns (ghost order: seq<Key>)
      modifies `active, `testFiles, `waiting, `lost
      ensures KeysOfWorker(old(active), i, order) && View() == ReleasedKeys(old(View()), order)
    {
      hide ReleasedKey, ReleasedKeys;
      var snapshot := active;
      var todo := snapshot.Keys;
      order := [];
      NoneReleased(View());
      while todo != {}
        invariant todo <= snapshot.Keys && View() == ReleasedKeys(old(View()), order)
        invariant forall k :: k in order <==> k in snapshot && snapshot[k] == i && k !in todo
        invariant forall n, m | 0 <= n < m < |order| :: order[n] != order[m]
        decreases |todo|
      {
        var key :| key in todo;
        todo := todo - {key};
        if snapshot[key] == i {
          ReleasedMore(old(View()), order, key);
          ReleaseKey(key);
          order := order + [key];
        }
      }
    }

    /** The first conflict key of a test that is active. */
    method Blocker(file: Test) returns (b: Blocking)
      ensures b == FirstActive(KeysOf(conflicts, file), active)
    {
      var keys := KeysOf(conflicts, file);
      assert keys[0..] == keys;
      for j := 0 to |keys|
        invariant FirstActive(keys, active) == FirstActive(keys[j..], active)
      {
        if keys[j] in active {
          return By(keys[j]);
        }
        assert keys[j..][1..] == keys[j + 1..];
      }
      b := Free;
    }

    /** Puts a batch together: tests whose keys are all free; the others wait.  A false name ends the loop and is lost. */
    method Pick(batchSize: nat) returns (files: seq<Test>)
      modifies `testFiles, `waiting, `lost
      ensures var x := PickFrom(conflicts, active, old(testFiles), old(waiting), [], batchSize);
        testFiles == x.queue && waiting == x.waiting && files == x.files && lost == old(lost) + x.lost
    {
      hide Truthy, AddWaiter, FirstActive;
      ghost var all := PickFrom(conflicts, active, testFiles, waiting, [], batchSize);
      files := [];
      while |files| <= batchSize && testFiles != []
        invariant lost == old(lost) && PickFrom(conflicts, active, testFiles, waiting, files, batchSize) == all
        decreases |testFiles|
      {
        var file := testFiles[|testFiles| - 1];
        testFiles := testFiles[..|testFiles| - 1];
        if !Truthy(file) {
          // array_pop has removed it already
          lost := lost + multiset{file};
          return;
        }
        var b := Blocker(file);
        match b {
          case By(key) => waiting := AddWaiter(waiting, key, file);
          case Free => files := files + [file];
        }
      }
    }

    /** The keys of a batch become active for worker i. */
    method Activate(i: Worker, files: seq<Test>)
      modifies `active
      ensures active == WithKeys(old(active), conflicts, files, i)
    {
      for n := 0 to |files|
        invariant active == WithKeys(old(active), conflicts, files[..n], i)
      {
        var keys := KeysOf(conflicts, files[n]);
        ghost var before := active;
        for j := 0 to |keys|
          invariant active == Keyed(before, keys[..j], i)
        {
          assert keys[..j + 1][..j] == keys[..j];
          active := active[keys[j] := i];
        }
        assert keys[..|keys|] == keys && files[..n + 1][..n] == files[..n];
      }
      assert files[..|files|] == files;
    }

    /** The batch is sent. */
    method Send(i: Worker, files: seq<Test>)
      requires plan.conflicts == conflicts
      modifies `active, `testsInProgress, `running, `log
      ensures View() == Dispatched(plan, old(View()), i, files)
    {
      hide WithKeys;
      Activate(i, files);
      testsInProgress := testsInProgress + 1;
      running := running[i := files];
      log := log + files;
    }

    /** The "ready" part: a batch for worker i, or its end. */
    method Schedule(i: Worker)
      requires Planned() && workers != {}
      modifies `testFiles, `sequentialTests, `waiting, `lost, `active, `testsInProgress, `running, `log, `workers
      ensures View() == Scheduled(plan, old(View()), i)
    {
      hide PickFrom, BatchSize, Dispatched;
      // schedule sequential tests only once we are down to one worker
      if |workers| == 1 && sequentialTests != [] {
        testFiles, sequentialTests := testFiles + sequentialTests, [];
      }
      var files := Pick(BatchSize(maxBatchSize, totalFileCount, |workers|));
      if files != [] {
        Send(i, files);
      } else {
        workers := workers - {i};
      }
    }

    /** The message "ready" of a worker that has just started. */
    method Ready(i: Worker)
      requires Ok() && i in starting
      modifies this
      ensures Ok() && CanSend(old(View()), Message.Ready(i)) && View() == Handled(plan, old(View()), Message.Ready(i))
      ensures forall n: nat | IsBatch(plan.maxBatch, |plan.order|, |old(workers)|, n) :: TakesBatch(plan, old(View()), Message.Ready(i), n, log)
      ensures Undispatched(View()) + |workers| < old(Undispatched(View()) + |workers|)
    {
      hide Valid, Scheduled, Undispatched, TakesBatch, IsBatch;
      WorkersKnown(plan, View());
      HandledOk(plan, View(), Message.Ready(i));
      forall n: nat | IsBatch(plan.maxBatch, |plan.order|, |workers|, n) { BatchTaken(plan, View(), Message.Ready(i), n); }
      starting := starting - {i};
      Schedule(i);
    }

    /** The message "tests_finished" of a busy worker. */
    method TestsFinished(i: Worker) returns (ghost order: seq<Key>)
      requires Ok() && i in running
      modifies this
      ensures Ok() && CanSend(old(View()), Finished(i, order)) && View() == Handled(plan, old(View()), Finished(i, order))
      ensures forall n: nat | IsBatch(plan.maxBatch, |plan.order|, |old(workers)|, n) :: TakesBatch(plan, old(View()), Finished(i, order), n, log)
      ensures Undispatched(View()) + |workers| < old(Undispatched(View()) + |workers|)
    {
      hide Valid, Scheduled, Undispatched, ReleasedKeys, KeysOfWorker, TakesBatch, IsBatch;
      WorkersKnown(plan, View());
      ghost var s0 := View();
      running := running - {i};
      testsInProgress := testsInProgress - 1;
      order := Release(i);
      HandledOk(plan, s0, Finished(i, order));
      forall n: nat | IsBatch(plan.maxBatch, |plan.order|, |s0.workers|, n) { BatchTaken(plan, s0, Finished(i, order), n); }
      Schedule(i);
    }

    /** run_all_tests_parallel with its workers: their messages come in any order.  The loop ends, with every test
        dispatched exactly once when no name is false; a false name may leave tests and no worker (stranded):
        stream_select, without a stream to wait for, then throws. */
    method Run() returns (stranded: bool, ghost msgs: seq<Message>)
      requires Ok()
      modifies this
      ensures Ok() && CanRun(plan, old(View()), msgs) && View() == After(plan, old(View()), msgs)
      ensures AllTruthy(plan.all) ==> !stranded
      ensures stranded <==> workers == {} && (testFiles != [] || sequentialTests != [])
      ensures !stranded ==> testFiles == [] && sequentialTests == [] && testsInProgress == 0
      ensures !stranded ==> (multiset(log) == plan.all <==> AllTruthy(plan.all))
      ensures AllTruthy(plan.all) ==> multiset(log) == plan.all
      ensures AllTruthy(plan.all) ==> forall k | k != ALL :: With(conflicts, log, Solely(k)) == With(conflicts, plan.order, Solely(k))
      ensures AllTruthy(plan.all) && plan.last != [] ==> With(conflicts, log, Having(ALL)) == Reversed(plan.last)
    {
      hide AllTruthy, Conserved, Alone, ConflictsOk, Ordered, With, Reversed, Handled, CanSend, Undispatched;
      ghost var s0 := View();
      msgs := [];
      while testFiles != [] || sequentialTests != [] || testsInProgress > 0
        invariant Ok() && CanRun(plan, s0, msgs) && View() == After(plan, s0, msgs)
        decreases Undispatched(View()) + |workers|
      {
        if workers == {} {
          return true, msgs;
        }
        var i :| i in workers;
        ghost var m;
        if i in starting {
          m := Message.Ready(i);
          Ready(i);
        } else {
          ghost var order := TestsFinished(i);
          m := Finished(i, order);
        }
        RunMore(plan, s0, msgs, m);
        msgs := msgs + [m];
      }
      stranded := false;
      AtExit(plan, View());
    }

    /** The preparation: sequential tests are set apart, the others reversed (or shuffled), workers spawned. */
    constructor (tests: seq<Test>, conflictsOf: map<Test, seq<Key>>, wanted: int, valgrind: bool, shuffle: bool, shuffled: seq<Test>)
      requires shuffle ==> multiset(shuffled) == multiset(Parallel(tests, conflictsOf))
      ensures Ok() && Proper(plan) && View() == Start(plan, |workers|) && |workers| == Max(1, Min(wanted, |plan.order|))
      ensures plan.all == multiset(tests) && plan.conflicts == conflictsOf && plan.last == Sequential(tests, conflictsOf)
      ensures plan.maxBatch == if valgrind then 1 else if shuffle then 4 else 32
      ensures plan.order == if shuffle then Reversed(shuffled) else Parallel(tests, conflictsOf)
    {
      hide Valid, Parallel, Sequential, Reversed, HasKey;
      var parallel, last := Part(tests, conflictsOf);
      var queue := if shuffle then shuffled else Reversed(parallel);
      var count := Max(1, Min(wanted, |queue|));
      conflicts, totalFileCount, maxBatchSize := conflictsOf, |queue|, if valgrind then 1 else if shuffle then 4 else 32;
      testFiles, sequentialTests, active, waiting, testsInProgress := queue, last, map[], map[], 0;
      var ids := Spawn(count);
      workers, starting := ids, ids;
      running, log, lost := map[], [], multiset{};
      plan := Plan(conflictsOf, multiset(tests), Reversed(queue), last, if valgrind then 1 else if shuffle then 4 else 32);
      new;
      ReversedSame(parallel);
      ReversedSame(queue);
      PartsAre(tests, conflictsOf, queue, Parallel(tests, conflictsOf));
      InReversed(queue);
      ReversedTwice(queue);
      ReversedTwice(Parallel(tests, conflictsOf));
      StartIsValid(plan, count);
    }
  }

  lemma WorkersKnown(p: Plan, s: State)
    requires Valid(p, s)
    ensures forall i | i in s.starting || i in s.running :: i in s.workers
    ensures s.workers == {} ==> s.starting == {} && s.running == map[]
  {
    hide Conserved, Alone, Ordered, ConflictsOk;
  }

  lemma NothingWaits(s: State, key: Key)
    requires key !in s.waiting
    ensures ReleasedKey(s, key) == s.(active := s.active - {key})
  {
    ReversedFirst<Test>([]);
    assert s.waiting - {key} == s.waiting && s.queue + [] == s.queue;
  }

  lemma Stacked(q: seq<Test>, t: Test, moved: seq<Test>)
    ensures q + Reversed(moved) + [t] == q + Reversed([t] + moved)
  {
    hide Reversed;
    ReversedFirst([t] + moved);
    assert ([t] + moved)[1..] == moved;
  }

  lemma RequeueStep(tests: seq<Test>, moved: seq<Test>)
    requires tests != [] && Truthy(tests[|tests| - 1])
    ensures var init, t := tests[..|tests| - 1], tests[|tests| - 1];
      tests + moved == init + ([t] + moved) && TruthyTail(tests) + moved == TruthyTail(init) + ([t] + moved)
  {
    hide Truthy, TruthyTail;
    TailStep(tests);
    Shift(TruthyTail(tests[..|tests| - 1]), tests[|tests| - 1], moved);
    Shift(tests[..|tests| - 1], tests[|tests| - 1], moved);
    LastApart(tests);
  }

  lemma TailStep(tests: seq<Test>)
    requires tests != [] && Truthy(tests[|tests| - 1])
    ensures TruthyTail(tests) == TruthyTail(tests[..|tests| - 1]) + [tests[|tests| - 1]]
  {
  }

  lemma LastApart(tests: seq<Test>)
    requires tests != []
    ensures tests == tests[..|tests| - 1] + [tests[|tests| - 1]]
  {
  }

  lemma Shift(x: seq<Test>, t: Test, m: seq<Test>)
    ensures (x + [t]) + m == x + ([t] + m)
  {
  }

  /** The loop that sets the tests that conflict with "all" apart. */
  method Part(tests: seq<Test>, conflicts: map<Test, seq<Key>>) returns (parallel: seq<Test>, last: seq<Test>)
    ensures parallel == Parallel(tests, conflicts) && last == Sequential(tests, conflicts)
  {
    parallel, last := [], [];
    for n := 0 to |tests|
      invariant parallel == Parallel(tests[..n], conflicts) && last == Sequential(tests[..n], conflicts)
    {
      PartStep(tests, n, conflicts);
      if ALL in KeysOf(conflicts, tests[n]) {
        last := last + [tests[n]];
      } else {
        parallel := parallel + [tests[n]];
      }
    }
    assert tests[..|tests|] == tests;
  }

  /** The workers 1 to count. */
  method Spawn(count: nat) returns (ids: set<Worker>)
    ensures ids == Workers(count)
  {
    ids := {};
    for i := 0 to count
      invariant ids == Workers(i)
    {
      ids := ids + {i + 1};
    }
  }

}
