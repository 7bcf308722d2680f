/** What becomes of the queues put into the global queue, in every run, with losing tickets or without:
    each is still there, in the hand of one worker, or was dispatched. */
module SleepingAccount {
  import opened Counting
  import opened SleepingWorkers

  /** Took a queue and has not begun to dispatch it. */
  predicate InHand(w: Worker) {
    w.Took? || w.TookLate? || w == LowerSleepers(true)
  }

  /** The producers whose enqueue lies between two states, and the workers that began to dispatch. */
  ghost function Put(s: State, s': State): set<nat> {
    set p | p in s.producers && s.producers[p].Enqueue? && !(p in s'.producers && s'.producers[p].Enqueue?)
  }

  ghost function Begun(s: State, s': State): set<nat> {
    set w | w in s.workers && w in s'.workers && !s.workers[w].Busy? && s'.workers[w].Busy?
  }

  ghost function Enqueued(run: seq<State>, i: nat): nat
    requires i < |run|
  {
    if i == 0 then 0 else Enqueued(run, i - 1) + |Put(run[i - 1], run[i])|
  }

  ghost function Dispatched(run: seq<State>, i: nat): nat
    requires i < |run|
  {
    if i == 0 then 0 else Dispatched(run, i - 1) + |Begun(run[i - 1], run[i])|
  }

  ghost predicate Balanced(s: State, s': State) {
    |Put(s, s')| + s.items + Count(s.workers, InHand)
    == s'.items + Count(s'.workers, InHand) + |Begun(s, s')|
  }

  lemma WorkerBalanced(s: State, w: nat, spin: bool, racy: bool, s': State)
    requires w in s.workers && WorkerStep(s, w, spin, racy, s')
    ensures Balanced(s, s')
  {
    var pc := s'.workers[w];
    assert s'.workers == s.workers[w := pc] && s'.producers == s.producers;
    CountPut(s.workers, w, pc, InHand);
    assert Put(s, s') == {};
    assert Begun(s, s') == if !s.workers[w].Busy? && pc.Busy? then {w} else {};
  }

  lemma ProducerBalanced(s: State, p: nat, s': State)
    requires ProducerStep(s, p, s')
    ensures Balanced(s, s')
  {
    assert Put(s, s') == if p in s.producers && s.producers[p].Enqueue? then {p} else {};
    if s'.workers == s.workers {
      assert Begun(s, s') == {};
    } else {
      var w :| w in s.workers && s.workers[w].Blocked? && Wakes(s, p, w, s');
      CountPut(s.workers, w, s'.workers[w], InHand);
      assert Begun(s, s') == {};
    }
  }

  lemma NextBalanced(s: State, racy: bool, s': State)
    requires Next(s, racy, s')
    ensures Balanced(s, s')
  {
    if p: nat :| ProducerStep(s, p, s') {
      ProducerBalanced(s, p, s');
    } else {
      var w: nat, spin: bool :| w in s.workers && WorkerStep(s, w, spin, racy, s');
      WorkerBalanced(s, w, spin, racy, s');
    }
  }

  /** No queue that was put in is lost, and none is dispatched twice. */
  lemma {:induction false} NothingLost(n: nat, racy: bool, run: seq<State>, i: nat)
    requires IsRun(n, racy, run) && i < |run|
    ensures Enqueued(run, i) == run[i].items + Count(run[i].workers, InHand) + Dispatched(run, i)
  {
    if i == 0 {
      assert Where(run[0].workers, InHand) == {};
    } else {
      NothingLost(n, racy, run, i - 1);
      assert Linked(run, racy, i - 1);
      NextBalanced(run[i - 1], racy, run[i]);
    }
  }

  // ----- The counters ---------------------------------------------------------------------------------

  ghost predicate Counted(s: State) {
    && s.count == s.items + Count(s.workers, OwesLower) - Count(s.producers, OwesRaise)
    && s.sleeping == Count(s.workers, Asleep)
  }

  lemma WorkerCounted(s: State, w: nat, spin: bool, racy: bool, s': State)
    requires Counted(s) && w in s.workers && WorkerStep(s, w, spin, racy, s')
    ensures Counted(s')
  {
    assert s'.workers == s.workers[w := s'.workers[w]];
    CountPut(s.workers, w, s'.workers[w], OwesLower);
    CountPut(s.workers, w, s'.workers[w], Asleep);
  }

  lemma ProducerCounted(s: State, p: nat, s': State)
    requires Counted(s) && ProducerStep(s, p, s')
    ensures Counted(s')
  {
    CountDrop(s.producers, p, OwesRaise);
    if p in s'.producers {
      CountPut(s.producers, p, s'.producers[p], OwesRaise);
    }
    if s'.workers != s.workers {
      var w :| w in s.workers && s.workers[w].Blocked? && Wakes(s, p, w, s');
      CountPut(s.workers, w, s'.workers[w], OwesLower);
      CountPut(s.workers, w, s'.workers[w], Asleep);
    }
  }

  lemma NextCounted(s: State, racy: bool, s': State)
    requires Counted(s) && Next(s, racy, s')
    ensures Counted(s')
  {
    if p: nat :| ProducerStep(s, p, s') {
      ProducerCounted(s, p, s');
    } else {
      var w: nat, spin: bool :| w in s.workers && WorkerStep(s, w, spin, racy, s');
      WorkerCounted(s, w, spin, racy, s');
    }
  }

  /** global_queue_count_ and sleeping_workers_ are off by exactly the pending changes, in every run. */
  lemma {:induction false} CountersHold(n: nat, racy: bool, run: seq<State>, i: nat)
    requires IsRun(n, racy, run) && i < |run|
    ensures Counted(run[i])
  {
    if i == 0 {
      InitialInv(run[0], n);
    } else {
      CountersHold(n, racy, run, i - 1);
      assert Linked(run, racy, i - 1);
      NextCounted(run[i - 1], racy, run[i]);
    }
  }
}
