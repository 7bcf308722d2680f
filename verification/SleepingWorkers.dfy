/** How idle workers block on the epoch counter and producers wake them (enqueue_global and
    worker_loop of src/skynet.cpp).  One atomic operation per step, any number of producers, a fixed
    set of workers 0..n-1; a wait compares and blocks atomically and may wake up spuriously.

    try_dequeue is the ticket protocol of module ImplicitQueue: a worker tests whether there are more
    elements than losing tickets, draws a ticket, and holds a losing one for a while before it gives it
    back.  With `racy` false the losing tickets of others are not seen, as if try_dequeue were atomic. */
module SleepingWorkers {
  import opened Counting

  datatype Producer =
    | Enqueue              // put a queue into the global queue
    | Raise                // raise global_queue_count_
    | Look(queued: int)    // compare with sleeping_workers_
    | Advance              // raise global_queue_epoch_
    | Notify               // notify_one

  datatype Worker =
    | Top                  // first attempt to dequeue
    | TopDraw              // the test has passed, the ticket is not yet drawn
    | TopLost              // a losing ticket is held
    | Took                 // dequeued; global_queue_count_ not yet lowered
    | Busy                 // dispatching
    | ReadEpoch
    | RaiseSleepers(e: nat)
    | LastTry(e: nat)      // second attempt, already counted as sleeping
    | LastDraw(e: nat)
    | LastLost(e: nat)
    | TookLate             // dequeued in the second attempt; count not yet lowered
    | Wait(e: nat)         // about to compare the epoch with e
    | Blocked(e: nat)
    | LowerSleepers(has: bool)

  datatype State = State(
    producers: map<nat, Producer>,
    workers: map<nat, Worker>,
    items: nat,            // global_queue_
    count: int,            // global_queue_count_
    sleeping: int,         // sleeping_workers_
    epoch: nat             // global_queue_epoch_
  )

  ghost predicate Initial(s: State, n: nat) {
    && s.producers == map[]
    && (forall w: nat :: w in s.workers <==> w < n)
    && (forall w :: w in s.workers ==> s.workers[w] == Top)
    && s.items == 0 && s.count == 0 && s.sleeping == 0 && s.epoch == 0
  }

  /** notify_one by producer `p` reaches worker `w`, which will compare the epoch again. */
  ghost predicate Wakes(s: State, p: nat, w: nat, s': State)
    requires w in s.workers && s.workers[w].Blocked?
  {
    s' == s.(producers := s.producers - {p}, workers := s.workers[w := Wait(s.workers[w].e)])
  }

  /** Producer `p` executes its next operation; one that is done or skips the notify is removed. */
  ghost predicate ProducerStep(s: State, p: nat, s': State) {
    if p !in s.producers then s' == s.(producers := s.producers[p := Enqueue])
    else
      match s.producers[p]
      case Enqueue => s' == s.(items := s.items + 1, producers := s.producers[p := Raise])
      case Raise => s' == s.(count := s.count + 1, producers := s.producers[p := Look(s.count + 1)])
      case Look(queued) =>
        s' == s.(producers := if s.sleeping > 0 && queued <= s.sleeping
                              then s.producers[p := Advance] else s.producers - {p})
      case Advance => s' == s.(epoch := s.epoch + 1, producers := s.producers[p := Notify])
      case Notify =>
        // wakes one blocked worker, if there is one
        || (exists w :: w in s.workers && s.workers[w].Blocked? && Wakes(s, p, w, s'))
        || ((forall w :: w in s.workers ==> !s.workers[w].Blocked?) && s' == s.(producers := s.producers - {p}))
  }

  predicate Lost(w: Worker) { w.TopLost? || w.LastLost? }

  /** An element is left for worker `w` after those that the losing tickets of others stand for. */
  ghost predicate Available(s: State, w: nat, racy: bool) {
    s.items > if racy then Count(s.workers - {w}, Lost) else 0
  }

  /** Worker `w` executes its next operation; `spin` chooses to try again rather than to sleep. */
  ghost predicate WorkerStep(s: State, w: nat, spin: bool, racy: bool, s': State)
    requires w in s.workers
  {
    var again := if spin then Top else ReadEpoch;
    match s.workers[w]
    case Top => s' == s.(workers := s.workers[w := if Available(s, w, racy) then TopDraw else again])
    case TopDraw =>
      if Available(s, w, racy) then s' == s.(items := s.items - 1, workers := s.workers[w := Took])
      else s' == s.(workers := s.workers[w := TopLost])
    case TopLost => s' == s.(workers := s.workers[w := again])
    case Took => s' == s.(count := s.count - 1, workers := s.workers[w := Busy])
    case Busy => s' == s.(workers := s.workers[w := Top])
    case ReadEpoch => s' == s.(workers := s.workers[w := RaiseSleepers(s.epoch)])
    case RaiseSleepers(e) => s' == s.(sleeping := s.sleeping + 1, workers := s.workers[w := LastTry(e)])
    case LastTry(e) =>
      s' == s.(workers := s.workers[w := if Available(s, w, racy) then LastDraw(e) else Wait(e)])
    case LastDraw(e) =>
      if Available(s, w, racy) then s' == s.(items := s.items - 1, workers := s.workers[w := TookLate])
      else s' == s.(workers := s.workers[w := LastLost(e)])
    case LastLost(e) => s' == s.(workers := s.workers[w := Wait(e)])
    case TookLate => s' == s.(count := s.count - 1, workers := s.workers[w := LowerSleepers(true)])
    case Wait(e) =>
      s' == s.(workers := s.workers[w := if s.epoch != e then LowerSleepers(false) else Blocked(e)])
    case Blocked(e) => s' == s.(workers := s.workers[w := Wait(e)])   // spurious wakeup
    case LowerSleepers(has) =>
      s' == s.(sleeping := s.sleeping - 1, workers := s.workers[w := if has then Busy else Top])
  }

  ghost predicate Next(s: State, racy: bool, s': State) {
    || (exists p: nat :: ProducerStep(s, p, s'))
    || (exists w: nat, spin: bool :: w in s.workers && WorkerStep(s, w, spin, racy, s'))
  }

  ghost predicate IsRun(n: nat, racy: bool, run: seq<State>) {
    && |run| > 0
    && Initial(run[0], n)
    && forall i :: 0 <= i < |run| - 1 ==> Linked(run, racy, i)
  }

  ghost predicate Linked(run: seq<State>, racy: bool, i: nat)
    requires i + 1 < |run|
  {
    Next(run[i], racy, run[i + 1])
  }

  // ----- The invariant -------------------------------------------------------------------------

  predicate OwesRaise(p: Producer) { p.Raise? }
  predicate OwesLower(w: Worker) { w.Took? || w.TookLate? }
  predicate Awaiting(w: Worker) { w.LastLost? || w.Wait? }
  predicate Parked(w: Worker) { Awaiting(w) || w.Blocked? }
  predicate Asleep(w: Worker) {
    w.LastTry? || w.LastDraw? || w.TookLate? || Parked(w) || w.LowerSleepers?
  }
  predicate HasEpoch(w: Worker) { w.RaiseSleepers? || w.LastTry? || w.LastDraw? || Parked(w) }

  ghost predicate AllParked(s: State) {
    forall w :: w in s.workers ==> Parked(s.workers[w])
  }

  /** Every parked worker has read an epoch that is already over. */
  ghost predicate EpochOver(s: State) {
    forall w :: w in s.workers && Parked(s.workers[w]) ==> s.workers[w].e != s.epoch
  }

  /** A wakeup is on its way to a pool that is entirely parked. */
  ghost predicate SignalPending(s: State, n: nat) {
    || (exists p :: p in s.producers && Signalling(s, n, s.producers[p]))
    || (exists w :: w in s.workers && Awaiting(s.workers[w]) && s.workers[w].e != s.epoch)
  }

  ghost predicate Signalling(s: State, n: nat, p: Producer) {
    (p.Look? && p.queued <= n) || p.Advance? || (p.Notify? && EpochOver(s))
  }

  ghost predicate Inv(s: State, n: nat) {
    && (forall w: nat :: w in s.workers <==> w < n)
    && s.count == s.items + Count(s.workers, OwesLower) - Count(s.producers, OwesRaise)
    && s.sleeping == Count(s.workers, Asleep)
    && (forall w :: w in s.workers && HasEpoch(s.workers[w]) ==> s.workers[w].e <= s.epoch)
    && (AllParked(s) && s.count > 0 ==> SignalPending(s, n))
  }

  // ----- Preservation ----------------------------------------------------------------------------

  lemma AllAsleep(s: State, n: nat)
    requires (forall w: nat :: w in s.workers <==> w < n) && AllParked(s)
    ensures Count(s.workers, Asleep) == n && Count(s.workers, OwesLower) == 0
  {
    assert Where(s.workers, Asleep) == Range(n);
    assert Where(s.workers, OwesLower) == {};
  }

  lemma WorkerCounts(s: State, n: nat, w: nat, spin: bool, s': State)
    requires Inv(s, n) && w in s.workers && WorkerStep(s, w, spin, false, s')
    ensures s'.workers.Keys == s.workers.Keys && s'.producers == s.producers && s'.epoch == s.epoch
    ensures s'.count == s'.items + Count(s'.workers, OwesLower) - Count(s'.producers, OwesRaise)
    ensures s'.sleeping == Count(s'.workers, Asleep)
  {
    LowerCounts(s, w, spin, s');
    SleepCounts(s, w, spin, s');
  }

  lemma SleepCounts(s: State, w: nat, spin: bool, s': State)
    requires w in s.workers && WorkerStep(s, w, spin, false, s')
    ensures s'.sleeping - Count(s'.workers, Asleep) == s.sleeping - Count(s.workers, Asleep)
  {
    CountPut(s.workers, w, s'.workers[w], Asleep);
  }

  lemma LowerCounts(s: State, w: nat, spin: bool, s': State)
    requires w in s.workers && WorkerStep(s, w, spin, false, s')
    ensures s'.count - s'.items - Count(s'.workers, OwesLower)
            == s.count - s.items - Count(s.workers, OwesLower)
  {
    CountPut(s.workers, w, s'.workers[w], OwesLower);
  }

  /** The last worker parks only after finding the queue empty, when the count cannot be positive;
      any other step of a parked worker keeps the pending signal. */
  lemma WorkerSignals(s: State, n: nat, w: nat, spin: bool, s': State)
    requires Inv(s, n) && w in s.workers && WorkerStep(s, w, spin, false, s')
    requires AllParked(s') && s'.count > 0
    ensures SignalPending(s', n)
  {
    WorkerCounts(s, n, w, spin, s');
    AllAsleep(s', n);
    if Parked(s.workers[w]) {
      assert AllParked(s) by {
        forall v | v in s.workers ensures Parked(s.workers[v]) {
          if v != w { assert s'.workers[v] == s.workers[v]; }
        }
      }
      KeepSignal(s, n, w, s');
    }
  }

  /** Worker `w` blocks on the current epoch or wakes up spuriously. */
  lemma KeepSignal(s: State, n: nat, w: nat, s': State)
    requires w in s.workers && Parked(s.workers[w]) && SignalPending(s, n)
    requires w in s'.workers && Parked(s'.workers[w]) && s' == s.(workers := s.workers[w := s'.workers[w]])
    requires s'.workers[w].e == s.workers[w].e && (s'.workers[w].Blocked? ==> s.workers[w].e == s.epoch)
    ensures SignalPending(s', n)
  {
    if p :| p in s.producers && Signalling(s, n, s.producers[p]) {
      assert EpochOver(s) ==> EpochOver(s');
      assert p in s'.producers && Signalling(s', n, s'.producers[p]);
    } else {
      var v :| v in s.workers && Awaiting(s.workers[v]) && s.workers[v].e != s.epoch;
      assert v in s'.workers && Awaiting(s'.workers[v]) && s'.workers[v].e != s'.epoch;
    }
  }

  lemma WorkerKeeps(s: State, n: nat, w: nat, spin: bool, s': State)
    requires n >= 1 && Inv(s, n) && w in s.workers && WorkerStep(s, w, spin, false, s')
    ensures Inv(s', n)
  {
    WorkerCounts(s, n, w, spin, s');
    WorkerEpochs(s, n, w, spin, s');
    if AllParked(s') && s'.count > 0 {
      WorkerSignals(s, n, w, spin, s');
    }
  }

  lemma WorkerEpochs(s: State, n: nat, w: nat, spin: bool, s': State)
    requires Inv(s, n) && w in s.workers && WorkerStep(s, w, spin, false, s')
    ensures forall v :: v in s'.workers && HasEpoch(s'.workers[v]) ==> s'.workers[v].e <= s'.epoch
  {
    forall v | v in s'.workers && HasEpoch(s'.workers[v])
      ensures s'.workers[v].e <= s'.epoch
    {
      if v != w {
        assert s'.workers[v] == s.workers[v];
      } else {
        assert HasEpoch(s.workers[w]) ==> s.workers[w].e <= s.epoch;
      }
    }
  }

  lemma ProducerCounts(s: State, n: nat, p: nat, s': State)
    requires Inv(s, n) && ProducerStep(s, p, s') && s'.workers == s.workers
    ensures s'.count == s'.items + Count(s'.workers, OwesLower) - Count(s'.producers, OwesRaise)
  {
    if p in s'.producers {
      CountPut(s.producers, p, s'.producers[p], OwesRaise);
      assert s'.producers == s.producers[p := s'.producers[p]];
    } else {
      CountDrop(s.producers, p, OwesRaise);
    }
  }

  /** The producer that brings the count from 0 to 1 will find all workers asleep. */
  lemma ProducerSignals(s: State, n: nat, p: nat, s': State)
    requires n >= 1 && Inv(s, n) && ProducerStep(s, p, s') && s'.workers == s.workers
    requires AllParked(s) && s'.count > 0
    ensures SignalPending(s', n)
  {
    AllAsleep(s, n);
    if p in s'.producers && Signalling(s', n, s'.producers[p]) {
    } else if s.count > 0 {
      OthersSignal(s, n, p, s');
    }
  }

  /** Producer `p` is not the one that will signal. */
  lemma OthersSignal(s: State, n: nat, p: nat, s': State)
    requires n >= 1 && Inv(s, n) && ProducerStep(s, p, s') && s'.workers == s.workers
    requires AllParked(s) && s.count > 0 && s.sleeping == n
    requires p !in s'.producers || !Signalling(s', n, s'.producers[p])
    ensures SignalPending(s', n)
  {
    assert EpochOver(s) ==> EpochOver(s');
    assert 0 in s.workers && Parked(s.workers[0]);
    if v :| v in s.workers && Awaiting(s.workers[v]) && s.workers[v].e != s.epoch {
      assert v in s'.workers && Awaiting(s'.workers[v]) && s'.workers[v].e != s'.epoch;
    } else {
      // had p's notify reached nobody, worker 0 would be about to compare an old epoch
      var r :| r in s.producers && Signalling(s, n, s.producers[r]);
      assert r != p;
      assert r in s'.producers && Signalling(s', n, s'.producers[r]);
    }
  }

  lemma WakeKeeps(s: State, n: nat, p: nat, w: nat, s': State)
    requires n >= 1 && Inv(s, n) && p in s.producers && s.producers[p].Notify?
    requires w in s.workers && s.workers[w].Blocked? && Wakes(s, p, w, s')
    ensures Inv(s', n)
  {
    CountDrop(s.producers, p, OwesRaise);
    CountPut(s.workers, w, s'.workers[w], OwesLower);
    CountPut(s.workers, w, s'.workers[w], Asleep);
    assert forall v :: v in s'.workers && v != w ==> s'.workers[v] == s.workers[v];
    if AllParked(s') && s'.count > 0 {
      WakeSignals(s, n, p, w, s');
    }
  }

  /** The woken worker itself carries the signal, unless another one does. */
  lemma WakeSignals(s: State, n: nat, p: nat, w: nat, s': State)
    requires n >= 1 && Inv(s, n) && p in s.producers && s.producers[p].Notify? && s.count > 0
    requires w in s.workers && s.workers[w].Blocked? && Wakes(s, p, w, s') && AllParked(s')
    ensures SignalPending(s', n)
  {
    assert AllParked(s) by {
      forall v | v in s.workers ensures Parked(s.workers[v]) {
        if v != w { assert s'.workers[v] == s.workers[v]; }
      }
    }
    assert EpochOver(s) ==> EpochOver(s');
    if s.workers[w].e != s.epoch {
      assert s'.workers[w].Wait? && s'.workers[w].e != s'.epoch;
    } else if v :| v in s.workers && Awaiting(s.workers[v]) && s.workers[v].e != s.epoch {
      assert v in s'.workers && s'.workers[v] == s.workers[v];
    } else {
      var r :| r in s.producers && Signalling(s, n, s.producers[r]);
      assert r != p;
      assert r in s'.producers && Signalling(s', n, s'.producers[r]);
    }
  }

  lemma ProducerKeeps(s: State, n: nat, p: nat, s': State)
    requires n >= 1 && Inv(s, n) && ProducerStep(s, p, s')
    ensures Inv(s', n)
  {
    if s'.workers == s.workers {
      ProducerCounts(s, n, p, s');
      if AllParked(s') && s'.count > 0 {
        ProducerSignals(s, n, p, s');
      }
    } else {
      var w :| w in s.workers && s.workers[w].Blocked? && Wakes(s, p, w, s');
      WakeKeeps(s, n, p, w, s');
    }
  }

  lemma InitialInv(s: State, n: nat)
    requires Initial(s, n)
    ensures Inv(s, n)
  {
    assert Where(s.workers, OwesLower) == {};
    assert Where(s.workers, Asleep) == {};
    assert Where(s.producers, OwesRaise) == {};
  }

  /** A single worker meets nobody's losing ticket. */
  lemma AloneIsAtomic(s: State, n: nat, w: nat, spin: bool, racy: bool, s': State)
    requires Inv(s, n) && w in s.workers && WorkerStep(s, w, spin, racy, s') && (racy ==> n == 1)
    ensures WorkerStep(s, w, spin, false, s')
  {
    if racy {
      assert Where(s.workers - {w}, Lost) == {};
    }
  }

  lemma {:induction false} RunInv(n: nat, racy: bool, run: seq<State>, i: nat)
    requires n >= 1 && IsRun(n, racy, run) && i < |run| && (racy ==> n == 1)
    ensures Inv(run[i], n)
  {
    if i == 0 {
      InitialInv(run[0], n);
    } else {
      RunInv(n, racy, run, i - 1);
      assert Linked(run, racy, i - 1);
      var s, s' := run[i - 1], run[i];
      if p: nat :| ProducerStep(s, p, s') {
        ProducerKeeps(s, n, p, s');
      } else {
        var w: nat, spin: bool :| w in s.workers && WorkerStep(s, w, spin, racy, s');
        AloneIsAtomic(s, n, w, spin, racy, s');
        WorkerKeeps(s, n, w, spin, s');
      }
    }
  }

  /** The global queue is non-empty, every worker is blocked on the epoch, and no producer has anything
      left to do after its enqueue. */
  ghost predicate SleptThrough(s: State) {
    && s.items > 0
    && (forall w :: w in s.workers ==> s.workers[w].Blocked?)
    && (forall p :: p in s.producers ==> s.producers[p].Enqueue?)
  }

  /** That never happens if try_dequeue is atomic, or if there is only one worker, although a producer
      skips the notify whenever it counts more queues than sleepers. */
  lemma WorkIsNeverSleptThrough(n: nat, racy: bool, run: seq<State>, i: nat)
    requires n >= 1 && IsRun(n, racy, run) && i < |run| && (racy ==> n == 1)
    ensures !SleptThrough(run[i])
  {
    RunInv(n, racy, run, i);
    var s := run[i];
    if SleptThrough(s) {
      assert Where(s.producers, OwesRaise) == {};
      AllAsleep(s, n);
    }
  }
}
