/** What the scheduler guarantees in every state of every run. */
module SchedulerTheorems {
  import opened Counting
  import opened Numbers
  import opened Scheduler
  import opened SchedulerInvariant
  import opened SchedulerSteps

  lemma InitialInv()
    ensures Inv(INITIAL)
  {
    var threads := INITIAL.threads;
    assert Where(threads, Carrying) == {};
    assert Where(threads, Window) == {};
    assert Where(threads, Inside) == {};
    assert Where(threads, OwesSub) == {};
    assert Where(threads, OwesAdd) == {};
  }

  lemma NextKeeps(s: State, s': State)
    requires Inv(s) && Successor(s, s')
    ensures Inv(s') && (s.q.quiet ==> s'.q.quiet)
  {
    var t: nat, c: Choice :| Step(s, t, c, s');
    StepKeeps(s, t, c, s');
  }

  lemma {:induction false} RunInv(run: seq<State>, i: nat)
    requires IsRun(run) && i < |run|
    ensures Inv(run[i])
  {
    if i == 0 {
      InitialInv();
    } else {
      RunInv(run, i - 1);
      assert Linked(run, i - 1);
      NextKeeps(run[i - 1], run[i]);
    }
  }

  predicate InHandler(s: State, t: nat) {
    t in s.threads && s.threads[t].Working? && s.threads[t].work.Handler?
  }

  predicate InDestroy(s: State, t: nat) {
    t in s.threads && s.threads[t].Destroying? && s.threads[t].destroy.OnDestroy?
  }

  /** No lost wakeup.  A live, initialised queue with mail is scheduled, being dispatched, or some
      thread is still on its way to try to schedule it. */
  lemma NoLostWakeup(run: seq<State>, i: nat)
    requires IsRun(run) && i < |run|
    requires run[i].q.initialized && !run[i].q.releasing && run[i].q.mail > 0
    ensures run[i].q.schedule != 0 || exists t :: t in run[i].threads && WillSchedule(run[i].threads[t])
  {
    RunInv(run, i);
  }

  /** When every thread has finished its operation, a live initialised queue with mail sits in the
      global queue exactly once and mailbox_count is exact, whatever wrapped around on the way. */
  lemma Quiescent(run: seq<State>, i: nat)
    requires IsRun(run) && i < |run| && run[i].threads == map[]
    requires run[i].q.initialized && !run[i].q.releasing
    ensures run[i].q.count == run[i].q.mail
    ensures run[i].q.schedule != 2 && run[i].q.tokens == Unit(run[i].q.schedule == 1)
    ensures run[i].q.mail > 0 ==> run[i].q.schedule == 1 && run[i].q.tokens == 1
  {
    RunInv(run, i);
    var threads := run[i].threads;
    assert Where(threads, Carrying) == {};
    assert Where(threads, Window) == {};
    assert Where(threads, OwesSub) == {};
    assert Where(threads, OwesAdd) == {};
    assert run[i].q.mail % UINT64_SPAN == run[i].q.mail;
  }

  /** Handler exclusion: at most one worker is inside `on_message`. */
  lemma OneHandler(run: seq<State>, i: nat, t: nat, u: nat)
    requires IsRun(run) && i < |run| && InHandler(run[i], t) && InHandler(run[i], u)
    ensures t == u
  {
    RunInv(run, i);
    if t != u {
      CountTwo(run[i].threads, t, u, Window);
    }
  }

  /** Until kill overwrites the schedule state, that state is 1 exactly when the queue has its single
      place in the global queue (there, about to be put there, or just taken out), and 2 exactly
      when one worker is in the dispatch window. */
  lemma OneToken(run: seq<State>, i: nat)
    requires IsRun(run) && i < |run| && !run[i].q.overwritten
    ensures run[i].q.tokens + Count(run[i].threads, Carrying) == Unit(run[i].q.schedule == 1)
    ensures Count(run[i].threads, Window) == Unit(run[i].q.schedule == 2)
  {
    RunInv(run, i);
  }

  lemma {:induction false} QuietStays(run: seq<State>, i: nat, j: nat)
    requires IsRun(run) && i <= j < |run| && run[i].q.quiet
    ensures run[j].q.quiet
    decreases j
  {
    if i < j {
      QuietStays(run, i, j - 1);
      RunInv(run, j - 1);
      assert Linked(run, j - 1);
      NextKeeps(run[j - 1], run[j]);
    }
  }

  /** Once kill has read dispatch_depth_ as 0, no handler is running and none ever starts again,
      although kill later overwrites the schedule state with 0. */
  lemma NoHandlerAfterKill(run: seq<State>, i: nat, t: nat, c: Choice, j: nat, u: nat)
    requires IsRun(run) && i < j < |run|
    requires t in run[i].threads && run[i].threads[t] == Killing(Depth) && run[i].q.depth == 0
    requires Step(run[i], t, c, run[i + 1])
    ensures !InHandler(run[j], u)
  {
    QuietStays(run, i + 1, j);
    RunInv(run, j);
  }

  /** `on_destroy` is entered at most once, whichever of the four paths gets there first. */
  lemma DestroyedOnce(run: seq<State>, i: nat)
    requires IsRun(run) && i < |run|
    ensures run[i].q.destroyRuns <= 1 && (run[i].q.destroyRuns == 1 <==> run[i].q.destroyed)
  {
    RunInv(run, i);
  }

  /** `on_destroy` runs while a handler runs only if it was reached from the end of a dispatch whose
      last decrement of dispatch_depth_ happened before the queue was released. */
  lemma OverlapOnlyFromEarlyTail(run: seq<State>, i: nat, t: nat, u: nat)
    requires IsRun(run) && i < |run| && InDestroy(run[i], t) && InHandler(run[i], u)
    ensures run[i].threads[t].w == ByTail(true)
  {
    RunInv(run, i);
    var s := run[i];
    assert PointOk(s.q, t == SPAWNER, s.threads[t]) && PointOk(s.q, u == SPAWNER, s.threads[u]);
    CountMember(s.threads, u, Window);
  }
}
