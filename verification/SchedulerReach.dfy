/** What can be reached.  Runs of the scheduler in which every dequeue is one step and finds what there is
    are simulated by runs with the real mailbox, in which a single sub-queue is used and a dequeue runs
    alone. */
module SchedulerReach {
  import opened Wrappers
  import opened Scheduler
  import opened SchedulerSweeping
  import opened SubQueues
  import opened SchedulerMailbox

  /** A run of the scheduler with its real mailbox leads to `s`. */
  ghost predicate Reachable(s: State) {
    exists run: seq<Whole> :: IsWholeRun(run) && run[|run| - 1].s == s
  }

  ghost predicate Arrived(w: Whole) {
    exists run :: IsWholeRun(run) && run[|run| - 1] == w
  }

  lemma Arrives(w: Whole, w': Whole)
    requires Arrived(w) && WholeNext(w, w')
    ensures Arrived(w')
  {
    var run :| IsWholeRun(run) && run[|run| - 1] == w;
    var more := run + [w'];
    forall i | 0 <= i < |more| - 1
      ensures Follows(more, i)
    {
      if i < |run| - 1 {
        assert Follows(run, i);
      }
    }
    assert IsWholeRun(more);
  }

  lemma ArrivedKept(w: Whole)
    requires Arrived(w)
    ensures Kept(w)
  {
    var run :| IsWholeRun(run) && run[|run| - 1] == w;
    LastKept(run, w);
  }

  lemma LastKept(run: seq<Whole>, w: Whole)
    requires IsWholeRun(run) && run == run[..|run| - 1] + [w]
    ensures Kept(w)
  {
    var i := |run| - 1;
    assert run[i] == w;
    RunKept(run, i);
  }

  /** A sub-queue with `n` messages and nobody in it. */
  predicate Resting(b: Box, n: nat) {
    && b.consumers == map[] && b.overcommit == 0 && b.optimistic == b.head
    && b.tail == b.head + n && |b.slots| == b.tail
  }

  /** A run with one sub-queue leads to `s`, with nobody inside try_dequeue. */
  ghost predicate Simulated(s: State) {
    exists b :: Resting(b, s.q.mail) && Arrived(Whole(s, [b], map[]))
  }

  lemma InitialSimulated()
    ensures Simulated(INITIAL)
  {
    assert IsWholeRun([START]);
    assert Joins(START, Whole(INITIAL, [NO_MAIL], map[]));
    Arrives(START, Whole(INITIAL, [NO_MAIL], map[]));
    assert Resting(NO_MAIL, 0);
  }

  /** An operation of thread `t` inside try_dequeue. */
  lemma Looking(s: State, b: Box, t: nat, y: Try, b': Box)
    requires Arrived(Whole(s, [b], map[t := y])) && Protocol.Consume(b, t, b') && !TakesOut(b, t)
    requires y.at == Some(0) || (y.at.None? && 0 !in y.seen)
    ensures Arrived(Whole(s, [b'], map[t := After(y, 0, t in b'.consumers)]))
  {
    var w, w' := Whole(s, [b], map[t := y]), Whole(s, [b'], map[t := After(y, 0, t in b'.consumers)]);
    assert Looks(w, t, 0, b', w');
    Arrives(w, w');
  }

  /** Up to the test whether there are more messages than tickets. */
  lemma Reading(s: State, b: Box, n: nat, t: nat)
    requires Arrived(Whole(s, [b], map[])) && Resting(b, n) && Consuming(At(s.threads, t))
    ensures Arrived(Whole(s, [Protocol.Goto(b, t, Protocol.ReadOptimistic(b.tail, 0))],
                          map[t := Try(1, {}, Some(0))]))
  {
    var w := Whole(s, [b], map[t := Try(1, {}, None)]);
    assert Begins(Whole(s, [b], map[]), t, w);
    Arrives(Whole(s, [b], map[]), w);
    var b1 := Protocol.Goto(b, t, Protocol.ReadTail);
    Looking(s, b, t, Try(1, {}, None), b1);
    var b2 := Protocol.Goto(b, t, Protocol.ReadOvercommit(b.tail));
    Looking(s, b1, t, Try(1, {}, Some(0)), b2);
    Looking(s, b2, t, Try(1, {}, Some(0)), Protocol.Goto(b, t, Protocol.ReadOptimistic(b.tail, 0)));
  }

  /** The ticket is drawn; there are fewer tickets than messages. */
  lemma Drawing(s: State, b: Box, t: nat)
    requires Arrived(Whole(s, [b], map[])) && Resting(b, s.q.mail) && s.q.mail > 0
    requires Consuming(At(s.threads, t))
    ensures
      var b5 := Protocol.Goto(b.(optimistic := b.head + 1), t, Protocol.Decide(b.head, 0));
      Arrived(Whole(s, [b5], map[t := Try(1, {}, Some(0))]))
  {
    Reading(s, b, s.q.mail, t);
    var y := Try(1, {}, Some(0));
    var b4 := Protocol.Goto(b, t, Protocol.Draw(0));
    Looking(s, Protocol.Goto(b, t, Protocol.ReadOptimistic(b.tail, 0)), t, y, b4);
    var b5 := Protocol.Goto(b.(optimistic := b.head + 1), t, Protocol.Decide(b.head, 0));
    Looking(s, b4, t, y, b5);
  }

  /** A dequeue that runs alone succeeds when there is mail. */
  lemma Dequeues(s: State, b: Box, t: nat, s': State)
    requires Arrived(Whole(s, [b], map[])) && Resting(b, s.q.mail) && s.q.mail > 0
    requires Consuming(At(s.threads, t)) && Step(s, t, Go(false, 0), s') && s'.q.mail == s.q.mail - 1
    ensures Simulated(s')
  {
    Drawing(s, b, t);
    var y, k := Try(1, {}, Some(0)), b.head;
    var b5 := Protocol.Goto(b.(optimistic := k + 1), t, Protocol.Decide(k, 0));
    var b6 := Protocol.Goto(b5.(won := b.won + {k}), t, Protocol.Claim(k));
    Looking(s, b5, t, y, b6);
    var b7 := Protocol.Goto(b6.(head := k + 1), t, Protocol.Fetch(k));
    Looking(s, b6, t, y, b7);
    Fetches(s, b7, t, s');
  }

  lemma Fetches(s: State, b: Box, t: nat, s': State)
    requires Arrived(Whole(s, [b], map[t := Try(1, {}, Some(0))]))
    requires b.consumers.Keys == {t} && b.consumers[t].Fetch? && b.consumers[t].index < |b.slots|
    requires Resting(b.(consumers := map[]), s'.q.mail) && Step(s, t, Go(false, 0), s')
    ensures Simulated(s')
  {
    var k := b.consumers[t].index;
    var b' := b.(log := b.log + [(k, b.slots[k])], consumers := b.consumers - {t});
    var w := Whole(s, [b], map[t := Try(1, {}, Some(0))]);
    assert Looks(w, t, 0, b', Whole(s', [b'], map[]));
    Arrives(w, Whole(s', [b'], map[]));
    assert Resting(b', s'.q.mail);
  }

  /** It finds an empty sub-queue empty. */
  lemma Passes(s: State, b: Box, t: nat) returns (b': Box)
    requires Arrived(Whole(s, [b], map[])) && Resting(b, 0) && Consuming(At(s.threads, t))
    ensures Resting(b', 0) && Arrived(Whole(s, [b'], map[t := Try(1, {0}, None)]))
  {
    Reading(s, b, 0, t);
    var b3 := Protocol.Goto(b, t, Protocol.ReadOptimistic(b.tail, 0));
    b' := b3.(consumers := b3.consumers - {t});
    Looking(s, b3, t, Try(1, {}, Some(0)), b');
    assert After(Try(1, {}, Some(0)), 0, false) == Try(1, {0}, None);
  }

  /** And fails when there is none. */
  lemma FindsNothing(s: State, b: Box, t: nat, s': State)
    requires Arrived(Whole(s, [b], map[])) && Resting(b, 0)
    requires Consuming(At(s.threads, t)) && Step(s, t, Go(true, 0), s') && s'.q.mail == 0
    ensures Simulated(s')
  {
    var b' := Passes(s, b, t);
    var w := Whole(s, [b'], map[t := Try(1, {0}, None)]);
    assert Misses(w, t, Whole(s', [b'], map[]));
    Arrives(w, Whole(s', [b'], map[]));
  }

  lemma Acting(s: State, b: Box, t: nat, c: Choice, s': State)
    requires Arrived(Whole(s, [b], map[])) && Resting(b, s.q.mail) && Step(s, t, c, s')
    requires !Consuming(At(s.threads, t))
    ensures Simulated(s')
  {
    var pc := At(s.threads, t);
    var b' := if pc == Sending(Enqueue) then Published(b) else b;
    ActMails(s.q, pc, c, Act(s.q, pc, c).move);
    assert Fills([b], 0, [Published(b)]);
    assert Acts(Whole(s, [b], map[]), t, c, Whole(s', [b'], map[]));
    Arrives(Whole(s, [b], map[]), Whole(s', [b'], map[]));
    assert Resting(b', s'.q.mail);
  }

  /** Without mail a dequeue fails whatever the choice; the choice of a weight plays no part in it. */
  lemma Chosen(s: State, t: nat, c: Choice, s': State)
    requires Consuming(At(s.threads, t)) && Step(s, t, c, s') && (s.q.mail > 0 ==> !c.flag)
    ensures c.Go? && Step(s, t, Go(s.q.mail == 0, 0), s')
    ensures s'.q.mail == if s.q.mail == 0 then 0 else s.q.mail - 1
  {
    ActMails(s.q, At(s.threads, t), c, Act(s.q, At(s.threads, t), c).move);
  }

  /** A dequeue by thread `t` fails only when there is no mail. */
  predicate Finds(s: State, t: nat, c: Choice) {
    Consuming(At(s.threads, t)) && c.Go? && s.q.mail > 0 ==> !c.flag
  }

  lemma StepSimulated(s: State, t: nat, c: Choice, s': State)
    requires Simulated(s) && Finds(s, t, c) && Step(s, t, c, s')
    ensures Simulated(s')
  {
    var b :| Resting(b, s.q.mail) && Arrived(Whole(s, [b], map[]));
    if Consuming(At(s.threads, t)) {
      Chosen(s, t, c, s');
      if s.q.mail > 0 {
        Dequeues(s, b, t, s');
      } else {
        FindsNothing(s, b, t, s');
      }
    } else {
      Acting(s, b, t, c, s');
    }
  }

  // ----- Runs with one step per dequeue ---------------------------------------------------------------

  /** A run of the scheduler in which every dequeue finds what there is. */
  ghost predicate IsPlainRun(run: seq<State>) {
    && |run| > 0
    && run[0] == INITIAL
    && forall i :: 0 <= i < |run| - 1 ==> Plainly(run, i)
  }

  ghost predicate Plainly(run: seq<State>, i: nat)
    requires i + 1 < |run|
  {
    PlainStep(run[i], run[i + 1])
  }

  ghost predicate PlainStep(s: State, s': State) {
    exists t: nat, c: Choice :: Finds(s, t, c) && Step(s, t, c, s')
  }

  ghost predicate Reached(s: State) {
    exists run :: IsPlainRun(run) && run[|run| - 1] == s
  }

  lemma InitialReached()
    ensures Reached(INITIAL)
  {
    assert IsPlainRun([INITIAL]);
  }

  lemma Reach(s: State, t: nat, c: Choice, s': State)
    requires Reached(s) && Finds(s, t, c) && Step(s, t, c, s')
    ensures Reached(s')
  {
    var run :| IsPlainRun(run) && run[|run| - 1] == s;
    var more := run + [s'];
    assert PlainStep(s, s');
    forall i | 0 <= i < |more| - 1
      ensures Plainly(more, i)
    {
      if i < |run| - 1 {
        assert Plainly(run, i);
      }
    }
    assert IsPlainRun(more);
  }

  lemma {:induction false} RunSimulated(run: seq<State>, i: nat)
    requires IsPlainRun(run) && i < |run|
    ensures Simulated(run[i])
  {
    if i == 0 {
      InitialSimulated();
    } else {
      RunSimulated(run, i - 1);
      assert Plainly(run, i - 1);
      var t: nat, c: Choice :| Finds(run[i - 1], t, c) && Step(run[i - 1], t, c, run[i]);
      StepSimulated(run[i - 1], t, c, run[i]);
    }
  }

  lemma PlainSimulated(s: State)
    requires Reached(s)
    ensures Simulated(s)
  {
    var run :| IsPlainRun(run) && run[|run| - 1] == s;
    RunSimulated(run, |run| - 1);
  }

  /** The simple form is simulated by the real one. */
  lemma ReachedIsReachable(s: State)
    requires Reached(s)
    ensures Reachable(s)
  {
    PlainSimulated(s);
    var b :| Resting(b, s.q.mail) && Arrived(Whole(s, [b], map[]));
    var run: seq<Whole> :| IsWholeRun(run) && run[|run| - 1] == Whole(s, [b], map[]);
    assert run[|run| - 1].s == s;
  }

  /** Every state reached here is reached in module Scheduler. */
  lemma RunTo(s: State) returns (run: seq<State>)
    requires Reachable(s)
    ensures IsRun(run) && run[|run| - 1] == s
  {
    var whole: seq<Whole> :| IsWholeRun(whole) && whole[|whole| - 1].s == s;
    SkeletonIsRun(whole);
    run := Skeleton(whole);
  }
}
