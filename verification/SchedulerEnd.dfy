/** How an actor ends: once its queue is released somebody destroys it, whoever that is. */
module SchedulerEnd {
  import opened Counting
  import opened Scheduler
  import opened SchedulerInvariant
  import opened SchedulerTheorems
  import opened SchedulerGates

  // ----- The invariant --------------------------------------------------------------------------------

  /** Released and not yet destroyed. */
  predicate Dying(q: Queue) {
    q.releasing && !q.destroyed
  }

  /** A thread that will destroy a dying actor, or leave that to another such thread. */
  predicate Sure(q: Queue, pc: Pc) {
    match pc
    case Killing(at) => at.Owner? || at.Request? || at.Depth?
    case Draining(_, d) => d.KillDrain? || d.FailDrain? || (q.destroyRequested && Inside(pc))
    case Destroying(at, _) => at.Flag?
    case TailCheck(at, _) => at.TailRel? || q.destroyRequested
    case _ => q.destroyRequested && Inside(pc)
  }

  predicate Clearing(pc: Pc) {
    pc.Destroying? && !pc.destroy.Flag?
  }

  predicate Knows(q: Queue, pc: Pc) {
    (pc == Killing(KillAt.Depth) ==> q.destroyRequested) && (Clearing(pc) ==> q.destroyed)
  }

  ghost predicate Ending(s: State) {
    && (!s.q.owner ==> s.q.destroyed)
    && (forall t :: t in s.threads ==> Knows(s.q, s.threads[t]))
    && (Dying(s.q) ==> exists t :: t in s.threads && Sure(s.q, s.threads[t]))
    && (s.q.destroyed && s.q.owner ==> exists t :: t in s.threads && Clearing(s.threads[t]))
  }

  // ----- One move -------------------------------------------------------------------------------------

  ghost predicate Ready(q: Queue, pc: Pc) {
    && Knows(q, pc) && (!q.owner ==> q.destroyed) && q.depth >= 0 && (Inside(pc) ==> q.depth >= 1)
  }

  ghost predicate Ends(q: Queue, pc: Pc, m: Move) {
    && Knows(m.q, m.pc) && (!m.q.owner ==> m.q.destroyed)
    && (q.destroyed ==> m.q.destroyed) && (q.destroyRequested ==> m.q.destroyRequested)
    && (Dying(m.q) ==>
          Sure(m.q, m.pc) || (Dying(q) && !Sure(q, pc)) || (m.q.destroyRequested && m.q.depth >= 1))
    && (m.q.destroyed && m.q.owner ==> Clearing(m.pc) || (q.destroyed && q.owner && !Clearing(pc)))
  }

  lemma Goes(q: Queue, pc: Pc, m: Move)
    requires Ready(q, pc) && SameFlags(q, m.q) && !Clearing(pc) && Knows(m.q, m.pc)
    requires Dying(q) && Sure(q, pc) ==> Sure(q, m.pc) || (q.destroyRequested && m.q.depth >= 1)
    ensures Ends(q, pc, m)
  {
  }

  lemma KillEnds(q: Queue, at: KillAt, m: Move)
    requires Ready(q, Killing(at)) && Kill(q, at) == Turn(m)
    ensures Ends(q, Killing(at), m)
  {
  }

  lemma SpawnEnds(q: Queue, at: SpawnAt, ok: bool, m: Move)
    requires Ready(q, Spawning(at)) && Spawn(q, at, ok) == Turn(m)
    ensures Ends(q, Spawning(at), m)
  {
  }

  lemma DestroyEnds(q: Queue, at: DestroyAt, w: Destroyer, m: Move)
    requires Ready(q, Destroying(at, w)) && Destroy(q, at, w) == Turn(m)
    ensures Ends(q, Destroying(at, w), m)
  {
  }

  lemma DrainEnds(q: Queue, at: DrainAt, d: Drainer, miss: bool, m: Move)
    requires Ready(q, Draining(at, d)) && Drain(q, at, d, miss) == Turn(m)
    ensures Ends(q, Draining(at, d), m)
  {
    DrainPasses(q, at, d, miss, m, Found);
    DrainGoes(q, at, d, miss, m);
    DrainStays(q, Draining(at, d), m);
  }

  /** A drain goes on, or to destroy_actor, or to the end of its dispatch. */
  lemma DrainStays(q: Queue, pc: Pc, m: Move)
    requires pc.Draining? && Ready(q, pc) && SameFlags(q, m.q)
    requires ((m.pc.Draining? || m.pc.StoringIdle?) && Inside(pc) == Inside(m.pc))
             || (m.pc.Destroying? && m.pc.destroy.Flag?)
    requires m.pc.Draining? ==> m.pc.d == pc.d
    requires m.pc.StoringIdle? ==> !pc.d.KillDrain? && !pc.d.FailDrain?
    ensures Ends(q, pc, m)
  {
    Goes(q, pc, m);
  }

  lemma DrainGoes(q: Queue, at: DrainAt, d: Drainer, miss: bool, m: Move)
    requires Drain(q, at, d, miss) == Turn(m)
    ensures d.KillDrain? || d.FailDrain? ==>
              (m.pc.Draining? && m.pc.d == d) || (m.pc.Destroying? && m.pc.destroy.Flag?)
    ensures !d.KillDrain? && !d.FailDrain? ==>
              m.pc in {Draining(Take, d), Draining(Sub, d), Draining(Reset, d), StoringIdle(d)}
  {
  }

  lemma EnterFlags(q: Queue, at: EnterAt, m: Move)
    requires Enter(q, at) == Turn(m)
    ensures SameFlags(q, m.q)
  {
    match at
    case Claim => assert m.q == q || m.q == q.(schedule := 2);
    case Deepen => assert m.q == q.(depth := q.depth + 1);
    case _ => assert m.q == q;
  }

  lemma EnterPlaces(q: Queue, at: EnterAt, m: Move)
    requires Enter(q, at) == Turn(m)
    ensures !Clearing(m.pc) && !m.pc.Killing? && (at.FirstRel? ==> Inside(m.pc))
  {
  }

  lemma EnterEnds(q: Queue, at: EnterAt, m: Move)
    requires Ready(q, Entering(at)) && Enter(q, at) == Turn(m)
    ensures Ends(q, Entering(at), m)
  {
    EnterFlags(q, at, m);
    EnterPlaces(q, at, m);
    if Inside(m.pc) && q.destroyRequested {
      InsideIsSure(q, m.pc);
    }
    Goes(q, Entering(at), m);
  }

  lemma NextFlags(q: Queue, left: nat, miss: bool, m: Move)
    requires Work(q, Next(left), miss, 0) == Turn(m)
    ensures SameFlags(q, m.q)
  {
    if miss || q.mail == 0 {
      assert m.q == q;
    } else {
      TakeFlags(q);
    }
  }

  lemma StoreFlags(q: Queue, at: WorkAt, m: Move)
    requires (at.StoreQueued? || at.StoreIdle?) && Work(q, at, false, 0) == Turn(m)
    ensures SameFlags(q, m.q)
  {
  }

  lemma WorkFlags(q: Queue, at: WorkAt, miss: bool, weight: int, m: Move)
    requires Work(q, at, miss, weight) == Turn(m)
    ensures SameFlags(q, m.q)
  {
    if at.Next? {
      NextFlags(q, at.left, miss, m);
    } else if at.StoreQueued? || at.StoreIdle? {
      StoreFlags(q, at, m);
    } else if at.Uncount? {
      assert m.q == q.(count := Shift(q.count, -1));
    } else {
      assert m.q == q;
    }
  }

  lemma WorkPlaces(q: Queue, at: WorkAt, miss: bool, weight: int, m: Move)
    requires Work(q, at, miss, weight) == Turn(m)
    ensures Inside(m.pc) && !Clearing(m.pc) && !m.pc.Killing?
  {
  }

  lemma WorkEnds(q: Queue, at: WorkAt, miss: bool, weight: int, m: Move)
    requires Ready(q, Working(at)) && Work(q, at, miss, weight) == Turn(m)
    ensures Ends(q, Working(at), m)
  {
    WorkFlags(q, at, miss, weight, m);
    WorkPlaces(q, at, miss, weight, m);
    if q.destroyRequested {
      InsideIsSure(q, m.pc);
    }
    Goes(q, Working(at), m);
  }

  lemma LastEnds(q: Queue, pc: Pc, m: Move)
    requires Ready(q, pc) && (pc.DropLeave? || pc.TailLeave?) && q.depth == 1 && Leave(q, pc) == Turn(m)
    ensures Ends(q, pc, m)
  {
    assert m.q == q.(depth := 0, quiet := m.q.quiet);
    Goes(q, pc, m);
  }

  lemma LeaveEnds(q: Queue, pc: Pc, m: Move)
    requires Ready(q, pc) && Leave(q, pc) == Turn(m)
    ensures Ends(q, pc, m)
  {
    if (pc.DropLeave? || pc.TailLeave?) && q.depth == 1 {
      LastEnds(q, pc, m);
    } else {
      LeaveFlags(q, pc, m);
      Goes(q, pc, m);
    }
  }

  lemma SendEnds(q: Queue, at: SendAt, m: Move)
    requires Ready(q, Sending(at)) && Send(q, at) == Turn(m)
    ensures Ends(q, Sending(at), m)
  {
    SendFlags(q, at, m);
    SendPlaces(q, at, m);
    Goes(q, Sending(at), m);
  }

  lemma SendFlags(q: Queue, at: SendAt, m: Move)
    requires Send(q, at) == Turn(m)
    ensures SameFlags(q, m.q)
  {
  }

  lemma SendPlaces(q: Queue, at: SendAt, m: Move)
    requires Send(q, at) == Turn(m)
    ensures m.pc.Done? || m.pc.Sending? || m.pc == Scheduling(Check, Finish)
  {
  }

  lemma ScheduleEnds(q: Queue, at: SchedAt, k: Then, m: Move)
    requires Ready(q, Scheduling(at, k)) && Schedule(q, at, k) == Turn(m)
    ensures Ends(q, Scheduling(at, k), m)
  {
    ScheduleFlags(q, at, k, m);
    SchedulePlaces(q, at, k, m);
    if k.Tail? {
      ScheduleInside(q, at, k, m);
    }
    if Inside(m.pc) && q.destroyRequested {
      InsideIsSure(q, m.pc);
    }
    Goes(q, Scheduling(at, k), m);
  }

  lemma ScheduleInside(q: Queue, at: SchedAt, k: Then, m: Move)
    requires Schedule(q, at, k) == Turn(m) && k.Tail?
    ensures Inside(m.pc)
  {
  }

  lemma RecheckEnds(q: Queue, at: RecheckAt, m: Move)
    requires Ready(q, Rechecking(at)) && Recheck(q, at) == Turn(m)
    ensures Ends(q, Rechecking(at), m)
  {
    Goes(q, Rechecking(at), m);
  }

  lemma BeginEnds(q: Queue, c: Choice, m: Move)
    requires Ready(q, Done) && Begin(q, c) == Turn(m)
    ensures Ends(q, Done, m)
  {
    Goes(q, Done, m);
  }

  lemma ActEnds(q: Queue, pc: Pc, c: Choice, m: Move)
    requires Ready(q, pc) && Act(q, pc, c) == Turn(m)
    ensures Ends(q, pc, m)
  {
    match pc
    case Killing(at) => KillEnds(q, at, m);
    case Spawning(at) => SpawnEnds(q, at, c.flag, m);
    case Draining(at, d) => DrainEnds(q, at, d, c.flag, m);
    case Destroying(at, w) => DestroyEnds(q, at, w, m);
    case Entering(at) => EnterEnds(q, at, m);
    case Working(at) => WorkEnds(q, at, c.flag, c.weight, m);
    case Done => BeginEnds(q, c, m);
    case Sending(at) => SendEnds(q, at, m);
    case Scheduling(at, k) => ScheduleEnds(q, at, k, m);
    case Rechecking(at) => RecheckEnds(q, at, m);
    case _ => LeaveEnds(q, pc, m);
  }

  // ----- All threads ----------------------------------------------------------------------------------

  lemma StaysSure(q: Queue, q': Queue, pc: Pc)
    requires Sure(q, pc) && (q.destroyRequested ==> q'.destroyRequested)
    ensures Sure(q', pc)
  {
  }

  lemma SomeoneSure(s: State, t: nat, m: Move, s': State)
    requires Ending(s) && Ends(s.q, At(s.threads, t), m) && s' == State(Goto(s.threads, t, m.pc), m.q)
    requires Dying(s'.q) && s'.q.depth == Count(s'.threads, Inside)
    ensures exists u :: u in s'.threads && Sure(s'.q, s'.threads[u])
  {
    if Sure(m.q, m.pc) {
      assert t in s'.threads && s'.threads[t] == m.pc;
    } else if m.q.destroyRequested && m.q.depth >= 1 {
      var u := CountWitness(s'.threads, Inside);
      InsideIsSure(s'.q, s'.threads[u]);
    } else {
      var u :| u in s.threads && Sure(s.q, s.threads[u]);
      assert u in s'.threads && s'.threads[u] == s.threads[u];
      StaysSure(s.q, s'.q, s.threads[u]);
    }
  }

  lemma InsideIsSure(q: Queue, pc: Pc)
    requires Inside(pc) && q.destroyRequested
    ensures Sure(q, pc)
  {
  }

  lemma MoveEnding(s: State, t: nat, m: Move, s': State)
    requires Ending(s) && Ends(s.q, At(s.threads, t), m) && s' == State(Goto(s.threads, t, m.pc), m.q)
    requires s'.q.depth == Count(s'.threads, Inside)
    ensures Ending(s')
  {
    forall u | u in s'.threads
      ensures Knows(s'.q, s'.threads[u])
    {
      if u != t {
        assert s'.threads[u] == s.threads[u] && Knows(s.q, s.threads[u]);
      }
    }
    if Dying(s'.q) {
      SomeoneSure(s, t, m, s');
    }
    if s'.q.destroyed && s'.q.owner {
      if Clearing(m.pc) {
        assert t in s'.threads && s'.threads[t] == m.pc;
      } else {
        var u :| u in s.threads && Clearing(s.threads[u]);
        assert u in s'.threads && s'.threads[u] == s.threads[u];
      }
    }
  }

  lemma StepEnding(s: State, t: nat, c: Choice, s': State)
    requires Ending(s) && SchedulerInvariant.Depth(s) && SchedulerInvariant.Depth(s') && Step(s, t, c, s')
    ensures Ending(s')
  {
    var pc := At(s.threads, t);
    var m := Act(s.q, pc, c).move;
    if Inside(pc) {
      CountMember(s.threads, t, Inside);
    }
    ActEnds(s.q, pc, c, m);
    MoveEnding(s, t, m, s');
  }

  lemma DepthHolds(run: seq<State>, i: nat)
    requires IsRun(run) && i < |run|
    ensures SchedulerInvariant.Depth(run[i])
  {
    RunInv(run, i);
  }

  lemma {:induction false} RunEnding(run: seq<State>, i: nat)
    requires IsRun(run) && i < |run|
    ensures Ending(run[i])
  {
    if i > 0 {
      RunEnding(run, i - 1);
      DepthHolds(run, i - 1);
      DepthHolds(run, i);
      var t, c := Steps(run, i - 1);
      StepEnding(run[i - 1], t, c, run[i]);
    }
  }

  /** When every thread has finished its operation, the actor of a released queue has been destroyed, by
      exactly one of them, and its queue has no owner any more; and until then somebody is at it. */
  lemma DestroyedInTheEnd(run: seq<State>, i: nat)
    requires IsRun(run) && i < |run| && run[i].q.releasing
    ensures run[i].threads == map[] ==> run[i].q.destroyRuns == 1 && !run[i].q.owner
    ensures !run[i].q.destroyed ==> exists t :: t in run[i].threads && Sure(run[i].q, run[i].threads[t])
  {
    RunEnding(run, i);
    DestroyedOnce(run, i);
  }
}
