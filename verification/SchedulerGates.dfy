/** Tests of a flag that closes for good: who has not passed one when the flag turns against it never does. */
module SchedulerGates {
  import opened Scheduler
  import opened SchedulerSweeping

  /** The tests, by what they look for. */
  datatype Gate =
    | Found | Accepted                        // push_message: the queue is registered; it accepts
    | Erased                                  // kill: the queue was registered
    | HasActor                                // kill: there is an actor
    | Owned | EnterLive | EnterKept           // dispatch_queue: there is an actor; not released; not to be destroyed
    | LoopKept | LoopLive                     // ... before each message
    | EndLive | EndKept                       // ... after the last
    | IdleKept | IdleLive                     // ... after storing 0

  predicate Shut(g: Gate, q: Queue) {
    match g
    case Found => !q.registered
    case Accepted => !q.accepting
    case Erased => !q.registered
    case HasActor => !q.owner
    case Owned => !q.owner
    case EnterLive => q.releasing
    case EnterKept => q.destroyRequested
    case LoopKept => q.destroyRequested
    case LoopLive => q.releasing
    case EndLive => q.releasing
    case EndKept => q.destroyRequested
    case IdleKept => q.destroyRequested
    case IdleLive => q.releasing
  }

  /** The place directly behind the test. */
  predicate Behind(g: Gate, pc: Pc) {
    match g
    case Found => pc == Sending(Accept)
    case Accepted => pc == Sending(Enqueue)
    case Erased => pc == Killing(Refuse)
    case HasActor => pc == Killing(Request)
    case Owned => pc == Entering(Deepen)
    case EnterLive => pc == Working(FirstReq)
    case EnterKept => pc == Working(Size)
    case LoopKept => pc.Working? && pc.work.LoopRel?
    case LoopLive => pc.Working? && pc.work.Next?
    case EndLive => pc == Working(EndReq)
    case EndKept => pc == Working(EndCount)
    case IdleKept => pc == Rechecking(IdleRel)
    case IdleLive => pc == Rechecking(IdleCount)
  }

  /** The flags of the tests move one way. */
  ghost predicate Closes(q: Queue, q': Queue) {
    && (q'.registered ==> q.registered) && (q'.accepting ==> q.accepting) && (q'.owner ==> q.owner)
    && (q.releasing ==> q'.releasing) && (q.destroyRequested ==> q'.destroyRequested)
  }

  lemma SendPasses(q: Queue, at: SendAt, m: Move, g: Gate)
    requires Send(q, at) == Turn(m)
    ensures Closes(q, m.q) && (Shut(g, q) ==> !Behind(g, m.pc))
  {
  }

  lemma KillPasses(q: Queue, at: KillAt, m: Move, g: Gate)
    requires Kill(q, at) == Turn(m)
    ensures Closes(q, m.q) && (Shut(g, q) ==> !Behind(g, m.pc))
  {
    KillCloses(q, at, m);
    KillPlaces(q, at, m);
  }

  lemma KillPlaces(q: Queue, at: KillAt, m: Move)
    requires Kill(q, at) == Turn(m)
    ensures m.pc.Done? || m.pc.Killing? || m.pc.Scheduling? || m.pc.Draining?
    ensures m.pc == Killing(Refuse) ==> q.registered
    ensures m.pc == Killing(Request) ==> q.owner
  {
  }

  lemma KillCloses(q: Queue, at: KillAt, m: Move)
    requires Kill(q, at) == Turn(m)
    ensures Closes(q, m.q)
  {
    match at
    case Erase => assert m.q == q || m.q == q.(registered := false);
    case Refuse => assert m.q == q.(accepting := false);
    case Release => assert m.q == q.(releasing := true);
    case Owner => assert m.q == q;
    case Request => assert m.q == q.(destroyRequested := true);
    case Depth => assert m.q == q || m.q == q.(quiet := true);
    case Store => assert m.q == q.(schedule := 0, overwritten := true);
  }

  lemma EnterPasses(q: Queue, at: EnterAt, m: Move, g: Gate)
    requires Enter(q, at) == Turn(m)
    ensures Closes(q, m.q) && (Shut(g, q) ==> !Behind(g, m.pc))
  {
  }

  lemma WorkPasses(q: Queue, at: WorkAt, miss: bool, weight: int, m: Move, g: Gate)
    requires Work(q, at, miss, weight) == Turn(m)
    ensures Closes(q, m.q) && (Shut(g, q) ==> !Behind(g, m.pc))
  {
  }

  lemma RecheckPasses(q: Queue, at: RecheckAt, m: Move, g: Gate)
    requires Recheck(q, at) == Turn(m)
    ensures Closes(q, m.q) && (Shut(g, q) ==> !Behind(g, m.pc))
  {
  }

  lemma SpawnPasses(q: Queue, at: SpawnAt, ok: bool, m: Move, g: Gate)
    requires Spawn(q, at, ok) == Turn(m)
    ensures Closes(q, m.q) && !Behind(g, m.pc)
  {
  }

  lemma DestroyPasses(q: Queue, at: DestroyAt, w: Destroyer, m: Move, g: Gate)
    requires Destroy(q, at, w) == Turn(m)
    ensures Closes(q, m.q) && !Behind(g, m.pc)
  {
  }

  /** Nothing but counts, places and history changes. */
  ghost predicate SameFlags(q: Queue, q': Queue) {
    && q'.registered == q.registered && q'.accepting == q.accepting && q'.owner == q.owner
    && q'.releasing == q.releasing && q'.destroyRequested == q.destroyRequested && q'.destroyed == q.destroyed
  }

  lemma LastFlags(q: Queue, pc: Pc, m: Move)
    requires (pc.DropLeave? || pc.TailLeave?) && q.depth == 1 && Leave(q, pc) == Turn(m)
    ensures SameFlags(q, m.q)
  {
    assert m.q == q.(depth := 0, quiet := m.q.quiet);
  }

  lemma LeaveFlags(q: Queue, pc: Pc, m: Move)
    requires Leave(q, pc) == Turn(m)
    ensures SameFlags(q, m.q)
  {
    if pc.StoringIdle? {
      assert m.q == q.(schedule := 0);
    } else if pc.TailCheck? {
      assert m.q == q;
    } else if q.depth == 1 {
      LastFlags(q, pc, m);
    } else {
      assert m.q == q.(depth := q.depth - 1);
    }
  }

  lemma LeavePlaces(q: Queue, pc: Pc, m: Move, g: Gate)
    requires Leave(q, pc) == Turn(m)
    ensures !Behind(g, m.pc)
  {
    assert m.pc.Done? || m.pc.DropLeave? || m.pc.TailLeave? || m.pc.TailCheck? || m.pc.Destroying?;
  }

  lemma BeginPasses(q: Queue, c: Choice, m: Move, g: Gate)
    requires Begin(q, c) == Turn(m)
    ensures SameFlags(q, m.q) && !Behind(g, m.pc)
  {
  }

  lemma SchedulePasses(q: Queue, at: SchedAt, k: Then, m: Move, g: Gate)
    requires Schedule(q, at, k) == Turn(m)
    ensures SameFlags(q, m.q) && !Behind(g, m.pc)
  {
    ScheduleFlags(q, at, k, m);
    SchedulePlaces(q, at, k, m);
  }

  lemma ScheduleFlags(q: Queue, at: SchedAt, k: Then, m: Move)
    requires Schedule(q, at, k) == Turn(m)
    ensures SameFlags(q, m.q)
  {
    match at
    case Check => assert m.q == q;
    case Cas => assert m.q == q || m.q == q.(schedule := 1);
    case Token => assert m.q == q.(tokens := q.tokens + 1);
  }

  lemma SchedulePlaces(q: Queue, at: SchedAt, k: Then, m: Move)
    requires Schedule(q, at, k) == Turn(m)
    ensures m.pc.Done? || m.pc.Scheduling? || m.pc.TailLeave?
  {
  }

  lemma DrainPasses(q: Queue, at: DrainAt, d: Drainer, miss: bool, m: Move, g: Gate)
    requires Drain(q, at, d, miss) == Turn(m)
    ensures SameFlags(q, m.q) && !Behind(g, m.pc)
  {
    if at.Take? {
      TakeFlags(q);
    }
    DrainPlaces(q, at, d, miss, m);
  }

  lemma TakeFlags(q: Queue)
    ensures SameFlags(q, q.(past := q.past.(swept := true)))
    ensures q.mail > 0 ==> SameFlags(q, q.(mail := q.mail - 1))
  {
  }

  lemma DrainPlaces(q: Queue, at: DrainAt, d: Drainer, miss: bool, m: Move)
    requires Drain(q, at, d, miss) == Turn(m)
    ensures m.pc.Draining? || m.pc.Destroying? || m.pc.StoringIdle?
  {
  }

  lemma ActPasses(q: Queue, pc: Pc, c: Choice, m: Move, g: Gate)
    requires Act(q, pc, c) == Turn(m)
    ensures Closes(q, m.q) && (Shut(g, q) ==> !Behind(g, m.pc))
  {
    match pc
    case Sending(at) => SendPasses(q, at, m, g);
    case Killing(at) => KillPasses(q, at, m, g);
    case Spawning(at) => SpawnPasses(q, at, c.flag, m, g);
    case Destroying(at, w) => DestroyPasses(q, at, w, m, g);
    case Entering(at) => EnterPasses(q, at, m, g);
    case Working(at) => WorkPasses(q, at, c.flag, c.weight, m, g);
    case Rechecking(at) => RecheckPasses(q, at, m, g);
    case Done => BeginPasses(q, c, m, g);
    case Scheduling(at, k) => SchedulePasses(q, at, k, m, g);
    case Draining(at, d) => DrainPasses(q, at, d, c.flag, m, g);
    case _ =>
      LeaveFlags(q, pc, m);
      LeavePlaces(q, pc, m, g);
  }

  lemma StepPasses(s: State, t: nat, c: Choice, s': State, g: Gate)
    requires Step(s, t, c, s')
    ensures Closes(s.q, s'.q) && (Shut(g, s.q) ==> !Behind(g, At(s'.threads, t)))
    ensures forall u :: u != t ==> At(s'.threads, u) == At(s.threads, u)
  {
    var m := Act(s.q, At(s.threads, t), c).move;
    ActPasses(s.q, At(s.threads, t), c, m, g);
    assert At(s'.threads, t) == m.pc;
  }

  lemma Steps(run: seq<State>, i: nat) returns (t: nat, c: Choice)
    requires IsRun(run) && i + 1 < |run|
    ensures Step(run[i], t, c, run[i + 1])
  {
    assert Linked(run, i);
    t, c :| Step(run[i], t, c, run[i + 1]);
  }

  /** Once a test is shut it stays so, and a thread that is not right behind it never comes there again. */
  lemma {:induction false} NobodyPasses(run: seq<State>, i: nat, j: nat, g: Gate, t: nat)
    requires IsRun(run) && i <= j < |run| && Shut(g, run[i].q)
    ensures Shut(g, run[j].q)
    ensures !Behind(g, At(run[i].threads, t)) ==> !Behind(g, At(run[j].threads, t))
    decreases j
  {
    if i < j {
      NobodyPasses(run, i, j - 1, g, t);
      var u, c := Steps(run, j - 1);
      StepPasses(run[j - 1], u, c, run[j], g);
    }
  }

  // ----- Pushes ---------------------------------------------------------------------------------------

  lemma OnlyEnqueueGrows(s: State, t: nat, c: Choice, s': State)
    requires Step(s, t, c, s') && At(s.threads, t) != Sending(Enqueue)
    ensures s'.q.mail <= s.q.mail
  {
    ActMails(s.q, At(s.threads, t), c, Act(s.q, At(s.threads, t), c).move);
  }

  /** When the queue does not accept and nobody stands between the test and the enqueue, the mailbox never
      grows again. */
  lemma {:induction false} MailOnlyShrinks(run: seq<State>, i: nat, j: nat)
    requires IsRun(run) && i <= j < |run|
    requires !run[i].q.accepting && forall t :: At(run[i].threads, t) != Sending(Enqueue)
    ensures run[j].q.mail <= run[i].q.mail
    decreases j
  {
    if i < j {
      MailOnlyShrinks(run, i, j - 1);
      var u, c := Steps(run, j - 1);
      NobodyPasses(run, i, j - 1, Accepted, u);
      OnlyEnqueueGrows(run[j - 1], u, c, run[j]);
    }
  }

  /** What a step of a push that comes to a shut test does. */
  lemma Turned(s: State, t: nat, s': State, at: SendAt)
    requires Successor(s, s') && At(s.threads, t) == Sending(at) && At(s'.threads, t) != Sending(at)
    requires (at.Grab? && !s.q.registered) || (at.Accept? && !s.q.accepting)
    ensures s'.q == s.q && t !in s'.threads
  {
    var u: nat, c: Choice :| Step(s, u, c, s');
    assert u == t;
  }

  /** A push that begins when the queue is not registered is over with its first step and changes nothing:
      neither mail nor count nor tokens nor anything else. */
  lemma PushAfterErase(run: seq<State>, i: nat, j: nat, t: nat)
    requires IsRun(run) && i <= j && j + 1 < |run| && !run[i].q.registered
    requires At(run[j].threads, t) == Sending(Grab) && At(run[j + 1].threads, t) != Sending(Grab)
    ensures run[j + 1].q == run[j].q && t !in run[j + 1].threads
  {
    NobodyPasses(run, i, j, Found, t);
    assert Linked(run, j);
    Turned(run[j], t, run[j + 1], Grab);
  }

  /** The same for one that found the queue and comes to the test when it no longer accepts. */
  lemma PushAfterClose(run: seq<State>, i: nat, j: nat, t: nat)
    requires IsRun(run) && i <= j && j + 1 < |run| && !run[i].q.accepting
    requires At(run[j].threads, t) == Sending(Accept) && At(run[j + 1].threads, t) != Sending(Accept)
    ensures run[j + 1].q == run[j].q && t !in run[j + 1].threads
  {
    NobodyPasses(run, i, j, Accepted, t);
    assert Linked(run, j);
    Turned(run[j], t, run[j + 1], Accept);
  }

  // ----- Kills ----------------------------------------------------------------------------------------

  /** Past the erasure of the queue from its shard, on behalf of kill. */
  predicate InKill(pc: Pc) {
    match pc
    case Killing(at) => !at.Erase?
    case Draining(_, d) => d.KillDrain?
    case Destroying(_, w) => w.ByKill?
    case _ => false
  }

  lemma KillEnters(q: Queue, pc: Pc, c: Choice, m: Move)
    requires Act(q, pc, c) == Turn(m)
    ensures InKill(m.pc) && !InKill(pc) ==> pc == Killing(Erase) && q.registered && !m.q.registered
  {
    if pc.Killing? && pc.kill.Erase? {
    } else if pc.Spawning? || pc.Draining? || pc.Destroying? {
    }
  }

  /** Of any number of kills at most one gets past the erasure, and none while the queue is registered. */
  lemma {:induction false} OneKill(run: seq<State>, i: nat, t: nat, u: nat)
    requires IsRun(run) && i < |run| && InKill(At(run[i].threads, t))
    ensures !run[i].q.registered
    ensures InKill(At(run[i].threads, u)) ==> t == u
    decreases i
  {
    if i > 0 {
      var v, c := Steps(run, i - 1);
      StepPasses(run[i - 1], v, c, run[i], Erased);
      KillEnters(run[i - 1].q, At(run[i - 1].threads, v), c, Act(run[i - 1].q, At(run[i - 1].threads, v), c).move);
      if InKill(At(run[i - 1].threads, t)) {
        OneKill(run, i - 1, t, u);
      }
      if InKill(At(run[i - 1].threads, u)) {
        OneKill(run, i - 1, u, t);
      }
    }
  }

  // ----- One dispatch ---------------------------------------------------------------------------------

  /** In the delivery loop, and how many messages may still be taken. */
  predicate InLoop(pc: Pc) {
    pc.Working? && (pc.work.Guard? || pc.work.LoopRel? || pc.work.Next? || pc.work.Uncount? || pc.work.Handler?)
  }

  function Allowed(pc: Pc): int
    requires InLoop(pc)
  {
    pc.work.left - (if pc.work.Uncount? || pc.work.Handler? then 1 else 0)
  }

  /** How many messages thread `t` has taken out between two states. */
  ghost function TakenBy(run: seq<State>, i: nat, j: nat, t: nat): nat
    requires i <= j < |run|
    decreases j
  {
    if i == j then 0
    else
      var before, after := At(run[j - 1].threads, t), At(run[j].threads, t);
      TakenBy(run, i, j - 1, t)
      + (if before != after && after.Working? && after.work.Uncount? then 1 else 0)
  }

  lemma LoopCounts(q: Queue, pc: Pc, miss: bool, weight: int, m: Move)
    requires InLoop(pc) && Work(q, pc.work, miss, weight) == Turn(m)
    requires (pc.work.Uncount? || pc.work.Handler? || pc.work.LoopRel? || pc.work.Next?) ==> pc.work.left > 0
    ensures InLoop(m.pc) ==>
      && Allowed(m.pc) == Allowed(pc) - (if m.pc.work.Uncount? then 1 else 0)
      && (m.pc.work.Guard? || m.pc.work.left > 0) && m.pc != pc
      && (m.pc.work.Uncount? ==> pc.work.Next? && m.q.mail == q.mail - 1)
  {
  }

  /** A dispatch that begins its loop with a batch of `n` takes out at most `n` messages, and as long as it
      stays in the loop what it has taken and what it may still take make up the batch. */
  lemma {:induction false} BatchBounds(run: seq<State>, i: nat, j: nat, t: nat, n: nat)
    requires IsRun(run) && i <= j < |run| && At(run[i].threads, t) == Working(Guard(n))
    requires forall k :: i <= k <= j ==> InLoop(At(run[k].threads, t))
    ensures TakenBy(run, i, j, t) + Allowed(At(run[j].threads, t)) == n && Allowed(At(run[j].threads, t)) >= 0
    ensures var pc := At(run[j].threads, t); pc.work.Guard? || pc.work.left > 0
    decreases j
  {
    if i < j {
      BatchBounds(run, i, j - 1, t, n);
      var u, c := Steps(run, j - 1);
      var s := run[j - 1];
      StepPasses(s, u, c, run[j], Found);
      if u == t {
        LoopCounts(s.q, At(s.threads, t), c.flag, c.weight, Act(s.q, At(s.threads, t), c).move);
      }
    }
  }

  /** The batch is computed from the count that is read. */
  lemma BatchChosen(s: State, t: nat, s': State)
    requires Successor(s, s') && At(s.threads, t) == Working(Size) && At(s'.threads, t) != Working(Size)
    ensures exists weight {:trigger Dispatch.Batch(weight, s.q.count)} ::
              -1 <= weight <= 2 && At(s'.threads, t) == Working(Guard(Dispatch.Batch(weight, s.q.count)))
    ensures s'.q == s.q
  {
    var u: nat, c: Choice :| Step(s, u, c, s');
    assert u == t;
    var weight := c.weight;
    assert At(s'.threads, t) == Working(Guard(Dispatch.Batch(weight, s.q.count)));
  }

  // ----- What a count decides -------------------------------------------------------------------------

  /** A worker requeues the actor exactly when it reads a positive count at the end of its dispatch or on its
      second look, and so does the spawner; only then does the worker store 0 without having read 0 first. */
  lemma CountDecides(s: State, t: nat, s': State)
    requires Successor(s, s') && At(s.threads, t) != At(s'.threads, t)
    ensures At(s.threads, t) == Working(EndCount) ==>
              At(s'.threads, t) == Working(if s.q.count > 0 then StoreQueued else StoreIdle)
    ensures At(s'.threads, t) == Working(StoreIdle) ==> s.q.count == 0
    ensures At(s.threads, t) == Rechecking(IdleCount) ==>
              At(s'.threads, t) == if s.q.count > 0 then Scheduling(Check, Tail) else TailLeave
    ensures At(s.threads, t) == Spawning(Recount) ==>
              At(s'.threads, t) == if s.q.count > 0 then Scheduling(Check, Finish) else Done
  {
    var u: nat, c: Choice :| Step(s, u, c, s');
    assert u == t;
    assert At(s'.threads, t) == Act(s.q, At(s.threads, t), c).move.pc;
  }

  /** A worker that has brought the depth to 0 and tests the flags when the queue is already released always
      goes on to destroy the actor. */
  lemma TailDestroys(run: seq<State>, i: nat, j: nat, t: nat)
    requires IsRun(run) && i <= j && j + 1 < |run| && run[i].q.releasing
    requires At(run[j].threads, t).TailCheck? && !At(run[j + 1].threads, t).TailCheck?
    ensures var pc := At(run[j + 1].threads, t);
            pc == Destroying(Flag, ByTail(At(run[j].threads, t).early))
  {
    NobodyPasses(run, i, j, EndLive, t);
    var u, c := Steps(run, j);
    assert u == t;
    assert At(run[j + 1].threads, t) == Act(run[j].q, At(run[j].threads, t), c).move.pc;
  }
}
