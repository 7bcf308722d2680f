/** Every step of every thread keeps the invariant: one lemma per function of the source, about the
    moving thread and the shared state alone. */
module SchedulerSteps {
  import opened Scheduler
  import opened SchedulerInvariant

  /** A move that only reads: the thread stays in the same groups. */
  lemma Reading(q: Queue, spawner: bool, pc: Pc, owed: bool, m: Move)
    requires Situated(q, spawner, pc, owed) && m.q == q && (m.pc.Done? || PointOk(q, spawner, m.pc))
    requires
      var p, p' := Of(pc), Of(m.pc);
      && p'.carrying == p.carrying && p'.window == p.window && p'.inside == p.inside
      && p'.owesSub == p.owesSub && p'.owesAdd == p.owesAdd
      && (Needy(q) && p.willSchedule ==> p'.willSchedule || (owed && !p.owesAdd))
    ensures GoodMove(q, spawner, pc, owed, m)
  {
  }

  lemma BeginMoves(q: Queue, spawner: bool, owed: bool, c: Choice, m: Move)
    requires Situated(q, spawner, Done, owed) && Begin(q, c) == Turn(m)
    ensures GoodMove(q, spawner, Done, owed, m)
  {
  }

  lemma SendReads(q: Queue, spawner: bool, owed: bool, at: SendAt, m: Move)
    requires Situated(q, spawner, Sending(at), owed) && Send(q, at) == Turn(m)
    requires at.Grab? || at.Accept? || at.Init?
    ensures GoodMove(q, spawner, Sending(at), owed, m)
  {
  }

  lemma SendEnqueues(q: Queue, spawner: bool, owed: bool, m: Move)
    requires Situated(q, spawner, Sending(Enqueue), owed) && Send(q, Enqueue) == Turn(m)
    ensures GoodMove(q, spawner, Sending(Enqueue), owed, m)
  {
  }

  lemma SendAdds(q: Queue, spawner: bool, owed: bool, m: Move)
    requires Situated(q, spawner, Sending(Add), owed) && Send(q, Add) == Turn(m)
    ensures GoodMove(q, spawner, Sending(Add), owed, m)
  {
  }

  lemma ScheduleReads(q: Queue, spawner: bool, owed: bool, at: SchedAt, k: Then, m: Move)
    requires Situated(q, spawner, Scheduling(at, k), owed) && Schedule(q, at, k) == Turn(m)
    requires at.Check? || (at.Cas? && q.schedule != 0)
    ensures GoodMove(q, spawner, Scheduling(at, k), owed, m)
  {
  }

  lemma ScheduleWrites(q: Queue, spawner: bool, owed: bool, at: SchedAt, k: Then, m: Move)
    requires Situated(q, spawner, Scheduling(at, k), owed) && Schedule(q, at, k) == Turn(m)
    requires at.Token? || (at.Cas? && q.schedule == 0)
    ensures GoodMove(q, spawner, Scheduling(at, k), owed, m)
  {
  }

  lemma KillReads(q: Queue, spawner: bool, owed: bool, at: KillAt, m: Move)
    requires Situated(q, spawner, Killing(at), owed) && Kill(q, at) == Turn(m)
    requires at.Owner? || (at.Depth? && q.depth != 0) || (at.Erase? && !q.registered)
    ensures GoodMove(q, spawner, Killing(at), owed, m)
  {
    Reading(q, spawner, Killing(at), owed, m);
  }

  lemma KillErases(q: Queue, spawner: bool, owed: bool, m: Move)
    requires Situated(q, spawner, Killing(Erase), owed) && Kill(q, Erase) == Turn(m) && q.registered
    ensures GoodMove(q, spawner, Killing(Erase), owed, m)
  {
  }

  lemma KillRefuses(q: Queue, spawner: bool, owed: bool, m: Move)
    requires Situated(q, spawner, Killing(Refuse), owed) && Kill(q, Refuse) == Turn(m)
    ensures GoodMove(q, spawner, Killing(Refuse), owed, m)
  {
  }

  lemma KillReleases(q: Queue, spawner: bool, owed: bool, m: Move)
    requires Situated(q, spawner, Killing(Release), owed) && Kill(q, Release) == Turn(m)
    ensures GoodMove(q, spawner, Killing(Release), owed, m)
  {
    assert m == Move(q.(releasing := true), Killing(Owner));
    assert Flags(m.q) && Onward(q, spawner, m.q) && PointOk(m.q, spawner, m.pc);
  }

  lemma KillRequests(q: Queue, spawner: bool, owed: bool, m: Move)
    requires Situated(q, spawner, Killing(Request), owed) && Kill(q, Request) == Turn(m)
    ensures GoodMove(q, spawner, Killing(Request), owed, m)
  {
  }

  lemma KillQuiets(q: Queue, spawner: bool, owed: bool, m: Move)
    requires Situated(q, spawner, Killing(KillAt.Depth), owed) && Kill(q, KillAt.Depth) == Turn(m)
    requires q.depth == 0
    ensures GoodMove(q, spawner, Killing(KillAt.Depth), owed, m)
  {
  }

  lemma KillStores(q: Queue, spawner: bool, owed: bool, m: Move)
    requires Situated(q, spawner, Killing(Store), owed) && Kill(q, Store) == Turn(m)
    ensures GoodMove(q, spawner, Killing(Store), owed, m)
  {
  }

  lemma KillMoves(q: Queue, spawner: bool, owed: bool, at: KillAt, m: Move)
    requires Situated(q, spawner, Killing(at), owed) && Kill(q, at) == Turn(m)
    ensures GoodMove(q, spawner, Killing(at), owed, m)
  {
    match at
    case Erase => if q.registered { KillErases(q, spawner, owed, m); } else { KillReads(q, spawner, owed, at, m); }
    case Refuse => KillRefuses(q, spawner, owed, m);
    case Release => KillReleases(q, spawner, owed, m);
    case Request => KillRequests(q, spawner, owed, m);
    case Owner => KillReads(q, spawner, owed, at, m);
    case Depth => if q.depth == 0 { KillQuiets(q, spawner, owed, m); } else { KillReads(q, spawner, owed, at, m); }
    case Store => KillStores(q, spawner, owed, m);
  }

  lemma SpawnReads(q: Queue, spawner: bool, owed: bool, at: SpawnAt, ok: bool, m: Move)
    requires Situated(q, spawner, Spawning(at), owed) && Spawn(q, at, ok) == Turn(m)
    requires at.OnInit? || at.Recount?
    ensures GoodMove(q, spawner, Spawning(at), owed, m)
  {
  }

  lemma SpawnWrites(q: Queue, spawner: bool, owed: bool, at: SpawnAt, ok: bool, m: Move)
    requires Situated(q, spawner, Spawning(at), owed) && Spawn(q, at, ok) == Turn(m)
    requires !at.OnInit? && !at.Recount?
    ensures GoodMove(q, spawner, Spawning(at), owed, m)
  {
  }

  lemma DrainSweeps(q: Queue, spawner: bool, owed: bool, d: Drainer, miss: bool, m: Move)
    requires Situated(q, spawner, Draining(Take, d), owed) && Drain(q, Take, d, miss) == Turn(m)
    requires miss || q.mail == 0
    ensures GoodMove(q, spawner, Draining(Take, d), owed, m)
  {
  }

  lemma DrainTakes(q: Queue, spawner: bool, owed: bool, d: Drainer, m: Move)
    requires Situated(q, spawner, Draining(Take, d), owed) && Drain(q, Take, d, false) == Turn(m)
    requires q.mail > 0
    ensures GoodMove(q, spawner, Draining(Take, d), owed, m)
  {
  }

  lemma DrainSubs(q: Queue, spawner: bool, owed: bool, d: Drainer, miss: bool, m: Move)
    requires Situated(q, spawner, Draining(Sub, d), owed) && Drain(q, Sub, d, miss) == Turn(m)
    ensures GoodMove(q, spawner, Draining(Sub, d), owed, m)
  {
  }

  lemma DrainEnds(q: Queue, spawner: bool, owed: bool, d: Drainer, miss: bool, m: Move)
    requires Situated(q, spawner, Draining(Reset, d), owed) && Drain(q, Reset, d, miss) == Turn(m)
    ensures GoodMove(q, spawner, Draining(Reset, d), owed, m)
  {
  }

  lemma DestroyMoves(q: Queue, spawner: bool, owed: bool, at: DestroyAt, w: Destroyer, m: Move)
    requires Situated(q, spawner, Destroying(at, w), owed) && Destroy(q, at, w) == Turn(m)
    requires !at.Clear?
    ensures GoodMove(q, spawner, Destroying(at, w), owed, m)
  {
  }

  lemma DestroyEnds(q: Queue, spawner: bool, owed: bool, w: Destroyer, m: Move)
    requires Situated(q, spawner, Destroying(Clear, w), owed) && Destroy(q, Clear, w) == Turn(m)
    ensures GoodMove(q, spawner, Destroying(Clear, w), owed, m)
  {
  }

  lemma EnterClaims(q: Queue, spawner: bool, owed: bool, at: EnterAt, m: Move)
    requires Situated(q, spawner, Entering(at), owed) && Enter(q, at) == Turn(m)
    requires at.Load? || at.Claim?
    ensures GoodMove(q, spawner, Entering(at), owed, m)
  {
  }

  lemma EnterReads(q: Queue, spawner: bool, owed: bool, at: EnterAt, m: Move)
    requires Situated(q, spawner, Entering(at), owed) && Enter(q, at) == Turn(m)
    requires at.FindOwner? || at.FirstRel?
    ensures GoodMove(q, spawner, Entering(at), owed, m)
  {
    Reading(q, spawner, Entering(at), owed, m);
  }

  lemma EnterDeepens(q: Queue, spawner: bool, owed: bool, m: Move)
    requires Situated(q, spawner, Entering(Deepen), owed) && Enter(q, Deepen) == Turn(m)
    ensures GoodMove(q, spawner, Entering(Deepen), owed, m)
  {
  }

  lemma WorkReads(q: Queue, spawner: bool, owed: bool, at: WorkAt, miss: bool, weight: int, m: Move)
    requires Situated(q, spawner, Working(at), owed) && Work(q, at, miss, weight) == Turn(m)
    requires !at.StoreQueued? && !at.StoreIdle? && !at.Uncount? && !(at.Next? && !miss && q.mail > 0)
    ensures GoodMove(q, spawner, Working(at), owed, m)
  {
    Reading(q, spawner, Working(at), owed, m);
  }

  lemma WorkTakes(q: Queue, spawner: bool, owed: bool, left: nat, m: Move)
    requires Situated(q, spawner, Working(Next(left)), owed) && Work(q, Next(left), false, 0) == Turn(m)
    requires q.mail > 0
    ensures GoodMove(q, spawner, Working(Next(left)), owed, m)
  {
  }

  lemma WorkUncounts(q: Queue, spawner: bool, owed: bool, left: nat, m: Move)
    requires Situated(q, spawner, Working(Uncount(left)), owed) && Work(q, Uncount(left), false, 0) == Turn(m)
    ensures GoodMove(q, spawner, Working(Uncount(left)), owed, m)
  {
  }

  lemma WorkStores(q: Queue, spawner: bool, owed: bool, at: WorkAt, miss: bool, weight: int, m: Move)
    requires Situated(q, spawner, Working(at), owed) && Work(q, at, miss, weight) == Turn(m)
    requires at.StoreQueued? || at.StoreIdle?
    ensures GoodMove(q, spawner, Working(at), owed, m)
  {
  }

  lemma RecheckMoves(q: Queue, spawner: bool, owed: bool, at: RecheckAt, m: Move)
    requires Situated(q, spawner, Rechecking(at), owed) && Recheck(q, at) == Turn(m)
    ensures GoodMove(q, spawner, Rechecking(at), owed, m)
  {
  }

  lemma StoreMoves(q: Queue, spawner: bool, owed: bool, d: Drainer, m: Move)
    requires Situated(q, spawner, StoringIdle(d), owed) && Leave(q, StoringIdle(d)) == Turn(m)
    ensures GoodMove(q, spawner, StoringIdle(d), owed, m)
  {
  }

  lemma DropLast(q: Queue, spawner: bool, owed: bool, m: Move)
    requires Situated(q, spawner, DropLeave, owed) && Leave(q, DropLeave) == Turn(m)
    requires q.depth == 1
    ensures GoodMove(q, spawner, DropLeave, owed, m)
  {
  }

  lemma TailLast(q: Queue, spawner: bool, owed: bool, m: Move)
    requires Situated(q, spawner, TailLeave, owed) && Leave(q, TailLeave) == Turn(m)
    requires q.depth == 1
    ensures GoodMove(q, spawner, TailLeave, owed, m)
  {
  }

  lemma NotLast(q: Queue, spawner: bool, owed: bool, pc: Pc, m: Move)
    requires Situated(q, spawner, pc, owed) && Leave(q, pc) == Turn(m)
    requires q.depth != 1 && (pc == DropLeave || pc == TailLeave)
    ensures GoodMove(q, spawner, pc, owed, m)
  {
  }

  lemma TailChecks(q: Queue, spawner: bool, owed: bool, at: TailAt, early: bool, m: Move)
    requires Situated(q, spawner, TailCheck(at, early), owed) && Leave(q, TailCheck(at, early)) == Turn(m)
    ensures GoodMove(q, spawner, TailCheck(at, early), owed, m)
  {
  }

  lemma ActMoves(q: Queue, spawner: bool, owed: bool, pc: Pc, c: Choice, m: Move)
    requires Situated(q, spawner, pc, owed) && Act(q, pc, c) == Turn(m)
    ensures GoodMove(q, spawner, pc, owed, m)
  {
    match pc
    case Done => BeginMoves(q, spawner, owed, c, m);
    case Sending(at) =>
      if at.Enqueue? {
        SendEnqueues(q, spawner, owed, m);
      } else if at.Add? {
        SendAdds(q, spawner, owed, m);
      } else {
        SendReads(q, spawner, owed, at, m);
      }
    case Scheduling(at, k) =>
      if at.Check? || (at.Cas? && q.schedule != 0) {
        ScheduleReads(q, spawner, owed, at, k, m);
      } else {
        ScheduleWrites(q, spawner, owed, at, k, m);
      }
    case Killing(at) => KillMoves(q, spawner, owed, at, m);
    case Spawning(at) =>
      if at.OnInit? || at.Recount? {
        SpawnReads(q, spawner, owed, at, c.flag, m);
      } else {
        SpawnWrites(q, spawner, owed, at, c.flag, m);
      }
    case Draining(at, d) => DrainMoves(q, spawner, owed, at, d, c.flag, m);
    case Destroying(at, w) =>
      if at.Clear? {
        DestroyEnds(q, spawner, owed, w, m);
      } else {
        DestroyMoves(q, spawner, owed, at, w, m);
      }
    case _ => DispatchMoves(q, spawner, owed, pc, c, m);
  }

  lemma DrainMoves(q: Queue, spawner: bool, owed: bool, at: DrainAt, d: Drainer, miss: bool, m: Move)
    requires Situated(q, spawner, Draining(at, d), owed) && Drain(q, at, d, miss) == Turn(m)
    ensures GoodMove(q, spawner, Draining(at, d), owed, m)
  {
    match at
    case Take =>
      if miss || q.mail == 0 {
        DrainSweeps(q, spawner, owed, d, miss, m);
      } else {
        DrainTakes(q, spawner, owed, d, m);
      }
    case Sub => DrainSubs(q, spawner, owed, d, miss, m);
    case Reset => DrainEnds(q, spawner, owed, d, miss, m);
  }

  /** The points inside dispatch_queue. */
  lemma DispatchMoves(q: Queue, spawner: bool, owed: bool, pc: Pc, c: Choice, m: Move)
    requires pc.Entering? || pc.Working? || pc.Rechecking? || pc.StoringIdle? || pc.DropLeave? || pc.TailLeave?
             || pc.TailCheck?
    requires Situated(q, spawner, pc, owed) && Act(q, pc, c) == Turn(m)
    ensures GoodMove(q, spawner, pc, owed, m)
  {
    match pc
    case Entering(at) =>
      if at.Load? || at.Claim? {
        EnterClaims(q, spawner, owed, at, m);
      } else if at.Deepen? {
        EnterDeepens(q, spawner, owed, m);
      } else {
        EnterReads(q, spawner, owed, at, m);
      }
    case Working(at) =>
      if at.StoreQueued? || at.StoreIdle? {
        WorkStores(q, spawner, owed, at, c.flag, c.weight, m);
      } else if at.Next? && !c.flag && q.mail > 0 {
        WorkTakes(q, spawner, owed, at.left, m);
      } else if at.Uncount? {
        WorkUncounts(q, spawner, owed, at.left, m);
      } else {
        WorkReads(q, spawner, owed, at, c.flag, c.weight, m);
      }
    case Rechecking(at) => RecheckMoves(q, spawner, owed, at, m);
    case StoringIdle(d) => StoreMoves(q, spawner, owed, d, m);
    case TailCheck(at, early) => TailChecks(q, spawner, owed, at, early, m);
    case DropLeave =>
      if q.depth == 1 {
        DropLast(q, spawner, owed, m);
      } else {
        NotLast(q, spawner, owed, pc, m);
      }
    case TailLeave =>
      if q.depth == 1 {
        TailLast(q, spawner, owed, m);
      } else {
        NotLast(q, spawner, owed, pc, m);
      }
  }

  lemma StepKeeps(s: State, t: nat, c: Choice, s': State)
    requires Inv(s) && Step(s, t, c, s')
    ensures Inv(s') && (s.q.quiet ==> s'.q.quiet)
  {
    Locate(s, t);
    var pc := At(s.threads, t);
    var m := Act(s.q, pc, c).move;
    ActMoves(s.q, t == SPAWNER, SomeoneOwesAdd(s.threads), pc, c, m);
    Settle(s, t, m);
  }
}
