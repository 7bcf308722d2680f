/** A second invariant of the scheduler, about mail on a queue that is going away: who will drain it.  It
    holds as long as a drain that finds nothing leaves what there is to another, which is what module
    SchedulerMailbox proves. */
module SchedulerSweeping {
  import opened Counting
  import opened Scheduler
  import opened SchedulerInvariant

  // ----- The invariant --------------------------------------------------------------------------------

  /** Nothing unusual has happened to the mail, and no drain has come to its end. */
  predicate Open(q: Queue) {
    !q.past.late && !q.past.idled && !q.past.swept
  }

  /** Mail on a released queue that has still to be drained. */
  ghost predicate Dangling(q: Queue) {
    q.releasing && q.mail > 0 && Open(q)
  }

  /** A released queue takes in only late mail. */
  ghost predicate Closing(q: Queue) {
    && (q.releasing ==> !q.accepting)
    && (q.past.swept ==> !q.accepting)
    && (q.overwritten ==> !Open(q))
    && (Open(q) && !q.owner ==> q.initialized)
    && (q.tokens > 0 || q.schedule != 0 ==> q.initialized)
  }

  /** What a program point says about mail on its way out. */
  datatype Spot = Spot(
    nameonly sweeps: bool := false,   // will drain the queue, or put it where a worker finds it
    nameonly drained: bool := false,  // behind the end of a drain
    nameonly started: bool := false,  // reached only on an initialised queue
    nameonly asking: bool := false,   // ... or after a drain
    nameonly refused: bool := false)  // reached only after `accepting` was cleared

  function SpotOf(pc: Pc): Spot {
    match pc
    case Scheduling(at, k) =>
      Spot(sweeps := !at.Token?, started := !at.Check? || k.Tail?, asking := true)
    case Killing(at) =>
      Spot(sweeps := at.Owner? || at.Request? || at.Depth?, drained := at.Store?, refused := at.Release?)
    case Spawning(at) => Spot(started := at.Recount?, refused := at.FailRelease?)
    case Draining(at, d) =>
      Spot(sweeps := !at.Reset?, drained := at.Reset?, started := !d.KillDrain? && !d.FailDrain?)
    case Destroying(_, w) => Spot(drained := !w.ByTail?, started := w.ByTail?)
    case StoringIdle(_) => Spot(drained := true, started := true)
    case DropLeave => Spot(drained := true, started := true)
    case Done => Spot()
    case Sending(_) => Spot()
    case _ => Spot(started := true)
  }

  predicate WillSweep(pc: Pc) {
    SpotOf(pc).sweeps
  }

  ghost predicate Placed(q: Queue, pc: Pc) {
    var p := SpotOf(pc);
    && (p.drained ==> !Open(q))
    && (p.started ==> q.initialized)
    && (p.asking && Open(q) ==> q.initialized)
    && (p.refused ==> !q.accepting)
  }

  /** Dangling mail is in a queue that is scheduled or dispatched, or some thread will see to it. */
  ghost predicate Attended(s: State) {
    Dangling(s.q) && s.q.schedule == 0 ==> exists t :: t in s.threads && WillSweep(s.threads[t])
  }

  /** Still taking out messages. */
  predicate InDrain(pc: Pc) {
    pc.Draining? && !pc.drain.Reset?
  }

  /** After the end of a drain, what is left of the mail that was not late is left to another drain. */
  ghost predicate Shared(s: State) {
    s.q.past.swept && !s.q.past.late && s.q.mail > 0 ==> exists t :: t in s.threads && InDrain(s.threads[t])
  }

  ghost predicate Sweeping(s: State) {
    && Closing(s.q) && (forall t :: t in s.threads ==> Placed(s.q, s.threads[t]))
    && Attended(s) && Shared(s)
  }

  /** Thread `t` draws its choice `c` honestly: when the dequeue of a drain fails although there is mail, none
      of it late, somebody else is still draining. */
  ghost predicate Honest(s: State, t: nat, c: Choice) {
    c.Go? && c.flag && At(s.threads, t).Draining? && At(s.threads, t).drain.Take? && s.q.mail > 0
    && !s.q.past.late
    ==> exists u :: u in s.threads && u != t && InDrain(s.threads[u])
  }

  // ----- One move -------------------------------------------------------------------------------------

  /** What other threads' places depend on only ever moves one way. */
  ghost predicate Ahead(q: Queue, q': Queue) {
    && (q.initialized ==> q'.initialized) && (!q.accepting ==> !q'.accepting)
    && (!Open(q) ==> !Open(q')) && (q.releasing ==> q'.releasing)
  }

  ghost predicate Sweeps(q: Queue, pc: Pc, m: Move) {
    && Closing(m.q) && Ahead(q, m.q) && Placed(m.q, m.pc)
    && (Dangling(m.q) && m.q.schedule == 0 ==>
          WillSweep(m.pc) || (Dangling(q) && q.schedule == 0 && !WillSweep(pc)))
  }

  /** What a thread knows before it moves. */
  ghost predicate Ready(q: Queue, pc: Pc) {
    Closing(q) && Placed(q, pc) && (q.depth != 0 ==> q.initialized) && (Of(pc).released ==> q.releasing)
  }

  /** The thread does not turn its back on mail that it was going to see to. */
  ghost predicate Stays(q: Queue, pc: Pc, pc': Pc) {
    WillSweep(pc) && Dangling(q) && q.schedule == 0 ==> WillSweep(pc')
  }

  ghost predicate SameFlags(q: Queue, q': Queue) {
    && q'.releasing == q.releasing && q'.accepting == q.accepting && q'.overwritten == q.overwritten
    && q'.owner == q.owner && q'.initialized == q.initialized
  }

  ghost predicate SameMail(q: Queue, q': Queue) {
    q'.mail == q.mail && q'.past == q.past
  }

  ghost predicate SamePlace(q: Queue, q': Queue) {
    q'.tokens == q.tokens && q'.schedule == q.schedule
  }

  /** A move that changes nothing that matters here. */
  lemma Elsewhere(q: Queue, pc: Pc, m: Move)
    requires Ready(q, pc) && Placed(q, m.pc) && Stays(q, pc, m.pc)
    requires SameFlags(q, m.q) && SameMail(q, m.q) && SamePlace(q, m.q)
    ensures Sweeps(q, pc, m)
  {
  }

  /** Scheduling an initialised queue, or storing 0 when no mail dangles. */
  lemma Reschedules(q: Queue, pc: Pc, m: Move)
    requires Ready(q, pc) && Placed(q, m.pc)
    requires SameFlags(q, m.q) && SameMail(q, m.q) && m.q.tokens == q.tokens
    requires if m.q.schedule == 0 then !Dangling(q) else q.initialized
    ensures Sweeps(q, pc, m)
  {
  }

  lemma TokensMove(q: Queue, pc: Pc, m: Move)
    requires Ready(q, pc) && Placed(q, m.pc)
    requires SameFlags(q, m.q) && SameMail(q, m.q) && m.q.schedule == q.schedule
    requires q.initialized && Stays(q, pc, m.pc)
    ensures Sweeps(q, pc, m)
  {
  }

  lemma Enqueues(q: Queue, m: Move)
    requires Ready(q, Sending(Enqueue)) && Send(q, Enqueue) == Turn(m)
    ensures Sweeps(q, Sending(Enqueue), m)
  {
  }

  lemma LessMail(q: Queue, pc: Pc, m: Move)
    requires Ready(q, pc) && Placed(q, m.pc) && Stays(q, pc, m.pc)
    requires SameFlags(q, m.q) && SamePlace(q, m.q) && m.q.past == q.past && m.q.mail <= q.mail
    ensures Sweeps(q, pc, m)
  {
  }

  lemma Refuses(q: Queue, m: Move)
    requires Ready(q, Killing(Refuse)) && Kill(q, Refuse) == Turn(m)
    ensures Sweeps(q, Killing(Refuse), m)
  {
  }

  lemma FailRefuses(q: Queue, m: Move)
    requires Ready(q, Spawning(FailRefuse)) && Spawn(q, FailRefuse, false) == Turn(m)
    ensures Sweeps(q, Spawning(FailRefuse), m)
  {
  }

  lemma Releases(q: Queue, m: Move)
    requires Ready(q, Killing(Release)) && Kill(q, Release) == Turn(m)
    ensures Sweeps(q, Killing(Release), m)
  {
  }

  lemma FailReleases(q: Queue, m: Move)
    requires Ready(q, Spawning(FailRelease)) && Spawn(q, FailRelease, false) == Turn(m)
    ensures Sweeps(q, Spawning(FailRelease), m)
  {
  }

  /** A drain comes to its end. */
  lemma Ends(q: Queue, d: Drainer, miss: bool, m: Move)
    requires Ready(q, Draining(Take, d)) && Drain(q, Take, d, miss) == Turn(m) && (miss || q.mail == 0)
    ensures Sweeps(q, Draining(Take, d), m)
  {
  }

  lemma BeginSweeps(q: Queue, c: Choice, m: Move)
    requires Ready(q, Done) && Begin(q, c) == Turn(m)
    ensures Sweeps(q, Done, m)
  {
    if c.PopToken? {
      TokensMove(q, Done, m);
    } else {
      Elsewhere(q, Done, m);
    }
  }

  lemma SendSweeps(q: Queue, at: SendAt, m: Move)
    requires Ready(q, Sending(at)) && Send(q, at) == Turn(m)
    ensures Sweeps(q, Sending(at), m)
  {
    match at
    case Enqueue => Enqueues(q, m);
    case Add => Elsewhere(q, Sending(Add), m);
    case _ => Elsewhere(q, Sending(at), m);
  }

  lemma ScheduleSweeps(q: Queue, at: SchedAt, k: Then, m: Move)
    requires Ready(q, Scheduling(at, k)) && Schedule(q, at, k) == Turn(m)
    ensures Sweeps(q, Scheduling(at, k), m)
  {
    if at.Cas? && q.schedule == 0 {
      Reschedules(q, Scheduling(at, k), m);
    } else if at.Token? {
      TokensMove(q, Scheduling(at, k), m);
    } else {
      Elsewhere(q, Scheduling(at, k), m);
    }
  }

  lemma KillSweeps(q: Queue, at: KillAt, m: Move)
    requires Ready(q, Killing(at)) && Kill(q, at) == Turn(m)
    ensures Sweeps(q, Killing(at), m)
  {
    match at
    case Refuse => Refuses(q, m);
    case Release => Releases(q, m);
    case Store => StoreOver(q, m);
    case _ => KillReads(q, at, m);
  }

  lemma KillReads(q: Queue, at: KillAt, m: Move)
    requires Ready(q, Killing(at)) && Kill(q, at) == Turn(m) && !at.Refuse? && !at.Release? && !at.Store?
    ensures Sweeps(q, Killing(at), m)
  {
    Elsewhere(q, Killing(at), m);
  }

  lemma StoreOver(q: Queue, m: Move)
    requires Ready(q, Killing(Store)) && Kill(q, Store) == Turn(m)
    ensures Sweeps(q, Killing(Store), m)
  {
  }

  lemma SpawnSweeps(q: Queue, at: SpawnAt, ok: bool, m: Move)
    requires Ready(q, Spawning(at)) && Spawn(q, at, ok) == Turn(m)
    ensures Sweeps(q, Spawning(at), m)
  {
    match at
    case Publish => PublishSweeps(q, m);
    case FailRefuse => FailRefuses(q, m);
    case FailRelease => FailReleases(q, m);
    case _ => Elsewhere(q, Spawning(at), m);
  }

  lemma PublishSweeps(q: Queue, m: Move)
    requires Ready(q, Spawning(Publish)) && Spawn(q, Publish, true) == Turn(m)
    ensures Sweeps(q, Spawning(Publish), m)
  {
  }

  lemma DrainSweeps(q: Queue, at: DrainAt, d: Drainer, miss: bool, m: Move)
    requires Ready(q, Draining(at, d)) && Drain(q, at, d, miss) == Turn(m)
    ensures Sweeps(q, Draining(at, d), m)
  {
    match at
    case Take =>
      if q.mail == 0 || miss {
        Ends(q, d, miss, m);
      } else {
        LessMail(q, Draining(Take, d), m);
      }
    case Sub => Elsewhere(q, Draining(Sub, d), m);
    case Reset => Elsewhere(q, Draining(Reset, d), m);
  }

  lemma DestroySweeps(q: Queue, at: DestroyAt, w: Destroyer, m: Move)
    requires Ready(q, Destroying(at, w)) && Destroy(q, at, w) == Turn(m)
    ensures Sweeps(q, Destroying(at, w), m)
  {
    if at.Clear? {
      Disowns(q, w, m);
    } else {
      Elsewhere(q, Destroying(at, w), m);
    }
  }

  lemma Disowns(q: Queue, w: Destroyer, m: Move)
    requires Ready(q, Destroying(Clear, w)) && Destroy(q, Clear, w) == Turn(m)
    ensures Sweeps(q, Destroying(Clear, w), m)
  {
  }

  lemma EnterSweeps(q: Queue, at: EnterAt, m: Move)
    requires Ready(q, Entering(at)) && Enter(q, at) == Turn(m)
    ensures Sweeps(q, Entering(at), m)
  {
    if at.Claim? && q.schedule == 1 {
      Reschedules(q, Entering(at), m);
    } else {
      Elsewhere(q, Entering(at), m);
    }
  }

  lemma WorkSweeps(q: Queue, at: WorkAt, miss: bool, weight: int, m: Move)
    requires Ready(q, Working(at)) && Work(q, at, miss, weight) == Turn(m)
    ensures Sweeps(q, Working(at), m)
  {
    if at.Next? {
      NextSweeps(q, at.left, miss, m);
    } else if at.StoreQueued? {
      Reschedules(q, Working(at), m);
    } else if at.StoreIdle? {
      StoreIdleSweeps(q, m);
    } else {
      Elsewhere(q, Working(at), m);
    }
  }

  lemma NextSweeps(q: Queue, left: nat, miss: bool, m: Move)
    requires Ready(q, Working(Next(left))) && Work(q, Next(left), miss, 0) == Turn(m)
    ensures Sweeps(q, Working(Next(left)), m)
  {
    if miss || q.mail == 0 {
      Elsewhere(q, Working(Next(left)), m);
    } else {
      LessMail(q, Working(Next(left)), m);
    }
  }

  lemma StoreIdleSweeps(q: Queue, m: Move)
    requires Ready(q, Working(StoreIdle)) && Work(q, StoreIdle, false, 0) == Turn(m)
    ensures Sweeps(q, Working(StoreIdle), m)
  {
  }

  lemma LastLeaves(q: Queue, pc: Pc, m: Move)
    requires Ready(q, pc) && (pc == DropLeave || pc == TailLeave) && q.depth == 1 && Leave(q, pc) == Turn(m)
    ensures Sweeps(q, pc, m)
  {
    Elsewhere(q, pc, m);
  }

  lemma OneLeaves(q: Queue, pc: Pc, m: Move)
    requires Ready(q, pc) && (pc == DropLeave || pc == TailLeave) && q.depth != 1 && Leave(q, pc) == Turn(m)
    ensures Sweeps(q, pc, m)
  {
    Elsewhere(q, pc, m);
  }

  lemma LeaveSweeps(q: Queue, pc: Pc, m: Move)
    requires Ready(q, pc) && Leave(q, pc) == Turn(m)
    ensures Sweeps(q, pc, m)
  {
    if pc.StoringIdle? {
      Reschedules(q, pc, m);
    } else if pc.TailCheck? {
      Elsewhere(q, pc, m);
    } else if q.depth == 1 {
      LastLeaves(q, pc, m);
    } else {
      OneLeaves(q, pc, m);
    }
  }

  lemma ActSweeps(q: Queue, pc: Pc, c: Choice, m: Move)
    requires Ready(q, pc) && Act(q, pc, c) == Turn(m)
    ensures Sweeps(q, pc, m)
  {
    match pc
    case Done => BeginSweeps(q, c, m);
    case Sending(at) => SendSweeps(q, at, m);
    case Scheduling(at, k) => ScheduleSweeps(q, at, k, m);
    case Killing(at) => KillSweeps(q, at, m);
    case Spawning(at) => SpawnSweeps(q, at, c.flag, m);
    case Draining(at, d) => DrainSweeps(q, at, d, c.flag, m);
    case Destroying(at, w) => DestroySweeps(q, at, w, m);
    case Entering(at) => EnterSweeps(q, at, m);
    case Working(at) => WorkSweeps(q, at, c.flag, c.weight, m);
    case Rechecking(at) => Elsewhere(q, pc, m);
    case _ => LeaveSweeps(q, pc, m);
  }

  // ----- Mail -----------------------------------------------------------------------------------------

  /** Calling try_dequeue. */
  predicate Consuming(pc: Pc) {
    (pc.Draining? && pc.drain.Take?) || (pc.Working? && pc.work.Next?)
  }

  /** The dequeue of a drain fails. */
  predicate Fails(q: Queue, pc: Pc, c: Choice) {
    pc.Draining? && pc.drain.Take? && c.Go? && (c.flag || q.mail == 0)
  }

  function Growth(q: Queue, pc: Pc, c: Choice): int {
    if pc == Sending(Enqueue) then 1
    else if Consuming(pc) && c.Go? && !c.flag && q.mail > 0 then -1
    else 0
  }

  /** What a move does to the mail and its history. */
  ghost predicate Mailed(q: Queue, pc: Pc, c: Choice, m: Move) {
    && (q.past.late ==> m.q.past.late) && (m.q.accepting ==> q.accepting) && (m.q.registered ==> q.registered)
    && m.q.mail == q.mail + Growth(q, pc, c)
    && (pc == Sending(Enqueue) && !q.accepting ==> m.q.past.late)
    && (m.q.past.swept && !q.past.swept ==> Fails(q, pc, c))
    && (InDrain(pc) && !InDrain(m.pc) ==> Fails(q, pc, c))
  }

  /** Nothing happens to mail or count. */
  ghost predicate Aside(q: Queue, q': Queue) {
    Apart(q, q') && q'.count == q.count
  }

  /** Nothing happens to the mail. */
  ghost predicate Apart(q: Queue, q': Queue) {
    && q'.mail == q.mail && q'.past.late == q.past.late && q'.past.swept == q.past.swept
    && (q'.accepting ==> q.accepting) && (q'.registered ==> q.registered)
  }

  lemma SendMails(q: Queue, at: SendAt, c: Choice, m: Move)
    requires Send(q, at) == Turn(m)
    ensures Mailed(q, Sending(at), c, m)
  {
  }

  lemma TakeFails(q: Queue, d: Drainer, c: Choice)
    requires Fails(q, Draining(Take, d), c)
    ensures Mailed(q, Draining(Take, d), c, Move(q.(past := q.past.(swept := true)), Draining(Reset, d)))
  {
  }

  lemma Takes(q: Queue, pc: Pc, c: Choice, next: Pc)
    requires Consuming(pc) && c.Go? && !c.flag && q.mail > 0 && (pc.Draining? ==> InDrain(next))
    ensures Mailed(q, pc, c, Move(q.(mail := q.mail - 1), next))
  {
  }

  lemma NextFails(q: Queue, left: nat, c: Choice)
    requires c.Go? && (c.flag || q.mail == 0)
    ensures Mailed(q, Working(Next(left)), c, Move(q, Working(EndRel)))
  {
  }

  lemma ConsumeMails(q: Queue, pc: Pc, c: Choice, m: Move)
    requires Consuming(pc) && Act(q, pc, c) == Turn(m)
    ensures Mailed(q, pc, c, m)
  {
    if !c.flag && q.mail > 0 {
      Takes(q, pc, c, m.pc);
    } else if pc.Draining? {
      TakeFails(q, pc.d, c);
    } else {
      NextFails(q, pc.work.left, c);
    }
  }

  lemma BeginApart(q: Queue, c: Choice, m: Move)
    requires Begin(q, c) == Turn(m)
    ensures Aside(q, m.q)
  {
  }

  lemma ScheduleApart(q: Queue, at: SchedAt, k: Then, m: Move)
    requires Schedule(q, at, k) == Turn(m)
    ensures Aside(q, m.q)
  {
    match at
    case Check => assert m.q == q;
    case Cas => assert m.q == q || m.q == q.(schedule := 1);
    case Token => assert m.q == q.(tokens := q.tokens + 1);
  }

  lemma KillApart(q: Queue, at: KillAt, m: Move)
    requires Kill(q, at) == Turn(m)
    ensures Aside(q, m.q)
  {
    match at
    case Erase => assert m.q == q || m.q == q.(registered := false);
    case Refuse => assert m.q == q.(accepting := false);
    case Release => assert m.q == q.(releasing := true);
    case Owner => assert m.q == q;
    case Request => assert m.q == q.(destroyRequested := true);
    case Depth => assert m.q == q || m.q == q.(quiet := true);
    case Store => assert m.q == q.(schedule := 0, overwritten := true);
  }

  lemma SpawnApart(q: Queue, at: SpawnAt, ok: bool, m: Move)
    requires Spawn(q, at, ok) == Turn(m)
    ensures Aside(q, m.q)
  {
  }

  lemma DrainApart(q: Queue, at: DrainAt, d: Drainer, miss: bool, m: Move)
    requires Drain(q, at, d, miss) == Turn(m) && !at.Take?
    ensures Apart(q, m.q) && (at.Sub? ==> InDrain(m.pc))
  {
  }

  lemma DestroyApart(q: Queue, at: DestroyAt, w: Destroyer, m: Move)
    requires Destroy(q, at, w) == Turn(m)
    ensures Aside(q, m.q)
  {
  }

  lemma EnterApart(q: Queue, at: EnterAt, m: Move)
    requires Enter(q, at) == Turn(m)
    ensures Aside(q, m.q)
  {
    match at
    case Claim => assert m.q == q || m.q == q.(schedule := 2);
    case Deepen => assert m.q == q.(depth := q.depth + 1);
    case _ => assert m.q == q;
  }

  lemma WorkApart(q: Queue, at: WorkAt, miss: bool, weight: int, m: Move)
    requires Work(q, at, miss, weight) == Turn(m) && !at.Next?
    ensures Apart(q, m.q)
  {
  }

  lemma LastApart(q: Queue, pc: Pc, m: Move)
    requires (pc.DropLeave? || pc.TailLeave?) && q.depth == 1 && Leave(q, pc) == Turn(m)
    ensures Aside(q, m.q)
  {
    assert m.q == q.(depth := 0, quiet := m.q.quiet);
  }

  lemma LeaveApart(q: Queue, pc: Pc, m: Move)
    requires Leave(q, pc) == Turn(m)
    ensures Aside(q, m.q)
  {
    if pc.StoringIdle? {
      assert m.q == q.(schedule := 0);
    } else if pc.TailCheck? {
      assert m.q == q;
    } else if q.depth == 1 {
      LastApart(q, pc, m);
    } else {
      assert m.q == q.(depth := q.depth - 1);
    }
  }

  lemma ActApart(q: Queue, pc: Pc, c: Choice, m: Move)
    requires !Consuming(pc) && !pc.Sending? && Act(q, pc, c) == Turn(m)
    ensures Apart(q, m.q) && (InDrain(pc) ==> InDrain(m.pc))
  {
    match pc
    case Done => BeginApart(q, c, m);
    case Scheduling(at, k) => ScheduleApart(q, at, k, m);
    case Killing(at) => KillApart(q, at, m);
    case Spawning(at) => SpawnApart(q, at, c.flag, m);
    case Draining(at, d) => DrainApart(q, at, d, c.flag, m);
    case Destroying(at, w) => DestroyApart(q, at, w, m);
    case Entering(at) => EnterApart(q, at, m);
    case Working(at) => WorkApart(q, at, c.flag, c.weight, m);
    case Rechecking(at) =>
    case _ => LeaveApart(q, pc, m);
  }

  lemma ActMails(q: Queue, pc: Pc, c: Choice, m: Move)
    requires Act(q, pc, c) == Turn(m)
    ensures Mailed(q, pc, c, m)
  {
    if Consuming(pc) {
      ConsumeMails(q, pc, c, m);
    } else if pc.Sending? {
      SendMails(q, pc.send, c, m);
    } else {
      ActApart(q, pc, c, m);
    }
  }

  // ----- All threads ----------------------------------------------------------------------------------

  lemma InsideStarted(s: State)
    requires Inv(s) && Sweeping(s) && s.q.depth != 0
    ensures s.q.initialized
  {
    var t := CountWitness(s.threads, Inside);
    assert Placed(s.q, s.threads[t]);
  }

  lemma SweepStep(s: State, t: nat, c: Choice, s': State)
    requires Inv(s) && Sweeping(s) && Step(s, t, c, s') && Honest(s, t, c)
    ensures Sweeping(s')
  {
    var pc := At(s.threads, t);
    var m := Act(s.q, pc, c).move;
    if s.q.depth != 0 {
      InsideStarted(s);
    }
    ActSweeps(s.q, pc, c, m);
    forall u | u in s'.threads
      ensures Placed(s'.q, s'.threads[u])
    {
      if u != t {
        assert s'.threads[u] == s.threads[u] && Placed(s.q, s.threads[u]);
      }
    }
    AttendedStep(s, t, m, s');
    ActMails(s.q, pc, c, m);
    SharedStep(s, t, c, m, s');
  }

  lemma AttendedStep(s: State, t: nat, m: Move, s': State)
    requires Attended(s) && Sweeps(s.q, At(s.threads, t), m)
    requires s' == State(Goto(s.threads, t, m.pc), m.q)
    ensures Attended(s')
  {
    if Dangling(s'.q) && s'.q.schedule == 0 {
      if WillSweep(m.pc) {
        assert t in s'.threads && s'.threads[t] == m.pc;
      } else {
        var u :| u in s.threads && WillSweep(s.threads[u]);
        assert u in s'.threads && s'.threads[u] == s.threads[u];
      }
    }
  }

  lemma SharedStep(s: State, t: nat, c: Choice, m: Move, s': State)
    requires Closing(s.q) && Shared(s) && Mailed(s.q, At(s.threads, t), c, m) && Honest(s, t, c)
    requires s' == State(Goto(s.threads, t, m.pc), m.q)
    ensures Shared(s')
  {
    if s'.q.past.swept && !s'.q.past.late && s'.q.mail > 0 {
      var u;
      if Fails(s.q, At(s.threads, t), c) {
        u :| u in s.threads && u != t && InDrain(s.threads[u]);
        assert s'.threads[u] == s.threads[u];
      } else {
        u :| u in s.threads && InDrain(s.threads[u]);
        assert u != t ==> s'.threads[u] == s.threads[u];
        assert u == t ==> s'.threads[u] == m.pc;
      }
      assert u in s'.threads && InDrain(s'.threads[u]);
    }
  }
}
