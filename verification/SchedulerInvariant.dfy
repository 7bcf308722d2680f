/** The inductive invariant of the scheduler and its preservation by every step. */
module SchedulerInvariant {
  import opened Counting
  import opened Numbers
  import opened Scheduler

  // ----- What a program point means --------------------------------------------------------------

  datatype Profile = Profile(
    nameonly carrying: bool := false,     // owns the queue's one place in the global queue: about to
                                          // enqueue it, or has just popped it
    nameonly window: bool := false,       // between entering with state 2 and storing 0 or 1
    nameonly inside: bool := false,       // counted in dispatch_depth_
    nameonly active: bool := false,       // ... and past the first test of the releasing flag
    nameonly owesSub: bool := false,      // took a message, mailbox_count not yet lowered
    nameonly owesAdd: bool := false,      // enqueued a message, mailbox_count not yet raised
    nameonly willSchedule: bool := false, // will look at the mailbox or try to schedule the queue
    nameonly released: bool := false,     // reached only on a released queue
    nameonly quiet: bool := false,        // reached only after depth 0 was seen on a released queue
    nameonly unpublished: bool := false,  // the spawner, before publishing or on its failure path
    nameonly published: bool := false)    // reached only on an initialised queue

  function Of(pc: Pc): Profile {
    match pc
    case Done => Profile()
    case Sending(at) => Profile(owesAdd := at.Add?, willSchedule := at.Add? || at.Init?)
    case Scheduling(at, k) =>
      Profile(carrying := at.Token?, willSchedule := !at.Token?, published := !at.Check?,
              inside := k.Tail?, active := k.Tail?)
    case Killing(at) => Profile(released := !at.Erase? && !at.Refuse? && !at.Release?, quiet := at.Store?)
    case Spawning(at) => Profile(willSchedule := at.Recount?, unpublished := !at.Recount?)
    case Draining(_, d) => OfDrain(d)
    case StoringIdle(d) => OfDrain(d)
    case Destroying(_, w) =>
      Profile(released := true, quiet := !w.ByFailedInit? && w != ByTail(true), unpublished := w.ByFailedInit?)
    case Entering(at) =>
      Profile(carrying := at.Load? || at.Claim?, window := !at.Load? && !at.Claim?, inside := at.FirstRel?)
    case Working(at) => Profile(window := true, inside := true, active := true, owesSub := at.Uncount?)
    case Rechecking(_) => Profile(inside := true, active := true, willSchedule := true)
    case DropLeave => Profile(inside := true, released := true)
    case TailLeave => Profile(inside := true, active := true)
    case TailCheck(_, early) => Profile(released := !early, quiet := !early)
  }

  function OfDrain(d: Drainer): Profile {
    match d
    case KillDrain => Profile(released := true, quiet := true)
    case FailDrain => Profile(released := true, unpublished := true)
    case OwnerlessDrain => Profile(released := true, window := true)
    case EntryDrain => Profile(released := true, window := true, inside := true)
    case ExitDrain => Profile(released := true, window := true, inside := true, active := true)
  }

  predicate Carrying(pc: Pc) { Of(pc).carrying }
  predicate Window(pc: Pc) { Of(pc).window }
  predicate Inside(pc: Pc) { Of(pc).inside }
  predicate OwesSub(pc: Pc) { Of(pc).owesSub }
  predicate OwesAdd(pc: Pc) { Of(pc).owesAdd }
  predicate WillSchedule(pc: Pc) { Of(pc).willSchedule }

  // ----- The invariant -------------------------------------------------------------------------

  /** What a thread's program point says about the shared flags. */
  ghost predicate PointOk(q: Queue, spawner: bool, pc: Pc) {
    var p := Of(pc);
    && !pc.Done?
    && (p.released ==> q.releasing)
    && (p.quiet ==> q.quiet)
    && (p.active ==> !q.quiet)
    && (p.unpublished ==> spawner && !q.initialized)
    && (p.published ==> q.initialized)
    && (pc == Killing(Store) ==> !q.owner)
    && (pc.StoringIdle? ==> p.window)
  }

  ghost predicate Flags(q: Queue) {
    && q.schedule <= 2 && q.mail < UINT64_SPAN && q.count < UINT64_SPAN
    && (q.destroyRequested ==> q.releasing)
    && (!q.owner ==> q.releasing)
    && (q.quiet ==> q.releasing)
    && (q.overwritten ==> q.quiet && !q.owner)
    && (!q.initialized ==> q.schedule == 0 && q.tokens == 0)
    && q.destroyRuns == Unit(q.destroyed)
  }

  ghost predicate Points(s: State) {
    forall t :: t in s.threads ==> PointOk(s.q, t == SPAWNER, s.threads[t])
  }

  /** Until kill overwrites the state, state 1 means exactly one token and state 2 exactly one
      thread in the dispatch window. */
  ghost predicate Tokens(s: State) {
    !s.q.overwritten ==>
      && s.q.tokens + Count(s.threads, Carrying) == Unit(s.q.schedule == 1)
      && Count(s.threads, Window) == Unit(s.q.schedule == 2)
  }

  ghost predicate Depth(s: State) {
    s.q.depth == Count(s.threads, Inside)
  }

  /** mailbox_count is off by exactly the pending increments and decrements, modulo 2^64. */
  ghost predicate Counter(s: State) {
    !s.q.releasing ==> s.q.count == Exact(s) % UINT64_SPAN
  }

  ghost function Exact(s: State): int {
    s.q.mail + Count(s.threads, OwesSub) - Count(s.threads, OwesAdd)
  }

  /** A live, initialised, idle queue with mail needs somebody to schedule it. */
  ghost predicate Needy(q: Queue) {
    q.initialized && !q.releasing && q.mail > 0 && q.schedule == 0
  }

  /** No wakeup is lost. */
  ghost predicate Awake(s: State) {
    Needy(s.q) ==> exists t :: t in s.threads && WillSchedule(s.threads[t])
  }

  ghost predicate Inv(s: State) {
    Flags(s.q) && Points(s) && Tokens(s) && Depth(s) && Counter(s) && Awake(s)
  }

  // ----- One move, seen from the moving thread -------------------------------------------------

  /** What the invariant says to a thread at `pc`; `owed` tells whether some sender has yet to raise
      mailbox_count. */
  ghost predicate Situated(q: Queue, spawner: bool, pc: Pc, owed: bool) {
    var p := Of(pc);
    && Flags(q)
    && (pc.Done? || PointOk(q, spawner, pc))
    && (!q.overwritten && p.carrying ==> q.schedule == 1)
    && (!q.overwritten && p.window ==> q.schedule == 2)
    && (p.inside ==> q.depth >= 1)
    && (!q.releasing && q.schedule == 0 && q.count == 0 && q.mail > 0 ==> owed)
  }

  /** Change of a count when a thread moves between points that do or do not belong to it. */
  function Delta(before: bool, after: bool): int {
    Unit(after) - Unit(before)
  }

  /** Two indicators change by the same amount. */
  predicate InStep(a: bool, a': bool, b: bool, b': bool) {
    (a == a' && b == b') || (a == b && a' == b')
  }

  /** Flags only ever move one way; `quiet` begins when nobody is inside. */
  ghost predicate Onward(q: Queue, spawner: bool, q': Queue) {
    && (q.releasing ==> q'.releasing)
    && (q.quiet ==> q'.quiet)
    && (q.overwritten ==> q'.overwritten)
    && (q.initialized ==> q'.initialized)
    && (!q.owner ==> !q'.owner)
    && (q'.quiet && !q.quiet ==> q'.depth == 0)
    && (q'.initialized && !q.initialized ==> spawner)
  }

  /** The obligations of one move, without any reference to other threads. */
  ghost predicate GoodMove(q: Queue, spawner: bool, pc: Pc, owed: bool, m: Move) {
    var q', p, p' := m.q, Of(pc), Of(m.pc);
    && Flags(q')
    && Onward(q, spawner, q')
    && (m.pc.Done? || PointOk(q', spawner, m.pc))
    && (!q'.overwritten ==>
          && (if q'.tokens == q.tokens then InStep(p.carrying, p'.carrying, q.schedule == 1, q'.schedule == 1)
              else q'.tokens - q.tokens == Delta(p'.carrying, p.carrying) && (q.schedule == 1 <==> q'.schedule == 1))
          && InStep(p.window, p'.window, q.schedule == 2, q'.schedule == 2))
    && (if q'.depth == q.depth then p.inside == p'.inside else q'.depth - q.depth == Delta(p.inside, p'.inside))
    && (!q'.releasing ==>
          if q'.mail == q.mail && p.owesSub == p'.owesSub && p.owesAdd == p'.owesAdd then q'.count == q.count
          else q'.count == Shift(q.count, q'.mail - q.mail + Delta(p.owesSub, p'.owesSub)
                                          - Delta(p.owesAdd, p'.owesAdd)))
    && (Needy(q') ==> p'.willSchedule || (Needy(q) && !p.willSchedule) || (owed && !p.owesAdd))
  }

  // ----- From one move to all threads ----------------------------------------------------------

  ghost predicate SomeoneOwesAdd(threads: map<nat, Pc>) {
    exists u :: u in threads && OwesAdd(threads[u])
  }

  /** With the queue idle, a thread that reads mailbox_count as 0 can walk away: either the mailbox
      is empty or a sender has not raised the counter yet. */
  lemma ZeroCountIsSafe(s: State)
    requires Inv(s) && !s.q.releasing && s.q.schedule == 0 && s.q.count == 0 && s.q.mail > 0
    ensures SomeoneOwesAdd(s.threads)
  {
    CountWeaker(s.threads, OwesSub, Window);
    assert s.q.mail % UINT64_SPAN == s.q.mail;
    var u := CountWitness(s.threads, OwesAdd);
  }

  lemma Locate(s: State, t: nat)
    requires Inv(s)
    ensures Situated(s.q, t == SPAWNER, At(s.threads, t), SomeoneOwesAdd(s.threads))
  {
    var pc := At(s.threads, t);
    if Carrying(pc) { CountMember(s.threads, t, Carrying); }
    if Window(pc) { CountMember(s.threads, t, Window); }
    if Inside(pc) { CountMember(s.threads, t, Inside); }
    if !s.q.releasing && s.q.schedule == 0 && s.q.count == 0 && s.q.mail > 0 { ZeroCountIsSafe(s); }
  }

  lemma Moved(threads: map<nat, Pc>, t: nat, pc: Pc, p: Pc -> bool)
    requires !p(Done)
    ensures Count(Goto(threads, t, pc), p) == Count(threads, p) + Delta(p(At(threads, t)), p(pc))
  {
    CountPut(threads, t, pc, p);
    CountDrop(threads, t, p);
  }

  lemma PointKept(s: State, spawner: bool, s': State, u: nat)
    requires u in s'.threads && PointOk(s.q, u == SPAWNER, s'.threads[u])
    requires Depth(s') && Onward(s.q, spawner, s'.q) && (spawner ==> u != SPAWNER)
    ensures PointOk(s'.q, u == SPAWNER, s'.threads[u])
  {
    ActiveIsInside(s'.threads[u]);
    if Inside(s'.threads[u]) {
      CountMember(s'.threads, u, Inside);
    }
  }

  lemma ActiveIsInside(pc: Pc)
    ensures Of(pc).active ==> Of(pc).inside
  {
  }

  lemma PointsKept(s: State, t: nat, pc: Pc, s': State)
    requires Points(s) && Depth(s') && Onward(s.q, t == SPAWNER, s'.q) && s'.threads == Goto(s.threads, t, pc)
    requires pc.Done? || PointOk(s'.q, t == SPAWNER, pc)
    ensures Points(s')
  {
    forall u | u in s'.threads
      ensures PointOk(s'.q, u == SPAWNER, s'.threads[u])
    {
      if u != t {
        assert u in s.threads && s'.threads[u] == s.threads[u];
        PointKept(s, t == SPAWNER, s', u);
      }
    }
  }

  lemma AwakeKept(s: State, t: nat, pc: Pc, s': State)
    requires Awake(s) && s'.threads == Goto(s.threads, t, pc)
    requires Needy(s'.q) ==>
      || WillSchedule(pc)
      || (Needy(s.q) && !WillSchedule(At(s.threads, t)))
      || (SomeoneOwesAdd(s.threads) && !OwesAdd(At(s.threads, t)))
    ensures Awake(s')
  {
    if Needy(s'.q) {
      var u := t;
      if WillSchedule(pc) {
        assert s'.threads[t] == pc;
      } else if SomeoneOwesAdd(s.threads) && !OwesAdd(At(s.threads, t)) {
        u :| u in s.threads && OwesAdd(s.threads[u]);
        Remains(s.threads, t, pc, u);
        OwesAddSchedules(s.threads[u]);
      } else {
        u :| u in s.threads && WillSchedule(s.threads[u]);
        Remains(s.threads, t, pc, u);
      }
      assert u in s'.threads && WillSchedule(s'.threads[u]);
    }
  }

  lemma Remains(threads: map<nat, Pc>, t: nat, pc: Pc, u: nat)
    requires u in threads && u != t
    ensures u in Goto(threads, t, pc) && Goto(threads, t, pc)[u] == threads[u]
  {
  }

  lemma OwesAddSchedules(pc: Pc)
    requires OwesAdd(pc)
    ensures WillSchedule(pc)
  {
  }

  lemma AddMod(x: int, k: int)
    ensures (x % UINT64_SPAN + k) % UINT64_SPAN == (x + k) % UINT64_SPAN
  {
    var d := x / UINT64_SPAN;
    assert x % UINT64_SPAN + k == (x + k) - d * UINT64_SPAN;
  }

  /** `x` and `x'` are the exact values of which mailbox_count is the residue. */
  lemma ResidueKept(q: Queue, q': Queue, x: int, x': int)
    requires !q.releasing ==> q.count == x % UINT64_SPAN
    requires q.releasing ==> q'.releasing
    requires !q'.releasing ==> q'.count == Shift(q.count, x' - x)
    ensures !q'.releasing ==> q'.count == x' % UINT64_SPAN
  {
    AddMod(x, x' - x);
  }

  lemma ExactMoves(s: State, t: nat, pc: Pc, s': State)
    requires s'.threads == Goto(s.threads, t, pc)
    ensures Exact(s') - Exact(s)
            == s'.q.mail - s.q.mail + Delta(OwesSub(At(s.threads, t)), OwesSub(pc))
               - Delta(OwesAdd(At(s.threads, t)), OwesAdd(pc))
  {
    Moved(s.threads, t, pc, OwesSub);
    Moved(s.threads, t, pc, OwesAdd);
  }

  lemma CounterKept(s: State, t: nat, pc: Pc, s': State)
    requires Counter(s) && s'.threads == Goto(s.threads, t, pc) && (s.q.releasing ==> s'.q.releasing)
    requires !s'.q.releasing ==>
      s'.q.count == Shift(s.q.count, s'.q.mail - s.q.mail + Delta(OwesSub(At(s.threads, t)), OwesSub(pc))
                                     - Delta(OwesAdd(At(s.threads, t)), OwesAdd(pc)))
    ensures Counter(s')
  {
    ExactMoves(s, t, pc, s');
    ResidueKept(s.q, s'.q, Exact(s), Exact(s'));
  }

  lemma TokensKept(s: State, t: nat, pc: Pc, s': State, owed: bool)
    requires Tokens(s) && Depth(s) && s'.threads == Goto(s.threads, t, pc)
    requires GoodMove(s.q, t == SPAWNER, At(s.threads, t), owed, Move(s'.q, pc))
    ensures Tokens(s') && Depth(s')
  {
    Moved(s.threads, t, pc, Carrying);
    Moved(s.threads, t, pc, Window);
    Moved(s.threads, t, pc, Inside);
  }

  lemma CountShifts(q: Queue, spawner: bool, pc: Pc, owed: bool, m: Move)
    requires GoodMove(q, spawner, pc, owed, m)
    ensures !m.q.releasing ==>
              m.q.count == Shift(q.count, m.q.mail - q.mail + Delta(OwesSub(pc), OwesSub(m.pc))
                                          - Delta(OwesAdd(pc), OwesAdd(m.pc)))
  {
  }

  /** A good move of one thread keeps the invariant of all. */
  lemma Settle(s: State, t: nat, m: Move)
    requires Inv(s) && GoodMove(s.q, t == SPAWNER, At(s.threads, t), SomeoneOwesAdd(s.threads), m)
    ensures Inv(State(Goto(s.threads, t, m.pc), m.q))
  {
    var s' := State(Goto(s.threads, t, m.pc), m.q);
    TokensKept(s, t, m.pc, s', SomeoneOwesAdd(s.threads));
    CountShifts(s.q, t == SPAWNER, At(s.threads, t), SomeoneOwesAdd(s.threads), m);
    CounterKept(s, t, m.pc, s');
    PointsKept(s, t, m.pc, s');
    AwakeKept(s, t, m.pc, s');
  }
}
