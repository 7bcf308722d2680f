/** The life of one actor queue under ActorSystem (src/skynet.cpp, src/skynet.h), one atomic
    operation or lock section per step, sequentially consistent, any number of threads.

    The state is the ActorQueue, the lifecycle flags of its Actor, the number of times the queue
    sits in the global queue, and one program counter per thread that is inside an operation on
    this queue.  Calls made from inside a handler (sends, kills) are steps of further threads,
    which only adds interleavings. */
module Scheduler {
  import opened Numbers
  import opened Dispatch

  /** Where `schedule_queue` returns to. */
  datatype Then = Finish | Tail

  /** On whose behalf the mailbox is drained. */
  datatype Drainer = KillDrain | FailDrain | OwnerlessDrain | EntryDrain | ExitDrain

  /** Who runs `destroy_actor`; `early` records that the releasing flag was still clear when the
      departing worker brought `dispatch_depth_` to zero. */
  datatype Destroyer = ByKill | ByFailedInit | ByEntryDrop | ByTail(early: bool)

  datatype SendAt = Grab | Accept | Enqueue | Add | Init
  datatype SchedAt = Check | Cas | Token
  datatype KillAt = Erase | Refuse | Release | Owner | Request | Depth | Store
  datatype SpawnAt = OnInit | Publish | Recount | FailErase | FailRefuse | FailRelease
  datatype DrainAt = Take | Sub | Reset
  datatype DestroyAt = Flag | OnDestroy | Clear
  datatype EnterAt = Load | Claim | FindOwner | Deepen | FirstRel
  datatype WorkAt =
    | FirstReq | Size | Guard(left: nat) | LoopRel(left: nat) | Next(left: nat) | Uncount(left: nat)
    | Handler(left: nat) | EndRel | EndReq | EndCount | StoreQueued | StoreIdle
  datatype RecheckAt = IdleReq | IdleRel | IdleCount
  datatype TailAt = TailReq | TailRel

  /** The next atomic operation of a thread, by the function it is in. */
  datatype Pc =
    | Done
    | Sending(send: SendAt)                         // push_message
    | Scheduling(sched: SchedAt, k: Then)           // schedule_queue, enqueue_global
    | Killing(kill: KillAt)                         // kill
    | Spawning(spawn: SpawnAt)                      // spawn
    | Draining(drain: DrainAt, d: Drainer)          // drain_queue
    | Destroying(destroy: DestroyAt, w: Destroyer)  // destroy_actor, clear_queue_owner
    | Entering(enter: EnterAt)                      // dispatch_queue up to the releasing check
    | Working(work: WorkAt)                         // ... up to storing 0 or 1
    | Rechecking(recheck: RecheckAt)                // ... the second look after storing 0
    | StoringIdle(after: Drainer)                   // ... storing 0 after a drain
    | DropLeave | TailLeave                         // ... the two decrements of the depth
    | TailCheck(tail: TailAt, early: bool)          // ... the test after the last decrement

  /** The ActorQueue, the lifecycle flags of its Actor, and history. */
  datatype Queue = Queue(
    registered: bool,        // in its shard's map
    accepting: bool,
    releasing: bool,
    initialized: bool,
    mail: nat,               // messages in the mailbox
    count: nat,              // mailbox_count, modulo 2^64
    schedule: nat,           // schedule_state: 0 idle, 1 queued, 2 dispatching
    tokens: nat,             // occurrences in the global queue
    owner: bool,             // the queue still points to its actor
    depth: int,              // dispatch_depth_
    destroyRequested: bool,
    destroyed: bool,
    quiet: bool,             // history: somebody saw depth 0 after the queue was released
    overwritten: bool,       // history: kill has executed its unconditional store of 0
    destroyRuns: nat,        // history: how often on_destroy was entered
    past: Past               // history: what became of mail on a queue that is going away
  )

  datatype Past = Past(
    late: bool,              // a message was enqueued after `accepting` was cleared
    idled: bool,             // a worker stored 0 over mail on a released queue
    swept: bool              // the try_dequeue of a drain failed
  )

  datatype State = State(threads: map<nat, Pc>, q: Queue)

  /** The effect of one atomic operation: the new shared state and where the thread goes. */
  datatype Move = Move(q: Queue, pc: Pc)

  /** A move, or none for now. */
  datatype Turn = Turn(move: Move) | Blocked

  /** The spawning thread. */
  const SPAWNER: nat := 0

  const UNEVENTFUL: Past := Past(false, false, false)

  const FRESH: Queue :=
    Queue(true, true, false, false, 0, 0, 0, 0, true, 0, false, false, false, false, 0, UNEVENTFUL)

  /** The queue has just been registered and `on_init` is running. */
  const INITIAL: State := State(map[SPAWNER := Spawning(OnInit)], FRESH)

  datatype Choice =
    | StartSend | StartKill | PopToken   // a thread begins an operation
    | Go(flag: bool, weight: int)        // it continues; `flag` and `weight` resolve what the
                                         // code does not determine

  /** fetch_add and fetch_sub on mailbox_count wrap around. */
  function Shift(count: nat, amount: int): nat {
    if amount == 0 then count else (count + amount) % UINT64_SPAN
  }

  function Return(k: Then): Pc {
    match k
    case Finish => Done
    case Tail => TailLeave
  }

  function Begin(q: Queue, c: Choice): Turn {
    match c
    case StartSend => Turn(Move(q, Sending(Grab)))
    case StartKill => Turn(Move(q, Killing(Erase)))
    case PopToken => if q.tokens > 0 then Turn(Move(q.(tokens := q.tokens - 1), Entering(Load))) else Blocked
    case Go(_, _) => Blocked
  }

  function Enqueued(q: Queue): Past {
    q.past.(late := q.past.late || !q.accepting)
  }

  function Idled(q: Queue): Past {
    q.past.(idled := q.past.idled || (q.releasing && q.mail > 0))
  }

  /** push_message: the mailbox is filled before its counter is raised.  Fewer than 2^64 messages
      fit in the address space. */
  function Send(q: Queue, at: SendAt): Turn {
    match at
    case Grab => Turn(Move(q, if q.registered then Sending(Accept) else Done))
    case Accept => Turn(Move(q, if q.accepting then Sending(Enqueue) else Done))
    case Enqueue =>
      if q.mail + 1 < UINT64_SPAN
      then Turn(Move(q.(mail := q.mail + 1, past := Enqueued(q)), Sending(Add))) else Blocked
    case Add => Turn(Move(q.(count := Shift(q.count, 1)), Sending(Init)))
    case Init => Turn(Move(q, if q.initialized then Scheduling(Check, Finish) else Done))
  }

  /** schedule_queue and the enqueue of enqueue_global. */
  function Schedule(q: Queue, at: SchedAt, k: Then): Turn {
    match at
    case Check => Turn(Move(q, if q.initialized then Scheduling(Cas, k) else Return(k)))
    case Cas =>
      if q.schedule == 0 then Turn(Move(q.(schedule := 1), Scheduling(Token, k))) else Turn(Move(q, Return(k)))
    case Token => Turn(Move(q.(tokens := q.tokens + 1), Return(k)))
  }

  function Kill(q: Queue, at: KillAt): Turn {
    match at
    case Erase => if q.registered then Turn(Move(q.(registered := false), Killing(Refuse))) else Turn(Move(q, Done))
    case Refuse => Turn(Move(q.(accepting := false), Killing(Release)))
    case Release => Turn(Move(q.(releasing := true), Killing(Owner)))
    case Owner => Turn(Move(q, if q.owner then Killing(Request) else Scheduling(Check, Finish)))
    case Request => Turn(Move(q.(destroyRequested := true), Killing(Depth)))
    case Depth =>
      if q.depth == 0 then Turn(Move(q.(quiet := true), Draining(Take, KillDrain)))
      else Turn(Move(q, Scheduling(Check, Finish)))
    case Store => Turn(Move(q.(schedule := 0, overwritten := true), Done))
  }

  /** spawn after the queue is registered; `ok` tells whether `on_init` succeeds. */
  function Spawn(q: Queue, at: SpawnAt, ok: bool): Turn {
    match at
    case OnInit => Turn(Move(q, Spawning(if ok then Publish else FailErase)))
    case Publish => Turn(Move(q.(initialized := true), Spawning(Recount)))
    case Recount => Turn(Move(q, if q.count > 0 then Scheduling(Check, Finish) else Done))
    case FailErase => Turn(Move(q.(registered := false), Spawning(FailRefuse)))
    case FailRefuse => Turn(Move(q.(accepting := false), Spawning(FailRelease)))
    case FailRelease => Turn(Move(q.(releasing := true), Draining(Take, FailDrain)))
  }

  /** drain_queue.  A `miss` is a `try_dequeue` that fails although there is mail; when that can happen
      is left to module SchedulerMailbox, whose runs are among those here. */
  function Drain(q: Queue, at: DrainAt, d: Drainer, miss: bool): Turn {
    match at
    case Take =>
      if miss || q.mail == 0 then Turn(Move(q.(past := q.past.(swept := true)), Draining(Reset, d)))
      else Turn(Move(q.(mail := q.mail - 1), Draining(Sub, d)))
    case Sub => Turn(Move(q.(count := Shift(q.count, -1)), Draining(Take, d)))
    case Reset =>
      Turn(Move(q.(count := 0),
            if d.KillDrain? then Destroying(Flag, ByKill)
            else if d.FailDrain? then Destroying(Flag, ByFailedInit)
            else StoringIdle(d)))
  }

  /** destroy_actor and clear_queue_owner. */
  function Destroy(q: Queue, at: DestroyAt, w: Destroyer): Turn {
    match at
    case Flag =>
      if q.destroyed then Turn(Move(q, Destroying(Clear, w)))
      else Turn(Move(q.(destroyed := true, destroyRuns := q.destroyRuns + 1), Destroying(OnDestroy, w)))
    case OnDestroy => Turn(Move(q, Destroying(Clear, w)))
    case Clear => Turn(Move(q.(owner := false), if w.ByKill? then Killing(Store) else Done))
  }

  /** dispatch_queue up to the test of the releasing flag. */
  function Enter(q: Queue, at: EnterAt): Turn {
    match at
    case Load =>
      Turn(Move(q, if q.schedule == 1 then Entering(Claim)
               else if q.schedule == 2 then Entering(FindOwner) else Done))
    case Claim => if q.schedule == 1 then Turn(Move(q.(schedule := 2), Entering(FindOwner))) else Turn(Move(q, Done))
    case FindOwner => Turn(Move(q, if q.owner then Entering(Deepen) else Draining(Take, OwnerlessDrain)))
    case Deepen => Turn(Move(q.(depth := q.depth + 1), Entering(FirstRel)))
    case FirstRel => Turn(Move(q, if q.releasing then Draining(Take, EntryDrain) else Working(FirstReq)))
  }

  /** dispatch_queue from there to the store of 0 or 1; `Handler` is the time spent in `on_message`. */
  function Work(q: Queue, at: WorkAt, miss: bool, weight: int): Turn {
    match at
    case FirstReq => Turn(Move(q, if q.destroyRequested then Draining(Take, EntryDrain) else Working(Size)))
    case Size => if -1 <= weight <= 2 then Turn(Move(q, Working(Guard(Batch(weight, q.count))))) else Blocked
    case Guard(left) => Turn(Move(q, Working(if left > 0 && !q.destroyRequested then LoopRel(left) else EndRel)))
    case LoopRel(left) => Turn(Move(q, Working(if q.releasing then EndRel else Next(left))))
    case Next(left) =>
      if miss || q.mail == 0 then Turn(Move(q, Working(EndRel)))
      else Turn(Move(q.(mail := q.mail - 1), Working(Uncount(left))))
    case Uncount(left) => Turn(Move(q.(count := Shift(q.count, -1)), Working(Handler(left))))
    case Handler(left) => Turn(Move(q, Working(Guard(if left > 0 then left - 1 else 0))))
    case EndRel => Turn(Move(q, if q.releasing then Draining(Take, ExitDrain) else Working(EndReq)))
    case EndReq => Turn(Move(q, if q.destroyRequested then Draining(Take, ExitDrain) else Working(EndCount)))
    case EndCount => Turn(Move(q, Working(if q.count > 0 then StoreQueued else StoreIdle)))
    case StoreQueued => Turn(Move(q.(schedule := 1), Scheduling(Token, Tail)))
    case StoreIdle =>
      Turn(Move(q.(schedule := 0, past := Idled(q)), Rechecking(IdleReq)))
  }

  /** The second look at the mailbox after storing 0. */
  function Recheck(q: Queue, at: RecheckAt): Turn {
    match at
    case IdleReq => Turn(Move(q, if q.destroyRequested then TailLeave else Rechecking(IdleRel)))
    case IdleRel => Turn(Move(q, if q.releasing then TailLeave else Rechecking(IdleCount)))
    case IdleCount => Turn(Move(q, if q.count > 0 then Scheduling(Check, Tail) else TailLeave))
  }

  /** The rest of dispatch_queue. */
  function Leave(q: Queue, pc: Pc): Turn {
    match pc
    case StoringIdle(d) =>
      Turn(Move(q.(schedule := 0), if d.EntryDrain? then DropLeave else if d.ExitDrain? then TailLeave else Done))
    case DropLeave =>
      if q.depth == 1 then Turn(Move(q.(depth := 0, quiet := true), Destroying(Flag, ByEntryDrop)))
      else Turn(Move(q.(depth := q.depth - 1), Done))
    case TailLeave =>
      if q.depth == 1
      then Turn(Move(q.(depth := 0, quiet := q.quiet || q.releasing), TailCheck(TailReq, !q.releasing)))
      else Turn(Move(q.(depth := q.depth - 1), Done))
    case TailCheck(TailReq, e) =>
      Turn(Move(q, if q.destroyRequested then Destroying(Flag, ByTail(e)) else TailCheck(TailRel, e)))
    case TailCheck(TailRel, e) => Turn(Move(q, if q.releasing then Destroying(Flag, ByTail(e)) else Done))
    case _ => Blocked
  }

  /** The operation at `pc`. */
  function Act(q: Queue, pc: Pc, c: Choice): Turn {
    if pc.Done? then Begin(q, c)
    else if !c.Go? then Blocked
    else
      match pc
      case Sending(at) => Send(q, at)
      case Scheduling(at, k) => Schedule(q, at, k)
      case Killing(at) => Kill(q, at)
      case Spawning(at) => Spawn(q, at, c.flag)
      case Draining(at, d) => Drain(q, at, d, c.flag)
      case Destroying(at, w) => Destroy(q, at, w)
      case Entering(at) => Enter(q, at)
      case Working(at) => Work(q, at, c.flag, c.weight)
      case Rechecking(at) => Recheck(q, at)
      case _ => Leave(q, pc)
  }

  /** Where thread `t` is; a thread that is in no operation is not in the map. */
  function At(threads: map<nat, Pc>, t: nat): Pc {
    if t in threads then threads[t] else Done
  }

  function Goto(threads: map<nat, Pc>, t: nat, pc: Pc): map<nat, Pc> {
    if pc.Done? then threads - {t} else threads[t := pc]
  }

  /** One step of thread `t`. */
  ghost predicate Step(s: State, t: nat, c: Choice, s': State) {
    var r := Act(s.q, At(s.threads, t), c);
    r.Turn? && s' == State(Goto(s.threads, t, r.move.pc), r.move.q)
  }

  ghost predicate Successor(s: State, s': State) {
    exists t: nat, c: Choice :: Step(s, t, c, s')
  }

  /** A run: any interleaving of any number of threads, from the registration of the queue. */
  ghost predicate IsRun(run: seq<State>) {
    && |run| > 0
    && run[0] == INITIAL
    && forall i :: 0 <= i < |run| - 1 ==> Linked(run, i)
  }

  ghost predicate Linked(run: seq<State>, i: nat)
    requires i + 1 < |run|
  {
    Successor(run[i], run[i + 1])
  }
}
