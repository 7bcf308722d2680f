/** mailbox_count, also on a queue that is going away: it is exact, modulo 2^64, until the first drain has
    come to its end. */
module SchedulerCount {
  import opened Counting
  import opened Numbers
  import opened Scheduler
  import opened SchedulerInvariant
  import opened SchedulerSweeping
  import opened SchedulerGates

  /** A message was taken out, by a worker or a drain, and the count not yet lowered. */
  predicate OwesTake(pc: Pc) {
    (pc.Working? && pc.work.Uncount?) || (pc.Draining? && pc.drain.Sub?)
  }

  predicate AtReset(pc: Pc) {
    pc.Draining? && pc.drain.Reset?
  }

  ghost function Balance(s: State): int {
    s.q.mail + Count(s.threads, OwesTake) - Count(s.threads, OwesAdd)
  }

  ghost predicate Exactly(s: State) {
    && (forall t :: t in s.threads && AtReset(s.threads[t]) ==> s.q.past.swept)
    && (!s.q.past.swept ==> s.q.count == Balance(s) % UINT64_SPAN)
  }

  /** A move changes the count by what it does to mail and debts. */
  ghost predicate Pays(q: Queue, pc: Pc, m: Move) {
    && (q.past.swept || AtReset(m.pc) ==> m.q.past.swept)
    && (!m.q.past.swept ==>
          m.q.count == Shift(q.count, m.q.mail - q.mail + Delta(OwesTake(pc), OwesTake(m.pc))
                                      - Delta(OwesAdd(pc), OwesAdd(m.pc))))
  }

  /** A move that has nothing to do with mail or count. */
  lemma Unpaid(q: Queue, pc: Pc, m: Move)
    requires m.q.mail == q.mail && m.q.count == q.count && m.q.past.swept == q.past.swept
    requires !OwesTake(pc) && !OwesAdd(pc) && !OwesTake(m.pc) && !OwesAdd(m.pc) && !AtReset(m.pc)
    ensures Pays(q, pc, m)
  {
  }

  lemma SendPays(q: Queue, at: SendAt, m: Move)
    requires Send(q, at) == Turn(m)
    ensures Pays(q, Sending(at), m)
  {
    if !at.Enqueue? && !at.Add? {
      Unpaid(q, Sending(at), m);
    }
  }

  lemma TakePays(q: Queue, d: Drainer)
    ensures Pays(q, Draining(Take, d), Move(q.(past := q.past.(swept := true)), Draining(Reset, d)))
    ensures q.mail > 0 ==> Pays(q, Draining(Take, d), Move(q.(mail := q.mail - 1), Draining(Sub, d)))
  {
  }

  lemma SubPays(q: Queue, d: Drainer)
    ensures Pays(q, Draining(Sub, d), Move(q.(count := Shift(q.count, -1)), Draining(Take, d)))
  {
  }

  lemma DrainPays(q: Queue, at: DrainAt, d: Drainer, miss: bool, m: Move)
    requires Drain(q, at, d, miss) == Turn(m) && (at.Reset? ==> q.past.swept)
    ensures Pays(q, Draining(at, d), m)
  {
    match at
    case Take => TakePays(q, d);
    case Sub => SubPays(q, d);
    case Reset =>
  }

  lemma WorkPays(q: Queue, at: WorkAt, miss: bool, weight: int, m: Move)
    requires Work(q, at, miss, weight) == Turn(m)
    ensures Pays(q, Working(at), m)
  {
    if at.Next? {
      NextPays(q, at.left, miss, weight, m);
    } else if !at.Uncount? {
      Unpaid(q, Working(at), m);
    }
  }

  lemma NextPays(q: Queue, left: nat, miss: bool, weight: int, m: Move)
    requires Work(q, Next(left), miss, weight) == Turn(m)
    ensures Pays(q, Working(Next(left)), m)
  {
    if miss || q.mail == 0 {
      Unpaid(q, Working(Next(left)), m);
    } else {
      assert m == Move(q.(mail := q.mail - 1), Working(Uncount(left)));
    }
  }

  /** Where the other functions lead. */
  lemma NoDebts(q: Queue, pc: Pc, c: Choice, m: Move)
    requires !pc.Sending? && !pc.Draining? && !pc.Working? && Act(q, pc, c) == Turn(m)
    ensures !OwesTake(m.pc) && !OwesAdd(m.pc) && !AtReset(m.pc)
  {
  }

  lemma OtherPays(q: Queue, pc: Pc, c: Choice, m: Move)
    requires !pc.Sending? && !pc.Draining? && !pc.Working? && Act(q, pc, c) == Turn(m)
    ensures Pays(q, pc, m)
  {
    NoDebts(q, pc, c, m);
    match pc
    case Done => BeginApart(q, c, m);
    case Scheduling(at, k) => ScheduleApart(q, at, k, m);
    case Killing(at) => KillApart(q, at, m);
    case Spawning(at) => SpawnApart(q, at, c.flag, m);
    case Destroying(at, w) => DestroyApart(q, at, w, m);
    case Entering(at) => EnterApart(q, at, m);
    case Rechecking(at) =>
    case _ => LeaveApart(q, pc, m);
  }

  lemma ActPays(q: Queue, pc: Pc, c: Choice, m: Move)
    requires Act(q, pc, c) == Turn(m) && (AtReset(pc) ==> q.past.swept)
    ensures Pays(q, pc, m)
  {
    match pc
    case Sending(at) => SendPays(q, at, m);
    case Draining(at, d) => DrainPays(q, at, d, c.flag, m);
    case Working(at) => WorkPays(q, at, c.flag, c.weight, m);
    case _ => OtherPays(q, pc, c, m);
  }

  lemma BalanceMoves(s: State, t: nat, pc: Pc, s': State)
    requires s'.threads == Goto(s.threads, t, pc)
    ensures Balance(s') - Balance(s)
            == s'.q.mail - s.q.mail + Delta(OwesTake(At(s.threads, t)), OwesTake(pc))
               - Delta(OwesAdd(At(s.threads, t)), OwesAdd(pc))
  {
    Moved(s.threads, t, pc, OwesTake);
    Moved(s.threads, t, pc, OwesAdd);
  }

  lemma StepExactly(s: State, t: nat, c: Choice, s': State)
    requires Exactly(s) && Step(s, t, c, s')
    ensures Exactly(s')
  {
    var pc := At(s.threads, t);
    var m := Act(s.q, pc, c).move;
    ActPays(s.q, pc, c, m);
    PaidExactly(s, t, m, s');
  }

  lemma PaidExactly(s: State, t: nat, m: Move, s': State)
    requires Exactly(s) && Pays(s.q, At(s.threads, t), m) && s' == State(Goto(s.threads, t, m.pc), m.q)
    ensures Exactly(s')
  {
    BalanceMoves(s, t, m.pc, s');
    if !s'.q.past.swept {
      AddMod(Balance(s), Balance(s') - Balance(s));
    }
    forall u | u in s'.threads && AtReset(s'.threads[u])
      ensures s'.q.past.swept
    {
      if u != t {
        assert s'.threads[u] == s.threads[u];
      }
    }
  }

  lemma {:induction false} RunExactly(run: seq<State>, i: nat)
    requires IsRun(run) && i < |run|
    ensures Exactly(run[i])
  {
    if i == 0 {
      assert Where(INITIAL.threads, OwesTake) == {};
      assert Where(INITIAL.threads, OwesAdd) == {};
    } else {
      RunExactly(run, i - 1);
      var t, c := Steps(run, i - 1);
      StepExactly(run[i - 1], t, c, run[i]);
    }
  }

  /** The count is off by exactly the changes that are pending, as long as no drain has come to its end. */
  lemma CountIsExact(run: seq<State>, i: nat)
    requires IsRun(run) && i < |run| && !run[i].q.past.swept
    ensures run[i].q.count
            == (run[i].q.mail + Count(run[i].threads, OwesTake) - Count(run[i].threads, OwesAdd)) % UINT64_SPAN
  {
    RunExactly(run, i);
  }

  /** And the end of a drain leaves 0. */
  lemma DrainLeavesNone(s: State, t: nat, s': State)
    requires Successor(s, s') && AtReset(At(s.threads, t)) && At(s'.threads, t) != At(s.threads, t)
    ensures s'.q.count == 0
  {
    var u: nat, c: Choice :| Step(s, u, c, s');
    assert u == t;
  }
}
