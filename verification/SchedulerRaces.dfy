/** What the source does not rule out, as concrete runs, and exactly when it happens. */
module SchedulerRaces {
  import opened Scheduler
  import opened SchedulerInvariant
  import opened SchedulerSteps
  import opened SchedulerTheorems
  import opened SchedulerReach

  const GO: Choice := Go(false, 0)

  /** Thread `t` goes from `pc` to `pc2` and the queue from `q` to `q2`, the others being `rest`. */
  lemma Slide(rest: map<nat, Pc>, t: nat, q: Queue, pc: Pc, q2: Queue, pc2: Pc)
    requires Reached(State(Goto(rest, t, pc), q)) && !pc.Done? && Act(q, pc, GO) == Turn(Move(q2, pc2))
    ensures Reached(State(Goto(rest, t, pc2), q2))
  {
    assert Goto(Goto(rest, t, pc), t, pc2) == Goto(rest, t, pc2);
    Reach(State(Goto(rest, t, pc), q), t, GO, State(Goto(rest, t, pc2), q2));
  }

  lemma Enters(rest: map<nat, Pc>, t: nat, q: Queue, c: Choice, q2: Queue, pc2: Pc)
    requires Reached(State(rest, q)) && t !in rest && Begin(q, c) == Turn(Move(q2, pc2))
    ensures Reached(State(Goto(rest, t, pc2), q2))
  {
    Reach(State(rest, q), t, c, State(Goto(rest, t, pc2), q2));
  }

  // ----- Threads running alone for a while -----------------------------------------------------

  const LIVE: Queue := FRESH.(initialized := true)

  lemma Spawned()
    ensures Reached(State(map[], LIVE))
  {
    InitialReached();
    assert INITIAL == State(Goto(map[], SPAWNER, Spawning(OnInit)), FRESH);
    var s1 := State(map[SPAWNER := Spawning(Publish)], FRESH);
    Reach(INITIAL, SPAWNER, Go(true, 0), s1);
    Slide(map[], SPAWNER, FRESH, Spawning(Publish), LIVE, Spawning(Recount));
    Slide(map[], SPAWNER, LIVE, Spawning(Recount), LIVE, Done);
    assert Goto(map[], SPAWNER, Done) == map[];
  }

  lemma SendGrabs(rest: map<nat, Pc>, t: nat, q: Queue)
    requires Reached(State(rest, q)) && t !in rest && q.registered && q.accepting
    ensures Reached(State(Goto(rest, t, Sending(Enqueue)), q))
  {
    Enters(rest, t, q, StartSend, q, Sending(Grab));
    Slide(rest, t, q, Sending(Grab), q, Sending(Accept));
    Slide(rest, t, q, Sending(Accept), q, Sending(Enqueue));
  }

  /** From the enqueue on, a sender that runs alone schedules the idle queue. */
  lemma SendEnqueues(rest: map<nat, Pc>, t: nat, q: Queue)
    requires Reached(State(Goto(rest, t, Sending(Enqueue)), q)) && t !in rest
    requires q.initialized && q.mail == 0 && q.count == 0 && q.schedule == 0 && q.tokens == 0
    ensures Reached(State(rest, q.(mail := 1, count := 1, schedule := 1, tokens := 1, past := Enqueued(q))))
  {
    var q1 := q.(mail := 1, past := Enqueued(q));
    Slide(rest, t, q, Sending(Enqueue), q1, Sending(Add));
    var q2 := q1.(count := 1);
    Slide(rest, t, q1, Sending(Add), q2, Sending(Init));
    Slide(rest, t, q2, Sending(Init), q2, Scheduling(Check, Finish));
    Slide(rest, t, q2, Scheduling(Check, Finish), q2, Scheduling(Cas, Finish));
    var q3 := q2.(schedule := 1);
    Slide(rest, t, q2, Scheduling(Cas, Finish), q3, Scheduling(Token, Finish));
    Slide(rest, t, q3, Scheduling(Token, Finish), q3.(tokens := 1), Done);
    assert Goto(rest, t, Done) == rest;
  }

  /** A worker takes the token of a live queue and enters the window. */
  lemma ClaimAlone(rest: map<nat, Pc>, t: nat, q: Queue)
    requires Reached(State(rest, q)) && t !in rest && q.tokens == 1 && q.schedule == 1 && q.owner
    requires !q.releasing && !q.destroyRequested && q.depth == 0
    ensures Reached(State(Goto(rest, t, Working(Size)), q.(tokens := 0, schedule := 2, depth := 1)))
  {
    var q1 := q.(tokens := 0);
    Enters(rest, t, q, PopToken, q1, Entering(Load));
    Slide(rest, t, q1, Entering(Load), q1, Entering(Claim));
    var q2 := q1.(schedule := 2);
    Slide(rest, t, q1, Entering(Claim), q2, Entering(FindOwner));
    Slide(rest, t, q2, Entering(FindOwner), q2, Entering(Deepen));
    var q3 := q2.(depth := 1);
    Slide(rest, t, q2, Entering(Deepen), q3, Entering(FirstRel));
    Slide(rest, t, q3, Entering(FirstRel), q3, Working(FirstReq));
    Slide(rest, t, q3, Working(FirstReq), q3, Working(Size));
  }

  lemma TakeAlone(rest: map<nat, Pc>, t: nat, q: Queue)
    requires Reached(State(Goto(rest, t, Working(Size)), q))
    requires !q.releasing && !q.destroyRequested && q.mail == 1 && q.count == 1
    ensures Reached(State(Goto(rest, t, Working(Handler(1))), q.(mail := 0, count := 0)))
  {
    Slide(rest, t, q, Working(Size), q, Working(Guard(1)));
    Slide(rest, t, q, Working(Guard(1)), q, Working(LoopRel(1)));
    Slide(rest, t, q, Working(LoopRel(1)), q, Working(Next(1)));
    var q1 := q.(mail := 0);
    Slide(rest, t, q, Working(Next(1)), q1, Working(Uncount(1)));
    Slide(rest, t, q1, Working(Uncount(1)), q1.(count := 0), Working(Handler(1)));
  }

  /** With a sender and a worker running alone, a live idle queue gets into its handler. */
  lemma Handling(rest: map<nat, Pc>, t: nat)
    requires Reached(State(rest, LIVE)) && t !in rest && t + 1 !in rest
    ensures Reached(State(Goto(rest, t, Working(Handler(1))), LIVE.(schedule := 2, depth := 1)))
  {
    SendGrabs(rest, t + 1, LIVE);
    SendEnqueues(rest, t + 1, LIVE);
    ClaimAlone(rest, t, LIVE.(mail := 1, count := 1, schedule := 1, tokens := 1));
    TakeAlone(rest, t, LIVE.(mail := 1, count := 1, schedule := 2, depth := 1));
  }

  /** The handler returns and nothing is left to deliver. */
  lemma ReturnAlone(rest: map<nat, Pc>, t: nat, q: Queue)
    requires Reached(State(Goto(rest, t, Working(Handler(1))), q))
    requires !q.releasing && !q.destroyRequested && q.count == 0
    ensures Reached(State(Goto(rest, t, Working(StoreIdle)), q))
  {
    Slide(rest, t, q, Working(Handler(1)), q, Working(Guard(0)));
    Slide(rest, t, q, Working(Guard(0)), q, Working(EndRel));
    Slide(rest, t, q, Working(EndRel), q, Working(EndReq));
    Slide(rest, t, q, Working(EndReq), q, Working(EndCount));
    Slide(rest, t, q, Working(EndCount), q, Working(StoreIdle));
  }

  /** The worker stores 0 and finds nothing new. */
  lemma FinishAlone(rest: map<nat, Pc>, t: nat, q: Queue)
    requires Reached(State(Goto(rest, t, Working(StoreIdle)), q))
    requires !q.releasing && !q.destroyRequested && q.count == 0
    ensures Reached(State(Goto(rest, t, TailLeave), q.(schedule := 0)))
  {
    var q1 := q.(schedule := 0);
    Slide(rest, t, q, Working(StoreIdle), q1, Rechecking(IdleReq));
    Slide(rest, t, q1, Rechecking(IdleReq), q1, Rechecking(IdleRel));
    Slide(rest, t, q1, Rechecking(IdleRel), q1, Rechecking(IdleCount));
    Slide(rest, t, q1, Rechecking(IdleCount), q1, TailLeave);
  }

  function Released(q: Queue): Queue {
    q.(registered := false, accepting := false, releasing := true, destroyRequested := true)
  }

  /** Kill up to the read of dispatch_depth_. */
  lemma KillAlone(rest: map<nat, Pc>, t: nat, q: Queue)
    requires Reached(State(rest, q)) && t !in rest && q.registered && q.owner
    ensures Reached(State(Goto(rest, t, Killing(KillAt.Depth)), Released(q)))
  {
    Enters(rest, t, q, StartKill, q, Killing(Erase));
    var q1 := q.(registered := false);
    Slide(rest, t, q, Killing(Erase), q1, Killing(Refuse));
    var q2 := q1.(accepting := false);
    Slide(rest, t, q1, Killing(Refuse), q2, Killing(Release));
    var q3 := q2.(releasing := true);
    Slide(rest, t, q2, Killing(Release), q3, Killing(Owner));
    Slide(rest, t, q3, Killing(Owner), q3, Killing(Request));
    Slide(rest, t, q3, Killing(Request), q3.(destroyRequested := true), Killing(KillAt.Depth));
  }

  function Drained(q: Queue): Queue {
    Released(q).(quiet := true, destroyed := true, destroyRuns := 1, owner := false, past := Swept(q))
  }

  function Swept(q: Queue): Past {
    q.past.(swept := true)
  }

  /** Kill from the read of depth 0, with an empty mailbox, to its last store. */
  lemma KillEndsAlone(rest: map<nat, Pc>, t: nat, q: Queue)
    requires Reached(State(Goto(rest, t, Killing(KillAt.Depth)), Released(q)))
    requires q.depth == 0 && q.mail == 0 && q.count == 0 && !q.destroyed && q.destroyRuns == 0
    ensures Reached(State(Goto(rest, t, Killing(Store)), Drained(q)))
  {
    var q1 := Released(q).(quiet := true);
    Slide(rest, t, Released(q), Killing(KillAt.Depth), q1, Draining(Take, KillDrain));
    var qs := q1.(past := Swept(q));
    Slide(rest, t, q1, Draining(Take, KillDrain), qs, Draining(Reset, KillDrain));
    Slide(rest, t, qs, Draining(Reset, KillDrain), qs, Destroying(Flag, ByKill));
    var q2 := qs.(destroyed := true, destroyRuns := 1);
    Slide(rest, t, qs, Destroying(Flag, ByKill), q2, Destroying(OnDestroy, ByKill));
    Slide(rest, t, q2, Destroying(OnDestroy, ByKill), q2, Destroying(Clear, ByKill));
    Slide(rest, t, q2, Destroying(Clear, ByKill), q2.(owner := false), Killing(Store));
  }

  // ----- on_destroy during on_message -----------------------------------------------------------------

  /** One message handled; worker 1 has lowered the depth to 0 and has not yet tested the flags. */
  lemma WorkerOneLeaving()
    ensures Reached(State(map[1 := TailCheck(TailReq, true)], LIVE))
  {
    Spawned();
    Handling(map[], 1);
    ReturnAlone(map[], 1, LIVE.(schedule := 2, depth := 1));
    FinishAlone(map[], 1, LIVE.(schedule := 2, depth := 1));
    Slide(map[], 1, LIVE.(depth := 1), TailLeave, LIVE, TailCheck(TailReq, true));
  }

  /** The overlap is real: worker 1 runs `on_destroy` while worker 2 is inside `on_message`. */
  lemma DestroyOverlapsHandler() returns (s: State)
    ensures Reachable(s) && InDestroy(s, 1) && InHandler(s, 2) && s.threads[1].w == ByTail(true)
  {
    WorkerOneLeaving();
    Handling(map[1 := TailCheck(TailReq, true)], 2);
    var q := LIVE.(schedule := 2, depth := 1);
    var rest := map[1 := TailCheck(TailReq, true), 2 := Working(Handler(1))];
    assert Goto(map[1 := TailCheck(TailReq, true)], 2, Working(Handler(1))) == rest;
    KillAlone(rest, 4, q);
    var others := map[2 := Working(Handler(1)), 4 := Killing(KillAt.Depth)];
    assert Goto(rest, 4, Killing(KillAt.Depth)) == Goto(others, 1, TailCheck(TailReq, true));
    Slide(others, 1, Released(q), TailCheck(TailReq, true), Released(q), Destroying(Flag, ByTail(true)));
    var q1 := Released(q).(destroyed := true, destroyRuns := 1);
    Slide(others, 1, Released(q), Destroying(Flag, ByTail(true)), q1, Destroying(OnDestroy, ByTail(true)));
    s := State(Goto(others, 1, Destroying(OnDestroy, ByTail(true))), q1);
    ReachedIsReachable(s);
  }

  /** So an overlap with the destroyer `w` is reachable if and only if `w` is the end of a dispatch that
      brought the depth to 0 before the queue was released. */
  lemma OverlapIff(w: Destroyer)
    ensures (exists s, t, u :: Reachable(s) && Overlap(s, t, u, w)) <==> w == ByTail(true)
  {
    if w == ByTail(true) {
      var s := DestroyOverlapsHandler();
      assert Overlap(s, 1, 2, w);
    }
    if s, t, u :| Reachable(s) && Overlap(s, t, u, w) {
      var run := RunTo(s);
      OverlapOnlyFromEarlyTail(run, |run| - 1, t, u);
    }
  }

  ghost predicate Overlap(s: State, t: nat, u: nat, w: Destroyer) {
    InDestroy(s, t) && InHandler(s, u) && s.threads[t].w == w
  }

  // ----- Stranded messages ----------------------------------------------------------------------------

  /** Every thread is done, a message is left, and the queue is nowhere to be found. */
  ghost predicate Stranded(s: State) {
    s.threads == map[] && s.q.mail > 0 && s.q.tokens == 0
  }

  /** Swept, and then a late message. */
  const LATE: Past := Past(true, false, true)

  /** A sender that passed the `accepting` test before kill started enqueues and schedules the queue
      just before kill's final store. */
  lemma LateSenderSchedules()
    ensures
      var q := Drained(LIVE).(mail := 1, count := 1, schedule := 1, tokens := 1, past := LATE);
      Reached(State(Goto(map[], 3, Killing(Store)), q))
  {
    Spawned();
    SendGrabs(map[], 9, LIVE);
    var sender := Goto(map[], 9, Sending(Enqueue));
    KillAlone(sender, 3, LIVE);
    KillEndsAlone(sender, 3, LIVE);
    var killer := Goto(map[], 3, Killing(Store));
    assert Goto(sender, 3, Killing(Store)) == Goto(killer, 9, Sending(Enqueue));
    SendEnqueues(killer, 9, Drained(LIVE));
    assert Enqueued(Drained(LIVE)) == LATE;
  }

  /** Kill's unconditional store of 0 discards the token of a late sender. */
  lemma StrandedByStore() returns (s: State)
    ensures Reachable(s) && Stranded(s) && s.q.releasing && s.q.overwritten && s.q.initialized
    ensures s.q.past == LATE
  {
    LateSenderSchedules();
    var q := Drained(LIVE).(mail := 1, count := 1, schedule := 1, tokens := 1, past := LATE);
    var q1 := q.(schedule := 0, overwritten := true);
    Slide(map[], 3, q, Killing(Store), q1, Done);
    assert Goto(map[], 3, Done) == map[];
    var q2 := q1.(tokens := 0);
    Enters(map[], 1, q1, PopToken, q2, Entering(Load));
    Slide(map[], 1, q2, Entering(Load), q2, Done);
    s := State(Goto(map[], 1, Done), q2);
    ReachedIsReachable(s);
  }

  /** A whole push, with the queue in dispatch: the message is in, and scheduling is left to the worker. */
  lemma SendDuringDispatch(rest: map<nat, Pc>, t: nat, q: Queue)
    requires Reached(State(rest, q)) && t !in rest && q.registered && q.accepting && q.initialized
    requires q.schedule == 2 && q.mail == 0 && q.count == 0
    ensures Reached(State(rest, q.(mail := 1, count := 1)))
  {
    SendGrabs(rest, t, q);
    var q1 := q.(mail := 1);
    Slide(rest, t, q, Sending(Enqueue), q1, Sending(Add));
    var q2 := q1.(count := 1);
    Slide(rest, t, q1, Sending(Add), q2, Sending(Init));
    Slide(rest, t, q2, Sending(Init), q2, Scheduling(Check, Finish));
    Slide(rest, t, q2, Scheduling(Check, Finish), q2, Scheduling(Cas, Finish));
    Slide(rest, t, q2, Scheduling(Cas, Finish), q2, Done);
    assert Goto(rest, t, Done) == rest;
  }

  /** A whole kill, with the queue in dispatch: everything is left to the worker. */
  lemma KillDuringDispatch(rest: map<nat, Pc>, t: nat, q: Queue)
    requires Reached(State(rest, q)) && t !in rest && q.registered && q.owner && q.initialized
    requires q.schedule == 2 && q.depth == 1
    ensures Reached(State(rest, Released(q)))
  {
    KillAlone(rest, t, q);
    var r := Released(q);
    Slide(rest, t, r, Killing(KillAt.Depth), r, Scheduling(Check, Finish));
    Slide(rest, t, r, Scheduling(Check, Finish), r, Scheduling(Cas, Finish));
    Slide(rest, t, r, Scheduling(Cas, Finish), r, Done);
    assert Goto(rest, t, Done) == rest;
  }

  /** A worker has read mailbox_count as 0 and has not yet stored 0.  A whole push and after it a whole
      kill fit in between; then the worker stores 0, sees the request to destroy and does not look
      again. */
  lemma StrandedByWorker() returns (s: State)
    ensures Reachable(s) && Stranded(s) && s.q.releasing && !s.q.overwritten && s.q.initialized
    ensures s.q.past == UNEVENTFUL.(idled := true)
  {
    Spawned();
    Handling(map[], 1);
    var q := LIVE.(schedule := 2, depth := 1);
    ReturnAlone(map[], 1, q);
    var worker := Goto(map[], 1, Working(StoreIdle));
    SendDuringDispatch(worker, 9, q);
    var q1 := q.(mail := 1, count := 1);
    KillDuringDispatch(worker, 3, q1);
    s := WorkerLeaves(1, Released(q1));
    ReachedIsReachable(s);
  }

  /** The worker stores 0 and goes, running `on_destroy` on its way out. */
  lemma WorkerLeaves(t: nat, q: Queue) returns (s: State)
    requires Reached(State(Goto(map[], t, Working(StoreIdle)), q))
    requires q.releasing && q.destroyRequested && q.depth == 1 && !q.destroyed && q.destroyRuns == 0
    ensures Reached(s) && s.threads == map[]
    ensures s.q == q.(schedule := 0, depth := 0, quiet := true, destroyed := true, destroyRuns := 1,
                      owner := false, past := Idled(q))
  {
    var q1 := q.(schedule := 0, past := Idled(q));
    Slide(map[], t, q, Working(StoreIdle), q1, Rechecking(IdleReq));
    Slide(map[], t, q1, Rechecking(IdleReq), q1, TailLeave);
    var q2 := q1.(depth := 0, quiet := true);
    Slide(map[], t, q1, TailLeave, q2, TailCheck(TailReq, false));
    Slide(map[], t, q2, TailCheck(TailReq, false), q2, Destroying(Flag, ByTail(false)));
    DestroyAlone(map[], t, q2, ByTail(false));
    assert Goto(map[], t, Done) == map[];
    s := State(map[], q2.(destroyed := true, destroyRuns := 1, owner := false));
  }

  /** destroy_actor and clear_queue_owner, other than by kill. */
  lemma DestroyAlone(rest: map<nat, Pc>, t: nat, q: Queue, w: Destroyer)
    requires Reached(State(Goto(rest, t, Destroying(Flag, w)), q)) && !w.ByKill?
    requires (q.destroyed && q.destroyRuns == 1) || (!q.destroyed && q.destroyRuns == 0)
    ensures Reached(State(Goto(rest, t, Done), q.(destroyed := true, destroyRuns := 1, owner := false)))
  {
    var q1 := q.(destroyed := true, destroyRuns := 1);
    if q.destroyed {
      Slide(rest, t, q, Destroying(Flag, w), q1, Destroying(Clear, w));
    } else {
      Slide(rest, t, q, Destroying(Flag, w), q1, Destroying(OnDestroy, w));
      Slide(rest, t, q1, Destroying(OnDestroy, w), q1, Destroying(Clear, w));
    }
    Slide(rest, t, q1, Destroying(Clear, w), q1.(owner := false), Done);
  }

  /** A failing spawn that runs alone after `on_init`. */
  lemma SpawnFailsAlone(rest: map<nat, Pc>, q: Queue)
    requires Reached(State(Goto(rest, SPAWNER, Spawning(OnInit)), q)) && SPAWNER !in rest
    requires q.mail == 0 && q.count == 0
    requires (q.destroyed && q.destroyRuns == 1) || (!q.destroyed && q.destroyRuns == 0)
    ensures
      var r := q.(registered := false, accepting := false, releasing := true, destroyed := true,
                  destroyRuns := 1, owner := false, past := Swept(q));
      Reached(State(rest, r))
  {
    var t := SPAWNER;
    Slide(rest, t, q, Spawning(OnInit), q, Spawning(FailErase));
    var q1 := q.(registered := false);
    Slide(rest, t, q, Spawning(FailErase), q1, Spawning(FailRefuse));
    var q2 := q1.(accepting := false);
    Slide(rest, t, q1, Spawning(FailRefuse), q2, Spawning(FailRelease));
    var q3 := q2.(releasing := true);
    Slide(rest, t, q2, Spawning(FailRelease), q3, Draining(Take, FailDrain));
    var q4 := q3.(past := Swept(q));
    Slide(rest, t, q3, Draining(Take, FailDrain), q4, Draining(Reset, FailDrain));
    Slide(rest, t, q4, Draining(Reset, FailDrain), q4, Destroying(Flag, ByFailedInit));
    DestroyAlone(rest, t, q4, ByFailedInit);
    assert Goto(rest, t, Done) == rest;
  }

  /** A sender behind everything: the queue was never initialised, so it is not scheduled. */
  lemma SendTooLate(t: nat, q: Queue) returns (s: State)
    requires Reached(State(Goto(map[], t, Sending(Enqueue)), q))
    requires !q.initialized && q.mail == 0 && q.count == 0
    ensures s == State(map[], q.(mail := 1, count := 1, past := Enqueued(q))) && Reached(s)
  {
    var q1 := q.(mail := 1, past := Enqueued(q));
    Slide(map[], t, q, Sending(Enqueue), q1, Sending(Add));
    var q2 := q1.(count := 1);
    Slide(map[], t, q1, Sending(Add), q2, Sending(Init));
    Slide(map[], t, q2, Sending(Init), q2, Done);
    assert Goto(map[], t, Done) == map[];
    s := State(map[], q2);
  }

  /** A sender let in during `on_init` enqueues after the drain of the failed spawn, also when a kill has
      come and gone before. */
  lemma StrandedByFailedInit(killed: bool) returns (s: State)
    ensures Reachable(s) && Stranded(s) && s.q.releasing && !s.q.initialized && s.q.overwritten == killed
    ensures s.q.past == LATE
  {
    InitialReached();
    assert INITIAL == State(Goto(map[], SPAWNER, Spawning(OnInit)), FRESH);
    SendGrabs(Goto(map[], SPAWNER, Spawning(OnInit)), 9, FRESH);
    var sender := Goto(map[], 9, Sending(Enqueue));
    var both := Goto(sender, SPAWNER, Spawning(OnInit));
    assert Goto(Goto(map[], SPAWNER, Spawning(OnInit)), 9, Sending(Enqueue)) == both;
    var q := FRESH;
    if killed {
      KillAlone(both, 3, FRESH);
      KillEndsAlone(both, 3, FRESH);
      q := Drained(FRESH).(schedule := 0, overwritten := true);
      Slide(both, 3, Drained(FRESH), Killing(Store), q, Done);
      assert Goto(both, 3, Done) == both;
    }
    SpawnFailsAlone(sender, q);
    s := SendTooLate(9, q.(registered := false, accepting := false, releasing := true,
                           destroyed := true, destroyRuns := 1, owner := false, past := Swept(q)));
    ReachedIsReachable(s);
  }

  // ----- Two drains at once ---------------------------------------------------------------------------

  /** A push by a sender that runs alone from the enqueue on, on an idle queue that has a token left over. */
  lemma SendAgain(rest: map<nat, Pc>, t: nat, q: Queue)
    requires Reached(State(Goto(rest, t, Sending(Enqueue)), q)) && t !in rest
    requires q.initialized && q.mail == 1 && q.count == 1 && q.schedule == 0 && q.tokens == 1
    ensures Reached(State(rest, q.(mail := 2, count := 2, schedule := 1, tokens := 2, past := Enqueued(q))))
  {
    var q1 := q.(mail := 2, past := Enqueued(q));
    Slide(rest, t, q, Sending(Enqueue), q1, Sending(Add));
    var q2 := q1.(count := 2);
    Slide(rest, t, q1, Sending(Add), q2, Sending(Init));
    Slide(rest, t, q2, Sending(Init), q2, Scheduling(Check, Finish));
    Slide(rest, t, q2, Scheduling(Check, Finish), q2, Scheduling(Cas, Finish));
    var q3 := q2.(schedule := 1);
    Slide(rest, t, q2, Scheduling(Cas, Finish), q3, Scheduling(Token, Finish));
    Slide(rest, t, q3, Scheduling(Token, Finish), q3.(tokens := 2), Done);
    assert Goto(rest, t, Done) == rest;
  }

  /** Two late senders, one before and one behind kill's store: two tokens for a queue without an actor. */
  lemma TwoTokens()
    ensures
      var q := Drained(LIVE).(overwritten := true, mail := 2, count := 2, schedule := 1, tokens := 2, past := LATE);
      Reached(State(map[], q))
  {
    Spawned();
    SendGrabs(map[], 8, LIVE);
    var late := Goto(map[], 8, Sending(Enqueue));
    SendGrabs(late, 9, LIVE);
    var both := Goto(late, 9, Sending(Enqueue));
    KillAlone(both, 3, LIVE);
    KillEndsAlone(both, 3, LIVE);
    var killer := Goto(late, 3, Killing(Store));
    assert Goto(both, 3, Killing(Store)) == Goto(killer, 9, Sending(Enqueue));
    SendEnqueues(killer, 9, Drained(LIVE));
    var q := Drained(LIVE).(mail := 1, count := 1, schedule := 1, tokens := 1, past := LATE);
    assert Enqueued(Drained(LIVE)) == LATE && Enqueued(q) == LATE;
    var q1 := q.(schedule := 0, overwritten := true);
    Slide(late, 3, q, Killing(Store), q1, Done);
    assert Goto(late, 3, Done) == late;
    SendAgain(map[], 8, q1);
  }

  /** A worker takes a token of a queue that has no actor. */
  lemma FindsNoActor(rest: map<nat, Pc>, t: nat, q: Queue)
    requires Reached(State(rest, q)) && t !in rest && q.tokens > 0 && q.schedule in {1, 2} && !q.owner
    ensures Reached(State(Goto(rest, t, Draining(Take, OwnerlessDrain)), q.(tokens := q.tokens - 1, schedule := 2)))
  {
    var q1 := q.(tokens := q.tokens - 1);
    Enters(rest, t, q, PopToken, q1, Entering(Load));
    var q2 := q1.(schedule := 2);
    if q.schedule == 1 {
      Slide(rest, t, q1, Entering(Load), q1, Entering(Claim));
      Slide(rest, t, q1, Entering(Claim), q2, Entering(FindOwner));
    } else {
      Slide(rest, t, q1, Entering(Load), q2, Entering(FindOwner));
    }
    Slide(rest, t, q2, Entering(FindOwner), q2, Draining(Take, OwnerlessDrain));
  }

  /** So two workers can be draining the same queue at once: the second finds it in state 2. */
  lemma TwoDrains() returns (s: State)
    ensures Reachable(s)
    ensures s.threads == map[1 := Draining(Take, OwnerlessDrain), 2 := Draining(Take, OwnerlessDrain)]
    ensures s.q.mail == 2
  {
    TwoTokens();
    var q := Drained(LIVE).(overwritten := true, mail := 2, count := 2, schedule := 1, tokens := 2, past := LATE);
    FindsNoActor(map[], 1, q);
    var one := Goto(map[], 1, Draining(Take, OwnerlessDrain));
    FindsNoActor(one, 2, q.(tokens := 1, schedule := 2));
    s := State(Goto(one, 2, Draining(Take, OwnerlessDrain)), q.(tokens := 0, schedule := 2));
    ReachedIsReachable(s);
  }

  // ----- Exactly then ---------------------------------------------------------------------------------

  /** Until the queue is initialised or released, the spawning thread is at work. */
  ghost predicate SpawnerBusy(s: State) {
    !s.q.initialized && !s.q.releasing ==>
      SPAWNER in s.threads && s.threads[SPAWNER].Spawning? && !s.threads[SPAWNER].spawn.Recount?
  }

  lemma SpawnerNext(s: State, s': State)
    requires Inv(s) && SpawnerBusy(s) && Successor(s, s')
    ensures SpawnerBusy(s')
  {
    var t: nat, c: Choice :| Step(s, t, c, s');
    SpawnerStep(s, t, c, s');
  }

  lemma {:induction false} SpawnerAtWork(run: seq<State>, i: nat)
    requires IsRun(run) && i < |run|
    ensures SpawnerBusy(run[i])
  {
    if i > 0 {
      SpawnerAtWork(run, i - 1);
      RunInv(run, i - 1);
      assert Linked(run, i - 1);
      SpawnerNext(run[i - 1], run[i]);
    }
  }

  lemma FlagsOnward(s: State, t: nat, c: Choice, s': State)
    requires Inv(s) && Step(s, t, c, s')
    ensures (s.q.releasing ==> s'.q.releasing) && (s.q.initialized ==> s'.q.initialized)
  {
    var pc := At(s.threads, t);
    Locate(s, t);
    ActMoves(s.q, t == SPAWNER, SomeoneOwesAdd(s.threads), pc, c, Act(s.q, pc, c).move);
  }

  lemma SpawnerStep(s: State, t: nat, c: Choice, s': State)
    requires Inv(s) && SpawnerBusy(s) && Step(s, t, c, s')
    ensures SpawnerBusy(s')
  {
    FlagsOnward(s, t, c, s');
    if t == SPAWNER {
      SpawnerMoves(s, c, s');
    } else if !s'.q.initialized && !s'.q.releasing {
      assert s'.threads[SPAWNER] == s.threads[SPAWNER];
    }
  }

  lemma SpawnerMoves(s: State, c: Choice, s': State)
    requires SpawnerBusy(s) && Step(s, SPAWNER, c, s')
    requires (s.q.releasing ==> s'.q.releasing) && (s.q.initialized ==> s'.q.initialized)
    ensures SpawnerBusy(s')
  {
    if !s.q.initialized && !s.q.releasing {
      var at := s.threads[SPAWNER].spawn;
      assert Act(s.q, Spawning(at), c) == if c.Go? then Spawn(s.q, at, c.flag) else Blocked;
    }
  }

  /** A message can be stranded if and only if the queue has been released, by kill or by a failed
      initialisation; then it can, whether or not kill has executed its store and whether or not the
      actor was ever initialised. */
  lemma StrandedIff(releasing: bool, overwritten: bool, initialized: bool)
    ensures (exists s :: Reachable(s) && Stranded(s) && s.q.releasing == releasing
                         && s.q.overwritten == overwritten && s.q.initialized == initialized)
            <==> releasing
  {
    if releasing {
      var s;
      if !initialized {
        s := StrandedByFailedInit(overwritten);
      } else if overwritten {
        s := StrandedByStore();
      } else {
        s := StrandedByWorker();
      }
      assert Reachable(s) && Stranded(s);
    } else {
      forall s | Reachable(s) && Stranded(s)
        ensures s.q.releasing
      {
        LiveIsNotStranded(s);
      }
    }
  }

  lemma LiveIsNotStranded(s: State)
    requires Reachable(s) && Stranded(s)
    ensures s.q.releasing
  {
    var run := RunTo(s);
    SpawnerAtWork(run, |run| - 1);
    if !s.q.releasing {
      Quiescent(run, |run| - 1);
    }
  }
}
