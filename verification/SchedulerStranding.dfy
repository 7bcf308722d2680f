/** Why a message is stranded, and when a drain overlooks one. */
module SchedulerStranding {
  import opened Wrappers
  import opened Counting
  import opened Scheduler
  import opened SchedulerInvariant
  import opened SchedulerSweeping
  import opened SubQueues
  import opened SchedulerMailbox
  import opened SchedulerReach
  import opened SchedulerRaces

  /** A message enqueued after `accepting` was cleared; a worker that read the count as 0 and stored 0 over
      mail on a released queue. */
  datatype Cause = LateMail | IdledOver

  predicate HasCause(past: Past, c: Cause) {
    match c
    case LateMail => past.late
    case IdledOver => past.idled
  }

  /** Nothing is stranded without one of the two causes: what a drain leaves behind although it was in time,
      another drain takes out. */
  lemma StrandedHasCause(s: State)
    requires Reachable(s) && Stranded(s)
    ensures exists c :: HasCause(s.q.past, c)
  {
    var run: seq<Whole> :| IsWholeRun(run) && run[|run| - 1].s == s;
    LiveIsNotStranded(s);
    IsHarmed(run[|run| - 1]);
    assert HasCause(s.q.past, LateMail) || HasCause(s.q.past, IdledOver);
  }

  lemma IsHarmed(w: Whole)
    requires Arrived(w) && Stranded(w.s) && w.s.q.releasing
    ensures w.s.q.past.late || w.s.q.past.idled
  {
    ArrivedKept(w);
    IdleStrands(w.s);
  }

  lemma IdleStrands(s: State)
    requires Tokens(s) && Closing(s.q) && Attended(s) && Shared(s) && Stranded(s) && s.q.releasing
    requires s.q.schedule <= 2
    ensures s.q.past.late || s.q.past.idled
  {
    assert Where(s.threads, Carrying) == {} && Where(s.threads, Window) == {};
  }

  /** A stranded message in state `s`, and `c` is all that went wrong. */
  ghost predicate StrandedOnlyBy(s: State, c: Cause) {
    Reachable(s) && Stranded(s) && forall d :: HasCause(s.q.past, d) <==> d == c
  }

  /** Each of the two alone is enough. */
  lemma EachStrands(c: Cause) returns (s: State)
    ensures StrandedOnlyBy(s, c)
  {
    match c
    case LateMail => s := StrandedByStore();
    case IdledOver => s := StrandedByWorker();
    assert HasCause(s.q.past, c);
  }

  // ----- What a drain overlooks -----------------------------------------------------------------------

  /** The dequeue of a drain fails over mail, and nobody else is draining. */
  ghost predicate Overlooks(w: Whole, t: nat, w': Whole) {
    && Misses(w, t, w') && At(w.s.threads, t).Draining? && w.s.q.mail > 0
    && forall u :: u in w.s.threads && u != t ==> !InDrain(w.s.threads[u])
  }

  /** Kill has begun to drain the empty mailbox, and a sender is about to enqueue. */
  lemma DrainBeforeSender() returns (s: State)
    ensures Reached(s) && s.threads == map[3 := Draining(Take, KillDrain), 9 := Sending(Enqueue)]
    ensures s.q == Released(LIVE).(quiet := true)
  {
    Spawned();
    SendGrabs(map[], 9, LIVE);
    var sender := Goto(map[], 9, Sending(Enqueue));
    KillAlone(sender, 3, LIVE);
    var q := Released(LIVE).(quiet := true);
    Slide(sender, 3, Released(LIVE), Killing(KillAt.Depth), q, Draining(Take, KillDrain));
    s := State(Goto(sender, 3, Draining(Take, KillDrain)), q);
  }

  /** The message arrives where the drain has already looked. */
  lemma LateOverlooked() returns (w: Whole, w': Whole)
    ensures Arrived(w) && Overlooks(w, 3, w') && w.s.q.past.late
  {
    var s := DrainBeforeSender();
    PlainSimulated(s);
    var b0 :| Resting(b0, s.q.mail) && Arrived(Whole(s, [b0], map[]));
    var b := Passes(s, b0, 3);
    w, w' := TooLate(s, b);
  }

  lemma TooLate(s: State, b: Box) returns (w: Whole, w': Whole)
    requires Arrived(Whole(s, [b], map[3 := Try(1, {0}, None)]))
    requires s == State(map[3 := Draining(Take, KillDrain), 9 := Sending(Enqueue)], Released(LIVE).(quiet := true))
    ensures Arrived(w) && Overlooks(w, 3, w') && w.s.q.past.late
  {
    var tries := map[3 := Try(1, {0}, None)];
    var q1 := s.q.(mail := 1, past := UNEVENTFUL.(late := true));
    var s1 := State(map[3 := Draining(Take, KillDrain), 9 := Sending(Add)], q1);
    w := Whole(s1, [Published(b)], tries);
    Enqueued9(s, s1);
    assert Fills([b], 0, [Published(b)]);
    assert Acts(Whole(s, [b], tries), 9, GO, w);
    Arrives(Whole(s, [b], tries), w);
    w' := MissesIt(w);
  }

  lemma Enqueued9(s: State, s': State)
    requires s == State(map[3 := Draining(Take, KillDrain), 9 := Sending(Enqueue)], Released(LIVE).(quiet := true))
    requires s'.threads == map[3 := Draining(Take, KillDrain), 9 := Sending(Add)]
    requires s'.q == s.q.(mail := 1, past := UNEVENTFUL.(late := true))
    ensures Step(s, 9, GO, s')
  {
    assert Act(s.q, Sending(Enqueue), GO) == Turn(Move(s'.q, Sending(Add)));
  }

  lemma MissesIt(w: Whole) returns (w': Whole)
    requires w.tries == map[3 := Try(1, {0}, None)] && w.s.q.mail > 0
    requires w.s.threads == map[3 := Draining(Take, KillDrain), 9 := Sending(Add)]
    ensures Overlooks(w, 3, w')
  {
    var q := w.s.q.(past := w.s.q.past.(swept := true));
    w' := Whole(State(map[3 := Draining(Reset, KillDrain), 9 := Sending(Add)], q), w.boxes, map[]);
    assert Act(w.s.q, Draining(Take, KillDrain), Go(true, 0)) == Turn(Move(q, Draining(Reset, KillDrain)));
    assert Misses(w, 3, w');
  }

  lemma OverlooksLate(w: Whole, t: nat, w': Whole)
    requires Arrived(w) && Overlooks(w, t, w')
    ensures w.s.q.past.late
  {
    ArrivedKept(w);
    IsExclusive(w.s);
    MissIsHonest(w, t, w');
  }

  /** A drain can overlook mail that nobody else is taking out if and only if a message came late. */
  lemma OverlooksIff(late: bool)
    ensures (exists w, t, w' :: Arrived(w) && Overlooks(w, t, w') && w.s.q.past.late == late) <==> late
  {
    if late {
      var w, w' := LateOverlooked();
      assert Overlooks(w, 3, w');
    } else {
      forall w, t, w' | Arrived(w) && Overlooks(w, t, w')
        ensures w.s.q.past.late
      {
        OverlooksLate(w, t, w');
      }
    }
  }
}
