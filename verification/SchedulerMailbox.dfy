/** The scheduler with its real mailbox: every try_dequeue goes through the sub-queues one atomic
    operation of the ticket protocol at a time, between the steps of all other threads.  Enqueuing
    publishes into a sub-queue.  Here it is decided when a dequeue can fail. */
module SchedulerMailbox {
  import opened Counting
  import opened Wrappers
  import opened Scheduler
  import opened SchedulerInvariant
  import opened SchedulerSteps
  import opened SchedulerTheorems
  import opened SchedulerSweeping
  import opened SubQueues
  import Protocol = ImplicitQueue

  /** A thread inside try_dequeue: how many sub-queues there were when it began, in which of them it
      found nothing, and which it is in. */
  datatype Try = Try(must: nat, seen: set<nat>, at: Option<nat>)

  datatype Whole = Whole(s: State, boxes: seq<Box>, tries: map<nat, Try>)

  const START: Whole := Whole(INITIAL, [], map[])

  ghost predicate Fills(boxes: seq<Box>, i: nat, boxes': seq<Box>) {
    i < |boxes| && boxes' == boxes[i := Published(boxes[i])]
  }

  /** A step of thread `t` outside try_dequeue. */
  ghost predicate Acts(w: Whole, t: nat, c: Choice, w': Whole) {
    var pc := At(w.s.threads, t);
    && !Consuming(pc) && Step(w.s, t, c, w'.s) && w'.tries == w.tries
    && if pc == Sending(Enqueue) then exists i: nat :: Fills(w.boxes, i, w'.boxes) else w'.boxes == w.boxes
  }

  /** A new producing thread adds its sub-queue to the list. */
  ghost predicate Joins(w: Whole, w': Whole) {
    w' == w.(boxes := w.boxes + [NO_MAIL])
  }

  ghost predicate Begins(w: Whole, t: nat, w': Whole) {
    && Consuming(At(w.s.threads, t)) && t !in w.tries
    && w' == w.(tries := w.tries[t := Try(|w.boxes|, {}, None)])
  }

  function After(y: Try, i: nat, inside: bool): Try {
    if inside then y.(at := Some(i)) else y.(at := None, seen := y.seen + {i})
  }

  ghost predicate CanLook(w: Whole, t: nat, i: nat) {
    && t in w.tries && i < |w.boxes|
    && (w.tries[t].at == Some(i) || (w.tries[t].at.None? && i !in w.tries[t].seen))
  }

  /** An operation of thread `t` on sub-queue `i`: the last one of a successful dequeue, or another. */
  ghost predicate Looks(w: Whole, t: nat, i: nat, b: Box, w': Whole) {
    && CanLook(w, t, i) && Protocol.Consume(w.boxes[i], t, b) && w'.boxes == w.boxes[i := b]
    && if TakesOut(w.boxes[i], t)
       then Step(w.s, t, Go(false, 0), w'.s) && w'.tries == w.tries - {t}
       else w'.s == w.s && w'.tries == w.tries[t := After(w.tries[t], i, t in b.consumers)]
  }

  /** try_dequeue fails: nothing was found in any of the sub-queues there were at its beginning. */
  ghost predicate Misses(w: Whole, t: nat, w': Whole) {
    && t in w.tries && w.tries[t].at.None? && (forall i: nat :: i < w.tries[t].must ==> i in w.tries[t].seen)
    && Step(w.s, t, Go(true, 0), w'.s) && w'.boxes == w.boxes && w'.tries == w.tries - {t}
  }

  ghost predicate WholeNext(w: Whole, w': Whole) {
    || Joins(w, w')
    || (exists t: nat, c: Choice :: Acts(w, t, c, w'))
    || (exists t: nat :: Begins(w, t, w') || Misses(w, t, w'))
    || (exists t: nat, i: nat, b: Box :: Looks(w, t, i, b, w'))
  }

  ghost predicate IsWholeRun(run: seq<Whole>) {
    && |run| > 0
    && run[0] == START
    && forall i :: 0 <= i < |run| - 1 ==> Follows(run, i)
  }

  ghost predicate Follows(run: seq<Whole>, i: nat)
    requires i + 1 < |run|
  {
    WholeNext(run[i], run[i + 1])
  }

  // ----- The runs of module Scheduler -----------------------------------------------------------------

  /** Every step is one of the scheduler or leaves its state alone. */
  lemma StepBelow(w: Whole, w': Whole)
    requires WholeNext(w, w')
    ensures w'.s == w.s || Successor(w.s, w'.s)
  {
  }

  /** The states of the scheduler in a run, without the steps inside try_dequeue. */
  ghost function Skeleton(run: seq<Whole>): (r: seq<State>)
    requires |run| > 0
    ensures |r| > 0 && r[|r| - 1] == run[|run| - 1].s
  {
    var last := run[|run| - 1].s;
    if |run| == 1 then [last]
    else
      var front := Skeleton(run[..|run| - 1]);
      if last == run[|run| - 2].s then front else front + [last]
  }

  /** So what module SchedulerTheorems says of every run holds here. */
  lemma {:induction false} SkeletonIsRun(run: seq<Whole>)
    requires IsWholeRun(run)
    ensures IsRun(Skeleton(run))
  {
    if |run| > 1 {
      var front := run[..|run| - 1];
      forall i | 0 <= i < |front| - 1
        ensures Follows(front, i)
      {
        assert Follows(run, i);
      }
      SkeletonIsRun(front);
      assert Follows(run, |run| - 2);
      StepBelow(run[|run| - 2], run[|run| - 1]);
      if run[|run| - 1].s != run[|run| - 2].s {
        Longer(Skeleton(front), run[|run| - 1].s);
      }
    }
  }

  lemma Longer(run: seq<State>, s: State)
    requires IsRun(run) && Successor(run[|run| - 1], s)
    ensures IsRun(run + [s])
  {
    var more := run + [s];
    forall i | 0 <= i < |more| - 1
      ensures Linked(more, i)
    {
      if i < |run| - 1 {
        assert Linked(run, i);
      }
    }
  }

  // ----- The invariant --------------------------------------------------------------------------------

  ghost predicate Accounts(boxes: seq<Box>, mail: nat) {
    && (forall i :: 0 <= i < |boxes| ==> Good(boxes[i]))
    && Sum(boxes) == mail
  }

  /** Who is inside which sub-queue. */
  ghost predicate Whereabouts(threads: map<nat, Pc>, boxes: seq<Box>, tries: map<nat, Try>) {
    && (forall t :: t in tries ==> t in threads && Consuming(threads[t]) && Within(tries[t], |boxes|))
    && (forall i, t :: 0 <= i < |boxes| ==> (t in boxes[i].consumers <==> IsIn(tries, t, i)))
  }

  predicate Within(y: Try, n: nat) {
    y.at.Some? ==> y.at.value < n
  }

  predicate IsIn(tries: map<nat, Try>, t: nat, i: nat) {
    t in tries && tries[t].at == Some(i)
  }

  /** While the actor accepts messages only its worker takes them out. */
  ghost predicate Orderly(accepting: bool, late: bool, boxes: seq<Box>) {
    && (accepting ==> forall i :: 0 <= i < |boxes| ==> Calm(boxes[i]))
    && (!accepting && !late ==> forall i :: 0 <= i < |boxes| ==> Fair(boxes[i]))
  }

  /** What thread `t` has read of the tail is up to date. */
  predicate UpToDate(b: Box, t: nat) {
    t in b.consumers ==>
      match b.consumers[t]
      case ReadOvercommit(tail) => tail == b.tail
      case ReadOptimistic(tail, _) => tail == b.tail
      case _ => true
  }

  /** Thread `t` has not overlooked anything in sub-queue `i`. */
  predicate Sees(b: Box, i: nat, t: nat, y: Try) {
    UpToDate(b, t) && (i >= y.must || i in y.seen ==> Spent(b))
  }

  /** Without late mail, a drain overlooks nothing. */
  ghost predicate Thorough(threads: map<nat, Pc>, boxes: seq<Box>, tries: map<nat, Try>) {
    forall t, i :: t in tries && t in threads && threads[t].Draining? && 0 <= i < |boxes| ==>
      Sees(boxes[i], i, t, tries[t])
  }

  /** The sub-queues and the threads inside them. */
  ghost predicate Sound(w: Whole) {
    && Accounts(w.boxes, w.s.q.mail)
    && Whereabouts(w.s.threads, w.boxes, w.tries)
    && Orderly(w.s.q.accepting, w.s.q.past.late, w.boxes)
    && (!w.s.q.past.late ==> Thorough(w.s.threads, w.boxes, w.tries))
  }

  ghost predicate Kept(w: Whole) {
    Inv(w.s) && Sweeping(w.s) && Sound(w)
  }

  // ----- Who takes messages out -----------------------------------------------------------------------

  /** Two threads in try_dequeue are both draining a released queue. */
  lemma BothDrain(s: State, t: nat, u: nat)
    requires Points(s) && Tokens(s) && Flags(s.q)
    requires t in s.threads && u in s.threads && t != u
    requires Consuming(s.threads[t]) && Consuming(s.threads[u])
    ensures s.threads[t].Draining? && s.q.releasing
  {
    assert PointOk(s.q, t == SPAWNER, s.threads[t]) && PointOk(s.q, u == SPAWNER, s.threads[u]);
    if Window(s.threads[t]) {
      CountMember(s.threads, t, Window);
      if Window(s.threads[u]) {
        CountTwo(s.threads, t, u, Window);
      }
    }
  }

  /** What the scheduler's invariant says to threads in try_dequeue. */
  ghost predicate Exclusive(s: State) {
    && (s.q.accepting ==> !s.q.releasing)
    && (forall t :: t in s.threads && Consuming(s.threads[t]) && s.threads[t].Draining? ==> s.q.releasing)
    && (forall t, u :: t in s.threads && u in s.threads && t != u ==>
          Consuming(s.threads[t]) && Consuming(s.threads[u]) ==> s.threads[t].Draining?)
  }

  lemma IsExclusive(s: State)
    requires Inv(s) && Sweeping(s)
    ensures Exclusive(s)
  {
    forall t | t in s.threads && Consuming(s.threads[t]) && s.threads[t].Draining?
      ensures s.q.releasing
    {
      assert PointOk(s.q, t == SPAWNER, s.threads[t]);
    }
    forall t, u | t in s.threads && u in s.threads && t != u && Consuming(s.threads[t]) && Consuming(s.threads[u])
      ensures s.threads[t].Draining?
    {
      BothDrain(s, t, u);
    }
  }

  lemma OnlyOne(s: State, boxes: seq<Box>, tries: map<nat, Try>, t: nat, i: nat)
    requires Exclusive(s) && s.q.accepting && Whereabouts(s.threads, boxes, tries)
    requires t in tries && i < |boxes|
    ensures boxes[i].consumers.Keys <= {t}
  {
    forall u | u in boxes[i].consumers
      ensures u == t
    {
      assert IsIn(tries, u, i);
    }
  }

  /** When all tickets are drawn wherever a drain has looked, and mail is left, another drain is taking it
      out. */
  lemma TakenByAnother(s: State, boxes: seq<Box>, tries: map<nat, Try>, t: nat) returns (u: nat)
    requires Exclusive(s) && Whereabouts(s.threads, boxes, tries) && Accounts(boxes, s.q.mail)
    requires Orderly(s.q.accepting, false, boxes) && Thorough(s.threads, boxes, tries)
    requires t in tries && tries[t].at.None? && s.threads[t].Draining? && s.q.mail > 0
    requires forall i: nat :: i < tries[t].must ==> i in tries[t].seen
    ensures u in s.threads && u != t && InDrain(s.threads[u])
  {
    var i := SumSome(boxes);
    assert Sees(boxes[i], i, t, tries[t]);
    u := LeftIsTaken(boxes[i]);
    assert IsIn(tries, u, i);
  }

  lemma MissIsHonest(w: Whole, t: nat, w': Whole)
    requires Exclusive(w.s) && Sound(w) && Misses(w, t, w')
    ensures Honest(w.s, t, Go(true, 0))
  {
    if w.s.threads[t].Draining? && w.s.q.mail > 0 && !w.s.q.past.late {
      var u := TakenByAnother(w.s, w.boxes, w.tries, t);
    }
  }

  // ----- The parts of the invariant, step by step -----------------------------------------------------

  /** Flags and history move one way. */
  lemma OrderlyOnward(accepting: bool, late: bool, boxes: seq<Box>, accepting': bool, late': bool)
    requires Orderly(accepting, late, boxes) && (late ==> late') && (accepting' ==> accepting)
    ensures Orderly(accepting', late', boxes)
  {
    if accepting {
      forall i | 0 <= i < |boxes|
        ensures Fair(boxes[i])
      {
        CalmIsFair(boxes[i]);
      }
    }
  }

  lemma OrderlyPut(accepting: bool, late: bool, boxes: seq<Box>, i: nat, b: Box)
    requires Orderly(accepting, late, boxes) && i < |boxes|
    requires (accepting ==> Calm(b)) && (!accepting && !late ==> Fair(b))
    ensures Orderly(accepting, late, boxes[i := b])
  {
  }

  lemma AccountsPut(boxes: seq<Box>, mail: nat, i: nat, b: Box, mail': nat)
    requires Accounts(boxes, mail) && i < |boxes| && Good(b) && mail' - mail == Left(b) - Left(boxes[i])
    ensures Accounts(boxes[i := b], mail')
  {
    SumPut(boxes, i, b);
  }

  lemma AccountsJoin(boxes: seq<Box>, mail: nat)
    requires Accounts(boxes, mail)
    ensures Accounts(boxes + [NO_MAIL], mail)
  {
    NewGood();
    SumMore(boxes, NO_MAIL);
  }

  lemma WhereJoin(threads: map<nat, Pc>, boxes: seq<Box>, tries: map<nat, Try>)
    requires Whereabouts(threads, boxes, tries)
    ensures Whereabouts(threads, boxes + [NO_MAIL], tries)
  {
    forall t
      ensures !IsIn(tries, t, |boxes|)
    {
      assert t in tries ==> Within(tries[t], |boxes|);
    }
  }

  lemma ThoroughJoin(threads: map<nat, Pc>, boxes: seq<Box>, tries: map<nat, Try>)
    requires Thorough(threads, boxes, tries)
    ensures Thorough(threads, boxes + [NO_MAIL], tries)
  {
  }

  lemma WhereBegin(threads: map<nat, Pc>, boxes: seq<Box>, tries: map<nat, Try>, t: nat)
    requires Whereabouts(threads, boxes, tries) && t !in tries && t in threads && Consuming(threads[t])
    ensures Whereabouts(threads, boxes, tries[t := Try(|boxes|, {}, None)])
  {
    var tries' := tries[t := Try(|boxes|, {}, None)];
    forall i, u | 0 <= i < |boxes|
      ensures u in boxes[i].consumers <==> IsIn(tries', u, i)
    {
      assert u in boxes[i].consumers <==> IsIn(tries, u, i);
    }
  }

  lemma ThoroughBegin(threads: map<nat, Pc>, boxes: seq<Box>, tries: map<nat, Try>, t: nat)
    requires Thorough(threads, boxes, tries) && Whereabouts(threads, boxes, tries) && t !in tries
    ensures Thorough(threads, boxes, tries[t := Try(|boxes|, {}, None)])
  {
    forall i | 0 <= i < |boxes|
      ensures UpToDate(boxes[i], t)
    {
      assert !IsIn(tries, t, i);
    }
  }

  ghost predicate SameOthers(threads: map<nat, Pc>, t: nat, threads': map<nat, Pc>) {
    forall u :: u in threads && u != t ==> u in threads' && threads'[u] == threads[u]
  }

  /** Thread `t` moves outside try_dequeue, or leaves it. */
  lemma WhereLeave(threads: map<nat, Pc>, boxes: seq<Box>, tries: map<nat, Try>, t: nat, threads': map<nat, Pc>)
    requires Whereabouts(threads, boxes, tries) && SameOthers(threads, t, threads')
    requires t in tries ==> tries[t].at.None?
    ensures Whereabouts(threads', boxes, tries - {t})
  {
    forall i, u | 0 <= i < |boxes|
      ensures u in boxes[i].consumers <==> IsIn(tries - {t}, u, i)
    {
      assert u in boxes[i].consumers <==> IsIn(tries, u, i);
    }
  }

  lemma ThoroughLeave(threads: map<nat, Pc>, boxes: seq<Box>, tries: map<nat, Try>, t: nat, threads': map<nat, Pc>)
    requires Thorough(threads, boxes, tries) && Whereabouts(threads, boxes, tries) && SameOthers(threads, t, threads')
    ensures Thorough(threads', boxes, tries - {t})
  {
  }

  lemma WherePut(threads: map<nat, Pc>, boxes: seq<Box>, tries: map<nat, Try>, i: nat, b: Box)
    requires Whereabouts(threads, boxes, tries) && i < |boxes| && b.consumers == boxes[i].consumers
    ensures Whereabouts(threads, boxes[i := b], tries)
  {
  }

  /** Thread `t` executes an operation on sub-queue `i`. */
  lemma WhereLook(threads: map<nat, Pc>, boxes: seq<Box>, tries: map<nat, Try>, t: nat, i: nat, b: Box)
    requires Whereabouts(threads, boxes, tries) && t in tries && i < |boxes|
    requires tries[t].at.Some? ==> tries[t].at == Some(i)
    requires Protocol.OthersStay(boxes[i].consumers, t, b.consumers)
    ensures Whereabouts(threads, boxes[i := b], tries[t := After(tries[t], i, t in b.consumers)])
  {
    var tries' := tries[t := After(tries[t], i, t in b.consumers)];
    forall k, u | 0 <= k < |boxes|
      ensures u in boxes[i := b][k].consumers <==> IsIn(tries', u, k)
    {
      assert u in boxes[k].consumers <==> IsIn(tries, u, k);
    }
  }

  /** A thread that has just found nothing in `b` was up to date. */
  lemma ThoroughLook(threads: map<nat, Pc>, boxes: seq<Box>, tries: map<nat, Try>, t: nat, i: nat, b: Box)
    requires Thorough(threads, boxes, tries) && Whereabouts(threads, boxes, tries) && t in tries && i < |boxes|
    requires Good(boxes[i]) && Protocol.Consume(boxes[i], t, b)
    requires threads[t].Draining? && t !in b.consumers && !TakesOut(boxes[i], t) ==> Fair(boxes[i])
    ensures TakesOut(boxes[i], t) ||
            Thorough(threads, boxes[i := b], tries[t := After(tries[t], i, t in b.consumers)])
  {
    var x, boxes', tries' := boxes[i], boxes[i := b], tries[t := After(tries[t], i, t in b.consumers)];
    ConsumeGood(x, t, b);
    forall u, k | u in tries' && u in threads && threads[u].Draining? && 0 <= k < |boxes'| && !TakesOut(x, t)
      ensures Sees(boxes'[k], k, u, tries'[u])
    {
      assert Sees(boxes[k], k, u, tries[u]);
      if k == i {
        LookSees(x, b, i, t, u, tries[u]);
      }
    }
  }

  lemma LookSees(x: Box, b: Box, i: nat, t: nat, u: nat, y: Try)
    requires Good(x) && Protocol.Consume(x, t, b) && Sees(x, i, u, y) && !TakesOut(x, t)
    requires u == t && t !in b.consumers ==> Fair(x)
    ensures Sees(b, i, u, if u == t then After(y, i, t in b.consumers) else y)
  {
    ConsumeGood(x, t, b);
    if u == t && t !in b.consumers {
      FoundNothing(x, t, b);
    }
  }

  // ----- Steps ----------------------------------------------------------------------------------------

  /** A step of the scheduler and what it does to the mail. */
  lemma Moves(s: State, t: nat, c: Choice, s': State)
    requires Inv(s) && Sweeping(s) && Step(s, t, c, s') && Honest(s, t, c)
    ensures Inv(s') && Sweeping(s') && SameOthers(s.threads, t, s'.threads)
    ensures s'.q.mail == s.q.mail + Growth(s.q, At(s.threads, t), c)
    ensures (s.q.past.late ==> s'.q.past.late) && (s'.q.accepting ==> s.q.accepting)
    ensures At(s.threads, t) == Sending(Enqueue) && !s.q.accepting ==> s'.q.past.late
  {
    StepKeeps(s, t, c, s');
    SweepStep(s, t, c, s');
    ActMails(s.q, At(s.threads, t), c, Act(s.q, At(s.threads, t), c).move);
  }

  lemma JoinsSound(w: Whole)
    requires Sound(w)
    ensures Sound(w.(boxes := w.boxes + [NO_MAIL]))
  {
    NewGood();
    CalmIsFair(NO_MAIL);
    AccountsJoin(w.boxes, w.s.q.mail);
    WhereJoin(w.s.threads, w.boxes, w.tries);
    if !w.s.q.past.late {
      ThoroughJoin(w.s.threads, w.boxes, w.tries);
    }
  }

  lemma BeginsSound(w: Whole, t: nat, w': Whole)
    requires Sound(w) && Begins(w, t, w')
    ensures Sound(w')
  {
    WhereBegin(w.s.threads, w.boxes, w.tries, t);
    if !w.s.q.past.late {
      ThoroughBegin(w.s.threads, w.boxes, w.tries, t);
    }
  }

  /** Thread `t` leaves try_dequeue, or moves outside it, and the sub-queues stay as they are. */
  lemma LeavesSound(w: Whole, t: nat, w': Whole)
    requires Sound(w) && w'.boxes == w.boxes && w'.tries == w.tries - {t} && SameOthers(w.s.threads, t, w'.s.threads)
    requires t in w.tries ==> w.tries[t].at.None?
    requires w'.s.q.mail == w.s.q.mail
    requires (w.s.q.past.late ==> w'.s.q.past.late) && (w'.s.q.accepting ==> w.s.q.accepting)
    ensures Sound(w')
  {
    OrderlyOnward(w.s.q.accepting, w.s.q.past.late, w.boxes, w'.s.q.accepting, w'.s.q.past.late);
    WhereLeave(w.s.threads, w.boxes, w.tries, t, w'.s.threads);
    if !w.s.q.past.late {
      ThoroughLeave(w.s.threads, w.boxes, w.tries, t, w'.s.threads);
    }
  }

  lemma ActsKeeps(w: Whole, t: nat, c: Choice, w': Whole)
    requires Kept(w) && Acts(w, t, c, w') && At(w.s.threads, t) != Sending(Enqueue)
    ensures Kept(w')
  {
    Moves(w.s, t, c, w'.s);
    assert w.tries - {t} == w.tries;
    LeavesSound(w, t, w');
  }

  lemma MissesKeeps(w: Whole, t: nat, w': Whole)
    requires Kept(w) && Misses(w, t, w')
    ensures Kept(w')
  {
    IsExclusive(w.s);
    MissIsHonest(w, t, w');
    Moves(w.s, t, Go(true, 0), w'.s);
    LeavesSound(w, t, w');
  }

  lemma EnqueueKeeps(w: Whole, t: nat, c: Choice, i: nat, w': Whole)
    requires Kept(w) && Acts(w, t, c, w') && At(w.s.threads, t) == Sending(Enqueue)
    requires Fills(w.boxes, i, w'.boxes)
    ensures Kept(w')
  {
    Moves(w.s, t, c, w'.s);
    IsExclusive(w.s);
    EnqueueSound(w, t, i, w');
  }

  /** While the actor accepts nobody drains; afterwards the message is late. */
  lemma EnqueueSound(w: Whole, t: nat, i: nat, w': Whole)
    requires Sound(w) && Exclusive(w.s) && t !in w.tries && w'.tries == w.tries
    requires Fills(w.boxes, i, w'.boxes) && w'.s.q.mail == w.s.q.mail + 1
    requires SameOthers(w.s.threads, t, w'.s.threads)
    requires if w.s.q.accepting then w.s.q.past.late ==> w'.s.q.past.late else w'.s.q.past.late
    requires w'.s.q.accepting ==> w.s.q.accepting
    ensures Sound(w')
  {
    var b := w.boxes[i];
    PublishGood(b);
    AccountsPut(w.boxes, w.s.q.mail, i, Published(b), w'.s.q.mail);
    WherePut(w.s.threads, w.boxes, w.tries, i, Published(b));
    assert w.tries - {t} == w.tries;
    WhereLeave(w.s.threads, w'.boxes, w.tries, t, w'.s.threads);
    if w.s.q.accepting {
      PublishCalm(b);
      OrderlyPut(true, w.s.q.past.late, w.boxes, i, Published(b));
      OrderlyOnward(true, w.s.q.past.late, w'.boxes, w'.s.q.accepting, w'.s.q.past.late);
      NobodyDrains(w.s, w'.s, t, w'.boxes, w.tries);
    }
  }

  lemma NobodyDrains(s: State, s': State, t: nat, boxes: seq<Box>, tries: map<nat, Try>)
    requires Exclusive(s) && s.q.accepting && SameOthers(s.threads, t, s'.threads) && t !in tries
    requires forall u :: u in tries ==> u in s.threads && Consuming(s.threads[u])
    ensures Thorough(s'.threads, boxes, tries)
  {
    forall u | u in tries
      ensures !s.threads[u].Draining?
    {
    }
  }

  lemma LookOrderly(w: Whole, t: nat, i: nat, b: Box)
    requires Sound(w) && Exclusive(w.s) && CanLook(w, t, i) && Protocol.Consume(w.boxes[i], t, b)
    ensures Orderly(w.s.q.accepting, w.s.q.past.late, w.boxes[i := b])
  {
    if w.s.q.accepting {
      OnlyOne(w.s, w.boxes, w.tries, t, i);
      ConsumeCalm(w.boxes[i], t, b);
    } else if !w.s.q.past.late {
      ConsumeFair(w.boxes[i], t, b);
    }
    OrderlyPut(w.s.q.accepting, w.s.q.past.late, w.boxes, i, b);
  }

  lemma LooksSound(w: Whole, t: nat, i: nat, b: Box, w': Whole)
    requires Sound(w) && Exclusive(w.s) && Looks(w, t, i, b, w') && !TakesOut(w.boxes[i], t)
    ensures Sound(w')
  {
    ConsumeGood(w.boxes[i], t, b);
    AccountsPut(w.boxes, w.s.q.mail, i, b, w.s.q.mail);
    LookOrderly(w, t, i, b);
    WhereLook(w.s.threads, w.boxes, w.tries, t, i, b);
    if !w.s.q.past.late {
      ThoroughLook(w.s.threads, w.boxes, w.tries, t, i, b);
    }
  }

  lemma MailIsThere(boxes: seq<Box>, mail: nat, t: nat, i: nat)
    requires Accounts(boxes, mail) && i < |boxes| && TakesOut(boxes[i], t)
    ensures mail > 0
  {
    forall k | 0 <= k < |boxes|
      ensures Left(boxes[k]) >= 0
    {
      LoggedFits(boxes[k]);
    }
    SumAtLeast(boxes, i);
    FetchedIsLeft(boxes[i], t);
  }

  /** A dequeue succeeds. */
  lemma TakesKeeps(w: Whole, t: nat, i: nat, b: Box, w': Whole)
    requires Kept(w) && Looks(w, t, i, b, w') && TakesOut(w.boxes[i], t)
    ensures Kept(w')
  {
    IsExclusive(w.s);
    MailIsThere(w.boxes, w.s.q.mail, t, i);
    Moves(w.s, t, Go(false, 0), w'.s);
    TakesSound(w, t, i, b, w');
  }

  lemma TakesSound(w: Whole, t: nat, i: nat, b: Box, w': Whole)
    requires Sound(w) && Exclusive(w.s) && Looks(w, t, i, b, w') && TakesOut(w.boxes[i], t)
    requires w'.s.q.mail == w.s.q.mail - 1 && SameOthers(w.s.threads, t, w'.s.threads)
    requires (w.s.q.past.late ==> w'.s.q.past.late) && (w'.s.q.accepting ==> w.s.q.accepting)
    ensures Sound(w')
  {
    ConsumeGood(w.boxes[i], t, b);
    AccountsPut(w.boxes, w.s.q.mail, i, b, w'.s.q.mail);
    LookOrderly(w, t, i, b);
    OrderlyOnward(w.s.q.accepting, w.s.q.past.late, w'.boxes, w'.s.q.accepting, w'.s.q.past.late);
    TakesWhere(w.s.threads, w.boxes, w.tries, t, i, b, w'.s.threads);
    if !w.s.q.past.late {
      TakesThorough(w.s.threads, w.boxes, w.tries, t, i, b, w'.s.threads);
    }
  }

  lemma TakesWhere(threads: map<nat, Pc>, boxes: seq<Box>, tries: map<nat, Try>, t: nat, i: nat, b: Box,
                   threads': map<nat, Pc>)
    requires Whereabouts(threads, boxes, tries) && t in tries && i < |boxes| && SameOthers(threads, t, threads')
    requires tries[t].at.Some? ==> tries[t].at == Some(i)
    requires TakesOut(boxes[i], t) && Protocol.Consume(boxes[i], t, b)
    ensures Whereabouts(threads', boxes[i := b], tries - {t})
  {
    var y := After(tries[t], i, false);
    WhereLook(threads, boxes, tries, t, i, b);
    assert tries[t := y] - {t} == tries - {t};
    WhereLeave(threads, boxes[i := b], tries[t := y], t, threads');
  }

  lemma TakesThorough(threads: map<nat, Pc>, boxes: seq<Box>, tries: map<nat, Try>, t: nat, i: nat, b: Box,
                      threads': map<nat, Pc>)
    requires Thorough(threads, boxes, tries) && Whereabouts(threads, boxes, tries) && SameOthers(threads, t, threads')
    requires i < |boxes| && TakesOut(boxes[i], t) && Protocol.Consume(boxes[i], t, b)
    ensures Thorough(threads', boxes[i := b], tries - {t})
  {
    var boxes' := boxes[i := b];
    forall u, k | u in tries && u != t && threads[u].Draining? && 0 <= k < |boxes'|
      ensures Sees(boxes'[k], k, u, tries[u])
    {
      assert Sees(boxes[k], k, u, tries[u]);
    }
  }

  lemma OutsideKept(w: Whole, t: nat, c: Choice, w': Whole)
    requires Kept(w) && Acts(w, t, c, w')
    ensures Kept(w')
  {
    if At(w.s.threads, t) == Sending(Enqueue) {
      var i: nat :| Fills(w.boxes, i, w'.boxes);
      EnqueueKeeps(w, t, c, i, w');
    } else {
      ActsKeeps(w, t, c, w');
    }
  }

  lemma LookKept(w: Whole, t: nat, i: nat, b: Box, w': Whole)
    requires Kept(w) && Looks(w, t, i, b, w')
    ensures Kept(w')
  {
    if TakesOut(w.boxes[i], t) {
      TakesKeeps(w, t, i, b, w');
    } else {
      IsExclusive(w.s);
      LooksSound(w, t, i, b, w');
    }
  }

  /** Every step of every thread, inside try_dequeue or outside, keeps the invariant. */
  lemma NextKept(w: Whole, w': Whole)
    requires Kept(w) && WholeNext(w, w')
    ensures Kept(w')
  {
    if Joins(w, w') {
      JoinsSound(w);
    } else if t: nat, c: Choice :| Acts(w, t, c, w') {
      OutsideKept(w, t, c, w');
    } else if t: nat :| Begins(w, t, w') || Misses(w, t, w') {
      if Begins(w, t, w') {
        BeginsSound(w, t, w');
      } else {
        MissesKeeps(w, t, w');
      }
    } else {
      var t: nat, i: nat, b: Box :| Looks(w, t, i, b, w');
      LookKept(w, t, i, b, w');
    }
  }

  lemma {:induction false} RunKept(run: seq<Whole>, i: nat)
    requires IsWholeRun(run) && i < |run|
    ensures Kept(run[i])
  {
    if i == 0 {
      InitialInv();
    } else {
      RunKept(run, i - 1);
      assert Follows(run, i - 1);
      NextKept(run[i - 1], run[i]);
    }
  }
}
